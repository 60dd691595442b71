/**
 What an accepted block is: a header that follows its parent, transactions that apply one after the other, receipts
 that say what each did, and a reward. The trace of worlds between the transactions is the reference.
 */
module BlockLaws {
  import opened Types
  import opened Worlds
  import opened Vm
  import opened Issuance
  import opened Transition
  import opened Ledger

  /** Strictly later, one higher, on the parent, and with a gas limit that moved by less than a 1024th. */
  predicate Follows(h: Header, p: Header) {
    && h.parentHash == Child(p) && h.height == p.height + 1 && h.timestamp > p.timestamp
    && h.gasLimit >= 1_000_000
    && -(p.gasLimit / 1024) < h.gasLimit - p.gasLimit < p.gasLimit / 1024
  }

  /** What the contracts of a block see: its height, its time in seconds and its difficulty. */
  function BlockSees(h: Header): BlockEnv {
    BlockEnv(0, 0, 0, h.height, h.timestamp % TWO_64 / 1000, h.difficulty, 0, 0)
  }

  function GasOf(receipts: seq<Receipt>): nat {
    if receipts == [] then 0 else receipts[0].gasUsed + GasOf(receipts[1..])
  }

  /** Transaction i is applied to the world before it, and its receipt says how that went. */
  ghost predicate Turn(r: Rules, h: Header, txs: seq<Tx>, receipts: seq<Receipt>, ws: seq<World>, i: nat)
    requires i < |txs| == |receipts| && |ws| == |txs| + 1
  {
    var o, rc := ApplyTx(r, ws[i], txs[i], h.proposer, h.gasLimit, BlockSees(h)), receipts[i];
    && o == Applied(rc.gasUsed, rc.success, rc.logs, ws[i + 1])
    && rc.cumulativeGas == GasOf(receipts[..i + 1]) <= h.gasLimit
  }

  /** ws[i] is the world after i transactions; the gas of all up to any of them is within the limit. */
  ghost predicate Trace(r: Rules, h: Header, txs: seq<Tx>, receipts: seq<Receipt>, ws: seq<World>) {
    && |receipts| == |txs| && |ws| == |txs| + 1
    && forall i :: 0 <= i < |txs| ==> Turn(r, h, txs, receipts, ws, i)
  }

  lemma {:induction false} GasAppend(rs: seq<Receipt>, rc: Receipt)
    ensures GasOf(rs + [rc]) == GasOf(rs) + rc.gasUsed
  {
    if rs == [] {
      assert [rc][1..] == [];
    } else {
      GasAppend(rs[1..], rc);
      assert (rs + [rc])[1..] == rs[1..] + [rc];
    }
  }

  /** The transactions apply exactly when there is a trace, and then as it says. */
  lemma {:induction false} TraceOfRun(r: Rules, w: World, h: Header, txs: seq<Tx>) returns (ws: seq<World>)
    requires ApplyTxs(r, w, txs, SlotOf(h)).Some?
    ensures var run := ApplyTxs(r, w, txs, SlotOf(h)).value;
            && Trace(r, h, txs, run.receipts, ws) && ws[0] == w && ws[|txs|] == run.world
            && run.gas == GasOf(run.receipts)
  {
    hide ApplyTx;
    if txs == [] {
      ws := [w];
    } else {
      var n := |txs| - 1;
      ws := TraceOfRun(r, w, h, txs[..n]);
      var sofar, run := ApplyTxs(r, w, txs[..n], SlotOf(h)).value, ApplyTxs(r, w, txs, SlotOf(h)).value;
      GasAppend(sofar.receipts, run.receipts[n]);
      ws := ws + [run.world];
      forall i | 0 <= i < |txs| ensures Turn(r, h, txs, run.receipts, ws, i) {
        if i < n {
          assert Turn(r, h, txs[..n], sofar.receipts, ws[..n + 1], i);
          assert run.receipts[..i + 1] == sofar.receipts[..i + 1];
        } else {
          assert run.receipts[..n + 1] == run.receipts;
        }
      }
    }
  }

  lemma {:induction false} RunOfTrace(r: Rules, h: Header, txs: seq<Tx>, receipts: seq<Receipt>, ws: seq<World>)
    requires Trace(r, h, txs, receipts, ws)
    ensures ApplyTxs(r, ws[0], txs, SlotOf(h)) == Some(BlockRun(ws[|txs|], receipts, GasOf(receipts)))
  {
    hide ApplyTx;
    if txs != [] {
      var n := |txs| - 1;
      var init, before, worlds := receipts[..n], txs[..n], ws[..n + 1];
      forall i | 0 <= i < n ensures Turn(r, h, before, init, worlds, i) {
        assert Turn(r, h, txs, receipts, ws, i) && init[..i + 1] == receipts[..i + 1];
      }
      RunOfTrace(r, h, before, init, worlds);
      assert Turn(r, h, txs, receipts, ws, n);
      GasAppend(init, receipts[n]);
      assert receipts == init + [receipts[n]] && receipts[..n + 1] == receipts;
    }
  }

  lemma FollowsIff(h: Header, p: Header)
    ensures HeaderError(h, Some(p)).None? <==> Follows(h, p)
  {
  }

  /** Gas, receipt root and state root are those of the trace and the reward. */
  ghost predicate Committed(r: Rules, w: World, b: Block, receipts: seq<Receipt>, ws: seq<World>) {
    && Trace(r, b.header, b.txs, receipts, ws) && ws[0] == w.(touched := {})
    && b.header.gasUsed == GasOf(receipts) && b.header.receiptRoot == r.receiptRoot(receipts)
    && var w' := CreditBlockReward(r, ws[|b.txs|], b.header.proposer, b.header.height);
       b.header.stateRoot == r.stateRoot(w'.accounts, w'.burned)
  }

  /**
   A block is accepted on its parent if and only if it follows it, holds the transactions its root names, and has a
   trace from the parent's world that it commits to.
   */
  lemma AcceptedIff(r: Rules, w: World, b: Block, parent: Header)
    ensures ApplyBlock(r, w, b, Some(parent)).Accepted? <==>
              && Follows(b.header, parent) && b.txs == b.header.txRoot
              && exists receipts, ws :: Committed(r, w, b, receipts, ws)
  {
    hide ApplyTxs, CreditBlockReward, Trace, Follows, HeaderError, ApplyTx;
    FollowsIff(b.header, parent);
    if ApplyBlock(r, w, b, Some(parent)).Accepted? {
      var ws := AcceptedMeans(r, w, b, parent);
      var run := ApplyTxs(r, w.(touched := {}), b.txs, SlotOf(b.header)).value;
      RunOfTrace(r, b.header, b.txs, run.receipts, ws);
      assert Committed(r, w, b, run.receipts, ws);
    }
    forall receipts, ws | Committed(r, w, b, receipts, ws)
      ensures |ws| == |b.txs| + 1
      ensures ApplyTxs(r, w.(touched := {}), b.txs, SlotOf(b.header)) ==
              Some(BlockRun(ws[|b.txs|], receipts, GasOf(receipts)))
    {
      TraceShape(r, b.header, b.txs, receipts, ws);
      RunOfTrace(r, b.header, b.txs, receipts, ws);
    }
  }

  lemma TraceShape(r: Rules, h: Header, txs: seq<Tx>, receipts: seq<Receipt>, ws: seq<World>)
    requires Trace(r, h, txs, receipts, ws)
    ensures |ws| == |txs| + 1 && |receipts| == |txs|
  {
  }

  /** What an accepted block hands back: the receipts of its trace, and the last world with the reward. */
  lemma AcceptedMeans(r: Rules, w: World, b: Block, parent: Header) returns (ws: seq<World>)
    requires ApplyBlock(r, w, b, Some(parent)).Accepted?
    ensures var o := ApplyBlock(r, w, b, Some(parent));
            && Trace(r, b.header, b.txs, o.receipts, ws) && |ws| == |b.txs| + 1 && ws[0] == w.(touched := {})
            && o.world == CreditBlockReward(r, ws[|b.txs|], b.header.proposer, b.header.height)
  {
    hide ApplyTxs, CreditBlockReward, Trace, HeaderError, ApplyTx;
    ws := TraceOfRun(r, w.(touched := {}), b.header, b.txs);
    TraceShape(r, b.header, b.txs, ApplyBlock(r, w, b, Some(parent)).receipts, ws);
  }
}
