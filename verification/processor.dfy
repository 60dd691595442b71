/**
 The state transition as the node runs it (state/transition.go:61-506, core/producer.go:70-148):
 methods that charge, run, refund and roll back on one journalled State, proved to compute the
 functions of module Transition, and block building, proved to produce only valid blocks.
 */
module Processor {
  import opened Types
  import opened Worlds
  import Journal
  import opened Vm
  import opened VmSafety
  import opened Interpreter
  import opened Issuance
  import opened Transition
  import opened Alikeness

  type State = Journal.State

  /** Between transactions there is no savepoint and nothing to undo. */
  ghost predicate Idle(s: State)
    reads s
  {
    s.snapshots == [] && s.journal == []
  }

  method DistributeFee(s: State, proposer: Address, fee: nat)
    requires Idle(s)
    modifies s
    ensures Idle(s) && s.World() == Transition.DistributeFee(old(s.World()), proposer, fee)
  {
    var burn := fee * FEE_BURN_BPS / 10000;
    var tip := fee - burn;
    s.Burn(burn);
    s.AddBalance(proposer, tip);
  }

  method CreditBlockReward(r: Rules, s: State, miner: Address, height: nat)
    requires Idle(s)
    modifies s
    ensures Idle(s) && s.World() == Transition.CreditBlockReward(r, old(s.World()), miner, height)
  {
    var reward: int := BlockRewardAt(height);
    if r.treasuryBps > 0 && r.treasury != 0 {
      var cut := reward * r.treasuryBps / 10000;
      if r.treasury == BURN_ADDRESS {
        s.Burn(cut);
      } else {
        s.AddBalance(r.treasury, cut);
      }
      reward := reward - cut;
    }
    s.AddBalance(miner, reward);
  }

  /** Runs the undoable part. On failure the caller rolls back to the savepoint it took. */
  method RunTx(r: Rules, s: State, tx: Tx, sender: Address, env: BlockEnv) returns (failed: bool, gasUsed: nat)
    requires IntrinsicGas(tx) <= tx.gasLimit && Journal.Valid(s.View())
    modifies s
    ensures var run := Transition.RunTx(r, old(s.World()), tx, sender, env);
            failed == run.Undone? && gasUsed == run.gas && (run.Committed? ==> s.World() == run.world)
    ensures Journal.Valid(s.View()) && Journal.Ahead(old(s.View()), s.View())
  {
    hide Journal.Ahead, Journal.Valid, IntrinsicGas, Vm.Execute;
    var budget := tx.gasLimit - IntrinsicGas(tx);
    s.AddBalance(sender, -(tx.value as int));
    ghost var s1 := s.View();
    Journal.AheadReflexive(s1);
    failed, gasUsed := false, 0;
    if tx.to.None? {
      var addr := r.m.createAddress(sender, tx.nonce);
      if Nonce(s.World(), addr) != 0 || |Code(s.World(), addr)| > 0 {
        return true, budget;
      }
      failed, gasUsed := RunCreation(r, s, tx, sender, env, addr, budget);
    } else if |Code(s.World(), tx.to.value)| > 0 {
      failed, gasUsed := RunCall(r, s, tx, sender, env, tx.to.value, budget);
    } else if tx.to.value == BURN_ADDRESS {
      s.Burn(tx.value);
    } else {
      s.AddBalance(tx.to.value, tx.value);
    }
    Journal.AheadTransitive(old(s.View()), s1, s.View());
  }

  method RunCreation(r: Rules, s: State, tx: Tx, sender: Address, env: BlockEnv, addr: Address, budget: nat)
    returns (failed: bool, gasUsed: nat)
    requires Journal.Valid(s.View())
    modifies s
    ensures var o := Execute(r.m, tx.data, [], budget, Context(addr, sender, tx.value, false, env), 0,
                             Credit(old(s.World()), addr, tx.value));
            var run := Deployed(addr, budget, o);
            failed == run.Undone? && gasUsed == run.gas && (run.Committed? ==> s.World() == run.world)
    ensures Journal.Valid(s.View()) && Journal.Ahead(old(s.View()), s.View())
  {
    hide Journal.Ahead, Journal.Valid, Vm.Execute;
    s.AddBalance(addr, tx.value);
    ghost var s1 := s.View();
    var res := ExecuteFrame(r.m, s, tx.data, [], budget, Context(addr, sender, tx.value, false, env), 0);
    ghost var s2 := s.View();
    Journal.AheadTransitive(old(s.View()), s1, s2);
    gasUsed := budget - res.gasLeft;
    if res.status != Success {
      failed := true;
    } else if |res.ret| > MAX_CODE_SIZE {
      failed, gasUsed := true, budget;
    } else {
      var codeGas := CREATE_DATA_GAS * |res.ret|;
      if res.gasLeft < codeGas {
        failed, gasUsed := true, budget;
      } else {
        failed, gasUsed := false, gasUsed + codeGas;
        s.SetCode(addr, res.ret);
        Journal.AheadTransitive(old(s.View()), s2, s.View());
      }
    }
  }

  method RunCall(r: Rules, s: State, tx: Tx, sender: Address, env: BlockEnv, to: Address, budget: nat)
    returns (failed: bool, gasUsed: nat)
    requires Journal.Valid(s.View())
    modifies s
    ensures var w := Credit(old(s.World()), to, tx.value);
            var run := Called(budget, Execute(r.m, Code(w, to), tx.data, budget,
                                              Context(to, sender, tx.value, false, env), 0, w));
            failed == run.Undone? && gasUsed == run.gas && (run.Committed? ==> s.World() == run.world)
    ensures Journal.Valid(s.View()) && Journal.Ahead(old(s.View()), s.View())
  {
    hide Journal.Ahead, Journal.Valid, Vm.Execute;
    s.AddBalance(to, tx.value);
    ghost var s1 := s.View();
    var res := ExecuteFrame(r.m, s, Code(s.World(), to), tx.data, budget, Context(to, sender, tx.value, false, env), 0);
    Journal.AheadTransitive(old(s.View()), s1, s.View());
    gasUsed := budget - res.gasLeft;
    failed := res.status != Success;
  }

  /** Runs the undoable part under a savepoint of its own, and leaves none behind. */
  method RunOrUndo(r: Rules, s: State, tx: Tx, sender: Address, env: BlockEnv) returns (failed: bool, gasUsed: nat)
    requires IntrinsicGas(tx) <= tx.gasLimit && Idle(s)
    modifies s
    ensures var run := Transition.RunTx(r, old(s.World()), tx, sender, env);
            && Idle(s) && failed == run.Undone? && gasUsed == run.gas
            && s.World() == if run.Committed? then run.world else old(s.World())
  {
    hide Journal.Ahead, Transition.RunTx, IntrinsicGas;
    ghost var before := s.View();
    var snap := s.Snapshot();
    failed, gasUsed := RunTx(r, s, tx, sender, env);
    if failed {
      Journal.RevertRestores(before, s.View());
      s.RevertToSnapshot(snap);
    } else {
      s.DiscardSnapshots();
    }
  }

  /** Gives back what was not spent and distributes the rest. */
  method Settle(s: State, sender: Address, coinbase: Address, maxFee: nat, spent: nat)
    requires Idle(s)
    modifies s
    ensures Idle(s)
    ensures s.World() == Transition.DistributeFee(Refund(old(s.World()), sender, maxFee - spent), coinbase, spent)
  {
    hide Journal.Ahead, Transition.DistributeFee;
    if maxFee - spent > 0 {
      s.AddBalance(sender, maxFee - spent);
    }
    DistributeFee(s, coinbase, spent);
  }

  /**
   One transaction on the live state. A rejected one leaves it untouched; afterwards the savepoint
   stack and the journal are empty again.
   */
  method ApplyTx(r: Rules, s: State, tx: Tx, coinbase: Address, blockGasLimit: nat, env: BlockEnv)
    returns (o: TxOutcome)
    requires Idle(s)
    modifies s
    ensures Idle(s) && o == Transition.ApplyTx(r, old(s.World()), tx, coinbase, blockGasLimit, env)
    ensures s.World() == if o.Applied? then o.world else old(s.World())
  {
    hide Journal.Ahead, Transition.RunTx, IntrinsicGas, Fee, Put, Transition.DistributeFee, Refund;
    ghost var w := s.World();
    var who := r.sender(tx);
    if who.None? {
      return Rejected(BadSender);
    }
    var sender := who.value;
    var acc := Get(s.World(), sender);
    if tx.nonce < acc.nonce {
      return Rejected(NonceTooLow);
    }
    if tx.nonce > acc.nonce {
      return Rejected(NonceTooHigh);
    }
    var intrinsic := IntrinsicGas(tx);
    if tx.gasLimit < intrinsic {
      return Rejected(GasLimit);
    }
    if blockGasLimit > 0 && tx.gasLimit > blockGasLimit {
      return Rejected(GasLimit);
    }
    var maxFee := Fee(tx.gasLimit, tx.gasPrice);
    if acc.balance < maxFee + tx.value {
      return Rejected(Insufficient);
    }
    s.Set(sender, acc.(balance := acc.balance - maxFee, nonce := acc.nonce + 1));
    var logStart := |s.logs|;
    assert s.World() == Charged(w, sender, tx);
    var failed, vmGas := RunOrUndo(r, s, tx, sender, TxEnv(env, sender, tx, coinbase, blockGasLimit));
    var gasUsed := intrinsic + vmGas;
    Settle(s, sender, coinbase, maxFee, Fee(gasUsed, tx.gasPrice));
    return Applied(gasUsed, !failed, LogsSince(s.World(), logStart), s.World());
  }

  /** A block is all or nothing: it runs on a copy, and the parent state is never written. */
  method ApplyBlock(r: Rules, parent: State, b: Block, parentHeader: Option<Header>)
    returns (o: BlockOutcome, next: State)
    ensures o == Transition.ApplyBlock(r, parent.World(), b, parentHeader)
    ensures fresh(next) && Idle(next) && (o.Accepted? ==> next.World() == o.world)
  {
    hide ApplyTxs, Transition.ApplyTx, Transition.CreditBlockReward, HeaderError;
    var h := b.header;
    next := new Journal.State(parent.World());
    if b.txs != h.txRoot {
      return Refused(BadTxRoot), next;
    }
    var bad := HeaderError(h, parentHeader);
    if bad.Some? {
      return Refused(bad.value), next;
    }
    next := new Journal.State(parent.World().(touched := {}));
    ghost var start := next.World();
    var at := SlotOf(h);
    var totalGas: nat := 0;
    var receipts: seq<Receipt> := [];
    NoTxs(r, start, b.txs[..0], at);
    for i := 0 to |b.txs|
      invariant Idle(next) && fresh(next)
      invariant ApplyTxs(r, start, b.txs[..i], at) == Some(BlockRun(next.World(), receipts, totalGas))
    {
      OneMoreTx(r, start, b.txs[..i], b.txs[i], at);
      assert b.txs[..i] + [b.txs[i]] == b.txs[..i + 1];
      var t := ApplyTx(r, next, b.txs[i], at.proposer, at.gasLimit, at.env);
      if t.Rejected? || totalGas + t.gasUsed > h.gasLimit {
        TxsFailEarly(r, start, b.txs, i + 1, at);
        return Refused(BadTx), next;
      }
      totalGas := totalGas + t.gasUsed;
      receipts := receipts + [Receipt(t.success, t.gasUsed, totalGas, t.logs)];
    }
    assert b.txs[..|b.txs|] == b.txs;
    if totalGas != h.gasUsed {
      return Refused(BadGasUsed), next;
    }
    if r.receiptRoot(receipts) != h.receiptRoot {
      return Refused(BadReceiptRoot), next;
    }
    CreditBlockReward(r, next, h.proposer, h.height);
    if r.stateRoot(next.accounts, next.burned) != h.stateRoot {
      return Refused(BadStateRoot), next;
    }
    return Accepted(next.World(), receipts), next;
  }

  lemma NoTxs(r: Rules, w: World, txs: seq<Tx>, at: Slot)
    requires txs == []
    ensures ApplyTxs(r, w, txs, at) == Some(BlockRun(w, [], 0))
  {
  }

  lemma OneMoreTx(r: Rules, w: World, txs: seq<Tx>, tx: Tx, at: Slot)
    requires ApplyTxs(r, w, txs, at).Some?
    ensures ApplyTxs(r, w, txs + [tx], at) == ApplyNext(r, ApplyTxs(r, w, txs, at).value, tx, at)
  {
    assert (txs + [tx])[..|txs|] == txs;
  }

  /** The roots and the gas a header claims are not part of its slot. */
  lemma SlotFields(h: Header)
    ensures SlotOf(h) == SlotOf(h.(txRoot := [], receiptRoot := 0, stateRoot := 0, gasUsed := 0))
    ensures SlotOf(h).proposer == h.proposer && SlotOf(h).gasLimit == h.gasLimit
  {
  }

  /** A list of transactions with a failing prefix fails. */
  lemma {:induction false} TxsFailEarly(r: Rules, w: World, txs: seq<Tx>, n: nat, at: Slot)
    requires n <= |txs| && ApplyTxs(r, w, txs[..n], at).None?
    ensures ApplyTxs(r, w, txs, at).None?
    decreases |txs|
  {
    hide Transition.ApplyTx;
    if n == |txs| {
      assert txs[..n] == txs;
    } else {
      assert txs[..|txs| - 1][..n] == txs[..n];
      TxsFailEarly(r, w, txs[..|txs| - 1], n, at);
    }
  }

  // ----- building -----

  /** What the proposer earns in fees: per transaction, the fee less its burn. */
  function SumTips(txs: seq<Tx>, receipts: seq<Receipt>): int
    requires |txs| == |receipts|
  {
    if txs == [] then 0
    else
      var n := |txs| - 1;
      SumTips(txs[..n], receipts[..n]) + Tip(Fee(receipts[n].gasUsed, txs[n].gasPrice))
  }

  /** Which candidates are taken, and whether one was met that no longer fits. */
  datatype Selection = Selection(txs: seq<Tx>, full: bool)

  /**
   In order: a candidate that is rejected after those taken so far is skipped, and the first one
   whose gas no longer fits ends the selection.
   */
  ghost function Greedy(r: Rules, w: World, candidates: seq<Tx>, at: Slot): (s: Selection)
    ensures ApplyTxs(r, w, s.txs, at).Some?
  {
    if candidates == [] then
      NoTxs(r, w, [], at);
      Selection([], false)
    else
      var n := |candidates| - 1;
      var before := Greedy(r, w, candidates[..n], at);
      var run := ApplyTxs(r, w, before.txs, at).value;
      var o := Transition.ApplyTx(r, run.world, candidates[n], at.proposer, at.gasLimit, at.env);
      if before.full || o.Rejected? then before
      else if run.gas + o.gasUsed > at.gasLimit then before.(full := true)
      else
        OneMoreTx(r, w, before.txs, candidates[n], at);
        Selection(before.txs + [candidates[n]], false)
  }

  lemma LastTxFits(r: Rules, w: World, txs: seq<Tx>, at: Slot)
    requires txs != [] && ApplyTxs(r, w, txs, at).Some?
    ensures ApplyTxs(r, w, txs[..|txs| - 1], at).Some?
    ensures var run := ApplyTxs(r, w, txs[..|txs| - 1], at).value;
            var o := Transition.ApplyTx(r, run.world, txs[|txs| - 1], at.proposer, at.gasLimit, at.env);
            o.Applied? && run.gas + o.gasUsed <= at.gasLimit
  {
    hide Transition.ApplyTx;
  }

  /** Candidates that apply one after another within the limit are all taken, in their order. */
  lemma {:induction false} GreedyTakesAll(r: Rules, w: World, candidates: seq<Tx>, at: Slot)
    requires ApplyTxs(r, w, candidates, at).Some?
    ensures Greedy(r, w, candidates, at) == Selection(candidates, false)
  {
    hide Transition.ApplyTx, ApplyTxs;
    if candidates != [] {
      var n := |candidates| - 1;
      LastTxFits(r, w, candidates, at);
      GreedyTakesAll(r, w, candidates[..n], at);
      assert candidates == candidates[..n] + [candidates[n]];
    }
  }

  /** What has been taken stays taken, and nothing is taken after the first that does not fit. */
  lemma {:induction false} GreedyGrows(r: Rules, w: World, candidates: seq<Tx>, n: nat, at: Slot)
    requires n <= |candidates|
    ensures Greedy(r, w, candidates[..n], at).txs <= Greedy(r, w, candidates, at).txs
    ensures Greedy(r, w, candidates[..n], at).full ==> Greedy(r, w, candidates, at) == Greedy(r, w, candidates[..n], at)
    decreases |candidates|
  {
    hide Transition.ApplyTx, ApplyTxs;
    if n == |candidates| {
      assert candidates[..n] == candidates;
    } else {
      var k := |candidates| - 1;
      GreedyGrows(r, w, candidates[..k], n, at);
      assert candidates[..k][..n] == candidates[..n];
    }
  }

  /** One candidate more, in the three ways it can go. */
  lemma GreedyNext(r: Rules, w: World, txs: seq<Tx>, i: nat, at: Slot, included: seq<Tx>)
    requires i < |txs| && Greedy(r, w, txs[..i], at) == Selection(included, false)
    ensures ApplyTxs(r, w, included, at).Some?
    ensures var run := ApplyTxs(r, w, included, at).value;
            var o := Transition.ApplyTx(r, run.world, txs[i], at.proposer, at.gasLimit, at.env);
            Greedy(r, w, txs[..i + 1], at) ==
            if o.Rejected? then Selection(included, false)
            else if run.gas + o.gasUsed > at.gasLimit then Selection(included, true)
            else Selection(included + [txs[i]], false)
  {
    hide ApplyTxs, Transition.ApplyTx;
    assert txs[..i + 1][..i] == txs[..i];
  }

  lemma TipsNext(txs: seq<Tx>, receipts: seq<Receipt>, tx: Tx, rc: Receipt)
    requires |txs| == |receipts|
    ensures SumTips(txs + [tx], receipts + [rc]) == SumTips(txs, receipts) + Tip(Fee(rc.gasUsed, tx.gasPrice))
  {
    assert (txs + [tx])[..|txs|] == txs && (receipts + [rc])[..|txs|] == receipts;
  }

  /** Tries each candidate on a copy of the state so far. */
  method Select(r: Rules, snapshot: State, txs: seq<Tx>, at: Slot)
    returns (working: State, included: seq<Tx>, receipts: seq<Receipt>, gasUsed: nat, minerFees: int)
    ensures fresh(working) && Idle(working)
    ensures ApplyTxs(r, snapshot.World(), included, at) == Some(BlockRun(working.World(), receipts, gasUsed))
    ensures |receipts| == |included| && minerFees == SumTips(included, receipts)
    ensures included == Greedy(r, snapshot.World(), txs, at).txs
  {
    hide ApplyTxs, Transition.ApplyTx, Greedy, Fee, SumTips;
    ghost var start := snapshot.World();
    working := new Journal.State(snapshot.World());
    included, receipts, gasUsed, minerFees := [], [], 0, 0;
    NothingSelected(r, start, txs, at);
    for i := 0 to |txs|
      invariant Idle(working) && fresh(working)
      invariant Greedy(r, start, txs[..i], at) == Selection(included, false)
      invariant ApplyTxs(r, start, included, at) == Some(BlockRun(working.World(), receipts, gasUsed))
      invariant |receipts| == |included| && minerFees == SumTips(included, receipts)
    {
      var tx := txs[i];
      GreedyNext(r, start, txs, i, at, included);
      var trial := new Journal.State(working.World());
      var o := ApplyTx(r, trial, tx, at.proposer, at.gasLimit, at.env);
      if o.Rejected? {
        continue;
      }
      if gasUsed + o.gasUsed > at.gasLimit {
        GreedyGrows(r, start, txs, i + 1, at);
        return;
      }
      working := trial;
      gasUsed := gasUsed + o.gasUsed;
      var fee := Fee(o.gasUsed, tx.gasPrice);
      minerFees := minerFees + (fee - fee * FEE_BURN_BPS / 10000);
      OneMoreTx(r, start, included, tx, at);
      TipsNext(included, receipts, tx, Receipt(o.success, o.gasUsed, gasUsed, o.logs));
      included := included + [tx];
      receipts := receipts + [Receipt(o.success, o.gasUsed, gasUsed, o.logs)];
    }
    assert txs[..|txs|] == txs;
  }

  lemma NothingSelected(r: Rules, w: World, txs: seq<Tx>, at: Slot)
    ensures Greedy(r, w, txs[..0], at) == Selection([], false) && SumTips([], []) == 0
    ensures ApplyTxs(r, w, [], at) == Some(BlockRun(w, [], 0))
  {
  }

  /**
   Whatever the candidates, the block holds the greedy selection, validation accepts it on the same
   parent with the state the producer arrived at, and minerFees is the sum of the tips paid.
   */
  method BuildUnsealed(r: Rules, parent: Header, snapshot: State, txs: seq<Tx>, coinbase: Address, now: int,
                       difficulty: nat)
    returns (blk: Block, minerFees: int, working: State)
    requires parent.gasLimit >= MIN_BLOCK_GAS_LIMIT
    ensures blk.header.parentHash == Child(parent) && blk.header.height == parent.height + 1
    ensures blk.header.timestamp == if now > parent.timestamp then now else parent.timestamp + 1
    ensures blk.header.gasLimit == parent.gasLimit && blk.header.proposer == coinbase
    ensures blk.header.difficulty == difficulty && blk.header.nonce == 0
    ensures var o := Transition.ApplyBlock(r, snapshot.World(), blk, Some(parent));
            && o.Accepted? && Alike(o.world, 0, working.World(), 0)
            && |o.receipts| == |blk.txs| && minerFees == SumTips(blk.txs, o.receipts)
    ensures blk.txs == Greedy(r, snapshot.World(), txs, SlotOf(blk.header)).txs
  {
    hide ApplyTxs, Transition.ApplyTx, Transition.CreditBlockReward, SlotOf, Greedy, SumTips;
    var ts := now;
    if ts <= parent.timestamp {
      ts := parent.timestamp + 1;
    }
    var header := Header(Child(parent), parent.height + 1, ts, [], 0, 0, 0, parent.gasLimit, coinbase, difficulty, 0);
    SlotFields(header);
    var included, receipts, gasUsed;
    working, included, receipts, gasUsed, minerFees := Select(r, snapshot, txs, SlotOf(header));
    ghost var ran := working.World();
    CreditBlockReward(r, working, coinbase, header.height);
    header := header.(txRoot := included, receiptRoot := r.receiptRoot(receipts),
      stateRoot := r.stateRoot(working.accounts, working.burned), gasUsed := gasUsed);
    blk := Block(header, included);
    SlotFields(header);
    BuiltBlockIsValid(r, snapshot.World(), ran, blk, parent, receipts);
  }

  lemma BuiltBlockIsValid(r: Rules, start: World, ran: World, b: Block, parent: Header, receipts: seq<Receipt>)
    requires ApplyTxs(r, start, b.txs, SlotOf(b.header)) == Some(BlockRun(ran, receipts, b.header.gasUsed))
    requires b.txs == b.header.txRoot && HeaderError(b.header, Some(parent)).None?
    requires var w := Transition.CreditBlockReward(r, ran, b.header.proposer, b.header.height);
             b.header.stateRoot == r.stateRoot(w.accounts, w.burned) && b.header.receiptRoot == r.receiptRoot(receipts)
    ensures var o := Transition.ApplyBlock(r, start, b, Some(parent));
            && o.Accepted? && o.receipts == receipts
            && Alike(o.world, 0, Transition.CreditBlockReward(r, ran, b.header.proposer, b.header.height), 0)
  {
    hide ApplyTxs, Transition.CreditBlockReward, HeaderError;
    ApplyTxsAlike(r, start.(touched := {}), 0, start, 0, b.txs, SlotOf(b.header));
    var run := ApplyTxs(r, start.(touched := {}), b.txs, SlotOf(b.header)).value;
    RewardAlike(r, run.world, 0, ran, 0, b.header.proposer, b.header.height);
  }
}
