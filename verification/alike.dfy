/**
 Marks and past events are bookkeeping: a transaction, a list of transactions and a whole block do
 the same to worlds that hold the same accounts and burn total.
 */
module Alikeness {
  import opened Types
  import opened Worlds
  import opened Vm
  import opened VmSafety
  import opened Issuance
  import opened Transition

  ghost predicate AlikeTxRuns(o: TxRun, k: nat, o': TxRun, l: nat) {
    if o.Committed? && o'.Committed? then o.gas == o'.gas && Alike(o.world, k, o'.world, l) else o == o'
  }

  ghost predicate AlikeTxs(o: TxOutcome, k: nat, o': TxOutcome, l: nat) {
    if o.Applied? && o'.Applied? then
      o.gasUsed == o'.gasUsed && o.success == o'.success && o.logs == o'.logs && Alike(o.world, k, o'.world, l)
    else o == o'
  }

  ghost predicate AlikeBlockRuns(o: Option<BlockRun>, k: nat, o': Option<BlockRun>, l: nat) {
    if o.Some? && o'.Some? then
      o.value.receipts == o'.value.receipts && o.value.gas == o'.value.gas && Alike(o.value.world, k, o'.value.world, l)
    else o == o'
  }

  lemma CreditAlike(w: World, k: nat, v: World, l: nat, a: Address, amount: int)
    requires Alike(w, k, v, l)
    ensures Alike(Credit(w, a, amount), k, Credit(v, a, amount), l)
  {
    PutAlike(w, k, v, l, a, Get(w, a).(balance := Balance(w, a) + amount));
  }

  lemma BurnAlike(w: World, k: nat, v: World, l: nat, amount: int)
    requires Alike(w, k, v, l)
    ensures Alike(Burn(w, amount), k, Burn(v, amount), l)
  {
  }

  lemma RunTxAlike(r: Rules, w: World, k: nat, v: World, l: nat, tx: Tx, sender: Address, env: BlockEnv)
    requires IntrinsicGas(tx) <= tx.gasLimit && Alike(w, k, v, l)
    ensures AlikeTxRuns(RunTx(r, w, tx, sender, env), k, RunTx(r, v, tx, sender, env), l)
  {
    hide Execute, Credit, Burn, IntrinsicGas, Deployed, Called, AlikeOutcomes, Alike, Get;
    var budget := tx.gasLimit - IntrinsicGas(tx);
    var w1, v1 := Credit(w, sender, -(tx.value as int)), Credit(v, sender, -(tx.value as int));
    CreditAlike(w, k, v, l, sender, -(tx.value as int));
    AlikeBooks(w1, k, v1, l);
    var to := if tx.to.None? then r.m.createAddress(sender, tx.nonce) else tx.to.value;
    var w2, v2 := Credit(w1, to, tx.value), Credit(v1, to, tx.value);
    CreditAlike(w1, k, v1, l, to, tx.value);
    AlikeBooks(w2, k, v2, l);
    BurnAlike(w1, k, v1, l, tx.value);
    var ctx := Context(to, sender, tx.value, false, env);
    if tx.to.None? {
      ExecuteAlike(r.m, tx.data, [], budget, ctx, 0, w2, k, v2, l);
      OutcomesAlike(to, budget, Execute(r.m, tx.data, [], budget, ctx, 0, w2), k,
                    Execute(r.m, tx.data, [], budget, ctx, 0, v2), l);
    } else {
      var code := Code(w2, to);
      ExecuteAlike(r.m, code, tx.data, budget, ctx, 0, w2, k, v2, l);
      OutcomesAlike(to, budget, Execute(r.m, code, tx.data, budget, ctx, 0, w2), k,
                    Execute(r.m, code, tx.data, budget, ctx, 0, v2), l);
    }
  }

  lemma OutcomesAlike(addr: Address, budget: nat, o: Outcome, k: nat, o': Outcome, l: nat)
    requires GasLeft(o) <= budget && AlikeOutcomes(o, k, o', l)
    ensures AlikeTxRuns(Deployed(addr, budget, o), k, Deployed(addr, budget, o'), l)
    ensures AlikeTxRuns(Called(budget, o), k, Called(budget, o'), l)
  {
    if o.Done? {
      AlikeBooks(o.world, k, o'.world, l);
      PutAlike(o.world, k, o'.world, l, addr, Get(o.world, addr).(code := o.ret));
    }
    hide Alike, Put;
  }

  lemma SettleAlike(w: World, k: nat, v: World, l: nat, sender: Address, coinbase: Address, refund: int, spent: nat)
    requires Alike(w, k, v, l)
    ensures Alike(DistributeFee(Refund(w, sender, refund), coinbase, spent), k,
                  DistributeFee(Refund(v, sender, refund), coinbase, spent), l)
  {
    hide Credit, FeeBurn, Burn, Alike;
    CreditAlike(w, k, v, l, sender, refund);
    var w1, v1 := Refund(w, sender, refund), Refund(v, sender, refund);
    BurnAlike(w1, k, v1, l, FeeBurn(spent));
    CreditAlike(Burn(w1, FeeBurn(spent)), k, Burn(v1, FeeBurn(spent)), l, coinbase, Tip(spent));
  }

  lemma ApplyTxAlike(r: Rules, w: World, k: nat, v: World, l: nat, tx: Tx, coinbase: Address, blockGasLimit: nat,
                     env: BlockEnv)
    requires Alike(w, k, v, l)
    ensures AlikeTxs(ApplyTx(r, w, tx, coinbase, blockGasLimit, env), k,
                     ApplyTx(r, v, tx, coinbase, blockGasLimit, env), l)
  {
    hide RunTx, IntrinsicGas, DistributeFee, Refund, MaxFee, Fee, Charged, Alike, Get, LogsSince;
    AlikeBooks(w, k, v, l);
    if ApplyTx(r, w, tx, coinbase, blockGasLimit, env).Applied? {
      var sender := r.sender(tx).value;
      var paid, paid' := Charged(w, sender, tx), Charged(v, sender, tx);
      var e := TxEnv(env, sender, tx, coinbase, blockGasLimit);
      ChargedAlike(w, k, v, l, sender, tx);
      RunTxAlike(r, paid, k, paid', l, tx, sender, e);
      var run, run' := RunTx(r, paid, tx, sender, e), RunTx(r, paid', tx, sender, e);
      var spent := Fee(IntrinsicGas(tx) + run.gas, tx.gasPrice);
      var kept, kept' := if run.Committed? then run.world else paid, if run'.Committed? then run'.world else paid';
      SettleAlike(kept, k, kept', l, sender, coinbase, MaxFee(tx) - spent, spent);
      LogsAlike(w, k, v, l, DistributeFee(Refund(kept, sender, MaxFee(tx) - spent), coinbase, spent),
                DistributeFee(Refund(kept', sender, MaxFee(tx) - spent), coinbase, spent));
    }
  }

  lemma ChargedAlike(w: World, k: nat, v: World, l: nat, sender: Address, tx: Tx)
    requires Alike(w, k, v, l)
    ensures Alike(Charged(w, sender, tx), k, Charged(v, sender, tx), l)
  {
    PutAlike(w, k, v, l, sender, Get(w, sender).(balance := Balance(w, sender) - MaxFee(tx),
                                                 nonce := Nonce(w, sender) + 1));
  }

  /** The events since a common point are the same events. */
  lemma LogsAlike(w: World, k: nat, v: World, l: nat, w': World, v': World)
    requires Alike(w, k, v, l) && Alike(w', k, v', l)
    ensures LogsSince(w', |w.logs|) == LogsSince(v', |v.logs|)
  {
    var n := |w.logs| - k;
    assert n == |w.logs[k..]| == |v.logs[l..]| == |v.logs| - l;
    assert |w'.logs| - k == |w'.logs[k..]| == |v'.logs[l..]| == |v'.logs| - l;
    if n < |w'.logs[k..]| {
      assert w'.logs[|w.logs|..] == w'.logs[k..][n..];
      assert v'.logs[|v.logs|..] == v'.logs[l..][n..];
    }
  }

  lemma {:induction false} ApplyTxsAlike(r: Rules, w: World, k: nat, v: World, l: nat, txs: seq<Tx>, at: Slot)
    requires Alike(w, k, v, l)
    ensures AlikeBlockRuns(ApplyTxs(r, w, txs, at), k, ApplyTxs(r, v, txs, at), l)
  {
    hide ApplyTx, Alike;
    if txs != [] {
      ApplyTxsAlike(r, w, k, v, l, txs[..|txs| - 1], at);
      var p, p' := ApplyTxs(r, w, txs[..|txs| - 1], at), ApplyTxs(r, v, txs[..|txs| - 1], at);
      if p.Some? {
        ApplyTxAlike(r, p.value.world, k, p'.value.world, l, txs[|txs| - 1], at.proposer, at.gasLimit, at.env);
      }
    }
  }

  lemma RewardAlike(r: Rules, w: World, k: nat, v: World, l: nat, miner: Address, height: nat)
    requires Alike(w, k, v, l)
    ensures Alike(CreditBlockReward(r, w, miner, height), k, CreditBlockReward(r, v, miner, height), l)
  {
    hide Credit, Burn, BlockRewardAt, TreasuryCut, Alike;
    var reward := BlockRewardAt(height);
    var cut := TreasuryCut(r, reward);
    var share: int := reward as int - cut as int;
    CreditAlike(w, k, v, l, r.treasury, cut);
    BurnAlike(w, k, v, l, cut);
    CreditAlike(w, k, v, l, miner, share);
    CreditAlike(Burn(w, cut), k, Burn(v, cut), l, miner, share);
    CreditAlike(Credit(w, r.treasury, cut), k, Credit(v, r.treasury, cut), l, miner, share);
  }

  /** Two parents with the same accounts and burn total accept the same blocks, with the same result. */
  lemma ApplyBlockAlike(r: Rules, w: World, v: World, b: Block, parent: Option<Header>)
    requires w.accounts == v.accounts && w.burned == v.burned
    ensures var o, o' := ApplyBlock(r, w, b, parent), ApplyBlock(r, v, b, parent);
            && o.Accepted? == o'.Accepted?
            && (o.Accepted? ==>
                  && o.receipts == o'.receipts
                  && o.world.accounts == o'.world.accounts && o.world.burned == o'.world.burned)
  {
    hide ApplyTxs, CreditBlockReward, HeaderError;
    var k, l := |w.logs|, |v.logs|;
    var w0, v0 := w.(touched := {}), v.(touched := {});
    ApplyTxsAlike(r, w0, k, v0, l, b.txs, SlotOf(b.header));
    var run, run' := ApplyTxs(r, w0, b.txs, SlotOf(b.header)), ApplyTxs(r, v0, b.txs, SlotOf(b.header));
    if run.Some? {
      RewardAlike(r, run.value.world, k, run'.value.world, l, b.header.proposer, b.header.height);
    }
  }
}
