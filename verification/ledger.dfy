/**
 Conservation and accounting over the whole transition: no transaction makes or loses value,
 a block adds exactly its reward, a failed transaction changes only what it paid, and every
 transaction consumes one nonce of its sender for good.
 */
module Ledger {
  import opened Types
  import opened Worlds
  import opened Vm
  import opened VmSafety
  import opened Issuance
  import opened Transition

  // ----- one transaction -----

  /** Credit, seen through its total and its tracking alone. */
  lemma CreditFacts(w: World, a: Address, amount: int)
    ensures var w' := Credit(w, a, amount);
            && Tracked(w, w') && Supply(w') == Supply(w) + amount && w'.logs == w.logs && w'.burned == w.burned
            && (Sound(w) && Balance(w, a) + amount >= 0 ==> Sound(w'))
            && (Sound(w) ==> Balance(w, a) >= 0)
            && Nonce(w', a) == Nonce(w, a)
  {
    CreditTracked(w, a, amount);
    CreditTotal(w, a, amount);
    if Sound(w) && Balance(w, a) + amount >= 0 { CreditSound(w, a, amount); }
  }

  lemma BurnFacts(w: World, amount: nat)
    ensures var w' := Burn(w, amount);
            && Tracked(w, w') && Supply(w') == Supply(w) + amount
            && w'.logs == w.logs && w'.accounts == w.accounts && (Sound(w) ==> Sound(w'))
  {
  }

  /** What the undoable part commits has taken the value from the sender and put it somewhere. */
  lemma RunTxEvolves(r: Rules, paid: World, tx: Tx, sender: Address, env: BlockEnv)
    requires IntrinsicGas(tx) <= tx.gasLimit && Balance(paid, sender) >= tx.value
    ensures var run := RunTx(r, paid, tx, sender, env);
            run.gas <= tx.gasLimit - IntrinsicGas(tx) && (run.Committed? ==> Evolves(paid, run.world))
  {
    hide Tracked, Total, Sound, Credit, Burn, Execute, IntrinsicGas;
    var budget := tx.gasLimit - IntrinsicGas(tx);
    var w1 := Credit(paid, sender, -(tx.value as int));
    CreditFacts(paid, sender, -(tx.value as int));
    var to := if tx.to.None? then r.m.createAddress(sender, tx.nonce) else tx.to.value;
    var w2 := Credit(w1, to, tx.value);
    CreditFacts(w1, to, tx.value);
    TrackedTransitive(paid, w1, w2);
    BurnFacts(w1, tx.value);
    TrackedTransitive(paid, w1, Burn(w1, tx.value));
    var ctx := Context(to, sender, tx.value, false, env);
    if tx.to.None? {
      ExecuteEvolves(r.m, tx.data, [], budget, ctx, 0, w2);
      var o := Execute(r.m, tx.data, [], budget, ctx, 0, w2);
      if o.Done? {
        EvolvesTransitive(paid, w2, o.world);
        CodeEvolves(o.world, to, o.ret);
        EvolvesTransitive(paid, o.world, SetCode(o.world, to, o.ret));
      }
    } else {
      ExecuteEvolves(r.m, Code(w2, to), tx.data, budget, ctx, 0, w2);
      var o := Execute(r.m, Code(w2, to), tx.data, budget, ctx, 0, w2);
      if o.Done? { EvolvesTransitive(paid, w2, o.world); }
    }
  }

  lemma CodeEvolves(w: World, a: Address, code: seq<Byte>)
    ensures Evolves(w, SetCode(w, a, code))
  {
    PutEvolves(w, a, Get(w, a).(code := code));
  }

  lemma FeeSplit(fee: nat)
    ensures 0 <= Tip(fee) && FeeBurn(fee) + Tip(fee) == fee
  {
  }

  lemma ChargedFacts(w: World, sender: Address, tx: Tx)
    requires Balance(w, sender) >= MaxFee(tx)
    ensures var p := Charged(w, sender, tx);
            && Tracked(w, p) && Supply(p) == Supply(w) - MaxFee(tx) && (Sound(w) ==> Sound(p)) && p.logs == w.logs
            && Balance(p, sender) == Balance(w, sender) - MaxFee(tx) && Nonce(p, sender) == Nonce(w, sender) + 1
  {
    var acc := Get(w, sender);
    var acc' := acc.(balance := acc.balance - MaxFee(tx), nonce := acc.nonce + 1);
    PutTracked(w, sender, acc');
    TotalPut(w, sender, acc');
    var p := Charged(w, sender, tx);
    if Sound(w) {
      forall a | a in p.accounts ensures p.accounts[a].balance >= 0 && p.accounts[a] != EMPTY_ACCOUNT {
        assert p.accounts[a] == Get(p, a);
      }
    }
  }

  /** Paying out refund and fee puts back exactly what was charged. */
  lemma SettleFacts(kept: World, sender: Address, coinbase: Address, charged: nat, spent: nat)
    requires spent <= charged
    ensures var w' := DistributeFee(Refund(kept, sender, charged - spent), coinbase, spent);
            && Tracked(kept, w') && Supply(w') == Supply(kept) + charged && w'.logs == kept.logs
            && (Sound(kept) ==> Sound(w'))
  {
    hide Tracked, Total, Sound, Credit, Burn, FeeBurn;
    var w1 := Refund(kept, sender, charged - spent);
    CreditFacts(kept, sender, charged - spent);
    EvolvesReflexive(kept);
    var w2 := Burn(w1, FeeBurn(spent));
    BurnFacts(w1, FeeBurn(spent));
    FeeSplit(spent);
    var w3 := Credit(w2, coinbase, Tip(spent));
    CreditFacts(w2, coinbase, Tip(spent));
    TrackedTransitive(kept, w1, w2);
    TrackedTransitive(kept, w2, w3);
  }

  /**
   A transaction that is not rejected conserves value, puts nobody into debt, marks every account
   it changes, never uses more gas than its limit, and spends the nonce it names.
   */
  lemma ApplyTxEvolves(r: Rules, w: World, tx: Tx, coinbase: Address, blockGasLimit: nat, env: BlockEnv)
    ensures var o := ApplyTx(r, w, tx, coinbase, blockGasLimit, env);
            o.Applied? ==>
              && Evolves(w, o.world)
              && IntrinsicGas(tx) <= o.gasUsed <= tx.gasLimit
              && r.sender(tx).Some?
              && Nonce(w, r.sender(tx).value) == tx.nonce < Nonce(o.world, r.sender(tx).value)
  {
    hide Tracked, Total, Sound, RunTx, IntrinsicGas, DistributeFee, Refund, Charged, Nonce;
    var o := ApplyTx(r, w, tx, coinbase, blockGasLimit, env);
    if o.Applied? {
      var sender := r.sender(tx).value;
      var paid := Charged(w, sender, tx);
      assert Balance(w, sender) >= MaxFee(tx) + tx.value;
      ChargedFacts(w, sender, tx);
      var e := TxEnv(env, sender, tx, coinbase, blockGasLimit);
      RunTxEvolves(r, paid, tx, sender, e);
      EvolvesReflexive(paid);
      var run := RunTx(r, paid, tx, sender, e);
      var kept := if run.Committed? then run.world else paid;
      var spent := Fee(o.gasUsed, tx.gasPrice);
      assert spent <= MaxFee(tx) by { MulLe(o.gasUsed, tx.gasLimit, tx.gasPrice); }
      SettleFacts(kept, sender, coinbase, MaxFee(tx), spent);
      TrackedTransitive(paid, kept, o.world);
      TrackedTransitive(w, paid, o.world);
      NonceTracked(paid, o.world, sender);
    }
  }

  lemma NonceTracked(w: World, w': World, a: Address)
    requires Tracked(w, w')
    ensures Nonce(w, a) <= Nonce(w', a)
  {
  }

  lemma MulLe(a: nat, b: nat, k: nat)
    requires a <= b
    ensures Fee(a, k) <= Fee(b, k)
  {
  }

  /** Settling, account by account. */
  lemma SettledAt(kept: World, sender: Address, coinbase: Address, charged: nat, spent: nat)
    requires spent <= charged
    ensures var w' := DistributeFee(Refund(kept, sender, charged - spent), coinbase, spent);
            && w'.burned == kept.burned + FeeBurn(spent) && w'.logs == kept.logs
            && forall a :: Get(w', a) == Get(kept, a).(
                             balance := Balance(kept, a) + (if a == sender then charged - spent else 0)
                                        + (if a == coinbase then Tip(spent) else 0))
  {
    hide FeeBurn;
  }

  lemma ChargedAt(w: World, sender: Address, tx: Tx)
    ensures var p := Charged(w, sender, tx);
            && p.burned == w.burned && p.logs == w.logs
            && forall a :: Get(p, a) == Get(w, a).(
                             nonce := Nonce(w, a) + (if a == sender then 1 else 0),
                             balance := Balance(w, a) - (if a == sender then MaxFee(tx) else 0))
  {
  }

  /** A transaction whose code fails: fee and nonce of the sender, tip, burn, and nothing else. */
  lemma FailedTxChangesOnlyFees(r: Rules, w: World, tx: Tx, coinbase: Address, blockGasLimit: nat, env: BlockEnv)
    ensures var o := ApplyTx(r, w, tx, coinbase, blockGasLimit, env);
            o.Applied? && !o.success ==>
              var sender, fee := r.sender(tx).value, Fee(o.gasUsed, tx.gasPrice);
              && o.logs == [] && o.world.logs == w.logs && o.world.burned == w.burned + FeeBurn(fee)
              && forall a :: Get(o.world, a) == Get(w, a).(
                               nonce := Nonce(w, a) + (if a == sender then 1 else 0),
                               balance := Balance(w, a) - (if a == sender then fee else 0)
                                          + (if a == coinbase then Tip(fee) else 0))
  {
    hide RunTx, IntrinsicGas, Evolves, Fee, FeeBurn, Charged, Refund, DistributeFee;
    var o := ApplyTx(r, w, tx, coinbase, blockGasLimit, env);
    if o.Applied? && !o.success {
      var sender := r.sender(tx).value;
      ApplyTxEvolves(r, w, tx, coinbase, blockGasLimit, env);
      MulLe(o.gasUsed, tx.gasLimit, tx.gasPrice);
      ChargedAt(w, sender, tx);
      SettledAt(Charged(w, sender, tx), sender, coinbase, MaxFee(tx), Fee(o.gasUsed, tx.gasPrice));
    }
  }

  /**
   A send to an address without code: the value moves, or is destroyed at the burn address, and nothing else
   happens.
   */
  lemma PlainSendMovesValue(r: Rules, w: World, tx: Tx, coinbase: Address, blockGasLimit: nat, env: BlockEnv)
    requires tx.to.Some? && Code(w, tx.to.value) == []
    ensures var o := ApplyTx(r, w, tx, coinbase, blockGasLimit, env);
            o.Applied? ==>
              var sender, to, fee := r.sender(tx).value, tx.to.value, Fee(IntrinsicGas(tx), tx.gasPrice);
              var destroyed := to == BURN_ADDRESS;
              && o.success && o.gasUsed == IntrinsicGas(tx) && o.logs == []
              && o.world.burned == w.burned + FeeBurn(fee) + (if destroyed then tx.value else 0)
              && forall a :: Get(o.world, a) == Get(w, a).(
                               nonce := Nonce(w, a) + (if a == sender then 1 else 0),
                               balance := Balance(w, a) - (if a == sender then fee + tx.value else 0)
                                          + (if a == to && !destroyed then tx.value else 0)
                                          + (if a == coinbase then Tip(fee) else 0))
  {
    hide RunTx, IntrinsicGas, Evolves, Fee, FeeBurn, Charged, Refund, DistributeFee;
    var o := ApplyTx(r, w, tx, coinbase, blockGasLimit, env);
    if o.Applied? {
      var sender := r.sender(tx).value;
      var paid := Charged(w, sender, tx);
      MulLe(IntrinsicGas(tx), tx.gasLimit, tx.gasPrice);
      ChargedAt(w, sender, tx);
      SendAt(r, paid, tx, sender, TxEnv(env, sender, tx, coinbase, blockGasLimit));
      SettledAt(RunTx(r, paid, tx, sender, TxEnv(env, sender, tx, coinbase, blockGasLimit)).world, sender, coinbase,
                MaxFee(tx), Fee(o.gasUsed, tx.gasPrice));
    }
  }

  lemma SendAt(r: Rules, paid: World, tx: Tx, sender: Address, env: BlockEnv)
    requires tx.to.Some? && Code(paid, tx.to.value) == [] && IntrinsicGas(tx) <= tx.gasLimit
    ensures var run, to := RunTx(r, paid, tx, sender, env), tx.to.value;
            && run.Committed? && run.gas == 0 && run.world.logs == paid.logs
            && run.world.burned == paid.burned + (if to == BURN_ADDRESS then tx.value else 0)
            && forall a :: Get(run.world, a) == Get(paid, a).(
                             balance := Balance(paid, a) - (if a == sender then tx.value else 0)
                                        + (if a == to && to != BURN_ADDRESS then tx.value else 0))
  {
    hide IntrinsicGas, Execute;
  }

  // ----- a block -----

  /** Each transaction of an accepted list spends a nonce its sender had not yet reached before. */
  lemma {:induction false} ApplyTxsEvolves(r: Rules, w: World, txs: seq<Tx>, at: Slot)
    ensures var run := ApplyTxs(r, w, txs, at);
            run.Some? ==> Evolves(w, run.value.world) && run.value.gas <= at.gasLimit && |run.value.receipts| == |txs|
  {
    hide Evolves, ApplyTx;
    EvolvesReflexive(w);
    if txs != [] && ApplyTxs(r, w, txs, at).Some? {
      var init := txs[..|txs| - 1];
      ApplyTxsEvolves(r, w, init, at);
      var p := ApplyTxs(r, w, init, at).value;
      ApplyTxEvolves(r, p.world, txs[|txs| - 1], at.proposer, at.gasLimit, at.env);
      EvolvesTransitive(w, p.world, ApplyTxs(r, w, txs, at).value.world);
    }
  }

  /** tx was applied between w and w': its nonce was free before and is spent after. */
  ghost predicate Spent(r: Rules, w: World, w': World, tx: Tx) {
    r.sender(tx).Some? && Nonce(w, r.sender(tx).value) <= tx.nonce < Nonce(w', r.sender(tx).value)
  }

  lemma {:induction false} ApplyTxsSpend(r: Rules, w: World, txs: seq<Tx>, at: Slot)
    requires ApplyTxs(r, w, txs, at).Some?
    ensures forall i :: 0 <= i < |txs| ==> Spent(r, w, ApplyTxs(r, w, txs, at).value.world, txs[i])
    ensures forall i, j :: 0 <= i < j < |txs| ==> txs[i] != txs[j]
  {
    hide ApplyTx, Nonce;
    if txs != [] {
      var n := |txs| - 1;
      var init, last := txs[..n], txs[n];
      ApplyTxsSpend(r, w, init, at);
      ApplyTxsEvolves(r, w, init, at);
      var p, w' := ApplyTxs(r, w, init, at).value, ApplyTxs(r, w, txs, at).value.world;
      ApplyTxEvolves(r, p.world, last, at.proposer, at.gasLimit, at.env);
      forall i | 0 <= i < n ensures Spent(r, w, w', txs[i]) && txs[i] != last {
        assert txs[i] == init[i];
        NonceTracked(p.world, w', r.sender(txs[i]).value);
      }
      NonceTracked(w, p.world, r.sender(last).value);
    }
  }

  lemma TreasurySplit(r: Rules, reward: nat)
    requires Transition.Valid(r)
    ensures 0 <= TreasuryCut(r, reward) <= reward
  {
    var bps := r.treasuryBps;
    assert reward * bps <= reward * 10000;
    assert reward * bps / 10000 <= reward * 10000 / 10000 == reward;
  }

  /** The block reward, however it is split, adds exactly the issuance of its height. */
  lemma RewardFacts(r: Rules, w: World, miner: Address, height: nat)
    requires Transition.Valid(r)
    ensures var w' := CreditBlockReward(r, w, miner, height);
            Tracked(w, w') && Supply(w') == Supply(w) + BlockRewardAt(height) && (Sound(w) ==> Sound(w'))
  {
    hide Tracked, Total, Sound, Credit, Burn, BlockRewardAt, TreasuryCut;
    var reward := BlockRewardAt(height);
    var cut := TreasuryCut(r, reward);
    TreasurySplit(r, reward);
    NoCut(r, reward);
    CreditFacts(w, r.treasury, cut);
    BurnFacts(w, cut);
    EvolvesReflexive(w);
    var w1 := if r.treasuryBps == 0 || r.treasury == 0 then w
              else if r.treasury == BURN_ADDRESS then Burn(w, cut)
              else Credit(w, r.treasury, cut);
    CreditFacts(w1, miner, reward - cut);
    TrackedTransitive(w, w1, Credit(w1, miner, reward - cut));
  }

  lemma NoCut(r: Rules, reward: nat)
    ensures r.treasuryBps == 0 || r.treasury == 0 ==> TreasuryCut(r, reward) == 0
  {
  }

  /**
   The treasury gets its basis points of the reward, or destroys them if it is the burn address; the miner gets
   the rest.
   */
  lemma RewardSplit(r: Rules, w: World, miner: Address, height: nat)
    requires Transition.Valid(r)
    ensures var w', reward := CreditBlockReward(r, w, miner, height), BlockRewardAt(height);
            var cut := TreasuryCut(r, reward);
            && 0 <= cut <= reward && (r.treasury != 0 ==> cut == reward * r.treasuryBps / 10000) && w'.logs == w.logs
            && w'.burned == w.burned + (if r.treasury == BURN_ADDRESS then cut else 0)
            && forall a :: Get(w', a) == Get(w, a).(
                             balance := Balance(w, a) + (if a == miner then reward - cut else 0)
                                        + (if a == r.treasury && a != BURN_ADDRESS then cut else 0))
  {
    hide BlockRewardAt;
    TreasurySplit(r, BlockRewardAt(height));
    NoCut(r, BlockRewardAt(height));
  }

  /** An accepted block adds its reward and no more, and marks every account it changes. */
  lemma ApplyBlockFacts(r: Rules, w: World, b: Block, parent: Option<Header>)
    requires Transition.Valid(r) && ApplyBlock(r, w, b, parent).Accepted?
    ensures var w' := ApplyBlock(r, w, b, parent).world;
            && Tracked(w.(touched := {}), w')
            && Supply(w') == Supply(w) + BlockRewardAt(b.header.height)
            && (Sound(w) ==> Sound(w'))
    ensures var w' := ApplyBlock(r, w, b, parent).world;
            forall i :: 0 <= i < |b.txs| ==> Spent(r, w, w', b.txs[i])
    ensures forall i, j :: 0 <= i < j < |b.txs| ==> b.txs[i] != b.txs[j]
  {
    hide Tracked, Total, Sound, ApplyTxs, CreditBlockReward, BlockRewardAt, Nonce;
    var h, start := b.header, w.(touched := {});
    var run := ApplyTxs(r, start, b.txs, SlotOf(h)).value;
    ApplyTxsEvolves(r, start, b.txs, SlotOf(h));
    ApplyTxsSpend(r, start, b.txs, SlotOf(h));
    SoundUnmarked(w);
    RewardFacts(r, run.world, h.proposer, h.height);
    var w' := CreditBlockReward(r, run.world, h.proposer, h.height);
    TrackedTransitive(start, run.world, w');
    forall i | 0 <= i < |b.txs| ensures Spent(r, w, w', b.txs[i]) {
      assert Spent(r, start, run.world, b.txs[i]);
      NonceTracked(run.world, w', r.sender(b.txs[i]).value);
      NonceUnmarked(w, r.sender(b.txs[i]).value);
    }
  }

  lemma SoundUnmarked(w: World)
    ensures Sound(w.(touched := {})) == Sound(w)
  {
  }

  lemma NonceUnmarked(w: World, a: Address)
    ensures Nonce(w.(touched := {}), a) == Nonce(w, a)
  {
  }
}
