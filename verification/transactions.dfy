/**
 What a transaction does, account by account, in terms of the frame it runs: when it is rejected and why, what it
 is charged, and what it leaves behind.
 */
module Transactions {
  import opened Types
  import opened Worlds
  import opened Vm
  import opened VmSafety
  import opened Transition
  import opened Ledger

  // ----- what is charged before anything runs -----

  /** The positions of the bytes that are not zero. */
  ghost function NonZero(data: seq<Byte>): set<nat> { set i: nat | i < |data| && data[i] != 0 }

  /** 4 a byte, and 12 more for each that is not zero. */
  lemma {:induction false} DataGasCounts(data: seq<Byte>)
    ensures DataGas(data) == 4 * |data| + 12 * |NonZero(data)|
  {
    if data == [] {
      assert NonZero(data) == {};
    } else {
      var n := |data| - 1;
      DataGasCounts(data[..n]);
      var here: set<nat> := if data[n] != 0 then {n} else {};
      assert NonZero(data) == NonZero(data[..n]) + here;
    }
  }

  /** 21000 for a call, 53000 for a creation, and the data. */
  ghost function Upfront(tx: Tx): nat {
    (if tx.to.None? then 53000 else 21000) + 4 * |tx.data| + 12 * |NonZero(tx.data)|
  }

  lemma UpfrontIsIntrinsic(tx: Tx)
    ensures Upfront(tx) == IntrinsicGas(tx)
  {
    DataGasCounts(tx.data);
  }

  /** A fifth of every fee is destroyed, rounded down, and the proposer gets the rest. */
  lemma FifthIsBurned(fee: nat)
    ensures FeeBurn(fee) == fee / 5 && Tip(fee) == fee - fee / 5
  {
    assert fee * 2000 / 10000 == fee / 5;
  }

  // ----- rejection -----

  /** Each reason, given that those before it do not hold; a transaction is applied exactly when none does. */
  lemma RejectedIff(r: Rules, w: World, tx: Tx, coinbase: Address, blockGasLimit: nat, env: BlockEnv)
    ensures var o := ApplyTx(r, w, tx, coinbase, blockGasLimit, env);
            && (o == Rejected(BadSender) <==> r.sender(tx).None?)
            && (r.sender(tx).Some? ==>
                  var have := Get(w, r.sender(tx).value);
                  var fits := Upfront(tx) <= tx.gasLimit && (blockGasLimit == 0 || tx.gasLimit <= blockGasLimit);
                  && (o == Rejected(NonceTooLow) <==> tx.nonce < have.nonce)
                  && (o == Rejected(NonceTooHigh) <==> tx.nonce > have.nonce)
                  && (o == Rejected(GasLimit) <==> tx.nonce == have.nonce && !fits)
                  && (o.Applied? <==>
                        tx.nonce == have.nonce && fits && have.balance >= tx.gasLimit * tx.gasPrice + tx.value))
  {
    hide RunTx, IntrinsicGas, DistributeFee, Refund;
    UpfrontIsIntrinsic(tx);
  }

  // ----- the frame -----

  /** The nonce spent, the whole limit and the value charged, and the value moved. */
  ghost predicate Started(w: World, start: World, tx: Tx, sender: Address, to: Address) {
    && start.logs == w.logs && start.burned == w.burned
    && forall a :: Get(start, a) == Get(w, a).(
                     nonce := Nonce(w, a) + (if a == sender then 1 else 0),
                     balance := Balance(w, a) - (if a == sender then tx.gasLimit * tx.gasPrice + tx.value else 0)
                                + (if a == to then tx.value else 0))
  }

  /** What was not spent is given back; of what was, four fifths are the proposer's and a fifth is destroyed. */
  ghost predicate PaidOut(kept: World, w': World, tx: Tx, sender: Address, coinbase: Address, gasUsed: nat) {
    var fee := gasUsed * tx.gasPrice;
    && w'.logs == kept.logs && w'.burned == kept.burned + fee / 5
    && forall a :: Get(w', a) == Get(kept, a).(
                     balance := Balance(kept, a) + (if a == sender then tx.gasLimit * tx.gasPrice - fee else 0)
                                + (if a == coinbase then fee - fee / 5 else 0))
  }

  /** What the frame sees of its surroundings. */
  function Surroundings(tx: Tx, sender: Address, coinbase: Address, blockGasLimit: nat, env: BlockEnv): BlockEnv {
    BlockEnv(sender, tx.gasPrice, coinbase, env.number, env.time, env.difficulty, tx.chainId, blockGasLimit)
  }

  lemma Starting(w: World, tx: Tx, sender: Address, to: Address)
    ensures Started(w, Credit(Credit(Charged(w, sender, tx), sender, -(tx.value as int)), to, tx.value), tx, sender, to)
  {
    hide IntrinsicGas;
    ChargedAt(w, sender, tx);
  }

  lemma PayingOut(kept: World, tx: Tx, sender: Address, coinbase: Address, gasUsed: nat)
    requires gasUsed <= tx.gasLimit
    ensures PaidOut(kept, DistributeFee(Refund(kept, sender, MaxFee(tx) - Fee(gasUsed, tx.gasPrice)), coinbase,
                                        Fee(gasUsed, tx.gasPrice)), tx, sender, coinbase, gasUsed)
  {
    hide FeeBurn, Tip, DistributeFee, Refund;
    MulLe(gasUsed, tx.gasLimit, tx.gasPrice);
    FifthIsBurned(Fee(gasUsed, tx.gasPrice));
    SettledAt(kept, sender, coinbase, MaxFee(tx), Fee(gasUsed, tx.gasPrice));
  }

  /** How an applied transaction is put together from its undoable part. */
  lemma Assembled(r: Rules, w: World, tx: Tx, coinbase: Address, blockGasLimit: nat, env: BlockEnv)
    requires ApplyTx(r, w, tx, coinbase, blockGasLimit, env).Applied?
    ensures r.sender(tx).Some? && IntrinsicGas(tx) <= tx.gasLimit
    ensures var o, sender := ApplyTx(r, w, tx, coinbase, blockGasLimit, env), r.sender(tx).value;
            var run := RunTx(r, Charged(w, sender, tx), tx, sender,
                             Surroundings(tx, sender, coinbase, blockGasLimit, env));
            && tx.nonce == Nonce(w, sender) && o.gasUsed == IntrinsicGas(tx) + run.gas <= tx.gasLimit
            && o.success == run.Committed?
            && (run.Committed? ==>
                  && PaidOut(run.world, o.world, tx, sender, coinbase, o.gasUsed)
                  && (w.logs <= run.world.logs ==> o.logs == run.world.logs[|w.logs|..]))
  {
    hide RunTx, IntrinsicGas, DistributeFee, Refund, Charged, PaidOut, Evolves, Fee;
    var o, sender := ApplyTx(r, w, tx, coinbase, blockGasLimit, env), r.sender(tx).value;
    ApplyTxEvolves(r, w, tx, coinbase, blockGasLimit, env);
    var e := TxEnv(env, sender, tx, coinbase, blockGasLimit);
    assert e == Surroundings(tx, sender, coinbase, blockGasLimit, env);
    var run := RunTx(r, Charged(w, sender, tx), tx, sender, e);
    if run.Committed? {
      PayingOut(run.world, tx, sender, coinbase, o.gasUsed);
      SameLogs(run.world, o.world, tx, sender, coinbase, o.gasUsed);
    }
  }

  lemma SameLogs(kept: World, w': World, tx: Tx, sender: Address, coinbase: Address, gasUsed: nat)
    requires PaidOut(kept, w', tx, sender, coinbase, gasUsed)
    ensures w'.logs == kept.logs
  {
  }

  /** What a transaction's frame starts from, and how it ends. */
  datatype Flight = Flight(start: World, outcome: Outcome)

  /**
   A call of a contract. Its code runs on what is left of the limit; the transaction succeeds exactly when it completes,
   uses the whole limit if it faults and otherwise all but what it left, and keeps its accounts and its events.
   */
  lemma CallTxMeans(r: Rules, w: World, tx: Tx, coinbase: Address, blockGasLimit: nat, env: BlockEnv)
    returns (v: Flight)
    requires tx.to.Some? && Code(w, tx.to.value) != [] && ApplyTx(r, w, tx, coinbase, blockGasLimit, env).Applied?
    ensures r.sender(tx).Some? && Upfront(tx) <= tx.gasLimit
    ensures var o, sender, to := ApplyTx(r, w, tx, coinbase, blockGasLimit, env), r.sender(tx).value, tx.to.value;
            && Started(w, v.start, tx, sender, to)
            && v.outcome == Execute(r.m, Code(w, to), tx.data, tx.gasLimit - Upfront(tx),
                                    Context(to, sender, tx.value, false,
                                            Surroundings(tx, sender, coinbase, blockGasLimit, env)), 0, v.start)
            && o.success == v.outcome.Done?
            && o.gasUsed == (if v.outcome.Fault? then tx.gasLimit else tx.gasLimit - v.outcome.gas)
            && (o.success ==>
                  && PaidOut(v.outcome.world, o.world, tx, sender, coinbase, o.gasUsed)
                  && w.logs <= v.outcome.world.logs && o.logs == v.outcome.world.logs[|w.logs|..])
  {
    hide ApplyTx, IntrinsicGas, Execute, Charged, PaidOut, Started, Credit, Surroundings;
    Assembled(r, w, tx, coinbase, blockGasLimit, env);
    UpfrontIsIntrinsic(tx);
    var sender, to := r.sender(tx).value, tx.to.value;
    var w1 := Credit(Charged(w, sender, tx), sender, -(tx.value as int));
    var start := Credit(w1, to, tx.value);
    Starting(w, tx, sender, to);
    CodesKept(w, tx, sender, to);
    var ctx := Context(to, sender, tx.value, false, Surroundings(tx, sender, coinbase, blockGasLimit, env));
    var budget := tx.gasLimit - IntrinsicGas(tx);
    v := Flight(start, Execute(r.m, Code(w, to), tx.data, budget, ctx, 0, start));
    EventsGrow(r.m, Code(w, to), tx.data, budget, ctx, start);
  }

  /** Paying changes no code. */
  lemma CodesKept(w: World, tx: Tx, sender: Address, a: Address)
    ensures var w1 := Credit(Charged(w, sender, tx), sender, -(tx.value as int));
            && Code(w1, a) == Code(w, a) && Code(Credit(w1, a, tx.value), a) == Code(w, a)
            && Nonce(w1, a) == Nonce(w, a) + (if a == sender then 1 else 0)
            && Credit(w1, a, tx.value).logs == w.logs
  {
    hide IntrinsicGas, Fee;
  }

  lemma EventsGrow(m: Machine, code: seq<Byte>, input: seq<Byte>, gas: nat, ctx: Context, w: World)
    ensures var o := Execute(m, code, input, gas, ctx, 0, w); o.Done? ==> w.logs <= o.world.logs
  {
    hide Execute;
    ExecuteEvolves(m, code, input, gas, ctx, 0, w);
  }

  /**
   A creation. If the address has a nonce or code it fails and the whole limit is used. Otherwise the data runs as init
   code; if it completes and what it returns is short enough and paid for at 200 a byte, that is the code at the
   new address; if it reverts, what it left is given back; in any other case the whole limit is used.
   */
  lemma CreateTxMeans(r: Rules, w: World, tx: Tx, coinbase: Address, blockGasLimit: nat, env: BlockEnv)
    returns (v: Flight)
    requires tx.to.None? && ApplyTx(r, w, tx, coinbase, blockGasLimit, env).Applied?
    ensures r.sender(tx).Some? && Upfront(tx) <= tx.gasLimit
    ensures var o, sender := ApplyTx(r, w, tx, coinbase, blockGasLimit, env), r.sender(tx).value;
            var addr := r.m.createAddress(sender, tx.nonce);
            if addr == sender || Nonce(w, addr) != 0 || Code(w, addr) != [] then !o.success && o.gasUsed == tx.gasLimit
            else
              && Started(w, v.start, tx, sender, addr)
              && v.outcome == Execute(r.m, tx.data, [], tx.gasLimit - Upfront(tx),
                                      Context(addr, sender, tx.value, false,
                                              Surroundings(tx, sender, coinbase, blockGasLimit, env)), 0, v.start)
              && var e := v.outcome;
                 && o.success == (e.Done? && |e.ret| <= 24576 && e.gas >= 200 * |e.ret|)
                 && o.gasUsed == (if o.success then tx.gasLimit - e.gas + 200 * |e.ret|
                                  else if e.Reverted? then tx.gasLimit - e.gas else tx.gasLimit)
                 && (o.success ==>
                       exists kept ::
                         && PaidOut(kept, o.world, tx, sender, coinbase, o.gasUsed)
                         && kept == e.world.(accounts := kept.accounts, touched := kept.touched)
                         && (forall a :: Get(kept, a) == Get(e.world, a).(
                                           code := if a == addr then e.ret else Code(e.world, a)))
                         && w.logs <= kept.logs && o.logs == kept.logs[|w.logs|..])
  {
    hide ApplyTx, IntrinsicGas, Execute, Charged, PaidOut, Started, Credit, Surroundings;
    Assembled(r, w, tx, coinbase, blockGasLimit, env);
    UpfrontIsIntrinsic(tx);
    var sender := r.sender(tx).value;
    var addr := r.m.createAddress(sender, tx.nonce);
    var w1 := Credit(Charged(w, sender, tx), sender, -(tx.value as int));
    var start := Credit(w1, addr, tx.value);
    Starting(w, tx, sender, addr);
    CodesKept(w, tx, sender, addr);
    var ctx := Context(addr, sender, tx.value, false, Surroundings(tx, sender, coinbase, blockGasLimit, env));
    var budget := tx.gasLimit - IntrinsicGas(tx);
    v := Flight(start, Execute(r.m, tx.data, [], budget, ctx, 0, start));
    EventsGrow(r.m, tx.data, [], budget, ctx, start);
  }
}
