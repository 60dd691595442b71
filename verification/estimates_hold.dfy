/**
 What an estimate is worth to the transaction that is then sent (state/transition.go:243-249): a probe at a limit
 completes exactly when the transaction with that limit succeeds, as far as the code looks neither at the block it
 is in nor at its sender's account.
 */
module EstimatesHold {
  import opened Types
  import opened Worlds
  import opened Vm
  import opened Transition
  import opened Ledger
  import opened Transactions
  import opened Bystander
  import opened Estimate

  /** The message that a wallet asks about before it sends the transaction. */
  function MessageOf(tx: Tx, sender: Address): Message { Message(sender, tx.to, tx.data, tx.value) }

  /** A probe completes exactly when the transaction's undoable part would commit on the same outcome. */
  lemma ProbeIsCommitment(m: Machine, w: World, msg: Message, limit: nat)
    requires limit >= Intrinsic(msg)
    ensures var budget := limit - Intrinsic(msg);
            match msg.to
            case None =>
              var addr := m.createAddress(msg.from, Nonce(w, msg.from));
              var o := Execute(m, msg.data, [], budget, Context(addr, msg.from, msg.value, false, NO_ENV), 0,
                               Credit(w, addr, msg.value));
              ProbeAt(m, w, msg, limit).Completes? <==> Deployed(addr, budget, o).Committed?
            case Some(to) =>
              var o := Execute(m, Code(w, to), msg.data, budget, Context(to, msg.from, msg.value, false, NO_ENV), 0,
                               Credit(w, to, msg.value));
              ProbeAt(m, w, msg, limit).Completes? <==> Code(w, to) == [] || Called(budget, o).Committed?
  {
    hide Execute, Intrinsic, Put;
  }

  /** Otherwise it asks for more gas exactly when that was what ran out, in the code or for the deposit. */
  lemma ProbeNeedsMore(m: Machine, w: World, msg: Message, limit: nat)
    requires limit >= Intrinsic(msg)
    ensures var budget := limit - Intrinsic(msg);
            match msg.to
            case None =>
              var addr := m.createAddress(msg.from, Nonce(w, msg.from));
              var o := Execute(m, msg.data, [], budget, Context(addr, msg.from, msg.value, false, NO_ENV), 0,
                               Credit(w, addr, msg.value));
              ProbeAt(m, w, msg, limit).NeedsMore? <==>
                || (o.Fault? && o.err == OutOfGas)
                || (o.Done? && |o.ret| <= 24576 && o.gas < 200 * |o.ret|)
            case Some(to) =>
              var o := Execute(m, Code(w, to), msg.data, budget, Context(to, msg.from, msg.value, false, NO_ENV), 0,
                               Credit(w, to, msg.value));
              ProbeAt(m, w, msg, limit).NeedsMore? <==> Code(w, to) != [] && o.Fault? && o.err == OutOfGas
  {
    hide Execute, Intrinsic, Put;
  }

  /** Where the probe starts and where the transaction starts differ only in what the sender has. */
  lemma StartsApart(w: World, start: World, tx: Tx, sender: Address, to: Address)
    requires Started(w, start, tx, sender, to) && Code(w, sender) == []
    ensures Apart(Credit(w, to, tx.value), start, sender)
  {
    var w1 := Credit(w, to, tx.value);
    forall a | a != sender ensures AccountIn(w1.accounts, a) == AccountIn(start.accounts, a) {
      assert AccountIn(w1.accounts, a) == Get(w1, a) && AccountIn(start.accounts, a) == Get(start, a);
    }
    assert Code(start, sender) == Get(start, sender).code;
  }

  lemma IntrinsicIsUpfront(tx: Tx, sender: Address)
    ensures Intrinsic(MessageOf(tx, sender)) == Upfront(tx)
  {
    hide DataGas;
    UpfrontIsIntrinsic(tx);
  }

  lemma CallProbe(r: Rules, w: World, tx: Tx, coinbase: Address, blockGasLimit: nat, env: BlockEnv)
    requires tx.to.Some? && Code(w, tx.to.value) != [] && ApplyTx(r, w, tx, coinbase, blockGasLimit, env).Applied?
    requires r.sender(tx).Some? && var s := r.sender(tx).value; Oblivious(r.m, s) && Unmade(r.m, s) && Code(w, s) == []
    ensures ApplyTx(r, w, tx, coinbase, blockGasLimit, env).success <==>
            ProbeAt(r.m, w, MessageOf(tx, r.sender(tx).value), tx.gasLimit).Completes?
  {
    hide ApplyTx, Execute, Oblivious, Unmade, Started, PaidOut, Intrinsic, Upfront, Apart, Credit;
    var s, to := r.sender(tx).value, tx.to.value;
    var v := CallTxMeans(r, w, tx, coinbase, blockGasLimit, env);
    IntrinsicIsUpfront(tx, s);
    StartsApart(w, v.start, tx, s, to);
    var budget, w1 := tx.gasLimit - Upfront(tx), Credit(w, to, tx.value);
    CreditKeepsCode(w, to, tx.value);
    ExecuteVeil(r.m, Code(w, to), tx.data, budget, Context(to, s, tx.value, false, NO_ENV), 0,
                Surroundings(tx, s, coinbase, blockGasLimit, env), w1, v.start, s);
  }

  lemma CreateProbe(r: Rules, w: World, tx: Tx, coinbase: Address, blockGasLimit: nat, env: BlockEnv)
    requires tx.to.None? && ApplyTx(r, w, tx, coinbase, blockGasLimit, env).Applied?
    requires r.sender(tx).Some? && var s := r.sender(tx).value; Oblivious(r.m, s) && Unmade(r.m, s) && Code(w, s) == []
    ensures var s := r.sender(tx).value;
            var addr := r.m.createAddress(s, tx.nonce);
            ApplyTx(r, w, tx, coinbase, blockGasLimit, env).success <==>
            ProbeAt(r.m, w, MessageOf(tx, s), tx.gasLimit).Completes? && Nonce(w, addr) == 0 && Code(w, addr) == []
  {
    hide ApplyTx, Execute, Oblivious, Started, PaidOut, Intrinsic, Upfront, Apart, Credit;
    var s := r.sender(tx).value;
    var addr := r.m.createAddress(s, tx.nonce);
    var v := CreateTxMeans(r, w, tx, coinbase, blockGasLimit, env);
    NonceMatches(r, w, tx, coinbase, blockGasLimit, env);
    IntrinsicIsUpfront(tx, s);
    if Nonce(w, addr) == 0 && Code(w, addr) == [] {
      StartsApart(w, v.start, tx, s, addr);
      ExecuteVeil(r.m, tx.data, [], tx.gasLimit - Upfront(tx), Context(addr, s, tx.value, false, NO_ENV), 0,
                  Surroundings(tx, s, coinbase, blockGasLimit, env), Credit(w, addr, tx.value), v.start, s);
    }
  }

  lemma NonceMatches(r: Rules, w: World, tx: Tx, coinbase: Address, blockGasLimit: nat, env: BlockEnv)
    requires ApplyTx(r, w, tx, coinbase, blockGasLimit, env).Applied?
    ensures r.sender(tx).Some? && tx.nonce == Nonce(w, r.sender(tx).value)
  {
    hide RunTx;
  }

  /**
   The transaction succeeds if and only if the probe at its limit completes; a creation, only if moreover its address is
   free, which the probe does not look at.
   */
  lemma ProbeIsTheTransaction(r: Rules, w: World, tx: Tx, coinbase: Address, blockGasLimit: nat, env: BlockEnv)
    requires ApplyTx(r, w, tx, coinbase, blockGasLimit, env).Applied?
    requires r.sender(tx).Some? && var s := r.sender(tx).value; Oblivious(r.m, s) && Unmade(r.m, s) && Code(w, s) == []
    ensures var s := r.sender(tx).value;
            var addr := r.m.createAddress(s, tx.nonce);
            ApplyTx(r, w, tx, coinbase, blockGasLimit, env).success <==>
              && ProbeAt(r.m, w, MessageOf(tx, s), tx.gasLimit).Completes?
              && (tx.to.None? ==> Nonce(w, addr) == 0 && Code(w, addr) == [])
  {
    hide ApplyTx, Oblivious, Unmade;
    if tx.to.None? {
      CreateProbe(r, w, tx, coinbase, blockGasLimit, env);
    } else if Code(w, tx.to.value) != [] {
      CallProbe(r, w, tx, coinbase, blockGasLimit, env);
    } else {
      PlainSendMovesValue(r, w, tx, coinbase, blockGasLimit, env);
      Assembled(r, w, tx, coinbase, blockGasLimit, env);
      UpfrontIsIntrinsic(tx);
      IntrinsicIsUpfront(tx, r.sender(tx).value);
    }
  }

  /** Sent with the estimate as its limit, a transaction that is not rejected succeeds; with one less, it does not. */
  lemma EstimateSuffices(r: Rules, w: World, tx: Tx, coinbase: Address, blockGasLimit: nat, env: BlockEnv, gas: nat)
    requires r.sender(tx).Some? && var s := r.sender(tx).value; Oblivious(r.m, s) && Unmade(r.m, s) && Code(w, s) == []
    requires var s := r.sender(tx).value;
             && ProbeAt(r.m, w, MessageOf(tx, s), gas).Completes?
             && (gas > 0 ==> !ProbeAt(r.m, w, MessageOf(tx, s), gas - 1).Completes?)
             && var addr := r.m.createAddress(s, tx.nonce);
                (tx.to.None? ==> Nonce(w, addr) == 0 && Code(w, addr) == [])
    ensures var o := ApplyTx(r, w, tx, coinbase, blockGasLimit, env);
            && (o.Applied? && tx.gasLimit == gas ==> o.success)
            && (o.Applied? && tx.gasLimit == gas - 1 ==> !o.success)
  {
    hide ApplyTx, Oblivious, Unmade, ProbeAt;
    if ApplyTx(r, w, tx, coinbase, blockGasLimit, env).Applied? {
      ProbeIsTheTransaction(r, w, tx, coinbase, blockGasLimit, env);
    }
  }
}
