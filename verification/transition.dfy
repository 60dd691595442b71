/**
 The state transition (state/transition.go) on world values: one transaction, the transactions
 of a block, the block reward, and the checks that bind a block to its parent.
 */
module Transition {
  import opened Types
  import opened Worlds
  import opened Vm
  import opened Issuance

  // ----- transactions and blocks -----

  /** A transaction that passed the stateless checks: value and gas price are not negative. */
  datatype Tx = Tx(kind: nat, chainId: nat, nonce: nat, to: Option<Address>, value: nat, gasLimit: nat, gasPrice: nat,
                   data: seq<Byte>, signature: seq<Byte>)

  datatype Receipt = Receipt(success: bool, gasUsed: nat, cumulativeGas: nat, logs: seq<Log>)

  /** Genesis has no parent; any other header names its parent by hash, that is, contains it. */
  datatype Link = Origin(chainTag: nat) | Child(parent: Header)

  /** `txRoot` commits to the transaction list, so it is the list; MerkleRoot justifies this. */
  datatype Header = Header(parentHash: Link, height: nat, timestamp: int, txRoot: seq<Tx>, receiptRoot: nat,
                           stateRoot: nat,
                           gasUsed: nat, gasLimit: nat, proposer: Address, difficulty: nat, nonce: nat)

  datatype Block = Block(header: Header, txs: seq<Tx>)

  /** What a node is configured with, and the functions the model does not look into. */
  datatype Rules = Rules(m: Machine,
                         sender: Tx -> Option<Address>,
                         stateRoot: (map<Address, Account>, int) -> nat,
                         receiptRoot: seq<Receipt> -> nat,
                         treasury: Address,
                         treasuryBps: nat)

  /** Genesis.Validate refuses a larger share. */
  predicate Valid(r: Rules) { r.treasuryBps <= 10000 }

  const FEE_BURN_BPS := 2000
  const MIN_BLOCK_GAS_LIMIT := 1_000_000
  const GAS_LIMIT_BOUND_DIVISOR := 1024

  /** types/block.go:28-41. */
  function DataGas(data: seq<Byte>): nat {
    if data == [] then 0 else DataGas(data[..|data| - 1]) + if data[|data| - 1] == 0 then 4 else 16
  }

  function IntrinsicGasFor(data: seq<Byte>, isCreate: bool): nat { (if isCreate then 53000 else 21000) + DataGas(data) }

  function IntrinsicGas(tx: Tx): nat { IntrinsicGasFor(tx.data, tx.to.None?) }

  function Fee(gas: nat, price: nat): nat { gas * price }

  function MaxFee(tx: Tx): nat { Fee(tx.gasLimit, tx.gasPrice) }

  // ----- one transaction -----

  datatype TxError = BadSender | NonceTooLow | NonceTooHigh | GasLimit | Insufficient

  datatype TxOutcome = Rejected(why: TxError) | Applied(gasUsed: nat, success: bool, logs: seq<Log>, world: World)

  /** The part of a transaction that a failure undoes. */
  datatype TxRun = Committed(world: World, gas: nat) | Undone(gas: nat)

  /** An installed contract costs gas per byte; anything short of success undoes the creation. */
  function Deployed(addr: Address, budget: nat, o: Outcome): TxRun
    requires GasLeft(o) <= budget
  {
    match o
    case Done(ret, gas, _, w) =>
      if |ret| > MAX_CODE_SIZE || gas < CREATE_DATA_GAS * |ret| then Undone(budget)
      else Committed(SetCode(w, addr, ret), budget - gas + CREATE_DATA_GAS * |ret|)
    case Reverted(_, gas, _) => Undone(budget - gas)
    case Fault(_, _) => Undone(budget)
  }

  function Called(budget: nat, o: Outcome): TxRun
    requires GasLeft(o) <= budget
  {
    match o
    case Done(_, gas, _, w) => Committed(w, budget - gas)
    case Reverted(_, gas, _) => Undone(budget - gas)
    case Fault(_, _) => Undone(budget)
  }

  function RunTx(r: Rules, paid: World, tx: Tx, sender: Address, env: BlockEnv): TxRun
    requires IntrinsicGas(tx) <= tx.gasLimit
  {
    var budget := tx.gasLimit - IntrinsicGas(tx);
    var w1 := Credit(paid, sender, -(tx.value as int));
    match tx.to
    case None =>
      var addr := r.m.createAddress(sender, tx.nonce);
      if Nonce(w1, addr) != 0 || |Code(w1, addr)| > 0 then Undone(budget)
      else Deployed(addr, budget, Execute(r.m, tx.data, [], budget, Context(addr, sender, tx.value, false, env), 0,
                                          Credit(w1, addr, tx.value)))
    case Some(to) =>
      if |Code(w1, to)| > 0 then
        var w2 := Credit(w1, to, tx.value);
        Called(budget, Execute(r.m, Code(w2, to), tx.data, budget, Context(to, sender, tx.value, false, env), 0, w2))
      else if to == BURN_ADDRESS then Committed(Burn(w1, tx.value), 0)
      else Committed(Credit(w1, to, tx.value), 0)
  }

  /** The slice of a fee that is destroyed; the proposer gets exactly the rest. */
  function FeeBurn(fee: nat): nat { fee * FEE_BURN_BPS / 10000 }

  function Tip(fee: nat): int { fee - FeeBurn(fee) }

  function DistributeFee(w: World, proposer: Address, fee: nat): World {
    Credit(Burn(w, FeeBurn(fee)), proposer, Tip(fee))
  }

  function Refund(w: World, sender: Address, amount: int): World {
    if amount > 0 then Credit(w, sender, amount) else w
  }

  /** Gas is charged in full and the nonce spent before anything runs; neither is ever rolled back. */
  function Charged(w: World, sender: Address, tx: Tx): World {
    var acc := Get(w, sender);
    Put(w, sender, acc.(balance := acc.balance - MaxFee(tx), nonce := acc.nonce + 1))
  }

  function LogsSince(w: World, start: nat): seq<Log> {
    if start >= |w.logs| then [] else w.logs[start..]
  }

  function ApplyTx(r: Rules, w: World, tx: Tx, coinbase: Address, blockGasLimit: nat, env: BlockEnv): TxOutcome {
    match r.sender(tx)
    case None => Rejected(BadSender)
    case Some(sender) =>
      if tx.nonce < Nonce(w, sender) then Rejected(NonceTooLow)
      else if tx.nonce > Nonce(w, sender) then Rejected(NonceTooHigh)
      else if tx.gasLimit < IntrinsicGas(tx) then Rejected(GasLimit)
      else if blockGasLimit > 0 && tx.gasLimit > blockGasLimit then Rejected(GasLimit)
      else if Balance(w, sender) < MaxFee(tx) + tx.value then Rejected(Insufficient)
      else
        var paid := Charged(w, sender, tx);
        var run := RunTx(r, paid, tx, sender, TxEnv(env, sender, tx, coinbase, blockGasLimit));
        var kept := if run.Committed? then run.world else paid;
        var gasUsed := IntrinsicGas(tx) + run.gas;
        var spent := Fee(gasUsed, tx.gasPrice);
        var settled := DistributeFee(Refund(kept, sender, MaxFee(tx) - spent), coinbase, spent);
        Applied(gasUsed, run.Committed?, LogsSince(settled, |w.logs|), settled)
  }

  /** The block's environment with the transaction's part filled in. */
  function TxEnv(env: BlockEnv, sender: Address, tx: Tx, coinbase: Address, blockGasLimit: nat): BlockEnv {
    env.(origin := sender, gasPrice := tx.gasPrice, coinbase := coinbase, chainId := tx.chainId,
         gasLimit := blockGasLimit)
  }

  // ----- a block -----

  datatype BlockRun = BlockRun(world: World, receipts: seq<Receipt>, gas: nat)

  /** What the transactions of a block depend on besides the parent world. */
  datatype Slot = Slot(proposer: Address, gasLimit: nat, env: BlockEnv)

  /** Headers carry milliseconds, contracts see seconds. */
  function SlotOf(h: Header): Slot {
    Slot(h.proposer, h.gasLimit, BlockEnv(0, 0, 0, h.height, h.timestamp % TWO_64 / 1000, h.difficulty, 0, 0))
  }

  /** The transactions in order; one that is rejected, or gas beyond the limit, fails the whole list. */
  function ApplyTxs(r: Rules, w: World, txs: seq<Tx>, at: Slot): Option<BlockRun> {
    if txs == [] then Some(BlockRun(w, [], 0))
    else
      match ApplyTxs(r, w, txs[..|txs| - 1], at)
      case None => None
      case Some(sofar) => ApplyNext(r, sofar, txs[|txs| - 1], at)
  }

  function ApplyNext(r: Rules, sofar: BlockRun, tx: Tx, at: Slot): Option<BlockRun> {
    match ApplyTx(r, sofar.world, tx, at.proposer, at.gasLimit, at.env)
    case Rejected(_) => None
    case Applied(used, success, logs, w) =>
      if sofar.gas + used > at.gasLimit then None
      else Some(BlockRun(w, sofar.receipts + [Receipt(success, used, sofar.gas + used, logs)], sofar.gas + used))
  }

  function TreasuryCut(r: Rules, reward: nat): nat {
    if r.treasuryBps > 0 && r.treasury != 0 then reward * r.treasuryBps / 10000 else 0
  }

  function CreditBlockReward(r: Rules, w: World, miner: Address, height: nat): World {
    var reward := BlockRewardAt(height);
    var cut := TreasuryCut(r, reward);
    var w1 := if r.treasuryBps == 0 || r.treasury == 0 then w
              else if r.treasury == BURN_ADDRESS then Burn(w, cut)
              else Credit(w, r.treasury, cut);
    Credit(w1, miner, reward - cut)
  }

  datatype BlockError = BadTxRoot | BadParent | BadHeight | BadTimestamp | BadGasLimit | BadTx | BadGasUsed
                      | BadReceiptRoot | BadStateRoot

  datatype BlockOutcome = Refused(why: BlockError) | Accepted(world: World, receipts: seq<Receipt>)

  predicate GasLimitInBounds(limit: nat, parentLimit: nat) {
    var diff := if limit < parentLimit then parentLimit - limit else limit - parentLimit;
    limit >= MIN_BLOCK_GAS_LIMIT && diff < parentLimit / GAS_LIMIT_BOUND_DIVISOR
  }

  /** The checks of a header against its parent; None when it extends the parent. */
  function HeaderError(h: Header, parent: Option<Header>): Option<BlockError> {
    match parent
    case None => if h.height > 0 then Some(BadParent) else None
    case Some(p) =>
      if h.parentHash != Child(p) then Some(BadParent)
      else if h.height != p.height + 1 then Some(BadHeight)
      else if h.timestamp <= p.timestamp then Some(BadTimestamp)
      else if !GasLimitInBounds(h.gasLimit, p.gasLimit) then Some(BadGasLimit)
      else None
  }

  function ApplyBlock(r: Rules, parentWorld: World, b: Block, parent: Option<Header>): BlockOutcome {
    var h := b.header;
    if b.txs != h.txRoot then Refused(BadTxRoot)
    else if HeaderError(h, parent).Some? then Refused(HeaderError(h, parent).value)
    else
      match ApplyTxs(r, parentWorld.(touched := {}), b.txs, SlotOf(h))
      case None => Refused(BadTx)
      case Some(run) =>
        var w := CreditBlockReward(r, run.world, h.proposer, h.height);
        if run.gas != h.gasUsed then Refused(BadGasUsed)
        else if r.receiptRoot(run.receipts) != h.receiptRoot then Refused(BadReceiptRoot)
        else if r.stateRoot(w.accounts, w.burned) != h.stateRoot then Refused(BadStateRoot)
        else Accepted(w, run.receipts)
  }
}
