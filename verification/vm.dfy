/**
 The EVM as a function on values (vm/interpreter.go, vm/exec.go, vm/call.go, vm/opcodes.go,
 vm/memory.go, vm/stack.go). A frame that fails hands back no world at all, so its caller simply
 goes on with the world it had: there is no journal here. Module Interpreter holds the object
 that mutates a journalled State, and proves that it computes this function.

 The opcodes that only compute or read are one family: they pop their operands, pay their static
 price and push a word given by `Machine.read`, an arbitrary function of operands, frame and
 accounts. Native contracts and address derivations are arbitrary functions too.
 */
module Vm {
  import opened Types
  import opened Worlds
  import opened Jumpdest

  // ----- results -----

  datatype Err = OutOfGas | InvalidJump | InvalidOpcode | StackUnderflow | StackOverflow
               | StaticStateChange | ReturnDataOutOfBounds | NativeFault

  datatype Res<+T> = Ok(value: T) | Bad(err: Err) {
    predicate IsFailure() { Bad? }
    function PropagateFailure<U>(): Res<U>
      requires Bad?
    {
      Bad(err)
    }
    function Extract(): T
      requires Ok?
    {
      value
    }
  }

  /** How a frame ended. `steps` counts the instructions it and its callees completed. */
  datatype Outcome = Done(ret: seq<Byte>, gas: nat, steps: nat, world: World)
                   | Reverted(ret: seq<Byte>, gas: nat, steps: nat)
                   | Fault(err: Err, steps: nat)

  function GasLeft(o: Outcome): nat { if o.Fault? then 0 else o.gas }

  function Output(o: Outcome): seq<Byte> { if o.Fault? then [] else o.ret }

  // ----- frames -----

  /** Constant for the whole transaction and inherited by every sub-call. */
  datatype BlockEnv = BlockEnv(origin: Address, gasPrice: int, coinbase: Address, number: nat, time: nat,
                               difficulty: nat, chainId: nat, gasLimit: nat)

  datatype Context = Context(address: Address, caller: Address, value: int, readOnly: bool, env: BlockEnv)

  datatype Frame = Frame(code: seq<Byte>, input: seq<Byte>, stack: seq<Word>, mem: seq<Byte>, pc: nat, gas: nat,
                         returnData: seq<Byte>, ctx: Context, depth: nat, steps: nat)

  datatype Machine = Machine(read: (Byte, seq<Word>, Frame, map<Address, Account>) -> nat,
                             nativeGas: (Address, seq<Byte>) -> nat,
                             native: (Address, seq<Byte>) -> Option<seq<Byte>>,
                             createAddress: (Address, nat) -> Address,
                             create2Address: (Address, Word, seq<Byte>) -> Address)

  function NewFrame(code: seq<Byte>, input: seq<Byte>, gas: nat, ctx: Context, depth: nat): Frame {
    Frame(code, input, [], [], 0, gas, [], ctx, depth, 0)
  }

  /** g is f later in the same activation, having spent no more steps than gas. */
  ghost predicate Later(f: Frame, g: Frame) {
    && g.code == f.code && g.input == f.input && g.ctx == f.ctx && g.depth == f.depth
    && g.gas <= f.gas && f.steps <= g.steps && g.steps - f.steps <= f.gas - g.gas
  }

  // ----- the instruction set -----

  const MAX_STACK := 1024
  const MAX_CALL_DEPTH := 1024
  const MAX_CODE_SIZE := 24576
  const MAX_MEM_BYTES := 0x1_0000_0000
  const CALL_GAS := 700
  const CALL_VALUE_GAS := 9000
  const CREATE_GAS := 32000
  const CREATE_DATA_GAS := 200
  const WORD_HASH_GAS := 6
  const LOG_GAS := 375
  const LOG_DATA_GAS := 8

  datatype CallMode = Regular | Delegate | Static

  datatype CopySource = Calldata | OwnCode | OtherCode | ReturnData | Memory

  datatype Kind = Stop | Push(n: nat) | Dup(n: nat) | Swap(n: nat) | Compute(pops: nat) | Exp | Hash | Drop
                | Load | Store | Store8 | Copy(src: CopySource) | Sstore | Jump | JumpIf | Marker
                | Event(n: nat) | Call(mode: CallMode) | Create(salted: bool) | Return | Revert | Invalid

  function KindOf(op: Byte): Kind {
    if op == 0x00 then Stop
    else if 0x01 <= op <= 0x07 || op == 0x0b || 0x10 <= op <= 0x14 then Compute(2)
    else if 0x16 <= op <= 0x18 || 0x1a <= op <= 0x1d then Compute(2)
    else if op == 0x08 || op == 0x09 then Compute(3)
    else if op == 0x0a then Exp
    else if op == 0x15 || op == 0x19 then Compute(1)
    else if op == 0x20 then Hash
    else if op == 0x37 then Copy(Calldata)
    else if op == 0x39 then Copy(OwnCode)
    else if op == 0x3c then Copy(OtherCode)
    else if op == 0x3e then Copy(ReturnData)
    else if op == 0x31 || op == 0x35 || op == 0x3b || op == 0x3f || op == 0x40 || op == 0x54 then Compute(1)
    else if 0x30 <= op <= 0x3f || 0x41 <= op <= 0x48 || 0x58 <= op <= 0x5a || op == 0x5f then Compute(0)
    else if op == 0x50 then Drop
    else if op == 0x51 then Load
    else if op == 0x52 then Store
    else if op == 0x53 then Store8
    else if op == 0x55 then Sstore
    else if op == 0x56 then Jump
    else if op == 0x57 then JumpIf
    else if op == JUMPDEST then Marker
    else if op == 0x5e then Copy(Memory)
    else if PUSH1 <= op <= PUSH32 then Push(op - PUSH1 + 1)
    else if 0x80 <= op <= 0x8f then Dup(op - 0x80 + 1)
    else if 0x90 <= op <= 0x9f then Swap(op - 0x90 + 1)
    else if 0xa0 <= op <= 0xa4 then Event(op - 0xa0)
    else if op == 0xf0 then Create(false)
    else if op == 0xf1 then Call(Regular)
    else if op == 0xf3 then Return
    else if op == 0xf4 then Call(Delegate)
    else if op == 0xf5 then Create(true)
    else if op == 0xfa then Call(Static)
    else if op == 0xfd then Revert
    else Invalid
  }

  /** The static price. Zero only for opcodes that halt or that charge themselves. */
  function GasCost(op: Byte): nat {
    if PUSH1 <= op <= 0x9f then 3
    else if op == 0x01 || op == 0x03 || 0x10 <= op <= 0x1d then 3
    else if 0x02 <= op <= 0x07 || op == 0x0b then 5
    else if op == 0x08 || op == 0x09 then 8
    else if op == 0x0a then 10
    else if op == 0x20 then 30
    else if op == 0x31 || op == 0x3b || op == 0x3c || op == 0x3f then 700
    else if op == 0x35 || op == 0x37 || op == 0x39 || op == 0x3e || op == 0x5e then 3
    else if op == 0x40 then 20
    else if op == 0x47 then 5
    else if 0x30 <= op <= 0x48 then 2
    else if op == 0x50 || 0x58 <= op <= 0x5a || op == 0x5f then 2
    else if 0x51 <= op <= 0x53 then 3
    else if op == 0x54 then 800
    else if op == 0x56 then 8
    else if op == 0x57 then 10
    else if op == JUMPDEST then 1
    else 0
  }

  // ----- stack, gas and memory -----

  function Pop(f: Frame, n: nat): Res<(seq<Word>, Frame)> {
    if |f.stack| < n then Bad(StackUnderflow)
    else Ok((seq(n, i requires 0 <= i < n <= |f.stack| => f.stack[|f.stack| - 1 - i]),
             f.(stack := f.stack[..|f.stack| - n])))
  }

  function PushWord(f: Frame, v: nat): Res<Frame> {
    if |f.stack| >= MAX_STACK then Bad(StackOverflow) else Ok(f.(stack := f.stack + [v % TWO_256]))
  }

  function UseGas(f: Frame, cost: nat): Res<Frame> {
    if f.gas < cost then Bad(OutOfGas) else Ok(f.(gas := f.gas - cost))
  }

  function WordCount(n: nat): nat { (n + 31) / 32 }

  function MemoryCost(words: nat): nat { words * 3 + words * words / 512 }

  lemma MemoryCostGrows(a: nat, b: nat)
    requires a <= b
    ensures MemoryCost(a) <= MemoryCost(b)
  {
    assert a * a <= b * b;
    assert a * a / 512 <= b * b / 512;
  }

  function Resize(mem: seq<Byte>, size: nat): seq<Byte> {
    if |mem| < size then mem + seq(size - |mem|, i => 0) else mem
  }

  function ExpansionGas(mem: seq<Byte>, end: nat): nat {
    var grown, now := WordCount(end), WordCount(|mem|);
    if grown <= now then 0
    else
      MemoryCostGrows(now, grown);
      MemoryCost(grown) - MemoryCost(now)
  }

  /** Pays for and grows memory to cover the window; an empty window touches nothing. */
  function ChargeMem(f: Frame, off: nat, size: nat): (r: Res<Frame>)
    ensures r.Ok? ==> Later(f, r.value) && r.value.steps == f.steps && r.value.stack == f.stack && r.value.pc == f.pc
                      && |f.mem| <= |r.value.mem| && (size > 0 ==> off + size <= |r.value.mem|)
                      && r.value.returnData == f.returnData
  {
    if size == 0 then Ok(f)
    else if off >= TWO_64 || size >= TWO_64 || off + size > MAX_MEM_BYTES then Bad(OutOfGas)
    else
      var g :- UseGas(f, ExpansionGas(f.mem, off + size));
      Ok(g.(mem := Resize(g.mem, off + size)))
  }

  /** Bytes off..off+size, zero beyond the end of the data. */
  function Window(data: seq<Byte>, off: nat, size: nat): (r: seq<Byte>)
    ensures |r| == size
  {
    seq(size, i requires 0 <= i => if off + i < |data| then data[off + i] else 0)
  }

  function Overwrite(mem: seq<Byte>, off: nat, val: seq<Byte>): (r: seq<Byte>)
    requires val == [] || off + |val| <= |mem|
    ensures |r| == |mem|
  {
    if val == [] then mem else mem[..off] + val + mem[off + |val|..]
  }

  function ByteLen(v: nat): nat { if v == 0 then 0 else 1 + ByteLen(v / 256) }

  function ToAddress(w: Word): Address { w % TWO_160 }

  // ----- instructions that leave the world alone -----

  datatype Turn = Next(frame: Frame) | Returns(ret: seq<Byte>, frame: Frame) | Reverts(ret: seq<Byte>, frame: Frame)

  /** The turn stays in f's activation and completes no nested instruction. */
  ghost predicate Local(f: Frame, r: Res<Turn>) {
    r.Ok? ==> Later(f, r.value.frame) && r.value.frame.steps == f.steps
  }

  function Advance(f: Frame): Turn { Next(f.(pc := f.pc + 1)) }

  function PushTurn(f: Frame, v: nat): (r: Res<Turn>)
    ensures Local(f, r)
    ensures r.Ok? ==> r.value.Next? && r.value.frame.pc == f.pc + 1
  {
    var g :- PushWord(f, v);
    Ok(Advance(g))
  }

  function JumpTo(f: Frame, d: nat): (r: Res<Turn>)
    ensures Local(f, r)
  {
    if d >= TWO_64 || !ValidDest(f.code, d) then Bad(InvalidJump) else Ok(Next(f.(pc := d)))
  }

  /** What a copy opcode reads from. */
  function CopyData(src: CopySource, input: seq<Byte>, code: seq<Byte>, returnData: seq<Byte>, mem: seq<Byte>,
                    accounts: map<Address, Account>, other: Address): seq<Byte> {
    match src
    case Calldata => input
    case OwnCode => code
    case OtherCode => if other in accounts then accounts[other].code else []
    case ReturnData => returnData
    case Memory => mem
  }

  function CopyTurn(f: Frame, src: CopySource, accounts: map<Address, Account>): (r: Res<Turn>)
    ensures Local(f, r)
    ensures r.Ok? ==> r.value.Next? && r.value.frame.pc == f.pc + 1
  {
    var n := if src == OtherCode then 4 else 3;
    var (a, g) :- Pop(f, n);
    var memOff, off, len := a[n - 3], a[n - 2], a[n - 1];
    if src == ReturnData && off + len > |f.returnData| then Bad(ReturnDataOutOfBounds)
    else
      var h :- ChargeMem(g, memOff, len);
      var h' :- if src == Memory then ChargeMem(h, off, len) else Ok(h);
      var k :- UseGas(h', 3 * WordCount(len));
      var data := CopyData(src, k.input, k.code, k.returnData, k.mem, accounts, ToAddress(a[0]));
      Ok(Advance(k.(mem := Overwrite(k.mem, memOff, Window(data, off, len)))))
  }

  function HaltTurn(f: Frame, revert: bool): (r: Res<Turn>)
    ensures Local(f, r)
  {
    var (a, g) :- Pop(f, 2);
    var h :- ChargeMem(g, a[0], a[1]);
    var ret := Window(h.mem, a[0], a[1]);
    Ok(if revert then Reverts(ret, h) else Returns(ret, h))
  }

  function StackTurn(m: Machine, op: Byte, f: Frame, accounts: map<Address, Account>): (r: Res<Turn>)
    ensures Local(f, r)
  {
    match KindOf(op)
    case Push(n) =>
      var g :- PushWord(f, FromBytes(Window(f.code, f.pc + 1, n)));
      Ok(Next(g.(pc := f.pc + 1 + n)))
    case Dup(n) => if |f.stack| < n then Bad(StackUnderflow) else PushTurn(f, f.stack[|f.stack| - n])
    case Swap(n) =>
      var top := |f.stack| - 1;
      if |f.stack| <= n then Bad(StackUnderflow)
      else Ok(Advance(f.(stack := f.stack[top := f.stack[top - n]][top - n := f.stack[top]])))
    case Compute(n) =>
      var (a, g) :- Pop(f, n);
      PushTurn(g, m.read(op, a, f, accounts))
    case Exp =>
      var (a, g) :- Pop(f, 2);
      var h :- UseGas(g, 50 * ByteLen(a[1]));
      PushTurn(h, m.read(op, a, f, accounts))
    case Drop =>
      var (a, g) :- Pop(f, 1);
      Ok(Advance(g))
    case _ => Bad(InvalidOpcode)
  }

  function MemoryTurn(m: Machine, op: Byte, f: Frame, accounts: map<Address, Account>): (r: Res<Turn>)
    ensures Local(f, r)
  {
    match KindOf(op)
    case Hash =>
      var (a, g) :- Pop(f, 2);
      var h :- ChargeMem(g, a[0], a[1]);
      var k :- UseGas(h, WORD_HASH_GAS * WordCount(a[1]));
      PushTurn(k, m.read(op, a, k, accounts))
    case Load =>
      var (a, g) :- Pop(f, 1);
      var h :- ChargeMem(g, a[0], 32);
      PushTurn(h, FromBytes(Window(h.mem, a[0], 32)))
    case Store =>
      var (a, g) :- Pop(f, 2);
      var h :- ChargeMem(g, a[0], 32);
      Ok(Advance(h.(mem := Overwrite(h.mem, a[0], BigEndian(a[1], 32)))))
    case Store8 =>
      var (a, g) :- Pop(f, 2);
      var h :- ChargeMem(g, a[0], 1);
      Ok(Advance(h.(mem := Overwrite(h.mem, a[0], [a[1] % 256]))))
    case Copy(src) => CopyTurn(f, src, accounts)
    case _ => Bad(InvalidOpcode)
  }

  function FlowTurn(op: Byte, f: Frame): (r: Res<Turn>)
    ensures Local(f, r)
    ensures r.Ok? && r.value.Next? ==> KindOf(op).Jump? || KindOf(op).JumpIf? || KindOf(op).Marker?
  {
    match KindOf(op)
    case Stop => Ok(Returns([], f))
    case Jump =>
      var (a, g) :- Pop(f, 1);
      JumpTo(g, a[0])
    case JumpIf =>
      var (a, g) :- Pop(f, 2);
      if a[1] != 0 then JumpTo(g, a[0]) else Ok(Advance(g))
    case Marker => Ok(Advance(f))
    case Return => HaltTurn(f, false)
    case Revert => HaltTurn(f, true)
    case _ => Bad(InvalidOpcode)
  }

  /** What costs nothing up front halts, charges for itself, or is not an instruction. */
  lemma FreeKinds(op: Byte)
    ensures var k := KindOf(op);
            GasCost(op) == 0 ==>
              k.Stop? || k.Return? || k.Revert? || k.Invalid? || k.Sstore? || k.Event? || k.Call? || k.Create?
  {
  }

  /** One instruction that neither reads nor writes beyond its frame and the accounts it looks at. */
  function LocalTurn(m: Machine, op: Byte, f: Frame, accounts: map<Address, Account>): (r: Res<Turn>)
    ensures Local(f, r)
    ensures r.Ok? && r.value.Next? ==> GasCost(op) > 0
  {
    hide KindOf, GasCost, Local, StackTurn, MemoryTurn, FlowTurn;
    FreeKinds(op);
    var k := KindOf(op);
    if k.Push? || k.Dup? || k.Swap? || k.Compute? || k.Exp? || k.Drop? then StackTurn(m, op, f, accounts)
    else if k.Hash? || k.Load? || k.Store? || k.Store8? || k.Copy? then MemoryTurn(m, op, f, accounts)
    else FlowTurn(op, f)
  }

  // ----- instructions that change the world -----

  function SstoreGas(cur: Word, next: Word): nat {
    if cur == next then 800 else if cur == 0 then 20000 else 5000
  }

  function SstoreTurn(f: Frame, w: World): (r: Res<(Frame, World)>)
    ensures r.Ok? ==> Later(f, r.value.0) && r.value.0.steps == f.steps && r.value.0.gas < f.gas && r.value.0.pc == f.pc
  {
    if f.ctx.readOnly then Bad(StaticStateChange)
    else
      var (a, g) :- Pop(f, 2);
      var h :- UseGas(g, SstoreGas(Slot(w, f.ctx.address, a[0]), a[1]));
      Ok((h, SetSlot(w, f.ctx.address, a[0], a[1])))
  }

  function EventTurn(f: Frame, n: nat, w: World): (r: Res<(Frame, World)>)
    ensures r.Ok? ==> Later(f, r.value.0) && r.value.0.steps == f.steps && r.value.0.gas < f.gas && r.value.0.pc == f.pc
  {
    if f.ctx.readOnly then Bad(StaticStateChange)
    else
      var (a, g) :- Pop(f, n + 2);
      var h :- ChargeMem(g, a[0], a[1]);
      var k :- UseGas(h, LOG_GAS + n * LOG_GAS);
      var l :- UseGas(k, LOG_DATA_GAS * a[1]);
      Ok((l, AddLog(w, Log(f.ctx.address, a[2..], Window(l.mem, a[0], a[1])))))
  }

  /** A call whose operands are popped and paid for; `give` is the gas it hands over. */
  datatype CallPlan = CallPlan(frame: Frame, target: Address, value: nat, args: seq<Byte>, give: nat, retOff: nat,
                               retSize: nat)

  function CallArity(mode: CallMode): nat { if mode == Regular then 7 else 6 }

  function CallPay(g: Frame, a: seq<Word>, mode: CallMode): (r: Res<CallPlan>)
    requires |a| == CallArity(mode)
    ensures r.Ok? ==> var k := r.value.frame;
                      && Later(g, k) && k.steps == g.steps && k.pc == g.pc && k.stack == g.stack
                      && r.value.give <= k.gas <= g.gas - CALL_GAS
                      && (r.value.retSize > 0 ==> r.value.retOff + r.value.retSize <= |k.mem|)
                      && (mode != Regular || g.ctx.readOnly ==> r.value.value == 0)
  {
    var n := CallArity(mode);
    var value := if mode == Regular then a[2] else 0;
    if value > 0 && g.ctx.readOnly then Bad(StaticStateChange)
    else
      var h :- UseGas(g, CALL_GAS + if value > 0 then CALL_VALUE_GAS else 0);
      var h' :- ChargeMem(h, a[n - 4], a[n - 3]);
      var k :- ChargeMem(h', a[n - 2], a[n - 1]);
      var most := k.gas - k.gas / 64;
      Ok(CallPlan(k.(returnData := []), ToAddress(a[1]), value, Window(k.mem, a[n - 4], a[n - 3]),
                  if a[0] < most then a[0] else most, a[n - 2], a[n - 1]))
  }

  function CallSetup(f: Frame, mode: CallMode): (r: Res<CallPlan>)
    ensures r.Ok? ==> Later(f, r.value.frame) && r.value.frame.steps == f.steps && r.value.frame.pc == f.pc
                      && r.value.give <= r.value.frame.gas <= f.gas - CALL_GAS && |r.value.frame.stack| < |f.stack|
                      && (r.value.retSize > 0 ==> r.value.retOff + r.value.retSize <= |r.value.frame.mem|)
                      && (mode != Regular || f.ctx.readOnly ==> r.value.value == 0)
  {
    var (a, g) :- Pop(f, CallArity(mode));
    CallPay(g, a, mode)
  }

  /** The callee's context: a delegate call keeps the caller's, and read-only is never shed. */
  function CalleeContext(c: Context, mode: CallMode, target: Address, value: nat): Context {
    match mode
    case Delegate => c
    case Static => Context(target, c.address, 0, true, c.env)
    case Regular => Context(target, c.address, value, c.readOnly, c.env)
  }

  predicate IsNative(a: Address) { 1 <= a <= 8 }

  function RunNative(m: Machine, a: Address, args: seq<Byte>, gas: nat, w: World): (o: Outcome)
    ensures GasLeft(o) <= gas && o.steps == 0
  {
    var cost := m.nativeGas(a, args);
    if gas < cost then Fault(OutOfGas, 0)
    else match m.native(a, args)
      case None => Fault(NativeFault, 0)
      case Some(ret) => Done(ret, gas - cost, 0, w)
  }

  /** Takes unspent gas back, keeps the callee's output and copies it into the caller's window. */
  function CallFinish(p: CallPlan, o: Outcome): Res<Frame>
    requires p.give <= p.frame.gas && (p.retSize > 0 ==> p.retOff + p.retSize <= |p.frame.mem|)
  {
    var ret := Output(o);
    var f := p.frame.(gas := p.frame.gas - p.give + GasLeft(o), steps := p.frame.steps + o.steps, returnData := ret);
    var n := if |ret| < p.retSize then |ret| else p.retSize;
    PushWord(f.(mem := Overwrite(f.mem, p.retOff, ret[..n])), if o.Done? then 1 else 0)
  }

  /** What the callee makes of the world after the value has moved. */
  function Callee(m: Machine, c: Context, depth: nat, mode: CallMode, p: CallPlan, w: World): (o: Outcome)
    ensures GasLeft(o) <= p.give && o.steps <= p.give - GasLeft(o)
    decreases p.give, 5
  {
    var w1 := if p.value > 0 then Transfer(w, c.address, p.target, p.value) else w;
    if IsNative(p.target) then RunNative(m, p.target, p.args, p.give, w1)
    else Execute(m, Code(w1, p.target), p.args, p.give, CalleeContext(c, mode, p.target, p.value), depth + 1, w1)
  }

  /** CALL, DELEGATECALL and STATICCALL. Whatever goes wrong below, the world is the one before. */
  function CallTurn(m: Machine, f: Frame, mode: CallMode, w: World): (r: Res<(Frame, World)>)
    ensures r.Ok? ==> Later(f, r.value.0) && f.gas - r.value.0.gas > r.value.0.steps - f.steps && r.value.0.pc == f.pc
    decreases f.gas, 1
  {
    var p :- CallSetup(f, mode);
    if f.depth >= MAX_CALL_DEPTH || (p.value > 0 && Balance(w, f.ctx.address) < p.value) then
      var g :- PushWord(p.frame, 0);
      Ok((g, w))
    else
      var o := Callee(m, f.ctx, f.depth, mode, p, w);
      var g :- CallFinish(p, o);
      Ok((g, if o.Done? then o.world else w))
  }

  datatype CreatePlan = CreatePlan(frame: Frame, value: nat, init: seq<Byte>, salt: Word)

  function CreateSetup(f: Frame, salted: bool): (r: Res<CreatePlan>)
    ensures r.Ok? ==> Later(f, r.value.frame) && r.value.frame.steps == f.steps && r.value.frame.pc == f.pc
                      && r.value.frame.gas <= f.gas - CREATE_GAS && |r.value.frame.stack| < |f.stack|
    ensures r.Ok? ==> !f.ctx.readOnly && r.value.frame.returnData == []
  {
    if f.ctx.readOnly then Bad(StaticStateChange)
    else
      var (a, g) :- Pop(f, if salted then 4 else 3);
      var h :- UseGas(g, CREATE_GAS);
      var h' :- ChargeMem(h, a[1], a[2]);
      var k :- if salted then UseGas(h', WORD_HASH_GAS * WordCount(a[2])) else Ok(h');
      Ok(CreatePlan(k.(returnData := []), a[0], Window(k.mem, a[1], a[2]), if salted then a[3] else 0))
  }

  /** Installs the returned code if it fits and is paid for; otherwise the attempt leaves w1. */
  function CreateFinish(g: Frame, addr: Address, o: Outcome, w1: World): (r: Res<(Frame, World)>)
    ensures r.Ok? ==> var k := r.value.0;
                      && k.code == g.code && k.input == g.input && k.ctx == g.ctx && k.depth == g.depth && k.pc == g.pc
                      && k.gas <= g.gas + GasLeft(o) && k.steps == g.steps + o.steps
  {
    var h := g.(gas := g.gas + GasLeft(o), steps := g.steps + o.steps);
    if !o.Done? then
      var k :- PushWord(h.(returnData := Output(o)), 0);
      Ok((k, w1))
    else if |o.ret| > MAX_CODE_SIZE || h.gas < CREATE_DATA_GAS * |o.ret| then
      var k :- PushWord(h, 0);
      Ok((k, w1))
    else
      var k :- PushWord(h.(gas := h.gas - CREATE_DATA_GAS * |o.ret|), addr);
      Ok((k, SetCode(o.world, addr, o.ret)))
  }

  /** What the init code makes of the world after the value has moved. */
  function Constructor(m: Machine, c: Context, depth: nat, p: CreatePlan, addr: Address, give: nat,
                       w1: World): (o: Outcome)
    ensures GasLeft(o) <= give && o.steps <= give - GasLeft(o)
    decreases give, 5
  {
    var w2 := if p.value > 0 then Transfer(w1, c.address, addr, p.value) else w1;
    Execute(m, p.init, [], give, Context(addr, c.address, p.value, c.readOnly, c.env), depth + 1, w2)
  }

  /** The creator's nonce is spent as soon as the attempt is made, and the gas even on a collision. */
  function CreateAttempt(m: Machine, c: Context, depth: nat, salted: bool, p: CreatePlan, w: World): (r: Res<(Frame,
                         World)>)
    ensures r.Ok? ==> Later(p.frame, r.value.0) && r.value.0.pc == p.frame.pc
    decreases p.frame.gas, 6
  {
    var nonce := Nonce(w, c.address);
    var addr := if salted then m.create2Address(c.address, p.salt, p.init) else m.createAddress(c.address, nonce);
    var w1 := SetNonce(w, c.address, nonce + 1);
    var give := p.frame.gas - p.frame.gas / 64;
    var g := p.frame.(gas := p.frame.gas - give);
    if Nonce(w1, addr) != 0 || |Code(w1, addr)| > 0 then
      var h :- PushWord(g, 0);
      Ok((h, w1))
    else
      CreateFinish(g, addr, Constructor(m, c, depth, p, addr, give, w1), w1)
  }

  /** CREATE and CREATE2. */
  function CreateTurn(m: Machine, f: Frame, salted: bool, w: World): (r: Res<(Frame, World)>)
    ensures r.Ok? ==> Later(f, r.value.0) && f.gas - r.value.0.gas > r.value.0.steps - f.steps && r.value.0.pc == f.pc
    decreases f.gas, 1
  {
    var p :- CreateSetup(f, salted);
    if f.depth >= MAX_CALL_DEPTH || (p.value > 0 && Balance(w, f.ctx.address) < p.value) then
      var g :- PushWord(p.frame, 0);
      Ok((g, w))
    else
      CreateAttempt(m, f.ctx, f.depth, salted, p, w)
  }

  // ----- the loop -----

  function Lift(r: Res<(Frame, World)>): Res<(Turn, World)> {
    var (f, w) :- r;
    Ok((Advance(f), w))
  }

  /** One instruction. */
  function Step(m: Machine, f: Frame, w: World): (r: Res<(Turn, World)>)
    requires f.pc < |f.code|
    ensures r.Ok? ==> Later(f, r.value.0.frame)
    ensures r.Ok? && r.value.0.Next? ==> r.value.0.frame.steps - f.steps < f.gas - r.value.0.frame.gas
    decreases f.gas, 2
  {
    var op := f.code[f.pc];
    var g :- UseGas(f, GasCost(op));
    var k := KindOf(op);
    if k.Sstore? then Lift(SstoreTurn(g, w))
    else if k.Event? then Lift(EventTurn(g, k.n, w))
    else if k.Call? then Lift(CallTurn(m, g, k.mode, w))
    else if k.Create? then Lift(CreateTurn(m, g, k.salted, w))
    else
      var t :- LocalTurn(m, op, g, w.accounts);
      Ok((t, w))
  }

  /** Runs until the frame halts. Gas is what makes the recursion well founded. */
  function Run(m: Machine, f: Frame, w: World): (o: Outcome)
    ensures GasLeft(o) <= f.gas && f.steps <= o.steps && o.steps - f.steps <= f.gas - GasLeft(o)
    decreases f.gas, 3
  {
    if f.pc >= |f.code| then Done([], f.gas, f.steps, w)
    else match Step(m, f, w)
      case Bad(e) => Fault(e, f.steps)
      case Ok((Next(g), w')) => Run(m, g.(steps := g.steps + 1), w')
      case Ok((Returns(ret, g), w')) => Done(ret, g.gas, g.steps, w')
      case Ok((Reverts(ret, g), _)) => Reverted(ret, g.gas, g.steps)
  }

  /**
   One call frame. It always ends, gives back no more gas than it was given, and across all nested
   frames completes no more instructions than the gas it consumes.
   */
  function Execute(m: Machine, code: seq<Byte>, input: seq<Byte>, gas: nat, ctx: Context, depth: nat,
                   w: World): (o: Outcome)
    ensures GasLeft(o) <= gas && o.steps <= gas - GasLeft(o)
    decreases gas, 4
  {
    Run(m, NewFrame(code, input, gas, ctx, depth), w)
  }
}
