/**
 What the instructions do, read off the opcode, the operands and the memory before: when they fault, what they cost,
 and every word, byte, slot and account they leave behind. The functions that Vm is made of are not mentioned,
 except for Execute, which runs a nested frame.
 */
module Instructions {
  import opened Types
  import opened Worlds
  import opened Jumpdest
  import opened Vm

  const CALL: Byte := 0xf1
  const DELEGATECALL: Byte := 0xf4
  const STATICCALL: Byte := 0xfa
  const CREATE: Byte := 0xf0
  const CREATE2: Byte := 0xf5

  /** Operand i, counted from the top of the stack. */
  function Arg(f: Frame, i: nat): Word
    requires i < |f.stack|
  {
    f.stack[|f.stack| - 1 - i]
  }

  /** The stack below the top n words. */
  function Below(f: Frame, n: nat): seq<Word>
    requires n <= |f.stack|
  {
    f.stack[..|f.stack| - n]
  }

  /** Byte i of memory or data; beyond the end it is zero. */
  function ByteAt(bytes: seq<Byte>, i: nat): Byte { if i < |bytes| then bytes[i] else 0 }

  // ----- memory -----

  /** What n bytes of memory have cost altogether: 3 a word, and a 512th of the words squared. */
  function Rent(n: nat): nat { MemoryCost(WordCount(n)) }

  /** Memory of n bytes after touching a window. */
  function Reach(n: nat, off: nat, size: nat): nat { if size > 0 && off + size > n then off + size else n }

  predicate Fits(off: nat, size: nat) { size == 0 || off + size <= 0x1_0000_0000 }

  lemma RentGrows(a: nat, b: nat)
    requires a <= b
    ensures Rent(a) <= Rent(b)
  {
    MemoryCostGrows(WordCount(a), WordCount(b));
  }

  /** The price of memory rises with its square: 512 words on top of n cost 2048 and 2n. */
  lemma RentIsQuadratic(n: nat)
    ensures MemoryCost(n + 512) == MemoryCost(n) + 2048 + 2 * n
    ensures n <= 22 ==> MemoryCost(n) == 3 * n
  {
    assert (n + 512) * (n + 512) == n * n + 512 * (2 * n + 512);
    assert n <= 22 ==> n * n <= 22 * 22;
  }

  /** mem' is mem with zeros appended up to n bytes. */
  ghost predicate Grown(mem: seq<Byte>, mem': seq<Byte>, n: nat) {
    |mem'| == n && forall i: nat :: ByteAt(mem', i) == ByteAt(mem, i)
  }

  /** Touching a window pays the difference in rent, and changes no byte. */
  lemma Touching(f: Frame, off: nat, size: nat)
    ensures var r, end := ChargeMem(f, off, size), Reach(|f.mem|, off, size);
            && |f.mem| <= end && Rent(|f.mem|) <= Rent(end)
            && (r.Ok? <==> Fits(off, size) && f.gas + Rent(|f.mem|) >= Rent(end))
            && (r.Ok? ==> && r.value == f.(gas := r.value.gas, mem := r.value.mem)
                          && r.value.gas == f.gas + Rent(|f.mem|) - Rent(end) && Grown(f.mem, r.value.mem, end))
  {
    hide MemoryCost;
    var end := Reach(|f.mem|, off, size);
    RentGrows(|f.mem|, end);
    if off + size <= |f.mem| { RentGrows(off + size, |f.mem|); }
    assert WordCount(off + size) <= WordCount(|f.mem|) && off + size > |f.mem| ==>
             WordCount(off + size) == WordCount(|f.mem|);
  }

  lemma Popping(f: Frame, n: nat)
    ensures Pop(f, n).Ok? <==> |f.stack| >= n
    ensures |f.stack| >= n ==>
              && |Pop(f, n).value.0| == n && (forall i :: 0 <= i < n ==> Pop(f, n).value.0[i] == Arg(f, i))
              && Pop(f, n).value.1 == f.(stack := Below(f, n))
  {
  }

  // ----- calls -----

  predicate IsCall(op: Byte) { op == CALL || op == DELEGATECALL || op == STATICCALL }

  function CallWords(op: Byte): nat { if op == CALL then 7 else 6 }

  /** What is asked for: only CALL names a value. */
  datatype Ask = Ask(gas: nat, target: Address, value: nat, inOff: nat, inSize: nat, outOff: nat, outSize: nat)

  function AskOf(f: Frame, op: Byte): Ask
    requires |f.stack| >= CallWords(op)
  {
    if op == CALL then
      Ask(Arg(f, 0), Arg(f, 1) % TWO_160, Arg(f, 2), Arg(f, 3), Arg(f, 4), Arg(f, 5), Arg(f, 6))
    else
      Ask(Arg(f, 0), Arg(f, 1) % TWO_160, 0, Arg(f, 2), Arg(f, 3), Arg(f, 4), Arg(f, 5))
  }

  function CallReach(f: Frame, q: Ask): nat { Reach(Reach(|f.mem|, q.inOff, q.inSize), q.outOff, q.outSize) }

  /** The flat price, the surcharge for value, and the memory both windows touch. */
  function CallCost(f: Frame, q: Ask): int {
    700 + (if q.value > 0 then 9000 else 0) + Rent(CallReach(f, q)) - Rent(|f.mem|)
  }

  /**
   The call does not fault: the operands are there and the answer has room, the price is paid, and a read-only frame
   sends nothing.
   */
  predicate CallPaid(f: Frame, op: Byte) {
    CallWords(op) <= |f.stack| < 1024 + CallWords(op) && Covered(f, AskOf(f, op))
  }

  /** Too deep, or more than the caller has: the call reports 0 without running anything. */
  predicate CallRefused(f: Frame, q: Ask, w: World) {
    f.depth >= 1024 || (q.value > 0 && Balance(w, f.ctx.address) < q.value)
  }

  /** Value has moved from one account to another, and nothing else. */
  ghost predicate Moved(w: World, w': World, from: Address, to: Address, amount: nat) {
    && w'.logs == w.logs && w'.burned == w.burned && (amount == 0 ==> w' == w)
    && forall a :: Get(w', a) == Get(w, a).(
                     balance := Balance(w, a) - (if a == from then amount else 0) + (if a == to then amount else 0))
  }

  lemma Moving(w: World, from: Address, to: Address, amount: nat)
    ensures Moved(w, if amount > 0 then Transfer(w, from, to, amount) else w, from, to, amount)
  {
  }

  /** The frame a callee runs in. */
  function CalleeSees(f: Frame, op: Byte, q: Ask): Context {
    Context(if op == DELEGATECALL then f.ctx.address else q.target,
            if op == DELEGATECALL then f.ctx.caller else f.ctx.address,
            if op == DELEGATECALL then f.ctx.value else q.value,
            f.ctx.readOnly || op == STATICCALL,
            f.ctx.env)
  }

  /** How a native contract answers. */
  function NativeAnswer(m: Machine, target: Address, input: seq<Byte>, gas: nat, w: World): Outcome {
    if gas < m.nativeGas(target, input) then Fault(OutOfGas, 0)
    else
      match m.native(target, input)
      case None => Fault(NativeFault, 0)
      case Some(ret) => Done(ret, gas - m.nativeGas(target, input), 0, w)
  }

  function ModeOf(op: Byte): CallMode {
    if op == CALL then Regular else if op == DELEGATECALL then Delegate else Static
  }

  /** The part of the condition that is about money and memory. */
  predicate Covered(f: Frame, q: Ask) {
    && (q.value > 0 ==> !f.ctx.readOnly) && Fits(q.inOff, q.inSize) && Fits(q.outOff, q.outSize)
    && f.gas >= CallCost(f, q)
  }

  /** What is handed over: the gas asked for, but never the last 64th. */
  function Share(asked: nat, left: nat): nat { if asked < left - left / 64 then asked else left - left / 64 }

  ghost predicate Planned(f: Frame, q: Ask, p: CallPlan)
    requires f.gas >= CallCost(f, q)
  {
    var left := f.gas - CallCost(f, q);
    && p.frame == f.(gas := left, mem := p.frame.mem, returnData := []) && Grown(f.mem, p.frame.mem, CallReach(f, q))
    && p.target == q.target && p.value == q.value && p.retOff == q.outOff && p.retSize == q.outSize
    && p.give == Share(q.gas, left)
    && |p.args| == q.inSize && forall i :: 0 <= i < q.inSize ==> p.args[i] == ByteAt(f.mem, q.inOff + i)
  }

  /** Two windows, one after the other. */
  lemma TouchingBoth(f: Frame, q: Ask)
    ensures var r, end := ChargeMem(f, q.inOff, q.inSize), CallReach(f, q);
            var r' := if r.Ok? then ChargeMem(r.value, q.outOff, q.outSize) else r;
            && Rent(|f.mem|) <= Rent(end)
            && (r'.Ok? <==> && Fits(q.inOff, q.inSize) && Fits(q.outOff, q.outSize)
                            && f.gas + Rent(|f.mem|) >= Rent(end))
            && (r'.Ok? ==>
                  && r'.value == f.(gas := f.gas + Rent(|f.mem|) - Rent(end), mem := r'.value.mem)
                  && Grown(f.mem, r'.value.mem, end))
  {
    hide ChargeMem, Rent;
    var mid := Reach(|f.mem|, q.inOff, q.inSize);
    RentGrows(|f.mem|, mid);
    RentGrows(mid, CallReach(f, q));
    Touching(f, q.inOff, q.inSize);
    var r := ChargeMem(f, q.inOff, q.inSize);
    if r.Ok? { Touching(r.value, q.outOff, q.outSize); }
  }

  lemma PayMeans(g: Frame, a: seq<Word>, mode: CallMode, q: Ask)
    requires |a| == CallArity(mode)
    requires mode == Regular ==> q == Ask(a[0], a[1] % TWO_160, a[2], a[3], a[4], a[5], a[6])
    requires mode != Regular ==> q == Ask(a[0], a[1] % TWO_160, 0, a[2], a[3], a[4], a[5])
    ensures CallPay(g, a, mode).Ok? <==> Covered(g, q)
    ensures Covered(g, q) ==> Planned(g, q, CallPay(g, a, mode).value)
  {
    hide ChargeMem, Rent, CallReach, Fits;
    var cost := 700 + if q.value > 0 then 9000 else 0;
    TouchingBoth(g, q);
    if g.gas >= cost {
      var h := g.(gas := g.gas - cost);
      assert CallReach(h, q) == CallReach(g, q) by { SameReach(g, h, q); }
      TouchingBoth(h, q);
    }
  }

  lemma SameReach(f: Frame, g: Frame, q: Ask)
    requires f.mem == g.mem
    ensures CallReach(f, q) == CallReach(g, q)
  {
  }

  lemma CallSetupMeans(f: Frame, op: Byte)
    requires IsCall(op)
    ensures var r := CallSetup(f, ModeOf(op));
            && (r.Ok? && |f.stack| < 1024 + CallWords(op) <==> CallPaid(f, op))
            && (r.Ok? ==> |f.stack| >= CallWords(op) && Covered(f, AskOf(f, op)) &&
                          Planned(f.(stack := Below(f, CallWords(op))), AskOf(f, op), r.value))
  {
    hide CallPay, Pop, Rent;
    Popping(f, CallWords(op));
    if |f.stack| >= CallWords(op) {
      var (a, g) := Pop(f, CallWords(op)).value;
      PayMeans(g, a, ModeOf(op), AskOf(f, op));
    }
  }

  /** Memory with the callee's output laid over the window asked for, as far as it reaches. */
  ghost predicate Answered(mem: seq<Byte>, mem': seq<Byte>, q: Ask, ret: seq<Byte>) {
    forall i: nat :: ByteAt(mem', i) == if q.outOff <= i < q.outOff + q.outSize && i - q.outOff < |ret|
                                        then ret[i - q.outOff] else ByteAt(mem, i)
  }

  lemma Answering(f: Frame, mem: seq<Byte>, q: Ask, ret: seq<Byte>)
    requires Grown(f.mem, mem, CallReach(f, q))
    ensures var n := if |ret| < q.outSize then |ret| else q.outSize;
            (ret[..n] == [] || q.outOff + n <= |mem|) &&
            Answered(f.mem, Overwrite(mem, q.outOff, ret[..n]), q, ret)
  {
    hide MemoryCost;
    var n := if |ret| < q.outSize then |ret| else q.outSize;
    var mem' := Overwrite(mem, q.outOff, ret[..n]);
    forall i: nat
      ensures ByteAt(mem', i) == if q.outOff <= i < q.outOff + q.outSize && i - q.outOff < |ret|
                                 then ret[i - q.outOff] else ByteAt(f.mem, i)
    {
      assert ByteAt(mem, i) == ByteAt(f.mem, i);
    }
  }

  /** What the callee is given to work with, and what comes of it. */
  datatype Visit = Visit(start: World, input: seq<Byte>, gas: nat, outcome: Outcome)

  /** The callee starts after the value has moved, with its code, the bytes of the window and its share of the gas. */
  ghost predicate Entered(m: Machine, f: Frame, op: Byte, w: World, left: nat, v: Visit)
    requires |f.stack| >= CallWords(op)
  {
    var q := AskOf(f, op);
    && Moved(w, v.start, f.ctx.address, q.target, q.value)
    && |v.input| == q.inSize && (forall i :: 0 <= i < q.inSize ==> v.input[i] == ByteAt(f.mem, q.inOff + i))
    && v.gas == Share(q.gas, left)
    && v.outcome == if 1 <= q.target <= 8 then NativeAnswer(m, q.target, v.input, v.gas, v.start)
                    else Execute(m, Code(w, q.target), v.input, v.gas, CalleeSees(f, op, q), f.depth + 1, v.start)
  }

  lemma StepIsCall(m: Machine, f: Frame, w: World)
    requires f.pc < |f.code| && IsCall(f.code[f.pc])
    ensures Step(m, f, w) == Lift(CallTurn(m, f, ModeOf(f.code[f.pc]), w))
  {
    hide CallTurn;
    assert f.(gas := f.gas - 0) == f;
  }

  /** CALL, DELEGATECALL and STATICCALL fault exactly when they are not paid for. */
  lemma CallFaultsIff(m: Machine, f: Frame, w: World)
    requires f.pc < |f.code| && IsCall(f.code[f.pc])
    ensures Step(m, f, w).Ok? <==> CallPaid(f, f.code[f.pc])
  {
    hide Step, CallSetup, Covered, Callee;
    CallSetupMeans(f, f.code[f.pc]);
    StepIsCall(m, f, w);
  }

  /** How the callee of a planned call comes about. */
  lemma Entering(m: Machine, f: Frame, op: Byte, w: World, p: CallPlan) returns (v: Visit)
    requires IsCall(op) && CallPaid(f, op) && CallSetup(f, ModeOf(op)) == Ok(p)
    ensures Entered(m, f, op, w, f.gas - CallCost(f, AskOf(f, op)), v)
    ensures v.outcome == Callee(m, f.ctx, f.depth, ModeOf(op), p, w) && v.gas == p.give
  {
    hide CallSetup, Execute, Transfer, Rent, Moved;
    CallSetupMeans(f, op);
    var q := AskOf(f, op);
    var w1 := if q.value > 0 then Transfer(w, f.ctx.address, q.target, q.value) else w;
    Moving(w, f.ctx.address, q.target, q.value);
    SameCode(w, w1, f.ctx.address, q.target, q.value);
    v := Visit(w1, p.args, p.give, Callee(m, f.ctx, f.depth, ModeOf(op), p, w));
    assert CalleeContext(f.ctx, ModeOf(op), q.target, q.value) == CalleeSees(f, op, q);
  }

  /** How the caller goes on from it; f is the frame with the operands popped. */
  lemma Returning(f: Frame, q: Ask, p: CallPlan, o: Outcome)
    requires |f.stack| < 1024 && f.gas >= CallCost(f, q) && Planned(f, q, p)
    requires p.give <= p.frame.gas && (p.retSize > 0 ==> p.retOff + p.retSize <= |p.frame.mem|)
    ensures var r := CallFinish(p, o);
            && r.Ok?
            && r.value == f.(gas := f.gas - CallCost(f, q) - p.give + GasLeft(o), steps := f.steps + o.steps,
                             stack := f.stack + [if o.Done? then 1 else 0],
                             mem := r.value.mem, returnData := Output(o))
            && |r.value.mem| == CallReach(f, q) && Answered(f.mem, r.value.mem, q, Output(o))
  {
    hide Overwrite, CallCost, Answered;
    Answering(f, p.frame.mem, q, Output(o));
  }

  lemma CostIsCovered(f: Frame, op: Byte)
    requires CallPaid(f, op)
    ensures f.gas >= CallCost(f, AskOf(f, op))
    ensures forall s :: CallCost(f.(stack := s), AskOf(f, op)) == CallCost(f, AskOf(f, op))
    ensures forall s :: CallReach(f.(stack := s), AskOf(f, op)) == CallReach(f, AskOf(f, op))
  {
    hide Rent;
  }

  /** A call that runs its callee. */
  lemma Visiting(m: Machine, f: Frame, op: Byte, w: World) returns (v: Visit)
    requires IsCall(op) && CallPaid(f, op) && !CallRefused(f, AskOf(f, op), w)
    ensures var q, r := AskOf(f, op), CallTurn(m, f, ModeOf(op), w);
            var left := f.gas - CallCost(f, q);
            && Entered(m, f, op, w, left, v) && r.Ok?
            && r.value.1 == (if v.outcome.Done? then v.outcome.world else w)
            && var g := r.value.0;
               && g == f.(gas := left - v.gas + GasLeft(v.outcome), steps := f.steps + v.outcome.steps,
                          stack := Below(f, CallWords(op)) + [if v.outcome.Done? then 1 else 0],
                          mem := g.mem, returnData := Output(v.outcome))
               && |g.mem| == CallReach(f, q) && Answered(f.mem, g.mem, q, Output(v.outcome))
  {
    CallSetupMeans(f, op);
    hide CallSetup, Callee, CallFinish, CallCost, CallReach, Covered, Planned, Answered, Entered;
    CostIsCovered(f, op);
    var p := CallSetup(f, ModeOf(op)).value;
    v := Entering(m, f, op, w, p);
    Returning(f.(stack := Below(f, CallWords(op))), AskOf(f, op), p, v.outcome);
  }

  lemma SameCode(w: World, w1: World, from: Address, to: Address, amount: nat)
    requires Moved(w, w1, from, to, amount)
    ensures Code(w1, to) == Code(w, to)
  {
  }

  /**
   What they do. A refused call reports 0 and changes nothing. Any other runs the callee, reports 1 and keeps its
   world if it completed, 0 and the world before if not; takes unspent gas back; and hands its output on, in
   the window asked for and as return data.
   */
  lemma CallMeans(m: Machine, f: Frame, w: World) returns (v: Visit)
    requires f.pc < |f.code| && IsCall(f.code[f.pc]) && CallPaid(f, f.code[f.pc])
    ensures var op, r := f.code[f.pc], Step(m, f, w);
            r.Ok? && r.value.0.Next? &&
            var q, g, w' := AskOf(f, op), r.value.0.frame, r.value.1;
            var left := f.gas - CallCost(f, q);
            && g == f.(pc := f.pc + 1, gas := g.gas, steps := g.steps, stack := g.stack, mem := g.mem,
                       returnData := g.returnData)
            && |g.mem| == CallReach(f, q)
            && if CallRefused(f, q, w) then
                 && g.stack == Below(f, CallWords(op)) + [0] && w' == w && g.gas == left && g.returnData == []
                 && Grown(f.mem, g.mem, CallReach(f, q))
               else
                 && Entered(m, f, op, w, left, v)
                 && g.stack == Below(f, CallWords(op)) + [if v.outcome.Done? then 1 else 0]
                 && w' == (if v.outcome.Done? then v.outcome.world else w)
                 && g.gas == left - v.gas + GasLeft(v.outcome) && g.returnData == Output(v.outcome)
                 && Answered(f.mem, g.mem, q, Output(v.outcome))
  {
    hide Step, CallSetup, Execute, Rent, Answered, Entered, Callee, Overwrite;
    var op := f.code[f.pc];
    StepIsCall(m, f, w);
    CallSetupMeans(f, op);
    if CallRefused(f, AskOf(f, op), w) {
      v := Visit(w, [], 0, Fault(OutOfGas, 0));
    } else {
      v := Visiting(m, f, op, w);
    }
  }

  /** Value sent to an account without code: it moves, account by account, and the call reports 1. */
  lemma PlainCallMovesValue(m: Machine, f: Frame, w: World)
    requires f.pc < |f.code| && f.code[f.pc] == CALL && CallPaid(f, CALL)
    requires var q := AskOf(f, CALL);
             !CallRefused(f, q, w) && !(1 <= q.target <= 8) && Code(w, q.target) == []
    ensures var r, q := Step(m, f, w), AskOf(f, CALL);
            && r.Ok? && r.value.0.frame.stack == Below(f, 7) + [1] && r.value.1.logs == w.logs
            && r.value.0.frame.gas == f.gas - CallCost(f, q) && r.value.0.frame.returnData == []
            && forall a :: Get(r.value.1, a) == Get(w, a).(
                             balance := Balance(w, a) - (if a == f.ctx.address then q.value else 0)
                                        + (if a == q.target then q.value else 0))
  {
    hide Step, MemoryCost, Execute;
    var v := CallMeans(m, f, w);
    NoCode(m, v.input, v.gas, CalleeSees(f, CALL, AskOf(f, CALL)), f.depth + 1, v.start);
  }

  lemma NoCode(m: Machine, input: seq<Byte>, gas: nat, ctx: Context, depth: nat, w: World)
    ensures Execute(m, [], input, gas, ctx, depth, w) == Done([], gas, 0, w)
  {
  }

  // ----- creations -----

  predicate IsCreate(op: Byte) { op == CREATE || op == CREATE2 }

  function CreateWords(op: Byte): nat { if op == CREATE2 then 4 else 3 }

  /** What is offered: an endowment, the init code's window, and for CREATE2 a salt. */
  datatype Offer = Offer(value: nat, off: nat, size: nat, salt: Word)

  function OfferOf(f: Frame, op: Byte): Offer
    requires |f.stack| >= CreateWords(op)
  {
    Offer(Arg(f, 0), Arg(f, 1), Arg(f, 2), if op == CREATE2 then Arg(f, 3) else 0)
  }

  /** The flat price, the memory touched, and for CREATE2 the hashing of the init code. */
  function CreateCost(f: Frame, op: Byte, q: Offer): int {
    32000 + (if op == CREATE2 then 6 * WordCount(q.size) else 0) + Rent(Reach(|f.mem|, q.off, q.size)) - Rent(|f.mem|)
  }

  predicate CreatePaid(f: Frame, op: Byte) {
    && CreateWords(op) <= |f.stack| < 1024 + CreateWords(op) && !f.ctx.readOnly
    && var q := OfferOf(f, op); Fits(q.off, q.size) && f.gas >= CreateCost(f, op, q)
  }

  predicate CreateRefused(f: Frame, q: Offer, w: World) {
    f.depth >= 1024 || (q.value > 0 && Balance(w, f.ctx.address) < q.value)
  }

  lemma CreateSetupMeans(f: Frame, op: Byte)
    requires IsCreate(op)
    ensures var r := CreateSetup(f, op == CREATE2);
            && (r.Ok? && |f.stack| < 1024 + CreateWords(op) <==> CreatePaid(f, op))
            && (r.Ok? ==>
                  && |f.stack| >= CreateWords(op)
                  && var q, p := OfferOf(f, op), r.value;
                     && f.gas >= CreateCost(f, op, q)
                     && p.frame == f.(stack := Below(f, CreateWords(op)), gas := f.gas - CreateCost(f, op, q),
                                      mem := p.frame.mem, returnData := [])
                     && Grown(f.mem, p.frame.mem, Reach(|f.mem|, q.off, q.size))
                     && p.value == q.value && p.salt == q.salt
                     && |p.init| == q.size && forall i :: 0 <= i < q.size ==> p.init[i] == ByteAt(f.mem, q.off + i))
  {
    hide ChargeMem, Pop, Rent;
    Popping(f, CreateWords(op));
    if |f.stack| >= CreateWords(op) && !f.ctx.readOnly && f.gas >= 32000 {
      var g := Pop(f, CreateWords(op)).value.1;
      Touching(g.(gas := g.gas - 32000), Arg(f, 1), Arg(f, 2));
    } else if |f.stack| >= CreateWords(op) {
      RentGrows(|f.mem|, Reach(|f.mem|, Arg(f, 1), Arg(f, 2)));
    }
  }

  lemma StepIsCreate(m: Machine, f: Frame, w: World)
    requires f.pc < |f.code| && IsCreate(f.code[f.pc])
    ensures Step(m, f, w) == Lift(CreateTurn(m, f, f.code[f.pc] == CREATE2, w))
  {
    hide CreateTurn;
    assert f.(gas := f.gas - 0) == f;
  }

  /** One account's nonce is one more. */
  ghost predicate NonceSpent(w: World, w': World, who: Address) {
    && w'.logs == w.logs && w'.burned == w.burned
    && forall a :: Get(w', a) == Get(w, a).(nonce := Nonce(w, a) + if a == who then 1 else 0)
  }

  /** One account has this code. */
  ghost predicate CodeInstalled(w: World, w': World, addr: Address, code: seq<Byte>) {
    && w'.logs == w.logs && w'.burned == w.burned
    && forall a :: Get(w', a) == Get(w, a).(code := if a == addr then code else Code(w, a))
  }

  /** What a creation starts from: the nonce spent, the endowment moved, the init code run at its new address. */
  datatype Birth = Birth(spent: World, start: World, addr: Address, init: seq<Byte>, gas: nat, outcome: Outcome)

  ghost predicate Begun(m: Machine, f: Frame, op: Byte, w: World, left: nat, b: Birth)
    requires |f.stack| >= CreateWords(op)
  {
    var q, self := OfferOf(f, op), f.ctx.address;
    && |b.init| == q.size && (forall i :: 0 <= i < q.size ==> b.init[i] == ByteAt(f.mem, q.off + i))
    && b.addr == (if op == CREATE2 then m.create2Address(self, q.salt, b.init)
                  else m.createAddress(self, Nonce(w, self)))
    && NonceSpent(w, b.spent, self) && Moved(b.spent, b.start, self, b.addr, q.value)
    && b.gas == left - left / 64
    && b.outcome == Execute(m, b.init, [], b.gas, Context(b.addr, self, q.value, f.ctx.readOnly, f.ctx.env),
                            f.depth + 1, b.start)
  }

  /** The address is taken: it has a nonce, perhaps the one just spent, or code. */
  ghost predicate Collides(b: Birth) { Nonce(b.spent, b.addr) != 0 || Code(b.spent, b.addr) != [] }

  /** The init code completed and what it returned is short enough and can be paid for, 200 a byte. */
  predicate Stands(b: Birth, left: nat)
    requires b.gas <= left
  {
    && b.outcome.Done? && |b.outcome.ret| <= 24576
    && left - b.gas + GasLeft(b.outcome) >= 200 * |b.outcome.ret|
  }

  lemma CreateFaultsIff(m: Machine, f: Frame, w: World)
    requires f.pc < |f.code| && IsCreate(f.code[f.pc])
    ensures Step(m, f, w).Ok? <==> CreatePaid(f, f.code[f.pc])
  {
    hide Step, CreateSetup, Constructor, Rent;
    CreateSetupMeans(f, f.code[f.pc]);
    StepIsCreate(m, f, w);
  }

  /** The worlds and the outcome of an attempt. */
  lemma Attempting(m: Machine, f: Frame, op: Byte, w: World, p: CreatePlan) returns (b: Birth)
    requires IsCreate(op) && CreatePaid(f, op) && CreateSetup(f, op == CREATE2) == Ok(p)
    ensures var left := f.gas - CreateCost(f, op, OfferOf(f, op));
            && Begun(m, f, op, w, left, b) && b.gas <= left
            && b.spent == SetNonce(w, f.ctx.address, Nonce(w, f.ctx.address) + 1) && b.init == p.init
            && b.outcome == Constructor(m, f.ctx, f.depth, p, b.addr, b.gas, b.spent)
  {
    hide CreateSetup, Execute, Transfer, Rent, Moved;
    CreateSetupMeans(f, op);
    var q, self := OfferOf(f, op), f.ctx.address;
    var left := f.gas - CreateCost(f, op, q);
    var addr := if op == CREATE2 then m.create2Address(self, q.salt, p.init) else m.createAddress(self, Nonce(w, self));
    var w1, give := SetNonce(w, self, Nonce(w, self) + 1), left - left / 64;
    var w2 := if q.value > 0 then Transfer(w1, self, addr, q.value) else w1;
    Moving(w1, self, addr, q.value);
    b := Birth(w1, w2, addr, p.init, give, Constructor(m, f.ctx, f.depth, p, addr, give, w1));
  }

  lemma Installing(w: World, addr: Address, code: seq<Byte>)
    ensures CodeInstalled(w, SetCode(w, addr, code), addr, code)
  {
  }

  /** How the creator goes on from an attempt at a free address. */
  lemma Concluding(g: Frame, b: Birth, left: nat)
    requires |g.stack| < 1024 && b.gas <= left && g.gas == left - b.gas && g.returnData == []
    ensures var r, o := CreateFinish(g, b.addr, b.outcome, b.spent), b.outcome;
            && r.Ok?
            && var k, w' := r.value.0, r.value.1;
               && k == g.(gas := k.gas, steps := g.steps + o.steps, stack := k.stack, returnData := k.returnData)
               && if Stands(b, left) then
                    && k.stack == g.stack + [b.addr % TWO_256] && k.returnData == []
                    && k.gas == left - b.gas + GasLeft(o) - 200 * |o.ret| && CodeInstalled(o.world, w', b.addr, o.ret)
                  else
                    && k.stack == g.stack + [0] && w' == b.spent && k.gas == left - b.gas + GasLeft(o)
                    && k.returnData == if o.Done? then [] else Output(o)
  {
    hide CodeInstalled, SetCode;
    if b.outcome.Done? { Installing(b.outcome.world, b.addr, b.outcome.ret); }
  }

  /**
   CREATE and CREATE2. A refused one reports 0 and changes nothing. Any other spends the creator's nonce for good.
   If its address is taken, its share of the gas is gone. If the init code stands, the creation reports the address and
   what the init code returned is the code there; otherwise it reports 0 and only the nonce is spent.
   */
  lemma CreateMeans(m: Machine, f: Frame, w: World) returns (b: Birth)
    requires f.pc < |f.code| && IsCreate(f.code[f.pc]) && CreatePaid(f, f.code[f.pc])
    ensures var op, r := f.code[f.pc], Step(m, f, w);
            r.Ok? && r.value.0.Next? &&
            var q, g, w' := OfferOf(f, op), r.value.0.frame, r.value.1;
            var left, below := f.gas - CreateCost(f, op, q), Below(f, CreateWords(op));
            && g == f.(pc := f.pc + 1, gas := g.gas, steps := g.steps, stack := g.stack, mem := g.mem,
                       returnData := g.returnData)
            && Grown(f.mem, g.mem, Reach(|f.mem|, q.off, q.size))
            && if CreateRefused(f, q, w) then
                 g.stack == below + [0] && w' == w && g.gas == left && g.returnData == []
               else
                 && Begun(m, f, op, w, left, b) && b.gas <= left
                 && if Collides(b) then
                      g.stack == below + [0] && w' == b.spent && g.gas == left - b.gas && g.returnData == []
                    else if Stands(b, left) then
                      && g.stack == below + [b.addr % TWO_256] && g.returnData == []
                      && g.gas == left - b.gas + GasLeft(b.outcome) - 200 * |b.outcome.ret|
                      && CodeInstalled(b.outcome.world, w', b.addr, b.outcome.ret)
                    else
                      && g.stack == below + [0] && w' == b.spent && g.gas == left - b.gas + GasLeft(b.outcome)
                      && g.returnData == if b.outcome.Done? then [] else Output(b.outcome)
  {
    hide Step, CreateSetup, Rent, Constructor, Begun, CodeInstalled, CreateFinish, SetNonce, Stands;
    var op := f.code[f.pc];
    StepIsCreate(m, f, w);
    CreateSetupMeans(f, op);
    var p := CreateSetup(f, op == CREATE2).value;
    b := Attempting(m, f, op, w, p);
    var left := p.frame.gas;
    AddressIs(m, f, op, w, b);
    Concluding(p.frame.(gas := left - b.gas), b, left);
    ZeroWord();
  }

  lemma AddressIs(m: Machine, f: Frame, op: Byte, w: World, b: Birth)
    requires |f.stack| >= CreateWords(op) && f.gas >= CreateCost(f, op, OfferOf(f, op))
    requires Begun(m, f, op, w, f.gas - CreateCost(f, op, OfferOf(f, op)), b)
    ensures var left := f.gas - CreateCost(f, op, OfferOf(f, op)); b.gas == left - left / 64
    ensures b.addr == (if op == CREATE2 then m.create2Address(f.ctx.address, OfferOf(f, op).salt, b.init)
                       else m.createAddress(f.ctx.address, Nonce(w, f.ctx.address)))
  {
    hide Execute, Rent, Moved, NonceSpent;
  }

  lemma ZeroWord()
    ensures 0 % TWO_256 == 0
  {
  }
}
