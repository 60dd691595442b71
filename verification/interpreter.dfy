/**
 The interpreter object (vm/interpreter.go, vm/exec.go, vm/call.go): one Interp per call frame,
 all frames of a transaction sharing one journalled State. Execute is proved to compute
 Vm.Execute, where a failed frame hands back no world: here its writes are really made and then
 really undone through the journal. Every slice is in bounds and every loop ends.
 */
module Interpreter {
  import opened Types
  import opened Worlds
  import opened Journal
  import opened Jumpdest
  import opened Vm
  import VmSafety

  datatype Status = Success | Revert' | Failed(err: Err)

  /** `steps` is instrumentation: the node does not count instructions. */
  datatype Result = Result(ret: seq<Byte>, gasLeft: nat, status: Status, steps: nat)

  /** res is what a caller sees of the outcome o; on success the state holds o's world. */
  ghost predicate Shows(res: Result, o: Outcome, w: World) {
    match o
    case Done(ret, gas, steps, w') => res == Result(ret, gas, Success, steps) && w == w'
    case Reverted(ret, gas, steps) => res == Result(ret, gas, Revert', steps)
    case Fault(e, steps) => res == Result([], 0, Failed(e), steps)
  }

  ghost predicate Changes(r: Res<(Frame, World)>, sig: Signal, v: Frame, w: World) {
    match r
    case Ok(p) => sig == Go && v == p.0 && w == p.1
    case Bad(e) => sig == Fail(e)
  }

  /** What one instruction tells the loop. */
  datatype Signal = Go | Halt | HaltRevert | Fail(err: Err)

  ghost predicate Meets(r: Res<Frame>, sig: Signal, v: Frame) {
    match r
    case Ok(f) => sig == Go && v == f
    case Bad(e) => sig == Fail(e)
  }

  /** The loop adds one to pc after an instruction unless it jumped. */
  ghost predicate Follows(r: Res<Turn>, sig: Signal, ret: seq<Byte>, v: Frame, jumped: bool) {
    match r
    case Bad(e) => sig == Fail(e)
    case Ok(Next(f)) => sig == Go && (if jumped then v else v.(pc := v.pc + 1)) == f
    case Ok(Returns(data, f)) => sig == Halt && ret == data && v.gas == f.gas && v.steps == f.steps
    case Ok(Reverts(data, f)) => sig == HaltRevert && ret == data && v.gas == f.gas && v.steps == f.steps
  }

  class Interp {
    const m: Machine
    const state: State
    const code: seq<Byte>
    const input: seq<Byte>
    const ctx: Context
    const depth: nat
    const jumps: array<bool>
    var stack: seq<Word>
    var mem: seq<Byte>
    var pc: nat
    var gas: nat
    var jumped: bool
    var returnData: seq<Byte>
    var steps: nat

    ghost function View(): Frame
      reads this
    {
      Frame(code, input, stack, mem, pc, gas, returnData, ctx, depth, steps)
    }

    ghost predicate Ready()
      reads this, jumps
    {
      jumps.Length == |code| && forall d :: 0 <= d < |code| ==> (jumps[d] <==> ValidDest(code, d))
    }

    constructor (m: Machine, state: State, code: seq<Byte>, input: seq<Byte>, gas: nat, ctx: Context, depth: nat)
      ensures View() == NewFrame(code, input, gas, ctx, depth) && Ready() && fresh(jumps) && !jumped
      ensures this.m == m && this.state == state
    {
      var js := AnalyseJumpdests(code);
      this.m, this.state, this.code, this.input := m, state, code, input;
      this.ctx, this.depth, this.jumps := ctx, depth, js;
      stack, mem, pc, this.gas, jumped, returnData, steps := [], [], 0, gas, false, [], 0;
    }

    // ----- stack, gas and memory -----

    method UseGas(cost: nat) returns (sig: Signal)
      modifies this`gas
      ensures Meets(Vm.UseGas(old(View()), cost), sig, View())
      ensures sig == Fail(OutOfGas) <==> old(gas) < cost
      ensures sig != Go ==> gas == 0
    {
      if gas < cost {
        gas := 0;
        return Fail(OutOfGas);
      }
      gas := gas - cost;
      return Go;
    }

    method Push(v: nat) returns (sig: Signal)
      modifies this`stack
      ensures Meets(PushWord(old(View()), v), sig, View())
    {
      if |stack| >= MAX_STACK {
        return Fail(StackOverflow);
      }
      stack := stack + [v % TWO_256];
      return Go;
    }

    /** Pops n words, top first. */
    method PopN(n: nat) returns (sig: Signal, args: seq<Word>)
      modifies this`stack
      ensures match Vm.Pop(old(View()), n) {
        case Ok(r) => sig == Go && args == r.0 && View() == r.1
        case Bad(e) => sig == Fail(e)
      }
      ensures sig == Go ==> |args| == n
    {
      args := [];
      while |args| < n
        invariant |args| <= n && |args| <= |old(stack)| && stack == old(stack)[..|old(stack)| - |args|]
        invariant forall i :: 0 <= i < |args| ==> args[i] == old(stack)[|old(stack)| - 1 - i]
      {
        if |stack| == 0 {
          return Fail(StackUnderflow), args;
        }
        args := args + [stack[|stack| - 1]];
        stack := stack[..|stack| - 1];
      }
      sig := Go;
    }

    method ChargeMem(off: nat, size: nat) returns (sig: Signal)
      modifies this`gas, this`mem
      ensures Meets(Vm.ChargeMem(old(View()), off, size), sig, View())
    {
      if size == 0 {
        return Go;
      }
      if off >= TWO_64 || size >= TWO_64 {
        return Fail(OutOfGas);
      }
      var end := off + size;
      if end > MAX_MEM_BYTES {
        return Fail(OutOfGas);
      }
      sig := UseGas(ExpansionGas(mem, end));
      if sig == Go {
        mem := Resize(mem, end);
      }
    }

    method SetMem(off: nat, val: seq<Byte>)
      requires val == [] || off + |val| <= |mem|
      modifies this`mem
      ensures mem == Overwrite(old(mem), off, val)
    {
      if |val| > 0 {
        mem := mem[..off] + val + mem[off + |val|..];
      }
    }

    method JumpTo(d: nat) returns (sig: Signal)
      requires Ready() && !jumped
      modifies this`pc, this`jumped
      ensures Follows(Vm.JumpTo(old(View()), d), sig, [], View(), jumped)
    {
      if d >= TWO_64 || d >= jumps.Length || !jumps[d] {
        return Fail(InvalidJump);
      }
      pc := d;
      jumped := true;
      return Go;
    }

    // ----- instructions that leave the world alone -----

    method OpStack(op: Byte) returns (sig: Signal)
      requires KindOf(op).Compute? || KindOf(op).Exp? || KindOf(op).Drop?
      requires !jumped
      modifies this`stack, this`gas
      ensures Follows(StackTurn(m, op, old(View()), old(state.accounts)), sig, [], View(), jumped)
    {
      hide KindOf, Vm.Pop, Vm.UseGas, PushWord, ByteLen;
      var kind := KindOf(op);
      var before := Frame(code, input, stack, mem, pc, gas, returnData, ctx, depth, steps);
      var a;
      match kind {
        case Compute(n) =>
          sig, a := PopN(n);
          if sig == Go { sig := Push(m.read(op, a, before, state.accounts)); }
        case Exp =>
          sig, a := PopN(2);
          if sig == Go { sig := UseGas(50 * ByteLen(a[1])); }
          if sig == Go { sig := Push(m.read(op, a, before, state.accounts)); }
        case Drop =>
          sig, a := PopN(1);
      }
    }

    method OpDup(n: nat) returns (sig: Signal)
      requires n > 0
      modifies this`stack
      ensures var n' := |old(stack)| - n;
              Meets(if n' < 0 then Bad(StackUnderflow) else PushWord(old(View()), old(stack)[n']), sig, View())
    {
      if |stack| < n {
        return Fail(StackUnderflow);
      }
      sig := Push(stack[|stack| - n]);
    }

    method OpSwap(n: nat) returns (sig: Signal)
      modifies this`stack
      ensures |old(stack)| <= n ==> sig == Fail(StackUnderflow) && stack == old(stack)
      ensures |old(stack)| > n ==>
                var top := |old(stack)| - 1;
                && sig == Go && |stack| == |old(stack)|
                && stack[top] == old(stack)[top - n] && stack[top - n] == old(stack)[top]
                && forall i :: 0 <= i < top && i != top - n ==> stack[i] == old(stack)[i]
    {
      if n >= |stack| {
        return Fail(StackUnderflow);
      }
      var top := |stack| - 1;
      stack := stack[top := stack[top - n]][top - n := stack[top]];
      return Go;
    }

    method OpMemory(op: Byte) returns (sig: Signal)
      requires KindOf(op).Hash? || KindOf(op).Load? || KindOf(op).Store? || KindOf(op).Store8?
      requires !jumped
      modifies this`stack, this`gas, this`mem
      ensures Follows(MemoryTurn(m, op, old(View()), old(state.accounts)), sig, [], View(), jumped)
    {
      hide KindOf, Vm.ChargeMem, Window, FromBytes, BigEndian, Vm.Pop, Vm.UseGas, PushWord, WordCount, Overwrite;
      var a;
      match KindOf(op) {
        case Hash =>
          sig, a := PopN(2);
          if sig == Go { sig := ChargeMem(a[0], a[1]); }
          if sig == Go { sig := UseGas(WORD_HASH_GAS * WordCount(a[1])); }
          if sig == Go {
            sig := Push(m.read(op, a, Frame(code, input, stack, mem, pc, gas, returnData, ctx, depth, steps),
                               state.accounts));
          }
        case Load =>
          sig, a := PopN(1);
          if sig == Go { sig := ChargeMem(a[0], 32); }
          if sig == Go { sig := Push(FromBytes(Window(mem, a[0], 32))); }
        case Store =>
          sig, a := PopN(2);
          if sig == Go { sig := ChargeMem(a[0], 32); }
          if sig == Go { SetMem(a[0], BigEndian(a[1], 32)); }
        case Store8 =>
          sig, a := PopN(2);
          if sig == Go { sig := ChargeMem(a[0], 1); }
          if sig == Go { SetMem(a[0], [a[1] % 256]); }
      }
    }

    method OpCopy(src: CopySource) returns (sig: Signal)
      requires !jumped
      modifies this`stack, this`gas, this`mem
      ensures Follows(CopyTurn(old(View()), src, old(state.accounts)), sig, [], View(), jumped)
    {
      hide Vm.ChargeMem, Vm.Pop, Vm.UseGas, Window, WordCount, ToAddress, CopyData, Overwrite;
      var n := if src == OtherCode then 4 else 3;
      var a;
      sig, a := PopN(n);
      if sig != Go { return; }
      var memOff, off, len := a[n - 3], a[n - 2], a[n - 1];
      if src == ReturnData && off + len > |returnData| {
        return Fail(ReturnDataOutOfBounds);
      }
      sig := ChargeMem(memOff, len);
      if sig != Go { return; }
      if src == Memory {
        sig := ChargeMem(off, len);
        if sig != Go { return; }
      }
      sig := UseGas(3 * WordCount(len));
      if sig != Go { return; }
      var data := CopyData(src, input, code, returnData, mem, state.accounts, ToAddress(a[0]));
      SetMem(memOff, Window(data, off, len));
    }

    method OpFlow(op: Byte) returns (sig: Signal, ret: seq<Byte>)
      requires Ready() && !jumped
      requires !KindOf(op).Stop?
      modifies this`stack, this`gas, this`mem, this`pc, this`jumped
      ensures Follows(FlowTurn(op, old(View())), sig, ret, View(), jumped)
    {
      hide KindOf;
      ret := [];
      var a;
      match KindOf(op) {
        case Jump =>
          sig, a := PopN(1);
          if sig == Go { sig := JumpTo(a[0]); }
        case JumpIf =>
          sig, a := PopN(2);
          if sig == Go && a[1] != 0 { sig := JumpTo(a[0]); }
        case Marker => sig := Go;
        case Return =>
          sig, ret := ReadMem();
          if sig == Go { sig := Halt; }
        case Revert =>
          sig, ret := ReadMem();
          if sig == Go { sig := HaltRevert; }
        case _ => sig := Fail(InvalidOpcode);
      }
    }

    method ReadMem() returns (sig: Signal, ret: seq<Byte>)
      modifies this`stack, this`gas, this`mem
      ensures match HaltTurn(old(View()), false) {
        case Ok(t) => sig == Go && ret == t.ret && View() == t.frame
        case Bad(e) => sig == Fail(e)
      }
    {
      hide Vm.ChargeMem, Window;
      ret := [];
      var a;
      sig, a := PopN(2);
      if sig == Go { sig := ChargeMem(a[0], a[1]); }
      if sig == Go { ret := Window(mem, a[0], a[1]); }
    }

    // ----- instructions that change the world -----

    method OpSstore() returns (sig: Signal)
      requires Valid(state.View())
      modifies this`stack, this`gas, state
      ensures Changes(SstoreTurn(old(View()), old(state.World())), sig, View(), state.World())
      ensures Valid(state.View()) && Ahead(old(state.View()), state.View())
      ensures ctx.readOnly ==> state.World() == old(state.World())
    {
      AheadReflexive(state.View());
      if ctx.readOnly {
        return Fail(StaticStateChange);
      }
      var a;
      sig, a := PopN(2);
      if sig != Go { return; }
      sig := UseGas(SstoreGas(Slot(state.World(), ctx.address, a[0]), a[1]));
      if sig != Go { return; }
      state.SetStorage(ctx.address, a[0], a[1]);
    }

    method OpLog(n: nat) returns (sig: Signal)
      requires Valid(state.View())
      modifies this`stack, this`gas, this`mem, state
      ensures Changes(EventTurn(old(View()), n, old(state.World())), sig, View(), state.World())
      ensures Valid(state.View()) && Ahead(old(state.View()), state.View())
      ensures ctx.readOnly ==> state.World() == old(state.World())
    {
      hide Vm.ChargeMem, Window;
      AheadReflexive(state.View());
      if ctx.readOnly {
        return Fail(StaticStateChange);
      }
      var a;
      sig, a := PopN(n + 2);
      if sig != Go { return; }
      sig := ChargeMem(a[0], a[1]);
      if sig != Go { return; }
      sig := UseGas(LOG_GAS + n * LOG_GAS);
      if sig != Go { return; }
      sig := UseGas(LOG_DATA_GAS * a[1]);
      if sig != Go { return; }
      state.AddLog(Log(ctx.address, a[2..], Window(mem, a[0], a[1])));
    }

    /** Pops and pays for a call; the plan is what the rest of OpCall works from. */
    method CallOperands(mode: CallMode) returns (sig: Signal, p: CallPlan)
      modifies this`stack, this`gas, this`mem, this`returnData
      ensures match CallSetup(old(View()), mode) {
        case Ok(q) => sig == Go && p == q && View() == q.frame
        case Bad(e) => sig == Fail(e)
      }
    {
      hide CallPay;
      p := CallPlan(Frame(code, input, stack, mem, pc, gas, returnData, ctx, depth, steps), 0, 0, [], 0, 0, 0);
      var a;
      sig, a := PopN(CallArity(mode));
      if sig != Go { return; }
      sig, p := PayForCall(a, mode);
    }

    method PayForCall(a: seq<Word>, mode: CallMode) returns (sig: Signal, p: CallPlan)
      requires |a| == CallArity(mode)
      modifies this`gas, this`mem, this`returnData
      ensures match CallPay(old(View()), a, mode) {
        case Ok(q) => sig == Go && p == q && View() == q.frame
        case Bad(e) => sig == Fail(e)
      }
    {
      hide Vm.ChargeMem, Vm.UseGas, Window, ToAddress;
      p := CallPlan(Frame(code, input, stack, mem, pc, gas, returnData, ctx, depth, steps), 0, 0, [], 0, 0, 0);
      var n := CallArity(mode);
      var value := if mode == Regular then a[2] else 0;
      if value > 0 && ctx.readOnly {
        return Fail(StaticStateChange), p;
      }
      var cost := CALL_GAS;
      if value > 0 {
        cost := cost + CALL_VALUE_GAS;
      }
      sig := UseGas(cost);
      if sig != Go { return; }
      sig := ChargeMem(a[n - 4], a[n - 3]);
      if sig != Go { return; }
      sig := ChargeMem(a[n - 2], a[n - 1]);
      if sig != Go { return; }
      var give := gas - gas / 64;
      if a[0] < give {
        give := a[0];
      }
      returnData := [];
      p := CallPlan(Frame(code, input, stack, mem, pc, gas, returnData, ctx, depth, steps),
                    ToAddress(a[1]), value, Window(mem, a[n - 4], a[n - 3]), give, a[n - 2], a[n - 1]);
    }

    method OpCall(mode: CallMode) returns (sig: Signal)
      requires Valid(state.View())
      modifies this, state
      ensures Changes(CallTurn(m, old(View()), mode, old(state.World())), sig, View(), state.World())
      ensures Valid(state.View()) && Ahead(old(state.View()), state.View()) && jumped == old(jumped)
      ensures ctx.readOnly || mode == Static ==> state.World() == old(state.World())
      decreases gas, 0
    {
      hide Ahead, Valid, CallSetup, Callee, CallFinish;
      AheadReflexive(state.View());
      var p;
      sig, p := CallOperands(mode);
      if sig != Go { return; }
      if depth >= MAX_CALL_DEPTH || (p.value > 0 && Balance(state.World(), ctx.address) < p.value) {
        sig := Push(0);
        return;
      }
      gas := gas - p.give;
      ghost var o := Callee(m, ctx, depth, mode, p, state.World());
      var res := RunCallee(m, state, ctx, depth, mode, p);
      sig := FinishCall(p, res, o);
    }

    /** Takes unspent gas back and hands the callee's output to the frame. */
    method FinishCall(p: CallPlan, res: Result, ghost o: Outcome) returns (sig: Signal)
      requires p.give <= p.frame.gas && (p.retSize > 0 ==> p.retOff + p.retSize <= |p.frame.mem|)
      requires View() == p.frame.(gas := p.frame.gas - p.give) && Shows(res, o, state.World())
      modifies this`gas, this`steps, this`returnData, this`mem, this`stack
      ensures Meets(CallFinish(p, o), sig, View())
    {
      gas := gas + res.gasLeft;
      steps := steps + res.steps;
      returnData := res.ret;
      var n := if |res.ret| < p.retSize then |res.ret| else p.retSize;
      SetMem(p.retOff, res.ret[..n]);
      sig := Push(if res.status == Success then 1 else 0);
    }

    method CreateOperands(salted: bool) returns (sig: Signal, p: CreatePlan)
      modifies this`stack, this`gas, this`mem, this`returnData
      ensures match CreateSetup(old(View()), salted) {
        case Ok(q) => sig == Go && p == q && View() == q.frame
        case Bad(e) => sig == Fail(e)
      }
    {
      hide Vm.ChargeMem, Window;
      p := CreatePlan(Frame(code, input, stack, mem, pc, gas, returnData, ctx, depth, steps), 0, [], 0);
      if ctx.readOnly {
        return Fail(StaticStateChange), p;
      }
      var a;
      sig, a := PopN(if salted then 4 else 3);
      if sig != Go { return; }
      sig := UseGas(CREATE_GAS);
      if sig != Go { return; }
      sig := ChargeMem(a[1], a[2]);
      if sig != Go { return; }
      if salted {
        sig := UseGas(WORD_HASH_GAS * WordCount(a[2]));
        if sig != Go { return; }
      }
      returnData := [];
      p := CreatePlan(Frame(code, input, stack, mem, pc, gas, returnData, ctx, depth, steps),
                      a[0], Window(mem, a[1], a[2]), if salted then a[3] else 0);
    }

    method OpCreate(salted: bool) returns (sig: Signal)
      requires Valid(state.View())
      modifies this, state
      ensures Changes(CreateTurn(m, old(View()), salted, old(state.World())), sig, View(), state.World())
      ensures Valid(state.View()) && Ahead(old(state.View()), state.View()) && jumped == old(jumped)
      ensures ctx.readOnly ==> state.World() == old(state.World())
      decreases gas, 0
    {
      hide Ahead, Valid, CreateSetup, Vm.CreateAttempt;
      AheadReflexive(state.View());
      var p;
      sig, p := CreateOperands(salted);
      if sig != Go { return; }
      if depth >= MAX_CALL_DEPTH || (p.value > 0 && Balance(state.World(), ctx.address) < p.value) {
        sig := Push(0);
        return;
      }
      sig := AttemptCreate(salted, p);
    }

    method AttemptCreate(salted: bool, p: CreatePlan) returns (sig: Signal)
      requires Valid(state.View()) && View() == p.frame && returnData == []
      modifies this, state
      ensures Changes(CreateAttempt(m, ctx, depth, salted, p, old(state.World())), sig, View(), state.World())
      ensures Valid(state.View()) && Ahead(old(state.View()), state.View()) && jumped == old(jumped)
      decreases gas, 6
    {
      hide Ahead, Valid, Snap, Constructor, CreateFinish, Shows, Worlds.SetNonce;
      ghost var s0 := state.View();
      var creator := ctx.address;
      var nonce := Nonce(state.World(), creator);
      var addr := if salted then m.create2Address(creator, p.salt, p.init) else m.createAddress(creator, nonce);
      state.SetNonce(creator, nonce + 1);
      var give := gas - gas / 64;
      gas := gas - give;
      if Nonce(state.World(), addr) != 0 || |Code(state.World(), addr)| > 0 {
        sig := Push(0);
        return;
      }
      ghost var s1, o := state.View(), Constructor(m, ctx, depth, p, addr, give, state.World());
      var snap, res := RunConstructor(m, state, ctx, depth, p, addr, give);
      sig := FinishCreate(addr, snap, res, o, s1);
      AheadTransitive(s0, s1, state.View());
    }

    /** Installs the code, or goes back to the savepoint. */
    method FinishCreate(addr: Address, snap: nat, res: Result, ghost o: Outcome, ghost s1: Journaled)
      returns (sig: Signal)
      requires Valid(s1) && Valid(state.View()) && Ahead(Snap(s1), state.View()) && Ahead(s1, state.View())
      requires snap == |s1.snapshots|
      requires Shows(res, o, state.World()) && returnData == []
      modifies this`gas, this`steps, this`returnData, this`stack, state
      ensures Changes(CreateFinish(old(View()), addr, o, s1.world), sig, View(), state.World())
      ensures Valid(state.View()) && Ahead(s1, state.View())
    {
      hide Ahead, Valid, RevertTo, Snap;
      AheadReflexive(s1);
      RevertRestores(s1, state.View());
      ghost var s2 := state.View();
      gas := gas + res.gasLeft;
      steps := steps + res.steps;
      var codeGas := CREATE_DATA_GAS * |res.ret|;
      if res.status != Success || |res.ret| > MAX_CODE_SIZE || gas < codeGas {
        state.RevertToSnapshot(snap);
        if res.status != Success {
          returnData := res.ret;
        }
        sig := Push(0);
        return;
      }
      gas := gas - codeGas;
      state.SetCode(addr, res.ret);
      AheadTransitive(s1, s2, state.View());
      returnData := [];
      sig := Push(addr);
    }

    // ----- the loop -----

    /** Everything but STOP, PUSH, DUP and SWAP, which the loop handles itself. */
    method Exec(op: Byte) returns (sig: Signal, ret: seq<Byte>)
      requires Valid(state.View()) && Ready() && !jumped
      requires var k := KindOf(op); !k.Stop? && !k.Push? && !k.Dup? && !k.Swap?
      modifies this, state
      ensures Executed(op, m, old(View()), old(state.World()), sig, ret, View(), jumped, state.World())
      ensures Valid(state.View()) && Ahead(old(state.View()), state.View())
      ensures ctx.readOnly ==> state.World() == old(state.World())
      decreases gas, 1
    {
      hide Ahead, Valid, StackTurn, CopyTurn, SstoreTurn, EventTurn, CallTurn, CreateTurn, KindOf;
      AheadReflexive(state.View());
      ret := [];
      var k := KindOf(op);
      if k.Compute? || k.Exp? || k.Drop? {
        sig := OpStack(op);
      } else if k.Hash? || k.Load? || k.Store? || k.Store8? {
        sig := OpMemory(op);
      } else if k.Copy? {
        sig := OpCopy(k.src);
      } else if k.Sstore? {
        sig := OpSstore();
      } else if k.Event? {
        sig := OpLog(k.n);
      } else if k.Call? {
        sig := OpCall(k.mode);
      } else if k.Create? {
        sig := OpCreate(k.salted);
      } else {
        sig, ret := OpFlow(op);
      }
    }

    /** STOP, PUSH, DUP and SWAP. */
    method LoopOp(op: Byte) returns (sig: Signal)
      requires var k := KindOf(op); k.Stop? || k.Push? || k.Dup? || k.Swap?
      modifies this`pc, this`stack
      ensures Advanced(Pair(LocalTurn(m, op, old(View()), state.accounts), state.World()), sig, [], View(),
                       state.World())
    {
      hide KindOf, LocalTurn, Window, FromBytes;
      LoopTurns(m, op, View(), state.accounts);
      var k := KindOf(op);
      if k.Stop? {
        return Halt;
      }
      if k.Push? {
        sig := Push(FromBytes(Window(code, pc + 1, k.n)));
        pc := pc + 1 + k.n;
        return;
      }
      if k.Dup? {
        sig := OpDup(k.n);
      } else {
        sig := OpSwap(k.n);
      }
      pc := pc + 1;
    }

    /** One turn of the loop. */
    method Instruction() returns (sig: Signal, ret: seq<Byte>)
      requires Valid(state.View()) && Ready() && !jumped && pc < |code|
      modifies this, state
      ensures Advanced(Step(m, old(View()), old(state.World())), sig, ret, View(), state.World())
      ensures Valid(state.View()) && Ahead(old(state.View()), state.View()) && (sig == Go ==> !jumped)
      ensures ctx.readOnly ==> state.World() == old(state.World())
      decreases gas, 2
    {
      hide Ahead, Valid, LocalTurn, SstoreTurn, EventTurn, CallTurn, CreateTurn, GasCost, KindOf, IsStart;
      AheadReflexive(state.View());
      ret := [];
      var op := code[pc];
      sig := UseGas(GasCost(op));
      if sig != Go { return; }
      var k := KindOf(op);
      if k.Stop? || k.Push? || k.Dup? || k.Swap? {
        sig := LoopOp(op);
        return;
      }
      sig, ret := Exec(op);
      if sig != Go { return; }
      if jumped {
        jumped := false;
        return;
      }
      pc := pc + 1;
    }

    method Run() returns (res: Result)
      requires Valid(state.View()) && Ready() && !jumped && IsStart(code, pc)
      modifies this, state
      ensures Shows(res, Vm.Run(m, old(View()), old(state.World())), state.World())
      ensures Valid(state.View()) && Ahead(old(state.View()), state.View())
      ensures ctx.readOnly ==> state.World() == old(state.World())
      decreases gas, 3
    {
      hide Ahead, Valid, Step;
      AheadReflexive(state.View());
      while pc < |code|
        invariant Valid(state.View()) && Ahead(old(state.View()), state.View()) && Ready() && !jumped
        invariant gas <= old(gas) && IsStart(code, pc) && (ctx.readOnly ==> state.World() == old(state.World()))
        invariant Vm.Run(m, View(), state.World()) == Vm.Run(m, old(View()), old(state.World()))
        decreases gas
      {
        ghost var f, s := View(), state.View();
        VmSafety.StepKeepsStart(m, f, s.world);
        var before := steps;
        var sig, ret := Instruction();
        AheadTransitive(old(state.View()), s, state.View());
        match sig {
          case Fail(e) => return Result([], 0, Failed(e), before);
          case Halt => return Result(ret, gas, Success, steps);
          case HaltRevert => return Result(ret, gas, Revert', steps);
          case Go =>
        }
        steps := steps + 1;
      }
      return Result([], gas, Success, steps);
    }
  }

  /** The four families that the loop handles itself. */
  lemma LoopTurns(m: Machine, op: Byte, f: Frame, accounts: map<Address, Account>)
    ensures var r := LocalTurn(m, op, f, accounts);
            match KindOf(op)
            case Stop => r == Ok(Returns([], f))
            case Push(n) =>
              var g := PushWord(f, FromBytes(Window(f.code, f.pc + 1, n)));
              r == if g.Ok? then Ok(Next(g.value.(pc := f.pc + 1 + n))) else Bad(g.err)
            case Dup(n) =>
              n > 0 && r == if |f.stack| < n then Bad(StackUnderflow) else PushTurn(f, f.stack[|f.stack| - n])
            case Swap(n) =>
              var top := |f.stack| - 1;
              r == if |f.stack| <= n then Bad(StackUnderflow)
                   else Ok(Advance(f.(stack := f.stack[top := f.stack[top - n]][top - n := f.stack[top]])))
            case _ => true
  {
  }

  /** Exec did what the function says; for a world-changing opcode pc is still to be advanced. */
  ghost predicate Executed(op: Byte, m: Machine, f: Frame, w: World, sig: Signal, ret: seq<Byte>, v: Frame,
                           jumped: bool, w': World) {
    var k := KindOf(op);
    if k.Sstore? then Changes(SstoreTurn(f, w), sig, v, w') && !jumped
    else if k.Event? then Changes(EventTurn(f, k.n, w), sig, v, w') && !jumped
    else if k.Call? then Changes(CallTurn(m, f, k.mode, w), sig, v, w') && !jumped
    else if k.Create? then Changes(CreateTurn(m, f, k.salted, w), sig, v, w') && !jumped
    else Follows(LocalTurn(m, op, f, w.accounts), sig, ret, v, jumped) && w' == w
  }

  ghost function Pair(r: Res<Turn>, w: World): Res<(Turn, World)> {
    if r.Ok? then Ok((r.value, w)) else Bad(r.err)
  }

  ghost predicate Advanced(r: Res<(Turn, World)>, sig: Signal, ret: seq<Byte>, v: Frame, w: World) {
    match r
    case Bad(e) => sig == Fail(e)
    case Ok((Next(f), w')) => sig == Go && v == f && w == w'
    case Ok((Returns(data, f), w')) => sig == Halt && ret == data && v.gas == f.gas && v.steps == f.steps && w == w'
    case Ok((Reverts(data, f), w')) => sig == HaltRevert && ret == data && v.gas == f.gas && v.steps == f.steps
  }

  /**
   Savepoint, value transfer, callee, and on failure the rollback: the state ends up in the
   callee's world, or exactly as it was, savepoints and journal included.
   */
  method RunCallee(m: Machine, state: State, c: Context, depth: nat, mode: CallMode, p: CallPlan) returns (res: Result)
    requires Valid(state.View())
    modifies state
    ensures var o := Callee(m, c, depth, mode, p, old(state.World()));
            Shows(res, o, state.World()) && (!o.Done? ==> state.View() == old(state.View()))
    ensures Valid(state.View()) && Ahead(old(state.View()), state.View())
    ensures p.value == 0 && CalleeContext(c, mode, p.target, 0).readOnly ==> state.World() == old(state.World())
    decreases p.give, 5
  {
    hide Ahead, Valid, RevertTo, Snap, Vm.Execute;
    ghost var s0 := state.View();
    AheadReflexive(s0);
    var snap := state.Snapshot();
    ghost var s1 := state.View();
    AheadReflexive(s1);
    if p.value > 0 {
      MoveValue(state, c.address, p.target, p.value);
    }
    ghost var s2 := state.View();
    if IsNative(p.target) {
      res := CallNative(m, state, p.target, p.args, p.give);
    } else {
      res := ExecuteFrame(m, state, Code(state.World(), p.target), p.args, p.give,
                          CalleeContext(c, mode, p.target, p.value), depth + 1);
    }
    AheadTransitive(s1, s2, state.View());
    if res.status != Success {
      RevertRestores(s0, state.View());
      state.RevertToSnapshot(snap);
    } else {
      AheadTransitive(s0, s1, state.View());
    }
  }

  method MoveValue(state: State, from: Address, to: Address, amount: nat)
    requires Valid(state.View())
    modifies state
    ensures state.World() == Transfer(old(state.World()), from, to, amount)
    ensures Valid(state.View()) && Ahead(old(state.View()), state.View())
  {
    state.AddBalance(from, -(amount as int));
    ghost var s := state.View();
    state.AddBalance(to, amount);
    AheadTransitive(old(state.View()), s, state.View());
  }

  method RunConstructor(m: Machine, state: State, c: Context, depth: nat, p: CreatePlan, addr: Address, give: nat)
    returns (snap: nat, res: Result)
    requires Valid(state.View())
    modifies state
    ensures snap == |old(state.snapshots)|
    ensures Shows(res, Constructor(m, c, depth, p, addr, give, old(state.World())), state.World())
    ensures Valid(state.View()) && Ahead(Snap(old(state.View())), state.View())
    ensures Ahead(old(state.View()), state.View())
    decreases give, 5
  {
    hide Ahead, Valid, Snap, Vm.Execute;
    snap := state.Snapshot();
    ghost var s1 := state.View();
    AheadReflexive(s1);
    if p.value > 0 {
      MoveValue(state, c.address, addr, p.value);
    }
    ghost var s2 := state.View();
    res := ExecuteFrame(m, state, p.init, [], give, Context(addr, c.address, p.value, c.readOnly, c.env), depth + 1);
    AheadTransitive(s1, s2, state.View());
    AheadTransitive(old(state.View()), s1, state.View());
  }

  method CallNative(m: Machine, state: State, a: Address, args: seq<Byte>, gas: nat) returns (res: Result)
    requires Valid(state.View())
    ensures Shows(res, Vm.RunNative(m, a, args, gas, state.World()), state.World())
    ensures Valid(state.View()) && Ahead(state.View(), state.View())
  {
    AheadReflexive(state.View());
    var cost := m.nativeGas(a, args);
    if gas < cost {
      return Result([], 0, Failed(OutOfGas), 0);
    }
    match m.native(a, args) {
      case None => return Result([], 0, Failed(NativeFault), 0);
      case Some(ret) => return Result(ret, gas - cost, Success, 0);
    }
  }

  method ExecuteFrame(m: Machine, state: State, code: seq<Byte>, input: seq<Byte>, gas: nat, ctx: Context, depth: nat)
    returns (res: Result)
    requires Valid(state.View())
    modifies state
    ensures Shows(res, Vm.Execute(m, code, input, gas, ctx, depth, old(state.World())), state.World())
    ensures Valid(state.View()) && Ahead(old(state.View()), state.View())
    ensures ctx.readOnly ==> state.World() == old(state.World())
    decreases gas, 4
  {
    var vm := new Interp(m, state, code, input, gas, ctx, depth);
    res := vm.Run();
  }
}
