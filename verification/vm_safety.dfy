/**
 What every execution keeps, at every depth of nesting: a read-only frame changes nothing, value
 and marks are accounted for, the outcome does not depend on the marks, and the program counter
 only ever stands on instruction starts. Each is one induction over the gas, following
 Execute -> Run -> Step -> CallTurn/CreateTurn -> Execute.
 */
module VmSafety {
  import opened Types
  import opened Worlds
  import opened Jumpdest
  import opened Vm

  // ----- read-only frames -----

  /** A frame run read-only ends in exactly the world it started in, whatever it calls. */
  lemma {:induction false} ReadOnlyExecute(m: Machine, code: seq<Byte>, input: seq<Byte>, gas: nat, ctx: Context,
                                           depth: nat, w: World)
    requires ctx.readOnly
    ensures var o := Execute(m, code, input, gas, ctx, depth, w); o.Done? ==> o.world == w
    decreases gas, 4
  {
    ReadOnlyRun(m, NewFrame(code, input, gas, ctx, depth), w);
  }

  lemma {:induction false} ReadOnlyRun(m: Machine, f: Frame, w: World)
    requires f.ctx.readOnly
    ensures var o := Run(m, f, w); o.Done? ==> o.world == w
    decreases f.gas, 3
  {
    hide Step;
    if f.pc < |f.code| {
      var r := Step(m, f, w);
      ReadOnlyStep(m, f, w);
      if r.Ok? && r.value.0.Next? {
        var n := r.value.0.frame;
        ReadOnlyRun(m, n.(steps := n.steps + 1), w);
      }
    }
  }

  lemma {:induction false} ReadOnlyStep(m: Machine, f: Frame, w: World)
    requires f.ctx.readOnly && f.pc < |f.code|
    ensures var r := Step(m, f, w); r.Ok? ==> r.value.1 == w
    decreases f.gas, 2
  {
    hide LocalTurn, CallTurn, GasCost;
    var op := f.code[f.pc];
    if KindOf(op).Call? && f.gas >= GasCost(op) {
      ReadOnlyCall(m, f.(gas := f.gas - GasCost(op)), KindOf(op).mode, w);
    }
  }

  lemma {:induction false} ReadOnlyCall(m: Machine, f: Frame, mode: CallMode, w: World)
    requires f.ctx.readOnly
    ensures var r := CallTurn(m, f, mode, w); r.Ok? ==> r.value.1 == w
    decreases f.gas, 1
  {
    hide CallSetup, CallFinish, Callee;
    var p := CallSetup(f, mode);
    if p.Ok? { ReadOnlyCallee(m, f.ctx, f.depth, mode, p.value, w); }
  }

  lemma {:induction false} ReadOnlyCallee(m: Machine, c: Context, depth: nat, mode: CallMode, p: CallPlan, w: World)
    requires c.readOnly && p.value == 0
    ensures var o := Callee(m, c, depth, mode, p, w); o.Done? ==> o.world == w
    decreases p.give, 5
  {
    hide Execute;
    ReadOnlyExecute(m, Code(w, p.target), p.args, p.give, CalleeContext(c, mode, p.target, 0), depth + 1, w);
  }

  /** A call reports 1 or 0, and one that reports 0 left the world exactly as it found it. */
  lemma FailedCallKeepsWorld(m: Machine, f: Frame, mode: CallMode, w: World)
    ensures var r := CallTurn(m, f, mode, w);
            r.Ok? ==> var g := r.value.0;
                      g.stack != [] && g.stack[|g.stack| - 1] <= 1 && (g.stack[|g.stack| - 1] == 0 ==> r.value.1 == w)
  {
    hide CallSetup, Callee, Overwrite;
  }

  // ----- value, nonces and marks -----

  /** Value is conserved, nonces never fall and every changed account is marked, through all nesting. */
  lemma {:induction false} ExecuteEvolves(m: Machine, code: seq<Byte>, input: seq<Byte>, gas: nat, ctx: Context,
                                          depth: nat, w: World)
    ensures var o := Execute(m, code, input, gas, ctx, depth, w); o.Done? ==> Evolves(w, o.world)
    decreases gas, 4
  {
    RunEvolves(m, NewFrame(code, input, gas, ctx, depth), w);
  }

  lemma {:induction false} RunEvolves(m: Machine, f: Frame, w: World)
    ensures var o := Run(m, f, w); o.Done? ==> Evolves(w, o.world)
    decreases f.gas, 3
  {
    hide Evolves, Step;
    EvolvesReflexive(w);
    if f.pc < |f.code| {
      var r := Step(m, f, w);
      if r.Ok? {
        StepEvolves(m, f, w);
        if r.value.0.Next? {
          var n := r.value.0.frame;
          n := n.(steps := n.steps + 1);
          RunEvolves(m, n, r.value.1);
          var o := Run(m, n, r.value.1);
          if o.Done? { EvolvesTransitive(w, r.value.1, o.world); }
        }
      }
    }
  }

  lemma {:induction false} StepEvolves(m: Machine, f: Frame, w: World)
    requires f.pc < |f.code|
    ensures var r := Step(m, f, w); r.Ok? ==> Evolves(w, r.value.1)
    decreases f.gas, 2
  {
    hide Evolves, LocalTurn, CallTurn, CreateTurn, GasCost, Put;
    EvolvesReflexive(w);
    var r := Step(m, f, w);
    if r.Ok? {
      var op := f.code[f.pc];
      var g := f.(gas := f.gas - GasCost(op));
      var k := KindOf(op);
      if k.Sstore? {
        var a := Pop(g, 2).value.0;
        var acc := Get(w, g.ctx.address);
        PutEvolves(w, g.ctx.address,
                   acc.(storage := if a[1] == 0 then acc.storage - {a[0]} else acc.storage[a[0] := a[1]]));
      }
      if k.Event? { EventEvolves(w, r.value.1.logs[|w.logs|]); }
      if k.Call? { CallEvolves(m, g, k.mode, w); }
      if k.Create? { CreateEvolves(m, g, k.salted, w); }
    }
  }

  lemma {:induction false} CallEvolves(m: Machine, f: Frame, mode: CallMode, w: World)
    ensures var r := CallTurn(m, f, mode, w); r.Ok? ==> Evolves(w, r.value.1)
    decreases f.gas, 1
  {
    hide Evolves, CallSetup, CallFinish, Callee;
    EvolvesReflexive(w);
    var p := CallSetup(f, mode);
    if p.Ok? && (p.value.value > 0 ==> Balance(w, f.ctx.address) >= p.value.value) {
      CalleeEvolves(m, f.ctx, f.depth, mode, p.value, w);
    }
  }

  lemma {:induction false} CalleeEvolves(m: Machine, c: Context, depth: nat, mode: CallMode, p: CallPlan, w: World)
    requires (p.value > 0 ==> Balance(w, c.address) >= p.value)
    ensures var o := Callee(m, c, depth, mode, p, w); o.Done? ==> Evolves(w, o.world)
    decreases p.give, 5
  {
    hide Evolves, Transfer, Execute;
    EvolvesReflexive(w);
    var w1 := if p.value > 0 then Transfer(w, c.address, p.target, p.value) else w;
    if p.value > 0 { TransferEvolves(w, c.address, p.target, p.value); }
    var ctx := CalleeContext(c, mode, p.target, p.value);
    ExecuteEvolves(m, Code(w1, p.target), p.args, p.give, ctx, depth + 1, w1);
    var o := Execute(m, Code(w1, p.target), p.args, p.give, ctx, depth + 1, w1);
    if o.Done? { EvolvesTransitive(w, w1, o.world); }
  }

  lemma {:induction false} CreateEvolves(m: Machine, f: Frame, salted: bool, w: World)
    ensures var r := CreateTurn(m, f, salted, w); r.Ok? ==> Evolves(w, r.value.1)
    decreases f.gas, 1
  {
    hide Evolves, CreateAttempt, CreateSetup;
    EvolvesReflexive(w);
    var p := CreateSetup(f, salted);
    if p.Ok? && (p.value.value > 0 ==> Balance(w, f.ctx.address) >= p.value.value) {
      AttemptEvolves(m, f.ctx, f.depth, salted, p.value, w);
    }
  }

  lemma {:induction false} AttemptEvolves(m: Machine, c: Context, depth: nat, salted: bool, p: CreatePlan, w: World)
    requires p.value > 0 ==> Balance(w, c.address) >= p.value
    ensures var r := CreateAttempt(m, c, depth, salted, p, w); r.Ok? ==> Evolves(w, r.value.1)
    decreases p.frame.gas, 6
  {
    hide Evolves, CreateFinish, SetNonce, Constructor;
    var nonce := Nonce(w, c.address);
    var addr := if salted then m.create2Address(c.address, p.salt, p.init) else m.createAddress(c.address, nonce);
    var w1 := SetNonce(w, c.address, nonce + 1);
    NonceEvolves(w, c.address);
    var give := p.frame.gas - p.frame.gas / 64;
    ConstructorEvolves(m, c, depth, p, addr, give, w1);
    var o := Constructor(m, c, depth, p, addr, give, w1);
    if o.Done? { EvolvesTransitive(w, w1, o.world); }
    CreateFinishEvolves(p.frame.(gas := p.frame.gas - give), addr, o, w, w1);
  }

  lemma {:induction false} ConstructorEvolves(m: Machine, c: Context, depth: nat, p: CreatePlan, addr: Address,
                                              give: nat, w1: World)
    requires (p.value > 0 ==> Balance(w1, c.address) >= p.value)
    ensures var o := Constructor(m, c, depth, p, addr, give, w1); o.Done? ==> Evolves(w1, o.world)
    decreases give, 5
  {
    hide Evolves, Transfer, Execute;
    EvolvesReflexive(w1);
    var w2 := if p.value > 0 then Transfer(w1, c.address, addr, p.value) else w1;
    if p.value > 0 { TransferEvolves(w1, c.address, addr, p.value); }
    var ctx := Context(addr, c.address, p.value, c.readOnly, c.env);
    ExecuteEvolves(m, p.init, [], give, ctx, depth + 1, w2);
    var o := Execute(m, p.init, [], give, ctx, depth + 1, w2);
    if o.Done? { EvolvesTransitive(w1, w2, o.world); }
  }

  lemma NonceEvolves(w: World, a: Address)
    ensures Evolves(w, SetNonce(w, a, Nonce(w, a) + 1)) && Balance(SetNonce(w, a, Nonce(w, a) + 1), a) == Balance(w, a)
  {
    PutEvolves(w, a, Get(w, a).(nonce := Nonce(w, a) + 1));
  }

  lemma CreateFinishEvolves(g: Frame, addr: Address, o: Outcome, w: World, w1: World)
    requires Evolves(w, w1) && (o.Done? ==> Evolves(w, o.world))
    ensures var r := CreateFinish(g, addr, o, w1); r.Ok? ==> Evolves(w, r.value.1)
  {
    hide Evolves;
    if o.Done? {
      PutEvolves(o.world, addr, Get(o.world, addr).(code := o.ret));
      EvolvesTransitive(w, o.world, SetCode(o.world, addr, o.ret));
    }
  }

  // ----- marks and past events are write-only -----

  /** Worlds that differ at most in their marks and in events from before positions k and l. */
  ghost predicate Alike(w: World, k: nat, v: World, l: nat) {
    && w.accounts == v.accounts && w.burned == v.burned
    && k <= |w.logs| && l <= |v.logs| && w.logs[k..] == v.logs[l..]
  }

  ghost predicate AlikeOutcomes(o: Outcome, k: nat, o': Outcome, l: nat) {
    if o.Done? && o'.Done?
    then o.ret == o'.ret && o.gas == o'.gas && o.steps == o'.steps && Alike(o.world, k, o'.world, l)
    else o == o'
  }

  ghost predicate AlikePairs<T(!new)>(r: Res<(T, World)>, k: nat, r': Res<(T, World)>, l: nat) {
    if r.Ok? && r'.Ok? then r.value.0 == r'.value.0 && Alike(r.value.1, k, r'.value.1, l) else r == r'
  }

  /** Worlds alike run alike: the producer, the validator and a restarted node agree. */
  lemma {:induction false} ExecuteAlike(m: Machine, code: seq<Byte>, input: seq<Byte>, gas: nat, ctx: Context,
                                        depth: nat,
                                        w: World, k: nat, v: World, l: nat)
    requires Alike(w, k, v, l)
    ensures AlikeOutcomes(Execute(m, code, input, gas, ctx, depth, w), k, Execute(m, code, input, gas, ctx, depth, v),
                          l)
    decreases gas, 4
  {
    RunAlike(m, NewFrame(code, input, gas, ctx, depth), w, k, v, l);
  }

  lemma {:induction false} RunAlike(m: Machine, f: Frame, w: World, k: nat, v: World, l: nat)
    requires Alike(w, k, v, l)
    ensures AlikeOutcomes(Run(m, f, w), k, Run(m, f, v), l)
    decreases f.gas, 3
  {
    hide Step, Alike;
    if f.pc < |f.code| {
      StepAlike(m, f, w, k, v, l);
      var r, r' := Step(m, f, w), Step(m, f, v);
      if r.Ok? && r.value.0.Next? {
        var n := r.value.0.frame;
        RunAlike(m, n.(steps := n.steps + 1), r.value.1, k, r'.value.1, l);
      }
    }
  }

  lemma {:induction false} StepAlike(m: Machine, f: Frame, w: World, k: nat, v: World, l: nat)
    requires f.pc < |f.code| && Alike(w, k, v, l)
    ensures AlikePairs(Step(m, f, w), k, Step(m, f, v), l)
    decreases f.gas, 2
  {
    hide LocalTurn, CallTurn, CreateTurn, GasCost, SstoreTurn, EventTurn, KindOf, Alike, Get;
    AlikeBooks(w, k, v, l);
    var op := f.code[f.pc];
    if f.gas >= GasCost(op) {
      var g := f.(gas := f.gas - GasCost(op));
      var kind := KindOf(op);
      if kind.Sstore? { SstoreAlike(g, w, k, v, l); }
      if kind.Event? { EventAlike(g, kind.n, w, k, v, l); }
      if kind.Call? { CallAlike(m, g, kind.mode, w, k, v, l); }
      if kind.Create? { CreateAlike(m, g, kind.salted, w, k, v, l); }
    }
  }

  lemma AlikeBooks(w: World, k: nat, v: World, l: nat)
    requires Alike(w, k, v, l)
    ensures w.accounts == v.accounts && w.burned == v.burned && forall a :: Get(w, a) == Get(v, a)
  {
  }

  lemma PutAlike(w: World, k: nat, v: World, l: nat, a: Address, acc: Account)
    requires Alike(w, k, v, l)
    ensures Alike(Put(w, a, acc), k, Put(v, a, acc), l)
  {
  }

  lemma NonceAlike(w: World, k: nat, v: World, l: nat, a: Address, n: nat)
    requires Alike(w, k, v, l)
    ensures Alike(SetNonce(w, a, n), k, SetNonce(v, a, n), l)
  {
    PutAlike(w, k, v, l, a, Get(w, a).(nonce := n));
  }

  lemma SstoreAlike(f: Frame, w: World, k: nat, v: World, l: nat)
    requires Alike(w, k, v, l)
    ensures AlikePairs(SstoreTurn(f, w), k, SstoreTurn(f, v), l)
  {
  }

  lemma EventAlike(f: Frame, n: nat, w: World, k: nat, v: World, l: nat)
    requires Alike(w, k, v, l)
    ensures AlikePairs(EventTurn(f, n, w), k, EventTurn(f, n, v), l)
  {
    hide ChargeMem;
  }

  lemma {:induction false} CallAlike(m: Machine, f: Frame, mode: CallMode, w: World, k: nat, v: World, l: nat)
    requires Alike(w, k, v, l)
    ensures AlikePairs(CallTurn(m, f, mode, w), k, CallTurn(m, f, mode, v), l)
    decreases f.gas, 1
  {
    hide CallSetup, CallFinish, Callee, AlikeOutcomes, Alike, Get;
    AlikeBooks(w, k, v, l);
    var p := CallSetup(f, mode);
    if p.Ok? {
      CalleeAlike(m, f.ctx, f.depth, mode, p.value, w, k, v, l);
      FinishAlike(p.value, Callee(m, f.ctx, f.depth, mode, p.value, w), Callee(m, f.ctx, f.depth, mode, p.value, v), w,
                  k, v, l);
    }
  }

  lemma {:induction false} CalleeAlike(m: Machine, c: Context, depth: nat, mode: CallMode, p: CallPlan, w: World,
                                       k: nat, v: World, l: nat)
    requires Alike(w, k, v, l)
    ensures AlikeOutcomes(Callee(m, c, depth, mode, p, w), k, Callee(m, c, depth, mode, p, v), l)
    decreases p.give, 5
  {
    var w1 := if p.value > 0 then Transfer(w, c.address, p.target, p.value) else w;
    var v1 := if p.value > 0 then Transfer(v, c.address, p.target, p.value) else v;
    TransferAlike(w, k, v, l, c.address, p.target, p.value);
    NativeAlike(m, p.target, p.args, p.give, w1, k, v1, l);
    ExecuteAlike(m, Code(w1, p.target), p.args, p.give, CalleeContext(c, mode, p.target, p.value), depth + 1, w1, k,
                 v1, l);
    AlikeBooks(w1, k, v1, l);
    hide Execute, Transfer, AlikeOutcomes, RunNative, Alike;
  }

  lemma FinishAlike(p: CallPlan, o: Outcome, o': Outcome, w: World, k: nat, v: World, l: nat)
    requires p.give <= p.frame.gas && (p.retSize > 0 ==> p.retOff + p.retSize <= |p.frame.mem|)
    requires AlikeOutcomes(o, k, o', l) && Alike(w, k, v, l)
    ensures CallFinish(p, o) == CallFinish(p, o') && o.Done? == o'.Done?
    ensures Alike(if o.Done? then o.world else w, k, if o'.Done? then o'.world else v, l)
  {
  }

  lemma NativeAlike(m: Machine, a: Address, args: seq<Byte>, gas: nat, w: World, k: nat, v: World, l: nat)
    requires Alike(w, k, v, l)
    ensures AlikeOutcomes(RunNative(m, a, args, gas, w), k, RunNative(m, a, args, gas, v), l)
  {
  }

  lemma TransferAlike(w: World, k: nat, v: World, l: nat, from: Address, to: Address, amount: int)
    requires Alike(w, k, v, l)
    ensures Alike(Transfer(w, from, to, amount), k, Transfer(v, from, to, amount), l)
  {
    var w1, v1 := Credit(w, from, -amount), Credit(v, from, -amount);
    assert Get(w, from) == Get(v, from);
    PutAlike(w, k, v, l, from, Get(w, from).(balance := Balance(w, from) - amount));
    assert Get(w1, to) == Get(v1, to);
    PutAlike(w1, k, v1, l, to, Get(w1, to).(balance := Balance(w1, to) + amount));
    hide Alike, Put;
  }

  lemma {:induction false} CreateAlike(m: Machine, f: Frame, salted: bool, w: World, k: nat, v: World, l: nat)
    requires Alike(w, k, v, l)
    ensures AlikePairs(CreateTurn(m, f, salted, w), k, CreateTurn(m, f, salted, v), l)
    decreases f.gas, 1
  {
    hide CreateSetup, CreateAttempt, Alike, Get;
    AlikeBooks(w, k, v, l);
    var p := CreateSetup(f, salted);
    if p.Ok? { AttemptAlike(m, f.ctx, f.depth, salted, p.value, w, k, v, l); }
  }

  lemma {:induction false} AttemptAlike(m: Machine, c: Context, depth: nat, salted: bool, p: CreatePlan, w: World,
                                        k: nat, v: World, l: nat)
    requires Alike(w, k, v, l)
    ensures AlikePairs(CreateAttempt(m, c, depth, salted, p, w), k, CreateAttempt(m, c, depth, salted, p, v), l)
    decreases p.frame.gas, 6
  {
    hide CreateFinish, Constructor, AlikeOutcomes, SetNonce, Alike, Get;
    AlikeBooks(w, k, v, l);
    var nonce := Nonce(w, c.address);
    var addr := if salted then m.create2Address(c.address, p.salt, p.init) else m.createAddress(c.address, nonce);
    var w1, v1 := SetNonce(w, c.address, nonce + 1), SetNonce(v, c.address, nonce + 1);
    NonceAlike(w, k, v, l, c.address, nonce + 1);
    AlikeBooks(w1, k, v1, l);
    var give := p.frame.gas - p.frame.gas / 64;
    ConstructorAlike(m, c, depth, p, addr, give, w1, k, v1, l);
    CreateFinishAlike(p.frame.(gas := p.frame.gas - give), addr, Constructor(m, c, depth, p, addr, give, w1),
                      Constructor(m, c, depth, p, addr, give, v1), w1, k, v1, l);
  }

  lemma {:induction false} ConstructorAlike(m: Machine, c: Context, depth: nat, p: CreatePlan, addr: Address,
                                            give: nat, w1: World, k: nat, v1: World, l: nat)
    requires Alike(w1, k, v1, l)
    ensures AlikeOutcomes(Constructor(m, c, depth, p, addr, give, w1), k, Constructor(m, c, depth, p, addr, give, v1),
                          l)
    decreases give, 5
  {
    hide Execute, Transfer, AlikeOutcomes, Alike;
    TransferAlike(w1, k, v1, l, c.address, addr, p.value);
    var w2 := if p.value > 0 then Transfer(w1, c.address, addr, p.value) else w1;
    var v2 := if p.value > 0 then Transfer(v1, c.address, addr, p.value) else v1;
    ExecuteAlike(m, p.init, [], give, Context(addr, c.address, p.value, c.readOnly, c.env), depth + 1, w2, k, v2, l);
  }

  lemma CreateFinishAlike(g: Frame, addr: Address, o: Outcome, o': Outcome, w1: World, k: nat, v1: World, l: nat)
    requires AlikeOutcomes(o, k, o', l) && Alike(w1, k, v1, l)
    ensures AlikePairs(CreateFinish(g, addr, o, w1), k, CreateFinish(g, addr, o', v1), l)
  {
    if o.Done? {
      AlikeBooks(o.world, k, o'.world, l);
      PutAlike(o.world, k, o'.world, l, addr, Get(o.world, addr).(code := o.ret));
    }
    hide Put, Alike;
  }

  // ----- the program counter -----

  /** Every instruction leads from an instruction start to an instruction start. */
  lemma StepKeepsStart(m: Machine, f: Frame, w: World)
    requires f.pc < |f.code| && IsStart(f.code, f.pc)
    ensures var r := Step(m, f, w); r.Ok? && r.value.0.Next? ==> IsStart(f.code, r.value.0.frame.pc)
  {
    hide CallTurn, CreateTurn, SstoreTurn, EventTurn, LocalTurn, GasCost, IsStart;
    NextIsStart(f.code, f.pc);
    var op := f.code[f.pc];
    if f.gas >= GasCost(op) {
      LocalPc(m, op, f.(gas := f.gas - GasCost(op)), w.accounts);
    }
  }

  lemma LocalPc(m: Machine, op: Byte, f: Frame, accounts: map<Address, Account>)
    requires f.pc < |f.code| && op == f.code[f.pc]
    ensures var r := LocalTurn(m, op, f, accounts);
            r.Ok? && r.value.Next? ==> r.value.frame.pc == NextPc(f.code, f.pc) || ValidDest(f.code, r.value.frame.pc)
  {
    hide StackTurn, MemoryTurn, FlowTurn;
    StackPc(m, op, f, accounts);
    MemoryPc(m, op, f, accounts);
    FlowPc(op, f);
  }

  ghost predicate StepsOrJumps(op: Byte, f: Frame, r: Res<Turn>) {
    r.Ok? && r.value.Next? ==> r.value.frame.pc == f.pc + 1 + PushLen(op) || ValidDest(f.code, r.value.frame.pc)
  }

  lemma StackPc(m: Machine, op: Byte, f: Frame, accounts: map<Address, Account>)
    ensures StepsOrJumps(op, f, StackTurn(m, op, f, accounts))
  {
    hide PushTurn, Window, FromBytes, ValidDest;
  }

  lemma MemoryPc(m: Machine, op: Byte, f: Frame, accounts: map<Address, Account>)
    ensures StepsOrJumps(op, f, MemoryTurn(m, op, f, accounts))
  {
    hide PushTurn, CopyTurn, ChargeMem, Window, FromBytes, ValidDest;
  }

  lemma FlowPc(op: Byte, f: Frame)
    ensures StepsOrJumps(op, f, FlowTurn(op, f))
  {
    hide ChargeMem, Window, ValidDest;
  }
}
