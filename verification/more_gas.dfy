/**
 Code for which more gas never hurts. What a frame does can depend on its gas only through the GAS
 instruction and through what it hands to calls and creations; a frame without those does the
 same with more gas, and has the surplus left.
 */
module MoreGas {
  import opened Types
  import opened Worlds
  import opened Jumpdest
  import opened Vm
  import VmSafety

  const GAS: Byte := 0x5a

  /** The machine looks at the gas left for no instruction but GAS. */
  ghost predicate GasBlind(m: Machine) {
    forall op, args, f: Frame, k: nat, accounts ::
      op != GAS ==> m.read(op, args, f.(gas := k), accounts) == m.read(op, args, f, accounts)
  }

  predicate Sensitive(op: Byte) { op == GAS || KindOf(op).Call? || KindOf(op).Create? }

  /** No instruction of the linear decode is gas-sensitive. */
  predicate Plain(code: seq<Byte>) {
    forall pc :: 0 <= pc < |code| && IsStart(code, pc) ==> !Sensitive(code[pc])
  }

  function More(f: Frame, k: nat): Frame { f.(gas := f.gas + k) }

  function MoreTurn(t: Turn, k: nat): Turn { t.(frame := More(t.frame, k)) }

  /** What succeeds with less gas succeeds with more, and leaves the surplus. */
  ghost predicate Follows(r: Res<Turn>, r': Res<Turn>, k: nat) { r.Ok? ==> r' == Ok(MoreTurn(r.value, k)) }

  ghost predicate FollowsFrame(r: Res<Frame>, r': Res<Frame>, k: nat) { r.Ok? ==> r' == Ok(More(r.value, k)) }

  ghost predicate FollowsPair(r: Res<(Frame, World)>, r': Res<(Frame, World)>, k: nat) {
    r.Ok? ==> r' == Ok((More(r.value.0, k), r.value.1))
  }

  lemma PopMore(f: Frame, n: nat, k: nat)
    ensures Pop(More(f, k), n) == match Pop(f, n) case Bad(e) => Bad(e) case Ok((a, g)) => Ok((a, More(g, k)))
  {
  }

  lemma UseMore(f: Frame, cost: nat, k: nat)
    ensures FollowsFrame(UseGas(f, cost), UseGas(More(f, k), cost), k)
  {
  }

  lemma ChargeMore(f: Frame, off: nat, size: nat, k: nat)
    ensures FollowsFrame(ChargeMem(f, off, size), ChargeMem(More(f, k), off, size), k)
  {
    hide ExpansionGas, Resize;
  }

  lemma PushMore(f: Frame, v: nat, k: nat)
    ensures Follows(PushTurn(f, v), PushTurn(More(f, k), v), k)
  {
  }

  lemma ReadMore(m: Machine, op: Byte, args: seq<Word>, f: Frame, k: nat, accounts: map<Address, Account>)
    requires GasBlind(m) && op != GAS
    ensures m.read(op, args, More(f, k), accounts) == m.read(op, args, f, accounts)
  {
  }

  lemma StackMore(m: Machine, op: Byte, f: Frame, accounts: map<Address, Account>, k: nat)
    requires GasBlind(m) && op != GAS
    ensures Follows(StackTurn(m, op, f, accounts), StackTurn(m, op, More(f, k), accounts), k)
  {
    hide Pop, UseGas, PushTurn, GasBlind, Window, FromBytes, ByteLen, KindOf;
    var kind := KindOf(op);
    DupCounts(op);
    if kind.Dup? {
      if 0 < kind.n <= |f.stack| { PushMore(f, f.stack[|f.stack| - kind.n], k); }
    } else if kind.Compute? {
      PopMore(f, kind.pops, k);
      var p := Pop(f, kind.pops);
      if p.Ok? {
        ReadMore(m, op, p.value.0, f, k, accounts);
        PushMore(p.value.1, m.read(op, p.value.0, f, accounts), k);
      }
    } else if kind.Exp? {
      PopMore(f, 2, k);
      PopArity(f, 2);
      var p := Pop(f, 2);
      if p.Ok? {
        var cost := 50 * ByteLen(p.value.0[1]);
        UseMore(p.value.1, cost, k);
        ReadMore(m, op, p.value.0, f, k, accounts);
        var u := UseGas(p.value.1, cost);
        if u.Ok? { PushMore(u.value, m.read(op, p.value.0, f, accounts), k); }
      }
    } else if kind.Drop? {
      PopMore(f, 1, k);
    }
  }

  lemma PopArity(f: Frame, n: nat)
    ensures Pop(f, n).Ok? ==> |Pop(f, n).value.0| == n
  {
  }

  lemma DupCounts(op: Byte)
    ensures KindOf(op).Dup? ==> KindOf(op).n > 0
  {
  }

  lemma CopyMore(f: Frame, src: CopySource, accounts: map<Address, Account>, k: nat)
    ensures Follows(CopyTurn(f, src, accounts), CopyTurn(More(f, k), src, accounts), k)
  {
    hide Pop, UseGas, ChargeMem, Window, CopyData, Overwrite, WordCount, ToAddress;
    var n := if src == OtherCode then 4 else 3;
    PopMore(f, n, k);
    PopArity(f, n);
    var p := Pop(f, n);
    if p.Ok? {
      var a, g := p.value.0, p.value.1;
      var memOff, off, len := a[n - 3], a[n - 2], a[n - 1];
      ChargeMore(g, memOff, len, k);
      var h := ChargeMem(g, memOff, len);
      if h.Ok? {
        ChargeMore(h.value, off, len, k);
        var h' := if src == Memory then ChargeMem(h.value, off, len) else h;
        if h'.Ok? { UseMore(h'.value, 3 * WordCount(len), k); }
      }
    }
  }

  lemma HaltMore(f: Frame, revert: bool, k: nat)
    ensures Follows(HaltTurn(f, revert), HaltTurn(More(f, k), revert), k)
  {
    hide Pop, ChargeMem, Window;
    PopMore(f, 2, k);
    PopArity(f, 2);
    var p := Pop(f, 2);
    if p.Ok? { ChargeMore(p.value.1, p.value.0[0], p.value.0[1], k); }
  }

  lemma HashMore(m: Machine, op: Byte, f: Frame, accounts: map<Address, Account>, k: nat)
    requires GasBlind(m) && op != GAS && KindOf(op).Hash?
    ensures Follows(MemoryTurn(m, op, f, accounts), MemoryTurn(m, op, More(f, k), accounts), k)
  {
    hide Pop, UseGas, ChargeMem, PushTurn, GasBlind, KindOf, WordCount;
    PopMore(f, 2, k);
    PopArity(f, 2);
    var p := Pop(f, 2);
    if p.Ok? {
      var a := p.value.0;
      ChargeMore(p.value.1, a[0], a[1], k);
      var h := ChargeMem(p.value.1, a[0], a[1]);
      if h.Ok? {
        UseMore(h.value, WORD_HASH_GAS * WordCount(a[1]), k);
        var u := UseGas(h.value, WORD_HASH_GAS * WordCount(a[1]));
        if u.Ok? {
          ReadMore(m, op, a, u.value, k, accounts);
          PushMore(u.value, m.read(op, a, u.value, accounts), k);
        }
      }
    }
  }

  lemma MemoryMore(m: Machine, op: Byte, f: Frame, accounts: map<Address, Account>, k: nat)
    requires GasBlind(m) && op != GAS
    ensures Follows(MemoryTurn(m, op, f, accounts), MemoryTurn(m, op, More(f, k), accounts), k)
  {
    hide Pop, UseGas, ChargeMem, PushTurn, GasBlind, KindOf, Window, FromBytes, BigEndian, Overwrite, CopyTurn;
    var kind := KindOf(op);
    if kind.Hash? {
      HashMore(m, op, f, accounts, k);
    } else if kind.Copy? {
      CopyMore(f, kind.src, accounts, k);
    } else if kind.Load? || kind.Store? || kind.Store8? {
      var n, size := if kind.Load? then 1 else 2, if kind.Store8? then 1 else 32;
      PopMore(f, n, k);
      PopArity(f, n);
      var p := Pop(f, n);
      if p.Ok? {
        ChargeMore(p.value.1, p.value.0[0], size, k);
        var h := ChargeMem(p.value.1, p.value.0[0], size);
        if h.Ok? && kind.Load? { PushMore(h.value, FromBytes(Window(h.value.mem, p.value.0[0], 32)), k); }
      }
    }
  }

  lemma FlowMore(op: Byte, f: Frame, k: nat)
    ensures Follows(FlowTurn(op, f), FlowTurn(op, More(f, k)), k)
  {
    hide Pop, HaltTurn, KindOf, ValidDest;
    PopMore(f, 1, k);
    PopMore(f, 2, k);
    PopArity(f, 1);
    PopArity(f, 2);
    HaltMore(f, false, k);
    HaltMore(f, true, k);
  }

  lemma SstoreMore(f: Frame, w: World, k: nat)
    ensures FollowsPair(SstoreTurn(f, w), SstoreTurn(More(f, k), w), k)
  {
    hide Pop, UseGas, SstoreGas, SetSlot, Slot;
    PopMore(f, 2, k);
    PopArity(f, 2);
    var p := Pop(f, 2);
    if p.Ok? { UseMore(p.value.1, SstoreGas(Slot(w, f.ctx.address, p.value.0[0]), p.value.0[1]), k); }
  }

  lemma EventMore(f: Frame, n: nat, w: World, k: nat)
    ensures FollowsPair(EventTurn(f, n, w), EventTurn(More(f, k), n, w), k)
  {
    hide Pop, UseGas, ChargeMem, Window, AddLog;
    PopMore(f, n + 2, k);
    PopArity(f, n + 2);
    var p := Pop(f, n + 2);
    if p.Ok? {
      var a := p.value.0;
      ChargeMore(p.value.1, a[0], a[1], k);
      var h := ChargeMem(p.value.1, a[0], a[1]);
      if h.Ok? {
        UseMore(h.value, LOG_GAS + n * LOG_GAS, k);
        var u := UseGas(h.value, LOG_GAS + n * LOG_GAS);
        if u.Ok? { UseMore(u.value, LOG_DATA_GAS * a[1], k); }
      }
    }
  }

  lemma LocalMore(m: Machine, op: Byte, f: Frame, accounts: map<Address, Account>, k: nat)
    requires GasBlind(m) && op != GAS
    ensures Follows(LocalTurn(m, op, f, accounts), LocalTurn(m, op, More(f, k), accounts), k)
  {
    hide GasBlind, KindOf, StackTurn, MemoryTurn, FlowTurn;
    StackMore(m, op, f, accounts, k);
    MemoryMore(m, op, f, accounts, k);
    FlowMore(op, f, k);
  }

  /** One instruction that is not gas-sensitive. */
  lemma StepMore(m: Machine, f: Frame, w: World, k: nat)
    requires GasBlind(m) && f.pc < |f.code| && !Sensitive(f.code[f.pc])
    ensures var r := Step(m, f, w); r.Ok? ==> Step(m, More(f, k), w) == Ok((MoreTurn(r.value.0, k), r.value.1))
  {
    hide GasBlind, KindOf, GasCost, UseGas, LocalTurn, SstoreTurn, EventTurn, CallTurn, CreateTurn;
    var op := f.code[f.pc];
    UseMore(f, GasCost(op), k);
    var g := UseGas(f, GasCost(op));
    if g.Ok? {
      LocalMore(m, op, g.value, w.accounts, k);
      SstoreMore(g.value, w, k);
      if KindOf(op).Event? { EventMore(g.value, KindOf(op).n, w, k); }
    }
  }

  /** The outcome of plain code, with the surplus left over. */
  lemma {:induction false} RunMore(m: Machine, f: Frame, w: World, k: nat)
    requires GasBlind(m) && Plain(f.code) && IsStart(f.code, f.pc)
    ensures var o, o' := Run(m, f, w), Run(m, More(f, k), w); !o.Fault? ==> o' == o.(gas := o.gas + k)
    decreases f.gas
  {
    hide GasBlind, Step, IsStart, Sensitive;
    if f.pc < |f.code| {
      StepMore(m, f, w, k);
      VmSafety.StepKeepsStart(m, f, w);
      var r := Step(m, f, w);
      if r.Ok? && r.value.0.Next? {
        var g := r.value.0.frame;
        RunMore(m, g.(steps := g.steps + 1), r.value.1, k);
      }
    }
  }

  /** Plain code that completes with some gas completes with any more, whatever it starts from. */
  lemma ExecuteMore(m: Machine, code: seq<Byte>, input: seq<Byte>, gas: nat, ctx: Context, depth: nat, w: World, k: nat)
    requires GasBlind(m) && Plain(code)
    ensures var o, o' := Execute(m, code, input, gas, ctx, depth, w), Execute(m, code, input, gas + k, ctx, depth, w);
            !o.Fault? ==> o' == o.(gas := o.gas + k)
  {
    hide GasBlind, Plain, Run;
    RunMore(m, NewFrame(code, input, gas, ctx, depth), w, k);
  }
}
