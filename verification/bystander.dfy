/**
 An account without code that no instruction looks at, and surroundings that no instruction looks at, make no
 difference to a frame, at any depth of nesting. This is what lets an estimate, made outside any block and before
 its sender has paid, speak for the transaction.
 */
module Bystander {
  import opened Types
  import opened Worlds
  import opened Jumpdest
  import opened Vm

  function AccountIn(accounts: map<Address, Account>, a: Address): Account {
    if a in accounts then accounts[a] else EMPTY_ACCOUNT
  }

  ghost predicate AgreeOff(x: map<Address, Account>, y: map<Address, Account>, s: Address) {
    forall a :: a != s ==> AccountIn(x, a) == AccountIn(y, a)
  }

  /** The same frame in other surroundings. */
  function Veil(f: Frame, e: BlockEnv): Frame { f.(ctx := f.ctx.(env := e)) }

  /** No instruction looks at the surroundings or at account s. */
  ghost predicate Oblivious(m: Machine, s: Address) {
    forall op, args, f, e, x, y :: AgreeOff(x, y, s) ==> m.read(op, args, f, x) == m.read(op, args, Veil(f, e), y)
  }

  /** No address derivation hits s. */
  ghost predicate Unmade(m: Machine, s: Address) {
    && (forall a, n :: m.createAddress(a, n) != s)
    && (forall a, salt, init :: m.create2Address(a, salt, init) != s)
  }

  /** Worlds that differ at most in what s has, which is no code in either, and in marks and events. */
  ghost predicate Apart(w: World, v: World, s: Address) {
    AgreeOff(w.accounts, v.accounts, s) && Code(w, s) == [] && Code(v, s) == []
  }

  ghost predicate ApartOutcomes(o: Outcome, o': Outcome, s: Address) {
    if o.Done? && o'.Done?
    then o.ret == o'.ret && o.gas == o'.gas && o.steps == o'.steps && Apart(o.world, o'.world, s)
    else o == o'
  }

  lemma ApartAt(w: World, v: World, s: Address, a: Address)
    requires Apart(w, v, s)
    ensures a != s ==> Get(w, a) == Get(v, a)
    ensures Code(w, a) == Code(v, a)
  {
    assert a != s ==> AccountIn(w.accounts, a) == AccountIn(v.accounts, a);
  }

  lemma PutApart(w: World, v: World, s: Address, a: Address, acc: Account)
    requires Apart(w, v, s) && a != s
    ensures Apart(Put(w, a, acc), Put(v, a, acc), s)
  {
    var w', v' := Put(w, a, acc), Put(v, a, acc);
    forall b | b != s ensures AccountIn(w'.accounts, b) == AccountIn(v'.accounts, b) {
      ApartAt(w, v, s, b);
      assert AccountIn(w'.accounts, b) == Get(w', b) && AccountIn(v'.accounts, b) == Get(v', b);
    }
  }

  lemma CreditApart(w: World, v: World, s: Address, a: Address, amount: int)
    requires Apart(w, v, s)
    ensures Apart(Credit(w, a, amount), Credit(v, a, amount), s)
  {
    ApartAt(w, v, s, a);
    if a != s {
      PutApart(w, v, s, a, Get(w, a).(balance := Balance(w, a) + amount));
    } else {
      var w', v' := Credit(w, a, amount), Credit(v, a, amount);
      forall b | b != s ensures AccountIn(w'.accounts, b) == AccountIn(v'.accounts, b) {
        ApartAt(w, v, s, b);
        assert AccountIn(w'.accounts, b) == Get(w', b) && AccountIn(v'.accounts, b) == Get(v', b);
      }
    }
  }

  lemma TransferApart(w: World, v: World, s: Address, from: Address, to: Address, amount: int)
    requires Apart(w, v, s)
    ensures Apart(Transfer(w, from, to, amount), Transfer(v, from, to, amount), s)
  {
    hide Apart, Credit;
    CreditApart(w, v, s, from, -amount);
    CreditApart(Credit(w, from, -amount), Credit(v, from, -amount), s, to, amount);
  }

  // ----- the same frame, veiled -----

  function VeilTurn(t: Turn, e: BlockEnv): Turn { t.(frame := Veil(t.frame, e)) }

  ghost predicate Same(r: Res<Turn>, r': Res<Turn>, e: BlockEnv) {
    if r.Ok? then r' == Ok(VeilTurn(r.value, e)) else r' == r
  }

  ghost predicate SameFrame(r: Res<Frame>, r': Res<Frame>, e: BlockEnv) {
    if r.Ok? then r' == Ok(Veil(r.value, e)) else r' == r
  }

  ghost predicate SamePair(r: Res<(Frame, World)>, r': Res<(Frame, World)>, e: BlockEnv, s: Address) {
    if r.Ok? then r'.Ok? && r'.value.0 == Veil(r.value.0, e) && Apart(r.value.1, r'.value.1, s) else r' == r
  }

  lemma PopVeil(f: Frame, n: nat, e: BlockEnv)
    ensures Pop(Veil(f, e), n) == match Pop(f, n) case Bad(x) => Bad(x) case Ok((a, g)) => Ok((a, Veil(g, e)))
    ensures Pop(f, n).Ok? ==> |Pop(f, n).value.0| == n && Pop(f, n).value.1.ctx == f.ctx
  {
  }

  lemma UseVeil(f: Frame, cost: nat, e: BlockEnv)
    ensures SameFrame(UseGas(f, cost), UseGas(Veil(f, e), cost), e)
  {
  }

  lemma ChargeVeil(f: Frame, off: nat, size: nat, e: BlockEnv)
    ensures SameFrame(ChargeMem(f, off, size), ChargeMem(Veil(f, e), off, size), e)
  {
    hide ExpansionGas, Resize;
  }

  lemma PushVeil(f: Frame, v: nat, e: BlockEnv)
    ensures Same(PushTurn(f, v), PushTurn(Veil(f, e), v), e)
    ensures SameFrame(PushWord(f, v), PushWord(Veil(f, e), v), e)
  {
  }

  lemma ReadVeil(m: Machine, op: Byte, args: seq<Word>, f: Frame, e: BlockEnv, w: World, v: World, s: Address)
    requires Oblivious(m, s) && Apart(w, v, s)
    ensures m.read(op, args, Veil(f, e), v.accounts) == m.read(op, args, f, w.accounts)
  {
  }

  lemma DupCounts(op: Byte)
    ensures KindOf(op).Dup? ==> KindOf(op).n > 0
  {
  }

  lemma StackVeil(m: Machine, op: Byte, f: Frame, e: BlockEnv, w: World, v: World, s: Address)
    requires Oblivious(m, s) && Apart(w, v, s)
    ensures Same(StackTurn(m, op, f, w.accounts), StackTurn(m, op, Veil(f, e), v.accounts), e)
  {
    hide Pop, UseGas, PushTurn, Oblivious, Apart, Window, FromBytes, ByteLen, KindOf;
    var kind := KindOf(op);
    DupCounts(op);
    if kind.Push? {
      PushVeil(f, FromBytes(Window(f.code, f.pc + 1, kind.n)), e);
    } else if kind.Dup? {
      if 0 < kind.n <= |f.stack| { PushVeil(f, f.stack[|f.stack| - kind.n], e); }
    } else if kind.Compute? {
      PopVeil(f, kind.pops, e);
      var p := Pop(f, kind.pops);
      if p.Ok? {
        ReadVeil(m, op, p.value.0, f, e, w, v, s);
        PushVeil(p.value.1, m.read(op, p.value.0, f, w.accounts), e);
      }
    } else if kind.Exp? {
      PopVeil(f, 2, e);
      var p := Pop(f, 2);
      if p.Ok? {
        var cost := 50 * ByteLen(p.value.0[1]);
        UseVeil(p.value.1, cost, e);
        ReadVeil(m, op, p.value.0, f, e, w, v, s);
        var u := UseGas(p.value.1, cost);
        if u.Ok? { PushVeil(u.value, m.read(op, p.value.0, f, w.accounts), e); }
      }
    } else if kind.Drop? {
      PopVeil(f, 1, e);
    }
  }

  lemma CopyVeil(f: Frame, src: CopySource, e: BlockEnv, w: World, v: World, s: Address)
    requires Apart(w, v, s)
    ensures Same(CopyTurn(f, src, w.accounts), CopyTurn(Veil(f, e), src, v.accounts), e)
  {
    hide Pop, UseGas, ChargeMem, Window, Overwrite, WordCount, ToAddress, Apart, CopyData;
    var n := if src == OtherCode then 4 else 3;
    PopVeil(f, n, e);
    var p := Pop(f, n);
    if p.Ok? {
      var a, g := p.value.0, p.value.1;
      var memOff, off, len := a[n - 3], a[n - 2], a[n - 1];
      ChargeVeil(g, memOff, len, e);
      var h := ChargeMem(g, memOff, len);
      if h.Ok? {
        ChargeVeil(h.value, off, len, e);
        var h' := if src == Memory then ChargeMem(h.value, off, len) else h;
        if h'.Ok? {
          UseVeil(h'.value, 3 * WordCount(len), e);
          var u := UseGas(h'.value, 3 * WordCount(len));
          if u.Ok? { DataVeil(src, u.value, w, v, s, ToAddress(a[0])); }
        }
      }
    }
  }

  lemma DataVeil(src: CopySource, f: Frame, w: World, v: World, s: Address, other: Address)
    requires Apart(w, v, s)
    ensures CopyData(src, f.input, f.code, f.returnData, f.mem, w.accounts, other) ==
            CopyData(src, f.input, f.code, f.returnData, f.mem, v.accounts, other)
  {
    hide Apart;
    ApartAt(w, v, s, other);
  }

  lemma HaltVeil(f: Frame, revert: bool, e: BlockEnv)
    ensures Same(HaltTurn(f, revert), HaltTurn(Veil(f, e), revert), e)
  {
    hide Pop, ChargeMem, Window;
    PopVeil(f, 2, e);
    var p := Pop(f, 2);
    if p.Ok? { ChargeVeil(p.value.1, p.value.0[0], p.value.0[1], e); }
  }

  lemma HashVeil(m: Machine, op: Byte, f: Frame, e: BlockEnv, w: World, v: World, s: Address)
    requires Oblivious(m, s) && Apart(w, v, s) && KindOf(op).Hash?
    ensures Same(MemoryTurn(m, op, f, w.accounts), MemoryTurn(m, op, Veil(f, e), v.accounts), e)
  {
    hide Pop, UseGas, ChargeMem, PushTurn, Oblivious, Apart, KindOf, WordCount;
    PopVeil(f, 2, e);
    var p := Pop(f, 2);
    if p.Ok? {
      var a := p.value.0;
      ChargeVeil(p.value.1, a[0], a[1], e);
      var h := ChargeMem(p.value.1, a[0], a[1]);
      if h.Ok? {
        UseVeil(h.value, WORD_HASH_GAS * WordCount(a[1]), e);
        var u := UseGas(h.value, WORD_HASH_GAS * WordCount(a[1]));
        if u.Ok? {
          ReadVeil(m, op, a, u.value, e, w, v, s);
          PushVeil(u.value, m.read(op, a, u.value, w.accounts), e);
        }
      }
    }
  }

  lemma MemoryVeil(m: Machine, op: Byte, f: Frame, e: BlockEnv, w: World, v: World, s: Address)
    requires Oblivious(m, s) && Apart(w, v, s)
    ensures Same(MemoryTurn(m, op, f, w.accounts), MemoryTurn(m, op, Veil(f, e), v.accounts), e)
  {
    hide Pop, UseGas, ChargeMem, PushTurn, Oblivious, Apart, KindOf, Window, FromBytes, BigEndian, Overwrite, CopyTurn;
    var kind := KindOf(op);
    if kind.Hash? {
      HashVeil(m, op, f, e, w, v, s);
    } else if kind.Copy? {
      CopyVeil(f, kind.src, e, w, v, s);
    } else if kind.Load? || kind.Store? || kind.Store8? {
      var n, size := if kind.Load? then 1 else 2, if kind.Store8? then 1 else 32;
      PopVeil(f, n, e);
      var p := Pop(f, n);
      if p.Ok? {
        ChargeVeil(p.value.1, p.value.0[0], size, e);
        var h := ChargeMem(p.value.1, p.value.0[0], size);
        if h.Ok? && kind.Load? { PushVeil(h.value, FromBytes(Window(h.value.mem, p.value.0[0], 32)), e); }
      }
    }
  }

  lemma FlowVeil(op: Byte, f: Frame, e: BlockEnv)
    ensures Same(FlowTurn(op, f), FlowTurn(op, Veil(f, e)), e)
  {
    hide Pop, HaltTurn, KindOf, ValidDest;
    PopVeil(f, 1, e);
    PopVeil(f, 2, e);
    HaltVeil(f, false, e);
    HaltVeil(f, true, e);
  }

  lemma LocalVeil(m: Machine, op: Byte, f: Frame, e: BlockEnv, w: World, v: World, s: Address)
    requires Oblivious(m, s) && Apart(w, v, s)
    ensures Same(LocalTurn(m, op, f, w.accounts), LocalTurn(m, op, Veil(f, e), v.accounts), e)
  {
    hide Oblivious, Apart, KindOf, StackTurn, MemoryTurn, FlowTurn;
    StackVeil(m, op, f, e, w, v, s);
    MemoryVeil(m, op, f, e, w, v, s);
    FlowVeil(op, f, e);
  }

  // ----- instructions that change the world -----

  lemma SstoreVeil(f: Frame, e: BlockEnv, w: World, v: World, s: Address)
    requires Apart(w, v, s) && f.ctx.address != s
    ensures SamePair(SstoreTurn(f, w), SstoreTurn(Veil(f, e), v), e, s)
  {
    hide Pop, UseGas, SstoreGas, Apart;
    PopVeil(f, 2, e);
    ApartAt(w, v, s, f.ctx.address);
    var p := Pop(f, 2);
    if p.Ok? {
      var a := p.value.0;
      UseVeil(p.value.1, SstoreGas(Slot(w, f.ctx.address, a[0]), a[1]), e);
      var acc := Get(w, f.ctx.address);
      PutApart(w, v, s, f.ctx.address,
               acc.(storage := if a[1] == 0 then acc.storage - {a[0]} else acc.storage[a[0] := a[1]]));
    }
  }

  lemma EventVeil(f: Frame, n: nat, e: BlockEnv, w: World, v: World, s: Address)
    requires Apart(w, v, s)
    ensures SamePair(EventTurn(f, n, w), EventTurn(Veil(f, e), n, v), e, s)
  {
    hide Pop, UseGas, ChargeMem, Window;
    PopVeil(f, n + 2, e);
    var p := Pop(f, n + 2);
    if p.Ok? {
      var a := p.value.0;
      ChargeVeil(p.value.1, a[0], a[1], e);
      var h := ChargeMem(p.value.1, a[0], a[1]);
      if h.Ok? {
        UseVeil(h.value, LOG_GAS + n * LOG_GAS, e);
        var u := UseGas(h.value, LOG_GAS + n * LOG_GAS);
        if u.Ok? { UseVeil(u.value, LOG_DATA_GAS * a[1], e); }
      }
    }
  }

  function VeilPlan(p: CallPlan, e: BlockEnv): CallPlan { p.(frame := Veil(p.frame, e)) }

  lemma PayVeil(f: Frame, a: seq<Word>, mode: CallMode, e: BlockEnv)
    requires |a| == CallArity(mode)
    ensures CallPay(Veil(f, e), a, mode) ==
            match CallPay(f, a, mode) case Bad(x) => Bad(x) case Ok(p) => Ok(VeilPlan(p, e))
  {
    hide UseGas, ChargeMem, Window, ToAddress;
    var n := CallArity(mode);
    var value := if mode == Regular then a[2] else 0;
    var cost := CALL_GAS + if value > 0 then CALL_VALUE_GAS else 0;
    UseVeil(f, cost, e);
    var h := UseGas(f, cost);
    if h.Ok? {
      ChargeVeil(h.value, a[n - 4], a[n - 3], e);
      var h' := ChargeMem(h.value, a[n - 4], a[n - 3]);
      if h'.Ok? { ChargeVeil(h'.value, a[n - 2], a[n - 1], e); }
    }
  }

  lemma SetupVeil(f: Frame, mode: CallMode, e: BlockEnv)
    ensures CallSetup(Veil(f, e), mode) ==
            match CallSetup(f, mode) case Bad(x) => Bad(x) case Ok(p) => Ok(VeilPlan(p, e))
  {
    hide Pop, CallPay;
    PopVeil(f, CallArity(mode), e);
    var p := Pop(f, CallArity(mode));
    if p.Ok? { PayVeil(p.value.1, p.value.0, mode, e); }
  }

  lemma FinishVeil(p: CallPlan, o: Outcome, o': Outcome, e: BlockEnv, s: Address)
    requires p.give <= p.frame.gas && (p.retSize > 0 ==> p.retOff + p.retSize <= |p.frame.mem|)
    requires ApartOutcomes(o, o', s)
    ensures SameFrame(CallFinish(p, o), CallFinish(VeilPlan(p, e), o'), e)
  {
    hide Apart, Overwrite;
  }

  lemma {:induction false} CallVeil(m: Machine, f: Frame, mode: CallMode, e: BlockEnv, w: World, v: World, s: Address)
    requires Oblivious(m, s) && Unmade(m, s) && Apart(w, v, s) && f.ctx.address != s
    ensures SamePair(CallTurn(m, f, mode, w), CallTurn(m, Veil(f, e), mode, v), e, s)
    decreases f.gas, 1
  {
    hide CallSetup, CallFinish, Callee, Apart, Oblivious, Unmade, PushWord, ApartOutcomes;
    SetupVeil(f, mode, e);
    ApartAt(w, v, s, f.ctx.address);
    var p := CallSetup(f, mode);
    if p.Ok? {
      PushVeil(p.value.frame, 0, e);
      CalleeVeil(m, f.ctx, f.depth, mode, p.value, e, w, v, s);
      var o, o' := Callee(m, f.ctx, f.depth, mode, p.value, w),
                   Callee(m, f.ctx.(env := e), f.depth, mode, VeilPlan(p.value, e), v);
      FinishVeil(p.value, o, o', e, s);
      ApartKept(o, o', w, v, s);
    }
  }

  lemma ApartKept(o: Outcome, o': Outcome, w: World, v: World, s: Address)
    requires ApartOutcomes(o, o', s) && Apart(w, v, s)
    ensures o.Done? == o'.Done? && Apart(if o.Done? then o.world else w, if o'.Done? then o'.world else v, s)
  {
    hide Apart;
  }

  lemma {:induction false} CalleeVeil(m: Machine, c: Context, depth: nat, mode: CallMode, p: CallPlan, e: BlockEnv,
                                      w: World, v: World, s: Address)
    requires Oblivious(m, s) && Unmade(m, s) && Apart(w, v, s) && c.address != s
    ensures ApartOutcomes(Callee(m, c, depth, mode, p, w),
                          Callee(m, c.(env := e), depth, mode, VeilPlan(p, e), v), s)
    decreases p.give, 5
  {
    hide Execute, Transfer, Apart, Oblivious, Unmade;
    var w1 := if p.value > 0 then Transfer(w, c.address, p.target, p.value) else w;
    var v1 := if p.value > 0 then Transfer(v, c.address, p.target, p.value) else v;
    if p.value > 0 { TransferApart(w, v, s, c.address, p.target, p.value); }
    ApartAt(w1, v1, s, p.target);
    NoCodeAt(w1, v1, s);
    if !IsNative(p.target) {
      var ctx := CalleeContext(c, mode, p.target, p.value);
      ExecuteVeil(m, Code(w1, p.target), p.args, p.give, ctx, depth + 1, e, w1, v1, s);
    }
  }

  lemma NoCodeAt(w: World, v: World, s: Address)
    requires Apart(w, v, s)
    ensures Code(w, s) == [] && Code(v, s) == []
  {
  }

  lemma CreateSetupVeil(f: Frame, salted: bool, e: BlockEnv)
    ensures CreateSetup(Veil(f, e), salted) ==
            match CreateSetup(f, salted) case Bad(x) => Bad(x) case Ok(p) => Ok(p.(frame := Veil(p.frame, e)))
  {
    hide Pop, UseGas, ChargeMem, Window;
    var n := if salted then 4 else 3;
    PopVeil(f, n, e);
    var p := Pop(f, n);
    if p.Ok? {
      var a := p.value.0;
      UseVeil(p.value.1, CREATE_GAS, e);
      var h := UseGas(p.value.1, CREATE_GAS);
      if h.Ok? {
        ChargeVeil(h.value, a[1], a[2], e);
        var h' := ChargeMem(h.value, a[1], a[2]);
        if h'.Ok? { UseVeil(h'.value, WORD_HASH_GAS * WordCount(a[2]), e); }
      }
    }
  }

  lemma CreateFinishVeil(g: Frame, addr: Address, o: Outcome, o': Outcome, w1: World, v1: World, e: BlockEnv,
                         s: Address)
    requires ApartOutcomes(o, o', s) && Apart(w1, v1, s) && addr != s
    ensures SamePair(CreateFinish(g, addr, o, w1), CreateFinish(Veil(g, e), addr, o', v1), e, s)
  {
    hide Apart, Put;
    if o.Done? {
      ApartAt(o.world, o'.world, s, addr);
      PutApart(o.world, o'.world, s, addr, Get(o.world, addr).(code := o.ret));
    }
  }

  lemma {:induction false} CreateVeil(m: Machine, f: Frame, salted: bool, e: BlockEnv, w: World, v: World, s: Address)
    requires Oblivious(m, s) && Unmade(m, s) && Apart(w, v, s) && f.ctx.address != s
    ensures SamePair(CreateTurn(m, f, salted, w), CreateTurn(m, Veil(f, e), salted, v), e, s)
    decreases f.gas, 1
  {
    hide CreateSetup, CreateAttempt, Apart, Oblivious, Unmade, PushWord;
    CreateSetupVeil(f, salted, e);
    ApartAt(w, v, s, f.ctx.address);
    var p := CreateSetup(f, salted);
    if p.Ok? {
      PushVeil(p.value.frame, 0, e);
      AttemptVeil(m, f.ctx, f.depth, salted, p.value, e, w, v, s);
    }
  }

  lemma {:induction false} AttemptVeil(m: Machine, c: Context, depth: nat, salted: bool, p: CreatePlan, e: BlockEnv,
                                       w: World, v: World, s: Address)
    requires Oblivious(m, s) && Unmade(m, s) && Apart(w, v, s) && c.address != s
    ensures SamePair(CreateAttempt(m, c, depth, salted, p, w),
                     CreateAttempt(m, c.(env := e), depth, salted, p.(frame := Veil(p.frame, e)), v), e, s)
    decreases p.frame.gas, 6
  {
    hide CreateFinish, Constructor, Apart, Oblivious, PushWord, Put;
    ApartAt(w, v, s, c.address);
    var nonce := Nonce(w, c.address);
    var addr := if salted then m.create2Address(c.address, p.salt, p.init) else m.createAddress(c.address, nonce);
    var w1, v1 := SetNonce(w, c.address, nonce + 1), SetNonce(v, c.address, nonce + 1);
    PutApart(w, v, s, c.address, Get(w, c.address).(nonce := nonce + 1));
    ApartAt(w1, v1, s, addr);
    var give := p.frame.gas - p.frame.gas / 64;
    var g := p.frame.(gas := p.frame.gas - give);
    PushVeil(g, 0, e);
    ConstructorVeil(m, c, depth, p, addr, give, e, w1, v1, s);
    CreateFinishVeil(g, addr, Constructor(m, c, depth, p, addr, give, w1),
                     Constructor(m, c.(env := e), depth, p.(frame := Veil(p.frame, e)), addr, give, v1), w1, v1, e, s);
  }

  lemma {:induction false} ConstructorVeil(m: Machine, c: Context, depth: nat, p: CreatePlan, addr: Address,
                                           give: nat, e: BlockEnv, w1: World, v1: World, s: Address)
    requires Oblivious(m, s) && Unmade(m, s) && Apart(w1, v1, s) && addr != s
    ensures ApartOutcomes(Constructor(m, c, depth, p, addr, give, w1),
                          Constructor(m, c.(env := e), depth, p.(frame := Veil(p.frame, e)), addr, give, v1), s)
    decreases give, 5
  {
    hide Execute, Transfer, Apart, Oblivious, Unmade;
    if p.value > 0 { TransferApart(w1, v1, s, c.address, addr, p.value); }
    var w2 := if p.value > 0 then Transfer(w1, c.address, addr, p.value) else w1;
    var v2 := if p.value > 0 then Transfer(v1, c.address, addr, p.value) else v1;
    ExecuteVeil(m, p.init, [], give, Context(addr, c.address, p.value, c.readOnly, c.env), depth + 1, e, w2, v2, s);
  }

  // ----- a whole frame -----

  lemma {:induction false} StepVeil(m: Machine, f: Frame, e: BlockEnv, w: World, v: World, s: Address)
    requires Oblivious(m, s) && Unmade(m, s) && Apart(w, v, s) && f.ctx.address != s && f.pc < |f.code|
    ensures var r, r' := Step(m, f, w), Step(m, Veil(f, e), v);
            if r.Ok? then r'.Ok? && r'.value.0 == VeilTurn(r.value.0, e) && Apart(r.value.1, r'.value.1, s) else r' == r
    decreases f.gas, 2
  {
    hide Oblivious, Unmade, Apart, KindOf, GasCost, UseGas, LocalTurn, SstoreTurn, EventTurn, CallTurn, CreateTurn;
    var op := f.code[f.pc];
    UseVeil(f, GasCost(op), e);
    UseFacts(f, GasCost(op));
    var g := UseGas(f, GasCost(op));
    if g.Ok? {
      var k := KindOf(op);
      LocalVeil(m, op, g.value, e, w, v, s);
      SstoreVeil(g.value, e, w, v, s);
      if k.Event? { EventVeil(g.value, k.n, e, w, v, s); }
      if k.Call? { CallVeil(m, g.value, k.mode, e, w, v, s); }
      if k.Create? { CreateVeil(m, g.value, k.salted, e, w, v, s); }
    }
  }

  lemma UseFacts(f: Frame, cost: nat)
    ensures UseGas(f, cost).Ok? ==> UseGas(f, cost).value.ctx == f.ctx && UseGas(f, cost).value.gas <= f.gas
  {
  }

  lemma {:induction false} RunVeil(m: Machine, f: Frame, e: BlockEnv, w: World, v: World, s: Address)
    requires Oblivious(m, s) && Unmade(m, s) && Apart(w, v, s) && (f.ctx.address != s || f.code == [])
    ensures ApartOutcomes(Run(m, f, w), Run(m, Veil(f, e), v), s)
    decreases f.gas, 3
  {
    hide Oblivious, Unmade, Apart, Step;
    if f.pc < |f.code| {
      StepVeil(m, f, e, w, v, s);
      var r, r' := Step(m, f, w), Step(m, Veil(f, e), v);
      if r.Ok? && r.value.0.Next? {
        var g := r.value.0.frame;
        RunVeil(m, g.(steps := g.steps + 1), e, r.value.1, r'.value.1, s);
      }
    }
  }

  /** The same outcome, output and gas, whatever the surroundings are and whatever s has. */
  lemma {:induction false} ExecuteVeil(m: Machine, code: seq<Byte>, input: seq<Byte>, gas: nat, ctx: Context,
                                       depth: nat, e: BlockEnv, w: World, v: World, s: Address)
    requires Oblivious(m, s) && Unmade(m, s) && Apart(w, v, s) && (ctx.address != s || code == [])
    ensures ApartOutcomes(Execute(m, code, input, gas, ctx, depth, w),
                          Execute(m, code, input, gas, ctx.(env := e), depth, v), s)
    decreases gas, 4
  {
    hide Oblivious, Unmade, Apart;
    RunVeil(m, NewFrame(code, input, gas, ctx, depth), e, w, v, s);
  }
}
