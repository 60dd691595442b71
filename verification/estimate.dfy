/**
 Gas estimation (state/transition.go:233-337): a binary search over trial runs, each undone
 through a savepoint. The limit it returns is proved to suffice, with the next lower one failing.
 */
module Estimate {
  import opened Types
  import opened Worlds
  import Journal
  import opened Vm
  import opened Jumpdest
  import opened Interpreter
  import opened Transition
  import MoreGas

  type State = Journal.State

  datatype Message = Message(from: Address, to: Option<Address>, data: seq<Byte>, value: nat)

  /** Out of gas asks for another try; any other failure is one that more gas need not cure. */
  datatype Probe = Completes | NeedsMore | Breaks

  const NO_ENV := BlockEnv(0, 0, 0, 0, 0, 0, 0, 0)

  function Intrinsic(msg: Message): nat { IntrinsicGasFor(msg.data, msg.to.None?) }

  function Verdict(o: Outcome, deploys: bool): Probe {
    match o
    case Fault(e, _) => if e == OutOfGas then NeedsMore else Breaks
    case Reverted(_, _, _) => Breaks
    case Done(ret, gas, _, _) =>
      if !deploys then Completes
      else if |ret| > MAX_CODE_SIZE then Breaks
      else if gas < CREATE_DATA_GAS * |ret| then NeedsMore
      else Completes
  }

  /** The message run at a given gas limit on world w. */
  function ProbeAt(m: Machine, w: World, msg: Message, gasLimit: nat): Probe {
    if gasLimit < Intrinsic(msg) then NeedsMore
    else
      var budget := gasLimit - Intrinsic(msg);
      match msg.to
      case None =>
        var addr := m.createAddress(msg.from, Nonce(w, msg.from));
        Verdict(Execute(m, msg.data, [], budget, Context(addr, msg.from, msg.value, false, NO_ENV), 0,
                        Credit(w, addr, msg.value)), true)
      case Some(to) =>
        if |Code(w, to)| == 0 then Completes
        else
          var w1 := Credit(w, to, msg.value);
          Verdict(Execute(m, Code(w1, to), msg.data, budget, Context(to, msg.from, msg.value, false, NO_ENV), 0, w1),
                  false)
  }

  /** One trial run; the state is exactly as before, savepoints and journal included. */
  method TryAt(m: Machine, s: State, msg: Message, gasLimit: nat) returns (p: Probe)
    requires Journal.Valid(s.View())
    modifies s
    ensures p == ProbeAt(m, old(s.World()), msg, gasLimit) && s.View() == old(s.View())
  {
    hide Journal.Ahead, Journal.Valid, Journal.Snap, Journal.RevertTo, Vm.Execute, Intrinsic, Credit;
    if gasLimit < Intrinsic(msg) {
      return NeedsMore;
    }
    var budget := gasLimit - Intrinsic(msg);
    ghost var before := s.View();
    var snap := s.Snapshot();
    ghost var s0 := s.View();
    Journal.AheadReflexive(s0);
    if msg.to.None? {
      var addr := m.createAddress(msg.from, Nonce(s.World(), msg.from));
      s.AddBalance(addr, msg.value);
      ghost var s1 := s.View();
      var res := ExecuteFrame(m, s, msg.data, [], budget, Context(addr, msg.from, msg.value, false, NO_ENV), 0);
      Journal.AheadTransitive(s0, s1, s.View());
      p := Judge(res, true);
    } else if |Code(s.World(), msg.to.value)| == 0 {
      p := Completes;
    } else {
      var to := msg.to.value;
      s.AddBalance(to, msg.value);
      ghost var s1 := s.View();
      var res := ExecuteFrame(m, s, Code(s.World(), to), msg.data, budget,
                              Context(to, msg.from, msg.value, false, NO_ENV), 0);
      Journal.AheadTransitive(s0, s1, s.View());
      p := Judge(res, false);
    }
    Journal.RevertRestores(before, s.View());
    s.RevertToSnapshot(snap);
  }

  function Judge(res: Result, deploys: bool): (p: Probe)
    ensures forall o, w :: Shows(res, o, w) ==> p == Verdict(o, deploys)
  {
    match res.status
    case Failed(e) => if e == OutOfGas then NeedsMore else Breaks
    case Revert' => Breaks
    case Success =>
      if !deploys then Completes
      else if |res.ret| > MAX_CODE_SIZE then Breaks
      else if res.gasLeft < CREATE_DATA_GAS * |res.ret| then NeedsMore
      else Completes
  }

  /** Where the search between a failing and a completing limit ends. */
  function Bisect(m: Machine, w: World, msg: Message, lo: int, hi: nat): (r: nat)
    requires -1 <= lo < hi
    ensures lo < r <= hi
    decreases hi - lo
  {
    if lo + 1 >= hi then hi
    else
      var mid := lo + (hi - lo) / 2;
      if ProbeAt(m, w, msg, mid).Completes? then Bisect(m, w, msg, lo, mid) else Bisect(m, w, msg, mid, hi)
  }

  datatype Estimation = Enough(gas: nat) | NeverEnough | Doomed

  /**
   A returned limit is one the message completes at, and one less is not. The state the probes ran
   on is unchanged. LeastIffMidpointsComplete says when the limit is the least one.
   */
  method EstimateGas(m: Machine, s: State, msg: Message, gasCap: nat) returns (e: Estimation)
    requires Journal.Valid(s.View())
    modifies s
    ensures s.View() == old(s.View())
    ensures var w := s.World();
            match e {
              case Enough(gas) =>
                && Intrinsic(msg) <= gasCap && gas == Bisect(m, w, msg, Intrinsic(msg) - 1, gasCap) && gas <= gasCap
                && ProbeAt(m, w, msg, gas).Completes?
                && (gas > 0 ==> !ProbeAt(m, w, msg, gas - 1).Completes?)
              case NeverEnough => ProbeAt(m, w, msg, gasCap).NeedsMore?
              case Doomed => ProbeAt(m, w, msg, gasCap).Breaks?
            }
  {
    hide ProbeAt;
    BelowIntrinsic(m, s.World(), msg);
    var p := TryAt(m, s, msg, gasCap);
    if p.Breaks? {
      return Doomed;
    }
    if p.NeedsMore? {
      return NeverEnough;
    }
    var lo, hi := Intrinsic(msg) - 1, gasCap;
    while lo + 1 < hi
      invariant s.View() == old(s.View()) && Intrinsic(msg) - 1 <= lo < hi <= gasCap
      invariant ProbeAt(m, s.World(), msg, hi).Completes? && !ProbeAt(m, s.World(), msg, lo).Completes?
      invariant Bisect(m, s.World(), msg, lo, hi) == Bisect(m, s.World(), msg, Intrinsic(msg) - 1, gasCap)
    {
      var mid := lo + (hi - lo) / 2;
      p := TryAt(m, s, msg, mid);
      if p.Completes? {
        hi := mid;
      } else {
        lo := mid;
      }
    }
    return Enough(hi);
  }

  lemma BelowIntrinsic(m: Machine, w: World, msg: Message)
    ensures Intrinsic(msg) > 0 && forall gas: nat :: gas < Intrinsic(msg) ==> !ProbeAt(m, w, msg, gas).Completes?
  {
  }

  // ----- when the limit is the least one -----

  /** The search ends on a limit that completes, with the one below it failing. */
  lemma {:induction false} BisectEnds(m: Machine, w: World, msg: Message, lo: int, hi: nat)
    requires -1 <= lo < hi && ProbeAt(m, w, msg, hi).Completes? && (lo >= 0 ==> !ProbeAt(m, w, msg, lo).Completes?)
    ensures var r := Bisect(m, w, msg, lo, hi);
            ProbeAt(m, w, msg, r).Completes? && (r > 0 ==> !ProbeAt(m, w, msg, r - 1).Completes?)
    decreases hi - lo
  {
    hide ProbeAt;
    if lo + 1 < hi {
      var mid := lo + (hi - lo) / 2;
      if ProbeAt(m, w, msg, mid).Completes? { BisectEnds(m, w, msg, lo, mid); } else { BisectEnds(m, w, msg, mid, hi); }
    }
  }

  /** The limits that halving visits on its way from (lo, hi] to `least`: fixed by the three numbers. */
  function Midpoints(lo: int, hi: nat, least: nat): (r: seq<nat>)
    requires -1 <= lo < hi
    decreases hi - lo
  {
    if lo + 1 >= hi then []
    else
      var mid := lo + (hi - lo) / 2;
      [mid] + if mid >= least then Midpoints(lo, mid, least) else Midpoints(mid, hi, least)
  }

  /** The message completes at each of these limits that is not below `least`. */
  ghost predicate CompleteAbove(m: Machine, w: World, msg: Message, least: nat, limits: seq<nat>) {
    forall i :: 0 <= i < |limits| && limits[i] >= least ==> ProbeAt(m, w, msg, limits[i]).Completes?
  }

  lemma CompleteFirst(m: Machine, w: World, msg: Message, least: nat, x: nat, rest: seq<nat>)
    ensures CompleteAbove(m, w, msg, least, [x] + rest) <==>
              (x >= least ==> ProbeAt(m, w, msg, x).Completes?) && CompleteAbove(m, w, msg, least, rest)
  {
    hide ProbeAt;
    var all := [x] + rest;
    assert all[0] == x && forall i :: 0 <= i < |rest| ==> all[i + 1] == rest[i];
    if CompleteAbove(m, w, msg, least, all) {
      forall i | 0 <= i < |rest| && rest[i] >= least ensures ProbeAt(m, w, msg, rest[i]).Completes? {
        assert all[i + 1] >= least;
      }
    }
  }

  function Mid(lo: int, hi: nat): nat
    requires -1 <= lo && lo + 1 < hi
  {
    lo + (hi - lo) / 2
  }

  lemma HalvingStep(m: Machine, w: World, msg: Message, lo: int, hi: nat, least: nat)
    requires -1 <= lo && lo + 1 < hi
    ensures var mid := Mid(lo, hi);
            && lo < mid < hi
            && Bisect(m, w, msg, lo, hi) ==
               (if ProbeAt(m, w, msg, mid).Completes? then Bisect(m, w, msg, lo, mid) else Bisect(m, w, msg, mid, hi))
            && Midpoints(lo, hi, least) ==
               [mid] + if mid >= least then Midpoints(lo, mid, least) else Midpoints(mid, hi, least)
  {
    hide ProbeAt;
  }

  lemma HalvingEnd(m: Machine, w: World, msg: Message, hi: nat, least: nat)
    ensures Bisect(m, w, msg, hi - 1, hi) == hi && Midpoints(hi - 1, hi, least) == []
  {
    hide ProbeAt;
  }

  /**
   The search returns the least sufficient limit if and only if the message completes at each of
   the midpoints above it that halving visits: some twenty-five limits, known in advance.
   */
  lemma {:induction false} LeastIffMidpointsComplete(m: Machine, w: World, msg: Message, lo: int, hi: nat, least: nat)
    requires -1 <= lo < least <= hi && ProbeAt(m, w, msg, least).Completes? && ProbeAt(m, w, msg, hi).Completes?
    requires forall g: nat :: lo < g < least ==> !ProbeAt(m, w, msg, g).Completes?
    ensures Bisect(m, w, msg, lo, hi) == least <==> CompleteAbove(m, w, msg, least, Midpoints(lo, hi, least))
    decreases hi - lo
  {
    hide ProbeAt, Bisect, Midpoints, CompleteAbove, Mid;
    if lo + 1 == hi {
      HalvingEnd(m, w, msg, hi, least);
      CompleteNone(m, w, msg, least);
    } else {
      var mid := Mid(lo, hi);
      HalvingStep(m, w, msg, lo, hi, least);
      if mid < least {
        CompleteFirst(m, w, msg, least, mid, Midpoints(mid, hi, least));
        LeastIffMidpointsComplete(m, w, msg, mid, hi, least);
      } else {
        CompleteFirst(m, w, msg, least, mid, Midpoints(lo, mid, least));
        if ProbeAt(m, w, msg, mid).Completes? { LeastIffMidpointsComplete(m, w, msg, lo, mid, least); }
      }
    }
  }

  lemma CompleteNone(m: Machine, w: World, msg: Message, least: nat)
    ensures CompleteAbove(m, w, msg, least, [])
  {
  }

  /** A message whose code is free of GAS, calls and creations. */
  predicate PlainMessage(w: World, msg: Message) {
    match msg.to
    case None => MoreGas.Plain(msg.data)
    case Some(to) => MoreGas.Plain(Code(w, to))
  }

  /** Such a message completes at every limit above one at which it completes. */
  lemma PlainMessagesAreMonotone(m: Machine, w: World, msg: Message, a: nat, b: nat)
    requires MoreGas.GasBlind(m) && PlainMessage(w, msg) && a <= b && ProbeAt(m, w, msg, a).Completes?
    ensures ProbeAt(m, w, msg, b).Completes?
  {
    hide MoreGas.GasBlind, MoreGas.Plain, Execute, Credit, Intrinsic;
    var budget := a - Intrinsic(msg);
    if msg.to.None? {
      var addr := m.createAddress(msg.from, Nonce(w, msg.from));
      MoreGas.ExecuteMore(m, msg.data, [], budget, Context(addr, msg.from, msg.value, false, NO_ENV), 0,
                          Credit(w, addr, msg.value), b - a);
    } else {
      var to := msg.to.value;
      var w1 := Credit(w, to, msg.value);
      CreditKeepsCode(w, to, msg.value);
      MoreGas.ExecuteMore(m, Code(w1, to), msg.data, budget, Context(to, msg.from, msg.value, false, NO_ENV), 0, w1,
                          b - a);
    }
  }

  lemma CreditKeepsCode(w: World, a: Address, amount: int)
    ensures Code(Credit(w, a, amount), a) == Code(w, a)
  {
  }

  /** Where more gas never hurts, the search finds the least sufficient limit. */
  lemma MoreGasNeverHurts(m: Machine, w: World, msg: Message, gasCap: nat)
    requires ProbeAt(m, w, msg, gasCap).Completes?
    requires forall a: nat, b: nat :: a <= b && ProbeAt(m, w, msg, a).Completes? ==> ProbeAt(m, w, msg, b).Completes?
    ensures Intrinsic(msg) <= gasCap
    ensures forall g: nat :: ProbeAt(m, w, msg, g).Completes? <==> Bisect(m, w, msg, Intrinsic(msg) - 1, gasCap) <= g
  {
    BelowIntrinsic(m, w, msg);
    hide ProbeAt, Intrinsic, Bisect;
    BisectEnds(m, w, msg, Intrinsic(msg) - 1, gasCap);
  }

  /** So for a plain message the estimate is the least sufficient limit, at every cap. */
  lemma PlainEstimateIsLeast(m: Machine, w: World, msg: Message, gasCap: nat)
    requires MoreGas.GasBlind(m) && PlainMessage(w, msg) && ProbeAt(m, w, msg, gasCap).Completes?
    ensures Intrinsic(msg) <= gasCap
    ensures forall g: nat :: ProbeAt(m, w, msg, g).Completes? <==> Bisect(m, w, msg, Intrinsic(msg) - 1, gasCap) <= g
  {
    hide ProbeAt, PlainMessage, MoreGas.GasBlind, Intrinsic, Bisect;
    forall a: nat, b: nat | a <= b && ProbeAt(m, w, msg, a).Completes? ensures ProbeAt(m, w, msg, b).Completes? {
      PlainMessagesAreMonotone(m, w, msg, a, b);
    }
    MoreGasNeverHurts(m, w, msg, gasCap);
  }

  // ----- a contract that misleads the search -----

  /** The cap the node estimates with (core/blockchain.go:409-412). */
  const GAS_CAP: nat := 30_000_000

  /**
   PUSH3 1000000, GAS, DIV, JUMP: goes to the byte numbered by the gas left in millions, where only
   10 and 29 are destinations.
   */
  const GAS_JUMP: seq<Byte> :=
    [0x62, 0x0f, 0x42, 0x40, 0x5a, 0x04, 0x56, 0, 0, 0, 0x5b, 0, 0, 0, 0, 0, 0, 0, 0, 0, 0, 0, 0, 0, 0, 0, 0, 0, 0,
     0x5b]

  /** GAS and DIV as the machine defines them. */
  ghost predicate Computes(m: Machine) {
    && (forall f, accounts :: m.read(0x5a, [], f, accounts) == f.gas)
    && (forall x: Word, y: Word, f, accounts :: y != 0 ==> m.read(0x04, [x, y], f, accounts) == x / y)
  }

  lemma RunNext(m: Machine, f: Frame, w: World, g: Frame)
    requires f.pc < |f.code| && Step(m, f, w) == Ok((Next(g), w))
    ensures Run(m, f, w) == Run(m, g.(steps := g.steps + 1), w)
  {
    hide Step;
  }

  lemma RunFaults(m: Machine, f: Frame, w: World)
    requires f.pc < |f.code| && Step(m, f, w).Bad?
    ensures Run(m, f, w).Fault?
  {
    hide Step;
  }

  /** At the end of the code or on STOP, a frame is done. */
  lemma RunStops(m: Machine, f: Frame, w: World)
    requires f.pc < |f.code| ==> f.code[f.pc] == 0
    ensures Run(m, f, w).Done?
  {
    assert KindOf(0) == Stop && GasCost(0) == 0;
    if f.pc < |f.code| { assert Step(m, f, w) == Ok((Returns([], f), w)); }
  }

  lemma StepPush(m: Machine, f: Frame, w: World)
    requires f.code == GAS_JUMP && f.pc == 0 && f.stack == [] && f.gas >= 3
    ensures Step(m, f, w) == Ok((Next(f.(gas := f.gas - 3, stack := [1_000_000], pc := 4)), w))
  {
    assert KindOf(0x62) == Push(3) && GasCost(0x62) == 3;
    var b := Window(f.code, 1, 3);
    assert b == [0x0f, 0x42, 0x40];
    assert b[..2] == [0x0f, 0x42] && b[..2][..1] == [0x0f] && [0x0f][..0] == [];
    assert FromBytes([0x0f]) == 0x0f && FromBytes(b[..2]) == 0x0f42;
    assert FromBytes(b) == 1_000_000;
    assert f.stack + [1_000_000 % TWO_256] == [1_000_000];
  }

  /** The opcodes the contract is made of. */
  lemma Opcodes()
    ensures KindOf(0x5a) == Compute(0) && GasCost(0x5a) == 2
    ensures KindOf(0x04) == Compute(2) && GasCost(0x04) == 5
    ensures KindOf(0x56) == Jump && GasCost(0x56) == 8
  {
  }

  /** An opcode that only computes pops, reads and pushes. */
  lemma StepComputes(m: Machine, f: Frame, w: World, op: Byte, n: nat, cost: nat)
    requires f.pc < |f.code| && f.code[f.pc] == op && KindOf(op) == Compute(n) && GasCost(op) == cost <= f.gas
    requires |f.stack| >= n
    ensures var g := f.(gas := f.gas - cost);
            var (a, h) := Pop(g, n).value;
            var t := PushTurn(h, m.read(op, a, g, w.accounts));
            Step(m, f, w) == if t.Ok? then Ok((t.value, w)) else Bad(t.err)
  {
    hide KindOf, GasCost, PushTurn;
  }

  lemma StepGas(m: Machine, f: Frame, w: World, x: Word)
    requires Computes(m) && f.code == GAS_JUMP && f.pc == 4 && f.stack == [x] && 2 <= f.gas < TWO_64
    ensures Step(m, f, w) == Ok((Next(f.(gas := f.gas - 2, stack := [x, f.gas - 2], pc := 5)), w))
  {
    hide KindOf, GasCost, Step;
    var g := f.(gas := f.gas - 2);
    Opcodes();
    StepComputes(m, f, w, 0x5a, 0, 2);
    assert g.stack[..|g.stack| - 0] == g.stack;
    assert Pop(g, 0).value.0 == [] && Pop(g, 0).value.1 == g;
    assert TWO_64 < TWO_256 && (f.gas - 2) % TWO_256 == f.gas - 2;
    assert g.stack + [f.gas - 2] == [x, f.gas - 2];
  }

  lemma StepDiv(m: Machine, f: Frame, w: World, x: Word)
    requires Computes(m) && f.code == GAS_JUMP && f.pc == 5 && f.stack == [1_000_000, x] && f.gas >= 5 && x < TWO_64
    ensures Step(m, f, w) == Ok((Next(f.(gas := f.gas - 5, stack := [x / 1_000_000], pc := 6)), w))
  {
    hide KindOf, GasCost, Step;
    var g := f.(gas := f.gas - 5);
    var q := x / 1_000_000;
    Opcodes();
    StepComputes(m, f, w, 0x04, 2, 5);
    var p := Pop(g, 2);
    assert g.stack[..|g.stack| - 2] == [];
    assert p.value.0 == [x, 1_000_000] && p.value.1 == g.(stack := []);
    assert TWO_64 < TWO_256 && q % TWO_256 == q;
    assert [] + [q] == [q];
  }

  /** A jump pops its destination and goes there. */
  lemma StepJumps(m: Machine, f: Frame, w: World)
    requires f.pc < |f.code| && KindOf(f.code[f.pc]) == Jump && GasCost(f.code[f.pc]) == 8 <= f.gas && |f.stack| >= 1
    ensures var (a, h) := Pop(f.(gas := f.gas - 8), 1).value;
            var t := JumpTo(h, a[0]);
            Step(m, f, w) == if t.Ok? then Ok((t.value, w)) else Bad(t.err)
  {
    hide KindOf, GasCost, JumpTo;
  }

  lemma StepJump(m: Machine, f: Frame, w: World, d: nat)
    requires f.code == GAS_JUMP && f.pc == 6 && f.stack == [d] && f.gas >= 8 && d < TWO_64
    ensures ValidDest(f.code, d) ==> Step(m, f, w) == Ok((Next(f.(gas := f.gas - 8, stack := [], pc := d)), w))
    ensures !ValidDest(f.code, d) ==> Step(m, f, w).Bad?
  {
    hide ValidDest, KindOf, GasCost, Step;
    var g := f.(gas := f.gas - 8);
    Opcodes();
    StepJumps(m, f, w);
    assert Pop(g, 1).value.0 == [d] && Pop(g, 1).value.1 == g.(stack := []);
  }

  lemma StepMark(m: Machine, f: Frame, w: World)
    requires f.pc < |f.code| && f.code[f.pc] == 0x5b && f.gas >= 1
    ensures Step(m, f, w) == Ok((Next(f.(gas := f.gas - 1, pc := f.pc + 1)), w))
  {
    assert KindOf(0x5b) == Marker && GasCost(0x5b) == 1;
  }

  lemma {:induction false} NoMorePushes(from: nat, pc: nat)
    requires 4 <= from <= pc <= |GAS_JUMP|
    ensures Decodes(GAS_JUMP, from, pc)
    decreases pc - from
  {
    if from < pc {
      NoMorePushes(from + 1, pc);
      assert GAS_JUMP[from] < PUSH1;
    }
  }

  lemma Destinations(d: nat)
    requires 4 <= d < |GAS_JUMP|
    ensures ValidDest(GAS_JUMP, d) <==> d == 10 || d == 29
  {
    NoMorePushes(4, d);
    assert NextPc(GAS_JUMP, 0) == 4;
    assert GAS_JUMP[d] == 0x5b <==> d == 10 || d == 29;
  }

  /** The frame as it stands before the jump. */
  function BeforeJump(ctx: Context, gas: nat): Frame
    requires gas >= 10
  {
    NewFrame(GAS_JUMP, [], gas, ctx, 0).(gas := gas - 10, stack := [(gas - 5) / 1_000_000], pc := 6, steps := 3)
  }

  lemma GasJumpArrives(m: Machine, ctx: Context, gas: nat, w: World)
    requires Computes(m) && 10 <= gas < TWO_64
    ensures Execute(m, GAS_JUMP, [], gas, ctx, 0, w) == Run(m, BeforeJump(ctx, gas), w)
  {
    hide Step, Run, Computes;
    var f := NewFrame(GAS_JUMP, [], gas, ctx, 0);
    StepPush(m, f, w);
    var f1 := f.(gas := gas - 3, stack := [1_000_000], pc := 4, steps := 1);
    RunNext(m, f, w, f1.(steps := 0));
    StepGas(m, f1, w, 1_000_000);
    var f2 := f1.(gas := gas - 5, stack := [1_000_000, gas - 5], pc := 5, steps := 2);
    RunNext(m, f1, w, f2.(steps := 1));
    StepDiv(m, f2, w, gas - 5);
    RunNext(m, f2, w, BeforeJump(ctx, gas).(steps := 2));
  }

  /** With between four and thirty million of gas it completes in the eleventh and the thirtieth million. */
  lemma GasJumpRuns(m: Machine, ctx: Context, gas: nat, w: World)
    requires Computes(m) && 4_000_005 <= gas < 30_000_005
    ensures var d := (gas - 5) / 1_000_000;
            Execute(m, GAS_JUMP, [], gas, ctx, 0, w).Done? <==> d == 10 || d == 29
  {
    hide Execute, Step, Run, Decodes, ValidDest, Computes;
    var d := (gas - 5) / 1_000_000;
    GasJumpArrives(m, ctx, gas, w);
    var f := BeforeJump(ctx, gas);
    StepJump(m, f, w, d);
    Destinations(d);
    if d == 10 || d == 29 {
      var g := f.(gas := gas - 18, stack := [], pc := d, steps := 4);
      RunNext(m, f, w, g.(steps := 3));
      StepMark(m, g, w);
      var h := g.(gas := gas - 19, pc := d + 1, steps := 5);
      RunNext(m, g, w, h.(steps := 4));
      RunStops(m, h, w);
    } else {
      RunFaults(m, f, w);
    }
  }

  lemma GasJumpProbe(m: Machine, w: World, msg: Message, limit: nat)
    requires Computes(m) && msg.to.Some? && msg.data == [] && Code(w, msg.to.value) == GAS_JUMP
    requires 4_021_005 <= limit < 30_021_005
    ensures Intrinsic(msg) == 21000
    ensures ProbeAt(m, w, msg, limit).Completes? <==>
              (limit - 21005) / 1_000_000 == 10 || (limit - 21005) / 1_000_000 == 29
  {
    hide Execute, Computes, Credit;
    var to := msg.to.value;
    CreditKeepsCode(w, to, msg.value);
    GasJumpRuns(m, Context(to, msg.from, msg.value, false, NO_ENV), limit - 21000, Credit(w, to, msg.value));
  }

  /**
   EstimateGas does not return the least limit for this contract, wherever it is deployed and whoever
   asks: the message completes at 10021005, but the first probe, at 15010499, fails, and the search
   settles above it.
   */
  lemma EstimateCanMissTheLeast(m: Machine, w: World, msg: Message)
    requires Computes(m) && msg.to.Some? && msg.data == [] && Code(w, msg.to.value) == GAS_JUMP
    ensures Intrinsic(msg) == 21000 && ProbeAt(m, w, msg, GAS_CAP).Completes?
    ensures ProbeAt(m, w, msg, 10_021_005).Completes?
    ensures Bisect(m, w, msg, Intrinsic(msg) - 1, GAS_CAP) > 15_010_499
  {
    hide ProbeAt, Computes;
    GasJumpProbe(m, w, msg, GAS_CAP);
    GasJumpProbe(m, w, msg, 10_021_005);
    GasJumpProbe(m, w, msg, 15_010_499);
    assert 20_999 + (GAS_CAP - 20_999) / 2 == 15_010_499;
  }
}
