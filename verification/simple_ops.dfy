/**
 The same for the instructions that stay within their frame, and for storage and events.
 */
module SimpleOps {
  import opened Types
  import opened Worlds
  import opened Jumpdest
  import opened Vm
  import opened Digits
  import opened Instructions

  /** The step of an instruction that leaves the world alone. */
  lemma StepIsLocal(m: Machine, f: Frame, w: World, cost: nat)
    requires f.pc < |f.code| && GasCost(f.code[f.pc]) == cost
    requires var k := KindOf(f.code[f.pc]); !k.Sstore? && !k.Event? && !k.Call? && !k.Create?
    ensures Step(m, f, w) ==
            if f.gas < cost then Bad(OutOfGas)
            else
              var t := LocalTurn(m, f.code[f.pc], f.(gas := f.gas - cost), w.accounts);
              if t.Ok? then Ok((t.value, w)) else Bad(t.err)
  {
    hide LocalTurn, KindOf, GasCost;
  }

  // ----- storage -----

  /** Writing a slot: unchanged 800, fresh 20000, otherwise 5000. */
  function SlotPrice(w: World, a: Address, key: Word, value: Word): nat {
    if Slot(w, a, key) == value then 800 else if Slot(w, a, key) == 0 then 20000 else 5000
  }

  /** One slot of one account holds the value, and nothing else changed. */
  ghost predicate SlotWritten(w: World, w': World, a: Address, key: Word, value: Word) {
    && w'.logs == w.logs && w'.burned == w.burned
    && (forall b :: b != a ==> Get(w', b) == Get(w, b))
    && Get(w', a) == Get(w, a).(storage := Get(w', a).storage)
    && (forall k :: Slot(w', a, k) == if k == key then value else Slot(w, a, k))
  }

  lemma SlotReadsBack(w: World, a: Address, key: Word, value: Word)
    ensures SlotWritten(w, SetSlot(w, a, key, value), a, key, value)
  {
  }

  lemma StepIsSstore(m: Machine, f: Frame, w: World)
    requires f.pc < |f.code| && f.code[f.pc] == 0x55
    ensures Step(m, f, w) == Lift(SstoreTurn(f, w))
  {
    hide SstoreTurn;
    assert f.(gas := f.gas - 0) == f;
  }

  /** SSTORE: the slot reads back the word written. */
  lemma SstoreMeans(m: Machine, f: Frame, w: World)
    requires f.pc < |f.code| && f.code[f.pc] == 0x55
    ensures var r, self := Step(m, f, w), f.ctx.address;
            && (r.Ok? <==> !f.ctx.readOnly && |f.stack| >= 2 && f.gas >= SlotPrice(w, self, Arg(f, 0), Arg(f, 1)))
            && (r.Ok? ==>
                  && r.value.0 == Turn.Next(f.(pc := f.pc + 1, stack := Below(f, 2),
                                               gas := f.gas - SlotPrice(w, self, Arg(f, 0), Arg(f, 1))))
                  && SlotWritten(w, r.value.1, self, Arg(f, 0), Arg(f, 1)))
  {
    hide Step, SetSlot, SlotWritten, Pop;
    StepIsSstore(m, f, w);
    Popping(f, 2);
    if |f.stack| >= 2 { SlotReadsBack(w, f.ctx.address, Arg(f, 0), Arg(f, 1)); }
  }

  // ----- events -----

  lemma StepIsLog(m: Machine, f: Frame, w: World, n: nat)
    requires f.pc < |f.code| && n <= 4 && f.code[f.pc] == 0xa0 + n
    ensures Step(m, f, w) == Lift(EventTurn(f, n, w))
  {
    hide EventTurn;
    assert f.(gas := f.gas - 0) == f;
  }

  /** LOG0 to LOG4: one event with the frame's address, its topics from the stack and its data from memory. */
  lemma LogMeans(m: Machine, f: Frame, w: World, n: nat)
    requires f.pc < |f.code| && n <= 4 && f.code[f.pc] == 0xa0 + n && |f.stack| >= n + 2
    ensures var r, off, size := Step(m, f, w), Arg(f, 0), Arg(f, 1);
            var cost := 375 + 375 * n + 8 * size + Rent(Reach(|f.mem|, off, size)) - Rent(|f.mem|);
            && (r.Ok? <==> !f.ctx.readOnly && Fits(off, size) && f.gas >= cost)
            && (r.Ok? ==>
                  var g, w' := r.value.0.frame, r.value.1;
                  && g == f.(pc := f.pc + 1, stack := Below(f, n + 2), gas := f.gas - cost, mem := g.mem)
                  && Grown(f.mem, g.mem, Reach(|f.mem|, off, size))
                  && |w'.logs| == |w.logs| + 1 && w'.logs[..|w.logs|] == w.logs && w' == w.(logs := w'.logs)
                  && var event := w'.logs[|w.logs|];
                     && event.address == f.ctx.address
                     && |event.topics| == n && (forall i :: 0 <= i < n ==> event.topics[i] == Arg(f, 2 + i))
                     && |event.data| == size && (forall i :: 0 <= i < size ==> event.data[i] == ByteAt(f.mem, off + i)))
  {
    hide Step, ChargeMem, Pop, Rent;
    StepIsLog(m, f, w, n);
    Popping(f, n + 2);
    Touching(Pop(f, n + 2).value.1, Arg(f, 0), Arg(f, 1));
  }

  // ----- memory -----

  /** What touching 32 bytes, or any window, costs on top of the flat price. */
  function Touch(f: Frame, off: nat, size: nat): int { Rent(Reach(|f.mem|, off, size)) - Rent(|f.mem|) }

  /** Memory with these bytes at an offset, zeros where it grew, and every other byte as before. */
  ghost predicate Laid(mem: seq<Byte>, mem': seq<Byte>, off: nat, bytes: seq<Byte>) {
    forall i: nat :: ByteAt(mem', i) == if off <= i < off + |bytes| then bytes[i - off] else ByteAt(mem, i)
  }

  lemma Laying(mem: seq<Byte>, mem': seq<Byte>, n: nat, off: nat, bytes: seq<Byte>)
    requires Grown(mem, mem', n) && (bytes == [] || off + |bytes| <= n)
    ensures Laid(mem, Overwrite(mem', off, bytes), off, bytes)
  {
    forall i: nat
      ensures ByteAt(Overwrite(mem', off, bytes), i) ==
              if off <= i < off + |bytes| then bytes[i - off] else ByteAt(mem, i)
    {
      assert ByteAt(mem', i) == ByteAt(mem, i);
    }
  }

  /** MSTORE: 32 bytes at the offset, the word's digits from the highest down. */
  lemma MstoreMeans(m: Machine, f: Frame, w: World)
    requires f.pc < |f.code| && f.code[f.pc] == 0x52 && |f.stack| >= 2
    ensures var r, off, word := Step(m, f, w), Arg(f, 0), Arg(f, 1);
            && (r.Ok? <==> Fits(off, 32) && f.gas >= 3 + Touch(f, off, 32))
            && (r.Ok? ==>
                  var g := r.value.0.frame;
                  && r.value.0.Next? && r.value.1 == w && |g.mem| == Reach(|f.mem|, off, 32)
                  && g == f.(pc := f.pc + 1, stack := Below(f, 2), gas := f.gas - 3 - Touch(f, off, 32), mem := g.mem)
                  && forall i: nat :: ByteAt(g.mem, i) ==
                       if off <= i < off + 32 then Digit(word, off + 31 - i) else ByteAt(f.mem, i))
  {
    hide Step, ChargeMem, Pop, Rent, BigEndian, Overwrite, Digit;
    StepIsLocal(m, f, w, 3);
    var off, word := Arg(f, 0), Arg(f, 1);
    RentGrows(|f.mem|, Reach(|f.mem|, off, 32));
    if f.gas >= 3 {
      var f1 := f.(gas := f.gas - 3);
      Popping(f1, 2);
      var g := Pop(f1, 2).value.1;
      Touching(g, off, 32);
      var h := ChargeMem(g, off, 32);
      if h.Ok? {
        Laying(f.mem, h.value.mem, |h.value.mem|, off, BigEndian(word, 32));
        forall i | 0 <= i < 32 ensures BigEndian(word, 32)[i] == Digit(word, 31 - i) { BigEndianDigits(word, 32, i); }
      }
    }
  }

  /** MLOAD: the number whose digits are the 32 bytes at the offset. */
  lemma MloadMeans(m: Machine, f: Frame, w: World)
    requires f.pc < |f.code| && f.code[f.pc] == 0x51 && 1 <= |f.stack| <= 1024
    ensures var r, off := Step(m, f, w), Arg(f, 0);
            && (r.Ok? <==> Fits(off, 32) && f.gas >= 3 + Touch(f, off, 32))
            && (r.Ok? ==>
                  var g := r.value.0.frame;
                  && r.value.0.Next? && r.value.1 == w && g.pc == f.pc + 1 && g.gas == f.gas - 3 - Touch(f, off, 32)
                  && Grown(f.mem, g.mem, Reach(|f.mem|, off, 32))
                  && |g.stack| == |f.stack| && g.stack[..|g.stack| - 1] == Below(f, 1) && Arg(g, 0) < TWO_256
                  && Arg(g, 0) == FromBytes(Window(f.mem, off, 32))
                  && forall k :: 0 <= k < 32 ==> Digit(Arg(g, 0), k) == ByteAt(f.mem, off + 31 - k))
  {
    hide Step, ChargeMem, Pop, Rent, FromBytes, Digit, Power256;
    StepIsLocal(m, f, w, 3);
    var off := Arg(f, 0);
    RentGrows(|f.mem|, Reach(|f.mem|, off, 32));
    if f.gas >= 3 {
      var f1 := f.(gas := f.gas - 3);
      Popping(f1, 1);
      var g := Pop(f1, 1).value.1;
      Touching(g, off, 32);
      var h := ChargeMem(g, off, 32);
      if h.Ok? {
        var b := Window(h.value.mem, off, 32);
        assert b == Window(f.mem, off, 32) by { forall i | 0 <= i < 32 ensures b[i] == ByteAt(f.mem, off + i) { } }
        FromBytesBound(b);
        WordSize();
        SmallWord(FromBytes(b));
        forall k | 0 <= k < 32 ensures Digit(FromBytes(b), k) == ByteAt(f.mem, off + 31 - k) {
          FromBytesDigits(b, 31 - k);
        }
      }
    }
  }

  lemma SmallWord(v: nat)
    ensures v < TWO_256 ==> v % TWO_256 == v
  {
  }

  /** A word stored and then loaded from the same offset comes back. */
  lemma LoadAfterStore(m: Machine, f: Frame, w: World, g: Frame)
    requires f.pc < |f.code| && f.code[f.pc] == 0x52 && |f.stack| >= 2 && Step(m, f, w) == Ok((Turn.Next(g), w))
    requires g.pc < |g.code| && g.code[g.pc] == 0x51 && |g.stack| < 1024
    ensures var r := Step(m, g.(stack := g.stack + [Arg(f, 0)]), w);
            (r.Ok? <==> g.gas >= 3) && (r.Ok? ==> r.value.0.frame.stack == g.stack + [Arg(f, 1) % TWO_256])
  {
    hide Step, Rent, FromBytes, Digit, Window;
    var off, word := Arg(f, 0), Arg(f, 1);
    var load := g.(stack := g.stack + [off]);
    MstoreMeans(m, f, w);
    MloadMeans(m, load, w);
    assert Below(load, 1) == g.stack && Arg(load, 0) == off && Touch(load, off, 32) == 0;
    WordAt(g.mem, off, word);
    var r := Step(m, load, w);
    if r.Ok? { LastWord(r.value.0.frame.stack, g.stack, word % TWO_256); }
  }

  lemma LastWord(s: seq<Word>, below: seq<Word>, v: Word)
    requires s != [] && s[..|s| - 1] == below && s[|s| - 1] == v
    ensures s == below + [v]
  {
  }

  lemma WordAt(mem: seq<Byte>, off: nat, word: nat)
    requires forall i: nat :: off <= i < off + 32 ==> ByteAt(mem, i) == Digit(word, off + 31 - i)
    ensures FromBytes(Window(mem, off, 32)) == word % TWO_256
  {
    hide FromBytes, Digit, BigEndian, Power256;
    var b := Window(mem, off, 32);
    forall i | 0 <= i < 32 ensures b[i] == BigEndian(word, 32)[i] {
      BigEndianDigits(word, 32, i);
      assert b[i] == ByteAt(mem, off + i);
    }
    assert b == BigEndian(word, 32);
    BytesReadBack(word, 32);
    WordSize();
  }

  /** MSTORE8: the lowest byte. */
  lemma Mstore8Means(m: Machine, f: Frame, w: World)
    requires f.pc < |f.code| && f.code[f.pc] == 0x53 && |f.stack| >= 2
    ensures var r, off := Step(m, f, w), Arg(f, 0);
            && (r.Ok? <==> Fits(off, 1) && f.gas >= 3 + Touch(f, off, 1))
            && (r.Ok? ==>
                  var g := r.value.0.frame;
                  && r.value.0.Next? && r.value.1 == w
                  && g == f.(pc := f.pc + 1, stack := Below(f, 2), gas := f.gas - 3 - Touch(f, off, 1), mem := g.mem)
                  && Laid(f.mem, g.mem, off, [Arg(f, 1) % 256]))
  {
    hide Step, ChargeMem, Pop, Rent, Overwrite, Laid;
    StepIsLocal(m, f, w, 3);
    var off := Arg(f, 0);
    RentGrows(|f.mem|, Reach(|f.mem|, off, 1));
    if f.gas >= 3 {
      var f1 := f.(gas := f.gas - 3);
      Popping(f1, 2);
      var g := Pop(f1, 2).value.1;
      Touching(g, off, 1);
      var h := ChargeMem(g, off, 1);
      if h.Ok? { Laying(f.mem, h.value.mem, |h.value.mem|, off, [Arg(f, 1) % 256]); }
    }
  }

  // ----- copies -----

  /** What the copying opcodes read: calldata, own code, another account's code, return data, memory. */
  function Source(f: Frame, op: Byte, w: World): seq<Byte>
    requires op == 0x3c ==> |f.stack| >= 1
  {
    if op == 0x37 then f.input
    else if op == 0x39 then f.code
    else if op == 0x3c then Code(w, Arg(f, 0) % TWO_160)
    else if op == 0x3e then f.returnData
    else f.mem
  }

  lemma CopyTurnMeans(f: Frame, src: CopySource, w: World, data: seq<Byte>)
    requires src != Memory && |f.stack| >= 4
    requires data == CopyData(src, f.input, f.code, f.returnData, f.mem, w.accounts, ToAddress(Arg(f, 0)))
    ensures var n, r := if src == OtherCode then 4 else 3, CopyTurn(f, src, w.accounts);
            var to, off, size := Arg(f, n - 3), Arg(f, n - 2), Arg(f, n - 1);
            var cost := 3 * WordCount(size) + Touch(f, to, size);
            && (r.Ok? <==> Fits(to, size) && f.gas >= cost && (src == ReturnData ==> off + size <= |f.returnData|))
            && (r.Ok? ==>
                  var g := r.value.frame;
                  && r.value.Next? && |g.mem| == Reach(|f.mem|, to, size)
                  && g == f.(pc := f.pc + 1, stack := Below(f, n), gas := f.gas - cost, mem := g.mem)
                  && Laid(f.mem, g.mem, to, Window(data, off, size)))
  {
    hide ChargeMem, Pop, Rent, Overwrite, Laid, Window, CopyData;
    var n := if src == OtherCode then 4 else 3;
    var to, off, size := Arg(f, n - 3), Arg(f, n - 2), Arg(f, n - 1);
    Popping(f, n);
    var g := Pop(f, n).value.1;
    Touching(g, to, size);
    var h := ChargeMem(g, to, size);
    if h.Ok? {
      SameSource(src, f, h.value, w, ToAddress(Arg(f, 0)));
      Laying(f.mem, h.value.mem, |h.value.mem|, to, Window(data, off, size));
    }
  }

  lemma SameSource(src: CopySource, f: Frame, g: Frame, w: World, other: Address)
    requires src != Memory && g.input == f.input && g.code == f.code && g.returnData == f.returnData
    ensures CopyData(src, g.input, g.code, g.returnData, g.mem, w.accounts, other) ==
            CopyData(src, f.input, f.code, f.returnData, f.mem, w.accounts, other)
  {
  }

  predicate IsCopy(op: Byte) { op == 0x37 || op == 0x39 || op == 0x3c || op == 0x3e }

  lemma CopyKinds(op: Byte)
    requires IsCopy(op)
    ensures KindOf(op) == Copy(if op == 0x37 then Calldata else if op == 0x39 then OwnCode
                               else if op == 0x3c then OtherCode else ReturnData)
    ensures GasCost(op) == if op == 0x3c then 700 else 3
  {
  }

  /** What is asked for; the code of another account names that account first. */
  datatype Copying = Copying(words: nat, to: nat, off: nat, size: nat)

  function CopyingOf(f: Frame, op: Byte): Copying
    requires |f.stack| >= 4
  {
    if op == 0x3c then Copying(4, Arg(f, 1), Arg(f, 2), Arg(f, 3)) else Copying(3, Arg(f, 0), Arg(f, 1), Arg(f, 2))
  }

  function CopyCost(f: Frame, op: Byte, c: Copying): int {
    (if op == 0x3c then 700 else 3) + 3 * WordCount(c.size) + Touch(f, c.to, c.size)
  }

  /** The window of the source lands in memory, zeros beyond its end; beyond the end of return data is a fault. */
  lemma CopyMeans(m: Machine, f: Frame, w: World)
    requires f.pc < |f.code| && IsCopy(f.code[f.pc]) && |f.stack| >= 4
    ensures var op, r := f.code[f.pc], Step(m, f, w);
            var c := CopyingOf(f, op);
            && (r.Ok? <==> && Fits(c.to, c.size) && f.gas >= CopyCost(f, op, c)
                           && (op == 0x3e ==> c.off + c.size <= |f.returnData|))
            && (r.Ok? ==>
                  var g := r.value.0.frame;
                  && r.value.0.Next? && r.value.1 == w && |g.mem| == Reach(|f.mem|, c.to, c.size)
                  && g == f.(pc := f.pc + 1, stack := Below(f, c.words), mem := g.mem,
                             gas := f.gas - CopyCost(f, op, c))
                  && Laid(f.mem, g.mem, c.to, Window(Source(f, op, w), c.off, c.size)))
  {
    hide Step, KindOf, GasCost, CopyTurn, Rent, Laid, Window, Pop;
    var op := f.code[f.pc];
    CopyKinds(op);
    var flat := if op == 0x3c then 700 else 3;
    StepIsLocal(m, f, w, flat);
    var c := CopyingOf(f, op);
    RentGrows(|f.mem|, Reach(|f.mem|, c.to, c.size));
    if f.gas >= flat { CopyTurnMeans(f.(gas := f.gas - flat), KindOf(op).src, w, Source(f, op, w)); }
  }

  /** MCOPY: the bytes are read before any is written, so the windows may overlap. */
  lemma McopyMeans(m: Machine, f: Frame, w: World)
    requires f.pc < |f.code| && f.code[f.pc] == 0x5e && |f.stack| >= 3
    ensures var r, to, off, size := Step(m, f, w), Arg(f, 0), Arg(f, 1), Arg(f, 2);
            var end := Reach(Reach(|f.mem|, to, size), off, size);
            var cost := 3 + 3 * WordCount(size) + Rent(end) - Rent(|f.mem|);
            && (r.Ok? <==> Fits(to, size) && Fits(off, size) && f.gas >= cost)
            && (r.Ok? ==>
                  var g := r.value.0.frame;
                  && r.value.0.Next? && r.value.1 == w && |g.mem| == end
                  && g == f.(pc := f.pc + 1, stack := Below(f, 3), gas := f.gas - cost, mem := g.mem)
                  && Laid(f.mem, g.mem, to, Window(f.mem, off, size)))
  {
    hide Step, ChargeMem, Pop, Rent, Overwrite, Laid;
    assert KindOf(0x5e) == Copy(Memory) && GasCost(0x5e) == 3;
    StepIsLocal(m, f, w, 3);
    var to, off, size := Arg(f, 0), Arg(f, 1), Arg(f, 2);
    RentGrows(|f.mem|, Reach(|f.mem|, to, size));
    RentGrows(Reach(|f.mem|, to, size), Reach(Reach(|f.mem|, to, size), off, size));
    if f.gas >= 3 { McopyTurnMeans(f.(gas := f.gas - 3), w); }
  }

  lemma McopyTurnMeans(f: Frame, w: World)
    requires |f.stack| >= 3
    ensures var r, to, off, size := CopyTurn(f, Memory, w.accounts), Arg(f, 0), Arg(f, 1), Arg(f, 2);
            var end := Reach(Reach(|f.mem|, to, size), off, size);
            var cost := 3 * WordCount(size) + Rent(end) - Rent(|f.mem|);
            && (r.Ok? <==> Fits(to, size) && Fits(off, size) && f.gas >= cost)
            && (r.Ok? ==>
                  var g := r.value.frame;
                  && r.value.Next? && |g.mem| == end
                  && g == f.(pc := f.pc + 1, stack := Below(f, 3), gas := f.gas - cost, mem := g.mem)
                  && Laid(f.mem, g.mem, to, Window(f.mem, off, size)))
  {
    hide ChargeMem, Pop, Rent, Overwrite, Laid;
    var to, off, size := Arg(f, 0), Arg(f, 1), Arg(f, 2);
    Popping(f, 3);
    var g := Pop(f, 3).value.1;
    Touching(g, to, size);
    var h := ChargeMem(g, to, size);
    RentGrows(Reach(|f.mem|, to, size), Reach(Reach(|f.mem|, to, size), off, size));
    if h.Ok? {
      Touching(h.value, off, size);
      var k := ChargeMem(h.value, off, size);
      if k.Ok? {
        forall i | 0 <= i < size ensures Window(k.value.mem, off, size)[i] == Window(f.mem, off, size)[i] {
          assert ByteAt(k.value.mem, off + i) == ByteAt(h.value.mem, off + i) == ByteAt(f.mem, off + i);
        }
        assert Window(k.value.mem, off, size) == Window(f.mem, off, size);
        Laying(f.mem, k.value.mem, |k.value.mem|, to, Window(f.mem, off, size));
      }
    }
  }

  // ----- stack and flow -----

  /** PUSH1 to PUSH32: the number spelt by the bytes that follow, zeros beyond the end of the code. */
  lemma PushMeans(m: Machine, f: Frame, w: World, n: nat)
    requires f.pc < |f.code| && 1 <= n <= 32 && f.code[f.pc] == 0x5f + n && |f.stack| <= 1024
    ensures var r := Step(m, f, w);
            && (r.Ok? <==> f.gas >= 3 && |f.stack| < 1024)
            && (r.Ok? ==>
                  var g := r.value.0.frame;
                  && r.value.0.Next? && r.value.1 == w && |g.stack| == |f.stack| + 1 && Arg(g, 0) < TWO_256
                  && g == f.(pc := f.pc + 1 + n, gas := f.gas - 3, stack := f.stack + [Arg(g, 0)])
                  && forall k :: 0 <= k < 32 ==>
                       Digit(Arg(g, 0), k) == if k < n then ByteAt(f.code, f.pc + n - k) else 0)
  {
    hide Step, FromBytes, Digit, Power256, KindOf, GasCost;
    PushKinds(n);
    StepIsLocal(m, f, w, 3);
    var b := Window(f.code, f.pc + 1, n);
    FromBytesBound(b);
    WordSize();
    PowerGrows(n, 32);
    SmallWord(FromBytes(b));
    forall k | 0 <= k < 32 ensures Digit(FromBytes(b), k) == if k < n then ByteAt(f.code, f.pc + n - k) else 0 {
      if k < n { FromBytesDigits(b, n - 1 - k); } else { HighDigit(FromBytes(b), n, k); }
    }
  }

  lemma PushKinds(n: nat)
    requires 1 <= n <= 32
    ensures KindOf(0x5f + n) == Kind.Push(n) && GasCost(0x5f + n) == 3
  {
  }

  /** JUMP: to a JUMPDEST of the linear decode, or a fault. */
  lemma JumpMeans(m: Machine, f: Frame, w: World)
    requires f.pc < |f.code| && f.code[f.pc] == 0x56 && |f.stack| >= 1
    ensures var r, to := Step(m, f, w), Arg(f, 0);
            && (r.Ok? <==> f.gas >= 8 && to < TWO_64 && ValidDest(f.code, to))
            && (r.Ok? ==> r.value == (Turn.Next(f.(pc := to, gas := f.gas - 8, stack := Below(f, 1))), w))
  {
    hide Step, ValidDest, Pop;
    assert KindOf(0x56) == Jump && GasCost(0x56) == 8;
    StepIsLocal(m, f, w, 8);
    if f.gas >= 8 { Popping(f.(gas := f.gas - 8), 1); }
  }

  /** JUMPI: jumps if the second operand is not zero, and goes on if it is. */
  lemma JumpiMeans(m: Machine, f: Frame, w: World)
    requires f.pc < |f.code| && f.code[f.pc] == 0x57 && |f.stack| >= 2
    ensures var r, to, taken := Step(m, f, w), Arg(f, 0), Arg(f, 1) != 0;
            && (r.Ok? <==> f.gas >= 10 && (taken ==> to < TWO_64 && ValidDest(f.code, to)))
            && (r.Ok? ==> r.value == (Turn.Next(f.(pc := if taken then to else f.pc + 1, gas := f.gas - 10,
                                                   stack := Below(f, 2))), w))
  {
    hide Step, ValidDest, Pop;
    assert KindOf(0x57) == JumpIf && GasCost(0x57) == 10;
    StepIsLocal(m, f, w, 10);
    if f.gas >= 10 { Popping(f.(gas := f.gas - 10), 2); }
  }

  /** An opcode that only computes: its operands in order, its word on the stack. */
  lemma ComputeMeans(m: Machine, f: Frame, w: World, n: nat)
    requires f.pc < |f.code| && KindOf(f.code[f.pc]) == Compute(n) && n <= |f.stack| < 1024 + n
    requires f.gas >= GasCost(f.code[f.pc])
    ensures var g, op := f.(gas := f.gas - GasCost(f.code[f.pc])), f.code[f.pc];
            var args := seq(n, i requires 0 <= i < n => Arg(f, i));
            Step(m, f, w) == Ok((Turn.Next(g.(pc := f.pc + 1,
                                              stack := Below(f, n) + [m.read(op, args, g, w.accounts) % TWO_256])), w))
  {
    hide Step, KindOf, GasCost, Pop;
    StepIsLocal(m, f, w, GasCost(f.code[f.pc]));
    var g := f.(gas := f.gas - GasCost(f.code[f.pc]));
    Popping(g, n);
    assert Pop(g, n).value.0 == seq(n, i requires 0 <= i < n => Arg(f, i));
  }

  // ----- the end of a frame -----

  /** STOP, RETURN and REVERT, and any fault, end the frame: with what output, gas and world. */
  lemma HaltMeans(m: Machine, f: Frame, w: World)
    requires f.pc < |f.code| && f.code[f.pc] in [0xf3, 0xfd] && |f.stack| >= 2
    ensures var o, off, size := Run(m, f, w), Arg(f, 0), Arg(f, 1);
            if Fits(off, size) && f.gas >= Touch(f, off, size) then
              && (f.code[f.pc] == 0xf3 ==> o.Done? && o.world == w) && (f.code[f.pc] == 0xfd ==> o.Reverted?)
              && o.gas == f.gas - Touch(f, off, size) && |o.ret| == size
              && forall i :: 0 <= i < size ==> o.ret[i] == ByteAt(f.mem, off + i)
            else o.Fault?
  {
    hide Step, ChargeMem, Pop, Rent;
    assert KindOf(0xf3) == Return && KindOf(0xfd) == Kind.Revert && GasCost(0xf3) == 0 && GasCost(0xfd) == 0;
    StepIsLocal(m, f, w, 0);
    var f1 := f.(gas := f.gas - 0);
    Popping(f1, 2);
    Touching(Pop(f1, 2).value.1, Arg(f, 0), Arg(f, 1));
  }

  /** STOP, or running off the end, completes with no output; a step that faults faults the frame. */
  lemma StopMeans(m: Machine, f: Frame, w: World)
    ensures f.pc >= |f.code| || f.code[f.pc] == 0 ==> Run(m, f, w) == Done([], f.gas, f.steps, w)
    ensures f.pc < |f.code| && Step(m, f, w).Bad? ==> Run(m, f, w) == Fault(Step(m, f, w).err, f.steps)
  {
    hide Step;
    if f.pc < |f.code| && f.code[f.pc] == 0 {
      assert KindOf(0) == Stop && GasCost(0) == 0;
      StepIsLocal(m, f, w, 0);
      assert f.(gas := f.gas - 0) == f;
    }
  }

  // ----- prices -----

  lemma {:induction false} ByteLenExact(v: nat)
    ensures v < Power256(ByteLen(v)) && (v > 0 ==> ByteLen(v) > 0 && Power256(ByteLen(v) - 1) <= v)
  {
    if v > 0 { ByteLenExact(v / 256); }
  }

  /** EXP: 10, and 50 for each byte of the exponent. */
  lemma ExpMeans(m: Machine, f: Frame, w: World)
    requires f.pc < |f.code| && f.code[f.pc] == 0x0a && 2 <= |f.stack| <= 1024
    ensures var r, cost := Step(m, f, w), 10 + 50 * ByteLen(Arg(f, 1));
            && (r.Ok? <==> f.gas >= cost)
            && (r.Ok? ==>
                  var g := r.value.0.frame;
                  && r.value.0.Next? && r.value.1 == w && g.pc == f.pc + 1 && g.gas == f.gas - cost
                  && g.stack == Below(f, 2) +
                                [m.read(0x0a, [Arg(f, 0), Arg(f, 1)], f.(gas := f.gas - 10), w.accounts) % TWO_256])
  {
    hide Step, ByteLen, Pop;
    assert KindOf(0x0a) == Exp && GasCost(0x0a) == 10;
    StepIsLocal(m, f, w, 10);
    if f.gas >= 10 {
      var g := f.(gas := f.gas - 10);
      Popping(g, 2);
      assert Pop(g, 2).value.0 == [Arg(f, 0), Arg(f, 1)];
    }
  }

  const QUICK: seq<Byte> := [0x30, 0x32, 0x33, 0x34, 0x36, 0x38, 0x3a, 0x3d, 0x41, 0x42, 0x43, 0x44, 0x45, 0x46, 0x48,
                             0x50, 0x58, 0x59, 0x5a, 0x5f]
  const FASTEST: seq<Byte> := [0x01, 0x03, 0x10, 0x11, 0x12, 0x13, 0x14, 0x15, 0x16, 0x17, 0x18, 0x19, 0x1a, 0x1b, 0x1c,
                               0x1d, 0x35, 0x37, 0x39, 0x3e, 0x51, 0x52, 0x53, 0x5e]
  const FAST: seq<Byte> := [0x02, 0x04, 0x05, 0x06, 0x07, 0x0b, 0x47]
  const FOREIGN: seq<Byte> := [0x31, 0x3b, 0x3c, 0x3f]

  /** The static prices of the Istanbul schedule, by tier. */
  lemma Tiers(op: Byte)
    ensures op in QUICK ==> GasCost(op) == 2
    ensures op in FASTEST || 0x60 <= op <= 0x9f ==> GasCost(op) == 3
    ensures op in FAST ==> GasCost(op) == 5
    ensures op == 0x08 || op == 0x09 || op == 0x56 ==> GasCost(op) == 8
    ensures op == 0x0a || op == 0x57 ==> GasCost(op) == 10
    ensures op in FOREIGN ==> GasCost(op) == 700
    ensures (op == 0x20 ==> GasCost(op) == 30) && (op == 0x40 ==> GasCost(op) == 20)
    ensures (op == 0x54 ==> GasCost(op) == 800) && (op == 0x5b ==> GasCost(op) == 1)
  {
  }
}
