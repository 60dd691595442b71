/**
 Recursive Length Prefix (rlp/rlp.go): the encoder, a decoder of untrusted bytes, and the proof
 that they are inverse both ways on lists of byte strings.
 */
module Rlp {
  import opened Types
  import opened Digits

  const TWO_63: nat := 0x8000_0000_0000_0000

  datatype Error = ShortInput | LeadingZero | Trailing | Nested | ExpectList | Canon

  datatype Result<+T> = Ok(value: T) | Err(error: Error)

  /** One parsed item: its content, whether it was a list, and the bytes after it. */
  datatype Item = Item(content: seq<Byte>, isList: bool, rest: seq<Byte>)

  // ----- minimal big-endian integers -----

  /** No leading zeros; zero is the empty string. */
  function Minimal(x: nat): (r: seq<Byte>)
    ensures x > 0 ==> |r| > 0 && r[0] != 0
  {
    if x == 0 then [] else Minimal(x / 256) + [x % 256]
  }

  lemma {:induction false} MinimalValue(x: nat)
    ensures FromBytes(Minimal(x)) == x
  {
    if x > 0 {
      MinimalValue(x / 256);
      assert Minimal(x)[..|Minimal(x)| - 1] == Minimal(x / 256);
    }
  }

  /** Bytes without a leading zero are the minimal form of what they stand for. */
  lemma {:induction false} MinimalUnique(b: seq<Byte>)
    requires b != [] ==> b[0] != 0
    ensures Minimal(FromBytes(b)) == b && (b != [] ==> FromBytes(b) > 0)
    decreases |b|
  {
    if b != [] {
      var front, last := b[..|b| - 1], b[|b| - 1];
      MinimalUnique(front);
      var v := FromBytes(b);
      assert v / 256 == FromBytes(front) && v % 256 == last;
      assert b == front + [last];
    }
  }

  lemma {:induction false} MinimalWidth(x: nat, k: nat, bound: nat)
    requires x < bound && bound == Power256(k)
    ensures |Minimal(x)| <= k
  {
    if x > 0 { MinimalWidth(x / 256, k - 1, Power256(k - 1)); }
  }

  lemma EightBytes(x: nat)
    requires x < TWO_64
    ensures |Minimal(x)| <= 8
  {
    assert Power256(2) == 0x1_0000;
    assert Power256(4) == 0x1_0000_0000;
    assert Power256(6) == 0x1_0000_0000_0000;
    assert Power256(8) == TWO_64;
    MinimalWidth(x, 8, TWO_64);
  }

  // ----- stripping leading zeros -----

  function Trim(b: seq<Byte>): seq<Byte> {
    if b != [] && b[0] == 0 then Trim(b[1..]) else b
  }

  lemma {:induction false} TrimAppend(b: seq<Byte>, last: Byte)
    ensures Trim(b + [last]) == if Trim(b) != [] then Trim(b) + [last] else Trim([last])
  {
    if b == [] {
      assert b + [last] == [last];
    } else if b[0] == 0 {
      TrimAppend(b[1..], last);
      assert (b + [last])[1..] == b[1..] + [last];
    }
  }

  /** Trimming a fixed-width integer gives its minimal form. */
  lemma {:induction false} TrimBigEndian(x: nat, k: nat, bound: nat)
    requires x < bound && bound == Power256(k)
    ensures Trim(BigEndian(x, k)) == Minimal(x)
  {
    if k > 0 {
      TrimBigEndian(x / 256, k - 1, Power256(k - 1));
      TrimAppend(BigEndian(x / 256, k - 1), x % 256);
    }
  }

  lemma TrimUint(x: nat)
    requires x < TWO_64
    ensures Trim(BigEndian(x, 8)) == Minimal(x)
  {
    assert Power256(2) == 0x1_0000;
    assert Power256(4) == 0x1_0000_0000;
    assert Power256(6) == 0x1_0000_0000_0000;
    assert Power256(8) == TWO_64;
    TrimBigEndian(x, 8, TWO_64);
  }

  method TrimLeadingZeros(b: seq<Byte>) returns (r: seq<Byte>)
    ensures r == Trim(b)
  {
    var i := 0;
    while i < |b| && b[i] == 0
      invariant i <= |b| && Trim(b[i..]) == Trim(b)
    {
      assert b[i..][1..] == b[i + 1..];
      i := i + 1;
    }
    return b[i..];
  }

  // ----- encoding: what the bytes are -----

  predicate Small(b: seq<Byte>) { |b| == 1 && b[0] < 0x80 }

  function Prefix(n: nat, offset: Byte): seq<Byte>
    requires n < TWO_64 && offset <= 0xc0
  {
    EightBytes(n);
    if n < 56 then [offset + n] else [offset + 55 + |Minimal(n)|] + Minimal(n)
  }

  function Encoded(content: seq<Byte>, isList: bool): (r: seq<Byte>)
    requires |content| < TWO_64
    ensures |r| >= 1
  {
    if isList then Prefix(|content|, 0xc0) + content
    else if Small(content) then content
    else Prefix(|content|, 0x80) + content
  }

  predicate Sized(items: seq<seq<Byte>>) { forall i :: 0 <= i < |items| ==> |items[i]| < TWO_63 }

  /** The encoded items one after another. */
  function Joined(items: seq<seq<Byte>>): seq<Byte>
    requires Sized(items)
  {
    if items == [] then [] else Encoded(items[0], false) + Joined(items[1..])
  }

  ghost predicate Fits(items: seq<seq<Byte>>) { Sized(items) && |Joined(items)| < TWO_63 }

  function Envelope(items: seq<seq<Byte>>): seq<Byte>
    requires Fits(items)
  {
    Encoded(Joined(items), true)
  }

  // ----- encoding: how they are made -----

  method LengthPrefix(n: nat, offset: Byte) returns (r: seq<Byte>)
    requires n < TWO_63 && offset <= 0xc0
    ensures r == Prefix(n, offset)
  {
    if n < 56 { return [offset + n]; }
    var lb := TrimLeadingZeros(BigEndian(n, 8));
    TrimUint(n);
    EightBytes(n);
    return [offset + 55 + |lb|] + lb;
  }

  method Bytes(b: seq<Byte>) returns (r: seq<Byte>)
    requires |b| < TWO_63
    ensures r == Encoded(b, false)
  {
    if |b| == 1 && b[0] < 0x80 { return [b[0]]; }
    var p := LengthPrefix(|b|, 0x80);
    return p + b;
  }

  method Uint(x: nat) returns (r: seq<Byte>)
    requires x < TWO_64
    ensures |Minimal(x)| <= 8 && r == Encoded(Minimal(x), false)
  {
    var t := TrimLeadingZeros(BigEndian(x, 8));
    TrimUint(x);
    EightBytes(x);
    r := Bytes(t);
  }

  function Concat(parts: seq<seq<Byte>>): seq<Byte> {
    if parts == [] then [] else Concat(parts[..|parts| - 1]) + parts[|parts| - 1]
  }

  method List(items: seq<seq<Byte>>) returns (r: seq<Byte>)
    requires |Concat(items)| < TWO_63
    ensures r == Encoded(Concat(items), true)
  {
    var payload := [];
    for i := 0 to |items|
      invariant payload == Concat(items[..i])
    {
      payload := payload + items[i];
      assert items[..i + 1][..i] == items[..i];
    }
    assert items[..|items|] == items;
    var p := LengthPrefix(|payload|, 0xc0);
    return p + payload;
  }

  function Parts(items: seq<seq<Byte>>): (r: seq<seq<Byte>>)
    requires Sized(items)
    ensures |r| == |items| && forall i :: 0 <= i < |r| ==> r[i] == Encoded(items[i], false)
  {
    seq(|items|, i requires 0 <= i < |items| => Encoded(items[i], false))
  }

  lemma {:induction false} JoinedAppend(items: seq<seq<Byte>>, last: seq<Byte>)
    requires Sized(items) && |last| < TWO_63
    ensures Joined(items + [last]) == Joined(items) + Encoded(last, false)
  {
    hide Encoded;
    if items == [] {
      assert items + [last] == [last] && [last][1..] == [];
    } else {
      JoinedAppend(items[1..], last);
      assert (items + [last])[1..] == items[1..] + [last];
    }
  }

  /** Encoding each string and wrapping the results in a list gives the envelope. */
  lemma {:induction false} ListOfBytes(items: seq<seq<Byte>>)
    requires Sized(items)
    ensures Concat(Parts(items)) == Joined(items)
  {
    hide Encoded;
    if items != [] {
      var front, last := items[..|items| - 1], items[|items| - 1];
      ListOfBytes(front);
      JoinedAppend(front, last);
      assert items == front + [last] && Parts(items)[..|front|] == Parts(front);
    }
  }

  // ----- decoding -----

  function Length(data: seq<Byte>, nLen: nat): (r: Result<nat>)
    requires 1 <= nLen <= 8
    ensures r.Ok? ==> 1 + nLen + r.value <= |data|
  {
    if |data| < 1 + nLen then Err(ShortInput)
    else if data[1] == 0 then Err(LeadingZero)
    else
      var n := FromBytes(data[1..1 + nLen]);
      if n < 56 then Err(Canon)
      else if n > |data| - (1 + nLen) then Err(ShortInput)
      else Ok(n)
  }

  /** The accumulator is a uint64 and never overflows: at most eight bytes are shifted in. */
  method ReadLen(data: seq<Byte>, nLen: nat) returns (r: Result<nat>)
    requires 1 <= nLen <= 8
    ensures r == Length(data, nLen)
  {
    if |data| < 1 + nLen { return Err(ShortInput); }
    var lb := data[1..1 + nLen];
    if lb[0] == 0 { return Err(LeadingZero); }
    var n := 0;
    for i := 0 to |lb|
      invariant n == FromBytes(lb[..i]) < Power256(i)
    {
      n := n * 256 + lb[i];
      assert lb[..i + 1][..i] == lb[..i];
    }
    assert lb[..|lb|] == lb;
    if n < 56 { return Err(Canon); }
    if n > |data| - (1 + nLen) { return Err(ShortInput); }
    return Ok(n);
  }

  function Cut(data: seq<Byte>, start: nat, n: nat, isList: bool): (r: Result<Item>)
    ensures r.Ok? ==> |r.value.rest| + start <= |data|
  {
    if |data| < start + n then Err(ShortInput) else Ok(Item(data[start..start + n], isList, data[start + n..]))
  }

  /** Every slice is guarded, so no input reads out of bounds. */
  function ReadItem(data: seq<Byte>): (r: Result<Item>)
    ensures r.Ok? ==> |r.value.rest| < |data|
  {
    if data == [] then Err(ShortInput)
    else
      var b := data[0];
      if b < 0x80 then Ok(Item(data[..1], false, data[1..]))
      else if b < 0xb8 then
        var r := Cut(data, 1, b - 0x80, false);
        if r.Ok? && Small(r.value.content) then Err(Canon) else r
      else if b < 0xc0 then
        var n := Length(data, b - 0xb7);
        if n.Err? then Err(n.error) else Cut(data, 1 + (b - 0xb7), n.value, false)
      else if b < 0xf8 then Cut(data, 1, b - 0xc0, true)
      else
        var n := Length(data, b - 0xf7);
        if n.Err? then Err(n.error) else Cut(data, 1 + (b - 0xf7), n.value, true)
  }

  function Strings(payload: seq<Byte>): Result<seq<seq<Byte>>>
    decreases |payload|
  {
    if payload == [] then Ok([])
    else
      var r := ReadItem(payload);
      if r.Err? then Err(r.error)
      else if r.value.isList then Err(Nested)
      else
        var more := Strings(r.value.rest);
        if more.Err? then more else Ok([r.value.content] + more.value)
  }

  function Decoded(data: seq<Byte>): Result<seq<seq<Byte>>> {
    var r := ReadItem(data);
    if r.Err? then Err(r.error)
    else if !r.value.isList then Err(ExpectList)
    else if r.value.rest != [] then Err(Trailing)
    else Strings(r.value.content)
  }

  method DecodeList(data: seq<Byte>) returns (r: Result<seq<seq<Byte>>>)
    ensures r == Decoded(data)
  {
    hide ReadItem;
    var top := ReadItem(data);
    if top.Err? { return Err(top.error); }
    if !top.value.isList { return Err(ExpectList); }
    if top.value.rest != [] { return Err(Trailing); }
    var payload, out := top.value.content, [];
    assert Strings(payload).Ok? ==> out + Strings(payload).value == Strings(payload).value;
    while payload != []
      invariant Decoded(data) == var more := Strings(payload); if more.Err? then more else Ok(out + more.value)
      decreases |payload|
    {
      var it := ReadItem(payload);
      if it.Err? { return Err(it.error); }
      if it.value.isList { return Err(Nested); }
      ghost var more := Strings(it.value.rest);
      assert more.Ok? ==> out + ([it.value.content] + more.value) == out + [it.value.content] + more.value;
      out := out + [it.value.content];
      payload := it.value.rest;
    }
    assert out + [] == out;
    return Ok(out);
  }

  // ----- inverse both ways -----

  lemma CutJoined(head: seq<Byte>, content: seq<Byte>, rest: seq<Byte>, isList: bool)
    ensures Cut(head + content + rest, |head|, |content|, isList) == Ok(Item(content, isList, rest))
  {
    var data := head + content + rest;
    assert data[|head|..|head| + |content|] == content;
    assert data[|head| + |content|..] == rest;
  }

  lemma CutSplits(data: seq<Byte>, start: nat, n: nat, isList: bool)
    requires Cut(data, start, n, isList).Ok?
    ensures var it := Cut(data, start, n, isList).value;
            it.isList == isList && |it.content| == n && data == data[..start] + it.content + it.rest
  {
  }

  lemma LengthReadsBack(n: nat, offset: Byte, tail: seq<Byte>)
    requires 56 <= n < TWO_63 && n <= |tail| && offset <= 0xc0
    ensures 1 <= |Minimal(n)| <= 8 && Length(Prefix(n, offset) + tail, |Minimal(n)|) == Ok(n)
  {
    hide Minimal, FromBytes;
    EightBytes(n);
    MinimalValue(n);
    var m := Minimal(n);
    var data := [offset + 55 + |m|] + m + tail;
    assert data[1..1 + |m|] == m;
  }

  lemma LengthWasWritten(data: seq<Byte>, nLen: nat, offset: Byte)
    requires 1 <= nLen <= 8 && |data| < TWO_63 && Length(data, nLen).Ok? && offset <= 0xc0
    requires data[0] == offset + 55 + nLen
    ensures data[..1 + nLen] == Prefix(Length(data, nLen).value, offset)
  {
    hide Minimal, FromBytes;
    MinimalUnique(data[1..1 + nLen]);
    assert data[..1 + nLen] == [data[0]] + data[1..1 + nLen];
  }

  /** Reading what was written: the item comes back, whatever follows it. */
  lemma ItemReadsBack(content: seq<Byte>, isList: bool, rest: seq<Byte>)
    requires |content| < TWO_63
    ensures ReadItem(Encoded(content, isList) + rest) == Ok(Item(content, isList, rest))
  {
    hide Minimal, Length, Cut;
    var data := Encoded(content, isList) + rest;
    if !isList && Small(content) {
      assert data[..1] == content && data[1..] == rest;
    } else {
      var offset: Byte := if isList then 0xc0 else 0x80;
      var head := Prefix(|content|, offset);
      CutJoined(head, content, rest, isList);
      assert data == head + (content + rest);
      if |content| >= 56 {
        LengthReadsBack(|content|, offset, content + rest);
      }
    }
  }

  /** Whatever is read re-encodes to the bytes it was read from. */
  lemma ItemWasWritten(data: seq<Byte>)
    requires |data| < TWO_63 && ReadItem(data).Ok?
    ensures var it := ReadItem(data).value; |it.content| < TWO_63 && Encoded(it.content, it.isList) + it.rest == data
  {
    hide Minimal, Length, Cut;
    var b := data[0];
    if b < 0x80 {
      assert data == data[..1] + data[1..];
    } else {
      var isList := b >= 0xc0;
      var offset: Byte := if isList then 0xc0 else 0x80;
      if b < offset + 56 {
        CutSplits(data, 1, b - offset, isList);
        assert data[..1] == [b];
      } else {
        var k := b - offset - 55;
        var n := Length(data, k).value;
        LongLength(data, k);
        CutSplits(data, 1 + k, n, isList);
        LengthWasWritten(data, k, offset);
      }
    }
  }

  lemma LongLength(data: seq<Byte>, nLen: nat)
    requires 1 <= nLen <= 8
    ensures Length(data, nLen).Ok? ==> Length(data, nLen).value >= 56
  {
  }

  lemma {:induction false} StringsReadBack(items: seq<seq<Byte>>)
    requires Sized(items)
    ensures Strings(Joined(items)) == Ok(items)
  {
    hide ReadItem, Encoded;
    if items != [] {
      ItemReadsBack(items[0], false, Joined(items[1..]));
      StringsReadBack(items[1..]);
      assert [items[0]] + items[1..] == items;
    }
  }

  lemma {:induction false} StringsWereWritten(payload: seq<Byte>)
    requires |payload| < TWO_63 && Strings(payload).Ok?
    ensures var items := Strings(payload).value; Sized(items) && Joined(items) == payload
    decreases |payload|
  {
    hide ReadItem, Encoded;
    if payload != [] {
      ItemWasWritten(payload);
      var it := ReadItem(payload).value;
      StringsWereWritten(it.rest);
      assert ([it.content] + Strings(it.rest).value)[1..] == Strings(it.rest).value;
    }
  }

  /** An input decodes to a list exactly when it is that list's encoding. */
  lemma DecodedIffEncoded(data: seq<Byte>, items: seq<seq<Byte>>)
    requires |data| < TWO_63 && Fits(items)
    ensures Decoded(data) == Ok(items) <==> data == Envelope(items)
  {
    hide ReadItem, Encoded, Strings, Joined;
    if data == Envelope(items) {
      assert data + [] == data;
      ItemReadsBack(Joined(items), true, []);
      StringsReadBack(items);
    }
    if Decoded(data) == Ok(items) {
      ItemWasWritten(data);
      var it := ReadItem(data).value;
      StringsWereWritten(it.content);
      assert Encoded(it.content, true) + [] == Encoded(it.content, true);
    }
  }

  /** Every accepted input is the encoding of something: there is no second form. */
  lemma AcceptedIsCanonical(data: seq<Byte>)
    requires |data| < TWO_63 && Decoded(data).Ok?
    ensures Fits(Decoded(data).value) && data == Envelope(Decoded(data).value)
  {
    hide ReadItem, Encoded, Strings, Joined;
    ItemWasWritten(data);
    var it := ReadItem(data).value;
    StringsWereWritten(it.content);
    assert Encoded(it.content, true) + [] == Encoded(it.content, true);
  }

  /** The first examples of the RLP specification, and the first length that takes a byte of its own. */
  lemma KnownEncodings(long: seq<Byte>)
    requires |long| == 56
    ensures Encoded([], false) == [0x80] && Encoded([], true) == [0xc0] && Encoded([0x0f], false) == [0x0f]
    ensures Encoded([0x64, 0x6f, 0x67], false) == [0x83, 0x64, 0x6f, 0x67]
    ensures Encoded([0x80], false) == [0x81, 0x80]
    ensures Encoded(long, false) == [0xb8, 56] + long && Encoded(long, true) == [0xf8, 56] + long
  {
    assert Minimal(0) == [] && Minimal(56) == [56];
    assert Encoded([], false) == [0x80] + [] && Encoded([], true) == [0xc0] + [];
    assert Encoded([0x64, 0x6f, 0x67], false) == [0x83] + [0x64, 0x6f, 0x67];
    assert Encoded([0x80], false) == [0x81] + [0x80];
    assert [0xb8] + [56] + long == [0xb8, 56] + long && [0xf8] + [56] + long == [0xf8, 56] + long;
  }
}
