/**
 Contract addresses (state/rlp.go, state/transition.go, vm/call.go). A transaction and the CREATE
 instruction derive them with two separate encoders; both produce the same bytes.
 */
module Creation {
  import opened Types
  import opened Rlp

  /** Strips leading zeros without a bounds check: a non-zero integer always stops the loop. */
  method StripZeros(x: nat) returns (r: seq<Byte>)
    requires 0 < x < TWO_64
    ensures r == Minimal(x)
  {
    var buf := BigEndian(x, 8);
    TrimUint(x);
    var i := 0;
    assert buf[0..] == buf;
    while buf[i] == 0
      invariant i < 8 && Trim(buf[i..]) == Minimal(x)
      decreases 8 - i
    {
      assert buf[i..][1..] == buf[i + 1..];
      i := i + 1;
    }
    return buf[i..];
  }

  method RlpLength(n: nat, offset: Byte) returns (r: seq<Byte>)
    requires n < TWO_63 && offset <= 0xc0
    ensures r == Prefix(n, offset)
  {
    if n < 56 { return [offset + n]; }
    var lb := StripZeros(n);
    EightBytes(n);
    return [offset + 55 + |lb|] + lb;
  }

  method RlpBytes(b: seq<Byte>) returns (r: seq<Byte>)
    requires |b| < TWO_63
    ensures r == Encoded(b, false)
  {
    if |b| == 1 && b[0] < 0x80 { return [b[0]]; }
    var p := RlpLength(|b|, 0x80);
    return p + b;
  }

  method RlpUint(x: nat) returns (r: seq<Byte>)
    requires x < TWO_64
    ensures |Minimal(x)| <= 8 && r == Encoded(Minimal(x), false)
  {
    EightBytes(x);
    if x == 0 {
      r := RlpBytes([]);
    } else {
      var b := StripZeros(x);
      r := RlpBytes(b);
    }
  }

  method RlpList(items: seq<seq<Byte>>) returns (r: seq<Byte>)
    requires |Concat(items)| < TWO_63
    ensures r == Encoded(Concat(items), true)
  {
    var payload := [];
    for i := 0 to |items|
      invariant payload == Concat(items[..i])
    {
      payload := payload + items[i];
      assert items[..i + 1][..i] == items[..i];
    }
    assert items[..|items|] == items;
    var p := RlpLength(|payload|, 0xc0);
    return p + payload;
  }

  function Fields(sender: seq<Byte>, nonce: nat): seq<seq<Byte>> { [sender, Minimal(nonce)] }

  lemma FieldsFit(sender: seq<Byte>, nonce: nat)
    requires |sender| == 20 && nonce < TWO_64
    ensures |Minimal(nonce)| <= 8 && Fits(Fields(sender, nonce)) && |Joined(Fields(sender, nonce))| < 56
    ensures Joined(Fields(sender, nonce)) == Encoded(sender, false) + Encoded(Minimal(nonce), false)
    ensures Concat([Encoded(sender, false), Encoded(Minimal(nonce), false)]) == Joined(Fields(sender, nonce))
  {
    hide Minimal;
    EightBytes(nonce);
    var a, b := Encoded(sender, false), Encoded(Minimal(nonce), false);
    assert Fields(sender, nonce)[1..] == [Minimal(nonce)] && [Minimal(nonce)][1..] == [];
    assert Joined([Minimal(nonce)]) == b + [];
    var one: seq<seq<Byte>> := [a];
    assert [a, b][..1] == one && one[..0] == [];
    assert Concat(one) == [] + a;
  }

  /** The bytes that are hashed. */
  ghost function Preimage(sender: seq<Byte>, nonce: nat): seq<Byte>
    requires |sender| == 20 && nonce < TWO_64
  {
    FieldsFit(sender, nonce);
    Envelope(Fields(sender, nonce))
  }

  ghost predicate Keccak(keccak: seq<Byte> -> seq<Byte>) { forall b :: |keccak(b)| == 32 }

  /** The contract address of a creator and a nonce: the last 20 bytes of the hash of their list. */
  ghost function ContractAddress(keccak: seq<Byte> -> seq<Byte>, sender: seq<Byte>, nonce: nat): seq<Byte>
    requires Keccak(keccak) && |sender| == 20 && nonce < TWO_64
  {
    keccak(Preimage(sender, nonce))[12..]
  }

  /** Used for creation transactions. */
  method CreateAddress(keccak: seq<Byte> -> seq<Byte>, sender: seq<Byte>, nonce: nat) returns (a: seq<Byte>)
    requires Keccak(keccak) && |sender| == 20 && nonce < TWO_64
    ensures a == ContractAddress(keccak, sender, nonce) && |a| == 20
  {
    hide Minimal, Encoded, Concat, Joined;
    FieldsFit(sender, nonce);
    var s := RlpBytes(sender);
    var n := RlpUint(nonce);
    var l := RlpList([s, n]);
    return keccak(l)[12..];
  }

  /** Used by the CREATE instruction. */
  method CreateOpAddress(keccak: seq<Byte> -> seq<Byte>, creator: seq<Byte>, nonce: nat) returns (a: seq<Byte>)
    requires Keccak(keccak) && |creator| == 20 && nonce < TWO_64
    ensures a == ContractAddress(keccak, creator, nonce) && |a| == 20
  {
    hide Minimal, Encoded, Concat, Joined;
    FieldsFit(creator, nonce);
    var s := Bytes(creator);
    var n := Uint(nonce);
    var l := List([s, n]);
    return keccak(l)[12..];
  }

  /** No two pairs of creator and nonce are hashed from the same bytes. */
  lemma PreimagesDiffer(s: seq<Byte>, n: nat, s': seq<Byte>, n': nat)
    requires |s| == |s'| == 20 && n < TWO_64 && n' < TWO_64
    ensures Preimage(s, n) == Preimage(s', n') <==> s == s' && n == n'
  {
    hide Minimal, Joined, Decoded, Encoded;
    FieldsFit(s, n);
    FieldsFit(s', n');
    ShortEnvelope(Fields(s, n));
    if Preimage(s, n) == Preimage(s', n') {
      DecodedIffEncoded(Preimage(s, n), Fields(s, n));
      DecodedIffEncoded(Preimage(s, n), Fields(s', n'));
      assert Fields(s, n)[0] == Fields(s', n')[0] && Fields(s, n)[1] == Fields(s', n')[1];
      MinimalValue(n);
      MinimalValue(n');
    }
  }

  lemma ShortEnvelope(items: seq<seq<Byte>>)
    requires Fits(items) && |Joined(items)| < 56
    ensures |Envelope(items)| < TWO_63
  {
  }

  /** For the first 128 nonces: a list of 22 bytes, a string of 20, and the nonce, zero being the empty string. */
  lemma KnownPreimage(sender: seq<Byte>, nonce: nat)
    requires |sender| == 20 && nonce < 128
    ensures Preimage(sender, nonce) == [0xd6, 0x94] + sender + [if nonce == 0 then 0x80 else nonce]
  {
    hide Joined;
    FieldsFit(sender, nonce);
    assert nonce > 0 ==> Minimal(nonce) == [nonce] by { assert Minimal(0) == []; }
    assert Encoded(sender, false) == [0x94] + sender;
    assert Encoded(Minimal(nonce), false) == [if nonce == 0 then 0x80 else nonce];
    assert [0xd6] + ([0x94] + sender + [if nonce == 0 then 0x80 else nonce]) ==
           [0xd6, 0x94] + sender + [if nonce == 0 then 0x80 else nonce];
  }
}
