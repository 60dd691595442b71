/** Numbers in base 256, the way bytes spell them. */
module Digits {
  import opened Types

  function Power256(k: nat): (p: nat)
    ensures p > 0
  {
    if k == 0 then 1 else 256 * Power256(k - 1)
  }

  /** Digit k of a number in base 256, the lowest being digit 0. */
  function Digit(v: nat, k: nat): (d: Byte) { v / Power256(k) % 256 }

  lemma DigitShift(v: nat, k: nat)
    ensures Digit(v / 256, k) == Digit(v, k + 1)
  {
    var p := Power256(k);
    assert v / 256 / p == v / (256 * p) by { NestedDiv(v, 256, p); }
  }

  lemma NestedDiv(v: nat, a: nat, b: nat)
    requires a > 0 && b > 0
    ensures v / a / b == v / (a * b)
  {
    var t, s := v / a, v % a;
    assert v == t * a + s;
    var q, r := t / b, t % b;
    assert t == q * b + r;
    TwoSteps(v, a, b, t, s, q, r);
  }

  lemma TwoSteps(v: nat, a: nat, b: nat, t: nat, s: nat, q: nat, r: nat)
    requires v == t * a + s && t == q * b + r && s < a && r < b
    ensures a * b > 0 && v / (a * b) == q
  {
    Regroup(q, b, r, a, s);
    Within(r, b, a, s);
    Quotient(v, a * b, q, r * a + s);
  }

  lemma Regroup(q: nat, b: nat, r: nat, a: nat, s: nat)
    ensures (q * b + r) * a + s == q * (a * b) + (r * a + s)
  {
    assert (q * b + r) * a == (q * b) * a + r * a;
    assert (q * b) * a == q * (a * b);
  }

  lemma Within(r: nat, b: nat, a: nat, s: nat)
    requires r < b && s < a
    ensures a * b > 0 && r * a + s < a * b
  {
    assert (r + 1) * a <= b * a;
  }

  lemma Quotient(v: nat, d: nat, q: nat, r: nat)
    requires d > 0 && v == q * d + r && r < d
    ensures v / d == q && v % d == r
  {
    var p, s := v / d, v % d;
    assert v == p * d + s;
    assert p < q ==> (p + 1) * d <= q * d;
    assert q < p ==> (q + 1) * d <= p * d;
  }

  /** The remainder by 256 * p, from the remainders of its two steps. */
  lemma NestedMod(v: nat, p: nat)
    requires p > 0
    ensures v % (256 * p) == (v / 256 % p) * 256 + v % 256
  {
    var q, r := v / 256 / p, v / 256 % p;
    assert v / 256 == q * p + r;
    assert v == (q * p + r) * 256 + v % 256;
    assert v == q * (256 * p) + (r * 256 + v % 256);
    assert r * 256 + v % 256 < 256 * p;
    Quotient(v, 256 * p, q, r * 256 + v % 256);
  }

  /** Most significant byte first. */
  lemma {:induction false} BigEndianDigits(v: nat, n: nat, i: nat)
    requires i < n
    ensures BigEndian(v, n)[i] == Digit(v, n - 1 - i)
  {
    if i < n - 1 {
      BigEndianDigits(v / 256, n - 1, i);
      DigitShift(v, n - 2 - i);
    }
  }

  lemma {:induction false} FromBytesDigits(b: seq<Byte>, i: nat)
    requires i < |b|
    ensures Digit(FromBytes(b), |b| - 1 - i) == b[i]
  {
    var n := |b| - 1;
    var v := FromBytes(b);
    assert v / 256 == FromBytes(b[..n]) && v % 256 == b[n];
    if i < n {
      FromBytesDigits(b[..n], i);
      DigitShift(v, n - 1 - i);
    }
  }

  lemma {:induction false} FromBytesBound(b: seq<Byte>)
    ensures FromBytes(b) < Power256(|b|)
  {
    if b != [] { FromBytesBound(b[..|b| - 1]); }
  }

  lemma WordSize()
    ensures Power256(32) == TWO_256
  {
    assert Power256(4) == 0x1_0000_0000;
    assert Power256(8) == 0x1_0000_0000_0000_0000;
    PowAdds(8, 8);
    PowAdds(16, 16);
    assert Power256(16) == 0x1_0000_0000_0000_0000_0000_0000_0000_0000;
  }

  lemma {:induction false} PowAdds(a: nat, b: nat)
    ensures Power256(a + b) == Power256(a) * Power256(b)
  {
    if a > 0 {
      PowAdds(a - 1, b);
      assert Power256(a + b) == 256 * Power256(a - 1 + b);
      assert 256 * (Power256(a - 1) * Power256(b)) == (256 * Power256(a - 1)) * Power256(b);
    }
  }

  /** The bytes of a word, read back, are the word reduced to their number. */
  lemma {:induction false} BytesReadBack(v: nat, n: nat)
    ensures FromBytes(BigEndian(v, n)) == v % Power256(n)
  {
    if n > 0 {
      BytesReadBack(v / 256, n - 1);
      NestedMod(v, Power256(n - 1));
      var b := BigEndian(v, n);
      assert b[..n - 1] == BigEndian(v / 256, n - 1);
      hide Power256;
    } else {
      assert v % 1 == 0;
    }
  }

  lemma {:induction false} PowerGrows(a: nat, b: nat)
    requires a <= b
    ensures Power256(a) <= Power256(b)
  {
    if a < b { PowerGrows(a, b - 1); }
  }

  lemma HighDigit(v: nat, n: nat, k: nat)
    requires v < Power256(n) && n <= k
    ensures Digit(v, k) == 0
  {
    PowerGrows(n, k);
    Quotient(v, Power256(k), 0, v);
  }
}
