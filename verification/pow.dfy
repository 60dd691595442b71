/**
 Difficulty retargeting (core/pow.go): a linearly weighted average of the recent solvetimes.
 */
module Pow {
  import opened Types

  const MIN_DIFFICULTY: nat := 1
  const TARGET_BLOCK_TIME: nat := 240_000
  const LWMA_WINDOW: nat := 45
  const MAX_DIFFICULTY: nat := TWO_64 - 1

  /** What retargeting reads of a header. */
  datatype Tick = Tick(timestamp: int, difficulty: nat)

  // ----- the target -----

  /** The ceiling a block's hash must not exceed. */
  function PowTarget(difficulty: nat): nat {
    (TWO_256 - 1) / (if difficulty == 0 then 1 else difficulty)
  }

  lemma HarderMeansLower(a: nat, b: nat)
    requires a <= b
    ensures PowTarget(b) <= PowTarget(a)
  {
    var x, p, q := TWO_256 - 1, if a == 0 then 1 else a, if b == 0 then 1 else b;
    DivAntitone(x, p, q);
  }

  // ----- the weighted sum -----

  /** Time i as the retarget sees it: at least one later than the one before. */
  function Seen(window: seq<Tick>, i: nat): int
    requires i < |window|
  {
    if i == 0 then window[0].timestamp
    else
      var prev := Seen(window, i - 1);
      if window[i].timestamp <= prev then prev + 1 else window[i].timestamp
  }

  /** Solvetime i, clamped to 1 .. 6T. */
  function Solvetime(window: seq<Tick>, i: nat): (st: nat)
    requires 0 < i < |window|
    ensures 1 <= st <= 6 * TARGET_BLOCK_TIME
  {
    var st := Seen(window, i) - Seen(window, i - 1);
    if st > 6 * TARGET_BLOCK_TIME then 6 * TARGET_BLOCK_TIME else st
  }

  /** Recent solvetimes weigh more: sum of i * solvetime i. */
  function Weighted(window: seq<Tick>, n: nat): nat
    requires n < |window|
  {
    if n == 0 then 0 else Weighted(window, n - 1) + n * Solvetime(window, n)
  }

  function SumDifficulty(window: seq<Tick>, n: nat): nat
    requires n < |window|
  {
    if n == 0 then 0 else SumDifficulty(window, n - 1) + window[n].difficulty
  }

  function AverageDifficulty(window: seq<Tick>): nat
    requires |window| >= 2
  {
    var n := |window| - 1;
    DivNonneg(SumDifficulty(window, n), n);
    SumDifficulty(window, n) / n
  }

  /** The least weighted sum that counts: it bounds how far difficulty can jump up. */
  function Floor(n: nat): nat { n * n * TARGET_BLOCK_TIME / 20 }

  function Divisor(window: seq<Tick>): (l: nat)
    requires |window| >= 2
    ensures l > 0
  {
    var n := |window| - 1;
    assert Solvetime(window, n) >= 1;
    assert n * Solvetime(window, n) >= 1;
    var l := Weighted(window, n);
    if l < Floor(n) then Floor(n) else l
  }

  /** avgD * N(N+1)T * 99 / (200 L). */
  function NextDifficulty(avgD: nat, n: nat, l: nat): nat
    requires l > 0
  {
    DivNonneg(avgD * (n * (n + 1) * TARGET_BLOCK_TIME * 99), 200 * l);
    avgD * (n * (n + 1) * TARGET_BLOCK_TIME * 99) / (200 * l)
  }

  /** The retargeted difficulty before the clamp to the header field. */
  function Raw(window: seq<Tick>): nat
    requires |window| >= 2
  {
    NextDifficulty(AverageDifficulty(window), |window| - 1, Divisor(window))
  }

  function Clamp(d: nat): nat {
    if d > MAX_DIFFICULTY then MAX_DIFFICULTY else if d < MIN_DIFFICULTY then MIN_DIFFICULTY else d
  }

  method LwmaDifficulty(window: seq<Tick>) returns (d: nat)
    requires |window| >= 2
    ensures d == Clamp(Raw(window)) && MIN_DIFFICULTY <= d <= MAX_DIFFICULTY
  {
    hide NextDifficulty;
    var n := |window| - 1;
    var l, sumD := 0, 0;
    var prev := window[0].timestamp;
    for i := 1 to n + 1
      invariant prev == Seen(window, i - 1) && l == Weighted(window, i - 1) && sumD == SumDifficulty(window, i - 1)
    {
      var ts := window[i].timestamp;
      if ts <= prev {
        ts := prev + 1;
      }
      var st := ts - prev;
      if st > 6 * TARGET_BLOCK_TIME {
        st := 6 * TARGET_BLOCK_TIME;
      }
      l := l + i * st;
      prev := ts;
      sumD := sumD + window[i].difficulty;
    }
    var minL := Floor(n);
    if l < minL {
      l := minL;
    }
    var avgD := sumD / n;
    var next := NextDifficulty(avgD, n, l);
    d := if next > MAX_DIFFICULTY then MAX_DIFFICULTY else next;
    if d < MIN_DIFFICULTY {
      d := MIN_DIFFICULTY;
    }
  }

  // ----- division -----

  lemma DivNonneg(x: nat, a: nat)
    requires a > 0
    ensures x / a >= 0
  {
  }

  /** q is x / a exactly when a * q <= x < a * (q + 1). */
  lemma DivBounds(x: nat, a: nat, q: nat)
    requires a > 0 && a * q <= x < a * (q + 1)
    ensures x / a == q
  {
    var r := x - a * q;
    assert x == a * q + r && 0 <= r < a;
    var p := x / a;
    assert x == a * p + x % a;
    assert p < q ==> a * (p + 1) <= a * q;
    assert p > q ==> a * (q + 1) <= a * p;
  }

  lemma DivAntitone(x: nat, a: nat, b: nat)
    requires 0 < a <= b
    ensures x / b <= x / a
  {
    DivNonneg(x, a);
    DivNonneg(x, b);
    DivFacts(x, a);
    DivFacts(x, b);
    SmallerQuotient(x, a, b, x / a, x / b);
  }

  lemma DivFacts(x: nat, a: nat)
    requires a > 0
    ensures a * (x / a) <= x < a * (x / a + 1)
  {
    assert x == a * (x / a) + x % a;
  }

  lemma SmallerQuotient(x: nat, a: nat, b: nat, p: nat, q: nat)
    requires 0 < a <= b && b * q <= x < a * (p + 1)
    ensures q <= p
  {
    if q > p {
      MulGrows(a, p + 1, q);
      MulGrows(q, a, b);
    }
  }

  lemma MulGrows(k: nat, x: nat, y: nat)
    requires x <= y
    ensures k * x <= k * y
  {
  }

  /** A common factor cancels. */
  lemma DivCancel(x: nat, a: nat, k: nat)
    requires a > 0 && k > 0
    ensures a * k > 0 && (x * k) / (a * k) == x / a
  {
    var q, r := x / a, x % a;
    Spread(a, q, r, k);
    Scaled(r, a, k);
    assert (a * k) * (q + 1) == (a * k) * q + a * k;
    DivBounds(x * k, a * k, q);
  }

  lemma Spread(a: nat, q: nat, r: nat, k: nat)
    ensures (a * q + r) * k == (a * k) * q + r * k
  {
    assert (a * q) * k == (a * k) * q;
  }

  lemma Scaled(r: nat, a: nat, k: nat)
    requires r < a && k > 0
    ensures 0 <= r * k < a * k
  {
  }

  // ----- what the retarget guarantees -----

  lemma {:induction false} WeightedAtMost(window: seq<Tick>, n: nat)
    requires n < |window|
    ensures Weighted(window, n) <= 3 * TARGET_BLOCK_TIME * (n * (n + 1))
  {
    if n > 0 {
      hide Solvetime;
      WeightedAtMost(window, n - 1);
      WeightAtMost(Weighted(window, n - 1), n, Solvetime(window, n));
    }
  }

  lemma WeightAtMost(w: nat, n: nat, t: nat)
    requires n > 0 && w <= 3 * TARGET_BLOCK_TIME * ((n - 1) * n) && t <= 6 * TARGET_BLOCK_TIME
    ensures w + n * t <= 3 * TARGET_BLOCK_TIME * (n * (n + 1))
  {
    assert n * (n + 1) == (n - 1) * n + 2 * n;
    assert n * t <= n * (6 * TARGET_BLOCK_TIME);
  }

  lemma DivisorBounds(window: seq<Tick>)
    requires |window| >= 2
    ensures var n := |window| - 1; 12000 * (n * n) <= Divisor(window) <= 3 * TARGET_BLOCK_TIME * (n * (n + 1))
  {
    var n := |window| - 1;
    WeightedAtMost(window, n);
    assert Floor(n) == 12000 * (n * n);
    assert n * n <= n * (n + 1);
  }

  /** One retarget never takes difficulty below about a sixth of the window's average... */
  lemma NeverFallsFar(window: seq<Tick>)
    requires |window| >= 2
    ensures Raw(window) >= 99 * AverageDifficulty(window) / 600
  {
    var n, avg, l := |window| - 1, AverageDifficulty(window), Divisor(window);
    var k := n * (n + 1) * TARGET_BLOCK_TIME;
    DivisorBounds(window);
    hide AverageDifficulty, Divisor;
    assert k > 0 && 200 * l <= 600 * k;
    NextAs(avg, n, l);
    DivAntitone(99 * avg * k, 200 * l, 600 * k);
    DivCancel(99 * avg, 600, k);
  }

  /** ... nor above about ten times it. */
  lemma NeverRisesFar(window: seq<Tick>)
    requires |window| >= 2
    ensures var n := |window| - 1; Raw(window) <= 99 * AverageDifficulty(window) * (n + 1) / (10 * n)
  {
    var n, avg, l := |window| - 1, AverageDifficulty(window), Divisor(window);
    var k := n * TARGET_BLOCK_TIME;
    DivisorBounds(window);
    hide AverageDifficulty, Divisor;
    var x := 99 * avg * (n + 1);
    assert k > 0 && (10 * n) * k == 200 * (12000 * (n * n));
    NextAs(avg, n, l);
    assert 99 * avg * (n * (n + 1) * TARGET_BLOCK_TIME) == x * k by { Regroup(99 * avg, n, n + 1, TARGET_BLOCK_TIME); }
    DivAntitone(x * k, (10 * n) * k, 200 * l);
    DivCancel(x, 10 * n, k);
  }

  lemma Regroup(a: nat, n: nat, m: nat, t: nat)
    ensures a * (n * m * t) == (a * m) * (n * t)
  {
  }

  lemma NextAs(avg: nat, n: nat, l: nat)
    requires l > 0
    ensures NextDifficulty(avg, n, l) == 99 * avg * (n * (n + 1) * TARGET_BLOCK_TIME) / (200 * l)
  {
    var k := n * (n + 1) * TARGET_BLOCK_TIME;
    assert avg * (k * 99) == 99 * avg * k;
  }

  /** Slower blocks never raise the difficulty. */
  lemma SlowerIsNeverHarder(fast: seq<Tick>, slow: seq<Tick>)
    requires |fast| == |slow| >= 2
    requires forall i :: 0 < i < |fast| ==>
               fast[i].difficulty == slow[i].difficulty && Solvetime(fast, i) <= Solvetime(slow, i)
    ensures Clamp(Raw(slow)) <= Clamp(Raw(fast))
  {
    hide Solvetime, Weighted, SumDifficulty, NextDifficulty, Floor;
    var n := |fast| - 1;
    SumsCompare(fast, slow, n);
    NextAntitone(AverageDifficulty(fast), n, Divisor(fast), Divisor(slow));
  }

  lemma NextAntitone(avg: nat, n: nat, l: nat, l': nat)
    requires 0 < l <= l'
    ensures NextDifficulty(avg, n, l') <= NextDifficulty(avg, n, l)
  {
    DivAntitone(avg * (n * (n + 1) * TARGET_BLOCK_TIME * 99), 200 * l, 200 * l');
  }

  lemma {:induction false} SumsCompare(fast: seq<Tick>, slow: seq<Tick>, n: nat)
    requires |fast| == |slow| && n < |fast|
    requires forall i :: 0 < i < |fast| ==>
               fast[i].difficulty == slow[i].difficulty && Solvetime(fast, i) <= Solvetime(slow, i)
    ensures Weighted(fast, n) <= Weighted(slow, n) && SumDifficulty(fast, n) == SumDifficulty(slow, n)
  {
    hide Solvetime;
    if n > 0 {
      SumsCompare(fast, slow, n - 1);
      assert n * Solvetime(fast, n) <= n * Solvetime(slow, n);
    }
  }

  /** Blocks exactly on target at difficulty d are retargeted to 99% of d, rounded down. */
  lemma SteadyState(window: seq<Tick>, d: nat)
    requires |window| >= 2
    requires forall i :: 0 < i < |window| ==>
               window[i].difficulty == d && window[i].timestamp == window[i - 1].timestamp + TARGET_BLOCK_TIME
    ensures Raw(window) == 99 * d / 100
  {
    var n := |window| - 1;
    SteadySums(window, d, n);
    var k := n * (n + 1) * TARGET_BLOCK_TIME;
    assert n * d < n * (d + 1);
    DivBounds(SumDifficulty(window, n), n, d);
    assert Floor(n) == 12000 * (n * n);
    assert n * n <= n * (n + 1);
    assert 2 * Divisor(window) == k;
    NextAs(d, n, Divisor(window));
    hide Divisor;
    DivCancel(99 * d, 100, k);
  }

  lemma {:induction false} SteadySums(window: seq<Tick>, d: nat, n: nat)
    requires n < |window|
    requires forall i :: 0 < i < |window| ==>
               window[i].difficulty == d && window[i].timestamp == window[i - 1].timestamp + TARGET_BLOCK_TIME
    ensures Seen(window, n) == window[n].timestamp
    ensures 2 * Weighted(window, n) == n * (n + 1) * TARGET_BLOCK_TIME && SumDifficulty(window, n) == n * d
  {
    if n > 0 {
      SteadySums(window, d, n - 1);
      assert (n - 1) * n + 2 * n == n * (n + 1);
      assert (n - 1) * d + d == n * d;
    }
  }

  // ----- what the sums add up -----

  function Sum(ds: seq<nat>): nat { if ds == [] then 0 else ds[0] + Sum(ds[1..]) }

  /** The difficulties that are averaged: all but that of the first header. */
  function Difficulties(window: seq<Tick>): (ds: seq<nat>)
    requires |window| >= 1
    ensures |ds| == |window| - 1
  {
    seq(|window| - 1, i requires 0 <= i < |window| - 1 => window[i + 1].difficulty)
  }

  lemma {:induction false} SumAppend(ds: seq<nat>, d: nat)
    ensures Sum(ds + [d]) == Sum(ds) + d
  {
    if ds != [] {
      SumAppend(ds[1..], d);
      assert (ds + [d])[1..] == ds[1..] + [d];
    } else {
      assert [d][1..] == [];
    }
  }

  /** The average is that of every header after the first, each counted once. */
  lemma {:induction false} SumIsTotal(window: seq<Tick>, n: nat)
    requires n < |window|
    ensures SumDifficulty(window, n) == Sum(Difficulties(window)[..n])
  {
    var ds := Difficulties(window);
    if n == 0 {
      assert ds[..0] == [];
    } else {
      SumIsTotal(window, n - 1);
      SumAppend(ds[..n - 1], ds[n - 1]);
      assert ds[..n] == ds[..n - 1] + [ds[n - 1]];
    }
  }

  lemma AverageIsMean(window: seq<Tick>)
    requires |window| >= 2
    ensures AverageDifficulty(window) == Sum(Difficulties(window)) / (|window| - 1)
  {
    SumIsTotal(window, |window| - 1);
    assert Difficulties(window)[..|window| - 1] == Difficulties(window);
  }

  /** One header k harder: the sum is k more, whichever header it is. */
  lemma {:induction false} HarderHeaderCounts(window: seq<Tick>, i: nat, k: nat, n: nat)
    requires 0 < i < |window| && n < |window|
    ensures var harder := window[i := window[i].(difficulty := window[i].difficulty + k)];
            SumDifficulty(harder, n) == SumDifficulty(window, n) + if i <= n then k else 0
  {
    if n > 0 { HarderHeaderCounts(window, i, k, n - 1); }
  }

  /** On target the next difficulty is 99% of the mean, whatever the difficulties were. */
  lemma OnTargetKeepsTheMean(window: seq<Tick>)
    requires |window| >= 2
    requires forall i :: 0 < i < |window| ==> window[i].timestamp == window[i - 1].timestamp + TARGET_BLOCK_TIME
    ensures Raw(window) == 99 * (Sum(Difficulties(window)) / (|window| - 1)) / 100
  {
    var n := |window| - 1;
    OnTargetWeighs(window, n);
    AverageIsMean(window);
    var k, avg := n * (n + 1) * TARGET_BLOCK_TIME, AverageDifficulty(window);
    assert Floor(n) == 12000 * (n * n);
    assert n * n <= n * (n + 1);
    assert 2 * Divisor(window) == k;
    NextAs(avg, n, Divisor(window));
    hide Divisor, AverageDifficulty;
    DivCancel(99 * avg, 100, k);
  }

  lemma {:induction false} OnTargetWeighs(window: seq<Tick>, n: nat)
    requires n < |window|
    requires forall i :: 0 < i < |window| ==> window[i].timestamp == window[i - 1].timestamp + TARGET_BLOCK_TIME
    ensures Seen(window, n) == window[n].timestamp && 2 * Weighted(window, n) == n * (n + 1) * TARGET_BLOCK_TIME
  {
    if n > 0 {
      OnTargetWeighs(window, n - 1);
      assert (n - 1) * n + 2 * n == n * (n + 1);
    }
  }

  /** Header i and everything after it t later. */
  function Delayed(window: seq<Tick>, i: nat, t: nat): (r: seq<Tick>)
    ensures |r| == |window|
  {
    seq(|window|, j requires 0 <= j < |window| =>
      if j < i then window[j] else window[j].(timestamp := window[j].timestamp + t))
  }

  lemma {:induction false} DelaySeen(window: seq<Tick>, i: nat, t: nat, j: nat)
    requires 0 < i < |window| && j < |window| && window[i].timestamp > Seen(window, i - 1)
    ensures Seen(Delayed(window, i, t), j) == Seen(window, j) + if j < i then 0 else t
  {
    if j > 0 { DelaySeen(window, i, t, j - 1); }
  }

  /** A solvetime in order and within the clamp weighs by its place: t later at place i is i * t more. */
  lemma {:induction false} LaterBlocksWeighMore(window: seq<Tick>, i: nat, t: nat, n: nat)
    requires 0 < i < |window| && n < |window| && window[i].timestamp > Seen(window, i - 1)
    requires window[i].timestamp + t - Seen(window, i - 1) <= 6 * TARGET_BLOCK_TIME
    ensures Weighted(Delayed(window, i, t), n) == Weighted(window, n) + if i <= n then i * t else 0
  {
    if n > 0 {
      LaterBlocksWeighMore(window, i, t, n - 1);
      DelaySeen(window, i, t, n);
      DelaySeen(window, i, t, n - 1);
      if n == i { Distribute(n, Solvetime(window, n), t); }
    }
  }

  lemma Distribute(n: nat, a: nat, b: nat)
    ensures n * (a + b) == n * a + n * b
  {
  }

  /** Beyond the clamp it weighs nothing more: a header dated far ahead cannot lower the difficulty further. */
  lemma {:induction false} DelayBeyondClamp(window: seq<Tick>, i: nat, t: nat, n: nat)
    requires 0 < i < |window| && n < |window|
    requires window[i].timestamp - Seen(window, i - 1) >= 6 * TARGET_BLOCK_TIME
    ensures Weighted(Delayed(window, i, t), n) == Weighted(window, n)
  {
    if n > 0 {
      DelayBeyondClamp(window, i, t, n - 1);
      DelaySeen(window, i, t, n);
      DelaySeen(window, i, t, n - 1);
    }
  }

  /** The times seen are the least strictly increasing ones that are never before the header's own. */
  lemma {:induction false} SeenIsLeast(window: seq<Tick>, i: nat)
    requires i < |window|
    ensures forall j :: 0 <= j <= i ==> Seen(window, i) >= window[j].timestamp + (i - j)
    ensures exists j :: 0 <= j <= i && Seen(window, i) == window[j].timestamp + (i - j)
  {
    if i > 0 {
      SeenIsLeast(window, i - 1);
      var j :| 0 <= j <= i - 1 && Seen(window, i - 1) == window[j].timestamp + (i - 1 - j);
      assert Seen(window, i) == window[j].timestamp + (i - j) || Seen(window, i) == window[i].timestamp + (i - i);
    } else {
      assert Seen(window, 0) == window[0].timestamp + (0 - 0);
    }
  }

  /** The target is the largest one that d equal shares of all hashes reach up to. */
  lemma TargetIsExact(d: nat)
    requires d > 0
    ensures d * PowTarget(d) <= TWO_256 - 1 < d * (PowTarget(d) + 1)
  {
    DivFacts(TWO_256 - 1, d);
  }
}
