/**
 The halving schedule (state/transition.go:13-33) and its closed-form sum
 (state/state.go:269-307), which the conservation check relies on at every height.
 */
module Issuance {

  const BASE_REWARD: nat := 25_000_000_000_000_000_000
  const HALVING_INTERVAL: nat := 1_000_000

  /** x shifted right by n bits. */
  function Shifted(x: nat, n: nat): nat { if n == 0 then x else Shifted(x, n - 1) / 2 }

  function EraReward(era: nat): nat { Shifted(BASE_REWARD, era) }

  function BlockRewardAt(height: nat): nat { EraReward(height / HALVING_INTERVAL) }

  /** The schedule: 25 coins of 18 decimals for the first million heights, and half, rounded down, a million later. */
  lemma RewardHalves(height: nat)
    ensures height < 1_000_000 ==> BlockRewardAt(height) == 25 * 1_000_000_000_000_000_000
    ensures BlockRewardAt(height + 1_000_000) == BlockRewardAt(height) / 2
  {
    assert (height + HALVING_INTERVAL) / HALVING_INTERVAL == height / HALVING_INTERVAL + 1;
    if height < HALVING_INTERVAL { assert height / HALVING_INTERVAL == 0; }
  }

  /** The per-block ledger: what blocks lo+1 .. hi mint between them. */
  function Minted(lo: nat, hi: nat): nat
    decreases hi
  {
    if hi <= lo then 0 else Minted(lo, hi - 1) + BlockRewardAt(hi)
  }

  lemma {:induction false} MintedSplit(lo: nat, mid: nat, hi: nat)
    requires lo <= mid <= hi
    ensures Minted(lo, hi) == Minted(lo, mid) + Minted(mid, hi)
    decreases hi
  {
    if mid < hi { MintedSplit(lo, mid, hi - 1); }
  }

  /** Within one interval every block mints the same. */
  lemma {:induction false} MintedFlat(lo: nat, hi: nat, era: nat)
    requires lo <= hi && era * HALVING_INTERVAL <= lo + 1 && hi < (era + 1) * HALVING_INTERVAL
    ensures Minted(lo, hi) == EraReward(era) * (hi - lo)
    decreases hi
  {
    if lo < hi {
      hide EraReward;
      MintedFlat(lo, hi - 1, era);
      assert hi / HALVING_INTERVAL == era;
      OneMore(EraReward(era), hi - 1 - lo);
    }
  }

  lemma OneMore(r: nat, n: nat)
    ensures r * n + r == r * (n + 1)
  {
  }

  lemma {:induction false} HalvingNeverRises(a: nat, b: nat)
    requires a <= b
    ensures EraReward(b) <= EraReward(a)
    decreases b
  {
    if a < b {
      HalvingNeverRises(a, b - 1);
    }
  }

  /** Once a block mints nothing, no later block does. */
  lemma {:induction false} MintedNothing(lo: nat, hi: nat)
    requires lo <= hi && BlockRewardAt(lo + 1) == 0
    ensures Minted(lo, hi) == 0
    decreases hi
  {
    if lo < hi {
      MintedNothing(lo, hi - 1);
      HalvingNeverRises((lo + 1) / HALVING_INTERVAL, hi / HALVING_INTERVAL);
    }
  }

  /** The closed form, era by era; height 0 is genesis and mints nothing. */
  method CumulativeIssued(h: nat) returns (total: nat)
    ensures total == Minted(0, h)
  {
    total := 0;
    var era: nat := 0;
    while era * HALVING_INTERVAL <= h
      invariant era == 0 ==> total == 0
      invariant era > 0 ==> var last := era * HALVING_INTERVAL - 1; total == Minted(0, if last < h then last else h)
      decreases h + 1 - era * HALVING_INTERVAL
    {
      var start := era * HALVING_INTERVAL;
      var reward := BlockRewardAt(start);
      ghost var before: nat := if start == 0 then 0 else start - 1;
      if reward == 0 {
        assert EraReward(0) == BASE_REWARD;
        MintedNothing(before, h);
        MintedSplit(0, before, h);
        return;
      }
      var lo := if start == 0 then 1 else start;
      var hi := start + HALVING_INTERVAL - 1;
      if hi > h { hi := h; }
      if hi >= lo {
        assert start / HALVING_INTERVAL == era;
        MintedFlat(before, hi, era);
        MintedSplit(0, before, hi);
        total := total + reward * (hi - lo + 1);
      }
      era := era + 1;
    }
  }
}
