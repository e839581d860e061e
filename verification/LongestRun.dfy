/**
 * The Longest Run of Ones in a Block test's counting kernel (internal/audit/validators/nist.go,
 * NISTLongestRunOfOnes; section 2.4 of NIST SP 800-22 Rev. 1a).
 */
module LongestRun {
  import opened BitStrings
  import opened Options
  import opened Tally

  ghost predicate AllOnes(bits: Bits, i: nat, j: nat)
    requires i <= j <= |bits|
  {
    forall k | i <= k < j :: bits[k] == 1
  }

  /** r is the length of the longest contiguous segment of ones. */
  ghost predicate IsLongestRun(block: Bits, r: nat) {
    && (exists i: nat, j: nat :: i <= j <= |block| && AllOnes(block, i, j) && j - i == r)
    && (forall i: nat, j: nat | i <= j <= |block| && AllOnes(block, i, j) :: j - i <= r)
  }

  /** The longest run is determined by the block. */
  lemma LongestRunUnique(block: Bits, r: nat, s: nat)
    requires IsLongestRun(block, r) && IsLongestRun(block, s)
    ensures r == s
  {
    var i: nat, j: nat :| i <= j <= |block| && AllOnes(block, i, j) && j - i == r;
    var k: nat, l: nat :| k <= l <= |block| && AllOnes(block, k, l) && l - k == s;
  }

  /** The run of ones ending at position j is exactly cur long. */
  ghost predicate IsTail(block: Bits, j: nat, cur: nat)
    requires j <= |block|
  {
    cur <= j && AllOnes(block, j - cur, j) && (cur < j ==> block[j - cur - 1] != 1)
  }

  /** Extending the block by its next bit either lengthens the last run or ends it. */
  lemma RunStep(block: Bits, j: nat, cur: nat, runs: nat)
    requires j < |block| && IsTail(block, j, cur) && IsLongestRun(block[..j], runs)
    ensures block[j] == 1 ==> IsTail(block, j + 1, cur + 1) && IsLongestRun(block[..j + 1], if cur + 1 > runs then cur + 1 else runs)
    ensures block[j] != 1 ==> IsTail(block, j + 1, 0) && IsLongestRun(block[..j + 1], runs)
  {
    var old_, new_ := block[..j], block[..j + 1];
    var i: nat, l: nat :| i <= l <= |old_| && AllOnes(old_, i, l) && l - i == runs;
    assert AllOnes(new_, i, l);
    assert block[j] == 1 ==> AllOnes(new_, j - cur, j + 1);
    assert cur < j ==> new_[j - cur - 1] != 1;
    forall a: nat, b: nat | a <= b <= |new_| && AllOnes(new_, a, b)
      ensures b - a <= if block[j] == 1 && cur + 1 > runs then cur + 1 else runs
    {
      if b <= j {
        assert AllOnes(old_, a, b);
      } else if a < b {
        assert new_[j] == 1;
      }
    }
  }

  /** The inner loop over one block. */
  method LongestRunOf(block: Bits) returns (runs: nat)
    ensures IsLongestRun(block, runs)
  {
    runs := 0;
    var cur := 0;
    var j := 0;
    assert AllOnes(block[..0], 0, 0);
    while j < |block|
      invariant 0 <= j <= |block| && IsTail(block, j, cur) && IsLongestRun(block[..j], runs)
    {
      RunStep(block, j, cur, runs);
      if block[j] == 1 {
        cur := cur + 1;
        if cur > runs {
          runs := cur;
        }
      } else {
        cur := 0;
      }
      j := j + 1;
    }
    assert block[..j] == block;
  }

  // ---- tiers and bins ----

  datatype Tier = Tier(m: nat, k: nat, blocks: nat, v: seq<int>)

  const SMALL: Tier := Tier(8, 3, 16, [1, 2, 3, 4])
  const LARGE: Tier := Tier(128, 5, 49, [4, 5, 6, 7, 8, 9])

  function TierOf(n: nat): Tier { if n < 6272 then SMALL else LARGE }

  /** The bin of a run: its distance from V[0], clamped to the classes the tier has. */
  function Bin(t: Tier, run: int): int
    requires |t.v| > 0
  {
    if run <= t.v[0] then 0 else if run >= t.v[|t.v| - 1] then |t.v| - 1 else run - t.v[0]
  }

  /** The code's search for the bin of one run. */
  method BinIndex(t: Tier, runs: nat) returns (idx: nat)
    requires t == SMALL || t == LARGE
    ensures idx == Bin(t, runs) <= t.k
    ensures t == SMALL ==> idx == if runs <= 1 then 0 else if runs == 2 then 1 else if runs == 3 then 2 else 3
    ensures t == LARGE ==> idx == if runs <= 4 then 0 else if runs >= 9 then 5 else runs - 4
  {
    idx := 0;
    assert forall l | 0 <= l <= t.k :: t.v[l] == t.v[0] + l;
    if runs > t.v[0] {
      idx := t.k;
      var j := 1;
      while j < t.k
        invariant 1 <= j <= t.k && idx == t.k
        invariant forall l | 1 <= l < j :: runs != t.v[l]
      {
        if runs == t.v[j] {
          idx := j;
          break;
        }
        j := j + 1;
      }
      assert runs < t.v[t.k] ==> t.v[runs - t.v[0]] == runs;
    }
  }

  function Block(bits: Bits, t: Tier, i: nat): Bits
    requires i * t.m + t.m <= |bits|
  {
    bits[i * t.m..i * t.m + t.m]
  }

  /** `runs` are the longest runs of the first |runs| blocks. */
  ghost predicate RunsOf(bits: Bits, t: Tier, runs: seq<nat>) {
    forall i | 0 <= i < |runs| :: i * t.m + t.m <= |bits| && IsLongestRun(Block(bits, t, i), runs[i])
  }

  /** How many of the runs fall in a bin. */
  function BinCount(t: Tier, runs: seq<nat>, bin: int): nat
    requires |t.v| > 0
  {
    if runs == [] then 0
    else BinCount(t, runs[..|runs| - 1], bin) + if Bin(t, runs[|runs| - 1]) == bin then 1 else 0
  }

  function Itself(n: nat): nat { n }

  /** The bins hold the classes of the runs, and every run is in some bin. */
  ghost predicate Tallied(t: Tier, runs: seq<nat>, v: seq<nat>)
    requires |t.v| > 0
  {
    && |v| == t.k + 1
    && (forall b | 0 <= b <= t.k :: v[b] == BinCount(t, runs, b))
    && Total(v, Itself) == |runs|
  }

  lemma TallyStep(t: Tier, runs: seq<nat>, v: seq<nat>, run: nat)
    requires |t.v| > 0 && Tallied(t, runs, v) && 0 <= Bin(t, run) <= t.k
    ensures var idx := Bin(t, run); Tallied(t, runs + [run], v[idx := v[idx] + 1])
  {
    var idx := Bin(t, run);
    TotalUpdate(v, idx, v[idx] + 1, Itself);
    assert (runs + [run])[..|runs|] == runs;
  }

  lemma RunsAppend(bits: Bits, t: Tier, runs: seq<nat>, run: nat)
    requires RunsOf(bits, t, runs)
    requires |runs| * t.m + t.m <= |bits| && IsLongestRun(Block(bits, t, |runs|), run)
    ensures RunsOf(bits, t, runs + [run])
  {
  }

  /** make([]int, K+1). */
  function Empty(t: Tier): seq<nat> { seq(t.k + 1, _ => 0) }

  lemma TallyNone(t: Tier)
    requires |t.v| > 0
    ensures Tallied(t, [], Empty(t))
  {
    TotalZero(Empty(t), Itself);
  }

  /** Every access of both tiers is in bounds: 16 blocks of 8 in 128 bits, 49 blocks of 128 in 6272. */
  lemma TierFits(n: nat)
    requires n >= 128
    ensures var t := TierOf(n); t.blocks * t.m <= n
  {
  }

  lemma BlockFits(blocks: nat, m: nat, i: nat)
    requires i < blocks
    ensures i * m + m <= blocks * m
  {
    var rest: nat := blocks - i - 1;
    assert blocks * m == i * m + m + rest * m;
  }

  /** The loop over the tier's blocks. */
  method TierBins(bits: Bits, t: Tier) returns (v: seq<nat>, ghost runs: seq<nat>)
    requires (t == SMALL || t == LARGE) && t.blocks * t.m <= |bits|
    ensures |runs| == t.blocks && RunsOf(bits, t, runs) && Tallied(t, runs, v)
  {
    v, runs := Empty(t), [];
    TallyNone(t);
    var i := 0;
    while i < t.blocks
      invariant 0 <= i == |runs| <= t.blocks
      invariant RunsOf(bits, t, runs) && Tallied(t, runs, v)
    {
      BlockFits(t.blocks, t.m, i);
      var run := LongestRunOf(Block(bits, t, i));
      var idx := BinIndex(t, run);
      TallyStep(t, runs, v, run);
      RunsAppend(bits, t, runs, run);
      v := v[idx := v[idx] + 1];
      runs := runs + [run];
      i := i + 1;
    }
  }

  /** How many of the runs are between lo and hi long. */
  function Between(runs: seq<nat>, lo: nat, hi: nat): nat {
    |set i | 0 <= i < |runs| && lo <= runs[i] <= hi|
  }

  function AtLeast(runs: seq<nat>, lo: nat): nat {
    |set i | 0 <= i < |runs| && lo <= runs[i]|
  }

  /** 16 blocks of 8 bits, in the classes up to 1, 2, 3, and from 4 on. */
  ghost predicate SmallTier(bits: Bits, runs: seq<nat>, v: seq<nat>) {
    && |bits| >= 128 && |runs| == 16 && (forall i | 0 <= i < 16 :: IsLongestRun(bits[8 * i..8 * i + 8], runs[i]))
    && v == [Between(runs, 0, 1), Between(runs, 2, 2), Between(runs, 3, 3), AtLeast(runs, 4)]
    && v[0] + v[1] + v[2] + v[3] == 16
  }

  /** 49 blocks of 128 bits, in the classes up to 4, 5, 6, 7, 8, and from 9 on. */
  ghost predicate LargeTier(bits: Bits, runs: seq<nat>, v: seq<nat>) {
    && |bits| >= 6272 && |runs| == 49 && (forall i | 0 <= i < 49 :: IsLongestRun(bits[128 * i..128 * i + 128], runs[i]))
    && v == [Between(runs, 0, 4), Between(runs, 5, 5), Between(runs, 6, 6), Between(runs, 7, 7), Between(runs, 8, 8), AtLeast(runs, 9)]
    && v[0] + v[1] + v[2] + v[3] + v[4] + v[5] == 49
  }

  lemma {:induction false} BinCountIs(t: Tier, runs: seq<nat>, bin: int)
    requires |t.v| > 0
    ensures BinCount(t, runs, bin) == |set i | 0 <= i < |runs| && Bin(t, runs[i]) == bin|
  {
    var all := set i | 0 <= i < |runs| && Bin(t, runs[i]) == bin;
    if runs == [] {
      assert all == {};
    } else {
      var init := runs[..|runs| - 1];
      BinCountIs(t, init, bin);
      assert all == (set i | 0 <= i < |init| && Bin(t, init[i]) == bin)
                    + if Bin(t, runs[|runs| - 1]) == bin then {|runs| - 1} else {};
    }
  }

  /** A class whose runs are those between lo and hi. */
  lemma BinIsRange(t: Tier, runs: seq<nat>, bin: int, lo: nat, hi: nat)
    requires |t.v| > 0 && forall r: nat :: Bin(t, r) == bin <==> lo <= r <= hi
    ensures BinCount(t, runs, bin) == Between(runs, lo, hi)
  {
    BinCountIs(t, runs, bin);
    assert (set i | 0 <= i < |runs| && Bin(t, runs[i]) == bin) == (set i | 0 <= i < |runs| && lo <= runs[i] <= hi);
  }

  lemma BinIsTail(t: Tier, runs: seq<nat>, bin: int, lo: nat)
    requires |t.v| > 0 && forall r: nat :: Bin(t, r) == bin <==> lo <= r
    ensures BinCount(t, runs, bin) == AtLeast(runs, lo)
  {
    BinCountIs(t, runs, bin);
    assert (set i | 0 <= i < |runs| && Bin(t, runs[i]) == bin) == (set i | 0 <= i < |runs| && lo <= runs[i]);
  }

  lemma SmallInNumbers(bits: Bits, runs: seq<nat>, v: seq<nat>)
    requires |bits| >= 128 && |runs| == 16 && RunsOf(bits, SMALL, runs) && Tallied(SMALL, runs, v)
    ensures SmallTier(bits, runs, v)
  {
    BinIsRange(SMALL, runs, 0, 0, 1);
    BinIsRange(SMALL, runs, 1, 2, 2);
    BinIsRange(SMALL, runs, 2, 3, 3);
    BinIsTail(SMALL, runs, 3, 4);
    SumOfFour(v);
    forall i | 0 <= i < 16
      ensures IsLongestRun(bits[8 * i..8 * i + 8], runs[i])
    {
      assert Block(bits, SMALL, i) == bits[8 * i..8 * i + 8];
    }
  }

  lemma LargeInNumbers(bits: Bits, runs: seq<nat>, v: seq<nat>)
    requires |bits| >= 6272 && |runs| == 49 && RunsOf(bits, LARGE, runs) && Tallied(LARGE, runs, v)
    ensures LargeTier(bits, runs, v)
  {
    BinIsRange(LARGE, runs, 0, 0, 4);
    BinIsRange(LARGE, runs, 1, 5, 5);
    BinIsRange(LARGE, runs, 2, 6, 6);
    BinIsRange(LARGE, runs, 3, 7, 7);
    BinIsRange(LARGE, runs, 4, 8, 8);
    BinIsTail(LARGE, runs, 5, 9);
    SumOfSix(v);
    forall i | 0 <= i < 49
      ensures IsLongestRun(bits[128 * i..128 * i + 128], runs[i])
    {
      assert Block(bits, LARGE, i) == bits[128 * i..128 * i + 128];
    }
  }

  lemma SumOfFour(v: seq<nat>)
    requires |v| == 4
    ensures Total(v, Itself) == v[0] + v[1] + v[2] + v[3]
  {
    assert v == [v[0]] + [v[1]] + [v[2]] + [v[3]];
    TotalAppend([], v[0], Itself);
    TotalAppend([v[0]], v[1], Itself);
    TotalAppend([v[0], v[1]], v[2], Itself);
    TotalAppend([v[0], v[1], v[2]], v[3], Itself);
    assert [] + [v[0]] == [v[0]] && [v[0]] + [v[1]] == [v[0], v[1]] && [v[0], v[1]] + [v[2]] == [v[0], v[1], v[2]];
    assert v == [v[0], v[1], v[2]] + [v[3]];
  }

  lemma SumOfSix(v: seq<nat>)
    requires |v| == 6
    ensures Total(v, Itself) == v[0] + v[1] + v[2] + v[3] + v[4] + v[5]
  {
    SumOfFour(v[..4]);
    TotalAppend(v[..4], v[4], Itself);
    TotalAppend(v[..5], v[5], Itself);
    assert v[..5] == v[..4] + [v[4]] && v == v[..5] + [v[5]];
  }

  /**
   * NISTLongestRunOfOnes up to the chi-square: nothing below 128 bits, otherwise one bin count per
   * class, which together account for every block of the tier.
   */
  method LongestRunBins(bits: Bits) returns (bins: Option<seq<nat>>, ghost runs: seq<nat>)
    ensures bins.None? <==> |bits| < 128
    ensures bins.Some? ==> var t := TierOf(|bits|);
            |runs| == t.blocks && t.blocks * t.m <= |bits| && RunsOf(bits, t, runs) && Tallied(t, runs, bins.value)
    ensures 128 <= |bits| < 6272 ==> SmallTier(bits, runs, bins.value)
    ensures 6272 <= |bits| ==> LargeTier(bits, runs, bins.value)
  {
    if |bits| < 128 {
      return None, [];
    }
    TierFits(|bits|);
    var v;
    v, runs := TierBins(bits, TierOf(|bits|));
    bins := Some(v);
    if |bits| < 6272 {
      SmallInNumbers(bits, runs, v);
    } else {
      LargeInNumbers(bits, runs, v);
    }
  }
}
