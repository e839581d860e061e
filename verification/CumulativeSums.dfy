/**
 * The Cumulative Sums test (internal/audit/validators/nist.go, NISTCumulativeSums and
 * cumulativeSumsP; section 2.13 of NIST SP 800-22 Rev. 1a): the one-pass excursions in exact
 * integers, and the p-value's sums over the reals.
 */
module CumulativeSums {
  import opened BitStrings

  /** S_k: ones count +1 and zeros -1 over the first k bits. */
  function Walk(bits: Bits, k: nat): int
    requires k <= |bits|
  {
    if k == 0 then 0 else Walk(bits, k - 1) + if bits[k - 1] == 1 then 1 else -1
  }

  function Abs(x: int): nat { if x < 0 then -x else x }

  /** z is the largest |S_k|. */
  ghost predicate IsMaxExcursion(bits: Bits, z: int) {
    && (forall k | 0 <= k <= |bits| :: Abs(Walk(bits, k)) <= z)
    && (exists k :: 0 <= k <= |bits| && Abs(Walk(bits, k)) == z)
  }

  function Reverse(bits: Bits): Bits {
    seq(|bits|, i requires 0 <= i < |bits| => bits[|bits| - 1 - i])
  }

  /** The reversed walk retraces the forward one from its end. */
  lemma {:induction false} ReverseWalk(bits: Bits, k: nat)
    requires k <= |bits|
    ensures Walk(Reverse(bits), k) == Walk(bits, |bits|) - Walk(bits, |bits| - k)
  {
    if k > 0 {
      ReverseWalk(bits, k - 1);
    }
  }

  lemma {:induction false} WalkWithinSteps(bits: Bits, k: nat)
    requires k <= |bits|
    ensures Abs(Walk(bits, k)) <= k
  {
    if k > 0 {
      WalkWithinSteps(bits, k - 1);
    }
  }

  /** For a non-empty sample the excursion is at least 1 and at most n, so n / z is at least 1. */
  lemma ExcursionInRange(bits: Bits, z: int)
    requires |bits| > 0 && IsMaxExcursion(bits, z)
    ensures 1 <= z <= |bits|
  {
    assert Abs(Walk(bits, 1)) == 1;
    var k :| 0 <= k <= |bits| && Abs(Walk(bits, k)) == z;
    WalkWithinSteps(bits, k);
  }

  /** sup and inf are the extreme values of the walk up to step i. */
  ghost predicate Extremes(bits: Bits, i: nat, sup: int, inf: int)
    requires i <= |bits|
  {
    && (forall k | 0 <= k <= i :: inf <= Walk(bits, k) <= sup)
    && (exists k :: 0 <= k <= i && Walk(bits, k) == sup)
    && (exists k :: 0 <= k <= i && Walk(bits, k) == inf)
  }

  lemma ExtremesStep(bits: Bits, i: nat, sup: int, inf: int)
    requires i < |bits| && Extremes(bits, i, sup, inf)
    ensures var s := Walk(bits, i + 1);
            Extremes(bits, i + 1, if s > sup then s else sup, if s < inf then s else inf)
  {
    var u :| 0 <= u <= i && Walk(bits, u) == sup;
    var l :| 0 <= l <= i && Walk(bits, l) == inf;
    assert 0 <= u <= i + 1 && 0 <= l <= i + 1;
  }

  lemma ForwardExcursion(bits: Bits, sup: int, inf: int)
    requires Extremes(bits, |bits|, sup, inf)
    ensures IsMaxExcursion(bits, MaxInt(sup, -inf))
  {
    assert Walk(bits, 0) == 0;
    var u :| 0 <= u <= |bits| && Walk(bits, u) == sup;
    var l :| 0 <= l <= |bits| && Walk(bits, l) == inf;
    assert Abs(Walk(bits, if sup > -inf then u else l)) == MaxInt(sup, -inf);
  }

  /** The reversed walk's excursion at step n - k, by the forward extremes. */
  lemma ReverseStep(bits: Bits, k: nat)
    requires k <= |bits|
    ensures Walk(Reverse(bits), |bits| - k) == Walk(bits, |bits|) - Walk(bits, k)
  {
    ReverseWalk(bits, |bits| - k);
  }

  lemma ReverseExcursion(bits: Bits, sup: int, inf: int)
    requires Extremes(bits, |bits|, sup, inf)
    ensures var sum := Walk(bits, |bits|); IsMaxExcursion(Reverse(bits), MaxInt(sup - sum, sum - inf))
  {
    var n, sum := |bits|, Walk(bits, |bits|);
    var z := MaxInt(sup - sum, sum - inf);
    forall k | 0 <= k <= n
      ensures Abs(Walk(Reverse(bits), k)) <= z
    {
      ReverseWalk(bits, k);
    }
    var u :| 0 <= u <= n && Walk(bits, u) == sup;
    var l :| 0 <= l <= n && Walk(bits, l) == inf;
    var k := if sup - sum > sum - inf then u else l;
    ReverseStep(bits, k);
    assert Abs(Walk(Reverse(bits), n - k)) == z;
  }

  function MaxInt(a: int, b: int): int { if a > b then a else b }

  /**
   * The one pass of NISTCumulativeSums: z is the largest excursion of the walk, and zrev, computed
   * from the forward extremes alone, is the largest excursion of the reversed sample's walk.
   */
  method Excursions(bits: Bits) returns (z: int, zrev: int)
    ensures IsMaxExcursion(bits, z)
    ensures IsMaxExcursion(Reverse(bits), zrev)
    ensures |bits| > 0 ==> 1 <= z <= |bits| && 1 <= zrev <= |bits|
  {
    var sup, inf, sum := 0, 0, 0;
    var i := 0;
    assert Walk(bits, 0) == 0;
    while i < |bits|
      invariant 0 <= i <= |bits| && sum == Walk(bits, i) && Extremes(bits, i, sup, inf)
    {
      ExtremesStep(bits, i, sup, inf);
      sum := if bits[i] == 1 then sum + 1 else sum - 1;
      if sum > sup {
        sup := sum;
      }
      if sum < inf {
        inf := sum;
      }
      i := i + 1;
    }
    z := MaxInt(sup, -inf);
    zrev := MaxInt(sup - sum, sum - inf);
    ForwardExcursion(bits, sup, inf);
    ReverseExcursion(bits, sup, inf);
    BothInRange(bits, z, zrev);
  }

  lemma BothInRange(bits: Bits, z: int, zrev: int)
    requires IsMaxExcursion(bits, z) && IsMaxExcursion(Reverse(bits), zrev)
    ensures |bits| > 0 ==> 1 <= z <= |bits| && 1 <= zrev <= |bits|
  {
    if |bits| > 0 {
      ExcursionInRange(bits, z);
      ExcursionInRange(Reverse(bits), zrev);
    }
  }

  // ---- cumulativeSumsP ----

  /** Go's integer division by a positive divisor: it truncates toward zero. */
  function TruncDiv(a: int, b: int): int
    requires b > 0
  {
    if a >= 0 then a / b else -((-a) / b)
  }

  // phi(j) stands for normalCDF(j * z / sqrt(n)); the loops only evaluate it at integers j.

  /** normalCDF(-x) = 1 - normalCDF(x). */
  ghost predicate Complementary(phi: int -> real) {
    forall j :: ComplementAt(phi, j)
  }

  predicate ComplementAt(phi: int -> real, j: int) { phi(-j) == 1.0 - phi(j) }

  function Term1(phi: int -> real, k: int): real { phi(4 * k + 1) - phi(4 * k - 1) }

  function Term2(phi: int -> real, k: int): real { phi(4 * k + 3) - phi(4 * k + 1) }

  /** f(lo) + ... + f(hi). */
  function RangeSum(f: int -> real, lo: int, hi: int): real
    decreases hi - lo
  {
    if lo > hi then 0.0 else RangeSum(f, lo, hi - 1) + f(hi)
  }

  lemma {:induction false} RangeSumSplit(f: int -> real, lo: int, mid: int, hi: int)
    requires lo <= mid <= hi + 1
    ensures RangeSum(f, lo, hi) == RangeSum(f, lo, mid - 1) + RangeSum(f, mid, hi)
    decreases hi - lo
  {
    if mid <= hi {
      RangeSumSplit(f, lo, mid, hi - 1);
    }
  }

  /** Reflecting k to c - k sums the same terms. */
  lemma {:induction false} RangeSumReflect(f: int -> real, c: int, lo: int, hi: int)
    requires forall k | lo <= k <= hi :: f(c - k) == f(k)
    ensures RangeSum(f, c - hi, c - lo) == RangeSum(f, lo, hi)
    decreases hi - lo
  {
    if lo <= hi {
      RangeSumReflect(f, c, lo, hi - 1);
      RangeSumSplit(f, c - hi, c - hi + 1, c - lo);
      assert RangeSum(f, c - hi, c - hi) == f(c - hi);
      assert c - (hi - 1) == c - hi + 1;
    }
  }

  lemma Term1Even(phi: int -> real, k: int)
    requires Complementary(phi)
    ensures Term1(phi, -k) == Term1(phi, k)
  {
    assert ComplementAt(phi, 4 * k - 1) && ComplementAt(phi, 4 * k + 1);
    assert 4 * (-k) + 1 == -(4 * k - 1) && 4 * (-k) - 1 == -(4 * k + 1);
  }

  lemma Term2Mirror(phi: int -> real, k: int)
    requires Complementary(phi)
    ensures Term2(phi, -1 - k) == Term2(phi, k)
  {
    assert ComplementAt(phi, 4 * k + 1) && ComplementAt(phi, 4 * k + 3);
    assert 4 * (-1 - k) + 3 == -(4 * k + 1) && 4 * (-1 - k) + 1 == -(4 * k + 3);
  }

  /**
   * The truncating bounds make both ranges symmetric: sum1 runs over [-K, K] and sum2 over
   * [-1-K, K], with K = (nz - 1) / 4.
   */
  lemma RangesSymmetric(nz: int)
    requires nz >= 1
    ensures TruncDiv(-nz + 1, 4) == -TruncDiv(nz - 1, 4)
    ensures TruncDiv(-nz - 3, 4) == -1 - TruncDiv(nz - 1, 4)
    ensures TruncDiv(nz - 1, 4) >= 0
  {
  }

  /** A flooring division would break the first symmetry, except when 4 divides nz - 1. */
  lemma FloorIsNotSymmetric(nz: int)
    requires nz >= 1
    ensures (-nz + 1) / 4 == -((nz - 1) / 4) <==> (nz - 1) % 4 == 0
  {
  }

  function Terms1(phi: int -> real): int -> real { k => Term1(phi, k) }

  function Terms2(phi: int -> real): int -> real { k => Term2(phi, k) }

  /** The p-value with each symmetric range folded onto its non-negative half. */
  function FoldedP(phi: int -> real, top: int): real {
    1.0 - (Term1(phi, 0) + 2.0 * RangeSum(Terms1(phi), 1, top)) + 2.0 * RangeSum(Terms2(phi), 0, top)
  }

  /** A range symmetric about c / 2, folded onto its upper half. */
  lemma FoldEven(f: int -> real, top: int)
    requires top >= 0 && forall k | 1 <= k <= top :: f(0 - k) == f(k)
    ensures RangeSum(f, -top, top) == f(0) + 2.0 * RangeSum(f, 1, top)
  {
    RangeSumReflect(f, 0, 1, top);
    RangeSumSplit(f, -top, 0, top);
    RangeSumSplit(f, 0, 1, top);
    assert RangeSum(f, 0, 0) == RangeSum(f, 0, -1) + f(0);
  }

  lemma FoldMirror(f: int -> real, top: int)
    requires top >= 0 && forall k | 0 <= k <= top :: f(-1 - k) == f(k)
    ensures RangeSum(f, -1 - top, top) == 2.0 * RangeSum(f, 0, top)
  {
    RangeSumReflect(f, -1, 0, top);
    RangeSumSplit(f, -1 - top, 0, top);
  }

  lemma FoldSum1(phi: int -> real, top: int)
    requires Complementary(phi) && top >= 0
    ensures RangeSum(Terms1(phi), -top, top) == Term1(phi, 0) + 2.0 * RangeSum(Terms1(phi), 1, top)
  {
    forall k | 1 <= k <= top
      ensures Term1(phi, 0 - k) == Term1(phi, k)
    {
      Term1Even(phi, k);
    }
    FoldEven(Terms1(phi), top);
  }

  lemma FoldSum2(phi: int -> real, top: int)
    requires Complementary(phi) && top >= 0
    ensures RangeSum(Terms2(phi), -1 - top, top) == 2.0 * RangeSum(Terms2(phi), 0, top)
  {
    forall k | 0 <= k <= top
      ensures Term2(phi, -1 - k) == Term2(phi, k)
    {
      Term2Mirror(phi, k);
    }
    FoldMirror(Terms2(phi), top);
  }

  /**
   * cumulativeSumsP over the reals. For every excursion the test can produce, with K the upper end
   * of both ranges, the two sums collapse into one alternating sum over the odd points:
   * 2 - 4 phi(1) + 4 phi(3) - ... - 4 phi(4K + 1) + 2 phi(4K + 3).
   */
  method CumulativeSumsP(n: int, z: int, phi: int -> real) returns (p: real)
    requires n >= 0 && Complementary(phi)
    ensures z <= 0 ==> p == 0.0
    ensures 1 <= z <= n ==> var top := (n / z - 1) / 4;
                            p == 2.0 + 4.0 * Alternating(phi, top) + 2.0 * phi(4 * top + 3)
    ensures z > n ==> p == 1.0 - (phi(1) - phi(-1)) + (phi(3) - phi(1))
  {
    if z <= 0 {
      return 0.0;
    }
    var nz := n / z;
    var sum1 := SumTerms(Terms1(phi), TruncDiv(-nz + 1, 4), TruncDiv(nz - 1, 4));
    var sum2 := SumTerms(Terms2(phi), TruncDiv(-nz - 3, 4), TruncDiv(nz - 1, 4));
    p := 1.0 - sum1 + sum2;
    if z <= n {
      QuotientPositive(n, z);
      SumsAlternate(phi, nz, sum1, sum2);
    } else {
      QuotientZero(n, z);
      SumsOfOne(phi, sum1, sum2);
    }
  }

  /** Both sums, folded: K = (nz - 1) / 4 terms on each side. */
  lemma SumsFold(phi: int -> real, nz: int)
    requires Complementary(phi) && nz >= 1
    ensures RangeSum(Terms1(phi), TruncDiv(-nz + 1, 4), TruncDiv(nz - 1, 4))
            == Term1(phi, 0) + 2.0 * RangeSum(Terms1(phi), 1, (nz - 1) / 4)
    ensures RangeSum(Terms2(phi), TruncDiv(-nz - 3, 4), TruncDiv(nz - 1, 4)) == 2.0 * RangeSum(Terms2(phi), 0, (nz - 1) / 4)
  {
    RangesSymmetric(nz);
    FoldSum1(phi, (nz - 1) / 4);
    FoldSum2(phi, (nz - 1) / 4);
  }

  /** -phi(1) + phi(3) - phi(5) + ... + phi(4 top - 1) - phi(4 top + 1). */
  function Alternating(phi: int -> real, top: nat): real {
    if top == 0 then -phi(1) else Alternating(phi, top - 1) + phi(4 * top - 1) - phi(4 * top + 1)
  }

  /** The folded sum, term by term. */
  lemma {:induction false} FoldedIsAlternating(phi: int -> real, top: nat)
    requires Complementary(phi)
    ensures FoldedP(phi, top) == 2.0 + 4.0 * Alternating(phi, top) + 2.0 * phi(4 * top + 3)
  {
    if top == 0 {
      assert ComplementAt(phi, 1);
      OneTerm(Terms2(phi), 0);
    } else {
      FoldedIsAlternating(phi, top - 1);
      assert RangeSum(Terms1(phi), 1, top) == RangeSum(Terms1(phi), 1, top - 1) + Term1(phi, top);
      assert RangeSum(Terms2(phi), 0, top) == RangeSum(Terms2(phi), 0, top - 1) + Term2(phi, top);
    }
  }

  /** What the two sums come to for nz >= 1. */
  lemma SumsAlternate(phi: int -> real, nz: int, sum1: real, sum2: real)
    requires Complementary(phi) && nz >= 1
    requires sum1 == RangeSum(Terms1(phi), TruncDiv(-nz + 1, 4), TruncDiv(nz - 1, 4))
    requires sum2 == RangeSum(Terms2(phi), TruncDiv(-nz - 3, 4), TruncDiv(nz - 1, 4))
    ensures var top := (nz - 1) / 4;
            1.0 - sum1 + sum2 == 2.0 + 4.0 * Alternating(phi, top) + 2.0 * phi(4 * top + 3)
  {
    SumsFold(phi, nz);
    FoldedIsAlternating(phi, (nz - 1) / 4);
  }

  /** And for nz = 0: one term each. */
  lemma SumsOfOne(phi: int -> real, sum1: real, sum2: real)
    requires sum1 == RangeSum(Terms1(phi), TruncDiv(1, 4), TruncDiv(-1, 4))
    requires sum2 == RangeSum(Terms2(phi), TruncDiv(-3, 4), TruncDiv(-1, 4))
    ensures sum1 == phi(1) - phi(-1) && sum2 == phi(3) - phi(1)
  {
    OneTerm(Terms1(phi), 0);
    OneTerm(Terms2(phi), 0);
  }

  lemma QuotientZero(n: int, z: int)
    requires 0 <= n < z
    ensures n / z == 0
  {
  }

  lemma OneTerm(f: int -> real, k: int)
    ensures RangeSum(f, k, k) == f(k)
  {
    assert RangeSum(f, k, k - 1) == 0.0;
  }

  lemma QuotientPositive(n: int, z: int)
    requires 1 <= z <= n
    ensures n / z >= 1
  {
    var q, r := n / z, n % z;
    assert n == z * q + r;
    NotPositive(z, q);
  }

  lemma NotPositive(z: int, q: int)
    requires z >= 0
    ensures q <= 0 ==> z * q <= 0
  {
  }

  method SumTerms(f: int -> real, lo: int, hi: int) returns (sum: real)
    ensures sum == RangeSum(f, lo, hi)
  {
    sum := 0.0;
    var k := lo;
    while k <= hi
      invariant if lo <= hi then lo <= k <= hi + 1 else k == lo
      invariant sum == RangeSum(f, lo, k - 1)
    {
      sum := sum + f(k);
      k := k + 1;
    }
    if lo <= hi {
      assert k - 1 == hi;
    }
  }
}
