/**
 * The Serial test's statistics (internal/audit/validators/nist.go, NISTSerial and serialPsi2;
 * section 2.11 of NIST SP 800-22 Rev. 1a) in exact integers: psi^2_m is kept multiplied by n.
 */
module Serial {
  import opened Tally
  import opened BitStrings
  import opened Patterns
  import opened CountTables

  // ---- word counts with marginals ----

  // Most lemmas only need that counts of longer words add up to those of shorter ones, so they
  // are stated for any such `occ`; Occ(bits) below is the one the test uses.

  ghost predicate MarginalAt(occ: Bits -> int, w: Bits) {
    occ(w + [0]) + occ(w + [1]) == occ(w) == occ([0] + w) + occ([1] + w)
  }

  ghost predicate Marginal(occ: Bits -> int) {
    forall w :: MarginalAt(occ, w)
  }

  /** The counts of all m-bit words, as a table indexed by key. */
  function Table(occ: Bits -> int, m: nat): nat -> int {
    (k: nat) => occ(Word(k, m))
  }

  function SumSquares(occ: Bits -> int, m: nat): int {
    Sum(Pow2(m), Mapped(Sq, Table(occ, m)))
  }

  lemma TableRefinesRight(occ: Bits -> int, m: nat, n: nat)
    requires Marginal(occ)
    ensures RefinesRight(Table(occ, m + 1), Table(occ, m), n)
  {
    forall k: nat | k < n
      ensures occ(Word(k, m)) == occ(Word(2 * k, m + 1)) + occ(Word(2 * k + 1, m + 1))
    {
      WordAppend(k, m, 0);
      WordAppend(k, m, 1);
      assert MarginalAt(occ, Word(k, m));
    }
  }

  lemma PrependZero(k: nat, m: nat)
    requires k < Pow2(m)
    ensures Word(k, m + 1) == [0] + Word(k, m)
  {
    WordPrepend(k, m, 0);
  }

  lemma PrependOne(k: nat, m: nat)
    requires k < Pow2(m)
    ensures Word(Pow2(m) + k, m + 1) == [1] + Word(k, m)
  {
    WordPrepend(k, m, 1);
  }

  lemma LeftSplit(occ: Bits -> int, m: nat, k: nat)
    requires MarginalAt(occ, Word(k, m)) && k < Pow2(m)
    ensures occ(Word(k, m)) == occ(Word(k, m + 1)) + occ(Word(Pow2(m) + k, m + 1))
  {
    PrependZero(k, m);
    PrependOne(k, m);
  }

  lemma TableRefinesLeft(occ: Bits -> int, m: nat)
    requires Marginal(occ)
    ensures RefinesLeft(Table(occ, m + 1), Table(occ, m), Pow2(m))
  {
    forall k: nat | k < Pow2(m)
      ensures occ(Word(k, m)) == occ(Word(k, m + 1)) + occ(Word(Pow2(m) + k, m + 1))
    {
      assert MarginalAt(occ, Word(k, m));
      LeftSplit(occ, m, k);
    }
  }

  // ---- first difference ----

  /** (c[w0] - c[w1])^2 for the m-bit word w of key k. */
  function RightGap(occ: Bits -> int, m: nat, k: nat): int {
    Sq(occ(Word(k, m) + [0]) - occ(Word(k, m) + [1]))
  }

  function RightGaps(occ: Bits -> int, m: nat): nat -> int {
    (k: nat) => RightGap(occ, m, k)
  }

  lemma RightGapsAreGaps(occ: Bits -> int, m: nat, n: nat)
    ensures Sum(n, PairGaps(Sq, Table(occ, m + 1))) == Sum(n, RightGaps(occ, m))
  {
    forall k: nat | k < n
      ensures PairGapsAt(Sq, Table(occ, m + 1), k) == RightGap(occ, m, k)
    {
      WordAppend(k, m, 0);
      WordAppend(k, m, 1);
    }
    SumEqual(n, PairGaps(Sq, Table(occ, m + 1)), RightGaps(occ, m));
  }

  lemma RightSquares(occ: Bits -> int, m: nat)
    requires Marginal(occ)
    ensures 2 * SumSquares(occ, m + 1) - SumSquares(occ, m) == Sum(Pow2(m), RightGaps(occ, m))
  {
    TableRefinesRight(occ, m, Pow2(m));
    SquareGaps(Table(occ, m + 1), Table(occ, m), Pow2(m));
    RightGapsAreGaps(occ, m, Pow2(m));
  }

  // ---- second difference ----

  /** (c[0w0] - c[0w1] - c[1w0] + c[1w1])^2 for the m-bit word w of key k. */
  function CrossGap(occ: Bits -> int, m: nat, k: nat): int {
    var w := Word(k, m);
    Sq(occ([0] + w + [0]) - occ([0] + w + [1]) - occ([1] + w + [0]) + occ([1] + w + [1]))
  }

  function AllCrossGaps(occ: Bits -> int, m: nat): nat -> int {
    (k: nat) => CrossGap(occ, m, k)
  }

  /** The word awb, by key: x is the key of aw. */
  lemma CornerKey(k: nat, m: nat, a: Bit, b: Bit, x: nat)
    requires k < Pow2(m) && x == a * Pow2(m) + k
    ensures Word(2 * x + b, m + 2) == [a] + Word(k, m) + [b]
  {
    WordPrepend(k, m, a);
    var aw := Word(x, m + 1);
    WordAppend(x, m + 1, b);
    assert aw == [a] + Word(k, m);
  }

  /** The count of awb is found in the table under twice the key of aw, plus b. */
  lemma Corner(occ: Bits -> int, k: nat, m: nat, a: Bit, b: Bit, x: nat)
    requires k < Pow2(m) && x == a * Pow2(m) + k
    ensures Table(occ, m + 2)(2 * x + b) == occ([a] + Word(k, m) + [b])
  {
    CornerKey(k, m, a, b, x);
  }

  lemma CrossGapAt(occ: Bits -> int, m: nat, k: nat)
    requires k < Pow2(m)
    ensures CrossGapsAt(Sq, Table(occ, m + 2), Pow2(m), k) == CrossGap(occ, m, k)
  {
    Corner(occ, k, m, 0, 0, k);
    Corner(occ, k, m, 0, 1, k);
    Corner(occ, k, m, 1, 0, Pow2(m) + k);
    Corner(occ, k, m, 1, 1, Pow2(m) + k);
    var w := Word(k, m);
    CrossGapsOf(Sq, Table(occ, m + 2), Pow2(m), k,
                occ([0] + w + [0]), occ([0] + w + [1]), occ([1] + w + [0]), occ([1] + w + [1]));
  }

  lemma CrossGapsAreGaps(occ: Bits -> int, m: nat)
    ensures Sum(Pow2(m), CrossGaps(Sq, Table(occ, m + 2), Pow2(m))) == Sum(Pow2(m), AllCrossGaps(occ, m))
  {
    forall k: nat | k < Pow2(m)
      ensures CrossGapsAt(Sq, Table(occ, m + 2), Pow2(m), k) == CrossGap(occ, m, k)
    {
      CrossGapAt(occ, m, k);
    }
    SumEqual(Pow2(m), CrossGaps(Sq, Table(occ, m + 2), Pow2(m)), AllCrossGaps(occ, m));
  }

  lemma TableSquares(occ: Bits -> int, m: nat)
    requires Marginal(occ)
    ensures 4 * Sum(4 * Pow2(m), Mapped(Sq, Table(occ, m + 2))) - 4 * Sum(2 * Pow2(m), Mapped(Sq, Table(occ, m + 1)))
            + Sum(Pow2(m), Mapped(Sq, Table(occ, m))) == Sum(Pow2(m), CrossGaps(Sq, Table(occ, m + 2), Pow2(m)))
  {
    TableRefinesRight(occ, m + 1, 2 * Pow2(m));
    TableRefinesLeft(occ, m + 1);
    TableRefinesRight(occ, m, Pow2(m));
    SquareCrossGaps(Table(occ, m + 2), Table(occ, m + 1), Table(occ, m), Pow2(m));
  }

  lemma CrossSquares(occ: Bits -> int, m: nat)
    requires Marginal(occ)
    ensures 4 * SumSquares(occ, m + 2) - 4 * SumSquares(occ, m + 1) + SumSquares(occ, m) == Sum(Pow2(m), AllCrossGaps(occ, m))
  {
    assert Pow2(m + 1) == 2 * Pow2(m) && Pow2(m + 2) == 4 * Pow2(m);
    TableSquares(occ, m);
    CrossGapsAreGaps(occ, m);
  }

  lemma GapSumsNonNegative(occ: Bits -> int, m: nat)
    ensures Sum(Pow2(m), RightGaps(occ, m)) >= 0 && Sum(Pow2(m), AllCrossGaps(occ, m)) >= 0
  {
    forall k: nat
      ensures RightGap(occ, m, k) >= 0 && CrossGap(occ, m, k) >= 0
    {
      var w := Word(k, m);
      SqNonNegative(occ(w + [0]) - occ(w + [1]));
      SqNonNegative(occ([0] + w + [0]) - occ([0] + w + [1]) - occ([1] + w + [0]) + occ([1] + w + [1]));
    }
    SumNonNegative(Pow2(m), RightGaps(occ, m));
    SumNonNegative(Pow2(m), AllCrossGaps(occ, m));
  }

  // ---- psi^2 ----

  function Occ(bits: Bits): Bits -> int
    requires |bits| > 0
  {
    (w: Bits) => Occurrences(bits, w)
  }

  lemma OccMarginal(bits: Bits)
    requires |bits| > 0
    ensures Marginal(Occ(bits))
  {
    forall w
      ensures MarginalAt(Occ(bits), w)
    {
      Marginals(bits, w);
    }
  }

  lemma TableTotals(occ: Bits -> int, m: nat)
    requires Marginal(occ)
    ensures Sum(Pow2(m + 1), Table(occ, m + 1)) == Sum(Pow2(m), Table(occ, m))
  {
    TableRefinesRight(occ, m, Pow2(m));
    TotalsAgree(Table(occ, m + 1), Table(occ, m), Pow2(m));
  }

  lemma SumOne(f: nat -> int)
    ensures Sum(Pow2(0), f) == f(0)
  {
    assert Pow2(0) == 1 && Sum(1, f) == Sum(0, f) + f(0);
  }

  /** The counts of all m-bit words sum to n. */
  lemma {:induction false} CountsSumToLength(bits: Bits, m: nat)
    requires |bits| > 0
    ensures Sum(Pow2(m), Table(Occ(bits), m)) == |bits|
  {
    if m == 0 {
      EmptyWordEverywhere(bits, |bits|);
      assert Word(0, 0) == [] && Table(Occ(bits), 0)(0) == |bits|;
      SumOne(Table(Occ(bits), 0));
    } else {
      OccMarginal(bits);
      TableTotals(Occ(bits), m - 1);
      CountsSumToLength(bits, m - 1);
    }
  }

  /** n * psi^2_m, by the definition in section 2.11.4: 2^m * sum of squared counts, less n^2. */
  function ScaledPsi2(bits: Bits, m: nat): int
    requires |bits| > 0
  {
    Pow2(m) * SumSquares(Occ(bits), m) - |bits| * |bits|
  }

  lemma DistributeTwo(n: int, x: int, y: int, gaps: int, n2: int)
    requires 2 * x - y == gaps
    ensures ((2 * n) * x - n2) - (n * y - n2) == n * gaps
  {
    assert n * (2 * x - y) == (2 * n) * x - n * y;
  }

  lemma DistributeFour(n: int, x: int, y: int, z: int, gaps: int, n2: int)
    requires 4 * x - 4 * y + z == gaps
    ensures ((4 * n) * x - n2) - 2 * ((2 * n) * y - n2) + (n * z - n2) == n * gaps
  {
    assert n * (4 * x - 4 * y + z) == (4 * n) * x - 2 * ((2 * n) * y) + n * z;
  }

  lemma ProductNonNegative(a: int, b: int)
    requires a >= 0 && b >= 0
    ensures a * b >= 0
  {
  }

  /** 2^m times the sum of (c[w0] - c[w1])^2 over all m-bit words w. */
  function RightGapSum(occ: Bits -> int, m: nat): int {
    Pow2(m) * Sum(Pow2(m), RightGaps(occ, m))
  }

  /** 2^m times the sum of (c[0w0] - c[0w1] - c[1w0] + c[1w1])^2 over all m-bit words w. */
  function CrossGapSum(occ: Bits -> int, m: nat): int {
    Pow2(m) * Sum(Pow2(m), AllCrossGaps(occ, m))
  }

  /**
   * First difference: n * (psi^2_(m+1) - psi^2_m) is 2^m times the sum over all m-bit words w of
   * (c[w0] - c[w1])^2, so it is never negative.
   */
  lemma FirstDifference(bits: Bits, m: nat)
    requires |bits| > 0
    ensures ScaledPsi2(bits, m + 1) - ScaledPsi2(bits, m) == RightGapSum(Occ(bits), m) >= 0
  {
    var occ := Occ(bits);
    OccMarginal(bits);
    RightSquares(occ, m);
    GapSumsNonNegative(occ, m);
    var gaps := Sum(Pow2(m), RightGaps(occ, m));
    DistributeTwo(Pow2(m), SumSquares(occ, m + 1), SumSquares(occ, m), gaps, |bits| * |bits|);
    ProductNonNegative(Pow2(m), gaps);
  }

  /**
   * Second difference: n * (psi^2_(m+2) - 2 psi^2_(m+1) + psi^2_m) is 2^m times the sum over all
   * m-bit words w of (c[0w0] - c[0w1] - c[1w0] + c[1w1])^2, so it is never negative.
   */
  lemma SecondDifference(bits: Bits, m: nat)
    requires |bits| > 0
    ensures ScaledPsi2(bits, m + 2) - 2 * ScaledPsi2(bits, m + 1) + ScaledPsi2(bits, m)
         == CrossGapSum(Occ(bits), m) >= 0
  {
    var occ := Occ(bits);
    OccMarginal(bits);
    CrossSquares(occ, m);
    GapSumsNonNegative(occ, m);
    assert Pow2(m + 1) == 2 * Pow2(m) && Pow2(m + 2) == 4 * Pow2(m);
    var gaps := Sum(Pow2(m), AllCrossGaps(occ, m));
    DistributeFour(Pow2(m), SumSquares(occ, m + 2), SumSquares(occ, m + 1), SumSquares(occ, m), gaps, |bits| * |bits|);
    ProductNonNegative(Pow2(m), gaps);
  }

  // ---- the code ----

  /** The map holds the count of every word that occurs, under its key, and nothing else. */
  ghost predicate Tabulates(counts: map<nat, nat>, occ: Bits -> int, m: nat) {
    && (forall k | k in counts :: k < Pow2(m))
    && (forall k: nat | k < Pow2(m) :: (if k in counts then counts[k] else 0) == Table(occ, m)(k))
  }

  function Term(counts: map<nat, nat>, left: set<nat>, k: nat): int
    requires left <= counts.Keys
  {
    if k in left then Sq(counts[k]) else 0
  }

  /** The terms of the sum that the keys in `left` still have to contribute. */
  function Remaining(counts: map<nat, nat>, left: set<nat>): nat -> int
    requires left <= counts.Keys
  {
    (k: nat) => Term(counts, left, k)
  }

  /** Changing one term of a sum changes the sum by that term. */
  lemma {:induction false} SumPoint(n: nat, f: nat -> int, g: nat -> int, at: nat)
    requires at < n && forall k: nat | k < n && k != at :: f(k) == g(k)
    ensures Sum(n, f) - Sum(n, g) == f(at) - g(at)
  {
    if at == n - 1 {
      SumEqual(n - 1, f, g);
    } else {
      SumPoint(n - 1, f, g, at);
    }
  }

  lemma TakeOne(counts: map<nat, nat>, left: set<nat>, k: nat, n: nat)
    requires left <= counts.Keys && k in left && k < n
    ensures Sum(n, Remaining(counts, left)) == Sum(n, Remaining(counts, left - {k})) + counts[k] * counts[k]
  {
    forall j: nat | j != k
      ensures Term(counts, left, j) == Term(counts, left - {k}, j)
    {
    }
    SumPoint(n, Remaining(counts, left), Remaining(counts, left - {k}), k);
  }

  lemma {:induction false} NoneRemaining(counts: map<nat, nat>, n: nat)
    ensures Sum(n, Remaining(counts, {})) == 0
  {
    if n > 0 {
      NoneRemaining(counts, n - 1);
    }
  }

  /** Summing over the map's keys is summing over all words: words without a key do not occur. */
  lemma MapCoversWords(counts: map<nat, nat>, occ: Bits -> int, m: nat)
    requires Tabulates(counts, occ, m)
    ensures Sum(Pow2(m), Remaining(counts, counts.Keys)) == SumSquares(occ, m)
  {
    forall k: nat | k < Pow2(m)
      ensures Term(counts, counts.Keys, k) == Sq(Table(occ, m)(k))
    {
    }
    SumEqual(Pow2(m), Remaining(counts, counts.Keys), Mapped(Sq, Table(occ, m)));
  }

  /** The range over the counts map, in whatever order the keys come. */
  method SumOverMap(counts: map<nat, nat>, ghost occ: Bits -> int, ghost m: nat) returns (sum: int)
    requires Tabulates(counts, occ, m)
    ensures sum == SumSquares(occ, m)
  {
    sum := 0;
    var left := counts.Keys;
    MapCoversWords(counts, occ, m);
    while left != {}
      invariant left <= counts.Keys
      invariant sum + Sum(Pow2(m), Remaining(counts, left)) == SumSquares(occ, m)
      decreases left
    {
      var k :| k in left;
      TakeOne(counts, left, k, Pow2(m));
      sum := sum + counts[k] * counts[k];
      left := left - {k};
    }
    NoneRemaining(counts, Pow2(m));
  }

  /** Up to 32 bits the map of keys built by the counting loop tabulates the words. */
  lemma KeysTabulate(counts: map<nat, nat>, bits: Bits, m: nat)
    requires |bits| > 0 && m <= 32
    requires forall k: nat :: (k in counts <==> KeyHits(bits, m, k, |bits|) > 0)
                              && (k in counts ==> counts[k] == KeyHits(bits, m, k, |bits|))
    ensures Tabulates(counts, Occ(bits), m)
  {
    forall k: nat
      ensures k in counts ==> k < Pow2(m)
      ensures k < Pow2(m) ==> (if k in counts then counts[k] else 0) == Occurrences(bits, Word(k, m))
    {
      KeyHitsAreHits(bits, m, k, |bits|);
    }
  }

  /** serialPsi2, times n. */
  method SerialPsi2(bits: Bits, m: nat) returns (psi2: int)
    requires |bits| > 0 && 1 <= m <= 32 && m <= |bits| + 1
    ensures psi2 == ScaledPsi2(bits, m)
  {
    var counts := CountPatterns(bits, m);
    KeysTabulate(counts, bits, m);
    var sum := SumOverMap(counts, Occ(bits), m);
    psi2 := Pow2(m) * sum - |bits| * |bits|;
  }

  /** The second test of the loop follows from the first. */
  lemma SecondGuardImplied(mm: nat, n: nat)
    requires mm >= 2 && 2 * mm * Pow2(mm) <= n
    ensures Pow2(mm - 2) <= n
  {
    Pow2Monotone(mm - 2, mm);
    AtLeastFactor(2 * mm, Pow2(mm));
  }

  lemma AtLeastFactor(a: nat, b: nat)
    requires a >= 1
    ensures b <= a * b
  {
    assert (a - 1) * b >= 0;
  }

  /** The largest pattern length in [3, 16] with 2 * m * 2^m <= n, or 3 when there is none. */
  method PatternLength(n: nat) returns (m: nat)
    ensures 3 <= m <= 16 && (m == 3 || 2 * m * Pow2(m) <= n)
    ensures forall mm: nat | m < mm <= 16 :: 2 * mm * Pow2(mm) > n
    ensures n >= 2 ==> m <= n + 1
  {
    m := 3;
    var mm := 3;
    while mm <= 16
      invariant 3 <= mm <= 17 && 3 <= m <= 16 && m <= mm && (m == 3 || 2 * m * Pow2(m) <= n)
      invariant forall l: nat | m < l < mm :: 2 * l * Pow2(l) > n
    {
      if 2 * mm * Pow2(mm) <= n {
        SecondGuardImplied(mm, n);
      }
      if 2 * mm * Pow2(mm) <= n && Pow2(mm - 2) <= n {
        m := mm;
      }
      mm := mm + 1;
    }
    if m > 3 {
      FitsLength(m, n);
    }
  }

  /** A pattern length that fits leaves enough bits for the circular extension. */
  lemma FitsLength(m: nat, n: nat)
    requires m >= 1 && 2 * m * Pow2(m) <= n
    ensures m <= n
  {
    AtLeastFactor(Pow2(m), 2 * m);
  }

  lemma FirstIs(bits: Bits, m: nat, psiM: int, psiM1: int)
    requires |bits| > 0 && m >= 1 && psiM == ScaledPsi2(bits, m) && psiM1 == ScaledPsi2(bits, m - 1)
    ensures psiM - psiM1 == RightGapSum(Occ(bits), m - 1) >= 0
  {
    FirstDifference(bits, m - 1);
  }

  lemma SecondIs(bits: Bits, m: nat, psiM: int, psiM1: int, psiM2: int)
    requires |bits| > 0 && m >= 2
    requires psiM == ScaledPsi2(bits, m) && psiM1 == ScaledPsi2(bits, m - 1) && psiM2 == ScaledPsi2(bits, m - 2)
    ensures psiM - 2 * psiM1 + psiM2 == CrossGapSum(Occ(bits), m - 2) >= 0
  {
    SecondDifference(bits, m - 2);
  }

  /**
   * The two differences of psi^2 that NISTSerial takes, times n: they are the sums of squares
   * above, so igamc's argument is never negative.
   */
  method Differences(bits: Bits, m: nat) returns (d1: int, d2: int)
    requires 3 <= m <= 16 && m <= |bits| + 1
    ensures d1 == RightGapSum(Occ(bits), m - 1) >= 0
    ensures d2 == CrossGapSum(Occ(bits), m - 2) >= 0
  {
    var psiM := SerialPsi2(bits, m);
    var psiM1 := SerialPsi2(bits, m - 1);
    var psiM2 := SerialPsi2(bits, m - 2);
    FirstIs(bits, m, psiM, psiM1);
    SecondIs(bits, m, psiM, psiM1, psiM2);
    d1 := psiM - psiM1;
    d2 := psiM - 2 * psiM1 + psiM2;
  }

  /** NISTSerial up to the calls of igamc. */
  method NISTSerial(bits: Bits) returns (d1: int, d2: int, m: nat)
    requires |bits| >= 2
    ensures 3 <= m <= 16 && (m == 3 || 2 * m * Pow2(m) <= |bits|)
    ensures forall mm: nat | m < mm <= 16 :: 2 * mm * Pow2(mm) > |bits|
    ensures d1 == RightGapSum(Occ(bits), m - 1) >= 0
    ensures d2 == CrossGapSum(Occ(bits), m - 2) >= 0
  {
    m := PatternLength(|bits|);
    d1, d2 := Differences(bits, m);
  }
}
