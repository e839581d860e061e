/**
 * Sums of squares over tables of counts that refine one another. A table c of 2n entries refines
 * a table p of n entries on the right when p(k) = c(2k) + c(2k+1), and on the left when
 * p(k) = c(k) + c(n+k). The regrouping lemmas hold for any function g in the place of squaring.
 */
module CountTables {
  import opened Tally

  function Sq(x: int): int { x * x }

  function Mapped(g: int -> int, c: nat -> int): nat -> int {
    (k: nat) => g(c(k))
  }

  ghost predicate RefinesRight(c: nat -> int, p: nat -> int, n: nat) {
    forall k: nat {:trigger p(k)} | k < n :: p(k) == c(2 * k) + c(2 * k + 1)
  }

  ghost predicate RefinesLeft(c: nat -> int, p: nat -> int, n: nat) {
    forall k: nat {:trigger p(k)} | k < n :: p(k) == c(k) + c(n + k)
  }

  // ---- first difference ----

  function PairValuesAt(g: int -> int, c: nat -> int, k: nat): int {
    g(c(2 * k)) + g(c(2 * k + 1))
  }

  function PairValues(g: int -> int, c: nat -> int): nat -> int {
    (k: nat) => PairValuesAt(g, c, k)
  }

  function PairSumsAt(g: int -> int, c: nat -> int, k: nat): int {
    g(c(2 * k) + c(2 * k + 1))
  }

  function PairSums(g: int -> int, c: nat -> int): nat -> int {
    (k: nat) => PairSumsAt(g, c, k)
  }

  function PairGapsAt(g: int -> int, c: nat -> int, k: nat): int {
    g(c(2 * k) - c(2 * k + 1))
  }

  function PairGaps(g: int -> int, c: nat -> int): nat -> int {
    (k: nat) => PairGapsAt(g, c, k)
  }

  lemma ByPairs(g: int -> int, c: nat -> int, n: nat)
    ensures Sum(2 * n, Mapped(g, c)) == Sum(n, PairValues(g, c))
  {
    var f := Mapped(g, c);
    SumPairs(n, f);
    SumEqual(n, (k: nat) => f(2 * k) + f(2 * k + 1), PairValues(g, c));
  }

  lemma ByPairSums(g: int -> int, c: nat -> int, p: nat -> int, n: nat)
    requires RefinesRight(c, p, n)
    ensures Sum(n, Mapped(g, p)) == Sum(n, PairSums(g, c))
  {
    SumEqual(n, Mapped(g, p), PairSums(g, c));
  }

  /** Refining a table does not change its total. */
  lemma TotalsAgree(c: nat -> int, p: nat -> int, n: nat)
    requires RefinesRight(c, p, n)
    ensures Sum(2 * n, c) == Sum(n, p)
  {
    SumPairs(n, c);
    SumEqual(n, (k: nat) => c(2 * k) + c(2 * k + 1), p);
  }

  lemma GapIdentity(a: int, b: int)
    ensures 2 * (Sq(a) + Sq(b)) + -1 * Sq(a + b) == Sq(a - b)
  {
  }

  lemma GapsEverywhere(c: nat -> int)
    ensures forall k: nat :: PairGapsAt(Sq, c, k) == 2 * PairValuesAt(Sq, c, k) + -1 * PairSumsAt(Sq, c, k)
  {
    forall k: nat
      ensures PairGapsAt(Sq, c, k) == 2 * PairValuesAt(Sq, c, k) + -1 * PairSumsAt(Sq, c, k)
    {
      GapIdentity(c(2 * k), c(2 * k + 1));
    }
  }

  lemma SumLinearIs(n: nat, a: int, f: nat -> int, b: int, g: nat -> int, s: nat -> int)
    requires forall k: nat | k < n :: s(k) == a * f(k) + b * g(k)
    ensures Sum(n, s) == a * Sum(n, f) + b * Sum(n, g)
  {
    SumLinear(n, a, f, b, g);
    SumEqual(n, s, (k: nat) => a * f(k) + b * g(k));
  }

  /** Squares at one level against squares at the next: what is left is the squared gaps. */
  lemma SquareGaps(c: nat -> int, p: nat -> int, n: nat)
    requires RefinesRight(c, p, n)
    ensures 2 * Sum(2 * n, Mapped(Sq, c)) - Sum(n, Mapped(Sq, p)) == Sum(n, PairGaps(Sq, c))
  {
    ByPairs(Sq, c, n);
    ByPairSums(Sq, c, p, n);
    GapsEverywhere(c);
    SumLinearIs(n, 2, PairValues(Sq, c), -1, PairSums(Sq, c), PairGaps(Sq, c));
  }

  // ---- second difference ----

  // The four entries c(2k), c(2k+1), c(2(n+k)), c(2(n+k)+1) of a table of 4n entries.

  function CornerValuesAt(g: int -> int, c: nat -> int, n: nat, k: nat): int {
    g(c(2 * k)) + g(c(2 * k + 1)) + g(c(2 * (n + k))) + g(c(2 * (n + k) + 1))
  }

  function CornerValues(g: int -> int, c: nat -> int, n: nat): nat -> int {
    (k: nat) => CornerValuesAt(g, c, n, k)
  }

  function RowSumsAt(g: int -> int, c: nat -> int, n: nat, k: nat): int {
    g(c(2 * k) + c(2 * k + 1)) + g(c(2 * (n + k)) + c(2 * (n + k) + 1))
  }

  function RowSums(g: int -> int, c: nat -> int, n: nat): nat -> int {
    (k: nat) => RowSumsAt(g, c, n, k)
  }

  function ColumnSumsAt(g: int -> int, c: nat -> int, n: nat, k: nat): int {
    g(c(2 * k) + c(2 * (n + k))) + g(c(2 * k + 1) + c(2 * (n + k) + 1))
  }

  function ColumnSums(g: int -> int, c: nat -> int, n: nat): nat -> int {
    (k: nat) => ColumnSumsAt(g, c, n, k)
  }

  function CornerSumsAt(g: int -> int, c: nat -> int, n: nat, k: nat): int {
    g(c(2 * k) + c(2 * k + 1) + c(2 * (n + k)) + c(2 * (n + k) + 1))
  }

  function CornerSums(g: int -> int, c: nat -> int, n: nat): nat -> int {
    (k: nat) => CornerSumsAt(g, c, n, k)
  }

  function CrossGapsAt(g: int -> int, c: nat -> int, n: nat, k: nat): int {
    g(c(2 * k) - c(2 * k + 1) - c(2 * (n + k)) + c(2 * (n + k) + 1))
  }

  function CrossGaps(g: int -> int, c: nat -> int, n: nat): nat -> int {
    (k: nat) => CrossGapsAt(g, c, n, k)
  }

  lemma CrossGapsOf(g: int -> int, c: nat -> int, n: nat, k: nat, c00: int, c01: int, c10: int, c11: int)
    requires c(2 * k) == c00 && c(2 * k + 1) == c01 && c(2 * (n + k)) == c10 && c(2 * (n + k) + 1) == c11
    ensures CrossGapsAt(g, c, n, k) == g(c00 - c01 - c10 + c11)
  {
  }

  lemma SumHalves(n: nat, f: nat -> int, both: nat -> int)
    requires forall k: nat {:trigger both(k)} | k < n :: both(k) == f(k) + f(n + k)
    ensures Sum(2 * n, f) == Sum(n, both)
  {
    var upper := (k: nat) => f(n + k);
    SumSplit(n, n, f);
    SumLinearIs(n, 1, f, 1, upper, both);
  }

  lemma ByCorners(g: int -> int, c: nat -> int, n: nat)
    ensures Sum(4 * n, Mapped(g, c)) == Sum(n, CornerValues(g, c, n))
  {
    ByPairs(g, c, 2 * n);
    forall k: nat | k < n
      ensures CornerValuesAt(g, c, n, k) == PairValuesAt(g, c, k) + PairValuesAt(g, c, n + k)
    {
    }
    SumHalves(n, PairValues(g, c), CornerValues(g, c, n));
  }

  lemma ByRows(g: int -> int, c: nat -> int, p: nat -> int, n: nat)
    requires RefinesRight(c, p, 2 * n)
    ensures Sum(2 * n, Mapped(g, p)) == Sum(n, RowSums(g, c, n))
  {
    ByPairSums(g, c, p, 2 * n);
    forall k: nat | k < n
      ensures RowSumsAt(g, c, n, k) == PairSumsAt(g, c, k) + PairSumsAt(g, c, n + k)
    {
    }
    SumHalves(n, PairSums(g, c), RowSums(g, c, n));
  }

  lemma ByColumns(g: int -> int, c: nat -> int, p: nat -> int, n: nat)
    requires RefinesLeft(c, p, 2 * n)
    ensures Sum(2 * n, Mapped(g, p)) == Sum(n, ColumnSums(g, c, n))
  {
    ByPairs(g, p, n);
    forall k: nat | k < n
      ensures PairValuesAt(g, p, k) == ColumnSumsAt(g, c, n, k)
    {
      LeftAt(c, p, n, k);
    }
    SumEqual(n, PairValues(g, p), ColumnSums(g, c, n));
  }

  lemma LeftAt(c: nat -> int, p: nat -> int, n: nat, k: nat)
    requires RefinesLeft(c, p, 2 * n) && k < n
    ensures p(2 * k) == c(2 * k) + c(2 * (n + k)) && p(2 * k + 1) == c(2 * k + 1) + c(2 * (n + k) + 1)
  {
    assert 2 * n + 2 * k == 2 * (n + k);
    assert 2 * n + (2 * k + 1) == 2 * (n + k) + 1;
  }

  lemma ByCornerSums(g: int -> int, c: nat -> int, p: nat -> int, q: nat -> int, n: nat)
    requires RefinesRight(c, p, 2 * n) && RefinesRight(p, q, n) && RefinesLeft(c, p, 2 * n)
    ensures Sum(n, Mapped(g, q)) == Sum(n, CornerSums(g, c, n))
  {
    forall k: nat | k < n
      ensures g(q(k)) == CornerSumsAt(g, c, n, k)
    {
      LeftAt(c, p, n, k);
      assert q(k) == c(2 * k) + c(2 * k + 1) + c(2 * (n + k)) + c(2 * (n + k) + 1);
    }
    SumEqual(n, Mapped(g, q), CornerSums(g, c, n));
  }

  lemma CrossIdentity(a: int, b: int, c: int, d: int)
    ensures 4 * (Sq(a) + Sq(b) + Sq(c) + Sq(d)) + -2 * (Sq(a + b) + Sq(c + d)) + -2 * (Sq(a + c) + Sq(b + d))
            + Sq(a + b + c + d) == Sq(a - b - c + d)
  {
  }

  lemma CrossEverywhere(c: nat -> int, n: nat)
    ensures forall k: nat :: CrossGapsAt(Sq, c, n, k)
              == 4 * CornerValuesAt(Sq, c, n, k) + -2 * RowSumsAt(Sq, c, n, k) + -2 * ColumnSumsAt(Sq, c, n, k) + 1 * CornerSumsAt(Sq, c, n, k)
  {
    forall k: nat
      ensures CrossGapsAt(Sq, c, n, k)
              == 4 * CornerValuesAt(Sq, c, n, k) + -2 * RowSumsAt(Sq, c, n, k) + -2 * ColumnSumsAt(Sq, c, n, k) + 1 * CornerSumsAt(Sq, c, n, k)
    {
      CrossIdentity(c(2 * k), c(2 * k + 1), c(2 * (n + k)), c(2 * (n + k) + 1));
    }
  }

  lemma SumLinear4(n: nat, a: int, f: nat -> int, b: int, g: nat -> int, c: int, h: nat -> int, d: int, i: nat -> int, s: nat -> int)
    requires forall k: nat | k < n :: s(k) == a * f(k) + b * g(k) + c * h(k) + d * i(k)
    ensures Sum(n, s) == a * Sum(n, f) + b * Sum(n, g) + c * Sum(n, h) + d * Sum(n, i)
  {
    var fg := (k: nat) => a * f(k) + b * g(k);
    var hi := (k: nat) => c * h(k) + d * i(k);
    SumLinear(n, a, f, b, g);
    SumLinear(n, c, h, d, i);
    SumLinearIs(n, 1, fg, 1, hi, s);
  }

  /** Squares at three levels: what is left is the squared cross gaps. */
  lemma SquareCrossGaps(c: nat -> int, p: nat -> int, q: nat -> int, n: nat)
    requires RefinesRight(c, p, 2 * n) && RefinesLeft(c, p, 2 * n) && RefinesRight(p, q, n)
    ensures 4 * Sum(4 * n, Mapped(Sq, c)) - 4 * Sum(2 * n, Mapped(Sq, p)) + Sum(n, Mapped(Sq, q)) == Sum(n, CrossGaps(Sq, c, n))
  {
    ByCorners(Sq, c, n);
    ByRows(Sq, c, p, n);
    ByColumns(Sq, c, p, n);
    ByCornerSums(Sq, c, p, q, n);
    CrossEverywhere(c, n);
    SumLinear4(n, 4, CornerValues(Sq, c, n), -2, RowSums(Sq, c, n), -2, ColumnSums(Sq, c, n), 1, CornerSums(Sq, c, n), CrossGaps(Sq, c, n));
  }

  // ---- sign ----

  lemma SqNonNegative(x: int)
    ensures Sq(x) >= 0
  {
  }
}
