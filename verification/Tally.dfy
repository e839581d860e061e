/** Totals of a weight over a sequence, and sums of an integer function over 0..n. */
module Tally {

  function Total<T>(s: seq<T>, f: T -> nat): nat {
    if s == [] then 0 else Total(s[..|s| - 1], f) + f(s[|s| - 1])
  }

  /** Replacing one element changes the total by exactly that element's weight. */
  lemma {:induction false} TotalUpdate<T>(s: seq<T>, i: nat, x: T, f: T -> nat)
    requires i < |s|
    ensures Total(s[i := x], f) + f(s[i]) == Total(s, f) + f(x)
  {
    var last := |s| - 1;
    if i == last {
      assert s[i := x][..last] == s[..last];
    } else {
      TotalUpdate(s[..last], i, x, f);
      assert s[i := x][..last] == s[..last][i := x];
    }
  }

  lemma {:induction false} TotalAppend<T>(s: seq<T>, x: T, f: T -> nat)
    ensures Total(s + [x], f) == Total(s, f) + f(x)
  {
    assert (s + [x])[..|s|] == s;
  }

  lemma {:induction false} TotalConcat<T>(xs: seq<T>, ys: seq<T>, f: T -> nat)
    ensures Total(xs + ys, f) == Total(xs, f) + Total(ys, f)
  {
    if ys == [] {
      assert xs + ys == xs;
    } else {
      assert (xs + ys)[..|xs + ys| - 1] == xs + ys[..|ys| - 1];
      TotalConcat(xs, ys[..|ys| - 1], f);
    }
  }

  lemma {:induction false} TotalAtMost<T>(s: seq<T>, f: T -> nat, bound: nat)
    requires forall i | 0 <= i < |s| :: f(s[i]) <= bound
    ensures Total(s, f) <= |s| * bound
  {
    if s != [] {
      TotalAtMost(s[..|s| - 1], f, bound);
    }
  }

  lemma {:induction false} TotalZero<T>(s: seq<T>, f: T -> nat)
    ensures Total(s, f) == 0 <==> forall i | 0 <= i < |s| :: f(s[i]) == 0
  {
    if s != [] {
      var last := |s| - 1;
      TotalZero(s[..last], f);
      assert forall i | 0 <= i < last :: s[..last][i] == s[i];
    }
  }

  /** A 0/1 weight that is 0 somewhere does not reach the length. */
  lemma {:induction false} TotalMissesOne<T>(s: seq<T>, f: T -> nat, i: nat)
    requires i < |s| && f(s[i]) == 0
    requires forall j | 0 <= j < |s| :: f(s[j]) <= 1
    ensures Total(s, f) < |s|
  {
    var last := |s| - 1;
    if i == last {
      TotalAtMost(s[..last], f, 1);
    } else {
      TotalMissesOne(s[..last], f, i);
    }
  }

  function Sum(n: nat, f: nat -> int): int {
    if n == 0 then 0 else Sum(n - 1, f) + f(n - 1)
  }

  lemma {:induction false} SumEqual(n: nat, f: nat -> int, g: nat -> int)
    requires forall k: nat | k < n :: f(k) == g(k)
    ensures Sum(n, f) == Sum(n, g)
  {
    if n > 0 {
      SumEqual(n - 1, f, g);
    }
  }

  lemma {:induction false} SumLinear(n: nat, a: int, f: nat -> int, b: int, g: nat -> int)
    ensures Sum(n, (k: nat) => a * f(k) + b * g(k)) == a * Sum(n, f) + b * Sum(n, g)
  {
    if n > 0 {
      SumLinear(n - 1, a, f, b, g);
    }
  }

  lemma {:induction false} SumNonNegative(n: nat, f: nat -> int)
    requires forall k: nat | k < n :: f(k) >= 0
    ensures Sum(n, f) >= 0
  {
    if n > 0 {
      SumNonNegative(n - 1, f);
    }
  }

  /** Regroups 2n terms as n pairs of neighbours. */
  lemma {:induction false} SumPairs(n: nat, f: nat -> int)
    ensures Sum(2 * n, f) == Sum(n, (k: nat) => f(2 * k) + f(2 * k + 1))
  {
    if n > 0 {
      SumPairs(n - 1, f);
    }
  }

  /** Regroups n + m terms as the first n followed by the next m. */
  lemma {:induction false} SumSplit(n: nat, m: nat, f: nat -> int)
    ensures Sum(n + m, f) == Sum(n, f) + Sum(m, (k: nat) => f(n + k))
  {
    if m > 0 {
      SumSplit(n, m - 1, f);
    }
  }
}
