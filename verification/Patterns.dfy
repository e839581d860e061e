/**
 * Overlapping m-bit patterns of a bit string extended circularly by m - 1 bits: the counting
 * loops of serialPsi2 and apEnPhi (internal/audit/validators/nist.go), and what the counts are.
 */
module Patterns {
  import opened Tally
  import opened BitStrings

  /** The m bits starting at position i, reading around the end. */
  function Window(bits: Bits, i: nat, m: nat): (w: Bits)
    requires |bits| > 0
    ensures |w| == m
  {
    seq(m, j requires 0 <= j < m => bits[(i + j) % |bits|])
  }

  function Hit(bits: Bits, w: Bits, i: nat): nat
    requires |bits| > 0
  {
    if Window(bits, i, |w|) == w then 1 else 0
  }

  function Hits(bits: Bits, w: Bits, upto: nat): nat
    requires |bits| > 0
  {
    if upto == 0 then 0 else Hits(bits, w, upto - 1) + Hit(bits, w, upto - 1)
  }

  /** How often w occurs in the circular bit string. */
  function Occurrences(bits: Bits, w: Bits): nat
    requires |bits| > 0
  {
    Hits(bits, w, |bits|)
  }

  /** That is: the number of positions from which the bits, read around the end, spell w. */
  lemma OccurrencesArePositions(bits: Bits, w: Bits)
    requires |bits| > 0
    ensures Occurrences(bits, w) == |set i | 0 <= i < |bits| && SpelledAt(bits, w, i)|
  {
    HitsArePositions(bits, w, |bits|);
  }

  predicate SpelledAt(bits: Bits, w: Bits, i: nat)
    requires |bits| > 0
  {
    forall j | 0 <= j < |w| :: bits[(i + j) % |bits|] == w[j]
  }

  lemma {:induction false} HitsArePositions(bits: Bits, w: Bits, upto: nat)
    requires |bits| > 0
    ensures Hits(bits, w, upto) == |set i | 0 <= i < upto && SpelledAt(bits, w, i)|
  {
    var all := set i | 0 <= i < upto && SpelledAt(bits, w, i);
    if upto == 0 {
      assert all == {};
    } else {
      var i := upto - 1;
      HitsArePositions(bits, w, i);
      HitIsSpelled(bits, w, i);
      assert all == (set k | 0 <= k < i && SpelledAt(bits, w, k)) + if SpelledAt(bits, w, i) then {i} else {};
    }
  }

  lemma HitIsSpelled(bits: Bits, w: Bits, i: nat)
    requires |bits| > 0
    ensures Hit(bits, w, i) == if SpelledAt(bits, w, i) then 1 else 0
  {
    var v := Window(bits, i, |w|);
    if v == w {
      assert forall j | 0 <= j < |w| :: bits[(i + j) % |bits|] == v[j];
    }
    if SpelledAt(bits, w, i) {
      assert v == w;
    }
  }

  // ---- marginals ----

  lemma HitOnRight(bits: Bits, w: Bits, i: nat)
    requires |bits| > 0
    ensures Hit(bits, w + [0], i) + Hit(bits, w + [1], i) == Hit(bits, w, i)
  {
    var b: Bit := bits[(i + |w|) % |bits|];
    assert Window(bits, i, |w| + 1) == Window(bits, i, |w|) + [b];
    if Window(bits, i, |w|) == w {
      assert w + [b] != w + [1 - b] by { assert (w + [b])[|w|] != (w + [1 - b])[|w|]; }
    } else {
      assert (w + [0])[..|w|] == w && (w + [1])[..|w|] == w;
      assert Window(bits, i, |w| + 1)[..|w|] == Window(bits, i, |w|);
    }
  }

  lemma {:induction false} HitsOnRight(bits: Bits, w: Bits, upto: nat)
    requires |bits| > 0
    ensures Hits(bits, w + [0], upto) + Hits(bits, w + [1], upto) == Hits(bits, w, upto)
  {
    if upto > 0 {
      HitsOnRight(bits, w, upto - 1);
      HitOnRight(bits, w, upto - 1);
    }
  }

  lemma HitOnLeft(bits: Bits, w: Bits, i: nat)
    requires |bits| > 0
    ensures Hit(bits, [0] + w, i) + Hit(bits, [1] + w, i) == Hit(bits, w, i + 1)
  {
    var b: Bit := bits[i % |bits|];
    assert Window(bits, i, |w| + 1) == [b] + Window(bits, i + 1, |w|);
    if Window(bits, i + 1, |w|) == w {
      assert [b] + w != [1 - b] + w by { assert ([b] + w)[0] != ([1 - b] + w)[0]; }
    } else {
      assert ([0] + w)[1..] == w && ([1] + w)[1..] == w;
      assert Window(bits, i, |w| + 1)[1..] == Window(bits, i + 1, |w|);
    }
  }

  lemma {:induction false} HitsOnLeft(bits: Bits, w: Bits, upto: nat)
    requires |bits| > 0
    ensures Hits(bits, [0] + w, upto) + Hits(bits, [1] + w, upto) + Hit(bits, w, 0) == Hits(bits, w, upto + 1)
  {
    if upto > 0 {
      HitsOnLeft(bits, w, upto - 1);
      HitOnLeft(bits, w, upto - 1);
    }
  }

  /** The counts of longer patterns add up to the shorter one's, on either side. */
  lemma Marginals(bits: Bits, w: Bits)
    requires |bits| > 0
    ensures Occurrences(bits, w + [0]) + Occurrences(bits, w + [1]) == Occurrences(bits, w)
    ensures Occurrences(bits, [0] + w) + Occurrences(bits, [1] + w) == Occurrences(bits, w)
  {
    HitsOnRight(bits, w, |bits|);
    HitsOnLeft(bits, w, |bits|);
    WrapAround(bits, |w|);
  }

  /** The window at position n is the window at position 0. */
  lemma WrapAround(bits: Bits, m: nat)
    requires |bits| > 0
    ensures Window(bits, |bits|, m) == Window(bits, 0, m)
  {
    forall j | 0 <= j < m
      ensures (|bits| + j) % |bits| == j % |bits|
    {
      AddModulus(j, |bits|);
    }
  }

  lemma AddModulus(j: nat, n: nat)
    requires n > 0
    ensures (n + j) % n == j % n
  {
    RemainderUnique(n + j, n, j / n + 1, j % n);
  }

  lemma RemainderUnique(x: nat, n: nat, q: nat, r: nat)
    requires n > 0 && r < n && x == n * q + r
    ensures x % n == r
  {
    var d := q - x / n;
    assert n * d == x % n - r;
    MulBeyond(n, d);
  }

  lemma {:induction false} EmptyWordEverywhere(bits: Bits, upto: nat)
    requires |bits| > 0
    ensures Hits(bits, [], upto) == upto
  {
    if upto > 0 {
      EmptyWordEverywhere(bits, upto - 1);
    }
  }

  // ---- the rolling key ----

  const UINT32: nat := 0x1_0000_0000

  /** The uint32 the inner loop builds: the word's value, with the shift dropping high bits. */
  function Key(w: Bits): nat { Value(w) % UINT32 }

  /** One turn of the inner loop, key = (key << 1) | bit in 32 bits. */
  lemma KeyStep(w: Bits, b: Bit)
    ensures Key(w + [b]) == (2 * Key(w)) % UINT32 + b
  {
    assert (w + [b])[..|w|] == w;
    ShiftInUint32(Value(w), b);
  }

  lemma ShiftInUint32(v: nat, b: Bit)
    ensures (2 * v + b) % UINT32 == (2 * (v % UINT32)) % UINT32 + b
  {
    var q, r := v / UINT32, v % UINT32;
    if 2 * r >= UINT32 {
      RemainderUnique(2 * v + b, UINT32, 2 * q + 1, 2 * r - UINT32 + b);
      RemainderUnique(2 * r, UINT32, 1, 2 * r - UINT32);
    } else {
      RemainderUnique(2 * v + b, UINT32, 2 * q, 2 * r + b);
      RemainderUnique(2 * r, UINT32, 0, 2 * r);
    }
  }

  lemma {:induction false} Pow2Monotone(a: nat, b: nat)
    requires a <= b
    ensures Pow2(a) <= Pow2(b)
  {
    if a < b {
      Pow2Monotone(a, b - 1);
    }
  }

  lemma Pow2Of32()
    ensures Pow2(32) == UINT32
  {
    assert Pow2(8) == 256;
    Pow2Sum(8, 8);
    Pow2Sum(16, 16);
  }

  lemma {:induction false} Pow2Sum(a: nat, b: nat)
    ensures Pow2(a + b) == Pow2(a) * Pow2(b)
  {
    if b > 0 {
      Pow2Sum(a, b - 1);
    }
  }

  lemma ShortValues(w: Bits)
    requires |w| <= 32
    ensures Value(w) < UINT32
  {
    ValueBelow(w);
    Pow2Monotone(|w|, 32);
    Pow2Of32();
  }

  lemma KeyOfShort(w: Bits)
    requires Value(w) < UINT32
    ensures Key(w) == Value(w)
  {
  }

  /** Up to 32 bits the key is the word's value: below 2^m and different for different words. */
  lemma KeyIsExact(w: Bits)
    requires |w| <= 32
    ensures Key(w) == Value(w) < Pow2(|w|) && Word(Key(w), |w|) == w
  {
    ShortValues(w);
    ValueBelow(w);
    KeyOfShort(w);
    WordOfValue(w);
  }

  /** Beyond 32 bits the key only sees the last 32: words collide exactly when those agree. */
  lemma LongKeysCollide(u: Bits, v: Bits)
    requires |u| == |v| >= 32
    ensures Key(u) == Key(v) <==> u[|u| - 32..] == v[|v| - 32..]
  {
    KeyOfSuffix(u);
    KeyOfSuffix(v);
    KeyIsExact(u[|u| - 32..]);
    KeyIsExact(v[|v| - 32..]);
  }

  lemma KeyOfSuffix(u: Bits)
    requires |u| >= 32
    ensures Key(u) == Key(u[|u| - 32..])
  {
    var head, tail := u[..|u| - 32], u[|u| - 32..];
    assert u == head + tail;
    ValueConcat(head, tail);
    Pow2Of32();
    KeyIsExact(tail);
    RemainderUnique(Value(u), UINT32, Value(head), Value(tail));
  }

  /** Positions below `upto` whose window has key k. */
  function KeyHits(bits: Bits, m: nat, k: nat, upto: nat): nat
    requires |bits| > 0
  {
    if upto == 0 then 0
    else KeyHits(bits, m, k, upto - 1) + if Key(Window(bits, upto - 1, m)) == k then 1 else 0
  }

  /** For up to 32 bits, counting keys is counting words. */
  lemma {:induction false} KeyHitsAreHits(bits: Bits, m: nat, k: nat, upto: nat)
    requires |bits| > 0 && m <= 32
    ensures k < Pow2(m) ==> KeyHits(bits, m, k, upto) == Hits(bits, Word(k, m), upto)
    ensures k >= Pow2(m) ==> KeyHits(bits, m, k, upto) == 0
  {
    if upto > 0 {
      KeyHitsAreHits(bits, m, k, upto - 1);
      var w := Window(bits, upto - 1, m);
      KeyIsExact(w);
      if k < Pow2(m) {
        ValueOfWord(k, m);
      }
    }
  }

  // ---- the loop ----

  /** The circular extension the code builds reads like the window. */
  lemma ExtensionIsWindow(bits: Bits, ext: Bits, i: nat, m: nat)
    requires |bits| > 0 && 1 <= m <= |bits| + 1 && ext == bits + bits[..m - 1] && i < |bits|
    ensures forall j | 0 <= j < m :: i + j < |ext| && ext[i + j] == Window(bits, i, m)[j]
  {
    forall j | 0 <= j < m
      ensures i + j < |ext| && ext[i + j] == Window(bits, i, m)[j]
    {
      if i + j >= |bits| {
        WrapOnce(i + j, |bits|);
      } else {
        RemainderUnique(i + j, |bits|, 0, i + j);
      }
    }
  }

  lemma WrapOnce(x: nat, n: nat)
    requires n <= x < 2 * n
    ensures x % n == x - n
  {
    RemainderUnique(x, n, 1, x - n);
  }

  /** The key of the window at position i, built bit by bit. */
  method RollKey(bits: Bits, ext: Bits, i: nat, m: nat) returns (key: nat)
    requires |bits| > 0 && 1 <= m <= |bits| + 1 && ext == bits + bits[..m - 1] && i < |bits|
    ensures key == Key(Window(bits, i, m))
  {
    ExtensionIsWindow(bits, ext, i, m);
    ghost var w := Window(bits, i, m);
    key := 0;
    var j := 0;
    while j < m
      invariant 0 <= j <= m && key == Key(w[..j])
    {
      KeyStep(w[..j], w[j]);
      assert w[..j + 1] == w[..j] + [w[j]];
      key := (2 * key) % UINT32 + ext[i + j];
      j := j + 1;
    }
    assert w[..j] == w;
  }

  /** The map of pattern counts that serialPsi2 and apEnPhi both build. */
  method CountPatterns(bits: Bits, m: nat) returns (counts: map<nat, nat>)
    requires |bits| > 0 && 1 <= m <= |bits| + 1
    ensures forall k: nat :: (k in counts <==> KeyHits(bits, m, k, |bits|) > 0)
                             && (k in counts ==> counts[k] == KeyHits(bits, m, k, |bits|))
  {
    var ext := bits + bits[..m - 1];
    counts := map[];
    var i := 0;
    while i < |bits|
      invariant 0 <= i <= |bits|
      invariant forall k: nat :: (k in counts <==> KeyHits(bits, m, k, i) > 0)
                                 && (k in counts ==> counts[k] == KeyHits(bits, m, k, i))
    {
      var key := RollKey(bits, ext, i, m);
      counts := counts[key := (if key in counts then counts[key] else 0) + 1];
      i := i + 1;
    }
  }
}
