/**
 * The counting loops of the Approximate Entropy test (internal/audit/validators/nist.go,
 * NISTApproximateEntropy and apEnPhi; section 2.12 of NIST SP 800-22 Rev. 1a), up to the logarithms.
 */
module ApproximateEntropy {
  import opened Options
  import opened BitStrings
  import opened Patterns
  import opened Serial

  /** What the map says of a key: absent keys have not been seen. */
  function Count(counts: map<nat, nat>, key: nat): nat {
    if key in counts then counts[key] else 0
  }

  /** Each count of the m-bit map is two counts of the (m+1)-bit map, extending the word on either side. */
  ghost predicate Refines(upper: map<nat, nat>, lower: map<nat, nat>, m: nat) {
    forall k: nat | k < Pow2(m) ::
      Count(upper, 2 * k) + Count(upper, 2 * k + 1) == Count(lower, k) == Count(upper, k) + Count(upper, Pow2(m) + k)
  }

  lemma CountIs(counts: map<nat, nat>, bits: Bits, m: nat, k: nat)
    requires |bits| > 0 && Tabulates(counts, Occ(bits), m) && k < Pow2(m)
    ensures Count(counts, k) == Occurrences(bits, Word(k, m))
  {
    assert Table(Occ(bits), m)(k) == Occurrences(bits, Word(k, m));
  }

  lemma CountRight(upper: map<nat, nat>, bits: Bits, m: nat, k: nat, b: Bit)
    requires |bits| > 0 && k < Pow2(m) && Tabulates(upper, Occ(bits), m + 1)
    ensures Count(upper, 2 * k + b) == Occurrences(bits, Word(k, m) + [b])
  {
    CountIs(upper, bits, m + 1, 2 * k + b);
    WordAppend(k, m, b);
  }

  lemma CountLeft(upper: map<nat, nat>, bits: Bits, m: nat, k: nat)
    requires |bits| > 0 && k < Pow2(m) && Tabulates(upper, Occ(bits), m + 1)
    ensures Count(upper, k) == Occurrences(bits, [0] + Word(k, m))
    ensures Count(upper, Pow2(m) + k) == Occurrences(bits, [1] + Word(k, m))
  {
    CountIs(upper, bits, m + 1, k);
    CountIs(upper, bits, m + 1, Pow2(m) + k);
    PrependZero(k, m);
    PrependOne(k, m);
  }

  lemma RefinesAt(upper: map<nat, nat>, lower: map<nat, nat>, bits: Bits, m: nat, k: nat)
    requires |bits| > 0 && k < Pow2(m) && Tabulates(lower, Occ(bits), m) && Tabulates(upper, Occ(bits), m + 1)
    ensures Count(upper, 2 * k) + Count(upper, 2 * k + 1) == Count(lower, k) == Count(upper, k) + Count(upper, Pow2(m) + k)
  {
    CountIs(lower, bits, m, k);
    CountRight(upper, bits, m, k, 0);
    CountRight(upper, bits, m, k, 1);
    CountLeft(upper, bits, m, k);
    Marginals(bits, Word(k, m));
  }

  lemma TablesRefine(upper: map<nat, nat>, lower: map<nat, nat>, bits: Bits, m: nat)
    requires |bits| > 0 && Tabulates(lower, Occ(bits), m) && Tabulates(upper, Occ(bits), m + 1)
    ensures Refines(upper, lower, m)
  {
    forall k: nat | k < Pow2(m)
      ensures Count(upper, 2 * k) + Count(upper, 2 * k + 1) == Count(lower, k) == Count(upper, k) + Count(upper, Pow2(m) + k)
    {
      RefinesAt(upper, lower, bits, m, k);
    }
  }

  lemma {:induction false} BelowPow2(m: nat)
    ensures m < Pow2(m)
  {
    if m > 0 {
      BelowPow2(m - 1);
    }
  }

  /** The map holds, for every key, how many windows have it. */
  ghost predicate CountsKeys(counts: map<nat, nat>, bits: Bits, m: nat)
    requires |bits| > 0
  {
    forall k: nat :: Count(counts, k) == KeyHits(bits, m, k, |bits|)
  }

  /**
   * The maps behind phi_m and phi_(m+1). The test declines short samples; otherwise every access
   * is in bounds and the maps count the 32-bit keys of all windows. For keys that fit, those are
   * the counts of all m-bit and (m+1)-bit words, and the maps agree with each other.
   */
  method PhiCounts(bits: Bits, m: int) returns (maps: Option<(map<nat, nat>, map<nat, nat>)>)
    ensures maps.None? <==> bits == [] || m < 1 || |bits| < Pow2(m)
    ensures maps.Some? ==> CountsKeys(maps.value.0, bits, m) && CountsKeys(maps.value.1, bits, m + 1)
    ensures maps.Some? && m <= 31 ==>
              && Tabulates(maps.value.0, Occ(bits), m) && Tabulates(maps.value.1, Occ(bits), m + 1)
              && Refines(maps.value.1, maps.value.0, m)
  {
    if bits == [] || m < 1 {
      return None;
    }
    if |bits| < Pow2(m) {
      return None;
    }
    BelowPow2(m);
    var lower := CountPatterns(bits, m);
    var upper := CountPatterns(bits, m + 1);
    if m <= 31 {
      KeysTabulate(lower, bits, m);
      KeysTabulate(upper, bits, m + 1);
      TablesRefine(upper, lower, bits, m);
    }
    maps := Some((lower, upper));
  }
}
