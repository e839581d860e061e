/** Bits, bytes and m-bit words (internal/audit/validators/bits.go). */
module BitStrings {

  type Bit = b: int | 0 <= b < 2
  type Bits = seq<Bit>
  type Byte = b: int | 0 <= b < 256

  function Pow2(m: nat): (r: nat)
    ensures r >= 1
  {
    if m == 0 then 1 else 2 * Pow2(m - 1)
  }

  /** The number a word denotes, most significant bit first. */
  function Value(w: Bits): nat {
    if w == [] then 0 else 2 * Value(w[..|w| - 1]) + w[|w| - 1]
  }

  /** The m low bits of k as a word. */
  function Word(k: nat, m: nat): (w: Bits)
    ensures |w| == m
  {
    if m == 0 then [] else Word(k / 2, m - 1) + [k % 2]
  }

  lemma {:induction false} ValueBelow(w: Bits)
    ensures Value(w) < Pow2(|w|)
  {
    if w != [] {
      ValueBelow(w[..|w| - 1]);
    }
  }

  /** Words of one length and numbers below 2^m are in bijection: this direction ... */
  lemma {:induction false} ValueOfWord(k: nat, m: nat)
    requires k < Pow2(m)
    ensures Value(Word(k, m)) == k
  {
    if m > 0 {
      ValueOfWord(k / 2, m - 1);
      assert Word(k, m)[..m - 1] == Word(k / 2, m - 1);
    }
  }

  /** ... and this one, so Value is injective on words of one length. */
  lemma {:induction false} WordOfValue(w: Bits)
    ensures Word(Value(w), |w|) == w
  {
    if w != [] {
      WordOfValue(w[..|w| - 1]);
      assert w == w[..|w| - 1] + [w[|w| - 1]];
    }
  }

  lemma WordAppend(k: nat, m: nat, b: Bit)
    ensures Word(2 * k + b, m + 1) == Word(k, m) + [b]
  {
    assert (2 * k + b) / 2 == k;
  }

  lemma {:induction false} WordPrepend(k: nat, m: nat, b: Bit)
    requires k < Pow2(m)
    ensures Word(b * Pow2(m) + k, m + 1) == [b] + Word(k, m)
  {
    if m == 0 {
      assert Word(b, 1) == Word(b / 2, 0) + [b % 2];
    } else {
      WordPrepend(k / 2, m - 1, b);
      var low: Bit := k % 2;
      assert b * Pow2(m) + k == 2 * (b * Pow2(m - 1) + k / 2) + low;
      WordAppend(b * Pow2(m - 1) + k / 2, m, low);
      assert [b] + Word(k / 2, m - 1) + [low] == [b] + Word(k, m);
    }
  }

  /** Splitting a word splits its value. */
  lemma {:induction false} ValueConcat(u: Bits, v: Bits)
    ensures Value(u + v) == Value(u) * Pow2(|v|) + Value(v)
  {
    if v == [] {
      assert u + v == u;
    } else {
      var init := v[..|v| - 1];
      ValueConcat(u, init);
      assert (u + v)[..|u + v| - 1] == u + init;
      MulDouble(Value(u), Pow2(|init|));
    }
  }

  lemma MulDouble(a: int, b: int)
    ensures a * (2 * b) == 2 * (a * b)
  {
  }

  // ---- ToBits ----

  /** The bits of a sample, eight per byte, most significant first. */
  function Expand(data: seq<Byte>): Bits {
    if data == [] then [] else Expand(data[..|data| - 1]) + Word(data[|data| - 1], 8)
  }

  /** Reads a bit string back as bytes. */
  function Pack(bits: Bits): seq<nat> {
    if |bits| < 8 then [] else Pack(bits[..|bits| - 8]) + [Value(bits[|bits| - 8..])]
  }

  lemma PackAppend(bits: Bits, byte: Bits)
    requires |byte| == 8
    ensures Pack(bits + byte) == Pack(bits) + [Value(byte)]
  {
    var all := bits + byte;
    assert all[..|all| - 8] == bits && all[|all| - 8..] == byte;
  }

  /** ToBits loses nothing: the sample can be read back. */
  lemma {:induction false} PackExpand(data: seq<Byte>)
    ensures |Expand(data)| == 8 * |data|
    ensures Pack(Expand(data)) == data
  {
    if data != [] {
      var init, last := data[..|data| - 1], data[|data| - 1];
      PackExpand(init);
      PackByte(Expand(init), last);
      assert data == init + [last];
    }
  }

  lemma PackByte(bits: Bits, b: Byte)
    ensures Pack(bits + Word(b, 8)) == Pack(bits) + [b]
  {
    ByteValue(b);
    PackAppend(bits, Word(b, 8));
  }

  lemma ByteValue(b: Byte)
    ensures Value(Word(b, 8)) == b
  {
    ValueOfWord(b, 8);
  }

  lemma {:induction false} ShiftDivides(b: nat, i: nat)
    ensures ShiftRight(b, i) == b / Pow2(i)
  {
    if i > 0 {
      ShiftDivides(b / 2, i - 1);
      HalfThenDivide(b, Pow2(i - 1));
    }
  }

  lemma HalfThenDivide(b: nat, d: nat)
    requires d > 0
    ensures b / 2 / d == b / (2 * d)
  {
    var q, r := b / (2 * d), b % (2 * d);
    assert b == 2 * (q * d) + r;
    assert b / 2 == q * d + r / 2;
    QuotientUnique(b / 2, d, q, r / 2);
  }

  lemma QuotientUnique(x: nat, d: nat, q: nat, r: nat)
    requires d > 0 && r < d && x == q * d + r
    ensures x / d == q
  {
    var e := x / d - q;
    assert d * e == r - x % d;
    MulBeyond(d, e);
  }

  /** A non-zero multiple of n is at least n away from 0. */
  lemma MulBeyond(n: int, d: int)
    requires n >= 0
    ensures d >= 1 ==> n * d >= n
    ensures d <= -1 ==> n * d <= -n
  {
  }

  /** Bit j of byte i is (byte / 2^(7-j)) mod 2. */
  lemma {:induction false} ExpandAt(data: seq<Byte>, i: nat, j: nat)
    requires i < |data| && j < 8
    ensures |Expand(data)| == 8 * |data| && Expand(data)[8 * i + j] == data[i] / Pow2(7 - j) % 2
  {
    var init, last := data[..|data| - 1], data[|data| - 1];
    ExpandLength(data);
    ExpandLength(init);
    if i == |data| - 1 {
      WordBits(last, 8, j);
      ShiftDivides(last, 7 - j);
    } else {
      ExpandAt(init, i, j);
    }
  }

  lemma {:induction false} ExpandLength(data: seq<Byte>)
    ensures |Expand(data)| == 8 * |data|
  {
    if data != [] {
      ExpandLength(data[..|data| - 1]);
    }
  }

  /** b >> i. */
  function ShiftRight(b: nat, i: nat): nat {
    if i == 0 then b else ShiftRight(b / 2, i - 1)
  }

  function BitAt(b: nat, i: nat): Bit { ShiftRight(b, i) % 2 }

  /** The inner loop of ToBits, from bit m - 1 down to bit 0, spells the word. */
  lemma {:induction false} WordBits(b: nat, m: nat, j: nat)
    requires j < m
    ensures Word(b, m)[j] == BitAt(b, m - 1 - j)
  {
    if j < m - 1 {
      WordBits(b / 2, m - 1, j);
    }
  }

  method ToBits(data: seq<Byte>) returns (bits: Bits)
    ensures bits == Expand(data) && |bits| == 8 * |data|
    ensures forall k | 0 <= k < |bits| :: bits[k] == data[k / 8] / Pow2(7 - k % 8) % 2
  {
    bits := [];
    var k := 0;
    while k < |data|
      invariant 0 <= k <= |data| && bits == Expand(data[..k])
    {
      var start := |bits|;
      var i := 7;
      while i >= 0
        invariant -1 <= i <= 7 && |bits| == start + 7 - i
        invariant bits[..start] == Expand(data[..k])
        invariant bits[start..] == Word(data[k], 8)[..7 - i]
      {
        WordBits(data[k], 8, 7 - i);
        bits := bits + [BitAt(data[k], i)];
        i := i - 1;
      }
      assert bits == bits[..start] + bits[start..];
      assert data[..k + 1][..k] == data[..k];
      k := k + 1;
    }
    assert data[..k] == data;
    ExpandLength(data);
    forall k | 0 <= k < |bits|
      ensures bits[k] == data[k / 8] / Pow2(7 - k % 8) % 2
    {
      ExpandAt(data, k / 8, k % 8);
    }
  }
}
