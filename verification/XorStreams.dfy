/**
 * The seed reader (internal/keymanager/service.go, xorReader) and the counter-mode keystream
 * (internal/quantum/mixing.go, generateKeystream).
 */
module XorReader {
  type Byte = bv8
  type Bytes = seq<Byte>

  /** The byte that global offset o is mixed with: seed[o mod len(seed)]. */
  function Pad(seed: Bytes): nat -> Byte
    requires seed != []
  {
    (o: nat) => seed[o % |seed|]
  }

  /** Mixes data with the pad from global offset `start` on. */
  function Mix(pad: nat -> Byte, start: nat, data: Bytes): (r: Bytes)
    ensures |r| == |data|
  {
    seq(|data|, i requires 0 <= i < |data| => data[i] ^ pad(start + i))
  }

  /** Two consecutive reads are one long read. */
  lemma MixCompose(pad: nat -> Byte, start: nat, a: Bytes, b: Bytes)
    ensures Mix(pad, start, a + b) == Mix(pad, start, a) + Mix(pad, start + |a|, b)
  {
    forall i | |a| <= i < |a + b|
      ensures Mix(pad, start, a + b)[i] == Mix(pad, start + |a|, b)[i - |a|]
    {
      assert start + i == start + |a| + (i - |a|);
    }
  }

  lemma MixOne(pad: nat -> Byte, start: nat, data: Bytes, k: nat)
    requires k < |data|
    ensures Mix(pad, start, data[..k + 1]) == Mix(pad, start, data[..k]) + [data[k] ^ pad(start + k)]
  {
    assert data[..k + 1] == data[..k] + [data[k]];
    MixCompose(pad, start, data[..k], [data[k]]);
  }

  class Reader {
    const seed: Bytes
    var offset: nat

    constructor (seed: Bytes)
      ensures this.seed == seed && offset == 0
    {
      this.seed := seed;
      offset := 0;
    }

    /**
     * Read with the system generator's answer as a parameter: it delivered `random`, and `ok` says
     * whether without error. Only a read without error on a non-empty seed uses seed offsets.
     */
    method Read(p: array<Byte>, random: Bytes, ok: bool) returns (n: nat)
      requires |random| <= p.Length
      modifies p, this`offset
      ensures n == |random|
      ensures p[..n] == if ok && seed != [] then Mix(Pad(seed), old(offset), random) else random
      ensures forall i | 0 <= i < n :: p[i] == if ok && seed != [] then random[i] ^ seed[(old(offset) + i) % |seed|] else random[i]
      ensures p[n..] == old(p[n..])
      ensures offset == if ok && seed != [] then old(offset) + n else old(offset)
    {
      n := |random|;
      Fill(p, random);
      if ok && seed != [] {
        XorSeed(p, n);
        assert p[..n] == Mix(Pad(seed), old(offset), random);
      }
      assert forall i | 0 <= i < n :: p[i] == p[..n][i];
    }

    /** rand.Reader.Read: the front of the buffer is overwritten. */
    static method Fill(p: array<Byte>, random: Bytes)
      requires |random| <= p.Length
      modifies p
      ensures p[..|random|] == random && p[|random|..] == old(p[|random|..])
    {
      var k := 0;
      while k < |random|
        invariant 0 <= k <= |random| && p[..k] == random[..k] && p[|random|..] == old(p[|random|..])
      {
        p[k] := random[k];
        k := k + 1;
      }
    }

    /** The loop under the lock, in place. */
    method XorSeed(p: array<Byte>, n: nat)
      requires n <= p.Length && seed != []
      modifies p, this`offset
      ensures p[..n] == Mix(Pad(seed), old(offset), old(p[..n])) && p[n..] == old(p[n..])
      ensures offset == old(offset) + n
    {
      ghost var before := p[..];
      ghost var pad := Pad(seed);
      var i := 0;
      while i < n
        invariant 0 <= i <= n && offset == old(offset) + i
        invariant forall j: nat | j < i :: p[j] == before[j] ^ pad(old(offset) + j)
        invariant forall j | i <= j < p.Length :: p[j] == before[j]
      {
        p[i] := p[i] ^ seed[offset % |seed|];
        offset := offset + 1;
        i := i + 1;
      }
      assert p[..n] == Mix(pad, old(offset), before[..n]);
      assert p[n..] == before[n..];
    }
  }

  // ---- interleaved reads ----

  /** A Read that has its random bytes and works inside the lock: `mixed` is done so far. */
  datatype Section = Section(call: nat, start: nat, data: Bytes, mixed: Bytes)

  datatype State = State(
    seed: Bytes,
    offset: nat,
    waiting: map<nat, Bytes>,   // calls that have their random bytes and want the lock
    holder: seq<Section>,       // at most one
    served: seq<Section>)       // history: finished calls in lock order

  datatype Action = Arrive(call: nat, data: Bytes) | Lock(call: nat) | MixByte | Unlock

  function Init(seed: Bytes): State { State(seed, 0, map[], [], []) }

  predicate Enabled(s: State, a: Action) {
    match a
    case Arrive(call, _) => call !in s.waiting
    case Lock(call) => call in s.waiting && s.holder == []
    case MixByte => s.seed != [] && s.holder != [] && |s.holder[0].mixed| < |s.holder[0].data|
    case Unlock => s.holder != [] && |s.holder[0].mixed| >= |s.holder[0].data|
  }

  function Apply(s: State, a: Action): State
    requires Enabled(s, a)
  {
    match a
    case Arrive(call, data) => s.(waiting := s.waiting[call := data])
    case Lock(call) => s.(waiting := s.waiting - {call}, holder := [Section(call, s.offset, s.waiting[call], [])])
    case MixByte =>
      var h := s.holder[0];
      var b := h.data[|h.mixed|] ^ Pad(s.seed)(s.offset);
      s.(holder := [h.(mixed := h.mixed + [b])], offset := s.offset + 1)
    case Unlock => s.(holder := [], served := s.served + [s.holder[0]])
  }

  predicate Run(s: State, steps: seq<Action>)
    decreases |steps|
  {
    steps == [] || (Enabled(s, steps[0]) && Run(Apply(s, steps[0]), steps[1..]))
  }

  function Exec(s: State, steps: seq<Action>): State
    requires Run(s, steps)
    decreases |steps|
  {
    if steps == [] then s else Exec(Apply(s, steps[0]), steps[1..])
  }

  /** The j-th byte of a call is mixed with the seed byte of global offset start + j. */
  predicate IsMixed(seed: Bytes, c: Section)
    requires seed != []
  {
    |c.mixed| == |c.data| && forall j | 0 <= j < |c.data| :: c.mixed[j] == c.data[j] ^ seed[(c.start + j) % |seed|]
  }

  /** The bytes all finished calls drew, and what they were turned into, in lock order. */
  function Drawn(calls: seq<Section>): Bytes {
    if calls == [] then [] else Drawn(calls[..|calls| - 1]) + calls[|calls| - 1].data
  }

  function Delivered(calls: seq<Section>): Bytes {
    if calls == [] then [] else Delivered(calls[..|calls| - 1]) + calls[|calls| - 1].mixed
  }

  /** Each call starts where the one before it ended. */
  ghost predicate Contiguous(calls: seq<Section>) {
    forall i | 0 <= i < |calls| :: calls[i].start == |Drawn(calls[..i])|
  }

  /** Each finished call got its own stretch of the pad, and together they are one long read. */
  ghost predicate ServedInv(pad: nat -> Byte, calls: seq<Section>) {
    && Contiguous(calls)
    && (forall c | c in calls :: c.mixed == Mix(pad, c.start, c.data))
    && Delivered(calls) == Mix(pad, 0, Drawn(calls))
  }

  /** The call in the lock began after all bytes drawn so far and has mixed a part of its own. */
  ghost predicate HolderInv(pad: nat -> Byte, offset: nat, drawn: nat, holder: seq<Section>) {
    && |holder| <= 1
    && (holder == [] ==> offset == drawn)
    && (holder != [] ==>
          var h := holder[0];
          && h.start == drawn && |h.mixed| <= |h.data| && offset == h.start + |h.mixed|
          && h.mixed == Mix(pad, h.start, h.data[..|h.mixed|]))
  }

  ghost predicate Inv(s: State) {
    s.seed != [] && ServedInv(Pad(s.seed), s.served) && HolderInv(Pad(s.seed), s.offset, |Drawn(s.served)|, s.holder)
  }

  lemma ContiguousAppend(calls: seq<Section>, h: Section)
    requires Contiguous(calls) && h.start == |Drawn(calls)|
    ensures Contiguous(calls + [h]) && Drawn(calls + [h]) == Drawn(calls) + h.data
    ensures Delivered(calls + [h]) == Delivered(calls) + h.mixed
  {
    var all := calls + [h];
    assert all[..|calls|] == calls;
    assert forall i | 0 <= i < |calls| :: all[..i] == calls[..i];
  }

  lemma ServedAppend(pad: nat -> Byte, calls: seq<Section>, h: Section)
    requires ServedInv(pad, calls) && h.start == |Drawn(calls)| && h.mixed == Mix(pad, h.start, h.data)
    ensures ServedInv(pad, calls + [h]) && |Drawn(calls + [h])| == h.start + |h.data|
  {
    ContiguousAppend(calls, h);
    DeliveredAppend(pad, calls, h);
    assert forall c | c in calls + [h] :: c in calls || c == h;
  }

  lemma DeliveredAppend(pad: nat -> Byte, calls: seq<Section>, h: Section)
    requires Delivered(calls) == Mix(pad, 0, Drawn(calls)) && h.mixed == Mix(pad, |Drawn(calls)|, h.data)
    ensures Delivered(calls + [h]) == Mix(pad, 0, Drawn(calls + [h]))
  {
    assert (calls + [h])[..|calls|] == calls;
    MixCompose(pad, 0, Drawn(calls), h.data);
  }

  lemma UnlockInv(s: State)
    requires Inv(s) && Enabled(s, Unlock)
    ensures Inv(Apply(s, Unlock))
  {
    var h := s.holder[0];
    assert h.data[..|h.mixed|] == h.data;
    ServedAppend(Pad(s.seed), s.served, h);
  }

  lemma MixMore(pad: nat -> Byte, h: Section, b: Byte)
    requires |h.mixed| < |h.data| && h.mixed == Mix(pad, h.start, h.data[..|h.mixed|])
    requires b == h.data[|h.mixed|] ^ pad(h.start + |h.mixed|)
    ensures h.mixed + [b] == Mix(pad, h.start, h.data[..|h.mixed| + 1])
  {
    MixOne(pad, h.start, h.data, |h.mixed|);
  }

  lemma MixHolder(pad: nat -> Byte, offset: nat, drawn: nat, h: Section)
    requires HolderInv(pad, offset, drawn, [h]) && |h.mixed| < |h.data|
    ensures HolderInv(pad, offset + 1, drawn, [h.(mixed := h.mixed + [h.data[|h.mixed|] ^ pad(offset)])])
  {
    MixMore(pad, h, h.data[|h.mixed|] ^ pad(offset));
  }

  lemma MixInv(s: State)
    requires Inv(s) && Enabled(s, MixByte)
    ensures Inv(Apply(s, MixByte))
  {
    assert s.holder == [s.holder[0]];
    MixHolder(Pad(s.seed), s.offset, |Drawn(s.served)|, s.holder[0]);
  }

  lemma StepInv(s: State, a: Action)
    requires Inv(s) && Enabled(s, a)
    ensures Inv(Apply(s, a))
  {
    match a
    case Unlock => UnlockInv(s);
    case MixByte => MixInv(s);
    case _ =>
  }

  lemma {:induction false} RunInv(s: State, steps: seq<Action>)
    requires Inv(s) && Run(s, steps)
    ensures Inv(Exec(s, steps)) && Exec(s, steps).seed == s.seed
    decreases |steps|
  {
    if steps != [] {
      StepInv(s, steps[0]);
      RunInv(Apply(s, steps[0]), steps[1..]);
    }
  }

  lemma {:induction false} DrawnGrows(calls: seq<Section>, i: nat, j: nat)
    requires i < j <= |calls|
    ensures |Drawn(calls[..i])| + |calls[i].data| <= |Drawn(calls[..j])|
  {
    assert calls[..j][..j - 1] == calls[..j - 1];
    if i < j - 1 {
      DrawnGrows(calls, i, j - 1);
    }
  }

  /**
   * Under every interleaving the finished calls hold ranges of global offsets that start where the
   * one before ended and stop where the next lock will begin, each byte is mixed with its own seed
   * position, and together they are one sequential read of everything drawn: no offset is lost or
   * used twice.
   */
  lemma InterleavedReadsAreOneRead(seed: Bytes, steps: seq<Action>)
    requires seed != [] && Run(Init(seed), steps)
    ensures var s := Exec(Init(seed), steps); s.holder == [] ==> s.offset == |Drawn(s.served)|
    ensures var calls := Exec(Init(seed), steps).served;
            && Contiguous(calls)
            && Delivered(calls) == Mix(Pad(seed), 0, Drawn(calls))
            && (forall i, j | 0 <= i < j < |calls| :: calls[i].start + |calls[i].data| <= calls[j].start)
            && (forall i | 0 <= i < |calls| :: IsMixed(seed, calls[i]))
  {
    RunInv(Init(seed), steps);
    var calls := Exec(Init(seed), steps).served;
    forall i | 0 <= i < |calls|
      ensures IsMixed(seed, calls[i])
    {
      MixedIs(seed, calls[i]);
    }
    RangesApart(calls);
  }

  lemma MixedIs(seed: Bytes, c: Section)
    requires seed != [] && c.mixed == Mix(Pad(seed), c.start, c.data)
    ensures IsMixed(seed, c)
  {
  }

  lemma RangesApart(calls: seq<Section>)
    requires Contiguous(calls)
    ensures forall i, j | 0 <= i < j < |calls| :: calls[i].start + |calls[i].data| <= calls[j].start
  {
    forall i, j | 0 <= i < j < |calls|
      ensures calls[i].start + |calls[i].data| <= calls[j].start
    {
      DrawnGrows(calls, i, j);
    }
  }
}

module Keystream {
  import opened BitStrings

  const BLOCK: nat := 32
  const COUNTERS: nat := 0x1_0000_0000

  /** The counter's four bytes, most significant first; Go's byte() keeps the low eight bits. */
  function CounterBytes(counter: nat): seq<Byte> {
    [(counter / 0x100_0000) % 256, (counter / 0x1_0000) % 256, (counter / 0x100) % 256, counter % 256]
  }

  /** Four base-256 digits. */
  function Number(bs: seq<Byte>): nat
    requires |bs| == 4
  {
    var a: nat, b: nat, c: nat, d: nat := bs[0], bs[1], bs[2], bs[3];
    ((a * 256 + b) * 256 + c) * 256 + d
  }

  lemma CounterValue(counter: nat)
    ensures Number(CounterBytes(counter)) == counter % 4294967296
  {
    ShiftSteps(counter);
    var a, b, c := counter / 0x100, counter / 0x1_0000, counter / 0x100_0000;
    var top := c / 256;
    assert counter == 256 * a + counter % 256 && a == 256 * b + a % 256 && b == 256 * c + b % 256 && c == 256 * top + c % 256;
    assert counter == COUNTERS * top + Number(CounterBytes(counter));
  }

  lemma ShiftSteps(counter: nat)
    ensures counter / 0x1_0000 == counter / 0x100 / 256
    ensures counter / 0x100_0000 == counter / 0x1_0000 / 256
  {
  }

  /** Two blocks hash different inputs exactly when their counters differ modulo 2^32. */
  lemma CountersCollide(i: nat, j: nat)
    ensures CounterBytes(i) == CounterBytes(j) <==> i % 4294967296 == j % 4294967296
  {
    CounterValue(i);
    CounterValue(j);
    if i % COUNTERS == j % COUNTERS {
      DigitsUnique(CounterBytes(i), CounterBytes(j));
    }
  }

  lemma DigitsUnique(u: seq<Byte>, v: seq<Byte>)
    requires |u| == |v| == 4 && Number(u) == Number(v)
    ensures u == v
  {
    var a: nat, b: nat, c: nat := u[0], u[1], u[2];
    var x: nat, y: nat, z: nat := v[0], v[1], v[2];
    LastDigit((a * 256 + b) * 256 + c, (x * 256 + y) * 256 + z, u[3], v[3]);
    LastDigit(a * 256 + b, x * 256 + y, c, z);
    LastDigit(a, x, b, y);
  }

  lemma LastDigit(x: nat, y: nat, a: nat, b: nat)
    requires a < 256 && b < 256 && x * 256 + a == y * 256 + b
    ensures x == y && a == b
  {
  }

  /** sha stands for SHA-256. */
  ghost predicate IsHash(sha: seq<Byte> -> seq<Byte>) {
    forall x :: |sha(x)| == 32
  }

  function KeystreamByte(sha: seq<Byte> -> seq<Byte>, key: seq<Byte>, i: nat): Byte
    requires |sha(key + CounterBytes(i / BLOCK))| == BLOCK
  {
    sha(key + CounterBytes(i / BLOCK))[i % BLOCK]
  }

  /** generateKeystream: byte i is byte i mod 32 of the hash of the key and counter i / 32. */
  method GenerateKeystream(sha: seq<Byte> -> seq<Byte>, key: seq<Byte>, length: nat) returns (keystream: seq<Byte>)
    requires IsHash(sha)
    ensures |keystream| == length
    ensures forall i | 0 <= i < length :: keystream[i] == KeystreamByte(sha, key, i)
    ensures keystream <= Blocks(sha, key, (length + 31) / 32)
  {
    keystream := [];
    var counter := 0;
    while |keystream| < length
      invariant |keystream| <= length && (|keystream| == BLOCK * counter || |keystream| == length)
      invariant forall i | 0 <= i < |keystream| :: keystream[i] == KeystreamByte(sha, key, i)
      decreases length - |keystream|
    {
      var block := sha(key + CounterBytes(counter));
      var remaining := length - |keystream|;
      if remaining < |block| {
        keystream := keystream + block[..remaining];
      } else {
        keystream := keystream + block;
      }
      counter := counter + 1;
    }
    PrefixOfBlocks(sha, key, keystream);
  }

  /** SHA-256(key || counter 0) || SHA-256(key || counter 1) || ..., n blocks. */
  function Blocks(sha: seq<Byte> -> seq<Byte>, key: seq<Byte>, n: nat): seq<Byte> {
    if n == 0 then [] else Blocks(sha, key, n - 1) + sha(key + CounterBytes(n - 1))
  }

  lemma {:induction false} BlocksAt(sha: seq<Byte> -> seq<Byte>, key: seq<Byte>, n: nat, i: nat)
    requires IsHash(sha) && i < 32 * n
    ensures |Blocks(sha, key, n)| == 32 * n && Blocks(sha, key, n)[i] == KeystreamByte(sha, key, i)
  {
    BlocksLength(sha, key, n);
    BlocksLength(sha, key, n - 1);
    if i < 32 * (n - 1) {
      BlocksAt(sha, key, n - 1, i);
    } else {
      assert i / 32 == n - 1 && i % 32 == i - 32 * (n - 1);
    }
  }

  lemma {:induction false} BlocksLength(sha: seq<Byte> -> seq<Byte>, key: seq<Byte>, n: nat)
    requires IsHash(sha)
    ensures |Blocks(sha, key, n)| == 32 * n
  {
    if n > 0 {
      BlocksLength(sha, key, n - 1);
    }
  }

  lemma PrefixOfBlocks(sha: seq<Byte> -> seq<Byte>, key: seq<Byte>, keystream: seq<Byte>)
    requires IsHash(sha) && forall i | 0 <= i < |keystream| :: keystream[i] == KeystreamByte(sha, key, i)
    ensures keystream <= Blocks(sha, key, (|keystream| + 31) / 32)
  {
    var n := (|keystream| + 31) / 32;
    BlocksLength(sha, key, n);
    forall i | 0 <= i < |keystream|
      ensures keystream[i] == Blocks(sha, key, n)[i]
    {
      BlocksAt(sha, key, n, i);
    }
  }

  /** A shorter keystream is a prefix of a longer one with the same key. */
  lemma PrefixStable(sha: seq<Byte> -> seq<Byte>, key: seq<Byte>, short: seq<Byte>, long: seq<Byte>)
    requires IsHash(sha) && |short| <= |long|
    requires forall i | 0 <= i < |short| :: short[i] == KeystreamByte(sha, key, i)
    requires forall i | 0 <= i < |long| :: long[i] == KeystreamByte(sha, key, i)
    ensures short <= long
  {
    assert forall i | 0 <= i < |short| :: short[i] == long[i];
  }

  /** The counter has 32 bits: beyond 2^32 blocks the keystream repeats itself. */
  lemma KeystreamRepeats(sha: seq<Byte> -> seq<Byte>, key: seq<Byte>, i: nat)
    requires IsHash(sha)
    ensures KeystreamByte(sha, key, i + 32 * 4294967296) == KeystreamByte(sha, key, i)
  {
    BlockShift(i);
    CountersCollide(i / BLOCK + COUNTERS, i / BLOCK);
    SameBlock(sha, key, i + BLOCK * COUNTERS, i);
  }

  lemma BlockShift(i: nat)
    ensures (i + BLOCK * COUNTERS) / BLOCK == i / BLOCK + COUNTERS
    ensures (i + BLOCK * COUNTERS) % BLOCK == i % BLOCK
    ensures (i / BLOCK + COUNTERS) % COUNTERS == (i / BLOCK) % COUNTERS
  {
  }

  lemma SameBlock(sha: seq<Byte> -> seq<Byte>, key: seq<Byte>, i: nat, j: nat)
    requires IsHash(sha) && CounterBytes(i / BLOCK) == CounterBytes(j / BLOCK) && i % BLOCK == j % BLOCK
    ensures KeystreamByte(sha, key, i) == KeystreamByte(sha, key, j)
  {
  }
}
