/** A schedule of the pool in which an announcement is wrong by the time it is made. */
module EntropySchedules {
  import opened EntropyPool
  import opened EntropySystem
  import B = RefillBatch

  function FirstIds(n: nat): set<Id> { if n == 0 then {} else FirstIds(n - 1) + {n - 1} }

  lemma {:induction false} FirstIdsCount(n: nat)
    ensures |FirstIds(n)| == n && forall id | id in FirstIds(n) :: id < n
  {
    if n > 0 {
      FirstIdsCount(n - 1);
    }
  }

  lemma {:induction false} FirstIdsGrow(m: nat, n: nat)
    requires m <= n
    ensures FirstIds(m) <= FirstIds(n)
  {
    if m < n {
      FirstIdsGrow(m, n - 1);
    }
  }

  lemma FirstBatch() returns (s: State)
    ensures Reaches(Init(), s) && s == Init().(refill := InBatch(0, 0, 0))
  {
    ReachesSelf(Init());
    Step(Init(), Init(), Poll);
    s := Apply(Init(), Poll);
    Step(Init(), s, BeginBatch);
    s := Apply(s, BeginBatch);
  }

  /** From an empty pool, n saves into the first batch. */
  lemma {:induction false} SaveMany(n: nat, data: Bytes) returns (s: State)
    ensures Reaches(Init(), s) && s == Init().(pool := s.pool, refill := InBatch(0, 0, n))
    ensures WellFormed(s.pool) && s.pool.nextId == n && Unused(s.pool) == FirstIds(n) && Used(s.pool) == {}
  {
    if n == 0 {
      s := FirstBatch();
    } else {
      var t := SaveMany(n - 1, data);
      Step(Init(), t, Save(data));
      InsertAddsOne(t.pool, data);
      s := Apply(t, Save(data));
    }
  }

  /** A key generation takes the five oldest records out of the running refill's pool. */
  lemma ConsumeFive(from: State, s: State) returns (t: State)
    requires Reaches(from, s) && WellFormed(s.pool) && FirstIds(ENTROPY_PER_KEY) <= Unused(s.pool)
    ensures Reaches(from, t) && t == s.(pool := t.pool, deliveries := t.deliveries)
    ensures |Unused(t.pool)| == |Unused(s.pool)| - ENTROPY_PER_KEY
  {
    var ids := FirstIds(ENTROPY_PER_KEY);
    FirstIdsCount(ENTROPY_PER_KEY);
    MarkUsedMoves(s.pool, ids);
    Step(from, s, Consume(GenerateKey, ids, true));
    t := Apply(s, Consume(GenerateKey, ids, true));
  }

  /** A batch that has saved enough ends the refill, which is announced. */
  lemma Announce(from: State, s: State) returns (t: State)
    requires Reaches(from, s) && s.refill.InBatch? && s.refill.count + s.refill.saved >= HIGH_WATERMARK && s.refill.saved > 0
    ensures Reaches(from, t) && t.pool == s.pool
    ensures t.announced == s.announced + [s.refill.count + s.refill.saved]
  {
    Step(from, s, EndBatch(0));
    t := Apply(s, EndBatch(0));
    Step(from, t, LeaveLoop);
    t := Apply(t, LeaveLoop);
    Step(from, t, Finish(true));
    t := Apply(t, Finish(true));
  }

  /** A key is generated while the refill runs: 1000 is announced over a pool of 995. */
  lemma StaleAnnouncementHappens(data: Bytes) returns (s: State)
    ensures Reaches(Init(), s) && s.announced == [1000] && |Unused(s.pool)| == 995
  {
    var t := SaveMany(HIGH_WATERMARK, data);
    FirstIdsCount(HIGH_WATERMARK);
    FirstIdsGrow(ENTROPY_PER_KEY, HIGH_WATERMARK);
    t := ConsumeFive(Init(), t);
    s := Announce(Init(), t);
  }
}
