/**
 * The pool of entropy records (internal/keymanager/repository.go). Each repository call is one
 * serialisable transaction; what the database decides (which unused rows a query finds, whether a
 * statement fails) arrives as a parameter.
 */
module EntropyPool {

  type Id = nat
  type Bytes = seq<bv8>

  datatype Row = Row(data: Bytes, used: bool)

  datatype Pool = Pool(rows: map<Id, Row>, nextId: Id)

  datatype Result<+T> = Ok(value: T) | Err

  function Unused(p: Pool): set<Id> {
    set id | id in p.rows && !p.rows[id].used
  }

  function Used(p: Pool): set<Id> {
    set id | id in p.rows && p.rows[id].used
  }

  ghost predicate WellFormed(p: Pool) {
    forall id | id in p.rows :: id < p.nextId
  }

  function Insert(p: Pool, data: Bytes): Pool {
    Pool(p.rows[p.nextId := Row(data, false)], p.nextId + 1)
  }

  function MarkUsed(p: Pool, ids: set<Id>): Pool {
    p.(rows := map id | id in p.rows :: if id in ids then p.rows[id].(used := true) else p.rows[id])
  }

  lemma Partition(p: Pool)
    ensures |Unused(p)| + |Used(p)| == |p.rows|
  {
    assert p.rows.Keys == Unused(p) + Used(p);
    assert Unused(p) !! Used(p);
  }

  /** A saved record is new, unused, and the only change. */
  lemma InsertAddsOne(p: Pool, data: Bytes)
    requires WellFormed(p)
    ensures var q := Insert(p, data);
            WellFormed(q) && Unused(q) == Unused(p) + {p.nextId} && Used(q) == Used(p)
            && |Unused(q)| == |Unused(p)| + 1 && |q.rows| == |p.rows| + 1
  {
    assert Insert(p, data).rows.Keys == p.rows.Keys + {p.nextId};
  }

  /** The saved record holds the bytes it was given, and every other row stays as it was. */
  lemma InsertKeeps(p: Pool, data: Bytes)
    requires WellFormed(p)
    ensures var q := Insert(p, data);
            && p.nextId !in p.rows && p.nextId in q.rows && q.rows[p.nextId].data == data && !q.rows[p.nextId].used
            && (forall id | id in p.rows :: id in q.rows && q.rows[id] == p.rows[id])
            && (forall id | id in q.rows :: id in p.rows || id == p.nextId)
  {
  }

  /** Marking touches no bytes, and no `used` but those of the chosen rows. */
  lemma MarkUsedKeeps(p: Pool, ids: set<Id>)
    ensures var q := MarkUsed(p, ids);
            && (forall id | id in q.rows :: id in p.rows)
            && (forall id | id in p.rows ::
                  id in q.rows && q.rows[id].data == p.rows[id].data && q.rows[id].used == (p.rows[id].used || id in ids))
  {
  }

  /** Marking unused rows moves exactly them from the unused to the used set. */
  lemma MarkUsedMoves(p: Pool, ids: set<Id>)
    requires ids <= Unused(p)
    ensures var q := MarkUsed(p, ids);
            Unused(q) == Unused(p) - ids && Used(q) == Used(p) + ids
            && |Unused(q)| == |Unused(p)| - |ids| && |Used(q)| == |Used(p)| + |ids|
            && q.rows.Keys == p.rows.Keys && |q.rows| == |p.rows| && q.nextId == p.nextId
  {
    var q := MarkUsed(p, ids);
    assert q.rows.Keys == p.rows.Keys;
    assert Used(q) == Used(p) + ids;
    assert ids !! Used(p);
  }

  // ---- the repository ----

  predicate Distinct(ids: seq<Id>) {
    forall i, j | 0 <= i < j < |ids| :: ids[i] != ids[j]
  }

  function IdSet(ids: seq<Id>): set<Id> {
    set i | 0 <= i < |ids| :: ids[i]
  }

  lemma InIdSet(ids: seq<Id>)
    ensures forall id :: id in IdSet(ids) <==> id in ids
  {
  }

  lemma {:induction false} DistinctCount(ids: seq<Id>)
    requires Distinct(ids)
    ensures |IdSet(ids)| == |ids|
  {
    if ids != [] {
      var last := |ids| - 1;
      DistinctCount(ids[..last]);
      assert IdSet(ids) == IdSet(ids[..last]) + {ids[last]};
    }
  }

  /** `found` is an answer to: up to n rows that are not used. */
  ghost predicate FindsUnused(p: Pool, n: nat, found: seq<Id>) {
    && Distinct(found)
    && IdSet(found) <= Unused(p)
    && |found| == if |Unused(p)| < n then |Unused(p)| else n
  }

  /** What marking the rows a query found does to the pool. */
  lemma MarkFound(p: Pool, n: nat, found: seq<Id>)
    requires FindsUnused(p, n, found) && |found| == n
    ensures forall id | id in found :: id in p.rows && !p.rows[id].used
    ensures var q := MarkUsed(p, IdSet(found));
            && |Unused(q)| == |Unused(p)| - n && q.rows.Keys == p.rows.Keys && q.nextId == p.nextId
            && forall id | id in p.rows :: q.rows[id].data == p.rows[id].data && q.rows[id].used == (p.rows[id].used || id in found)
  {
    InIdSet(found);
    DistinctCount(found);
    MarkUsedMoves(p, IdSet(found));
    MarkUsedKeeps(p, IdSet(found));
  }

  class Repository {
    var rows: map<Id, Row>
    var nextId: Id

    function Contents(): Pool
      reads this
    {
      Pool(rows, nextId)
    }

    ghost predicate Valid()
      reads this
    {
      WellFormed(Contents())
    }

    constructor ()
      ensures Valid() && Contents() == Pool(map[], 0)
    {
      rows, nextId := map[], 0;
    }

    /** db.Create fails or adds one unused row under a fresh id. */
    method SaveEntropy(data: Bytes, dbOk: bool) returns (r: Result<Id>)
      requires Valid()
      modifies this
      ensures Valid()
      ensures r == if dbOk then Ok(old(nextId)) else Err
      ensures Contents() == if dbOk then Insert(old(Contents()), data) else old(Contents())
      ensures dbOk ==> old(nextId) !in old(rows) && rows == old(rows)[old(nextId) := Row(data, false)]
    {
      InsertAddsOne(Contents(), data);
      InsertKeeps(Contents(), data);
      if !dbOk {
        return Err;
      }
      r := Ok(nextId);
      rows, nextId := rows[nextId := Row(data, false)], nextId + 1;
    }

    /** SELECT COUNT over the rows that are not used; together with the used ones they are all rows. */
    method CountAllUnusedEntropy(dbOk: bool) returns (r: Result<nat>)
      ensures r.Err? <==> !dbOk
      ensures r.Ok? ==> r.value == |Unused(Contents())| && r.value + |Used(Contents())| == |rows|
    {
      if !dbOk {
        return Err;
      }
      var count, left := 0, rows.Keys;
      while left != {}
        invariant left <= rows.Keys && count == |Unused(Contents()) - left|
        decreases left
      {
        var id :| id in left;
        if rows[id].used {
          assert Unused(Contents()) - (left - {id}) == Unused(Contents()) - left;
        } else {
          assert Unused(Contents()) - (left - {id}) == (Unused(Contents()) - left) + {id};
          count := count + 1;
        }
        left := left - {id};
      }
      Partition(Contents());
      assert Unused(Contents()) - left == Unused(Contents());
      r := Ok(count);
    }

    /**
     * Takes n unused records or none: it succeeds exactly when the database works and the pool
     * holds at least n unused records, and a failure changes nothing.
     */
    method ConsumeEntropy(n: nat, found: seq<Id>, dbOk: bool) returns (r: Result<seq<Row>>)
      requires Valid() && FindsUnused(Contents(), n, found)
      modifies this
      ensures Valid()
      ensures r.Ok? <==> dbOk && n <= |Unused(old(Contents()))|
      ensures r.Err? ==> Contents() == old(Contents())
      ensures r.Ok? ==> |r.value| == |found| == n
                        && (forall i | 0 <= i < n :: found[i] in old(rows) && r.value[i] == old(rows)[found[i]] && !r.value[i].used)
      ensures r.Ok? ==> Contents() == MarkUsed(old(Contents()), IdSet(found))
                        && |Unused(Contents())| == |Unused(old(Contents()))| - n
      ensures r.Ok? ==> rows.Keys == old(rows.Keys)
                        && forall id | id in rows :: rows[id].data == old(rows)[id].data && rows[id].used == (old(rows)[id].used || id in found)
    {
      if !dbOk || |found| < n {
        return Err;
      }
      MarkFound(Contents(), n, found);
      var records, ids := ReadRows(found);
      rows := map id | id in rows :: if id in ids then rows[id].(used := true) else rows[id];
      r := Ok(records);
    }

    /** The rows the query found, and their ids. */
    method ReadRows(found: seq<Id>) returns (records: seq<Row>, ids: set<Id>)
      requires forall id | id in found :: id in rows
      ensures ids == IdSet(found) && |records| == |found|
      ensures forall j | 0 <= j < |found| :: records[j] == rows[found[j]]
    {
      records, ids := [], {};
      var i := 0;
      while i < |found|
        invariant 0 <= i <= |found|
        invariant ids == IdSet(found[..i]) && |records| == i
        invariant forall j | 0 <= j < i :: records[j] == rows[found[j]]
      {
        assert IdSet(found[..i + 1]) == IdSet(found[..i]) + {found[i]};
        records, ids := records + [rows[found[i]]], ids + {found[i]};
        i := i + 1;
      }
      assert found[..i] == found;
    }
  }
}
