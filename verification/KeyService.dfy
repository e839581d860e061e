/**
 * What key generation and export cost the pool (internal/keymanager/service.go, GenerateKey and
 * ExportPrivateKey). RSA, AES-GCM and the key store are reduced to whether they succeed.
 */
module KeyService {
  import P = EntropyPool
  import S = EntropySystem

  /** A call's effect on the pool: one paid delivery, or nothing. */
  ghost predicate Charged(before: P.Pool, after: P.Pool, call: S.Call, ids: set<P.Id>, paid: bool) {
    if paid then
      ids <= P.Unused(before) && |ids| == S.Price(call) && after == P.MarkUsed(before, ids)
    else
      after == before
  }

  /** A paid call is exactly a Consume step of the system, whatever its later steps did. */
  lemma ChargedIsAStep(s: S.State, after: P.Pool, call: S.Call, ids: set<P.Id>, completed: bool)
    requires Charged(s.pool, after, call, ids, true)
    ensures S.Enabled(s, S.Consume(call, ids, completed)) && S.Apply(s, S.Consume(call, ids, completed)).pool == after
  {
  }

  datatype Lookup = LookupFailed | NotFound | Found

  class Service {
    const store: P.Repository

    constructor (store: P.Repository)
      ensures this.store == store
    {
      this.store := store;
    }

    /**
     * GenerateKey pays for five records once the size is valid and the pool can pay, and keeps
     * them spent even when a later step (`rest`) fails.
     */
    method GenerateKey(keySize: int, found: seq<P.Id>, dbOk: bool, rest: bool) returns (ok: bool)
      requires store.Valid() && P.FindsUnused(store.Contents(), S.ENTROPY_PER_KEY, found)
      modifies store
      ensures store.Valid()
      ensures var paid := (keySize == 2048 || keySize == 4096) && dbOk && 5 <= |P.Unused(old(store.Contents()))|;
              && Charged(old(store.Contents()), store.Contents(), S.GenerateKey, P.IdSet(found), paid)
              && |P.Unused(store.Contents())| == |P.Unused(old(store.Contents()))| - (if paid then 5 else 0)
              && (ok <==> paid && rest)
    {
      if keySize != 2048 && keySize != 4096 {
        return false;
      }
      P.DistinctCount(found);
      var records := store.ConsumeEntropy(S.ENTROPY_PER_KEY, found, dbOk);
      if records.Err? {
        return false;
      }
      ok := rest;
    }

    /** ExportPrivateKey pays for two records once the key is found and the pool can pay. */
    method ExportPrivateKey(key: Lookup, found: seq<P.Id>, dbOk: bool, rest: bool) returns (ok: bool)
      requires store.Valid() && P.FindsUnused(store.Contents(), S.ENTROPY_PER_EXPORT, found)
      modifies store
      ensures store.Valid()
      ensures var paid := key.Found? && dbOk && 2 <= |P.Unused(old(store.Contents()))|;
              && Charged(old(store.Contents()), store.Contents(), S.ExportPrivateKey, P.IdSet(found), paid)
              && |P.Unused(store.Contents())| == |P.Unused(old(store.Contents()))| - (if paid then 2 else 0)
              && (ok <==> paid && rest)
    {
      if !key.Found? {
        return false;
      }
      P.DistinctCount(found);
      var records := store.ConsumeEntropy(S.ENTROPY_PER_EXPORT, found, dbOk);
      if records.Err? {
        return false;
      }
      ok := rest;
    }
  }
}
