/** The hits of each bin after each statement. */
module HitLaws {
  import opened Prelude
  import opened Tables

  lemma ClearedTimes(db: Db, b: Id, other: Id)
    ensures HitTimes(ClearBin(db, b), b) == map[]
    ensures other != b ==> HitTimes(ClearBin(db, b), other) == HitTimes(db, other)
  {
  }

  lemma DeletedTimes(db: Db, ids: set<Id>, b: Id)
    ensures HitTimes(DeleteBins(db, ids), b) == if b in ids then map[] else HitTimes(db, b)
  {
  }

  lemma InsertedTimes(db: Db, hit: Hit, b: Id)
    requires hit.id !in db.hits
    ensures HitTimes(InsertHit(db, hit), b)
         == if b == hit.binId then HitTimes(db, b)[hit.id := hit.receivedAt] else HitTimes(db, b)
  {
  }

  lemma KeptTimes(db: Db, binId: Id, keep: set<Id>, b: Id)
    ensures HitTimes(KeepHits(db, binId, keep), b)
         == if b == binId then Restrict(HitTimes(db, b), keep) else HitTimes(db, b)
  {
  }

  lemma StatsTimes(db: Db, binId: Id, count: nat, last: Option<int>, b: Id)
    ensures HitTimes(SetStats(db, binId, count, last), b) == HitTimes(db, b)
  {
  }

  /** What an ingest leaves of its bin, and of every other. */
  lemma StoredTimes(db: Db, hit: Hit, keep: seq<Id>, b: Id)
    requires hit.id !in db.hits
    ensures HitTimes(StoreHit(db, hit, keep), b)
         == if b == hit.binId then Restrict(HitTimes(db, b)[hit.id := hit.receivedAt], Elems(keep))
            else HitTimes(db, b)
  {
    var kept := KeepHits(InsertHit(db, hit), hit.binId, Elems(keep));
    InsertedTimes(db, hit, b);
    KeptTimes(InsertHit(db, hit), hit.binId, Elems(keep), b);
    StatsTimes(kept, hit.binId, |HitTimes(kept, hit.binId).Keys|, Some(hit.receivedAt), b);
  }
}
