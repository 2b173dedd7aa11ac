/** How deleting the expired bins commutes with every other statement. */
module PruneLaws {
  import opened Prelude
  import opened Tables

  predicate Live(db: Db, b: Id, now: int) {
    b in db.bins && now <= db.bins[b].expiresAt
  }

  lemma PruneTwice(db: Db, t: int, now: int)
    requires t <= now
    ensures Prune(Prune(db, t), now) == Prune(db, now)
  {
    var p := Prune(db, t);
    assert ExpiredIds(p, now) + ExpiredIds(db, t) == ExpiredIds(db, now);
    assert Prune(p, now).bins == Prune(db, now).bins;
    assert Prune(p, now).hits == Prune(db, now).hits;
  }

  lemma PruneDelete(db: Db, ids: set<Id>, now: int)
    ensures Prune(DeleteBins(db, ids), now) == DeleteBins(Prune(db, now), ids)
    ensures ids <= ExpiredIds(db, now) ==> Prune(DeleteBins(db, ids), now) == Prune(db, now)
  {
    var d := DeleteBins(db, ids);
    assert ExpiredIds(d, now) == ExpiredIds(db, now) - ids;
    assert Prune(d, now).bins == DeleteBins(Prune(db, now), ids).bins;
    assert Prune(d, now).hits == DeleteBins(Prune(db, now), ids).hits;
    if ids <= ExpiredIds(db, now) {
      assert Prune(d, now).bins == Prune(db, now).bins;
      assert Prune(d, now).hits == Prune(db, now).hits;
    }
  }

  lemma HitTimesLive(db: Db, b: Id, now: int)
    requires b !in ExpiredIds(db, now)
    ensures HitTimes(Prune(db, now), b) == HitTimes(db, b)
  {
  }

  lemma PruneSetStats(db: Db, b: Id, count: nat, last: Option<int>, now: int)
    ensures Prune(SetStats(db, b, count, last), now) == SetStats(Prune(db, now), b, count, last)
  {
    assert ExpiredIds(SetStats(db, b, count, last), now) == ExpiredIds(db, now);
    assert Prune(SetStats(db, b, count, last), now).bins == SetStats(Prune(db, now), b, count, last).bins;
  }

  lemma PruneKeepHits(db: Db, b: Id, keep: set<Id>, now: int)
    ensures Prune(KeepHits(db, b, keep), now) == KeepHits(Prune(db, now), b, keep)
  {
    assert Prune(KeepHits(db, b, keep), now).hits == KeepHits(Prune(db, now), b, keep).hits;
  }

  lemma PruneInsertHit(db: Db, hit: Hit, now: int)
    requires Live(db, hit.binId, now)
    ensures Prune(InsertHit(db, hit), now) == InsertHit(Prune(db, now), hit)
  {
    assert Prune(InsertHit(db, hit), now).hits == InsertHit(Prune(db, now), hit).hits;
  }

  lemma PruneStore(db: Db, hit: Hit, keep: seq<Id>, now: int)
    requires Live(db, hit.binId, now)
    ensures Prune(StoreHit(db, hit, keep), now) == StoreHit(Prune(db, now), hit, keep)
    ensures HitTimes(InsertHit(Prune(db, now), hit), hit.binId) == HitTimes(InsertHit(db, hit), hit.binId)
  {
    var ins := InsertHit(db, hit);
    var kept := KeepHits(ins, hit.binId, Elems(keep));
    PruneInsertHit(db, hit, now);
    PruneKeepHits(ins, hit.binId, Elems(keep), now);
    HitTimesLive(ins, hit.binId, now);
    HitTimesLive(kept, hit.binId, now);
    PruneSetStats(kept, hit.binId, |HitTimes(kept, hit.binId).Keys|, Some(hit.receivedAt), now);
  }

  lemma PruneClear(db: Db, b: Id, now: int)
    ensures Prune(ClearBin(db, b), now) == ClearBin(Prune(db, now), b)
  {
    PruneKeepHits(db, b, {}, now);
    PruneSetStats(KeepHits(db, b, {}), b, 0, None, now);
  }

  /** A bin that is not yet expired can be inserted before or after pruning. */
  lemma PruneInsertBin(db: Db, bin: Bin, now: int)
    requires now <= bin.expiresAt
    ensures Prune(InsertBin(Prune(db, now), bin), now) == InsertBin(Prune(db, now), bin)
  {
    var e := InsertBin(Prune(db, now), bin);
    assert ExpiredIds(e, now) == {};
    assert Prune(e, now).hits == e.hits;
  }

  lemma {:induction false} RowsOfSame<T>(a: map<Id, T>, b: map<Id, T>, order: seq<Id>)
    requires forall x :: x in order ==> x in a && x in b && a[x] == b[x]
    ensures RowsOf(a, order) == RowsOf(b, order)
  {
    if order == [] {
    } else {
      assert order[0] in order && forall x :: x in order[1..] ==> x in order;
      RowsOfSame(a, b, order[1..]);
    }
  }

  lemma {:induction false} RowsOfLength<T>(rows: map<Id, T>, order: seq<Id>)
    ensures |RowsOf(rows, order)| <= |order|
    ensures |RowsOf(rows, order)| == |order| <==> forall x :: x in order ==> x in rows
  {
    if order == [] {
    } else {
      RowsOfLength(rows, order[1..]);
      assert forall x :: x in order <==> x == order[0] || x in order[1..];
    }
  }

  /** The rows of a query, one after the other. */
  lemma {:induction false} RowsInOrder<T>(rows: map<Id, T>, order: seq<Id>)
    requires forall x :: x in order ==> x in rows
    ensures |RowsOf(rows, order)| == |order|
    ensures forall i :: 0 <= i < |order| ==> order[i] in rows && RowsOf(rows, order)[i] == rows[order[i]]
  {
    if order == [] {
    } else {
      assert order[0] in order && forall x :: x in order[1..] ==> x in order;
      RowsInOrder(rows, order[1..]);
      forall i | 0 <= i < |order| ensures order[i] in rows && RowsOf(rows, order)[i] == rows[order[i]] {
        if i > 0 { assert RowsOf(rows, order)[i] == RowsOf(rows, order[1..])[i - 1]; }
      }
    }
  }
}
