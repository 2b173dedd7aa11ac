/** The webhook store as an object: two tables in Postgres, a cache in Valkey, changed statement by statement. */
module WebhookStore {
  import opened Prelude
  import opened NewestFirst
  import opened Limits
  import opened Redaction
  import opened Tables
  import opened PruneLaws
  import opened WebhookOps

  class Store {
    var bins: map<Id, Bin>
    var hits: map<Id, Hit>
    var cache: map<Id, int>

    constructor ()
      ensures State() == WebhookOps.State(EMPTY, map[])
    {
      bins, hits, cache := map[], map[], map[];
    }

    function Rows(): Db
      reads this
    {
      Db(bins, hits)
    }

    function State(): WebhookOps.State
      reads this
    {
      WebhookOps.State(Rows(), cache)
    }

    method SetRows(db: Db)
      modifies this`bins, this`hits
      ensures Rows() == db
    {
      bins, hits := db.bins, db.hits;
    }

    method CacheBin(id: Id, ttl: int, env: Env)
      modifies this`cache
      ensures cache == WebhookOps.CacheBin(old(cache), id, ttl, env)
    {
      if !env.valkey || ttl <= 0 {
        return;
      }
      cache := cache[id := env.now + ttl];
    }

    method UncacheBin(id: Id, env: Env)
      modifies this`cache
      ensures cache == UncacheBins(old(cache), {id}, env)
    {
      if !env.valkey {
        return;
      }
      cache := cache - {id};
    }

    /** DELETE ... RETURNING id, then one DEL per returned row. */
    method PruneExpired(env: Env) returns (ok: bool)
      modifies this
      ensures ok == env.pruneOk
      ensures State() == WebhookOps.PruneExpired(old(State()), env)
    {
      if !env.pruneOk {
        return false;
      }
      var ids := ExpiredIds(Rows(), env.now);
      SetRows(Prune(Rows(), env.now));
      var todo := ids;
      while todo != {}
        invariant todo <= ids
        invariant Rows() == Prune(old(Rows()), env.now)
        invariant cache == UncacheBins(old(cache), ids - todo, env)
        decreases todo
      {
        var id :| id in todo;
        UncacheBin(id, env);
        todo := todo - {id};
        assert ids - todo == (ids - (todo + {id})) + {id};
      }
      assert ids - todo == ids;
      ok := true;
    }

    method GetOwned(user: string, binId: Id, env: Env) returns (r: Reply)
      modifies this
      ensures Done(State(), r) == WebhookOps.GetOwned(old(State()), user, binId, env)
    {
      if !env.dbOk {
        return Fail(DbError);
      }
      if binId !in bins {
        return Fail(NotFound);
      }
      if bins[binId].userId != user {
        return Fail(Forbidden);
      }
      if env.now > bins[binId].expiresAt {
        SetRows(ExpireBin(Rows(), binId, env));
        UncacheBin(binId, env);
        return Fail(Expired);
      }
      return OneBin(bins[binId]);
    }

    method Create(user: string, name: string, newId: Id, env: Env) returns (r: Reply)
      requires |newId| == 2 * ID_BYTES
      modifies this
      ensures Done(State(), r) == CreateBin(old(State()), user, name, newId, env)
    {
      var ok := PruneExpired(env);
      if !ok || !env.dbOk {
        return Fail(DbError);
      }
      var count := |BinsOf(Rows(), user)|;
      if count >= MAX_BINS_PER_USER {
        return Fail(LimitBins);
      }
      var bin := NewBin(user, name, newId, env.now);
      SetRows(InsertBin(Rows(), bin));
      CacheBin(bin.id, BIN_TTL, env);
      return OneBin(bin);
    }

    method List(user: string, env: Env) returns (r: Reply, ghost order: seq<Id>)
      modifies this
      ensures Allowed(old(State()), Op.List(user, order), env)
      ensures Done(State(), r) == ListBins(old(State()), order, env)
    {
      var _ := PruneExpired(env);
      var times := CreatedTimes(Rows(), user);
      var rows := OrderDesc(times, |times.Keys|);
      order := rows;
      if !env.dbOk {
        return Bins([]), order;
      }
      var out := ScanRows(bins, rows);
      r := Bins(out);
    }

    method Get(user: string, binId: Id, env: Env) returns (r: Reply)
      modifies this
      ensures Done(State(), r) == GetBin(old(State()), user, binId, env)
    {
      var _ := PruneExpired(env);
      r := GetOwned(user, binId, env);
    }

    method Delete(user: string, binId: Id, env: Env) returns (r: Reply)
      modifies this
      ensures Done(State(), r) == DeleteBin(old(State()), user, binId, env)
    {
      r := GetOwned(user, binId, env);
      if r.Fail? {
        return;
      }
      SetRows(DeleteBins(Rows(), {binId}));
      UncacheBin(binId, env);
      r := Ok;
    }

    method ClearHits(user: string, binId: Id, env: Env) returns (r: Reply)
      modifies this
      ensures Done(State(), r) == ClearBinHits(old(State()), user, binId, env)
    {
      r := GetOwned(user, binId, env);
      if r.Fail? {
        return;
      }
      SetRows(KeepHits(Rows(), binId, {}));
      SetRows(SetStats(Rows(), binId, 0, None));
      if !env.rereadOk {
        return Fail(DbError);
      }
      r := GetOwned(user, binId, env);
    }

    method Ingest(binId: Id, input: IngestInput, hitId: Id, env: Env) returns (r: Reply, ghost keep: seq<Id>)
      requires |hitId| == 2 * ID_BYTES
      modifies this
      ensures Allowed(old(State()), Op.Ingest(binId, input, hitId, keep), env)
      ensures Done(State(), r) == IngestHit(old(State()), binId, input, hitId, keep, env)
    {
      keep := [];
      var _ := PruneExpired(env);
      if !env.dbOk {
        return Fail(DbError), keep;
      }
      if binId !in bins {
        return Fail(NotFound), keep;
      }
      if env.now > bins[binId].expiresAt {
        SetRows(ExpireBin(Rows(), binId, env));
        return Fail(Expired), keep;
      }
      var headers := RedactHeaders(input.headers);
      var hit := MakeHit(binId, input, hitId, env.now).(headers := headers);
      SetRows(InsertHit(Rows(), hit));
      var newest := OrderDesc(HitTimes(Rows(), binId), MAX_HITS_PER_BIN);
      SetRows(KeepHits(Rows(), binId, Elems(newest)));
      var count := |HitTimes(Rows(), binId).Keys|;
      SetRows(SetStats(Rows(), binId, count, Some(env.now)));
      r, keep := Stored(hit), newest;
    }

    method ListHits(user: string, binId: Id, limit: int, after: Id, env: Env) returns (r: Reply, ghost page: seq<Id>)
      modifies this
      ensures Allowed(old(State()), Op.ListHits(user, binId, limit, after, page), env)
      ensures Done(State(), r) == PageOfHits(old(State()), user, binId, page, env)
    {
      page := [];
      r := GetOwned(user, binId, env);
      if r.Fail? {
        return;
      }
      var rows := OrderDesc(Candidates(Rows(), binId, after), PageSize(limit));
      var out := ScanRows(hits, rows);
      r, page := Hits(Summaries(out)), rows;
    }

    method GetHit(user: string, binId: Id, hitId: Id, env: Env) returns (r: Reply)
      modifies this
      ensures Done(State(), r) == FindHit(old(State()), user, binId, hitId, env)
    {
      r := GetOwned(user, binId, env);
      if r.Fail? {
        return;
      }
      r := if hitId in hits && hits[hitId].binId == binId then OneHit(hits[hitId]) else Fail(NotFound);
    }

    method PublicExists(binId: Id, env: Env) returns (found: bool)
      modifies this
      ensures Done(State(), Exists(found)) == CheckExists(old(State()), binId, env)
    {
      if env.valkey && binId in cache && env.now <= cache[binId] {
        return true;
      }
      var _ := PruneExpired(env);
      if !env.dbOk || binId !in bins {
        return false;
      }
      var expiresAt := bins[binId].expiresAt;
      if env.now > expiresAt {
        UncacheBin(binId, env);
        return false;
      }
      CacheBin(binId, expiresAt - env.now, env);
      return true;
    }
  }

  /** The loop over a query's rows. */
  method ScanRows<T>(rows: map<Id, T>, order: seq<Id>) returns (out: seq<T>)
    ensures out == RowsOf(rows, order)
    ensures (forall x :: x in order ==> x in rows) ==>
      |out| == |order| && forall i :: 0 <= i < |out| ==> order[i] in rows && out[i] == rows[order[i]]
  {
    if forall x :: x in order ==> x in rows { RowsInOrder(rows, order); }
    out := [];
    var i := 0;
    while i < |order|
      invariant 0 <= i <= |order|
      invariant out + RowsOf(rows, order[i..]) == RowsOf(rows, order)
    {
      assert order[i..][0] == order[i] && order[i..][1..] == order[i + 1..];
      if order[i] in rows {
        out := out + [rows[order[i]]];
      }
      i := i + 1;
    }
  }
}
