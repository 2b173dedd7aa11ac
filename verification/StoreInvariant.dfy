/** What holds of the tables after every serial run. */
module StoreInvariant {
  import opened Prelude
  import opened NewestFirst
  import opened Limits
  import opened Tables
  import opened HitLaws
  import opened WebhookOps

  /** last is None exactly for no times, and otherwise their maximum. */
  ghost predicate LatestIs(times: map<Id, int>, last: Option<int>) {
    match last
    case None => times == map[]
    case Some(t) => (exists h :: h in times && times[h] == t) && forall h :: h in times ==> times[h] <= t
  }

  ghost predicate BinOk(b: Id, bin: Bin, times: map<Id, int>, now: int) {
    && bin.id == b
    && bin.createdAt <= now
    && bin.expiresAt == bin.createdAt + BIN_TTL
    && bin.hitCount == |times.Keys| <= MAX_HITS_PER_BIN
    && LatestIs(times, bin.lastHitAt)
  }

  ghost predicate HitOk(db: Db, h: Id, now: int)
    requires h in db.hits
  {
    db.hits[h].id == h && db.hits[h].binId in db.bins && db.hits[h].receivedAt <= now
  }

  ghost predicate BinsOk(db: Db, used: set<Id>, now: int) {
    forall b :: b in db.bins ==> b in used && BinOk(b, db.bins[b], HitTimes(db, b), now)
  }

  ghost predicate HitsOk(db: Db, used: set<Id>, now: int) {
    forall h :: h in db.hits ==> h in used && HitOk(db, h, now)
  }

  ghost predicate UsersOk(db: Db) {
    forall u :: |BinsOf(db, u)| <= MAX_BINS_PER_USER
  }

  ghost predicate Inv(db: Db, used: set<Id>, now: int) {
    BinsOk(db, used, now) && HitsOk(db, used, now) && UsersOk(db)
  }

  lemma TimePasses(db: Db, used: set<Id>, t: int, now: int, more: set<Id>)
    requires Inv(db, used, t) && t <= now
    ensures Inv(db, used + more, now)
  {
    forall h | h in db.hits ensures h in used + more && HitOk(db, h, now) {
      assert HitOk(db, h, t);
    }
    forall b | b in db.bins ensures b in used + more && BinOk(b, db.bins[b], HitTimes(db, b), now) {
      assert BinOk(b, db.bins[b], HitTimes(db, b), t);
    }
  }

  lemma DeleteInv(db: Db, used: set<Id>, now: int, ids: set<Id>)
    requires Inv(db, used, now)
    ensures Inv(DeleteBins(db, ids), used, now)
  {
    DeleteBinsOk(db, used, now, ids);
    hide BinsOk;
    SameOwners(db, DeleteBins(db, ids));
    hide UsersOk;
    forall h | h in DeleteBins(db, ids).hits ensures h in used && HitOk(DeleteBins(db, ids), h, now) {
      assert HitOk(db, h, now);
    }
  }

  lemma DeleteBinsOk(db: Db, used: set<Id>, now: int, ids: set<Id>)
    requires BinsOk(db, used, now)
    ensures BinsOk(DeleteBins(db, ids), used, now)
  {
    hide BinOk;
    forall b | b in DeleteBins(db, ids).bins ensures HitTimes(DeleteBins(db, ids), b) == HitTimes(db, b) {
      DeletedTimes(db, ids, b);
    }
  }

  lemma InsertBinInv(db: Db, used: set<Id>, now: int, bin: Bin)
    requires Inv(db, used, now) && bin.id !in used
    requires bin.createdAt == now && bin.expiresAt == now + BIN_TTL && bin.hitCount == 0 && bin.lastHitAt == None
    requires |BinsOf(db, bin.userId)| < MAX_BINS_PER_USER
    ensures Inv(InsertBin(db, bin), used + {bin.id}, now)
  {
    InsertBinBins(db, used, now, bin);
    hide BinsOk;
    SameHits(db, InsertBin(db, bin), used, now, {bin.id});
    forall u ensures |BinsOf(InsertBin(db, bin), u)| <= MAX_BINS_PER_USER {
      assert BinsOf(InsertBin(db, bin), u) <= if u == bin.userId then BinsOf(db, u) + {bin.id} else BinsOf(db, u);
      SubsetSize(BinsOf(InsertBin(db, bin), u), if u == bin.userId then BinsOf(db, u) + {bin.id} else BinsOf(db, u));
    }
  }

  lemma SameHits(db: Db, d: Db, used: set<Id>, now: int, more: set<Id>)
    requires HitsOk(db, used, now) && db.bins.Keys <= d.bins.Keys
    requires forall h :: h in d.hits ==> h in db.hits && d.hits[h] == db.hits[h]
    ensures HitsOk(d, used + more, now)
  {
    forall h | h in d.hits ensures h in used + more && HitOk(d, h, now) {
      assert HitOk(db, h, now);
    }
  }

  lemma SameOwners(db: Db, d: Db)
    requires UsersOk(db)
    requires forall b :: b in d.bins ==> b in db.bins && d.bins[b].userId == db.bins[b].userId
    ensures UsersOk(d)
  {
    forall u ensures |BinsOf(d, u)| <= MAX_BINS_PER_USER {
      SubsetSize(BinsOf(d, u), BinsOf(db, u));
    }
  }

  lemma InsertBinBins(db: Db, used: set<Id>, now: int, bin: Bin)
    requires BinsOk(db, used, now) && HitsOk(db, used, now) && bin.id !in used
    requires bin.createdAt == now && bin.expiresAt == now + BIN_TTL && bin.hitCount == 0 && bin.lastHitAt == None
    ensures BinsOk(InsertBin(db, bin), used + {bin.id}, now)
  {
    var d := InsertBin(db, bin);
    forall b | b in d.bins ensures b in used + {bin.id} && BinOk(b, d.bins[b], HitTimes(d, b), now) {
      assert HitTimes(d, b) == HitTimes(db, b);
      if b == bin.id {
        assert bin.id !in db.bins;
        assert forall h :: h in db.hits ==> HitOk(db, h, now);
        assert HitTimes(d, b) == map[];
      } else {
        assert BinOk(b, db.bins[b], HitTimes(db, b), now);
      }
    }
  }

  lemma ClearInv(db: Db, used: set<Id>, now: int, binId: Id)
    requires Inv(db, used, now)
    ensures Inv(ClearBin(db, binId), used, now)
  {
    ClearBinsOk(db, used, now, binId);
    hide BinsOk;
    SameOwners(db, ClearBin(db, binId));
    hide UsersOk;
    SameHits(db, ClearBin(db, binId), used, now, {});
    assert used + {} == used;
  }

  lemma ClearBinsOk(db: Db, used: set<Id>, now: int, binId: Id)
    requires BinsOk(db, used, now)
    ensures BinsOk(ClearBin(db, binId), used, now)
  {
    var d := ClearBin(db, binId);
    forall b | b in d.bins ensures b in used && BinOk(b, d.bins[b], HitTimes(d, b), now) {
      assert BinOk(b, db.bins[b], HitTimes(db, b), now);
      ClearedTimes(db, binId, b);
      ClearedOk(b, db.bins[b], HitTimes(db, b), now);
      hide BinOk;
    }
  }

  lemma ClearedOk(b: Id, bin: Bin, times: map<Id, int>, now: int)
    requires BinOk(b, bin, times, now)
    ensures BinOk(b, bin.(hitCount := 0, lastHitAt := None), map[], now)
  {
  }

  /** Something received now is among the newest, even if a tie pushed out the arrival itself. */
  lemma LatestAfterPrune(times: map<Id, int>, h: Id, now: int, keep: seq<Id>)
    requires h !in times && forall x :: x in times ==> times[x] <= now
    requires TopN(times[h := now], MAX_HITS_PER_BIN, keep)
    ensures LatestIs(Restrict(times[h := now], Elems(keep)), Some(now))
    ensures |Restrict(times[h := now], Elems(keep)).Keys| <= MAX_HITS_PER_BIN
  {
    var all := times[h := now];
    var kept := Restrict(all, Elems(keep));
    DistinctSize(keep);
    SubsetSize(kept.Keys, Elems(keep));
    assert all.Keys == times.Keys + {h} && |all.Keys| >= 1;
    var x := keep[0];
    assert x in keep && x in kept;
    assert all[x] == now by {
      if h in keep {
        var i :| 0 <= i < |keep| && keep[i] == h;
        assert all[keep[0]] >= all[keep[i]];
      } else {
        assert all[h] <= all[x];
      }
    }
  }

  lemma StoreInv(db: Db, used: set<Id>, now: int, hit: Hit, keep: seq<Id>)
    requires Inv(db, used, now) && hit.id !in used && hit.binId in db.bins && hit.receivedAt == now
    requires TopN(HitTimes(InsertHit(db, hit), hit.binId), MAX_HITS_PER_BIN, keep)
    ensures Inv(StoreHit(db, hit, keep), used + {hit.id}, now)
  {
    hide TopN, BinsOk;
    StoreBins(db, used, now, hit, keep);
    SameOwners(db, StoreHit(db, hit, keep));
    forall h | h in StoreHit(db, hit, keep).hits
      ensures h in used + {hit.id} && HitOk(StoreHit(db, hit, keep), h, now)
    {
      if h != hit.id { assert HitOk(db, h, now); }
    }
  }

  lemma StoreBins(db: Db, used: set<Id>, now: int, hit: Hit, keep: seq<Id>)
    requires Inv(db, used, now) && hit.id !in used && hit.binId in db.bins && hit.receivedAt == now
    requires TopN(HitTimes(InsertHit(db, hit), hit.binId), MAX_HITS_PER_BIN, keep)
    ensures BinsOk(StoreHit(db, hit, keep), used + {hit.id}, now)
  {
    hide TopN, BinOk, Restrict;
    var d := StoreHit(db, hit, keep);
    forall b | b in d.bins ensures b in used + {hit.id} && BinOk(b, d.bins[b], HitTimes(d, b), now) {
      if b == hit.binId {
        StoredBinOk(db, used, now, hit, keep);
      } else {
        assert BinOk(b, db.bins[b], HitTimes(db, b), now);
        StoredTimes(db, hit, keep, b);
      }
    }
  }

  lemma StoredBinOk(db: Db, used: set<Id>, now: int, hit: Hit, keep: seq<Id>)
    requires Inv(db, used, now) && hit.id !in used && hit.binId in db.bins && hit.receivedAt == now
    requires TopN(HitTimes(InsertHit(db, hit), hit.binId), MAX_HITS_PER_BIN, keep)
    ensures var d := StoreHit(db, hit, keep);
      hit.binId in d.bins && BinOk(hit.binId, d.bins[hit.binId], HitTimes(d, hit.binId), now)
  {
    hide TopN;
    var b := hit.binId;
    assert BinOk(b, db.bins[b], HitTimes(db, b), now);
    InsertedTimes(db, hit, b);
    StoredTimes(db, hit, keep, b);
    forall x | x in HitTimes(db, b) ensures HitTimes(db, b)[x] <= now {
      assert HitOk(db, x, now);
    }
    LatestAfterPrune(HitTimes(db, b), hit.id, now, keep);
    var kept := KeepHits(InsertHit(db, hit), b, Elems(keep));
    KeptTimes(InsertHit(db, hit), b, Elems(keep), b);
    hide LatestIs, KeepHits, InsertHit;
    assert StoreHit(db, hit, keep).bins[b].hitCount == |HitTimes(kept, b).Keys|;
  }

  lemma StepInv(s: State, used: set<Id>, t: int, op: Op, env: Env)
    requires Inv(s.db, used, t) && t <= env.now && WellFormed(op) && NewIds(op) !! used && Allowed(s, op, env)
    ensures Inv(Step(s, op, env).state.db, used + NewIds(op), env.now)
  {
    hide Inv, TopN, StoreHit, MakeHit, ClearBin;
    var now, new_ := env.now, NewIds(op);
    TimePasses(s.db, used, t, now, {});
    assert used + {} == used;
    var s1 := PruneExpired(s, env);
    DeleteInv(s.db, used, now, ExpiredIds(s.db, now));
    match op
    case Create(user, name, newId) =>
      CreateInv(s1.db, used, user, NewBin(user, name, newId, now), now);
    case Ingest(binId, input, hitId, keep) =>
      IngestInv(s, used, binId, input, hitId, keep, env);
    case List(_, _) =>
    case PublicExists(_) =>
    case Get(_, binId) => DeleteInv(s1.db, used, now, {binId});
    case Delete(_, binId) => DeleteInv(s.db, used, now, {binId});
    case ClearHits(_, binId) =>
      DeleteInv(s.db, used, now, {binId});
      ClearInv(s.db, used, now, binId);
      DeleteInv(ClearBin(s.db, binId), used, now, {binId});
    case ListHits(_, binId, _, _, _) => DeleteInv(s.db, used, now, {binId});
    case GetHit(_, binId, _) => DeleteInv(s.db, used, now, {binId});
  }

  lemma CreateInv(db: Db, used: set<Id>, user: string, bin: Bin, now: int)
    requires Inv(db, used, now) && bin.id !in used && bin.userId == user
    requires bin.createdAt == now && bin.expiresAt == now + BIN_TTL && bin.hitCount == 0 && bin.lastHitAt == None
    ensures Inv(db, used + {bin.id}, now)
    ensures |BinsOf(db, user)| < MAX_BINS_PER_USER ==> Inv(InsertBin(db, bin), used + {bin.id}, now)
  {
    TimePasses(db, used, now, now, {bin.id});
    hide Inv;
    if |BinsOf(db, user)| < MAX_BINS_PER_USER { InsertBinInv(db, used, now, bin); }
  }

  lemma IngestInv(s: State, used: set<Id>, binId: Id, input: IngestInput, hitId: Id, keep: seq<Id>, env: Env)
    requires Inv(s.db, used, env.now) && hitId !in used && Allowed(s, Ingest(binId, input, hitId, keep), env)
    ensures Inv(IngestHit(s, binId, input, hitId, keep, env).state.db, used + {hitId}, env.now)
  {
    hide Inv, TopN, StoreHit;
    var now := env.now;
    var s1 := PruneExpired(s, env);
    DeleteInv(s.db, used, now, ExpiredIds(s.db, now));
    TimePasses(s1.db, used, now, now, {hitId});
    DeleteInv(s1.db, used + {hitId}, now, {binId});
    if IngestHit(s, binId, input, hitId, keep, env).reply.Stored? {
      StoreInv(s1.db, used, now, MakeHit(binId, input, hitId, now), keep);
    }
  }

  /** The invariant of every serial run from the empty store. */
  lemma RunInv(run: seq<Event>, t: int, now: int)
    requires Legal(State(EMPTY, map[]), {}, t, run) && AllWellFormed(run)
    requires t <= now && (run == [] || run[|run| - 1].env.now <= now)
    ensures var db := Run(State(EMPTY, map[]), run).db;
      && (forall h :: h in db.hits ==> HitOk(db, h, now))
      && (forall b :: b in db.bins ==> BinOk(b, db.bins[b], HitTimes(db, b), now))
      && (forall u :: |BinsOf(db, u)| <= MAX_BINS_PER_USER)
  {
    assert forall u :: BinsOf(EMPTY, u) == {};
    assert Inv(EMPTY, {}, t);
    var used := RunKeepsInv(State(EMPTY, map[]), {}, t, run, now);
    hide Run, HitOk, BinOk, HitTimes;
  }

  lemma {:induction false} RunKeepsInv(s: State, used: set<Id>, t: int, run: seq<Event>, now: int)
    returns (used': set<Id>)
    requires Inv(s.db, used, t) && Legal(s, used, t, run) && AllWellFormed(run)
    requires t <= now && (run == [] || run[|run| - 1].env.now <= now)
    ensures Inv(Run(s, run).db, used', now)
    decreases |run|
  {
    hide Inv, Step, Allowed;
    if run == [] {
      TimePasses(s.db, used, t, now, {});
      used' := used + {};
    } else {
      var op, env := run[0].op, run[0].env;
      StepInv(s, used, t, op, env);
      ClockedEnd(env.now, run[1..]);
      used' := RunKeepsInv(Step(s, op, env).state, used + NewIds(op), env.now, run[1..], now);
    }
  }
}
