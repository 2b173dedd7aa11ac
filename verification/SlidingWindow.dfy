/** Each bin holds exactly the newest hits of all that arrived since it was created or last cleared. */
module SlidingWindow {
  import opened Prelude
  import opened NewestFirst
  import opened Limits
  import opened Tables
  import opened HitLaws
  import opened WebhookOps

  /** Per bin, when each hit arrived that was ever stored since creation or the last clear. */
  type History = map<Id, map<Id, int>>

  function Arrivals(past: History, b: Id): map<Id, int> {
    if b in past then past[b] else map[]
  }

  function Record(past: History, s: State, op: Op, env: Env, reply: Reply): History {
    if op.Ingest? && reply.Stored? then past[op.binId := Arrivals(past, op.binId)[op.hitId := env.now]]
    else if op.ClearHits? && GetOwned(s, op.user, op.binId, env).reply.OneBin? then past[op.binId := map[]]
    else past
  }

  function RunHistory(s: State, past: History, run: seq<Event>): History
    requires AllWellFormed(run)
    decreases |run|
  {
    if run == [] then past
    else
      var d := Step(s, run[0].op, run[0].env);
      RunHistory(d.state, Record(past, s, run[0].op, run[0].env, d.reply), run[1..])
  }

  /** The stored hits are the newest MAX_HITS_PER_BIN arrivals, with their arrival times. */
  ghost predicate NewestKept(stored: map<Id, int>, all: map<Id, int>) {
    IsTop(all, MAX_HITS_PER_BIN, stored.Keys) && stored == Restrict(all, stored.Keys)
  }

  ghost predicate Tracks(db: Db, past: History) {
    forall b :: b in db.bins ==> NewestKept(HitTimes(db, b), Arrivals(past, b))
  }

  ghost predicate AllUsed(db: Db, past: History, used: set<Id>) {
    && (forall h :: h in db.hits ==> h in used && db.hits[h].binId in used)
    && (forall b :: b in db.bins ==> b in used)
    && (forall b :: b in past ==> b in used && past[b].Keys <= used)
  }

  ghost predicate Inv(db: Db, past: History, used: set<Id>) {
    Tracks(db, past) && AllUsed(db, past, used)
  }

  lemma NothingKept()
    ensures NewestKept(map[], map[])
  {
    var none: map<Id, int> := map[];
    assert Restrict(none, none.Keys) == none;
  }

  lemma DeleteInv(db: Db, past: History, used: set<Id>, ids: set<Id>)
    requires Inv(db, past, used)
    ensures Inv(DeleteBins(db, ids), past, used)
  {
    hide NewestKept;
    forall b | b in DeleteBins(db, ids).bins ensures NewestKept(HitTimes(DeleteBins(db, ids), b), Arrivals(past, b)) {
      DeletedTimes(db, ids, b);
    }
  }

  lemma InsertBinInv(db: Db, past: History, used: set<Id>, bin: Bin)
    requires Inv(db, past, used) && bin.id !in used
    ensures Inv(InsertBin(db, bin), past, used + {bin.id})
  {
    hide NewestKept;
    NothingKept();
    var d := InsertBin(db, bin);
    forall b | b in d.bins ensures NewestKept(HitTimes(d, b), Arrivals(past, b)) {
      assert HitTimes(d, b) == HitTimes(db, b);
      if b == bin.id { assert HitTimes(db, b) == map[]; }
    }
  }

  lemma ClearInv(db: Db, past: History, used: set<Id>, binId: Id)
    requires Inv(db, past, used) && binId in used
    ensures Inv(ClearBin(db, binId), past[binId := map[]], used)
  {
    hide NewestKept;
    NothingKept();
    forall b | b in ClearBin(db, binId).bins
      ensures NewestKept(HitTimes(ClearBin(db, binId), b), Arrivals(past[binId := map[]], b))
    {
      ClearedTimes(db, binId, b);
    }
  }

  /** One more arrival, whatever its time. */
  lemma ArrivalKept(stored: map<Id, int>, all: map<Id, int>, h: Id, at: int, keep: seq<Id>)
    requires NewestKept(stored, all) && h !in all
    requires TopN(stored[h := at], MAX_HITS_PER_BIN, keep)
    ensures NewestKept(Restrict(stored[h := at], Elems(keep)), all[h := at])
  {
    TopNIsTop(stored[h := at], MAX_HITS_PER_BIN, keep);
    hide TopN;
    TopStream(all, MAX_HITS_PER_BIN, stored.Keys, h, at, Elems(keep));
    var stored' := Restrict(stored[h := at], Elems(keep));
    assert stored'.Keys == Elems(keep);
    hide IsTop;
    assert stored' == Restrict(all[h := at], Elems(keep));
  }

  function AfterArrival(past: History, hit: Hit): History {
    past[hit.binId := Arrivals(past, hit.binId)[hit.id := hit.receivedAt]]
  }

  lemma StoreTracks(db: Db, past: History, used: set<Id>, hit: Hit, keep: seq<Id>)
    requires Inv(db, past, used) && hit.id !in used && hit.binId in db.bins
    requires TopN(HitTimes(InsertHit(db, hit), hit.binId), MAX_HITS_PER_BIN, keep)
    ensures Tracks(StoreHit(db, hit, keep), AfterArrival(past, hit))
  {
    hide NewestKept, TopN;
    var d := StoreHit(db, hit, keep);
    forall b | b in d.bins ensures NewestKept(HitTimes(d, b), Arrivals(AfterArrival(past, hit), b)) {
      StoredTimes(db, hit, keep, b);
      if b == hit.binId {
        InsertedTimes(db, hit, b);
        ArrivalKept(HitTimes(db, b), Arrivals(past, b), hit.id, hit.receivedAt, keep);
      }
    }
  }

  lemma StoreUsed(db: Db, past: History, used: set<Id>, hit: Hit, keep: seq<Id>)
    requires AllUsed(db, past, used) && hit.binId in db.bins
    ensures AllUsed(StoreHit(db, hit, keep), AfterArrival(past, hit), used + {hit.id})
  {
    var d, past', used' := StoreHit(db, hit, keep), AfterArrival(past, hit), used + {hit.id};
    forall h | h in d.hits ensures h in used' && d.hits[h].binId in used' {
      assert h == hit.id || (h in db.hits && d.hits[h] == db.hits[h]);
    }
    forall b | b in past' ensures b in used' && past'[b].Keys <= used' {
      assert past'[b].Keys <= Arrivals(past, b).Keys + {hit.id};
    }
  }

  lemma StoreInv(db: Db, past: History, used: set<Id>, hit: Hit, keep: seq<Id>)
    requires Inv(db, past, used) && hit.id !in used && hit.binId in db.bins
    requires TopN(HitTimes(InsertHit(db, hit), hit.binId), MAX_HITS_PER_BIN, keep)
    ensures Inv(StoreHit(db, hit, keep), AfterArrival(past, hit), used + {hit.id})
  {
    StoreTracks(db, past, used, hit, keep);
    hide Tracks, TopN, StoreHit;
    StoreUsed(db, past, used, hit, keep);
  }

  lemma MoreUsed(db: Db, past: History, used: set<Id>, more: set<Id>)
    requires Inv(db, past, used)
    ensures Inv(db, past, used + more)
  {
  }

  lemma CreateStep(s: State, past: History, used: set<Id>, user: string, name: string, newId: Id, env: Env)
    requires Inv(s.db, past, used) && |newId| >= 6 && newId !in used
    ensures Inv(CreateBin(s, user, name, newId, env).state.db, past, used + {newId})
  {
    hide Inv, DeleteBins;
    var s1 := PruneExpired(s, env);
    DeleteInv(s.db, past, used, ExpiredIds(s.db, env.now));
    MoreUsed(s1.db, past, used, {newId});
    InsertBinInv(s1.db, past, used, NewBin(user, name, newId, env.now));
  }

  lemma IngestStep(s: State, past: History, used: set<Id>, op: Op, env: Env)
    requires Inv(s.db, past, used) && op.Ingest? && op.hitId !in used && Allowed(s, op, env)
    ensures var d := IngestHit(s, op.binId, op.input, op.hitId, op.keep, env);
      Inv(d.state.db, Record(past, s, op, env, d.reply), used + {op.hitId})
  {
    hide Inv, TopN, StoreHit, DeleteBins;
    var s1 := PruneExpired(s, env);
    DeleteInv(s.db, past, used, ExpiredIds(s.db, env.now));
    MoreUsed(s1.db, past, used, {op.hitId});
    DeleteInv(s1.db, past, used + {op.hitId}, {op.binId});
    if IngestHit(s, op.binId, op.input, op.hitId, op.keep, env).reply.Stored? {
      StoreInv(s1.db, past, used, MakeHit(op.binId, op.input, op.hitId, env.now), op.keep);
    }
  }

  lemma OtherStep(s: State, past: History, used: set<Id>, op: Op, env: Env)
    requires Inv(s.db, past, used) && !op.Create? && !op.Ingest? && !op.ClearHits? && WellFormed(op)
    ensures Inv(Step(s, op, env).state.db, past, used)
  {
    hide Inv, DeleteBins;
    var s1 := PruneExpired(s, env);
    DeleteInv(s.db, past, used, ExpiredIds(s.db, env.now));
    if op.Get? || op.Delete? || op.ListHits? || op.GetHit? {
      DeleteInv(s1.db, past, used, {op.binId});
      DeleteInv(s.db, past, used, {op.binId});
    }
  }

  lemma StepInv(s: State, past: History, used: set<Id>, op: Op, env: Env)
    requires Inv(s.db, past, used) && WellFormed(op) && NewIds(op) !! used && Allowed(s, op, env)
    ensures var d := Step(s, op, env);
      Inv(d.state.db, Record(past, s, op, env, d.reply), used + NewIds(op))
  {
    hide Inv, Allowed, CreateBin, IngestHit, ClearBinHits;
    match op
    case Create(user, name, newId) => CreateStep(s, past, used, user, name, newId, env);
    case Ingest(binId, input, hitId, keep) => IngestStep(s, past, used, op, env);
    case ClearHits(user, binId) =>
      ClearStep(s, past, used, user, binId, env);
      assert used + {} == used;
    case _ =>
      OtherStep(s, past, used, op, env);
      assert used + {} == used;
  }

  lemma ClearedOwned(s: State, user: string, binId: Id, env: Env)
    requires GetOwned(s, user, binId, env).reply.OneBin?
    ensures ClearBinHits(s, user, binId, env).state == s.(db := ClearBin(s.db, binId))
  {
  }

  lemma ClearStep(s: State, past: History, used: set<Id>, user: string, binId: Id, env: Env)
    requires Inv(s.db, past, used)
    ensures var d := ClearBinHits(s, user, binId, env);
      Inv(d.state.db, Record(past, s, ClearHits(user, binId), env, d.reply), used)
  {
    assert binId in s.db.bins ==> binId in used;
    hide Inv, DeleteBins, ClearBin;
    DeleteInv(s.db, past, used, {binId});
    if GetOwned(s, user, binId, env).reply.OneBin? {
      ClearedOwned(s, user, binId, env);
      ClearInv(s.db, past, used, binId);
    }
  }

  lemma {:induction false} RunKeepsInv(s: State, past: History, used: set<Id>, run: seq<Event>) returns (used': set<Id>)
    requires Inv(s.db, past, used) && Plays(s, used, run) && AllWellFormed(run)
    ensures Inv(Run(s, run).db, RunHistory(s, past, run), used')
    decreases |run|
  {
    hide Inv, Step, Allowed;
    if run == [] {
      used' := used;
    } else {
      var d := Step(s, run[0].op, run[0].env);
      StepInv(s, past, used, run[0].op, run[0].env);
      used' := RunKeepsInv(d.state, Record(past, s, run[0].op, run[0].env, d.reply),
                           used + NewIds(run[0].op), run[1..]);
    }
  }

  /**
   * After any serial run, even one whose clock jumps, no arrival that is gone is newer than one
   * that is stored, and as many are stored as the cap lets.
   */
  lemma StoredAreNewest(run: seq<Event>, b: Id)
    requires Plays(State(EMPTY, map[]), {}, run) && AllWellFormed(run)
    requires b in Run(State(EMPTY, map[]), run).db.bins
    ensures NewestKept(HitTimes(Run(State(EMPTY, map[]), run).db, b),
                       Arrivals(RunHistory(State(EMPTY, map[]), map[], run), b))
  {
    assert Inv(EMPTY, map[], {});
    var used := RunKeepsInv(State(EMPTY, map[]), map[], {}, run);
  }

  /** With distinct arrival times that determines the stored hits. */
  lemma StoredAreDetermined(run: seq<Event>, b: Id, newest: set<Id>)
    requires Plays(State(EMPTY, map[]), {}, run) && AllWellFormed(run)
    requires b in Run(State(EMPTY, map[]), run).db.bins
    requires DistinctTimes(Arrivals(RunHistory(State(EMPTY, map[]), map[], run), b))
    requires IsTop(Arrivals(RunHistory(State(EMPTY, map[]), map[], run), b), MAX_HITS_PER_BIN, newest)
    ensures HitTimes(Run(State(EMPTY, map[]), run).db, b).Keys == newest
  {
    StoredAreNewest(run, b);
    var all := Arrivals(RunHistory(State(EMPTY, map[]), map[], run), b);
    hide Plays;
    TopUnique(all, MAX_HITS_PER_BIN, HitTimes(Run(State(EMPTY, map[]), run).db, b).Keys, newest);
  }
}
