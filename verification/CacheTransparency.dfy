/**
 * The existence cache cannot be seen in what gets stored: with entries lost, kept too long, or left
 * behind by failed deletions, the server stores the same hits as one that has no cache at all.
 */
module CacheTransparency {
  import opened Prelude
  import opened Limits
  import opened Tables
  import opened PruneLaws
  import opened WebhookOps
  import opened EagerStore
  import opened BinId
  import opened HookSpec
  import opened HookRuns
  import FixedWindow

  /** The same request against a store that was built without a cache. */
  function NoCache(act: Act): Act {
    match act
    case Manage(op, env) => Manage(op, env.(valkey := false))
    case Hook(req, hitId, keep, f) => Hook(req, hitId, keep, f.(valkey := false))
  }

  /**
   * A check that fails in the database tells the two apart: a cached id passes it, so that its request
   * is counted and may be stored.
   */
  predicate Checked(act: Act) {
    act.Hook? ==> act.f.checkOk
  }

  function CounterOf(sys: Sys, binId: Id): Option<FixedWindow.Counter> {
    FixedWindow.CounterOf(sys.counters, HookKey(binId))
  }

  /** The bins alive now were alive before, but for new ones. */
  predicate NoRevival(before: Db, after: Db, ids: set<Id>) {
    forall b :: b in after.bins && b !in ids ==>
      b in before.bins && after.bins[b].expiresAt == before.bins[b].expiresAt
  }

  // ----- One request -----

  /** What the limiter's verdict and the request decide once the bin is known to be there. */
  function Decision(ok: bool, req: Request, hitId: Id, now: int): Option<Hit> {
    if ok && req.verb != "HEAD" && req.readOk && |ReadBody(req)| <= MAX_BODY_BYTES
    then Some(MakeHit(req.binId, InputOf(req), hitId, now)) else None
  }

  lemma CheckEffect(s: State, binId: Id, env: Env)
    ensures Prune(CheckExists(s, binId, env).state.db, env.now) == Prune(s.db, env.now)
    ensures CheckExists(s, binId, env).reply
         == Exists((env.dbOk && Live(s.db, binId, env.now)) || CacheHit(s.cache, binId, env))
    ensures Live(CheckExists(s, binId, env).state.db, binId, env.now) <==> Live(s.db, binId, env.now)
    ensures NoRevival(s.db, CheckExists(s, binId, env).state.db, {})
  {
    PrunedState(s, env);
  }

  lemma IngestEffect(s: State, binId: Id, input: IngestInput, hitId: Id, keep: seq<Id>, env: Env)
    requires |hitId| == 2 * ID_BYTES
    ensures var d := IngestHit(s, binId, input, hitId, keep, env);
      && NoRevival(s.db, d.state.db, {})
      && (if Live(s.db, binId, env.now) && env.dbOk
          then d.reply == Stored(MakeHit(binId, input, hitId, env.now))
               && Prune(d.state.db, env.now) == EagerStep(s.db, Ingest(binId, input, hitId, keep), env).db
          else d.reply.Fail? && Prune(d.state.db, env.now) == Prune(s.db, env.now))
  {
    IngestState(s, binId, input, hitId, keep, env);
    assert !Live(s.db, binId, env.now) ==> binId !in Prune(s.db, env.now).bins;
    hide Prune, EagerStep, MakeHit, HitTimes, KeepHits;
    IngestReply(s, binId, input, hitId, keep, env);
  }

  lemma IngestReply(s: State, binId: Id, input: IngestInput, hitId: Id, keep: seq<Id>, env: Env)
    requires |hitId| == 2 * ID_BYTES
    ensures var d := IngestHit(s, binId, input, hitId, keep, env);
      && NoRevival(s.db, d.state.db, {})
      && (Live(s.db, binId, env.now) && env.dbOk ==> d.reply == Stored(MakeHit(binId, input, hitId, env.now)))
      && (!(Live(s.db, binId, env.now) && env.dbOk) ==>
            && d.reply.Fail?
            && EagerStep(s.db, Ingest(binId, input, hitId, keep), env).db == Prune(s.db, env.now))
  {
    hide MakeHit, HitTimes;
  }

  lemma AfterLimitEffect(sys: Sys, req: Request, hitId: Id, keep: seq<Id>, f: Faults)
    requires |hitId| == 2 * ID_BYTES
    ensures var h := AfterLimit(sys, req, hitId, keep, f);
      var op := Op.Ingest(req.binId, InputOf(req), hitId, keep);
      && NoRevival(sys.store.db, h.sys.store.db, {}) && h.sys.counters == sys.counters
      && h.response.stored
         == (if Live(sys.store.db, req.binId, f.now) then Decision(f.ingestOk, req, hitId, f.now) else None)
      && Prune(h.sys.store.db, f.now)
         == if h.response.stored.Some? then EagerStep(sys.store.db, op, f.Ingest()).db else Prune(sys.store.db, f.now)
  {
    hide IngestHit, Prune, EagerStep, MakeHit, InputOf, ReadBody, Live;
    if req.verb != "HEAD" && req.readOk && |ReadBody(req)| <= MAX_BODY_BYTES {
      IngestEffect(sys.store, req.binId, InputOf(req), hitId, keep, f.Ingest());
      hide NoRevival, StatusOf;
    }
  }

  lemma EagerSame(a: Db, b: Db, op: Op, env: Env, env': Env)
    requires WellFormed(op) && op.Ingest? && env.now == env'.now && env.dbOk == env'.dbOk
    requires Prune(a, env.now) == Prune(b, env.now)
    ensures EagerStep(a, op, env).db == EagerStep(b, op, env').db
  {
  }

  /** A request for an id whose bin is not alive: nothing is stored, only that id's counter may move. */
  lemma DeadHook(sys: Sys, req: Request, hitId: Id, keep: seq<Id>, f: Faults)
    requires |hitId| == 2 * ID_BYTES && !Live(sys.store.db, req.binId, f.now)
    ensures var h := HandleHook(sys, req, hitId, keep, f);
      && h.response.stored == None
      && Prune(h.sys.store.db, f.now) == Prune(sys.store.db, f.now)
      && NoRevival(sys.store.db, h.sys.store.db, {})
      && (forall id :: id != req.binId || !CacheHit(sys.store.cache, req.binId, f.Check()) ==>
            CounterOf(h.sys, id) == CounterOf(sys, id))
  {
    var d := CheckExists(sys.store, req.binId, f.Check());
    CheckEffect(sys.store, req.binId, f.Check());
    var sys1 := Counted(sys.(store := d.state), req.binId, f);
    CountersOfOthers(sys.(store := d.state), req.binId, f);
    AfterLimitEffect(sys1, req, hitId, keep, f);
    hide CheckExists, AfterLimit, Prune, EagerStep, IsBinId, HookKey, Counted, Verdict, CacheHit, Live;
  }

  lemma CountersOfOthers(sys: Sys, binId: Id, f: Faults)
    ensures Counted(sys, binId, f).store == sys.store
    ensures CounterOf(Counted(sys, binId, f), binId) == Verdict(sys, binId, f).counter
    ensures forall id :: id != binId ==> CounterOf(Counted(sys, binId, f), id) == CounterOf(sys, id)
  {
    forall id | id != binId ensures HookKey(id) != HookKey(binId) {
      KeysDiffer(id, binId);
    }
    hide HookKey, Verdict;
  }

  lemma KeysDiffer(a: Id, b: Id)
    requires a != b
    ensures HookKey(a) != HookKey(b)
  {
    assert HookKey(a)[8..] == a && HookKey(b)[8..] == b;
  }

  /** What a request for a live bin does: the limiter's counter and the request alone decide. */
  ghost predicate LiveEffect(sys: Sys, h: Handled, req: Request, hitId: Id, keep: seq<Id>, f: Faults)
    requires |hitId| == 2 * ID_BYTES
  {
    var v := Verdict(sys, req.binId, f);
    var op := Op.Ingest(req.binId, InputOf(req), hitId, keep);
    && h.response.stored == Decision(v.ok && f.ingestOk, req, hitId, f.now)
    && CounterOf(h.sys, req.binId) == v.counter
    && (forall id :: id != req.binId ==> CounterOf(h.sys, id) == CounterOf(sys, id))
    && NoRevival(sys.store.db, h.sys.store.db, {})
    && Prune(h.sys.store.db, f.now)
       == if h.response.stored.Some? then EagerStep(sys.store.db, op, f.Ingest()).db else Prune(sys.store.db, f.now)
  }

  lemma LiveAfterCheck(sys: Sys, req: Request, hitId: Id, keep: seq<Id>, f: Faults)
    requires |hitId| == 2 * ID_BYTES && Live(sys.store.db, req.binId, f.now)
    ensures LiveEffect(sys, AfterCheck(sys, req, hitId, keep, f), req, hitId, keep, f)
  {
    CountersOfOthers(sys, req.binId, f);
    AfterLimitEffect(Counted(sys, req.binId, f), req, hitId, keep, f);
    hide AfterLimit, Prune, EagerStep, Counted, Verdict, MakeHit, InputOf;
  }

  lemma FromCheck(sys: Sys, sys0: Sys, h: Handled, req: Request, hitId: Id, keep: seq<Id>, f: Faults)
    requires |hitId| == 2 * ID_BYTES && sys0.counters == sys.counters
    requires Prune(sys0.store.db, f.now) == Prune(sys.store.db, f.now) && NoRevival(sys.store.db, sys0.store.db, {})
    requires LiveEffect(sys0, h, req, hitId, keep, f)
    ensures LiveEffect(sys, h, req, hitId, keep, f)
  {
    assert Verdict(sys0, req.binId, f) == Verdict(sys, req.binId, f);
    EagerSame(sys0.store.db, sys.store.db, Op.Ingest(req.binId, InputOf(req), hitId, keep), f.Ingest(), f.Ingest());
    hide Prune, EagerStep, Verdict, InputOf, MakeHit, Decision, HookKey;
  }

  lemma LiveHook(sys: Sys, req: Request, hitId: Id, keep: seq<Id>, f: Faults)
    requires |hitId| == 2 * ID_BYTES && Live(sys.store.db, req.binId, f.now) && IsBinId(req.binId) && f.checkOk
    ensures LiveEffect(sys, HandleHook(sys, req, hitId, keep, f), req, hitId, keep, f)
  {
    var d := CheckExists(sys.store, req.binId, f.Check());
    CheckEffect(sys.store, req.binId, f.Check());
    var sys0 := sys.(store := d.state);
    hide CheckExists, AfterCheck, IsBinId, LiveEffect, Prune, NoRevival, Live;
    LiveAfterCheck(sys0, req, hitId, keep, f);
    FromCheck(sys, sys0, AfterCheck(sys0, req, hitId, keep, f), req, hitId, keep, f);
  }

  // ----- Two servers side by side -----

  /** a has a cache, b has none. Counters may differ only on ids that were used and are dead. */
  ghost predicate Agree(a: Sys, b: Sys, used: set<Id>, t: int) {
    && Prune(a.store.db, t) == Prune(b.store.db, t)
    && a.store.db.bins.Keys <= used
    && (forall id :: id !in used || Live(a.store.db, id, t) ==> CounterOf(a, id) == CounterOf(b, id))
  }

  lemma ManageEffect(s: State, op: Op, env: Env)
    requires WellFormed(op) && !op.Ingest?
    ensures NoRevival(s.db, Step(s, op, env).state.db, NewIds(op))
  {
    hide HitTimes, RowsOf, Summaries, BinName;
  }

  lemma EagerIgnoresCache(a: Db, b: Db, op: Op, env: Env)
    requires WellFormed(op) && Prune(a, env.now) == Prune(b, env.now)
    ensures EagerStep(a, op, env).db == EagerStep(b, op, env.(valkey := false)).db
  {
  }

  /** Nobody dead comes back: an id alive later was alive before or had never been used. */
  lemma StillAgree(a: Sys, b: Sys, a': Sys, b': Sys, used: set<Id>, t: int, now: int, ids: set<Id>)
    requires Agree(a, b, used, t) && t <= now && ids !! used
    requires NoRevival(a.store.db, a'.store.db, ids)
    requires Prune(a'.store.db, now) == Prune(b'.store.db, now)
    requires forall id :: id !in used || Live(a.store.db, id, now) ==>
      (CounterOf(a, id) == CounterOf(b, id) ==> CounterOf(a', id) == CounterOf(b', id))
    ensures Agree(a', b', used + ids, now)
  {
    hide CounterOf, Prune;
    forall id | id !in used + ids || Live(a'.store.db, id, now) ensures CounterOf(a', id) == CounterOf(b', id) {
      if id in used { assert Live(a.store.db, id, now) && Live(a.store.db, id, t); }
    }
  }

  lemma ManageAgrees(a: Sys, b: Sys, used: set<Id>, t: int, op: Op, env: Env)
    requires WellFormed(op) && !op.Ingest? && t <= env.now && NewIds(op) !! used && Agree(a, b, used, t)
    ensures Agree(Do(a, Manage(op, env)).sys, Do(b, NoCache(Manage(op, env))).sys, used + NewIds(op), env.now)
  {
    var env0 := env.(valkey := false);
    ManageEffect(a.store, op, env);
    StepState(a.store, op, env);
    StepState(b.store, op, env0);
    PruneTwice(a.store.db, t, env.now);
    PruneTwice(b.store.db, t, env.now);
    EagerIgnoresCache(a.store.db, b.store.db, op, env);
    hide Step, EagerStep, Prune, NoRevival, CounterOf, WellFormed;
    StillAgree(a, b, Do(a, Manage(op, env)).sys, Do(b, NoCache(Manage(op, env))).sys, used, t, env.now, NewIds(op));
  }

  lemma SameVerdict(a: Sys, b: Sys, binId: Id, f: Faults)
    requires CounterOf(a, binId) == CounterOf(b, binId)
    ensures Verdict(a, binId, f) == Verdict(b, binId, f.(valkey := false))
  {
  }

  lemma SameAlive(a: Db, b: Db, id: Id, now: int)
    requires Prune(a, now) == Prune(b, now)
    ensures Live(a, id, now) <==> Live(b, id, now)
  {
    assert Live(a, id, now) <==> id in Prune(a, now).bins;
    assert Live(b, id, now) <==> id in Prune(b, now).bins;
  }

  lemma HookAgrees(a: Sys, b: Sys, used: set<Id>, t: int, act: Act)
    requires act.Hook? && Checked(act) && ActOk(act) && t <= act.f.now && act.hitId !in used
    requires Agree(a, b, used, t) && a.store.cache.Keys <= used
    ensures Agree(Do(a, act).sys, Do(b, NoCache(act)).sys, used + {act.hitId}, act.f.now)
    ensures Do(a, act).response.stored == Do(b, NoCache(act)).response.stored
  {
    var req, f, now := act.req, act.f, act.f.now;
    PruneTwice(a.store.db, t, now);
    PruneTwice(b.store.db, t, now);
    SameAlive(a.store.db, b.store.db, req.binId, now);
    if Live(a.store.db, req.binId, now) && IsBinId(req.binId) {
      LiveHookAgrees(a, b, used, t, act);
    } else {
      DeadHookAgrees(a, b, used, t, act);
    }
  }

  lemma LiveHookSame(a: Sys, b: Sys, act: Act)
    requires act.Hook? && Checked(act) && ActOk(act) && IsBinId(act.req.binId)
    requires Live(a.store.db, act.req.binId, act.f.now) && Live(b.store.db, act.req.binId, act.f.now)
    requires Prune(a.store.db, act.f.now) == Prune(b.store.db, act.f.now)
    requires CounterOf(a, act.req.binId) == CounterOf(b, act.req.binId)
    ensures var ha, hb := Do(a, act), Do(b, NoCache(act));
      && ha.response.stored == hb.response.stored
      && NoRevival(a.store.db, ha.sys.store.db, {})
      && Prune(ha.sys.store.db, act.f.now) == Prune(hb.sys.store.db, act.f.now)
      && CounterOf(ha.sys, act.req.binId) == CounterOf(hb.sys, act.req.binId)
      && forall id :: id != act.req.binId ==>
           CounterOf(ha.sys, id) == CounterOf(a, id) && CounterOf(hb.sys, id) == CounterOf(b, id)
  {
    var req, f := act.req, act.f;
    var f0 := f.(valkey := false);
    LiveHook(a, req, act.hitId, act.keep, f);
    LiveHook(b, req, act.hitId, act.keep, f0);
    SameVerdict(a, b, req.binId, f);
    hide HandleHook, Prune, Verdict, InputOf, MakeHit, CounterOf, IsBinId, Decision, Live, NoRevival;
    EagerSame(a.store.db, b.store.db, Op.Ingest(req.binId, InputOf(req), act.hitId, act.keep), f.Ingest(), f0.Ingest());
    hide EagerStep;
  }

  lemma LiveHookAgrees(a: Sys, b: Sys, used: set<Id>, t: int, act: Act)
    requires act.Hook? && Checked(act) && ActOk(act) && t <= act.f.now && act.hitId !in used && Agree(a, b, used, t)
    requires Live(a.store.db, act.req.binId, act.f.now) && Live(b.store.db, act.req.binId, act.f.now)
    requires Prune(a.store.db, act.f.now) == Prune(b.store.db, act.f.now) && IsBinId(act.req.binId)
    ensures Agree(Do(a, act).sys, Do(b, NoCache(act)).sys, used + {act.hitId}, act.f.now)
    ensures Do(a, act).response.stored == Do(b, NoCache(act)).response.stored
  {
    assert Live(a.store.db, act.req.binId, t);
    hide Do, NoCache, Prune, CounterOf, IsBinId, Live;
    LiveHookSame(a, b, act);
    var ha, hb := Do(a, act), Do(b, NoCache(act));
    NoRevivalMore(a.store.db, ha.sys.store.db, {act.hitId});
    hide NoRevival;
    StillAgree(a, b, ha.sys, hb.sys, used, t, act.f.now, {act.hitId});
  }

  lemma NoRevivalMore(before: Db, after: Db, ids: set<Id>)
    requires NoRevival(before, after, {})
    ensures NoRevival(before, after, ids)
  {
  }

  lemma DeadHookAgrees(a: Sys, b: Sys, used: set<Id>, t: int, act: Act)
    requires act.Hook? && ActOk(act) && t <= act.f.now && act.hitId !in used && Agree(a, b, used, t)
    requires a.store.cache.Keys <= used
    requires !IsBinId(act.req.binId)
          || !(Live(a.store.db, act.req.binId, act.f.now) || Live(b.store.db, act.req.binId, act.f.now))
    requires Prune(a.store.db, act.f.now) == Prune(b.store.db, act.f.now)
    ensures Agree(Do(a, act).sys, Do(b, NoCache(act)).sys, used + {act.hitId}, act.f.now)
    ensures Do(a, act).response.stored == Do(b, NoCache(act)).response.stored
  {
    var req, f, now := act.req, act.f, act.f.now;
    var ha, hb := Do(a, act), Do(b, NoCache(act));
    if IsBinId(req.binId) {
      DeadHook(a, req, act.hitId, act.keep, f);
      DeadHook(b, req, act.hitId, act.keep, f.(valkey := false));
    }
    hide Prune, CounterOf, CheckExists, AfterCheck, IsBinId;
    NoRevivalMore(a.store.db, ha.sys.store.db, {act.hitId});
    hide NoRevival;
    StillAgree(a, b, ha.sys, hb.sys, used, t, now, {act.hitId});
  }

  // ----- Whole runs -----

  /** The clock starts at t and does not go back, and no existence check fails in the database. */
  predicate ClockedActs(t: int, run: seq<Act>)
    decreases |run|
  {
    run == [] || (t <= At(run[0]) && Checked(run[0]) && ClockedActs(At(run[0]), run[1..]))
  }

  /** The cache may hold anything about ids used so far: stale, early, missing. */
  ghost predicate OnlyStale(used: set<Id>, run: seq<Act>, caches: seq<map<Id, int>>)
    requires |caches| == |run|
    decreases |run|
  {
    run == [] || (caches[0].Keys <= used && OnlyStale(used + Fresh(run[0]), run[1..], caches[1..]))
  }

  /** The hit each act stores, if any. */
  function StoredHits(sys: Sys, run: seq<Act>, caches: seq<map<Id, int>>): seq<Option<Hit>>
    requires AllActsOk(run) && |caches| == |run|
    decreases |run|
  {
    if run == [] then []
    else
      var h := Do(Tamper(sys, caches[0]), run[0]);
      [h.response.stored] + StoredHits(h.sys, run[1..], caches[1..])
  }

  function StoredHitsNoCache(sys: Sys, run: seq<Act>): seq<Option<Hit>>
    requires AllActsOk(run)
    decreases |run|
  {
    if run == [] then []
    else
      var h := Do(sys, NoCache(run[0]));
      [h.response.stored] + StoredHitsNoCache(h.sys, run[1..])
  }

  lemma ActAgrees(a: Sys, b: Sys, used: set<Id>, t: int, act: Act)
    requires ActOk(act) && Checked(act) && t <= At(act) && Fresh(act) !! used
    requires Agree(a, b, used, t) && a.store.cache.Keys <= used
    ensures Agree(Do(a, act).sys, Do(b, NoCache(act)).sys, used + Fresh(act), At(act))
    ensures Do(a, act).response.stored == Do(b, NoCache(act)).response.stored
  {
    hide Agree, Step, HandleHook;
    match act
    case Manage(op, env) => ManageAgrees(a, b, used, t, op, env);
    case Hook(_, _, _, _) => HookAgrees(a, b, used, t, act);
  }

  /**
   * A check fails in the database, but the cache vouches for a live bin, and nothing else keeps the
   * request from being stored.
   */
  predicate ShowsCache(a: Sys, act: Act) {
    && act.Hook? && !act.f.checkOk
    && IsBinId(act.req.binId)
    && CacheHit(a.store.cache, act.req.binId, act.f.Check()) && Live(a.store.db, act.req.binId, act.f.now)
    && Verdict(a, act.req.binId, act.f).ok && act.f.ingestOk
    && act.req.verb != "HEAD" && act.req.readOk && |act.req.body| <= MAX_BODY_BYTES
  }

  lemma FailedCheckRefused(b: Sys, act: Act)
    requires act.Hook? && !act.f.checkOk
    requires !act.f.valkey || !CacheHit(b.store.cache, act.req.binId, act.f.Check())
    ensures HandleHook(b, act.req, act.hitId, act.keep, act.f).response.stored == None
  {
    hide AfterCheck, IsBinId, PruneExpired;
  }

  lemma FailedCheckPassed(a: Sys, act: Act)
    requires act.Hook? && ActOk(act) && Live(a.store.db, act.req.binId, act.f.now) && IsBinId(act.req.binId)
    requires CacheHit(a.store.cache, act.req.binId, act.f.Check())
    ensures var v, req := Verdict(a, act.req.binId, act.f), act.req;
      HandleHook(a, req, act.hitId, act.keep, act.f).response.stored
      == Decision(v.ok && act.f.ingestOk, req, act.hitId, act.f.now)
  {
    LiveAfterCheck(a, act.req, act.hitId, act.keep, act.f);
    hide AfterCheck, Verdict, Prune, Decision, EagerStep, NoRevival, CounterOf, IsBinId, PruneExpired;
  }

  lemma FailedCheck(a: Sys, b: Sys, act: Act)
    requires act.Hook? && ActOk(act) && !act.f.checkOk
    ensures Do(b, NoCache(act)).response.stored == None
    ensures Do(a, act).response.stored.Some? <==> ShowsCache(a, act)
  {
    hide HandleHook, Verdict, IsBinId, Live, CacheHit, MakeHit, InputOf;
    FailedCheckRefused(b, NoCache(act));
    if !Live(a.store.db, act.req.binId, act.f.now) {
      DeadHook(a, act.req, act.hitId, act.keep, act.f);
    } else if !IsBinId(act.req.binId) {
      NotAnId(a, act);
    } else if CacheHit(a.store.cache, act.req.binId, act.f.Check()) {
      FailedCheckPassed(a, act);
    } else {
      FailedCheckRefused(a, act);
    }
  }

  lemma NotAnId(a: Sys, act: Act)
    requires act.Hook? && !IsBinId(act.req.binId)
    ensures HandleHook(a, act.req, act.hitId, act.keep, act.f).response.stored == None
  {
  }

  /**
   * One act on two servers that agree, whatever fails: the cache shows in what is stored exactly when
   * it lets a request through a check that failed.
   */
  lemma CacheShowsIff(a: Sys, b: Sys, used: set<Id>, t: int, act: Act)
    requires ActOk(act) && t <= At(act) && Fresh(act) !! used
    requires Agree(a, b, used, t) && a.store.cache.Keys <= used
    ensures Do(a, act).response.stored != Do(b, NoCache(act)).response.stored <==> ShowsCache(a, act)
  {
    if Checked(act) {
      hide Agree, ActOk, At, Fresh;
      ActAgrees(a, b, used, t, act);
    } else {
      FailedCheck(a, b, act);
      hide ActOk, Do, NoCache, ShowsCache;
    }
  }

  lemma {:induction false} SideBySide(a: Sys, b: Sys, used: set<Id>, t: int, run: seq<Act>, caches: seq<map<Id, int>>)
    requires AllActsOk(run) && |caches| == |run|
    requires ClockedActs(t, run) && FreshIds(used, run) && OnlyStale(used, run, caches)
    requires Agree(a, b, used, t)
    ensures StoredHits(a, run, caches) == StoredHitsNoCache(b, run)
    decreases |run|
  {
    if run == [] {
    } else {
      hide Do, NoCache, ActOk, Fresh, At, Checked;
      assert ActOk(run[0]);
      var a0 := Tamper(a, caches[0]);
      assert Agree(a0, b, used, t);
      hide Agree;
      ActAgrees(a0, b, used, t, run[0]);
      assert AllActsOk(run[1..]) by { assert forall i :: 0 <= i < |run[1..]| ==> run[1..][i] == run[i + 1]; }
      SideBySide(Do(a0, run[0]).sys, Do(b, NoCache(run[0])).sys, used + Fresh(run[0]), At(run[0]),
                 run[1..], caches[1..]);
    }
  }

  /**
   * Over every serial run from empty tables, act by act, exactly the same hits are stored as without
   * a cache. Before each act the cache may hold anything about the ids known at the start and those
   * made since; only ids that are yet to be made cannot be in it.
   */
  lemma CacheIsTransparent(known: set<Id>, run: seq<Act>, t: int, caches: seq<map<Id, int>>)
    requires AllActsOk(run) && |caches| == |run|
    requires ClockedActs(t, run) && FreshIds(known, run) && OnlyStale(known, run, caches)
    ensures var start := Sys(State(EMPTY, map[]), map[]);
      StoredHits(start, run, caches) == StoredHitsNoCache(start, run)
  {
    var start := Sys(State(EMPTY, map[]), map[]);
    SideBySide(start, start, known, t, run, caches);
  }

  // ----- The server left to itself -----

  /** The store itself, whichever cache commands fail, only ever caches ids that were used. */
  lemma OwnCacheIsStale(s: State, used: set<Id>, op: Op, env: Env)
    requires WellFormed(op) && s.cache.Keys <= used && s.db.bins.Keys <= used
    ensures Step(s, op, env).state.cache.Keys <= used + NewIds(op)
    ensures Step(s, op, env).state.db.bins.Keys <= used + NewIds(op)
  {
    hide HitTimes, RowsOf, Summaries, BinName;
  }

  ghost predicate OnlyUsed(sys: Sys, used: set<Id>) {
    sys.store.cache.Keys <= used && sys.store.db.bins.Keys <= used
  }

  lemma CheckKeepsUsed(sys: Sys, used: set<Id>, binId: Id, env: Env)
    requires OnlyUsed(sys, used)
    ensures OnlyUsed(sys.(store := CheckExists(sys.store, binId, env).state), used)
  {
    OwnCacheIsStale(sys.store, used, Op.PublicExists(binId), env);
    hide CheckExists;
  }

  lemma AfterLimitKeepsUsed(sys: Sys, used: set<Id>, req: Request, hitId: Id, keep: seq<Id>, f: Faults)
    requires OnlyUsed(sys, used) && |hitId| == 2 * ID_BYTES
    ensures OnlyUsed(AfterLimit(sys, req, hitId, keep, f).sys, used + {hitId})
  {
    OwnCacheIsStale(sys.store, used, Op.Ingest(req.binId, InputOf(req), hitId, keep), f.Ingest());
    hide IngestHit, InputOf, ReadBody;
  }

  /** And so does the handler. */
  lemma HookKeepsUsed(sys: Sys, used: set<Id>, req: Request, hitId: Id, keep: seq<Id>, f: Faults)
    requires OnlyUsed(sys, used) && |hitId| == 2 * ID_BYTES
    ensures OnlyUsed(HandleHook(sys, req, hitId, keep, f).sys, used + {hitId})
  {
    CheckKeepsUsed(sys, used, req.binId, f.Check());
    hide CheckExists, AfterLimit, Verdict, IsBinId;
    AfterLimitKeepsUsed(Counted(sys.(store := CheckExists(sys.store, req.binId, f.Check()).state), req.binId, f),
                        used, req, hitId, keep, f);
  }

  /** Hence the server. */
  lemma DoKeepsUsed(sys: Sys, used: set<Id>, act: Act)
    requires ActOk(act) && OnlyUsed(sys, used)
    ensures OnlyUsed(Do(sys, act).sys, used + Fresh(act))
  {
    hide Step, HandleHook;
    match act
    case Manage(op, env) => OwnCacheIsStale(sys.store, used, op, env);
    case Hook(req, hitId, keep, f) => HookKeepsUsed(sys, used, req, hitId, keep, f);
  }

  /** The hit each act stores, if any, by the server with its own cache. */
  function StoredHitsOwn(sys: Sys, run: seq<Act>): seq<Option<Hit>>
    requires AllActsOk(run)
    decreases |run|
  {
    if run == [] then []
    else
      var h := Do(sys, run[0]);
      [h.response.stored] + StoredHitsOwn(h.sys, run[1..])
  }

  lemma {:induction false} OwnSideBySide(a: Sys, b: Sys, used: set<Id>, t: int, run: seq<Act>)
    requires AllActsOk(run) && ClockedActs(t, run) && FreshIds(used, run)
    requires Agree(a, b, used, t) && OnlyUsed(a, used)
    ensures StoredHitsOwn(a, run) == StoredHitsNoCache(b, run)
    decreases |run|
  {
    if run == [] {
      assert StoredHitsOwn(a, run) == StoredHitsNoCache(b, run) == [];
    } else {
      assert ActOk(run[0]) && a.store.cache.Keys <= used;
      hide Do, NoCache, ActOk, Fresh, At, Agree, OnlyUsed, Checked;
      ActAgrees(a, b, used, t, run[0]);
      DoKeepsUsed(a, used, run[0]);
      assert AllActsOk(run[1..]) by { assert forall i :: 0 <= i < |run[1..]| ==> run[1..][i] == run[i + 1]; }
      OwnSideBySide(Do(a, run[0]).sys, Do(b, NoCache(run[0])).sys, used + Fresh(run[0]), At(run[0]), run[1..]);
    }
  }

  /**
   * The server with its own cache, whichever cache commands fail and whatever an earlier life left in
   * Valkey, stores the hits it would store without one.
   */
  lemma OwnCacheIsTransparent(cache: map<Id, int>, run: seq<Act>, t: int)
    requires AllActsOk(run) && ClockedActs(t, run) && FreshIds(cache.Keys, run)
    ensures StoredHitsOwn(Sys(State(EMPTY, cache), map[]), run)
         == StoredHitsNoCache(Sys(State(EMPTY, map[]), map[]), run)
  {
    var a, b := Sys(State(EMPTY, cache), map[]), Sys(State(EMPTY, map[]), map[]);
    assert Agree(a, b, cache.Keys, t);
    OwnSideBySide(a, b, cache.Keys, t, run);
  }
}
