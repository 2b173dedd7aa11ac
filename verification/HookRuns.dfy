/** Serial runs of the server: owners' operations and requests to the hook URLs. */
module HookRuns {
  import opened Prelude
  import opened Limits
  import opened Text
  import opened Redaction
  import opened Tables
  import opened WebhookOps
  import opened HookSpec

  datatype Act =
    | Manage(op: Op, env: Env)
    | Hook(req: Request, hitId: Id, keep: seq<Id>, f: Faults)

  predicate ActOk(act: Act) {
    match act
    case Manage(op, _) => WellFormed(op) && !op.Ingest?
    case Hook(_, hitId, _, _) => |hitId| == 2 * ID_BYTES
  }

  function At(act: Act): int {
    match act
    case Manage(_, env) => env.now
    case Hook(_, _, _, f) => f.now
  }

  function Fresh(act: Act): set<Id> {
    match act
    case Manage(op, _) => NewIds(op)
    case Hook(_, hitId, _, _) => {hitId}
  }

  /** The new state, and the hit that was stored, if any. */
  function Do(sys: Sys, act: Act): Handled
    requires ActOk(act)
  {
    match act
    case Manage(op, env) => Refuse(sys.(store := Step(sys.store, op, env).state), 0)
    case Hook(req, hitId, keep, f) => HandleHook(sys, req, hitId, keep, f)
  }

  // ----- Every stored hit is a whole request -----

  datatype Accepted = Accepted(req: Request, at: int)

  function Log(log: map<Id, Accepted>, act: Act, response: Response): map<Id, Accepted> {
    if act.Hook? && response.stored.Some? then log[act.hitId := Accepted(act.req, act.f.now)] else log
  }

  ghost predicate FromRequest(hit: Hit, h: Id, a: Accepted) {
    && a.req.readOk && |a.req.body| <= MAX_BODY_BYTES
    && hit == MakeHit(a.req.binId, InputOf(a.req), h, a.at)
  }

  ghost predicate AllFromRequests(db: Db, log: map<Id, Accepted>) {
    forall h :: h in db.hits ==> h in log && FromRequest(db.hits[h], h, log[h])
  }

  predicate HitsWithin(d: Db, db: Db) {
    forall h :: h in d.hits ==> h in db.hits && d.hits[h] == db.hits[h]
  }

  lemma ManageAddsNoHit(s: State, op: Op, env: Env)
    requires WellFormed(op) && !op.Ingest?
    ensures HitsWithin(Step(s, op, env).state.db, s.db)
  {
    hide RowsOf, HitTimes, BinName;
  }

  lemma IngestAddsOne(s: State, binId: Id, input: IngestInput, hitId: Id, keep: seq<Id>, env: Env)
    ensures var d := IngestHit(s, binId, input, hitId, keep, env);
      && (d.reply.Stored? ==> d.reply.hit == MakeHit(binId, input, hitId, env.now))
      && forall h :: h in d.state.db.hits ==>
           (h in s.db.hits && d.state.db.hits[h] == s.db.hits[h])
           || (d.reply.Stored? && h == hitId && d.state.db.hits[h] == d.reply.hit)
  {
    hide HitTimes, Redact, Truncate;
  }

  lemma AfterLimitFaithful(sys: Sys, log: map<Id, Accepted>, req: Request, hitId: Id, keep: seq<Id>, f: Faults)
    requires AllFromRequests(sys.store.db, log) && hitId !in log
    ensures var h := AfterLimit(sys, req, hitId, keep, f);
      AllFromRequests(h.sys.store.db,
                      if h.response.stored.Some? then log[hitId := Accepted(req, f.now)] else log)
  {
    IngestAddsOne(sys.store, req.binId, InputOf(req), hitId, keep, f.Ingest());
    hide IngestHit, MakeHit, InputOf;
  }

  lemma CheckAddsNoHit(s: State, binId: Id, env: Env)
    ensures HitsWithin(CheckExists(s, binId, env).state.db, s.db)
  {
  }

  lemma WithinFromRequests(d: Db, db: Db, log: map<Id, Accepted>)
    requires HitsWithin(d, db) && AllFromRequests(db, log)
    ensures AllFromRequests(d, log)
  {
    hide FromRequest;
  }

  lemma HookFaithful(sys: Sys, log: map<Id, Accepted>, req: Request, hitId: Id, keep: seq<Id>, f: Faults)
    requires AllFromRequests(sys.store.db, log) && hitId !in log
    ensures var h := HandleHook(sys, req, hitId, keep, f);
      AllFromRequests(h.sys.store.db,
                      if h.response.stored.Some? then log[hitId := Accepted(req, f.now)] else log)
  {
    var d := CheckExists(sys.store, req.binId, f.Check());
    CheckAddsNoHit(sys.store, req.binId, f.Check());
    WithinFromRequests(d.state.db, sys.store.db, log);
    hide CheckExists, AfterLimit, Verdict, BinId.IsBinId, AllFromRequests, HitsWithin;
    AfterLimitFaithful(Counted(sys.(store := d.state), req.binId, f), log, req, hitId, keep, f);
  }

  lemma DoFaithful(sys: Sys, log: map<Id, Accepted>, act: Act, used: set<Id>)
    requires ActOk(act) && AllFromRequests(sys.store.db, log)
    requires Fresh(act) !! used && log.Keys <= used
    ensures var h := Do(sys, act);
      AllFromRequests(h.sys.store.db, Log(log, act, h.response)) && Log(log, act, h.response).Keys <= used + Fresh(act)
  {
    hide Step, FromRequest, HandleHook, AllFromRequests, HitsWithin;
    match act
    case Manage(op, env) =>
      ManageAddsNoHit(sys.store, op, env);
      WithinFromRequests(Step(sys.store, op, env).state.db, sys.store.db, log);
    case Hook(req, hitId, keep, f) =>
      HookFaithful(sys, log, req, hitId, keep, f);
  }

  // ----- Runs in which anything may happen to the cache -----

  predicate AllActsOk(run: seq<Act>) {
    forall i :: 0 <= i < |run| ==> ActOk(run[i])
  }

  /** Before each act the cache may have lost or kept any entries, or hold any about ids ever used. */
  function Tamper(sys: Sys, cache: map<Id, int>): Sys {
    sys.(store := sys.store.(cache := cache))
  }

  ghost predicate FreshIds(used: set<Id>, run: seq<Act>)
    decreases |run|
  {
    run == [] || (Fresh(run[0]) !! used && FreshIds(used + Fresh(run[0]), run[1..]))
  }

  function RunWithCache(sys: Sys, run: seq<Act>, caches: seq<map<Id, int>>): Sys
    requires AllActsOk(run) && |caches| == |run|
    decreases |run|
  {
    if run == [] then sys
    else RunWithCache(Do(Tamper(sys, caches[0]), run[0]).sys, run[1..], caches[1..])
  }

  function RunLog(sys: Sys, log: map<Id, Accepted>, run: seq<Act>, caches: seq<map<Id, int>>): map<Id, Accepted>
    requires AllActsOk(run) && |caches| == |run|
    decreases |run|
  {
    if run == [] then log
    else
      var h := Do(Tamper(sys, caches[0]), run[0]);
      RunLog(h.sys, Log(log, run[0], h.response), run[1..], caches[1..])
  }

  lemma {:induction false} RunFaithful(sys: Sys, log: map<Id, Accepted>, run: seq<Act>,
                                       caches: seq<map<Id, int>>, used: set<Id>)
    requires AllActsOk(run) && |caches| == |run| && FreshIds(used, run)
    requires AllFromRequests(sys.store.db, log) && log.Keys <= used
    ensures AllFromRequests(RunWithCache(sys, run, caches).store.db, RunLog(sys, log, run, caches))
    decreases |run|
  {
    if run == [] {
    } else {
      hide Do, AllFromRequests, ActOk, Log, Fresh;
      assert ActOk(run[0]);
      var t := Tamper(sys, caches[0]);
      SameTables(sys, caches[0], log);
      DoFaithful(t, log, run[0], used);
      var h := Do(t, run[0]);
      assert AllActsOk(run[1..]) by { assert forall i :: 0 <= i < |run[1..]| ==> run[1..][i] == run[i + 1]; }
      RunFaithful(h.sys, Log(log, run[0], h.response), run[1..], caches[1..], used + Fresh(run[0]));
    }
  }

  lemma SameTables(sys: Sys, cache: map<Id, int>, log: map<Id, Accepted>)
    requires AllFromRequests(sys.store.db, log)
    ensures AllFromRequests(Tamper(sys, cache).store.db, log)
  {
  }

  /** The first value of a header, or nothing. */
  predicate IsHeader(value: string, headers: map<string, seq<string>>, name: string) {
    if name in headers && |headers[name]| > 0 then value == headers[name][0] else value == ""
  }

  /** What a stored hit shows of the request it came from, and when. */
  ghost predicate Faithful(hit: Hit, a: Accepted) {
    var req := a.req;
    && hit.binId == req.binId && hit.receivedAt == a.at && hit.ip == req.ip && hit.query == req.rawQuery
    && hit.verb == ToUpper(TrimSpace(req.verb))
    && hit.path == (if req.pathExtra == "" then "/hook/" + req.binId else "/hook/" + req.binId + "/" + req.pathExtra)
    && IsHeader(hit.contentType, req.headers, "Content-Type")
    && IsHeader(hit.userAgent, req.headers, "User-Agent")
    && (forall k :: k in hit.queryParams <==> k in req.query && req.query[k] != [])
    && (forall k :: k in hit.queryParams ==> hit.queryParams[k] == req.query[k][0])
    && hit.body == req.body && hit.bodyBytes == |req.body| <= 262144 && !hit.bodyTrunc
    && (forall k :: k in hit.headers <==> k in req.headers && req.headers[k] != [])
    && (forall k :: k in hit.headers ==>
          hit.headers[k] == if Secret(k) then "[redacted]" else Join(req.headers[k], ", "))
  }

  lemma WholeRequest(hit: Hit, h: Id, a: Accepted)
    requires FromRequest(hit, h, a)
    ensures Faithful(hit, a)
  {
    assert ReadBody(a.req) == a.req.body;
    RedactIs(JoinedHeaders(a.req.headers));
    hide Secret, Sensitive, Join, ToUpper, TrimSpace;
  }

  /**
   * After every run of the server from the empty store, each stored hit is a request that was
   * accepted: its whole body, its length, nothing cut off, and no credential in its headers.
   */
  lemma StoredHitsAreFaithful(run: seq<Act>, caches: seq<map<Id, int>>)
    requires AllActsOk(run) && |caches| == |run| && FreshIds({}, run)
    ensures var start := Sys(State(EMPTY, map[]), map[]);
      var hits := RunWithCache(start, run, caches).store.db.hits;
      var log := RunLog(start, map[], run, caches);
      forall h :: h in hits ==> h in log && hits[h].id == h && Faithful(hits[h], log[h])
  {
    var start := Sys(State(EMPTY, map[]), map[]);
    RunFaithful(start, map[], run, caches, {});
    var hits := RunWithCache(start, run, caches).store.db.hits;
    var log := RunLog(start, map[], run, caches);
    hide RunWithCache, RunLog, FreshIds;
    forall h | h in hits ensures h in log && hits[h].id == h && Faithful(hits[h], log[h]) {
      WholeRequest(hits[h], h, log[h]);
    }
  }
}
