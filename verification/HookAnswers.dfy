/** Which status a request to a hook URL gets, told from the tables, the cache, the counter and the request. */
module HookAnswers {
  import opened Prelude
  import opened Tables
  import opened WebhookOps
  import opened BinId
  import opened HookSpec
  import opened Limits
  import FixedWindow
  import StoreAnswers
  import HookRuns

  /** 32 characters out of 0 to 9 and a to f. */
  predicate WellFormedId(id: Id) {
    |id| == 32 && forall i :: 0 <= i < 32 ==> 48 <= id[i] as int <= 57 || 97 <= id[i] as int <= 102
  }

  /** The existence check lets the request pass. */
  predicate Found(sys: Sys, req: Request, f: Faults) {
    || (f.valkey && req.binId in sys.store.cache && f.now <= sys.store.cache[req.binId])
    || (f.checkOk && StoreAnswers.Alive(sys.store.db, req.binId, f.now))
  }

  function CounterBefore(sys: Sys, req: Request): Option<FixedWindow.Counter> {
    var key := "rl:hook:" + req.binId;
    if key in sys.counters then Some(sys.counters[key]) else None
  }

  /** Too many requests, or a limiter that does not answer. */
  predicate Limited(sys: Sys, req: Request, f: Faults) {
    !f.incr.Delivered? || FixedWindow.CountAt(CounterBefore(sys, req), f.now) > 120
  }

  function StatusAfterLimit(sys: Sys, req: Request, f: Faults): int {
    if req.verb == "HEAD" then 200
    else if !req.readOk then 400
    else if |req.body| > 256 * 1024 then 413
    else if !f.ingestOk then 400
    else if !StoreAnswers.Alive(sys.store.db, req.binId, f.now) then 404
    else 200
  }

  lemma IsWellFormed(id: Id)
    ensures IsBinId(id) <==> WellFormedId(id)
  {
    assert '0' as int == 48 && '9' as int == 57 && 'a' as int == 97 && 'f' as int == 102;
  }

  lemma CheckPasses(sys: Sys, req: Request, f: Faults)
    ensures CheckExists(sys.store, req.binId, f.Check()).reply == Exists(Found(sys, req, f))
    ensures StoreAnswers.Alive(CheckExists(sys.store, req.binId, f.Check()).state.db, req.binId, f.now)
       <==> StoreAnswers.Alive(sys.store.db, req.binId, f.now)
  {
    StoreAnswers.ExistsAnswer(sys.store, req.binId, f.Check());
  }

  lemma KeyOf(binId: Id)
    ensures HookKey(binId) == "rl:hook:" + binId
  {
    assert "rl:" + ("hook:" + binId) == "rl:hook:" + binId;
  }

  lemma LimitHolds(sys: Sys, req: Request, f: Faults)
    ensures Verdict(sys, req.binId, f).ok <==> !Limited(sys, req, f)
  {
    KeyOf(req.binId);
    hide FixedWindow.Allow, FixedWindow.CountAt;
    FixedWindow.AllowAnswer(CounterBefore(sys, req), HOOK_LIMIT, HOOK_WINDOW, f.Limit());
  }

  lemma AfterLimitAnswer(sys: Sys, req: Request, hitId: Id, keep: seq<Id>, f: Faults)
    ensures AfterLimit(sys, req, hitId, keep, f).response.status == StatusAfterLimit(sys, req, f)
    ensures AfterLimit(sys, req, hitId, keep, f).response.stored.Some?
       <==> StatusAfterLimit(sys, req, f) == 200 && req.verb != "HEAD"
    ensures AfterLimit(sys, req, hitId, keep, f).response.retrySeconds == 0
  {
    StoreAnswers.IngestAnswer(sys.store, req.binId, InputOf(req), hitId, keep, f.Ingest());
    hide IngestHit, InputOf, StoreAnswers.Records, StoreAnswers.Alive;
  }

  /**
   * The whole answer. 404 for a malformed id, an id the check does not find, and one whose bin is gone
   * when the hit is to be stored; 429 when the limiter does not answer or counts more than 120 in its
   * minute; 400 for a body that cannot be read and for a failing database; 413 for a body over 256 KiB;
   * 200 for HEAD, and for exactly the requests that are stored.
   */
  lemma HookAnswer(sys: Sys, req: Request, hitId: Id, keep: seq<Id>, f: Faults)
    ensures var r := HandleHook(sys, req, hitId, keep, f).response;
      && r.status == (if !WellFormedId(req.binId) || !Found(sys, req, f) then 404
                      else if Limited(sys, req, f) then 429
                      else StatusAfterLimit(sys, req, f))
      && (r.stored.Some? <==> r.status == 200 && req.verb != "HEAD")
      && (r.status != 429 ==> r.retrySeconds == 0)
  {
    IsWellFormed(req.binId);
    CheckPasses(sys, req, f);
    hide IsBinId, CheckExists, AfterLimit, Verdict, Found, Limited, WellFormedId, StoreAnswers.Alive;
    var sys1 := sys.(store := CheckExists(sys.store, req.binId, f.Check()).state);
    SameLimit(sys, sys1, req, f);
    LimitHolds(sys1, req, f);
    AfterLimitAnswer(Counted(sys1, req.binId, f), req, hitId, keep, f);
  }

  /** What is stored is the request, under its new id and at this time. */
  lemma HookStores(sys: Sys, req: Request, hitId: Id, keep: seq<Id>, f: Faults)
    ensures var h := HandleHook(sys, req, hitId, keep, f);
      h.response.stored.Some? ==>
        var hit := h.response.stored.value;
        && hit.id == hitId && HookRuns.Faithful(hit, HookRuns.Accepted(req, f.now))
        && (hitId in keep <==> hitId in h.sys.store.db.hits)
        && (hitId in keep ==> h.sys.store.db.hits[hitId] == hit)
  {
    var h := HandleHook(sys, req, hitId, keep, f);
    if h.response.stored.Some? {
      var sys1 := Counted(sys.(store := CheckExists(sys.store, req.binId, f.Check()).state), req.binId, f);
      AfterLimitStores(sys1, req, hitId, keep, f);
    }
    hide CheckExists, AfterLimit, Verdict, HookRuns.Faithful, IsBinId;
  }

  lemma AfterLimitStores(sys: Sys, req: Request, hitId: Id, keep: seq<Id>, f: Faults)
    ensures var h := AfterLimit(sys, req, hitId, keep, f);
      h.response.stored.Some? ==>
        var hit := h.response.stored.value;
        && hit.id == hitId && HookRuns.Faithful(hit, HookRuns.Accepted(req, f.now))
        && (hitId in keep <==> hitId in h.sys.store.db.hits)
        && (hitId in keep ==> h.sys.store.db.hits[hitId] == hit)
  {
    var h, input := AfterLimit(sys, req, hitId, keep, f), InputOf(req);
    if h.response.stored.Some? {
      StoreAnswers.IngestAnswer(sys.store, req.binId, input, hitId, keep, f.Ingest());
      HookRuns.IngestAddsOne(sys.store, req.binId, input, hitId, keep, f.Ingest());
      assert |req.body| <= MAX_BODY_BYTES;
      hide InputOf, HookRuns.Faithful, MakeHit, StoreAnswers.Records, IngestHit;
      HookRuns.WholeRequest(h.response.stored.value, hitId, HookRuns.Accepted(req, f.now));
    }
  }

  lemma SameLimit(sys: Sys, sys1: Sys, req: Request, f: Faults)
    requires sys1.counters == sys.counters
    ensures Limited(sys1, req, f) == Limited(sys, req, f)
  {
  }

  /**
   * A limited request is told the time left in the minute, give or take half a second and rounded up to
   * the next second, or 61 seconds if that is not known, or 2 if it was not counted.
   */
  lemma HookRetry(sys: Sys, req: Request, hitId: Id, keep: seq<Id>, f: Faults)
    requires CounterBefore(sys, req).Some? ==> CounterBefore(sys, req).value.n >= 1
    requires WellFormedId(req.binId) && Found(sys, req, f)
    ensures var r, c := HandleHook(sys, req, hitId, keep, f).response, CounterBefore(sys, req);
      && (!Limited(sys, req, f) ==> r.retrySeconds == 0)
      && (!f.incr.Delivered? ==> r.retrySeconds == 2)
      && (f.incr.Delivered? && Limited(sys, req, f) ==>
            && c.Some?
            && if f.ttl.Delivered? && c.value.deadline.Some?
               then var left := c.value.deadline.value - f.now;
                    left - 500 < 1000 * r.retrySeconds <= left + 1500
               else r.retrySeconds == 61)
  {
    IsWellFormed(req.binId);
    CheckPasses(sys, req, f);
    LimitHolds(sys, req, f);
    KeyOf(req.binId);
    var c := CounterBefore(sys, req);
    if Limited(sys, req, f) {
      FixedWindow.RetryAnswer(c, HOOK_LIMIT, HOOK_WINDOW, f.Limit());
      FixedWindow.AllowCounter(c, HOOK_LIMIT, HOOK_WINDOW, f.Limit());
      FixedWindow.RetryHeader(Verdict(sys, req.binId, f).retryAfter);
    }
    hide IsBinId, CheckExists, AfterLimit, FixedWindow.Allow, Found, WellFormedId;
  }

  lemma CountersAfter(sys: Sys, req: Request, hitId: Id, keep: seq<Id>, f: Faults)
    ensures HandleHook(sys, req, hitId, keep, f).sys.counters
         == if WellFormedId(req.binId) && Found(sys, req, f)
            then FixedWindow.PutCounter(sys.counters, "rl:hook:" + req.binId, Verdict(sys, req.binId, f).counter)
            else sys.counters
  {
    IsWellFormed(req.binId);
    CheckPasses(sys, req, f);
    KeyOf(req.binId);
    hide IsBinId, CheckExists, IngestHit, FixedWindow.Allow, Found, WellFormedId, FixedWindow.PutCounter;
  }

  /** Every request that gets past the check is counted once, on its own key; no other is touched. */
  lemma HookCounts(sys: Sys, req: Request, hitId: Id, keep: seq<Id>, f: Faults)
    requires CounterBefore(sys, req).Some? ==> CounterBefore(sys, req).value.n >= 1
    ensures var after := HandleHook(sys, req, hitId, keep, f).sys.counters;
      && (forall key :: key != "rl:hook:" + req.binId ==>
            (key in after <==> key in sys.counters) && (key in after ==> after[key] == sys.counters[key]))
      && (if WellFormedId(req.binId) && Found(sys, req, f) && !f.incr.NotSent?
          then "rl:hook:" + req.binId in after
               && var c := after["rl:hook:" + req.binId];
                  && c.n == FixedWindow.CountAt(CounterBefore(sys, req), f.now)
                  && (c.n == 1 && f.incr.Delivered? && !f.expire.NotSent? ==> c.deadline == Some(f.now + 60 * 1000))
          else after == sys.counters)
  {
    CountersAfter(sys, req, hitId, keep, f);
    KeyOf(req.binId);
    FixedWindow.AllowCounter(CounterBefore(sys, req), HOOK_LIMIT, HOOK_WINDOW, f.Limit());
    hide HandleHook, FixedWindow.Allow, FixedWindow.CountAt, Found, WellFormedId;
    assert Verdict(sys, req.binId, f)
        == FixedWindow.Allow(CounterBefore(sys, req), HOOK_LIMIT, HOOK_WINDOW, f.Limit());
  }
}
