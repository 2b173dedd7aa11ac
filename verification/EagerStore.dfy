/**
 * The simple store: a bin vanishes the moment the clock is past its deadline, there is no pruning,
 * no expiry test and no cache. The real store, which keeps expired rows until some call happens to
 * delete them, is shown to answer alike.
 */
module EagerStore {
  import opened Prelude
  import opened NewestFirst
  import opened Limits
  import opened Tables
  import opened PruneLaws
  import opened WebhookOps

  datatype Result = Result(db: Db, reply: Reply)

  function Look(e: Db, user: string, binId: Id): Reply {
    if binId !in e.bins then Fail(NotFound)
    else if e.bins[binId].userId != user then Fail(Forbidden)
    else OneBin(e.bins[binId])
  }

  function IfOwned(e: Db, user: string, binId: Id, db: Db, reply: Reply): Result {
    if Look(e, user, binId).Fail? then Result(e, Look(e, user, binId)) else Result(db, reply)
  }

  /** The answer when the database fails. */
  function Unavailable(op: Op): Reply {
    match op
    case List(_, _) => Bins([])
    case PublicExists(_) => Exists(false)
    case _ => Fail(DbError)
  }

  /** An operation on a store in which every bin is alive. */
  function Act(e: Db, op: Op, env: Env): Result
    requires WellFormed(op)
  {
    if !env.dbOk then Result(e, Unavailable(op))
    else
      match op
      case Create(user, name, newId) =>
        if !env.pruneOk then Result(e, Fail(DbError))
        else if |BinsOf(e, user)| >= MAX_BINS_PER_USER then Result(e, Fail(LimitBins))
        else Result(InsertBin(e, NewBin(user, name, newId, env.now)), OneBin(NewBin(user, name, newId, env.now)))
      case List(_, order) => Result(e, Bins(RowsOf(e.bins, order)))
      case Get(user, binId) => Result(e, Look(e, user, binId))
      case Delete(user, binId) => IfOwned(e, user, binId, DeleteBins(e, {binId}), Ok)
      case ClearHits(user, binId) =>
        IfOwned(e, user, binId, ClearBin(e, binId),
                if env.rereadOk then Look(ClearBin(e, binId), user, binId) else Fail(DbError))
      case Ingest(binId, input, hitId, keep) =>
        if binId !in e.bins then Result(e, Fail(NotFound))
        else
          var hit := MakeHit(binId, input, hitId, env.now);
          Result(StoreHit(e, hit, keep), Stored(hit))
      case ListHits(user, binId, _, _, page) =>
        IfOwned(e, user, binId, e, Hits(Summaries(RowsOf(e.hits, page))))
      case GetHit(user, binId, hitId) =>
        IfOwned(e, user, binId, e,
                if hitId in HitTimes(e, binId) then OneHit(e.hits[hitId]) else Fail(NotFound))
      case PublicExists(binId) => Result(e, Exists(binId in e.bins))
  }

  /** Time passes, expired bins vanish, then the operation happens. */
  function EagerStep(e: Db, op: Op, env: Env): Result
    requires WellFormed(op)
  {
    Act(Prune(e, env.now), op, env)
  }

  ghost predicate EagerAllowed(e0: Db, op: Op, env: Env) {
    var e := Prune(e0, env.now);
    match op
    case List(user, order) => env.dbOk ==> OrderAllowed(e, user, order)
    case Ingest(binId, input, hitId, keep) =>
      env.dbOk && binId in e.bins ==> KeepAllowed(e, MakeHit(binId, input, hitId, env.now), keep)
    case ListHits(user, binId, limit, after, page) =>
      env.dbOk && Look(e, user, binId).OneBin? ==> PageAllowed(e, binId, limit, after, page)
    case _ => true
  }

  /** The handlers answer 404 for both errors. */
  function Norm(r: Reply): Reply {
    if r == Fail(Expired) then Fail(NotFound) else r
  }

  // ----- Where the real store answers differently -----

  /** Another user's row that is expired but not yet pruned. */
  predicate StaleForeign(db: Db, user: string, binId: Id, now: int) {
    binId in db.bins && db.bins[binId].userId != user && now > db.bins[binId].expiresAt
  }

  /**
   * A caller can tell: a stranger asking for an expired row is told Forbidden instead of NotFound;
   * a List whose prune failed shows expired bins; a cache entry claims that a bin exists which is
   * gone, or which nobody could have looked up.
   */
  predicate Differs(s: State, op: Op, env: Env) {
    match op
    case PublicExists(binId) => CacheHit(s.cache, binId, env) && !(env.dbOk && Live(s.db, binId, env.now))
    case _ => env.dbOk && DiffersInRows(s, op, env)
  }

  predicate DiffersInRows(s: State, op: Op, env: Env) {
    match op
    case List(user, _) => !env.pruneOk && BinsOf(s.db, user) * ExpiredIds(s.db, env.now) != {}
    case Get(user, binId) => !env.pruneOk && StaleForeign(s.db, user, binId, env.now)
    case Delete(user, binId) => StaleForeign(s.db, user, binId, env.now)
    case ClearHits(user, binId) => StaleForeign(s.db, user, binId, env.now)
    case ListHits(user, binId, _, _, _) => StaleForeign(s.db, user, binId, env.now)
    case GetHit(user, binId, _) => StaleForeign(s.db, user, binId, env.now)
    case _ => false
  }

  // ----- One step -----

  lemma PrunedState(s: State, env: Env)
    ensures Prune(PruneExpired(s, env).db, env.now) == Prune(s.db, env.now)
  {
    PruneTwice(s.db, env.now, env.now);
  }

  lemma OwnedState(s: State, user: string, binId: Id, env: Env)
    ensures Prune(GetOwned(s, user, binId, env).state.db, env.now) == Prune(s.db, env.now)
    ensures GetOwned(s, user, binId, env).reply.OneBin?
       <==> env.dbOk && Look(Prune(s.db, env.now), user, binId).OneBin?
    ensures !env.dbOk ==> GetOwned(s, user, binId, env).reply == Fail(DbError)
    ensures env.dbOk && !StaleForeign(s.db, user, binId, env.now) ==>
      Norm(GetOwned(s, user, binId, env).reply) == Look(Prune(s.db, env.now), user, binId)
    ensures env.dbOk && StaleForeign(s.db, user, binId, env.now) ==>
      && GetOwned(s, user, binId, env).reply == Fail(Forbidden)
      && Look(Prune(s.db, env.now), user, binId) == Fail(NotFound)
  {
    PruneDelete(s.db, {binId}, env.now);
  }

  lemma CreateState(s: State, user: string, name: string, newId: Id, env: Env)
    requires WellFormed(Create(user, name, newId))
    ensures Prune(CreateBin(s, user, name, newId, env).state.db, env.now)
         == EagerStep(s.db, Create(user, name, newId), env).db
  {
    PrunedState(s, env);
    PruneInsertBin(s.db, NewBin(user, name, newId, env.now), env.now);
  }

  lemma DeleteState(s: State, user: string, binId: Id, env: Env)
    ensures Prune(DeleteBin(s, user, binId, env).state.db, env.now)
         == EagerStep(s.db, Delete(user, binId), env).db
  {
    OwnedState(s, user, binId, env);
    PruneDelete(s.db, {binId}, env.now);
    hide Prune, DeleteBins;
  }

  lemma ClearState(s: State, user: string, binId: Id, env: Env)
    ensures Prune(ClearBinHits(s, user, binId, env).state.db, env.now)
         == EagerStep(s.db, ClearHits(user, binId), env).db
  {
    OwnedState(s, user, binId, env);
    PruneClear(s.db, binId, env.now);
    OwnedState(s.(db := ClearBin(s.db, binId)), user, binId, env);
    hide Prune, DeleteBins, ClearBin;
  }

  lemma IngestState(s: State, binId: Id, input: IngestInput, hitId: Id, keep: seq<Id>, env: Env)
    requires WellFormed(Ingest(binId, input, hitId, keep))
    ensures Prune(IngestHit(s, binId, input, hitId, keep, env).state.db, env.now)
         == EagerStep(s.db, Ingest(binId, input, hitId, keep), env).db
  {
    PrunedState(s, env);
    var db := PruneExpired(s, env).db;
    assert binId in Prune(s.db, env.now).bins <==> Live(db, binId, env.now);
    hide Prune, StoreHit, MakeHit;
    if Live(db, binId, env.now) {
      PruneStore(db, MakeHit(binId, input, hitId, env.now), keep, env.now);
    } else if binId in db.bins {
      assert {binId} <= ExpiredIds(db, env.now);
      PruneDelete(db, {binId}, env.now);
    }
  }

  /** The tables left behind are the simple store's, up to expired rows. */
  lemma StepState(s: State, op: Op, env: Env)
    requires WellFormed(op)
    ensures Prune(Step(s, op, env).state.db, env.now) == EagerStep(s.db, op, env).db
  {
    hide Prune;
    PrunedState(s, env);
    match op
    case Create(user, name, newId) => CreateState(s, user, name, newId, env);
    case Get(user, binId) => OwnedState(PruneExpired(s, env), user, binId, env);
    case Delete(user, binId) => DeleteState(s, user, binId, env);
    case ClearHits(user, binId) => ClearState(s, user, binId, env);
    case Ingest(binId, input, hitId, keep) => IngestState(s, binId, input, hitId, keep, env);
    case ListHits(user, binId, _, _, _) => OwnedState(s, user, binId, env);
    case GetHit(user, binId, _) => OwnedState(s, user, binId, env);
    case List(_, _) =>
    case PublicExists(_) =>
  }

  lemma NoneExpired(db: Db, user: string, now: int)
    requires BinsOf(db, user) * ExpiredIds(db, now) == {}
    ensures forall b :: b in BinsOf(db, user) ==> b in Prune(db, now).bins && Prune(db, now).bins[b] == db.bins[b]
  {
    forall b | b in BinsOf(db, user) ensures b !in ExpiredIds(db, now) {
      assert b !in BinsOf(db, user) * ExpiredIds(db, now);
    }
  }

  lemma ListReply(s: State, user: string, order: seq<Id>, env: Env)
    requires Allowed(s, List(user, order), env)
    ensures Norm(Step(s, List(user, order), env).reply) == EagerStep(s.db, List(user, order), env).reply
        <==> !Differs(s, List(user, order), env)
  {
    var s1, e := PruneExpired(s, env), Prune(s.db, env.now);
    if env.dbOk && !env.pruneOk {
      assert CreatedTimes(s.db, user).Keys == BinsOf(s.db, user);
      TopNIsTop(CreatedTimes(s.db, user), |BinsOf(s.db, user)|, order);
      SubsetSize(Elems(order), BinsOf(s.db, user));
      assert forall x :: x in order <==> x in BinsOf(s.db, user) by {
        assert forall x :: x in order <==> x in Elems(order);
      }
      RowsOfLength(s.db.bins, order);
      RowsOfLength(e.bins, order);
      if !Differs(s, List(user, order), env) {
        NoneExpired(s.db, user, env.now);
        RowsOfSame(s.db.bins, e.bins, order);
      }
    }
  }

  lemma PageReply(s: State, user: string, binId: Id, limit: int, after: Id, page: seq<Id>, env: Env)
    requires Allowed(s, ListHits(user, binId, limit, after, page), env)
    ensures Norm(Step(s, ListHits(user, binId, limit, after, page), env).reply)
         == EagerStep(s.db, ListHits(user, binId, limit, after, page), env).reply
        <==> !(env.dbOk && StaleForeign(s.db, user, binId, env.now))
  {
    OwnedState(s, user, binId, env);
    if GetOwned(s, user, binId, env).reply.OneBin? {
      assert forall x :: x in page ==> x in HitTimes(s.db, binId);
      RowsOfSame(s.db.hits, Prune(s.db, env.now).hits, page);
    }
  }

  lemma ClearReply(s: State, user: string, binId: Id, env: Env)
    ensures Norm(Step(s, ClearHits(user, binId), env).reply) == EagerStep(s.db, ClearHits(user, binId), env).reply
        <==> !(env.dbOk && StaleForeign(s.db, user, binId, env.now))
  {
    OwnedState(s, user, binId, env);
    PruneClear(s.db, binId, env.now);
    OwnedState(s.(db := ClearBin(s.db, binId)), user, binId, env);
  }

  lemma OwnerReply(s: State, op: Op, env: Env)
    requires op.Get? || op.Delete? || op.GetHit?
    ensures Norm(Step(s, op, env).reply) == EagerStep(s.db, op, env).reply <==> !Differs(s, op, env)
  {
    PrunedState(s, env);
    OwnedState(PruneExpired(s, env), op.user, op.binId, env);
    OwnedState(s, op.user, op.binId, env);
  }

  /** The answer is the simple store's, exactly outside the listed cases. */
  lemma StepReply(s: State, op: Op, env: Env)
    requires WellFormed(op) && Allowed(s, op, env)
    ensures Norm(Step(s, op, env).reply) == EagerStep(s.db, op, env).reply <==> !Differs(s, op, env)
  {
    hide TopN;
    match op
    case List(user, order) => ListReply(s, user, order, env);
    case ListHits(user, binId, limit, after, page) => PageReply(s, user, binId, limit, after, page, env);
    case ClearHits(user, binId) => ClearReply(s, user, binId, env);
    case Get(_, _) => OwnerReply(s, op, env);
    case Delete(_, _) => OwnerReply(s, op, env);
    case GetHit(_, _, _) => OwnerReply(s, op, env);
    case Create(_, _, _) =>
    case Ingest(_, _, _, _) =>
    case PublicExists(_) =>
  }

  /** Both stores leave the database the same choices of order. */
  lemma StepChoices(s: State, op: Op, env: Env)
    requires WellFormed(op) && !(op.List? && Differs(s, op, env))
    ensures Allowed(s, op, env) <==> EagerAllowed(s.db, op, env)
  {
    hide TopN;
    var s1, e := PruneExpired(s, env), Prune(s.db, env.now);
    match op
    case List(user, order) =>
      if env.dbOk && !env.pruneOk {
        NoneExpired(s.db, user, env.now);
        assert CreatedTimes(s.db, user) == CreatedTimes(e, user);
      }
    case Ingest(binId, input, hitId, keep) =>
      PrunedState(s, env);
      if Live(s1.db, binId, env.now) {
        PruneStore(s1.db, MakeHit(binId, input, hitId, env.now), keep, env.now);
      }
    case ListHits(user, binId, limit, after, page) =>
      OwnedState(s, user, binId, env);
      if GetOwned(s, user, binId, env).reply.OneBin? { HitTimesLive(s.db, binId, env.now); }
    case _ =>
  }

  // ----- Whole runs -----

  function EagerRun(e: Db, run: seq<Event>): Db
    requires AllWellFormed(run)
    decreases |run|
  {
    if run == [] then e else EagerRun(EagerStep(e, run[0].op, run[0].env).db, run[1..])
  }

  function EagerReplies(e: Db, run: seq<Event>): (r: seq<Reply>)
    requires AllWellFormed(run)
    ensures |r| == |run|
    decreases |run|
  {
    if run == [] then []
    else
      var d := EagerStep(e, run[0].op, run[0].env);
      [d.reply] + EagerReplies(d.db, run[1..])
  }

  /** Differs at each position of a run. */
  function DiffersAt(s: State, run: seq<Event>): (r: seq<bool>)
    requires AllWellFormed(run)
    ensures |r| == |run|
    decreases |run|
  {
    if run == [] then []
    else [Differs(s, run[0].op, run[0].env)] + DiffersAt(Step(s, run[0].op, run[0].env).state, run[1..])
  }

  /** EagerStep only looks at the bins alive at the operation's time. */
  lemma FromPruned(db: Db, t: int, op: Op, env: Env)
    requires WellFormed(op) && t <= env.now
    ensures EagerStep(Prune(db, t), op, env) == EagerStep(db, op, env)
  {
    PruneTwice(db, t, env.now);
  }

  /** The answers are the simple store's, expired and not found counting as one, exactly where nothing differs. */
  ghost predicate SameExactlyUnless(lazy: seq<Reply>, eager: seq<Reply>, differs: seq<bool>)
    requires |lazy| == |eager| == |differs|
  {
    forall i :: 0 <= i < |lazy| ==> (Norm(lazy[i]) == eager[i] <==> !differs[i])
  }

  lemma SameCons(a: Reply, lazy: seq<Reply>, b: Reply, eager: seq<Reply>, d: bool, differs: seq<bool>)
    requires |lazy| == |eager| == |differs|
    requires Norm(a) == b <==> !d
    requires SameExactlyUnless(lazy, eager, differs)
    ensures SameExactlyUnless([a] + lazy, [b] + eager, [d] + differs)
  {
  }

  /** Lazy expiry refines eager expiry over every serial run. */
  lemma {:induction false} LazyRefinesEager(s: State, used: set<Id>, t: int, run: seq<Event>)
    requires Legal(s, used, t, run) && AllWellFormed(run)
    ensures SameExactlyUnless(Replies(s, run), EagerReplies(Prune(s.db, t), run), DiffersAt(s, run))
    decreases |run|
  {
    if run == [] {
      assert SameExactlyUnless([], [], []);
    } else {
      hide Step, EagerStep, Allowed, Differs, Prune, SameExactlyUnless;
      var op, env := run[0].op, run[0].env;
      StepReply(s, op, env);
      StepState(s, op, env);
      FromPruned(s.db, t, op, env);
      var s' := Step(s, op, env).state;
      LazyRefinesEager(s', used + NewIds(op), env.now, run[1..]);
      SameCons(Step(s, op, env).reply, Replies(s', run[1..]),
               EagerStep(s.db, op, env).reply, EagerReplies(Prune(s'.db, env.now), run[1..]),
               Differs(s, op, env), DiffersAt(s', run[1..]));
    }
  }

  /** And so do the tables: at any later time the same bins and hits are alive. */
  lemma {:induction false} LazyTablesRefineEager(s: State, used: set<Id>, t: int, run: seq<Event>, now: int)
    requires Legal(s, used, t, run) && AllWellFormed(run)
    requires t <= now && (run == [] || run[|run| - 1].env.now <= now)
    ensures Prune(Run(s, run).db, now) == Prune(EagerRun(Prune(s.db, t), run), now)
    decreases |run|
  {
    if run == [] {
      PruneTwice(s.db, t, now);
    } else {
      hide Step, EagerStep, Allowed, Prune;
      var op, env := run[0].op, run[0].env;
      StepState(s, op, env);
      FromPruned(s.db, t, op, env);
      var s' := Step(s, op, env).state;
      ClockedEnd(env.now, run[1..]);
      LazyTablesRefineEager(s', used + NewIds(op), env.now, run[1..], now);
    }
  }
}
