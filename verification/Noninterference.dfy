/**
 * What a user sees of their own bins does not depend on what anyone else does: it is what they
 * would see if their bins, their calls and the hits sent to their bins were all there is.
 */
module Noninterference {
  import opened Prelude
  import opened NewestFirst
  import opened Tables
  import opened PruneLaws
  import opened WebhookOps
  import opened EagerStore
  import StoreInvariant

  /** The bins of v and their hits. */
  function View(db: Db, v: string): Db {
    Db(map b | b in db.bins && db.bins[b].userId == v :: db.bins[b],
       map h | h in db.hits && db.hits[h].binId in db.bins && db.bins[db.hits[h].binId].userId == v :: db.hits[h])
  }

  /** owner tells who creates each id. A concerned operation is v's on v's own bins, or a hit for one. */
  predicate Concerns(op: Op, v: string, owner: map<Id, string>) {
    match op
    case Create(user, _, _) => user == v
    case List(user, _) => user == v
    case Ingest(binId, _, _, _) => binId in owner && owner[binId] == v
    case PublicExists(_) => false
    case _ => op.user == v && op.binId in owner && owner[op.binId] == v
  }

  predicate OwnedRight(db: Db, owner: map<Id, string>) {
    forall b :: b in db.bins ==> b in owner && db.bins[b].userId == owner[b]
  }

  predicate CreatesRight(op: Op, owner: map<Id, string>) {
    op.Create? ==> op.newId in owner && owner[op.newId] == op.user
  }

  ghost predicate Known(db: Db, used: set<Id>) {
    (forall h :: h in db.hits ==> h in used && db.hits[h].binId in db.bins) && db.bins.Keys <= used
  }

  // ----- Laws of the view -----

  lemma PruneView(db: Db, v: string, now: int)
    ensures Prune(View(db, v), now) == View(Prune(db, now), v)
  {
    assert Prune(View(db, v), now).bins == View(Prune(db, now), v).bins;
    assert Prune(View(db, v), now).hits == View(Prune(db, now), v).hits;
  }

  lemma ViewBins(db: Db, v: string)
    ensures BinsOf(View(db, v), v) == BinsOf(db, v)
    ensures CreatedTimes(View(db, v), v) == CreatedTimes(db, v)
  {
  }

  lemma ViewHits(db: Db, v: string, b: Id)
    requires b in View(db, v).bins
    ensures HitTimes(View(db, v), b) == HitTimes(db, b)
  {
  }

  lemma DeleteView(db: Db, v: string, ids: set<Id>)
    ensures View(DeleteBins(db, ids), v) == DeleteBins(View(db, v), ids)
    ensures ids !! View(db, v).bins.Keys ==> View(DeleteBins(db, ids), v) == View(db, v)
  {
    assert View(DeleteBins(db, ids), v).bins == DeleteBins(View(db, v), ids).bins;
    assert View(DeleteBins(db, ids), v).hits == DeleteBins(View(db, v), ids).hits;
    if ids !! View(db, v).bins.Keys {
      assert DeleteBins(View(db, v), ids).bins == View(db, v).bins;
      assert DeleteBins(View(db, v), ids).hits == View(db, v).hits;
    }
  }

  lemma InsertView(db: Db, v: string, bin: Bin)
    requires bin.id !in db.bins && forall h :: h in db.hits ==> db.hits[h].binId in db.bins
    ensures View(InsertBin(db, bin), v) == if bin.userId == v then InsertBin(View(db, v), bin) else View(db, v)
  {
    assert View(InsertBin(db, bin), v).hits == View(db, v).hits;
  }

  lemma StatsView(db: Db, v: string, b: Id, count: nat, last: Option<int>)
    ensures View(SetStats(db, b, count, last), v) == SetStats(View(db, v), b, count, last)
    ensures b !in View(db, v).bins ==> View(SetStats(db, b, count, last), v) == View(db, v)
  {
    SameOwnersSameHits(db, SetStats(db, b, count, last), v);
    assert View(SetStats(db, b, count, last), v).bins == SetStats(View(db, v), b, count, last).bins;
  }

  lemma SameOwnersSameHits(db: Db, d: Db, v: string)
    requires d.hits == db.hits && d.bins.Keys == db.bins.Keys
    requires forall x :: x in d.bins ==> d.bins[x].userId == db.bins[x].userId
    ensures View(d, v).hits == View(db, v).hits
  {
  }

  lemma KeepView(db: Db, v: string, b: Id, keep: set<Id>)
    ensures View(KeepHits(db, b, keep), v) == KeepHits(View(db, v), b, keep)
    ensures b !in View(db, v).bins ==> View(KeepHits(db, b, keep), v) == View(db, v)
  {
    assert View(KeepHits(db, b, keep), v).hits == KeepHits(View(db, v), b, keep).hits;
    if b !in View(db, v).bins {
      assert View(KeepHits(db, b, keep), v).hits == View(db, v).hits;
    }
  }

  lemma InsertHitView(db: Db, v: string, hit: Hit)
    requires hit.id !in db.hits && hit.binId in db.bins
    ensures View(InsertHit(db, hit), v)
         == if hit.binId in View(db, v).bins then InsertHit(View(db, v), hit) else View(db, v)
  {
    if hit.binId in View(db, v).bins {
      assert View(InsertHit(db, hit), v).hits == InsertHit(View(db, v), hit).hits;
    } else {
      assert View(InsertHit(db, hit), v).hits == View(db, v).hits;
    }
  }

  lemma ClearView(db: Db, v: string, b: Id)
    ensures View(ClearBin(db, b), v) == ClearBin(View(db, v), b)
    ensures b !in View(db, v).bins ==> View(ClearBin(db, b), v) == View(db, v)
  {
    KeepView(db, v, b, {});
    StatsView(KeepHits(db, b, {}), v, b, 0, None);
  }

  lemma StoreView(db: Db, v: string, hit: Hit, keep: seq<Id>)
    requires hit.id !in db.hits && hit.binId in db.bins
    ensures View(StoreHit(db, hit, keep), v)
         == if hit.binId in View(db, v).bins then StoreHit(View(db, v), hit, keep) else View(db, v)
    ensures hit.binId in View(db, v).bins ==>
      HitTimes(InsertHit(View(db, v), hit), hit.binId) == HitTimes(InsertHit(db, hit), hit.binId)
  {
    var b, ins := hit.binId, InsertHit(db, hit);
    var kept := KeepHits(ins, b, Elems(keep));
    InsertHitView(db, v, hit);
    KeepView(ins, v, b, Elems(keep));
    StatsView(kept, v, b, |HitTimes(kept, b).Keys|, Some(hit.receivedAt));
    if b in View(db, v).bins {
      ViewHits(ins, v, b);
      ViewHits(kept, v, b);
    }
  }

  // ----- One step of the simple store -----

  /** Operations of others, on others' bins, leave v's view alone. */
  lemma OthersUnseen(e: Db, used: set<Id>, op: Op, env: Env, v: string, owner: map<Id, string>)
    requires WellFormed(op) && Known(e, used) && NewIds(op) !! used
    requires OwnedRight(e, owner) && CreatesRight(op, owner) && !Concerns(op, v, owner)
    ensures View(Act(e, op, env).db, v) == View(e, v)
  {
    hide View;
    match op
    case Create(user, name, newId) => InsertView(e, v, NewBin(user, name, newId, env.now));
    case Delete(user, binId) => InView(e, v, binId); DeleteView(e, v, {binId});
    case ClearHits(user, binId) => InView(e, v, binId); ClearView(e, v, binId);
    case Ingest(binId, input, hitId, keep) =>
      InView(e, v, binId);
      if binId in e.bins { StoreView(e, v, MakeHit(binId, input, hitId, env.now), keep); }
    case _ =>
  }

  lemma InView(e: Db, v: string, b: Id)
    ensures b in View(e, v).bins <==> b in e.bins && e.bins[b].userId == v
    ensures b in View(e, v).bins ==> View(e, v).bins[b] == e.bins[b]
  {
  }

  lemma OwnRead(e: Db, op: Op, env: Env, v: string, owner: map<Id, string>)
    requires op.List? || op.Get? || op.ListHits? || op.GetHit?
    requires OwnedRight(e, owner) && Concerns(op, v, owner)
    requires EagerAllowed(e, op, env) && Prune(e, env.now) == e
    ensures View(Act(e, op, env).db, v) == Act(View(e, v), op, env).db
    ensures Act(e, op, env).reply == Act(View(e, v), op, env).reply
    ensures EagerAllowed(View(e, v), op, env)
  {
    PruneView(e, v, env.now);
    ViewBins(e, v);
    hide View, TopN, Prune;
    match op
    case List(_, order) =>
      if env.dbOk { OwnList(e, v, order); }
    case Get(_, binId) => InView(e, v, binId);
    case ListHits(_, binId, limit, after, page) =>
      InView(e, v, binId);
      if env.dbOk { OwnPage(e, v, binId, limit, after, page); }
    case GetHit(_, binId, hitId) =>
      InView(e, v, binId);
      if binId in e.bins {
        ViewHits(e, v, binId);
        if hitId in HitTimes(e, binId) { ViewRow(e, v, binId, hitId); }
      }
  }

  lemma OwnWrite(e: Db, used: set<Id>, op: Op, env: Env, v: string, owner: map<Id, string>)
    requires op.Create? || op.Delete? || op.ClearHits? || op.Ingest?
    requires WellFormed(op) && Known(e, used) && NewIds(op) !! used
    requires OwnedRight(e, owner) && Concerns(op, v, owner)
    ensures View(Act(e, op, env).db, v) == Act(View(e, v), op, env).db
    ensures Act(e, op, env).reply == Act(View(e, v), op, env).reply
  {
    ViewBins(e, v);
    hide View, StoreHit, ClearBin, DeleteBins, InsertBin;
    match op
    case Create(user, name, newId) => InsertView(e, v, NewBin(user, name, newId, env.now));
    case Delete(_, binId) => InView(e, v, binId); DeleteView(e, v, {binId});
    case ClearHits(_, binId) =>
      InView(e, v, binId);
      ClearView(e, v, binId);
      InView(ClearBin(e, binId), v, binId);
      ClearLook(e, v, binId);
    case Ingest(binId, input, hitId, keep) =>
      InView(e, v, binId);
      if binId in e.bins { StoreView(e, v, MakeHit(binId, input, hitId, env.now), keep); }
  }

  lemma ClearLook(e: Db, v: string, binId: Id)
    ensures binId in ClearBin(e, binId).bins <==> binId in e.bins
    ensures binId in e.bins ==> ClearBin(e, binId).bins[binId].userId == e.bins[binId].userId
  {
  }

  /** A concerned operation does to the view what it does to the store, and answers the same. */
  lemma OwnSeen(e: Db, used: set<Id>, op: Op, env: Env, v: string, owner: map<Id, string>)
    requires WellFormed(op) && Known(e, used) && NewIds(op) !! used
    requires OwnedRight(e, owner) && Concerns(op, v, owner)
    requires EagerAllowed(e, op, env) && Prune(e, env.now) == e
    ensures View(Act(e, op, env).db, v) == Act(View(e, v), op, env).db
    ensures Act(e, op, env).reply == Act(View(e, v), op, env).reply
    ensures EagerAllowed(View(e, v), op, env)
  {
    hide View, TopN, Prune, Act;
    if op.List? || op.Get? || op.ListHits? || op.GetHit? {
      OwnRead(e, op, env, v, owner);
    } else {
      OwnWrite(e, used, op, env, v, owner);
      PruneView(e, v, env.now);
      if op.Ingest? {
        InView(e, v, op.binId);
        if op.binId in e.bins { StoreView(e, v, MakeHit(op.binId, op.input, op.hitId, env.now), op.keep); }
      }
    }
  }

  lemma ViewRow(e: Db, v: string, binId: Id, h: Id)
    requires binId in View(e, v).bins && h in HitTimes(e, binId)
    ensures h in View(e, v).hits && View(e, v).hits[h] == e.hits[h]
  {
  }

  lemma OwnList(e: Db, v: string, order: seq<Id>)
    requires OrderAllowed(e, v, order)
    ensures RowsOf(e.bins, order) == RowsOf(View(e, v).bins, order)
  {
    RowsOfSame(e.bins, View(e, v).bins, order);
  }

  lemma OwnPage(e: Db, v: string, binId: Id, limit: int, after: Id, page: seq<Id>)
    requires Look(e, v, binId).OneBin? ==> PageAllowed(e, binId, limit, after, page)
    ensures Look(View(e, v), v, binId).OneBin? <==> Look(e, v, binId).OneBin?
    ensures Look(e, v, binId).OneBin? ==>
      && RowsOf(e.hits, page) == RowsOf(View(e, v).hits, page)
      && PageAllowed(View(e, v), binId, limit, after, page)
  {
    InView(e, v, binId);
    if Look(e, v, binId).OneBin? {
      ViewHits(e, v, binId);
      assert Candidates(View(e, v), binId, after) == Candidates(e, binId, after);
      forall h | h in page ensures h in View(e, v).hits && View(e, v).hits[h] == e.hits[h] {
        assert h in HitTimes(e, binId);
        ViewRow(e, v, binId, h);
      }
      hide TopN;
      assert forall h :: h in page ==> h in HitTimes(e, binId);
      RowsOfSame(e.hits, View(e, v).hits, page);
    }
  }

  // ----- Whole runs -----

  function Project(run: seq<Event>, v: string, owner: map<Id, string>): (r: seq<Event>)
    ensures AllWellFormed(run) ==> AllWellFormed(r)
  {
    if run == [] then []
    else
      assert AllWellFormed(run) ==> AllWellFormed(run[1..]);
      (if Concerns(run[0].op, v, owner) then [run[0]] else []) + Project(run[1..], v, owner)
  }

  /** The answers to the concerned operations, expired and not found counting as one. */
  function OwnReplies(s: State, run: seq<Event>, v: string, owner: map<Id, string>): seq<Reply>
    requires AllWellFormed(run)
    decreases |run|
  {
    if run == [] then []
    else
      var d := Step(s, run[0].op, run[0].env);
      (if Concerns(run[0].op, v, owner) then [Norm(d.reply)] else []) + OwnReplies(d.state, run[1..], v, owner)
  }

  /** Ids belong to their creator, and no List of v fails to prune. */
  predicate Fair(e: Event, v: string, owner: map<Id, string>) {
    CreatesRight(e.op, owner) && (e.op.List? && e.op.user == v ==> e.env.pruneOk)
  }

  lemma OwnersKept(s: State, op: Op, env: Env, owner: map<Id, string>)
    requires WellFormed(op) && OwnedRight(s.db, owner) && CreatesRight(op, owner)
    ensures OwnedRight(Step(s, op, env).state.db, owner)
  {
    hide HitTimes, RowsOf, Summaries, BinName;
    match op
    case Create(_, _, _) =>
    case Ingest(_, _, _, _) =>
    case ClearHits(_, _) =>
    case _ =>
  }

  lemma KnownPruned(db: Db, used: set<Id>, now: int)
    requires StoreInvariant.Inv(db, used, now)
    ensures Known(Prune(db, now), used)
  {
    assert StoreInvariant.BinsOk(db, used, now);
    forall h | h in Prune(db, now).hits ensures h in used && db.hits[h].binId in Prune(db, now).bins {
      assert StoreInvariant.HitOk(db, h, now);
    }
  }

  lemma NotDifferent(s: State, op: Op, env: Env, v: string, owner: map<Id, string>)
    requires OwnedRight(s.db, owner) && Concerns(op, v, owner) && Fair(Event(op, env), v, owner)
    ensures !Differs(s, op, env)
  {
  }

  /** One operation of the real store against the view w of the simple store. */
  lemma StepAgainstView(s: State, used: set<Id>, t: int, e: Event, v: string, owner: map<Id, string>, w: Db)
    requires StoreInvariant.Inv(s.db, used, t) && t <= e.env.now
    requires WellFormed(e.op) && NewIds(e.op) !! used && Allowed(s, e.op, e.env)
    requires OwnedRight(s.db, owner) && Fair(e, v, owner)
    requires Prune(w, t) == View(Prune(s.db, t), v)
    ensures var d := Step(s, e.op, e.env);
      var w' := if Concerns(e.op, v, owner) then EagerStep(w, e.op, e.env).db else w;
      && Prune(w', e.env.now) == View(Prune(d.state.db, e.env.now), v)
      && (Concerns(e.op, v, owner) ==>
            Norm(d.reply) == EagerStep(w, e.op, e.env).reply && EagerAllowed(w, e.op, e.env))
  {
    var op, env, now := e.op, e.env, e.env.now;
    var alive := Prune(s.db, now);
    hide StoreInvariant.Inv, View, Prune, Allowed, EagerAllowed, Step, Act;
    StoreInvariant.TimePasses(s.db, used, t, now, {});
    assert used + {} == used;
    KnownPruned(s.db, used, now);
    assert Prune(w, now) == View(alive, v) by {
      PruneTwice(w, t, now);
      PruneTwice(s.db, t, now);
      PruneView(Prune(s.db, t), v, now);
    }
    PruneTwice(s.db, now, now);
    PrunedOwners(s.db, now, owner);
    StepState(s, op, env);
    PruneTwice(Step(s, op, env).state.db, now, now);
    if Concerns(op, v, owner) {
      ConcernedStep(s, used, op, env, v, owner, w);
    } else {
      OthersUnseen(alive, used, op, env, v, owner);
    }
  }

  lemma PrunedOwners(db: Db, now: int, owner: map<Id, string>)
    requires OwnedRight(db, owner)
    ensures OwnedRight(Prune(db, now), owner)
  {
  }

  lemma ConcernedStep(s: State, used: set<Id>, op: Op, env: Env, v: string, owner: map<Id, string>, w: Db)
    requires Known(Prune(s.db, env.now), used) && WellFormed(op) && NewIds(op) !! used && Allowed(s, op, env)
    requires OwnedRight(s.db, owner) && Fair(Event(op, env), v, owner) && Concerns(op, v, owner)
    requires Prune(w, env.now) == View(Prune(s.db, env.now), v)
    ensures Prune(EagerStep(w, op, env).db, env.now) == View(Prune(Step(s, op, env).state.db, env.now), v)
    ensures Norm(Step(s, op, env).reply) == EagerStep(w, op, env).reply
    ensures EagerAllowed(w, op, env)
  {
    var now := env.now;
    var alive := Prune(s.db, now);
    NotDifferent(s, op, env, v, owner);
    StepChoices(s, op, env);
    StepReply(s, op, env);
    StepState(s, op, env);
    PrunedOwners(s.db, now, owner);
    PruneTwice(s.db, now, now);
    AllowedPruned(s.db, op, env);
    AllowedPruned(w, op, env);
    hide View, Prune, Allowed, EagerAllowed, Step, Act;
    OwnSeen(alive, used, op, env, v, owner);
    PruneTwice(Step(s, op, env).state.db, now, now);
    PruneView(Prune(Step(s, op, env).state.db, now), v, now);
  }

  lemma AllowedPruned(e: Db, op: Op, env: Env)
    ensures EagerAllowed(Prune(e, env.now), op, env) <==> EagerAllowed(e, op, env)
  {
    PruneTwice(e, env.now, env.now);
    hide Prune, TopN;
  }

  /**
   * v's answers in any serial run are the answers of the simple store to v's own part of the run,
   * started from v's own bins. Everything else in the run is invisible.
   */
  lemma {:induction false} OwnAnswersOnly(s: State, used: set<Id>, t: int, run: seq<Event>,
                                          v: string, owner: map<Id, string>, w: Db)
    requires Legal(s, used, t, run) && AllWellFormed(run)
    requires StoreInvariant.Inv(s.db, used, t) && OwnedRight(s.db, owner)
    requires forall i :: 0 <= i < |run| ==> Fair(run[i], v, owner)
    requires Prune(w, t) == View(Prune(s.db, t), v)
    ensures OwnReplies(s, run, v, owner) == EagerReplies(w, Project(run, v, owner))
    decreases |run|
  {
    if run == [] {
    } else {
      hide StoreInvariant.Inv, View, Prune, Allowed, EagerAllowed, Step, EagerStep, Concerns, Fair;
      var e := run[0];
      assert Fair(run[0], v, owner);
      var s' := Step(s, e.op, e.env).state;
      var w' := if Concerns(e.op, v, owner) then EagerStep(w, e.op, e.env).db else w;
      StepAgainstView(s, used, t, e, v, owner, w);
      StoreInvariant.StepInv(s, used, t, e.op, e.env);
      OwnersKept(s, e.op, e.env, owner) by { FairCreates(e, v, owner); }
      assert forall i :: 0 <= i < |run[1..]| ==> run[1..][i] == run[i + 1];
      OwnAnswersOnly(s', used + NewIds(e.op), e.env.now, run[1..], v, owner, w');
      var rest := Project(run[1..], v, owner);
      assert ([e] + rest)[1..] == rest && [] + rest == rest;
    }
  }

  /** The same step on a store w of v's own bins: allowed, and answered and seen alike. */
  lemma ConcernedOnOwnStore(s: State, used: set<Id>, t: int, e: Event, v: string, owner: map<Id, string>, w: State)
    requires StoreInvariant.Inv(s.db, used, t) && t <= e.env.now
    requires WellFormed(e.op) && NewIds(e.op) !! used && Allowed(s, e.op, e.env)
    requires OwnedRight(s.db, owner) && OwnedRight(w.db, owner) && Fair(e, v, owner) && Concerns(e.op, v, owner)
    requires Prune(w.db, t) == View(Prune(s.db, t), v)
    ensures var d, d' := Step(s, e.op, e.env), Step(w, e.op, e.env);
      && Allowed(w, e.op, e.env) && Norm(d'.reply) == Norm(d.reply)
      && Prune(d'.state.db, e.env.now) == View(Prune(d.state.db, e.env.now), v)
      && OwnedRight(d'.state.db, owner)
  {
    var op, env, now := e.op, e.env, e.env.now;
    FairCreates(e, v, owner);
    NotDifferent(w, op, env, v, owner);
    hide StoreInvariant.Inv, View, Prune, Allowed, EagerAllowed, Step, EagerStep, Differs, OwnedRight, Concerns, Fair;
    StepAgainstView(s, used, t, e, v, owner, w.db);
    StepChoices(w, op, env);
    StepReply(w, op, env);
    StepState(w, op, env);
    PruneTwice(Step(w, op, env).state.db, now, now);
    OwnersKept(w, op, env, owner);
  }

  /** Any step, which w takes only if it is concerned. */
  lemma StepOnOwnStore(s: State, used: set<Id>, t: int, e: Event, v: string, owner: map<Id, string>, w: State)
    returns (w': State)
    requires StoreInvariant.Inv(s.db, used, t) && t <= e.env.now
    requires WellFormed(e.op) && NewIds(e.op) !! used && Allowed(s, e.op, e.env)
    requires OwnedRight(s.db, owner) && OwnedRight(w.db, owner) && Fair(e, v, owner)
    requires Prune(w.db, t) == View(Prune(s.db, t), v)
    ensures w' == if Concerns(e.op, v, owner) then Step(w, e.op, e.env).state else w
    ensures Concerns(e.op, v, owner) ==>
      Allowed(w, e.op, e.env) && Norm(Step(w, e.op, e.env).reply) == Norm(Step(s, e.op, e.env).reply)
    ensures var s' := Step(s, e.op, e.env).state;
      && StoreInvariant.Inv(s'.db, used + NewIds(e.op), e.env.now)
      && OwnedRight(s'.db, owner) && OwnedRight(w'.db, owner)
      && Prune(w'.db, e.env.now) == View(Prune(s'.db, e.env.now), v)
  {
    hide StoreInvariant.Inv, View, Prune, Allowed, EagerAllowed, Step, EagerStep, Concerns, OwnedRight;
    FairCreates(e, v, owner);
    StoreInvariant.StepInv(s, used, t, e.op, e.env);
    OwnersKept(s, e.op, e.env, owner);
    if Concerns(e.op, v, owner) {
      ConcernedOnOwnStore(s, used, t, e, v, owner, w);
      w' := Step(w, e.op, e.env).state;
    } else {
      StepAgainstView(s, used, t, e, v, owner, w.db);
      w' := w;
    }
  }

  lemma LegalCons(w: State, used: set<Id>, t: int, e: Event, rest: seq<Event>)
    requires WellFormed(e.op) && NewIds(e.op) !! used && Allowed(w, e.op, e.env) && t <= e.env.now
    requires Legal(Step(w, e.op, e.env).state, used + NewIds(e.op), e.env.now, rest)
    ensures Legal(w, used, t, [e] + rest)
  {
    hide Allowed, Step;
    assert ([e] + rest)[1..] == rest;
  }

  lemma RepliesCons(w: State, e: Event, rest: seq<Event>, v: string, owner: map<Id, string>)
    requires WellFormed(e.op) && AllWellFormed(rest) && Concerns(e.op, v, owner)
    ensures AllWellFormed([e] + rest)
    ensures OwnReplies(w, [e] + rest, v, owner)
         == [Norm(Step(w, e.op, e.env).reply)] + OwnReplies(Step(w, e.op, e.env).state, rest, v, owner)
  {
    hide Step, Concerns;
    assert ([e] + rest)[1..] == rest;
  }

  /**
   * v's own part of a serial run is a serial run of the real store, from v's own bins alone: the
   * database can make the same choices, and v gets the same answers.
   */
  lemma {:induction false} OwnPartLegal(s: State, used: set<Id>, t: int, run: seq<Event>,
                                        v: string, owner: map<Id, string>, w: State, usedW: set<Id>)
    requires Legal(s, used, t, run) && AllWellFormed(run)
    requires StoreInvariant.Inv(s.db, used, t) && OwnedRight(s.db, owner) && OwnedRight(w.db, owner)
    requires forall i :: 0 <= i < |run| ==> Fair(run[i], v, owner)
    requires Prune(w.db, t) == View(Prune(s.db, t), v) && usedW <= used
    ensures Legal(w, usedW, t, Project(run, v, owner))
    ensures OwnReplies(w, Project(run, v, owner), v, owner) == OwnReplies(s, run, v, owner)
    decreases |run|
  {
    if run == [] {
      assert Project(run, v, owner) == [];
    } else {
      hide StoreInvariant.Inv, View, Prune, Allowed, Step, Concerns, Fair, OwnedRight, WellFormed;
      var e := run[0];
      assert Fair(run[0], v, owner) && WellFormed(e.op);
      var s' := Step(s, e.op, e.env).state;
      var w' := StepOnOwnStore(s, used, t, e, v, owner, w);
      assert forall i :: 0 <= i < |run[1..]| ==> run[1..][i] == run[i + 1];
      var rest := Project(run[1..], v, owner);
      if Concerns(e.op, v, owner) {
        OwnPartLegal(s', used + NewIds(e.op), e.env.now, run[1..], v, owner, w', usedW + NewIds(e.op));
        hide Legal;
        LegalCons(w, usedW, t, e, rest);
        RepliesCons(w, e, rest, v, owner);
      } else {
        OwnPartLegal(s', used + NewIds(e.op), e.env.now, run[1..], v, owner, w', usedW);
        ClockedEarlier(t, e.env.now, rest);
        assert [] + rest == rest;
      }
    }
  }

  lemma ClockedEarlier(t: int, now: int, run: seq<Event>)
    requires t <= now && Clocked(now, run)
    ensures Clocked(t, run)
  {
  }

  lemma FairCreates(e: Event, v: string, owner: map<Id, string>)
    requires Fair(e, v, owner)
    ensures CreatesRight(e.op, owner)
  {
  }

  lemma FromEmpty(t: int, v: string, owner: map<Id, string>)
    ensures StoreInvariant.Inv(EMPTY, {}, t) && OwnedRight(EMPTY, owner)
    ensures Prune(EMPTY, t) == EMPTY == View(EMPTY, v)
  {
    assert forall u :: BinsOf(EMPTY, u) == {};
  }

  /**
   * Noninterference: from a serial run delete everything but v's operations on v's own bins and the
   * hits for them. What is left is a serial run, and it gives v the same answers.
   */
  lemma OthersCanBeDeleted(run: seq<Event>, t: int, v: string, owner: map<Id, string>)
    requires Legal(State(EMPTY, map[]), {}, t, run) && AllWellFormed(run)
    requires forall i :: 0 <= i < |run| ==> Fair(run[i], v, owner)
    ensures var own := Project(run, v, owner);
      && AllWellFormed(own) && Legal(State(EMPTY, map[]), {}, t, own)
      && OwnReplies(State(EMPTY, map[]), own, v, owner) == OwnReplies(State(EMPTY, map[]), run, v, owner)
  {
    FromEmpty(t, v, owner);
    hide Legal, Fair, StoreInvariant.Inv, OwnedRight, Prune, View;
    OwnPartLegal(State(EMPTY, map[]), {}, t, run, v, owner, State(EMPTY, map[]), {});
  }

  /** So any two serial runs that share v's part give v the same answers, whatever else happens in them. */
  lemma SameAnswers(run1: seq<Event>, run2: seq<Event>, t: int, v: string, owner: map<Id, string>)
    requires Legal(State(EMPTY, map[]), {}, t, run1) && AllWellFormed(run1)
    requires Legal(State(EMPTY, map[]), {}, t, run2) && AllWellFormed(run2)
    requires forall i :: 0 <= i < |run1| ==> Fair(run1[i], v, owner)
    requires forall i :: 0 <= i < |run2| ==> Fair(run2[i], v, owner)
    requires Project(run1, v, owner) == Project(run2, v, owner)
    ensures OwnReplies(State(EMPTY, map[]), run1, v, owner) == OwnReplies(State(EMPTY, map[]), run2, v, owner)
  {
    hide Legal, Fair;
    OthersCanBeDeleted(run1, t, v, owner);
    OthersCanBeDeleted(run2, t, v, owner);
  }
}
