/**
 * Taking one user out of a serial run: without that user's operations on their own bins, and the hits
 * for those bins, what is left is a serial run in which everybody else is answered as before.
 */
module UserDeletion {
  import opened Prelude
  import opened NewestFirst
  import opened Tables
  import opened PruneLaws
  import opened WebhookOps
  import opened EagerStore
  import opened Noninterference
  import StoreInvariant

  function Without(run: seq<Event>, u: string, owner: map<Id, string>): (r: seq<Event>)
    ensures AllWellFormed(run) ==> AllWellFormed(r)
  {
    if run == [] then []
    else
      assert AllWellFormed(run) ==> AllWellFormed(run[1..]);
      (if Concerns(run[0].op, u, owner) then [] else [run[0]]) + Without(run[1..], u, owner)
  }

  /** Every List of somebody else prunes, and ids belong to their creator. */
  ghost predicate FairToOthers(e: Event, u: string, owner: map<Id, string>) {
    forall v :: v != u ==> Fair(e, v, owner)
  }

  /** What everybody but u has of the two stores is the same. */
  ghost predicate SameForOthers(s: State, w: State, t: int, u: string) {
    forall v :: v != u ==> View(Prune(w.db, t), v) == View(Prune(s.db, t), v)
  }

  ghost predicate Ready(s: State, used: set<Id>, t: int, e: Event, owner: map<Id, string>) {
    && StoreInvariant.Inv(s.db, used, t) && t <= e.env.now
    && WellFormed(e.op) && NewIds(e.op) !! used && OwnedRight(s.db, owner) && CreatesRight(e.op, owner)
  }

  // ----- What one user sees of one step -----

  lemma ViewPruned(db: Db, t: int, now: int, v: string)
    requires t <= now
    ensures Prune(View(Prune(db, t), v), now) == View(Prune(db, now), v)
  {
    PruneView(Prune(db, t), v, now);
    PruneTwice(db, t, now);
  }

  /** It is decided by the user's view alone. */
  lemma ViewStep(s: State, used: set<Id>, t: int, e: Event, v: string, owner: map<Id, string>)
    requires Ready(s, used, t, e, owner) && Allowed(s, e.op, e.env) && Fair(e, v, owner)
    ensures var d, w := Step(s, e.op, e.env), View(Prune(s.db, t), v);
      && View(Prune(d.state.db, e.env.now), v)
         == Prune(if Concerns(e.op, v, owner) then EagerStep(w, e.op, e.env).db else w, e.env.now)
      && (Concerns(e.op, v, owner) ==>
            Norm(d.reply) == EagerStep(w, e.op, e.env).reply && EagerAllowed(w, e.op, e.env))
  {
    hide Step, View, Prune, EagerStep, EagerAllowed, Allowed, StoreInvariant.Inv, Concerns, Fair;
    ViewPruned(s.db, t, t, v);
    StepAgainstView(s, used, t, e, v, owner, View(Prune(s.db, t), v));
  }

  // ----- What the database may choose -----

  /** A choice among v's own rows is a choice among all rows. */
  lemma OwnChoice(e: Db, used: set<Id>, op: Op, env: Env, v: string, owner: map<Id, string>)
    requires Known(e, used) && NewIds(op) !! used && OwnedRight(e, owner) && Concerns(op, v, owner)
    requires Prune(e, env.now) == e && EagerAllowed(View(e, v), op, env)
    ensures EagerAllowed(e, op, env)
  {
    PruneView(e, v, env.now);
    ViewBins(e, v);
    hide View, TopN, Prune;
    match op
    case Ingest(binId, input, hitId, keep) =>
      InView(e, v, binId);
      if binId in e.bins { StoreView(e, v, MakeHit(binId, input, hitId, env.now), keep); }
    case ListHits(_, binId, _, after, _) =>
      InView(e, v, binId);
      if binId in e.bins {
        ViewHits(e, v, binId);
        assert Candidates(View(e, v), binId, after) == Candidates(e, binId, after);
      }
    case _ =>
  }

  lemma ConcernedChoice(w: State, used: set<Id>, t: int, e: Event, v: string, owner: map<Id, string>)
    requires Ready(w, used, t, e, owner) && Fair(e, v, owner) && Concerns(e.op, v, owner)
    requires EagerAllowed(View(Prune(w.db, t), v), e.op, e.env)
    ensures Allowed(w, e.op, e.env)
  {
    var now := e.env.now;
    NotDifferent(w, e.op, e.env, v, owner);
    hide View, Prune, EagerAllowed, Allowed, Differs, StoreInvariant.Inv, Concerns, Fair;
    StoreInvariant.TimePasses(w.db, used, t, now, {});
    assert used + {} == used;
    KnownPruned(w.db, used, now);
    PrunedOwners(w.db, now, owner);
    PruneTwice(w.db, now, now);
    ViewPruned(w.db, t, now, v);
    AllowedPruned(View(Prune(w.db, t), v), e.op, e.env);
    OwnChoice(Prune(w.db, now), used, e.op, e.env, v, owner);
    AllowedPruned(w.db, e.op, e.env);
    StepChoices(w, e.op, e.env);
  }

  /** An operation on nobody's own bin leaves the database no choice. */
  lemma ForeignChoice(w: State, op: Op, env: Env, owner: map<Id, string>)
    requires OwnedRight(w.db, owner) && forall v :: !Concerns(op, v, owner)
    ensures Allowed(w, op, env)
  {
    hide TopN;
    var v := if op.List? || op.ListHits? then op.user
             else if op.Ingest? && op.binId in owner then owner[op.binId] else "";
    assert !Concerns(op, v, owner);
  }

  /** What is allowed in the run is allowed without u. */
  lemma KeptChoice(s: State, w: State, used: set<Id>, usedW: set<Id>, t: int, e: Event,
                   u: string, owner: map<Id, string>)
    requires Ready(s, used, t, e, owner) && Ready(w, usedW, t, e, owner) && Allowed(s, e.op, e.env)
    requires SameForOthers(s, w, t, u) && FairToOthers(e, u, owner) && !Concerns(e.op, u, owner)
    ensures Allowed(w, e.op, e.env)
  {
    hide Step, View, Prune, EagerStep, EagerAllowed, Allowed, Concerns, Fair, Ready;
    if v :| Concerns(e.op, v, owner) {
      ViewStep(s, used, t, e, v, owner);
      ConcernedChoice(w, usedW, t, e, v, owner);
    } else {
      hide SameForOthers, FairToOthers;
      OwnedReady(w, usedW, t, e, owner);
      ForeignChoice(w, e.op, e.env, owner);
    }
  }

  lemma OwnedReady(w: State, used: set<Id>, t: int, e: Event, owner: map<Id, string>)
    requires Ready(w, used, t, e, owner)
    ensures OwnedRight(w.db, owner)
  {
  }

  // ----- One step with and without u -----

  lemma KeptStep(s: State, w: State, used: set<Id>, usedW: set<Id>, t: int, e: Event,
                 u: string, owner: map<Id, string>)
    requires Ready(s, used, t, e, owner) && Ready(w, usedW, t, e, owner) && Allowed(s, e.op, e.env)
    requires SameForOthers(s, w, t, u) && FairToOthers(e, u, owner) && !Concerns(e.op, u, owner)
    ensures Allowed(w, e.op, e.env)
    ensures var d, d' := Step(s, e.op, e.env), Step(w, e.op, e.env);
      && SameForOthers(d.state, d'.state, e.env.now, u)
      && (forall v :: v != u && Concerns(e.op, v, owner) ==> Norm(d'.reply) == Norm(d.reply))
  {
    KeptChoice(s, w, used, usedW, t, e, u, owner);
    hide Step, View, Prune, EagerStep, EagerAllowed, Allowed, Concerns, Fair, Ready, Norm;
    var d, d' := Step(s, e.op, e.env), Step(w, e.op, e.env);
    forall v | v != u
      ensures View(Prune(d'.state.db, e.env.now), v) == View(Prune(d.state.db, e.env.now), v)
      ensures Concerns(e.op, v, owner) ==> Norm(d'.reply) == Norm(d.reply)
    {
      ViewStep(s, used, t, e, v, owner);
      ViewStep(w, usedW, t, e, v, owner);
    }
  }

  /** u's operations on u's own bins concern nobody else. */
  lemma OneOwner(op: Op, u: string, v: string, owner: map<Id, string>)
    requires Concerns(op, u, owner) && v != u
    ensures !Concerns(op, v, owner)
  {
  }

  lemma DroppedStep(s: State, w: State, used: set<Id>, t: int, e: Event, u: string, owner: map<Id, string>)
    requires Ready(s, used, t, e, owner) && Allowed(s, e.op, e.env)
    requires SameForOthers(s, w, t, u) && FairToOthers(e, u, owner) && Concerns(e.op, u, owner)
    ensures SameForOthers(Step(s, e.op, e.env).state, w, e.env.now, u)
  {
    assert t <= e.env.now;
    hide Step, View, Prune, EagerStep, EagerAllowed, Allowed, Concerns, Fair, Ready;
    forall v | v != u
      ensures View(Prune(w.db, e.env.now), v) == View(Prune(Step(s, e.op, e.env).state.db, e.env.now), v)
    {
      OneOwner(e.op, u, v, owner);
      ViewStep(s, used, t, e, v, owner);
      ViewPruned(w.db, t, e.env.now, v);
    }
  }

  lemma StaysReady(s: State, used: set<Id>, t: int, e: Event, owner: map<Id, string>)
    requires Ready(s, used, t, e, owner) && Allowed(s, e.op, e.env)
    ensures var s' := Step(s, e.op, e.env).state;
      StoreInvariant.Inv(s'.db, used + NewIds(e.op), e.env.now) && OwnedRight(s'.db, owner)
  {
    StoreInvariant.StepInv(s, used, t, e.op, e.env);
    OwnersKept(s, e.op, e.env, owner);
  }

  lemma WaitsReady(w: State, used: set<Id>, t: int, now: int)
    requires StoreInvariant.Inv(w.db, used, t) && t <= now
    ensures StoreInvariant.Inv(w.db, used, now)
  {
    StoreInvariant.TimePasses(w.db, used, t, now, {});
    assert used + {} == used;
  }

  // ----- Whole runs -----

  ghost predicate Twins(s: State, used: set<Id>, w: State, usedW: set<Id>, t: int, u: string, owner: map<Id, string>) {
    && StoreInvariant.Inv(s.db, used, t) && OwnedRight(s.db, owner)
    && StoreInvariant.Inv(w.db, usedW, t) && OwnedRight(w.db, owner)
    && usedW <= used && SameForOthers(s, w, t, u)
  }

  /** One event: w takes it unless it concerns u. */
  lemma TwinStep(s: State, used: set<Id>, w: State, usedW: set<Id>, t: int, e: Event,
                 u: string, owner: map<Id, string>)
    returns (w': State, usedW': set<Id>)
    requires Twins(s, used, w, usedW, t, u, owner) && t <= e.env.now
    requires WellFormed(e.op) && NewIds(e.op) !! used && Allowed(s, e.op, e.env)
    requires FairToOthers(e, u, owner) && CreatesRight(e.op, owner)
    ensures Twins(Step(s, e.op, e.env).state, used + NewIds(e.op), w', usedW', e.env.now, u, owner)
    ensures Concerns(e.op, u, owner) ==> w' == w && usedW' == usedW
    ensures !Concerns(e.op, u, owner) ==>
      && w' == Step(w, e.op, e.env).state && usedW' == usedW + NewIds(e.op)
      && Allowed(w, e.op, e.env) && NewIds(e.op) !! usedW
      && forall v :: v != u && Concerns(e.op, v, owner) ==>
           Norm(Step(w, e.op, e.env).reply) == Norm(Step(s, e.op, e.env).reply)
  {
    hide Step, Allowed, Concerns, FairToOthers, SameForOthers, StoreInvariant.Inv, OwnedRight, WellFormed, Norm;
    StaysReady(s, used, t, e, owner);
    if Concerns(e.op, u, owner) {
      DroppedStep(s, w, used, t, e, u, owner);
      WaitsReady(w, usedW, t, e.env.now);
      w', usedW' := w, usedW;
    } else {
      KeptStep(s, w, used, usedW, t, e, u, owner);
      StaysReady(w, usedW, t, e, owner);
      w', usedW' := Step(w, e.op, e.env).state, usedW + NewIds(e.op);
    }
  }

  lemma RepliesOne(s: State, e: Event, rest: seq<Event>, v: string, owner: map<Id, string>)
    requires WellFormed(e.op) && AllWellFormed(rest)
    ensures AllWellFormed([e] + rest)
    ensures OwnReplies(s, [e] + rest, v, owner)
         == (if Concerns(e.op, v, owner) then [Norm(Step(s, e.op, e.env).reply)] else [])
            + OwnReplies(Step(s, e.op, e.env).state, rest, v, owner)
  {
    hide Step, Concerns;
    assert ([e] + rest)[1..] == rest;
  }

  lemma {:induction false} WithoutOne(s: State, used: set<Id>, w: State, usedW: set<Id>, t: int, run: seq<Event>,
                                      u: string, v: string, owner: map<Id, string>)
    requires Twins(s, used, w, usedW, t, u, owner) && v != u
    requires Legal(s, used, t, run) && AllWellFormed(run)
    requires forall i :: 0 <= i < |run| ==> FairToOthers(run[i], u, owner) && CreatesRight(run[i].op, owner)
    ensures Legal(w, usedW, t, Without(run, u, owner))
    ensures OwnReplies(w, Without(run, u, owner), v, owner) == OwnReplies(s, run, v, owner)
    decreases |run|
  {
    if run == [] {
      assert Without(run, u, owner) == [];
    } else {
      hide Twins, Allowed, Step, Concerns, FairToOthers, WellFormed, CreatesRight, Norm;
      var e, rest := run[0], Without(run[1..], u, owner);
      assert WellFormed(e.op) && CreatesRight(e.op, owner) && FairToOthers(e, u, owner);
      assert forall i :: 0 <= i < |run[1..]| ==> run[1..][i] == run[i + 1];
      var w', usedW' := TwinStep(s, used, w, usedW, t, e, u, owner);
      WithoutOne(Step(s, e.op, e.env).state, used + NewIds(e.op), w', usedW', e.env.now, run[1..], u, v, owner);
      assert run == [e] + run[1..];
      RepliesOne(s, e, run[1..], v, owner);
      hide Legal;
      if Concerns(e.op, u, owner) {
        OneOwner(e.op, u, v, owner);
        LegalEarlier(w, usedW, t, e.env.now, rest);
        assert Without(run, u, owner) == [] + rest == rest;
      } else {
        LegalCons(w, usedW, t, e, rest);
        RepliesOne(w, e, rest, v, owner);
      }
    }
  }

  lemma LegalEarlier(w: State, used: set<Id>, t: int, now: int, run: seq<Event>)
    requires t <= now && Legal(w, used, now, run)
    ensures Legal(w, used, t, run)
  {
    ClockedEarlier(t, now, run);
  }

  /**
   * From a serial run delete one user's operations on their own bins and all hits for these bins: what
   * is left is a serial run, and gives every other user the same answers about their own bins.
   */
  lemma OneUserCanBeDeleted(run: seq<Event>, t: int, u: string, v: string, owner: map<Id, string>)
    requires Legal(State(EMPTY, map[]), {}, t, run) && AllWellFormed(run) && v != u
    requires forall i :: 0 <= i < |run| ==> FairToOthers(run[i], u, owner) && CreatesRight(run[i].op, owner)
    ensures var start, rest := State(EMPTY, map[]), Without(run, u, owner);
      && AllWellFormed(rest) && Legal(start, {}, t, rest)
      && OwnReplies(start, rest, v, owner) == OwnReplies(start, run, v, owner)
  {
    FromEmpty(t, v, owner);
    var start := State(EMPTY, map[]);
    hide Legal, FairToOthers, StoreInvariant.Inv, OwnedRight, Prune, View;
    assert Twins(start, {}, start, {}, t, u, owner);
    WithoutOne(start, {}, start, {}, t, run, u, v, owner);
  }
}
