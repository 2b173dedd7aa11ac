/**
 * Concurrent Create calls of one user, statement by statement: prune, count, insert. A call is
 * named by the id of the bin it will insert; bins are the user's committed rows.
 */
module ConcurrentCreate {
  import opened Prelude
  import opened Limits
  import opened Runs
  import opened CheckThenAct

  datatype Phase = Started | Pruned | Counted

  datatype State = State(bins: set<Id>, calls: map<Id, Phase>)

  /**
   * A call that counts MAX_BINS_PER_USER rows or more ends with the limit error.
   * Fail is any other error; Drop any deletion by others.
   */
  datatype Step =
    | Call(id: Id)
    | Prune(id: Id, expired: set<Id>)
    | Count(id: Id)
    | Insert(id: Id)
    | Fail(id: Id)
    | Drop(gone: set<Id>)

  predicate Enabled(s: State, step: Step, k: nat) {
    match step
    case Call(id) => id !in s.bins && id !in s.calls && |s.calls| < k
    case Prune(id, _) => id in s.calls && s.calls[id] == Started
    case Count(id) => id in s.calls && s.calls[id] == Pruned
    case Insert(id) => id in s.calls && s.calls[id] == Counted
    case Fail(id) => id in s.calls
    case Drop(_) => true
  }

  function Next(s: State, step: Step, k: nat): State
    requires Enabled(s, step, k)
  {
    match step
    case Call(id) => s.(calls := s.calls[id := Started])
    case Prune(id, expired) => State(s.bins - expired, s.calls[id := Pruned])
    case Count(id) =>
      if |s.bins| >= MAX_BINS_PER_USER then s.(calls := s.calls - {id})
      else s.(calls := s.calls[id := Counted])
    case Insert(id) => State(s.bins + {id}, s.calls - {id})
    case Fail(id) => s.(calls := s.calls - {id})
    case Drop(gone) => s.(bins := s.bins - gone)
  }

  /** At most k calls in flight. */
  ghost function User(k: nat): Machine<State, Step> {
    Machine((s: State, step: Step) => Enabled(s, step, k),
            (s: State, step: Step) => if Enabled(s, step, k) then Next(s, step, k) else s)
  }

  // ----- The bound -----

  ghost predicate Mirrors(s: State, f: Flight, k: nat) {
    && Inv(f, MAX_BINS_PER_USER, k)
    && f.rows == s.bins
    && f.open.Keys == s.calls.Keys
    && (forall t :: t in s.calls ==> (f.open[t].Some? <==> s.calls[t] == Counted))
    && (forall t :: t in s.calls && s.calls[t] == Counted ==> f.open[t].value.del == {})
  }

  lemma SimulateCall(s: State, id: Id, f: Flight, k: nat)
    requires Mirrors(s, f, k) && Enabled(s, Call(id), k)
    ensures Mirrors(Next(s, Call(id), k), Begin(f, id), k)
  {
    assert |s.calls.Keys| == |s.calls| && |f.open.Keys| == |f.open|;
    BeginInv(f, id, MAX_BINS_PER_USER, k);
    hide Inv;
  }

  lemma SimulateCount(s: State, id: Id, f: Flight, k: nat) returns (f': Flight)
    requires Mirrors(s, f, k) && Enabled(s, Count(id), k)
    ensures Mirrors(Next(s, Count(id), k), f', k)
  {
    hide Inv;
    if |s.bins| >= MAX_BINS_PER_USER {
      LeaveInv(f, id, MAX_BINS_PER_USER, k);
      f' := Leave(f, id);
    } else {
      UnionSize(s.bins, {id});
      LookInv(f, id, s.bins + {id}, {}, MAX_BINS_PER_USER, k);
      f' := LookAt(f, id, s.bins + {id}, {});
    }
  }

  lemma SimulateInsert(s: State, id: Id, f: Flight, k: nat)
    requires Mirrors(s, f, k) && Enabled(s, Insert(id), k)
    ensures id in f.open && f.open[id].Some?
    ensures Mirrors(Next(s, Insert(id), k), Act(f, id), k)
  {
    hide Inv;
    ActInv(f, id, MAX_BINS_PER_USER, k);
  }

  lemma SimulateLeave(s: State, id: Id, f: Flight, k: nat)
    requires Mirrors(s, f, k) && Enabled(s, Fail(id), k)
    ensures Mirrors(Next(s, Fail(id), k), Leave(f, id), k)
  {
    hide Inv;
    LeaveInv(f, id, MAX_BINS_PER_USER, k);
  }

  lemma SimulateRemove(s: State, step: Step, gone: set<Id>, f: Flight, k: nat)
    requires Mirrors(s, f, k) && Enabled(s, step, k)
    requires step == Drop(gone) || (step.Prune? && step.expired == gone)
    ensures Mirrors(Next(s, step, k), Remove(f, gone), k)
  {
    hide Inv;
    RemoveInv(f, gone, MAX_BINS_PER_USER, k);
  }

  lemma Simulate(s: State, step: Step, f: Flight, k: nat) returns (f': Flight)
    requires Mirrors(s, f, k) && Enabled(s, step, k)
    ensures Mirrors(Next(s, step, k), f', k)
  {
    hide Mirrors, Next;
    match step
    case Call(id) => SimulateCall(s, id, f, k); f' := Begin(f, id);
    case Prune(_, expired) => SimulateRemove(s, step, expired, f, k); f' := Remove(f, expired);
    case Count(id) => f' := SimulateCount(s, id, f, k);
    case Insert(id) => SimulateInsert(s, id, f, k); f' := Act(f, id);
    case Fail(id) => SimulateLeave(s, id, f, k); f' := Leave(f, id);
    case Drop(gone) => SimulateRemove(s, step, gone, f, k); f' := Remove(f, gone);
  }

  ghost predicate Mirrored(s: State, k: nat) {
    exists f :: Mirrors(s, f, k)
  }

  lemma StepMirrored(s: State, step: Step, k: nat)
    requires Mirrored(s, k) && Enabled(s, step, k)
    ensures Mirrored(Next(s, step, k), k)
  {
    hide Mirrors, Next, Enabled;
    var f :| Mirrors(s, f, k);
    var f' := Simulate(s, step, f, k);
  }

  /**
   * With at most k creates of the user in flight, the user never has more than k - 1 bins over the
   * limit; with k = 1, never more than the limit.
   */
  lemma UserBinsBound(s: State, steps: seq<Step>, k: nat)
    requires k >= 1 && s.calls == map[] && |s.bins| <= MAX_BINS_PER_USER
    requires Possible(User(k), s, steps)
    ensures |Run(User(k), s, steps).bins| <= MAX_BINS_PER_USER + k - 1
  {
    StartInv(s.bins, MAX_BINS_PER_USER, k);
    assert Mirrors(s, Start(s.bins), k);
    hide Mirrors;
    var m, inv := User(k), (x: State) => Mirrored(x, k);
    forall x, t | inv(x) && m.enabled(x, t) ensures inv(m.next(x, t)) {
      StepMirrored(x, t, k);
    }
    Keeps(m, inv, s, steps);
    var f :| Mirrors(Run(m, s, steps), f, k);
    MirrorsBound(Run(m, s, steps), f, k);
  }

  lemma MirrorsBound(s: State, f: Flight, k: nat)
    requires Mirrors(s, f, k)
    ensures |s.bins| <= MAX_BINS_PER_USER + k - 1
  {
    Bound(f, MAX_BINS_PER_USER, k);
  }

  // ----- The bound is attained -----

  function Waiting(ids: seq<Id>): map<Id, Phase> {
    map id | id in ids :: Counted
  }

  lemma WaitingRest(ids: seq<Id>)
    requires ids != [] && Distinct(ids)
    ensures Distinct(ids[1..]) && ids[0] !in ids[1..]
    ensures Elems(ids) == {ids[0]} + Elems(ids[1..])
    ensures Waiting(ids) == map[ids[0] := Counted] + Waiting(ids[1..])
    ensures Waiting(ids[1..]) == Waiting(ids) - {ids[0]}
  {
    assert forall x :: x in ids <==> x == ids[0] || x in ids[1..];
  }

  /** One more step at the end of a run from start to s. */
  lemma Then(start: State, steps: seq<Step>, s: State, step: Step, k: nat)
    requires Possible(User(k), start, steps) && Run(User(k), start, steps) == s && Enabled(s, step, k)
    ensures Possible(User(k), start, steps + [step])
    ensures Run(User(k), start, steps + [step]) == Next(s, step, k)
  {
    Snoc(User(k), start, steps, step);
  }

  lemma OneCounts(s: State, id: Id, k: nat) returns (steps: seq<Step>)
    requires |s.bins| < MAX_BINS_PER_USER && |s.calls| < k && id !in s.bins && id !in s.calls
    ensures Possible(User(k), s, steps)
    ensures Run(User(k), s, steps) == s.(calls := s.calls[id := Counted])
  {
    hide Possible, Run;
    Nothing(User(k), s);
    Then(s, [], s, Call(id), k);
    var s1 := Next(s, Call(id), k);
    Then(s, [] + [Call(id)], s1, Prune(id, {}), k);
    var s2 := Next(s1, Prune(id, {}), k);
    assert s2.bins == s.bins;
    Then(s, [] + [Call(id)] + [Prune(id, {})], s2, Count(id), k);
    assert Next(s2, Count(id), k).calls == s.calls[id := Counted];
    steps := [] + [Call(id)] + [Prune(id, {})] + [Count(id)];
  }

  /** All of ids count the same rows before any of them inserts. */
  lemma {:induction false} AllCount(s: State, ids: seq<Id>, k: nat) returns (steps: seq<Step>)
    requires |s.bins| < MAX_BINS_PER_USER && |s.calls| + |ids| <= k && Distinct(ids)
    requires forall id :: id in ids ==> id !in s.bins && id !in s.calls
    ensures Possible(User(k), s, steps)
    ensures Run(User(k), s, steps) == s.(calls := s.calls + Waiting(ids))
    decreases |ids|
  {
    if ids == [] {
      steps := [];
      Nothing(User(k), s);
      assert s.calls + Waiting(ids) == s.calls;
    } else {
      hide Run, Possible, Distinct, Waiting;
      WaitingRest(ids);
      var one := OneCounts(s, ids[0], k);
      var s1 := Run(User(k), s, one);
      var rest := AllCount(s1, ids[1..], k);
      Append(User(k), s, one, rest);
      MergeUpdate(s.calls, ids[0], Counted, Waiting(ids[1..]));
      steps := one + rest;
    }
  }

  lemma OneInserts(s: State, id: Id, k: nat) returns (steps: seq<Step>)
    requires id in s.calls && s.calls[id] == Counted
    ensures Possible(User(k), s, steps) && Run(User(k), s, steps) == State(s.bins + {id}, s.calls - {id})
  {
    hide Run, Possible;
    One(User(k), s, Insert(id));
    steps := [Insert(id)];
  }

  lemma {:induction false} AllInsert(s: State, ids: seq<Id>, k: nat) returns (steps: seq<Step>)
    requires Distinct(ids) && s.calls == Waiting(ids)
    ensures Possible(User(k), s, steps)
    ensures Run(User(k), s, steps).bins == s.bins + Elems(ids)
    decreases |ids|
  {
    if ids == [] {
      steps := [];
      Nothing(User(k), s);
    } else {
      WaitingRest(ids);
      assert ids[0] in ids;
      hide Distinct, Run, Possible, Waiting, User;
      var one := OneInserts(s, ids[0], k);
      var rest := AllInsert(Run(User(k), s, one), ids[1..], k);
      Append(User(k), s, one, rest);
      steps := one + rest;
    }
  }

  /** A user one short of the limit can overshoot it by k - 1, for every k. */
  lemma BoundAttained(s: State, ids: seq<Id>) returns (steps: seq<Step>)
    requires s.calls == map[] && |s.bins| == MAX_BINS_PER_USER - 1
    requires |ids| >= 1 && Distinct(ids) && forall id :: id in ids ==> id !in s.bins
    ensures Possible(User(|ids|), s, steps)
    ensures |Run(User(|ids|), s, steps).bins| == MAX_BINS_PER_USER + |ids| - 1
  {
    hide Run, Possible;
    var k := |ids|;
    var a := AllCount(s, ids, k);
    var mid := Run(User(k), s, a);
    assert mid.calls == Waiting(ids);
    var b := AllInsert(mid, ids, k);
    Append(User(k), s, a, b);
    steps := a + b;
    DistinctSize(ids);
    assert s.bins * Elems(ids) == {};
  }
}
