/** When last_hit_at is sure to be the time of the newest hit. */
module LatestHit {
  import opened Prelude
  import opened NewestFirst
  import opened Limits
  import opened Runs
  import opened ConcurrentIngest
  import opened IngestSchedules
  import opened LoneIngest
  import StoreInvariant

  /** Ingests begin in the order of their times, the first not before t. */
  predicate InOrder(t: int, arrivals: seq<int>) {
    && (arrivals != [] ==> t <= arrivals[0])
    && (forall i, j :: 0 <= i < j < |arrivals| ==> arrivals[i] <= arrivals[j])
  }

  ghost predicate NoneAfter(hits: map<Id, int>, t: int) {
    forall h :: h in hits ==> hits[h] <= t
  }

  ghost predicate IsLatest(s: State) {
    StoreInvariant.LatestIs(s.hits, s.lastHitAt)
  }

  /** A run of a clock that does not go back, during which the bin stays, from quiet to quiet. */
  ghost predicate OrderedRun(s: State, t: int, steps: seq<Step>, c: nat) {
    QuietRun(s, steps, c) && NoneAfter(s.hits, t) && InOrder(t, Arrivals(steps))
  }

  ghost predicate LatestStays(c: nat) {
    forall s: State, t: int, steps: seq<Step> ::
      OrderedRun(s, t, steps, c) && IsLatest(s) ==> IsLatest(Run(Bin(c), s, steps))
  }

  /** What a lone transaction keeps: its time is between that of every hit and the clock. */
  ghost predicate OnTime(s: State, t: int) {
    && Midway(s, s.(txs := map[])) && NoneAfter(s.hits, t) && IsLatest(s)
    && (forall id :: id in s.txs && s.txs[id].job.Hit? ==> s.txs[id].job.at <= t && NoneAfter(s.hits, s.txs[id].job.at))
  }

  function Clock(t: int, step: Step): int {
    if step.Begin? && step.job.Hit? then step.job.at else t
  }

  lemma KeptLatest(hits: map<Id, int>, id: Id, at: int, keep: seq<Id>)
    requires NoneAfter(hits, at) && TopN(hits[id := at], MAX_HITS_PER_BIN, keep)
    ensures StoreInvariant.LatestIs(Restrict(hits[id := at], Elems(keep)), Some(at))
  {
    var all := hits[id := at];
    assert id in all && |all.Keys| >= 1;
    assert keep != [] && keep[0] in keep;
    if id !in keep { assert all[keep[0]] == at; }
  }

  lemma WholeOnTime(b: State, w: Whole, t: int)
    requires Fits(b, w) && (w.Stored? ==> NoneAfter(b.hits, w.at) && w.at <= t)
    ensures NoneAfter(Result(b, w).hits, t) && IsLatest(Result(b, w))
  {
    if w.Stored? { KeptLatest(b.hits, w.id, w.at, w.keep); }
    hide TopN;
  }

  lemma CommitOnTime(s: State, step: Step, t: int)
    requires OnTime(s, t) && Enabled(s, step, 1) && step.Commit?
    ensures OnTime(Next(s, step, 1), t)
  {
    var b := s.(txs := map[]);
    var w := CommitIsWhole(s, b, step);
    assert Next(s, step, 1).lastHitAt == Latest(s.txs[step.id].job);
    hide Next, Fits, Midway;
    assert w.Stored? ==> s.txs[step.id].job == Hit(w.at);
    WholeOnTime(b, w, t);
    QuietMidway(b, w);
    hide IsLatest, NoneAfter;
    assert Result(b, w).(txs := map[]) == Result(b, w);
  }

  lemma OtherOnTime(s: State, step: Step, t: int)
    requires OnTime(s, t) && Enabled(s, step, 1) && !step.Drop? && !step.Commit? && t <= Clock(t, step)
    ensures OnTime(Next(s, step, 1), Clock(t, step))
  {
    hide TopN, Blocked, StoreInvariant.LatestIs;
    var s' := Next(s, step, 1);
    StepOnTheWay(s, s.(txs := map[]), step);
    hide Midway;
    assert s'.(txs := map[]) == s.(txs := map[]);
    assert step.Begin? ==> s'.txs[step.id] == Tx(step.job, Begun);
    forall id | id in s'.txs && s'.txs[id].job.Hit?
      ensures s'.txs[id].job.at <= Clock(t, step) && NoneAfter(s'.hits, s'.txs[id].job.at)
    {
      assert (step.Begin? && id == step.id) || (id in s.txs && s'.txs[id].job == s.txs[id].job);
    }
  }

  lemma StillOnTime(s: State, step: Step, t: int)
    requires OnTime(s, t) && Enabled(s, step, 1) && !step.Drop? && t <= Clock(t, step)
    ensures OnTime(Next(s, step, 1), Clock(t, step))
  {
    hide OnTime, Next, Enabled;
    if step.Commit? {
      CommitOnTime(s, step, t);
    } else {
      OtherOnTime(s, step, t);
    }
  }

  lemma InOrderRest(t: int, steps: seq<Step>)
    requires steps != [] && InOrder(t, Arrivals(steps))
    ensures t <= Clock(t, steps[0]) && InOrder(Clock(t, steps[0]), Arrivals(steps[1..]))
  {
    var rest := Arrivals(steps[1..]);
    if steps[0].Begin? && steps[0].job.Hit? {
      assert Arrivals(steps) == [steps[0].job.at] + rest;
      assert forall i :: 0 <= i < |rest| ==> rest[i] == Arrivals(steps)[i + 1];
    } else {
      assert Arrivals(steps) == [] + rest == rest;
    }
  }

  lemma {:induction false} RunOnTime(s: State, t: int, steps: seq<Step>) returns (t': int)
    requires OnTime(s, t) && Possible(Bin(1), s, steps) && NoDrop(steps) && InOrder(t, Arrivals(steps))
    ensures OnTime(Run(Bin(1), s, steps), t')
    decreases |steps|
  {
    if steps == [] {
      t' := t;
    } else {
      var step := steps[0];
      hide OnTime, Arrivals, InOrder, Next, Enabled, Clock;
      assert Enabled(s, step, 1);
      assert !step.Drop? && NoDrop(steps[1..]);
      InOrderRest(t, steps);
      StillOnTime(s, step, t);
      t' := RunOnTime(Next(s, step, 1), Clock(t, step), steps[1..]);
    }
  }

  lemma AloneLatest(s: State, t: int, steps: seq<Step>, c: nat)
    requires c <= 1 && OrderedRun(s, t, steps, c) && IsLatest(s)
    ensures IsLatest(Run(Bin(c), s, steps))
  {
    MoreInFlight(s, steps, c, 1);
    assert s.(txs := map[]) == s;
    assert OnTime(s, t);
    var t' := RunOnTime(s, t, steps);
  }

  // ----- Two that overlap -----

  const NOBODY := State(map[], 0, None, map[])

  function BothPicked(a: Id, b: Id, now: int): State {
    State(map[], 0, None, map[a := Tx(Hit(now), Picked({})), b := Tx(Hit(now + 1), Picked({}))])
  }

  lemma BothLook(a: Id, b: Id, now: int) returns (steps: seq<Step>)
    requires a != b
    ensures Possible(Bin(2), NOBODY, steps) && NoDrop(steps) && Arrivals(steps) == [now, now + 1]
    ensures Run(Bin(2), NOBODY, steps) == BothPicked(a, b, now)
  {
    assert TopN(map[a := now], MAX_HITS_PER_BIN, [a]) && TopN(map[b := now + 1], MAX_HITS_PER_BIN, [b]);
    NothingToDrop(a, now);
    NothingToDrop(b, now + 1);
    hide TopN, Run, Possible, Elems;
    var x := Looks(NOBODY, a, now, [a], 2);
    var s1 := Run(Bin(2), NOBODY, x);
    var y := Looks(s1, b, now + 1, [b], 2);
    Append(Bin(2), NOBODY, x, y);
    ArrivalsAppend(x, y);
    steps := x + y;
  }

  lemma LastOne(s: State, a: Id, now: int) returns (steps: seq<Step>)
    requires s.txs == map[a := Tx(Hit(now), Picked({}))]
    ensures Possible(Bin(2), s, steps) && NoDrop(steps) && Arrivals(steps) == []
    ensures var s' := Run(Bin(2), s, steps);
      s'.txs == map[] && s'.lastHitAt == Some(now) && s'.hits == s.hits[a := now]
  {
    AloneReady(s, a);
    hide Run, Possible, Ready, Blocked;
    steps := Finishes(s, a, 2);
    assert s.txs - {a} == map[];
    assert s.hits[a := now] - {} == s.hits[a := now];
  }

  lemma BothReady(a: Id, b: Id, now: int)
    requires a != b
    ensures Ready(BothPicked(a, b, now), b)
  {
  }

  lemma LaterCommits(a: Id, b: Id, now: int) returns (steps: seq<Step>)
    requires a != b
    ensures Possible(Bin(2), BothPicked(a, b, now), steps) && NoDrop(steps) && Arrivals(steps) == []
    ensures var s' := Run(Bin(2), BothPicked(a, b, now), steps);
      s'.txs == map[a := Tx(Hit(now), Picked({}))] && s'.hits == map[b := now + 1]
  {
    BothReady(a, b, now);
    hide Ready, Blocked, Run, Possible;
    var s := BothPicked(a, b, now);
    steps := Finishes(s, b, 2);
    assert s.txs - {b} == map[a := Tx(Hit(now), Picked({}))];
    assert s.hits[b := now + 1] - {} == map[b := now + 1];
  }

  lemma BothCommit(a: Id, b: Id, now: int) returns (steps: seq<Step>)
    requires a != b
    ensures Possible(Bin(2), BothPicked(a, b, now), steps) && NoDrop(steps) && Arrivals(steps) == []
    ensures var s' := Run(Bin(2), BothPicked(a, b, now), steps);
      s'.txs == map[] && s'.lastHitAt == Some(now) && s'.hits == map[a := now, b := now + 1]
  {
    hide Run, Possible, BothPicked;
    var x := LaterCommits(a, b, now);
    var s1 := Run(Bin(2), BothPicked(a, b, now), x);
    assert s1.hits[a := now] == map[a := now, b := now + 1];
    var y := LastOne(s1, a, now);
    Append(Bin(2), BothPicked(a, b, now), x, y);
    ArrivalsAppend(x, y);
    steps := x + y;
  }

  /** a comes first and commits last. */
  lemma EarlierCommitsLast(a: Id, b: Id, now: int) returns (steps: seq<Step>)
    requires a != b
    ensures OrderedRun(NOBODY, now, steps, 2)
    ensures Run(Bin(2), NOBODY, steps).lastHitAt == Some(now)
    ensures Run(Bin(2), NOBODY, steps).hits == map[a := now, b := now + 1]
  {
    hide Run, Possible, BothPicked;
    var x := BothLook(a, b, now);
    var y := BothCommit(a, b, now);
    Append(Bin(2), NOBODY, x, y);
    ArrivalsAppend(x, y);
    steps := x + y;
    assert Arrivals(steps) == [now, now + 1];
  }

  /** last_hit_at stays the time of the newest hit exactly when no two transactions on the bin may overlap. */
  lemma LatestIffAlone(c: nat)
    ensures LatestStays(c) <==> c <= 1
  {
    if c <= 1 {
      forall s: State, t: int, steps: seq<Step> | OrderedRun(s, t, steps, c) && IsLatest(s)
        ensures IsLatest(Run(Bin(c), s, steps))
      {
        AloneLatest(s, t, steps, c);
      }
    } else {
      var steps := EarlierCommitsLast("a", "b", 0);
      MoreInFlight(NOBODY, steps, 2, c);
      var s := Run(Bin(c), NOBODY, steps);
      hide Run, Possible, Arrivals;
      assert OrderedRun(NOBODY, 0, steps, c) && IsLatest(NOBODY);
      assert !IsLatest(s) by { assert "b" in s.hits && s.hits["b"] == 1; }
    }
  }
}
