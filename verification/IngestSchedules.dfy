/** Interleavings that show the bound on a bin's hits cannot be improved, row locks respected. */
module IngestSchedules {
  import opened Prelude
  import opened NewestFirst
  import opened Limits
  import opened Runs
  import opened ConcurrentIngest

  /** One more step at the end of a run from start to s. */
  lemma Then(start: State, steps: seq<Step>, s: State, step: Step, c: nat)
    requires Possible(Bin(c), start, steps) && Run(Bin(c), start, steps) == s && Enabled(s, step, c)
    ensures Possible(Bin(c), start, steps + [step])
    ensures Run(Bin(c), start, steps + [step]) == Next(s, step, c)
    ensures Arrivals(steps + [step]) == Arrivals(steps) + Arrival(step)
  {
    Snoc(Bin(c), start, steps, step);
    ArrivalsSnoc(steps, step);
  }

  lemma {:induction false} ArrivalsAppend(a: seq<Step>, b: seq<Step>)
    ensures Arrivals(a + b) == Arrivals(a) + Arrivals(b)
    decreases |a|
  {
    if a == [] {
      assert a + b == b;
    } else {
      hide Arrival;
      ArrivalsAppend(a[1..], b);
      assert (a + b)[0] == a[0] && (a + b)[1..] == a[1..] + b;
      assert Arrival(a[0]) + (Arrivals(a[1..]) + Arrivals(b)) == Arrivals(a) + Arrivals(b);
    }
  }

  lemma ArrivalsSnoc(a: seq<Step>, step: Step)
    ensures Arrivals(a + [step]) == Arrivals(a) + Arrival(step)
  {
    ArrivalsAppend(a, [step]);
    assert [step][1..] == [] && Arrivals([step][1..]) == [];
  }

  /** An ingest begins, inserts and picks the rows to delete. */
  lemma Looks(s: State, id: Id, at: int, keep: seq<Id>, c: nat) returns (steps: seq<Step>)
    requires id !in s.hits && id !in s.txs && |s.txs| < c && TopN(s.hits[id := at], MAX_HITS_PER_BIN, keep)
    ensures Possible(Bin(c), s, steps) && NoDrop(steps) && Arrivals(steps) == [at]
    ensures Run(Bin(c), s, steps)
         == s.(txs := s.txs[id := Tx(Hit(at), Picked(s.hits[id := at].Keys - Elems(keep)))])
  {
    hide TopN, Run, Possible, Blocked;
    Nothing(Bin(c), s);
    var s1 := Next(s, Begin(id, Hit(at)), c);
    Then(s, [], s, Begin(id, Hit(at)), c);
    var s2 := Next(s1, Insert(id), c);
    Then(s, [] + [Begin(id, Hit(at))], s1, Insert(id), c);
    assert Visible(s2, id) == s.hits[id := at];
    var s3 := Next(s2, Pick(id, keep), c);
    Then(s, [] + [Begin(id, Hit(at))] + [Insert(id)], s2, Pick(id, keep), c);
    assert s3.txs == s.txs[id := Tx(Hit(at), Picked(s.hits[id := at].Keys - Elems(keep)))];
    steps := [] + [Begin(id, Hit(at))] + [Insert(id)] + [Pick(id, keep)];
  }

  ghost predicate Ready(s: State, id: Id) {
    && id in s.txs && s.txs[id].phase.Picked? && s.txs[id].job.Hit?
    && (forall t :: t in s.txs && t != id ==> !s.txs[t].phase.Updated?)
    && !Blocked(s, id)
  }

  /** An ingest whose DELETE need not wait deletes and counts. */
  lemma Counts(s: State, id: Id, c: nat) returns (steps: seq<Step>)
    requires Ready(s, id)
    ensures Possible(Bin(c), s, steps) && NoDrop(steps) && Arrivals(steps) == []
    ensures var del := s.txs[id].phase.del;
      Run(Bin(c), s, steps) == Enter(s, id, Counted(del, |Visible(s, id).Keys - del|))
  {
    hide TopN, Run, Possible, Blocked;
    var del, count := s.txs[id].phase.del, |Visible(s, id).Keys - s.txs[id].phase.del|;
    Nothing(Bin(c), s);
    Then(s, [], s, Delete(id), c);
    var s1 := Next(s, Delete(id), c);
    Then(s, [] + [Delete(id)], s1, Count(id), c);
    var s2 := Next(s1, Count(id), c);
    assert s2 == Enter(s, id, Counted(del, count));
    steps := [] + [Delete(id)] + [Count(id)];
  }

  /** Then it updates the bin row and commits. */
  lemma Commits(s: State, id: Id, c: nat) returns (steps: seq<Step>)
    requires id in s.txs && s.txs[id].phase.Counted? && s.txs[id].job.Hit?
    requires forall t :: t in s.txs ==> !s.txs[t].phase.Updated?
    ensures Possible(Bin(c), s, steps) && NoDrop(steps) && Arrivals(steps) == []
    ensures var phase := s.txs[id].phase;
      Run(Bin(c), s, steps)
      == State(Visible(s, id) - phase.del, phase.count, Some(s.txs[id].job.at), s.txs - {id})
  {
    hide TopN, Run, Possible, Blocked;
    var phase := s.txs[id].phase;
    Nothing(Bin(c), s);
    Then(s, [], s, Update(id), c);
    var s1 := Next(s, Update(id), c);
    assert s1 == Enter(s, id, Updated(phase.del, phase.count));
    Then(s, [] + [Update(id)], s1, Commit(id), c);
    UpdateThenDrop(s.txs, id, s1.txs[id]);
    steps := [] + [Update(id)] + [Commit(id)];
  }

  lemma Finishes(s: State, id: Id, c: nat) returns (steps: seq<Step>)
    requires Ready(s, id)
    ensures Possible(Bin(c), s, steps) && NoDrop(steps) && Arrivals(steps) == []
    ensures var del := s.txs[id].phase.del;
      Run(Bin(c), s, steps)
      == State(Visible(s, id) - del, |Visible(s, id).Keys - del|, Some(s.txs[id].job.at), s.txs - {id})
  {
    hide Run, Possible, Blocked;
    var x := Counts(s, id, c);
    var s1 := Run(Bin(c), s, x);
    UpdateThenDrop(s.txs, id, s1.txs[id]);
    var y := Commits(s1, id, c);
    Append(Bin(c), s, x, y);
    ArrivalsAppend(x, y);
    steps := x + y;
  }

  // ----- The bound is attained -----

  /** A bin at its cap, none of its hits newer than now; others are all hits but the oldest. */
  ghost predicate Full(hits: map<Id, int>, oldest: Id, others: seq<Id>, now: int) {
    && oldest in hits && |hits.Keys| == MAX_HITS_PER_BIN
    && TopN(hits - {oldest}, MAX_HITS_PER_BIN - 1, others)
    && forall h :: h in hits ==> hits[oldest] <= hits[h] <= now
  }

  /** One ingest begins, inserts and picks in a full bin: the oldest hit is its deletion. */
  lemma OnePicks(s: State, id: Id, oldest: Id, others: seq<Id>, now: int, c: nat) returns (steps: seq<Step>)
    requires Full(s.hits, oldest, others, now)
    requires id !in s.hits && id !in s.txs && |s.txs| < c
    ensures Possible(Bin(c), s, steps)
    ensures Run(Bin(c), s, steps) == s.(txs := s.txs[id := Tx(Hit(now), Picked({oldest}))])
  {
    hide TopN, Run, Possible;
    OldestLeft(s.hits, MAX_HITS_PER_BIN, oldest, others, id, now);
    steps := Looks(s, id, now, [id] + others, c);
  }

  function Waiting(ids: seq<Id>, now: int, del: set<Id>): map<Id, Tx> {
    map id | id in ids :: Tx(Hit(now), Picked(del))
  }

  lemma WaitingRest(ids: seq<Id>, now: int, del: set<Id>)
    requires ids != [] && Distinct(ids)
    ensures Distinct(ids[1..]) && ids[0] !in ids[1..]
    ensures Elems(ids) == {ids[0]} + Elems(ids[1..])
    ensures Waiting(ids, now, del) == map[ids[0] := Tx(Hit(now), Picked(del))] + Waiting(ids[1..], now, del)
    ensures Waiting(ids[1..], now, del) == Waiting(ids, now, del) - {ids[0]}
  {
    assert forall x :: x in ids <==> x == ids[0] || x in ids[1..];
  }

  /** Each of ids picks in the same full bin, so each picks the same oldest hit to delete. */
  lemma {:induction false} AllPick(s: State, ids: seq<Id>, oldest: Id, others: seq<Id>, now: int, c: nat)
    returns (steps: seq<Step>)
    requires Full(s.hits, oldest, others, now)
    requires Distinct(ids) && |s.txs| + |ids| <= c
    requires forall id :: id in ids ==> id !in s.hits && id !in s.txs
    ensures Possible(Bin(c), s, steps)
    ensures Run(Bin(c), s, steps) == s.(txs := s.txs + Waiting(ids, now, {oldest}))
    decreases |ids|
  {
    if ids == [] {
      steps := [];
      Nothing(Bin(c), s);
      assert s.txs + Waiting(ids, now, {oldest}) == s.txs;
    } else {
      hide Full, Run, Possible, Distinct, Waiting;
      var id := ids[0];
      WaitingRest(ids, now, {oldest});
      var one := OnePicks(s, id, oldest, others, now, c);
      var s1 := Run(Bin(c), s, one);
      var rest := AllPick(s1, ids[1..], oldest, others, now, c);
      Append(Bin(c), s, one, rest);
      MergeUpdate(s.txs, id, Tx(Hit(now), Picked({oldest})), Waiting(ids[1..], now, {oldest}));
      steps := one + rest;
    }
  }

  lemma OneFinishes(s: State, ids: seq<Id>, del: set<Id>, now: int, c: nat) returns (steps: seq<Step>)
    requires ids != [] && Distinct(ids) && s.txs == Waiting(ids, now, del)
    ensures Possible(Bin(c), s, steps)
    ensures Run(Bin(c), s, steps).hits.Keys == s.hits.Keys + {ids[0]} - del
    ensures Run(Bin(c), s, steps).txs == Waiting(ids[1..], now, del)
  {
    hide Run, Possible, Distinct;
    WaitingRest(ids, now, del);
    assert ids[0] in ids && Ready(s, ids[0]);
    hide Waiting, Ready;
    steps := Finishes(s, ids[0], c);
  }

  /**
   * Then they finish one after the other: the first deletes that hit, and each later one, whose DELETE
   * waited for it, finds the hit gone and deletes nothing.
   */
  lemma {:induction false} AllFinish(s: State, ids: seq<Id>, del: set<Id>, now: int, c: nat) returns (steps: seq<Step>)
    requires Distinct(ids) && s.txs == Waiting(ids, now, del)
    requires forall id :: id in ids ==> id !in del
    ensures Possible(Bin(c), s, steps)
    ensures Run(Bin(c), s, steps).hits.Keys == if ids == [] then s.hits.Keys else s.hits.Keys - del + Elems(ids)
    decreases |ids|
  {
    if ids == [] {
      steps := [];
      Nothing(Bin(c), s);
    } else {
      hide Run, Possible, Distinct;
      WaitingRest(ids, now, del);
      hide Waiting;
      assert ids[0] in ids;
      var one := OneFinishes(s, ids, del, now, c);
      var s1 := Run(Bin(c), s, one);
      var rest := AllFinish(s1, ids[1..], del, now, c);
      Append(Bin(c), s, one, rest);
      steps := one + rest;
      AddThenSubtract(s.hits.Keys, ids[0], del, Elems(ids[1..]));
      if ids[1..] == [] { assert Elems(ids) == {ids[0]}; }
    }
  }

  /** From every full bin, for every c, some interleaving of c ingests overshoots by c - 1. */
  lemma BoundAttained(s: State, ids: seq<Id>, oldest: Id, others: seq<Id>, now: int) returns (steps: seq<Step>)
    requires s.txs == map[] && Full(s.hits, oldest, others, now)
    requires |ids| >= 1 && Distinct(ids) && forall id :: id in ids ==> id !in s.hits
    ensures Possible(Bin(|ids|), s, steps)
    ensures |Run(Bin(|ids|), s, steps).hits.Keys| == MAX_HITS_PER_BIN + |ids| - 1
  {
    hide TopN, Run, Possible;
    var c := |ids|;
    var a := AllPick(s, ids, oldest, others, now, c);
    var mid := Run(Bin(c), s, a);
    assert mid.txs == Waiting(ids, now, {oldest});
    var b := AllFinish(mid, ids, {oldest}, now, c);
    Append(Bin(c), s, a, b);
    steps := a + b;
    DistinctSize(ids);
    assert |s.hits.Keys - {oldest}| == MAX_HITS_PER_BIN - 1;
    assert (s.hits.Keys - {oldest}) * Elems(ids) == {};
  }
}
