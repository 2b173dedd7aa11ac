/**
 * Transactions on a bin one at a time: they do what the serial store does, and only then is hit_count
 * sure to be the number of hits.
 */
module LoneIngest {
  import opened Prelude
  import opened NewestFirst
  import opened Limits
  import opened Runs
  import opened ConcurrentIngest
  import opened IngestSchedules
  import Tables
  import HitLaws

  /** A whole transaction of the serial store. */
  datatype Whole = Stored(id: Id, at: int, keep: seq<Id>) | Emptied

  ghost predicate Fits(b: State, w: Whole) {
    && b.txs == map[]
    && (w.Stored? ==> w.id !in b.hits && TopN(b.hits[w.id := w.at], MAX_HITS_PER_BIN, w.keep))
  }

  function Result(b: State, w: Whole): State {
    match w
    case Stored(id, at, keep) =>
      var kept := Restrict(b.hits[id := at], Elems(keep));
      State(kept, |kept.Keys|, Some(at), map[])
    case Emptied => State(map[], 0, None, map[])
  }

  ghost function Serial(): Machine<State, Whole> {
    Machine((b: State, w: Whole) => Fits(b, w), (b: State, w: Whole) => Result(b, w))
  }

  /** What the tables show of one bin. */
  function BinState(db: Tables.Db, b: Id): State
    requires b in db.bins
  {
    State(Tables.HitTimes(db, b), db.bins[b].hitCount, db.bins[b].lastHitAt, map[])
  }

  /** These are the transactions of the serial store. */
  lemma SerialStore(db: Tables.Db, hit: Tables.Hit, keep: seq<Id>)
    requires hit.binId in db.bins && hit.id !in db.hits
    ensures BinState(Tables.StoreHit(db, hit, keep), hit.binId)
         == Result(BinState(db, hit.binId), Stored(hit.id, hit.receivedAt, keep))
    ensures BinState(Tables.ClearBin(db, hit.binId), hit.binId) == Result(BinState(db, hit.binId), Emptied)
  {
    var b := hit.binId;
    HitLaws.StoredTimes(db, hit, keep, b);
    HitLaws.ClearedTimes(db, b, b);
    var kept := Tables.KeepHits(Tables.InsertHit(db, hit), b, Elems(keep));
    HitLaws.StatsTimes(kept, b, |Tables.HitTimes(kept, b).Keys|, Some(hit.receivedAt), b);
    hide Tables.HitTimes;
  }

  // ----- Every run of one transaction at a time is serial -----

  ghost predicate Spares(b: State, id: Id, at: int, del: set<Id>) {
    exists keep :: TopN(b.hits[id := at], MAX_HITS_PER_BIN, keep) && del == b.hits[id := at].Keys - Elems(keep)
  }

  /** What a lone transaction knows of the bin. */
  ghost predicate TxOk(b: State, id: Id, tx: Tx) {
    && id !in b.hits
    && (match tx.job
        case Hit(at) =>
          && (Looked(tx.phase) ==> Spares(b, id, at, tx.phase.del))
          && (tx.phase.Counted? || tx.phase.Updated? ==> tx.phase.count == |b.hits[id := at].Keys - tx.phase.del|)
        case Clear =>
          && !tx.phase.Counted?
          && (Looked(tx.phase) ==> tx.phase.del == b.hits.Keys)
          && (tx.phase.Updated? ==> tx.phase.count == 0))
  }

  ghost predicate Alone(s: State, b: State, id: Id, tx: Tx) {
    s.txs == map[id := tx] && TxOk(b, id, tx)
  }

  /** b is the bin, and at most one transaction is on its way. */
  ghost predicate Midway(s: State, b: State) {
    && b == s.(txs := map[])
    && (s.txs == map[] || exists id, tx :: Alone(s, b, id, tx))
  }

  lemma SameTx(s: State, id: Id, tx: Tx, step: Step)
    requires s.txs == map[id := tx] && Enabled(s, step, 1) && !step.Begin? && !step.Drop?
    ensures step.id == id
  {
  }

  lemma BeginMidway(s: State, b: State, step: Step)
    requires Midway(s, b) && Enabled(s, step, 1) && step.Begin?
    ensures Midway(Next(s, step, 1), b)
  {
    assert s.txs == map[];
    var s' := Next(s, step, 1);
    assert s'.txs == map[step.id := Tx(step.job, Begun)];
    assert Alone(s', b, step.id, Tx(step.job, Begun));
  }

  lemma AdvanceOk(s: State, b: State, id: Id, tx: Tx, step: Step) returns (phase: Phase)
    requires step.Insert? || step.Pick? || step.Delete? || step.Count? || step.Update?
    requires b == s.(txs := map[]) && s.txs == map[id := tx] && TxOk(b, id, tx)
    requires Enabled(s, step, 1) && step.id == id
    ensures Next(s, step, 1) == Enter(s, id, phase) && TxOk(b, id, Tx(tx.job, phase))
  {
    hide TopN, Blocked;
    phase := Next(s, step, 1).txs[id].phase;
    if step.Pick? && tx.job.Hit? {
      assert Spares(b, id, tx.job.at, phase.del);
    } else {
      hide Spares;
      assert step.Pick? ==> Elems(step.keep) == {};
    }
  }

  lemma AbortMidway(s: State, b: State, id: Id)
    requires Midway(s, b) && Enabled(s, Abort(id), 1)
    ensures Midway(Next(s, Abort(id), 1), b)
  {
    hide TxOk;
    assert s.txs - {id} == map[];
  }

  lemma SomeTx(s: State, b: State, step: Step) returns (id: Id, tx: Tx)
    requires step.Insert? || step.Pick? || step.Delete? || step.Count? || step.Update?
    requires Midway(s, b) && Enabled(s, step, 1)
    ensures s.txs == map[id := tx] && TxOk(b, id, tx) && b == s.(txs := map[]) && step.id == id
  {
    hide TxOk;
    assert s.txs != map[];
    id, tx :| Alone(s, b, id, tx);
    SameTx(s, id, tx, step);
  }

  lemma EnterMidway(s: State, b: State, id: Id, tx: Tx, phase: Phase)
    requires s.txs == map[id := tx] && b == s.(txs := map[]) && TxOk(b, id, Tx(tx.job, phase))
    ensures Midway(Enter(s, id, phase), b)
  {
    hide TxOk;
    assert Alone(Enter(s, id, phase), b, id, Tx(tx.job, phase));
  }

  lemma AdvanceMidway(s: State, b: State, step: Step)
    requires step.Insert? || step.Pick? || step.Delete? || step.Count? || step.Update?
    requires Midway(s, b) && Enabled(s, step, 1)
    ensures Midway(Next(s, step, 1), b)
  {
    hide Midway, Next, Enabled, TxOk;
    var id, tx := SomeTx(s, b, step);
    var phase := AdvanceOk(s, b, id, tx, step);
    EnterMidway(s, b, id, tx, phase);
  }

  /** A step that does not commit. */
  lemma StepOnTheWay(s: State, b: State, step: Step)
    requires Midway(s, b) && Enabled(s, step, 1) && !step.Drop? && !step.Commit?
    ensures Midway(Next(s, step, 1), b)
  {
    hide Midway, Next, Enabled;
    match step
    case Begin(_, _) => BeginMidway(s, b, step);
    case Abort(id) => AbortMidway(s, b, id);
    case _ => AdvanceMidway(s, b, step);
  }

  lemma CommitIsWhole(s: State, b: State, step: Step) returns (w: Whole)
    requires Midway(s, b) && Enabled(s, step, 1) && step.Commit?
    ensures Fits(b, w) && Next(s, step, 1) == Result(b, w)
  {
    hide TopN, Blocked, Restrict;
    var id, tx :| Alone(s, b, id, tx);
    SameTx(s, id, tx, step);
    assert s.txs - {id} == map[];
    match tx.job {
      case Hit(at) =>
        var keep :| TopN(b.hits[id := at], MAX_HITS_PER_BIN, keep)
                    && tx.phase.del == b.hits[id := at].Keys - Elems(keep);
        DropOthers(b.hits[id := at], Elems(keep));
        w := Stored(id, at, keep);
      case Clear =>
        assert b.hits - b.hits.Keys == map[];
        w := Emptied;
    }
  }

  lemma {:induction false} RunIsSerial(s: State, b: State, steps: seq<Step>) returns (ws: seq<Whole>)
    requires Midway(s, b) && Possible(Bin(1), s, steps) && NoDrop(steps)
    ensures Possible(Serial(), b, ws) && Midway(Run(Bin(1), s, steps), Run(Serial(), b, ws))
    decreases |steps|
  {
    if steps == [] {
      ws := [];
      assert Run(Bin(1), s, steps) == s && Run(Serial(), b, []) == b;
    } else {
      hide Midway, Fits, Result;
      var step := steps[0];
      assert !step.Drop? && NoDrop(steps[1..]);
      var s' := Next(s, step, 1);
      if step.Commit? {
        var w := CommitIsWhole(s, b, step);
        var b' := Result(b, w);
        QuietMidway(b, w);
        var rest := RunIsSerial(s', b', steps[1..]);
        ws := [w] + rest;
        assert ws[1..] == rest;
      } else {
        StepOnTheWay(s, b, step);
        ws := RunIsSerial(s', b, steps[1..]);
      }
    }
  }

  lemma QuietMidway(b: State, w: Whole)
    ensures Midway(Result(b, w), Result(b, w))
  {
  }

  /** A run during which the bin stays, from no transaction in flight to none. */
  ghost predicate QuietRun(s: State, steps: seq<Step>, c: nat) {
    && s.txs == map[] && NoDrop(steps)
    && Possible(Bin(c), s, steps) && Run(Bin(c), s, steps).txs == map[]
  }

  /**
   * Every run of ingests and clears one at a time, from quiet to quiet, whatever aborts on the way,
   * leaves what some sequence of the serial store's transactions leaves.
   */
  lemma AloneIsSerial(s: State, steps: seq<Step>) returns (ws: seq<Whole>)
    requires QuietRun(s, steps, 1)
    ensures Possible(Serial(), s, ws) && Run(Bin(1), s, steps) == Run(Serial(), s, ws)
  {
    assert Midway(s, s);
    ws := RunIsSerial(s, s, steps);
    hide Run, Possible;
  }

  // ----- And the other way round -----

  lemma FreshId(ids: set<Id>) returns (id: Id)
    ensures id !in ids
  {
    var n := Longest(ids);
    id := seq(n + 1, _ => 'a');
  }

  lemma {:induction false} Longest(ids: set<Id>) returns (n: nat)
    ensures forall id :: id in ids ==> |id| <= n
    decreases ids
  {
    if ids == {} {
      n := 0;
    } else {
      var x :| x in ids;
      var m := Longest(ids - {x});
      n := if m > |x| then m else |x|;
    }
  }

  lemma StoredIsRun(b: State, id: Id, at: int, keep: seq<Id>) returns (steps: seq<Step>)
    requires Fits(b, Stored(id, at, keep))
    ensures Possible(Bin(1), b, steps) && NoDrop(steps)
    ensures Run(Bin(1), b, steps) == Result(b, Stored(id, at, keep))
  {
    hide TopN, Run, Possible, Restrict, Elems;
    var x := Looks(b, id, at, keep, 1);
    var s1 := Run(Bin(1), b, x);
    assert s1.txs == map[id := Tx(Hit(at), Picked(b.hits[id := at].Keys - Elems(keep)))];
    var y := PickedIsRun(s1, id, at, Elems(keep));
    Append(Bin(1), b, x, y);
    steps := x + y;
  }

  lemma PickedIsRun(s: State, id: Id, at: int, keep: set<Id>) returns (steps: seq<Step>)
    requires s.txs == map[id := Tx(Hit(at), Picked(s.hits[id := at].Keys - keep))]
    ensures Possible(Bin(1), s, steps) && NoDrop(steps)
    ensures var kept := Restrict(s.hits[id := at], keep);
      Run(Bin(1), s, steps) == State(kept, |kept.Keys|, Some(at), map[])
  {
    hide Run, Possible, Restrict, Blocked;
    AloneReady(s, id);
    hide Ready;
    steps := Finishes(s, id, 1);
    DropOthers(s.hits[id := at], keep);
    assert s.txs - {id} == map[];
  }

  lemma AloneReady(s: State, id: Id)
    requires s.txs.Keys == {id} && s.txs[id].phase.Picked? && s.txs[id].job.Hit?
    ensures Ready(s, id)
  {
  }

  /** A bin with one clear on its way. */
  function Clearing(b: State, id: Id, phase: Phase): State {
    b.(txs := map[id := Tx(Clear, phase)])
  }

  lemma ClearPicks(b: State, id: Id) returns (steps: seq<Step>)
    requires b.txs == map[] && id !in b.hits
    ensures Possible(Bin(1), b, steps) && NoDrop(steps)
    ensures Run(Bin(1), b, steps) == Clearing(b, id, Picked(b.hits.Keys))
  {
    hide Run, Possible;
    Nothing(Bin(1), b);
    var s1 := Clearing(b, id, Begun);
    assert Next(b, Begin(id, Clear), 1) == s1;
    Then(b, [], b, Begin(id, Clear), 1);
    steps := [] + [Begin(id, Clear)];
    assert Elems<Id>([]) == {} && b.hits.Keys - {} == b.hits.Keys;
    assert Next(s1, Pick(id, []), 1).txs == map[id := Tx(Clear, Picked(b.hits.Keys))];
    Then(b, steps, s1, Pick(id, []), 1);
    steps := steps + [Pick(id, [])];
  }

  lemma ClearEnds(b: State, id: Id) returns (steps: seq<Step>)
    requires b.txs == map[] && id !in b.hits
    ensures Possible(Bin(1), Clearing(b, id, Picked(b.hits.Keys)), steps) && NoDrop(steps)
    ensures Run(Bin(1), Clearing(b, id, Picked(b.hits.Keys)), steps) == Result(b, Emptied)
  {
    var all := b.hits.Keys;
    var s0, s1, s2 := Clearing(b, id, Picked(all)), Clearing(b, id, Deleted(all)), Clearing(b, id, Updated(all, 0));
    assert !Blocked(s0, id);
    hide Run, Possible, Blocked;
    Nothing(Bin(1), s0);
    assert Next(s0, Delete(id), 1).txs == s1.txs;
    Then(s0, [], s0, Delete(id), 1);
    steps := [] + [Delete(id)];
    assert Next(s1, Update(id), 1).txs == s2.txs;
    Then(s0, steps, s1, Update(id), 1);
    steps := steps + [Update(id)];
    assert s2.txs - {id} == map[] && b.hits - all == map[];
    Then(s0, steps, s2, Commit(id), 1);
    steps := steps + [Commit(id)];
  }

  lemma EmptiedIsRun(b: State) returns (steps: seq<Step>)
    requires b.txs == map[]
    ensures Possible(Bin(1), b, steps) && NoDrop(steps)
    ensures Run(Bin(1), b, steps) == Result(b, Emptied)
  {
    hide Run, Possible, Clearing, Result;
    var id := FreshId(b.hits.Keys);
    var x := ClearPicks(b, id);
    var y := ClearEnds(b, id);
    Append(Bin(1), b, x, y);
    steps := x + y;
  }

  /** Every sequence of the serial store's transactions is a run of one transaction at a time. */
  lemma {:induction false} SerialIsAlone(s: State, ws: seq<Whole>) returns (steps: seq<Step>)
    requires s.txs == map[] && Possible(Serial(), s, ws)
    ensures Possible(Bin(1), s, steps) && NoDrop(steps)
    ensures Run(Bin(1), s, steps) == Run(Serial(), s, ws)
    decreases |ws|
  {
    if ws == [] {
      steps := [];
      assert Run(Serial(), s, ws) == s && Run(Bin(1), s, steps) == s;
    } else {
      var w := ws[0];
      var x: seq<Step>;
      if w.Stored? {
        x := StoredIsRun(s, w.id, w.at, w.keep);
      } else {
        x := EmptiedIsRun(s);
      }
      var y := SerialIsAlone(Result(s, w), ws[1..]);
      hide Fits, Result;
      Append(Bin(1), s, x, y);
      steps := x + y;
    }
  }

  // ----- When hit_count is the number of hits -----

  ghost predicate Exact(s: State) {
    s.hitCount == |s.hits.Keys|
  }

  /** From every quiet state with an exact count, whenever the bin is quiet again its count is exact. */
  ghost predicate CountStaysExact(c: nat) {
    forall s: State, steps: seq<Step> :: QuietRun(s, steps, c) && Exact(s) ==> Exact(Run(Bin(c), s, steps))
  }

  lemma MoreInFlight(s: State, steps: seq<Step>, c: nat, d: nat)
    requires c <= d && Possible(Bin(c), s, steps)
    ensures Possible(Bin(d), s, steps) && Run(Bin(d), s, steps) == Run(Bin(c), s, steps)
  {
    hide TopN, Blocked;
    MoreEnabled(Bin(c), Bin(d), s, steps);
  }

  lemma SerialIsExact(s: State, ws: seq<Whole>)
    requires Exact(s) && Possible(Serial(), s, ws)
    ensures Exact(Run(Serial(), s, ws))
  {
    Keeps(Serial(), (x: State) => Exact(x), s, ws);
  }

  lemma AloneStaysExact(s: State, steps: seq<Step>, c: nat)
    requires c <= 1 && QuietRun(s, steps, c) && Exact(s)
    ensures Exact(Run(Bin(c), s, steps))
  {
    hide Exact;
    MoreInFlight(s, steps, c, 1);
    var ws := AloneIsSerial(s, steps);
    SerialIsExact(s, ws);
  }

  lemma NothingToDrop(id: Id, now: int)
    ensures map[id := now].Keys - Elems([id]) == {}
  {
    assert id in [id];
  }

  /** a and b pick nothing to delete; a counts; b runs to its end; then a writes its old count. */
  lemma HitCountDrifts(a: Id, b: Id, now: int) returns (steps: seq<Step>)
    requires a != b
    ensures Possible(Bin(2), State(map[], 0, None, map[]), steps) && NoDrop(steps)
    ensures Run(Bin(2), State(map[], 0, None, map[]), steps) == State(map[a := now, b := now], 1, Some(now), map[])
  {
    var s := State(map[], 0, None, map[]);
    assert TopN(map[a := now], MAX_HITS_PER_BIN, [a]) && TopN(map[b := now], MAX_HITS_PER_BIN, [b]);
    hide TopN, Run, Possible;
    NothingToDrop(a, now);
    NothingToDrop(b, now);
    var x := Looks(s, a, now, [a], 2);
    var s1 := Run(Bin(2), s, x);
    var y := Looks(s1, b, now, [b], 2);
    Append(Bin(2), s, x, y);
    var s2 := Run(Bin(2), s, x + y);
    assert s2.txs == map[a := Tx(Hit(now), Picked({})), b := Tx(Hit(now), Picked({}))];
    var z := StaleCount(s2, a, b, now);
    Append(Bin(2), s, x + y, z);
    steps := x + y + z;
  }

  lemma StaleCount(s: State, a: Id, b: Id, now: int) returns (steps: seq<Step>)
    requires a != b && s.hits == map[]
    requires s.txs == map[a := Tx(Hit(now), Picked({})), b := Tx(Hit(now), Picked({}))]
    ensures Possible(Bin(2), s, steps) && NoDrop(steps)
    ensures Run(Bin(2), s, steps) == State(map[a := now, b := now], 1, Some(now), map[])
  {
    hide TopN, Run, Possible;
    assert Ready(s, a);
    var x := Counts(s, a, 2);
    var s1 := Run(Bin(2), s, x);
    assert Visible(s, a).Keys - {} == {a};
    assert s1.txs == map[a := Tx(Hit(now), Counted({}, 1)), b := Tx(Hit(now), Picked({}))];
    hide Ready, Blocked;
    var y := LateWrite(s1, a, b, now);
    Append(Bin(2), s, x, y);
    steps := x + y;
  }

  lemma OtherCounted(s: State, a: Id, b: Id, now: int)
    requires s.hits == map[] && a != b
    requires s.txs == map[a := Tx(Hit(now), Counted({}, 1)), b := Tx(Hit(now), Picked({}))]
    ensures Ready(s, b)
  {
  }

  lemma LateWrite(s: State, a: Id, b: Id, now: int) returns (steps: seq<Step>)
    requires a != b && s.hits == map[]
    requires s.txs == map[a := Tx(Hit(now), Counted({}, 1)), b := Tx(Hit(now), Picked({}))]
    ensures Possible(Bin(2), s, steps) && NoDrop(steps)
    ensures Run(Bin(2), s, steps) == State(map[a := now, b := now], 1, Some(now), map[])
  {
    hide TopN, Run, Possible;
    OtherCounted(s, a, b, now);
    hide Ready, Blocked;
    var y := Finishes(s, b, 2);
    var s2 := Run(Bin(2), s, y);
    assert s2.hits == map[b := now];
    assert s2.txs == map[a := Tx(Hit(now), Counted({}, 1))];
    assert s2.hits[a := now] == map[a := now, b := now];
    hide Visible, Enter;
    var z := LastWrite(s2, a, now);
    Append(Bin(2), s, y, z);
    steps := y + z;
  }

  lemma LastWrite(s: State, a: Id, now: int) returns (steps: seq<Step>)
    requires s.txs == map[a := Tx(Hit(now), Counted({}, 1))]
    ensures Possible(Bin(2), s, steps) && NoDrop(steps)
    ensures Run(Bin(2), s, steps) == State(s.hits[a := now], 1, Some(now), map[])
  {
    hide Run, Possible;
    steps := Commits(s, a, 2);
    assert s.hits[a := now] - {} == s.hits[a := now];
    assert s.txs - {a} == map[];
  }

  /** hit_count stays the number of hits exactly when no two transactions on the bin may overlap. */
  lemma CountExactIffAlone(c: nat)
    ensures CountStaysExact(c) <==> c <= 1
  {
    if c <= 1 {
      forall s: State, steps: seq<Step> | QuietRun(s, steps, c) && Exact(s)
        ensures Exact(Run(Bin(c), s, steps))
      {
        AloneStaysExact(s, steps, c);
      }
    } else {
      var s := State(map[], 0, None, map[]);
      var steps := HitCountDrifts("a", "b", 0);
      MoreInFlight(s, steps, 2, c);
      assert QuietRun(s, steps, c);
      assert map["a" := 0, "b" := 0].Keys == {"a", "b"};
    }
  }
}
