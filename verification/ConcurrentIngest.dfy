/**
 * Concurrent transactions on one bin, statement by statement, at Postgres Read Committed: Ingest and
 * ClearHits. Each statement sees the committed hits and its own, and deletions take effect at commit.
 * A transaction is named by an id of its own, an ingest by the hit it inserts.
 */
module ConcurrentIngest {
  import opened Prelude
  import opened NewestFirst
  import opened Limits
  import opened Runs
  import opened CheckThenAct

  datatype Job = Hit(at: int) | Clear

  /** Picked: the DELETE has chosen its rows and waits for their locks; Deleted: it holds them. */
  datatype Phase =
    | Begun
    | Inserted
    | Picked(del: set<Id>)
    | Deleted(del: set<Id>)
    | Counted(del: set<Id>, count: nat)
    | Updated(del: set<Id>, count: nat)

  datatype Tx = Tx(job: Job, phase: Phase)

  /** hits, hitCount and lastHitAt are the committed rows of the bin. */
  datatype State = State(hits: map<Id, int>, hitCount: nat, lastHitAt: Option<int>, txs: map<Id, Tx>)

  /** Drop is any other committed deletion of hits: the bin is deleted or expires. */
  datatype Step =
    | Begin(id: Id, job: Job)
    | Insert(id: Id)
    | Pick(id: Id, keep: seq<Id>)
    | Delete(id: Id)
    | Count(id: Id)
    | Update(id: Id)
    | Commit(id: Id)
    | Abort(id: Id)
    | Drop(gone: set<Id>)

  function Visible(s: State, id: Id): map<Id, int>
    requires id in s.txs
  {
    match s.txs[id].job
    case Hit(at) => s.hits[id := at]
    case Clear => s.hits
  }

  predicate Looked(p: Phase) {
    p.Picked? || p.Deleted? || p.Counted? || p.Updated?
  }

  /** Another transaction has deleted a row that id wants to delete, and has not ended. */
  ghost predicate Blocked(s: State, id: Id)
    requires id in s.txs && s.txs[id].phase.Picked?
  {
    exists t, h ::
      && t in s.txs && t != id && Looked(s.txs[t].phase) && !s.txs[t].phase.Picked?
      && h in s.hits && h in s.txs[t].phase.del && h in s.txs[id].phase.del
  }

  /** A deleted row stays locked to the end of its transaction, and so does the bin row once updated. */
  ghost predicate Enabled(s: State, step: Step, c: nat) {
    match step
    case Begin(id, _) => id !in s.hits && id !in s.txs && |s.txs| < c
    case Insert(id) => id in s.txs && s.txs[id] == Tx(s.txs[id].job, Begun) && s.txs[id].job.Hit?
    case Pick(id, keep) =>
      && id in s.txs
      && (match s.txs[id].job
          case Hit(_) => s.txs[id].phase.Inserted? && TopN(Visible(s, id), MAX_HITS_PER_BIN, keep)
          case Clear => s.txs[id].phase.Begun? && keep == [])
    case Delete(id) => id in s.txs && s.txs[id].phase.Picked? && !Blocked(s, id)
    case Count(id) => id in s.txs && s.txs[id].phase.Deleted? && s.txs[id].job.Hit?
    case Update(id) =>
      && id in s.txs
      && (if s.txs[id].job.Hit? then s.txs[id].phase.Counted? else s.txs[id].phase.Deleted?)
      && forall t :: t in s.txs ==> !s.txs[t].phase.Updated?
    case Commit(id) => id in s.txs && s.txs[id].phase.Updated?
    case Abort(id) => id in s.txs
    case Drop(_) => true
  }

  function Enter(s: State, id: Id, phase: Phase): State
    requires id in s.txs
  {
    s.(txs := s.txs[id := s.txs[id].(phase := phase)])
  }

  function Latest(job: Job): Option<int> {
    match job
    case Hit(at) => Some(at)
    case Clear => None
  }

  ghost function Next(s: State, step: Step, c: nat): State
    requires Enabled(s, step, c)
  {
    match step
    case Begin(id, job) => s.(txs := s.txs[id := Tx(job, Begun)])
    case Insert(id) => Enter(s, id, Inserted)
    case Pick(id, keep) => Enter(s, id, Picked(Visible(s, id).Keys - Elems(keep)))
    case Delete(id) => Enter(s, id, Deleted(s.txs[id].phase.del))
    case Count(id) =>
      var del := s.txs[id].phase.del;
      Enter(s, id, Counted(del, |Visible(s, id).Keys - del|))
    case Update(id) =>
      var phase := s.txs[id].phase;
      Enter(s, id, Updated(phase.del, if phase.Counted? then phase.count else 0))
    case Commit(id) =>
      var phase := s.txs[id].phase;
      State(Visible(s, id) - phase.del, phase.count, Latest(s.txs[id].job), s.txs - {id})
    case Abort(id) => s.(txs := s.txs - {id})
    case Drop(gone) => s.(hits := s.hits - gone)
  }

  /** At most c transactions in flight. */
  ghost function Bin(c: nat): Machine<State, Step> {
    Machine((s: State, step: Step) => Enabled(s, step, c),
            (s: State, step: Step) => if Enabled(s, step, c) then Next(s, step, c) else s)
  }

  predicate NoDrop(steps: seq<Step>) {
    forall i :: 0 <= i < |steps| ==> !steps[i].Drop?
  }

  function Arrival(step: Step): seq<int> {
    if step.Begin? && step.job.Hit? then [step.job.at] else []
  }

  /** The times of the ingests that begin, in the order in which they begin. */
  function Arrivals(steps: seq<Step>): seq<int> {
    if steps == [] then [] else Arrival(steps[0]) + Arrivals(steps[1..])
  }

  /**
   * The locks: a DELETE waits for every row that another open transaction has deleted and that is still
   * there, and an UPDATE of the bin row for every other open transaction that has updated it.
   */
  lemma LocksAre(s: State, id: Id, c: nat)
    requires id in s.txs
    ensures Enabled(s, Delete(id), c) <==>
      && s.txs[id].phase.Picked?
      && forall t, h :: t in s.txs && t != id && h in s.hits && h in s.txs[id].phase.del ==>
           (s.txs[t].phase.Deleted? || s.txs[t].phase.Counted? || s.txs[t].phase.Updated? ==>
              h !in s.txs[t].phase.del)
    ensures Enabled(s, Update(id), c) ==> forall t :: t in s.txs ==> !s.txs[t].phase.Updated?
  {
  }

  // ----- The bound -----

  ghost predicate TxMatch(tx: Tx, look: Option<Look>) {
    && (look.Some? <==> tx.job.Hit? && Looked(tx.phase))
    && (look.Some? ==> look.value.del == tx.phase.del)
  }

  ghost predicate Shape(s: State, f: Flight) {
    && f.rows == s.hits.Keys
    && f.open.Keys == s.txs.Keys
    && (forall t :: t in s.txs ==> TxMatch(s.txs[t], f.open[t]))
  }

  predicate CountOk(phase: Phase, c: nat) {
    phase.Counted? || phase.Updated? ==> phase.count <= MAX_HITS_PER_BIN + c - 1
  }

  ghost predicate CountsOk(s: State, c: nat) {
    && s.hitCount <= MAX_HITS_PER_BIN + c - 1
    && (forall t :: t in s.txs ==> CountOk(s.txs[t].phase, c))
  }

  ghost predicate Mirrors(s: State, f: Flight, c: nat) {
    Inv(f, MAX_HITS_PER_BIN, c) && Shape(s, f) && CountsOk(s, c)
  }

  /** A transaction that only moves to another phase. */
  lemma EnterMirrors(s: State, id: Id, phase: Phase, f: Flight, f': Flight, look: Option<Look>, c: nat)
    requires Shape(s, f) && CountsOk(s, c) && id in s.txs
    requires f'.rows == f.rows && f'.open == f.open[id := look]
    requires TxMatch(Tx(s.txs[id].job, phase), look) && CountOk(phase, c)
    ensures Shape(Enter(s, id, phase), f') && CountsOk(Enter(s, id, phase), c)
  {
    hide TxMatch, CountOk;
  }

  lemma StayMirrors(s: State, id: Id, phase: Phase, f: Flight, c: nat)
    requires Shape(s, f) && CountsOk(s, c) && id in s.txs
    requires TxMatch(Tx(s.txs[id].job, phase), f.open[id]) && CountOk(phase, c)
    ensures Shape(Enter(s, id, phase), f) && CountsOk(Enter(s, id, phase), c)
  {
    assert f.open[id := f.open[id]] == f.open;
    EnterMirrors(s, id, phase, f, f, f.open[id], c);
  }

  lemma SimulateBegin(s: State, id: Id, job: Job, f: Flight, c: nat)
    requires Mirrors(s, f, c) && Enabled(s, Begin(id, job), c)
    ensures Mirrors(Next(s, Begin(id, job), c), CheckThenAct.Begin(f, id), c)
  {
    hide Inv;
    assert |s.txs.Keys| == |s.txs| && |f.open.Keys| == |f.open|;
    BeginInv(f, id, MAX_HITS_PER_BIN, c);
  }

  lemma KeepSize(times: map<Id, int>, n: nat, keep: seq<Id>)
    requires TopN(times, n, keep)
    ensures |Elems(keep)| <= n
  {
    DistinctSize(keep);
  }

  lemma PickLooks(s: State, id: Id, keep: seq<Id>, f: Flight, c: nat)
    requires Mirrors(s, f, c) && Enabled(s, Pick(id, keep), c) && s.txs[id].job.Hit?
    ensures id in f.open && Inv(LookAt(f, id, Elems(keep), Visible(s, id).Keys - Elems(keep)), MAX_HITS_PER_BIN, c)
  {
    KeepSize(Visible(s, id), MAX_HITS_PER_BIN, keep);
    assert TxMatch(s.txs[id], f.open[id]);
    assert Visible(s, id).Keys == f.rows + {id};
    hide Inv, TopN, CountsOk, Shape;
    LookInv(f, id, Elems(keep), Visible(s, id).Keys - Elems(keep), MAX_HITS_PER_BIN, c);
  }

  lemma SimulatePick(s: State, id: Id, keep: seq<Id>, f: Flight, c: nat)
    requires Mirrors(s, f, c) && Enabled(s, Pick(id, keep), c) && s.txs[id].job.Hit?
    ensures Mirrors(Next(s, Pick(id, keep), c), LookAt(f, id, Elems(keep), Visible(s, id).Keys - Elems(keep)), c)
  {
    hide Inv, TopN, CountsOk, Shape, Elems, Visible;
    PickLooks(s, id, keep, f, c);
    var del := Visible(s, id).Keys - Elems(keep);
    var f' := LookAt(f, id, Elems(keep), del);
    EnterMirrors(s, id, Picked(del), f, f', f'.open[id], c);
  }

  lemma SimulateClear(s: State, id: Id, keep: seq<Id>, f: Flight, c: nat)
    requires Mirrors(s, f, c) && Enabled(s, Pick(id, keep), c) && s.txs[id].job.Clear?
    ensures Mirrors(Next(s, Pick(id, keep), c), f, c)
  {
    assert TxMatch(s.txs[id], f.open[id]);
    hide Inv, TopN, CountsOk, Shape, Elems, Visible;
    StayMirrors(s, id, Picked(Visible(s, id).Keys - Elems(keep)), f, c);
  }

  lemma SimulateCount(s: State, id: Id, f: Flight, c: nat)
    requires Mirrors(s, f, c) && Enabled(s, Count(id), c)
    ensures Mirrors(Next(s, Count(id), c), f, c)
  {
    hide Inv, CountsOk;
    assert TxMatch(s.txs[id], f.open[id]);
    ViewBound(f, id, MAX_HITS_PER_BIN, c);
    assert Visible(s, id).Keys == f.rows + {id};
    var del := s.txs[id].phase.del;
    hide Shape;
    StayMirrors(s, id, Counted(del, |Visible(s, id).Keys - del|), f, c);
  }

  lemma SimulateQuiet(s: State, step: Step, f: Flight, c: nat)
    requires Mirrors(s, f, c) && Enabled(s, step, c) && (step.Insert? || step.Delete? || step.Update?)
    ensures Mirrors(Next(s, step, c), f, c)
  {
    hide Inv;
    var id := step.id;
    assert TxMatch(s.txs[id], f.open[id]) && CountOk(s.txs[id].phase, c);
    hide Shape, CountsOk, Blocked;
    var phase := s.txs[id].phase;
    match step
    case Insert(_) => StayMirrors(s, id, Inserted, f, c);
    case Delete(_) => StayMirrors(s, id, Deleted(phase.del), f, c);
    case Update(_) => StayMirrors(s, id, Updated(phase.del, if phase.Counted? then phase.count else 0), f, c);
  }

  lemma CommitShape(s: State, id: Id, f: Flight, f': Flight, c: nat)
    requires Shape(s, f) && Enabled(s, Commit(id), c)
    requires f'.open == f.open - {id}
    requires f'.rows == f.rows + (if s.txs[id].job.Hit? then {id} else {}) - s.txs[id].phase.del
    ensures Shape(Next(s, Commit(id), c), f')
  {
    hide TxMatch;
    assert Next(s, Commit(id), c).hits.Keys == f'.rows;
  }

  lemma CommitCounts(s: State, id: Id, c: nat)
    requires CountsOk(s, c) && Enabled(s, Commit(id), c)
    ensures CountsOk(Next(s, Commit(id), c), c)
  {
    assert CountOk(s.txs[id].phase, c);
    hide CountOk;
  }

  lemma SimulateCommit(s: State, id: Id, f: Flight, c: nat) returns (f': Flight)
    requires Mirrors(s, f, c) && Enabled(s, Commit(id), c)
    ensures Mirrors(Next(s, Commit(id), c), f', c)
  {
    assert TxMatch(s.txs[id], f.open[id]);
    hide Inv, Shape, CountsOk, Next;
    CommitCounts(s, id, c);
    var del := s.txs[id].phase.del;
    if s.txs[id].job.Hit? {
      ActInv(f, id, MAX_HITS_PER_BIN, c);
      f' := Act(f, id);
    } else {
      LeaveInv(f, id, MAX_HITS_PER_BIN, c);
      RemoveInv(Leave(f, id), del, MAX_HITS_PER_BIN, c);
      f' := Remove(Leave(f, id), del);
    }
    CommitShape(s, id, f, f', c);
  }

  lemma SimulateLeave(s: State, id: Id, f: Flight, c: nat)
    requires Mirrors(s, f, c) && Enabled(s, Abort(id), c)
    ensures Mirrors(Next(s, Abort(id), c), Leave(f, id), c)
  {
    hide Inv, TxMatch, CountOk;
    LeaveInv(f, id, MAX_HITS_PER_BIN, c);
  }

  lemma SimulateDrop(s: State, gone: set<Id>, f: Flight, c: nat)
    requires Mirrors(s, f, c)
    ensures Mirrors(Next(s, Drop(gone), c), Remove(f, gone), c)
  {
    hide Inv, TxMatch, CountOk;
    RemoveInv(f, gone, MAX_HITS_PER_BIN, c);
  }

  /** Every step is one of the race, or none. */
  lemma Simulate(s: State, step: Step, f: Flight, c: nat) returns (f': Flight)
    requires Mirrors(s, f, c) && Enabled(s, step, c)
    ensures Mirrors(Next(s, step, c), f', c)
  {
    hide Mirrors, Next, TopN;
    match step
    case Begin(id, job) => SimulateBegin(s, id, job, f, c); f' := CheckThenAct.Begin(f, id);
    case Pick(id, keep) =>
      if s.txs[id].job.Hit? {
        SimulatePick(s, id, keep, f, c);
        f' := LookAt(f, id, Elems(keep), Visible(s, id).Keys - Elems(keep));
      } else {
        SimulateClear(s, id, keep, f, c);
        f' := f;
      }
    case Count(id) => SimulateCount(s, id, f, c); f' := f;
    case Commit(id) => f' := SimulateCommit(s, id, f, c);
    case Abort(id) => SimulateLeave(s, id, f, c); f' := Leave(f, id);
    case Drop(gone) => SimulateDrop(s, gone, f, c); f' := Remove(f, gone);
    case _ => SimulateQuiet(s, step, f, c); f' := f;
  }

  ghost predicate Mirrored(s: State, c: nat) {
    exists f :: Mirrors(s, f, c)
  }

  lemma StepMirrored(s: State, step: Step, c: nat)
    requires Mirrored(s, c) && Enabled(s, step, c)
    ensures Mirrored(Next(s, step, c), c)
  {
    hide Mirrors, Next, Enabled;
    var f :| Mirrors(s, f, c);
    var f' := Simulate(s, step, f, c);
  }

  /**
   * With at most c transactions in flight, a bin within its cap is never more than c - 1 committed
   * hits over it, and neither is the hit_count it shows, whatever the interleaving.
   */
  lemma CommittedHitsBound(s: State, steps: seq<Step>, c: nat)
    requires c >= 1 && s.txs == map[]
    requires |s.hits.Keys| <= MAX_HITS_PER_BIN && s.hitCount <= MAX_HITS_PER_BIN
    requires Possible(Bin(c), s, steps)
    ensures |Run(Bin(c), s, steps).hits.Keys| <= MAX_HITS_PER_BIN + c - 1
    ensures Run(Bin(c), s, steps).hitCount <= MAX_HITS_PER_BIN + c - 1
  {
    StartInv(s.hits.Keys, MAX_HITS_PER_BIN, c);
    assert Mirrors(s, Start(s.hits.Keys), c);
    hide Mirrors;
    var m, inv := Bin(c), (x: State) => Mirrored(x, c);
    forall x, t | inv(x) && m.enabled(x, t) ensures inv(m.next(x, t)) {
      StepMirrored(x, t, c);
    }
    Keeps(m, inv, s, steps);
    var f :| Mirrors(Run(Bin(c), s, steps), f, c);
    MirrorsBound(Run(Bin(c), s, steps), f, c);
  }

  lemma MirrorsBound(s: State, f: Flight, c: nat)
    requires Mirrors(s, f, c)
    ensures |s.hits.Keys| <= MAX_HITS_PER_BIN + c - 1 && s.hitCount <= MAX_HITS_PER_BIN + c - 1
  {
    Bound(f, MAX_HITS_PER_BIN, c);
  }
}
