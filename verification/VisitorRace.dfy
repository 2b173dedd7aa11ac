/** Many concurrent track calls, command by command; statements fail only on a duplicate key. */
module VisitorRace {
  import opened Prelude
  import opened Runs
  import opened Fingerprint
  import VisitorSpec

  datatype Phase = Started | Inserting | Updating | Finished

  datatype Call = Call(rec: Record, phase: Phase)

  /** A statement that changed a row, and the call it belongs to. */
  datatype Touch = Touch(call: nat, rec: Record, now: int)

  /**
   * calls: every call ever begun, by a name of its own; touches: what changed the rows, in order;
   * lost: the calls whose UPDATE found no row.
   */
  datatype State = State(
    rows: map<string, VisitorSpec.Row>, flags: set<string>, calls: map<nat, Call>,
    touches: seq<Touch>, lost: set<nat>)

  const INITIAL := State(map[], {}, map[], [], {})

  /** A SETNX is answered, or fails having taken effect or not; without an answer the call inserts. */
  datatype Step =
    | Begin(call: nat, rec: Record)
    | SetNx(call: nat, answered: bool, effect: bool)
    | Insert(call: nat, now: int)
    | Update(call: nat, now: int)
    | LoseFlags(flags: set<string>)

  function FpOf(rec: Record): string {
    Key(Normalise(rec))
  }

  predicate Enabled(s: State, step: Step) {
    match step
    case Begin(call, rec) => call !in s.calls && Accepts(rec)
    case SetNx(call, answered, effect) => call in s.calls && s.calls[call].phase == Started && (answered ==> effect)
    case Insert(call, _) => call in s.calls && s.calls[call].phase == Inserting
    case Update(call, _) => call in s.calls && s.calls[call].phase == Updating
    case LoseFlags(_) => true
  }

  function Enter(s: State, call: nat, phase: Phase): State
    requires call in s.calls
  {
    s.(calls := s.calls[call := s.calls[call].(phase := phase)])
  }

  /** The call changes its row and is done. */
  function TouchRow(s: State, call: nat, row: VisitorSpec.Row, now: int): State
    requires call in s.calls
  {
    var rec := s.calls[call].rec;
    Enter(s.(rows := s.rows[FpOf(rec) := row], touches := s.touches + [Touch(call, rec, now)]), call, Finished)
  }

  function Next(s: State, step: Step): State
    requires Enabled(s, step)
  {
    match step
    case Begin(call, rec) => s.(calls := s.calls[call := Call(rec, Started)])
    case SetNx(call, answered, effect) =>
      var fp := FpOf(s.calls[call].rec);
      if answered && fp in s.flags then Enter(s, call, Updating)
      else Enter(if effect then s.(flags := s.flags + {fp}) else s, call, Inserting)
    case Insert(call, now) =>
      var rec := s.calls[call].rec;
      if FpOf(rec) in s.rows then Enter(s, call, Updating)
      else TouchRow(s, call, VisitorSpec.NewRow(Normalise(rec), now), now)
    case Update(call, now) =>
      var rec := s.calls[call].rec;
      if FpOf(rec) in s.rows then TouchRow(s, call, VisitorSpec.Seen(s.rows[FpOf(rec)], Normalise(rec), now), now)
      else Enter(s.(lost := s.lost + {call}), call, Finished)
    case LoseFlags(flags) => s.(flags := s.flags - flags)
  }

  ghost function Tracker(): Machine<State, Step> {
    Machine((s: State, step: Step) => Enabled(s, step),
            (s: State, step: Step) => if Enabled(s, step) then Next(s, step) else s)
  }

  // ----- Which rows exist -----

  ghost predicate RowComing(s: State, fp: string) {
    fp in s.rows || exists c :: c in s.calls && s.calls[c].phase == Inserting && FpOf(s.calls[c].rec) == fp
  }

  /** A flag, or a call past its SETNX, means the row exists or somebody is about to insert it. */
  ghost predicate Inv(s: State) {
    && (forall fp :: fp in s.flags ==> RowComing(s, fp))
    && (forall c :: c in s.calls && s.calls[c].phase != Started ==> RowComing(s, FpOf(s.calls[c].rec)))
    && (forall fp :: fp in s.rows ==> exists c :: c in s.calls && FpOf(s.calls[c].rec) == fp)
  }

  lemma StaysComing(s: State, step: Step, fp: string)
    requires Enabled(s, step) && RowComing(s, fp)
    ensures RowComing(Next(s, step), fp)
  {
    hide FpOf;
    if fp !in s.rows {
      var c :| c in s.calls && s.calls[c].phase == Inserting && FpOf(s.calls[c].rec) == fp;
      assert !(step.Insert? && step.call == c) ==> Next(s, step).calls[c] == s.calls[c];
    }
  }

  lemma StepInv(s: State, step: Step)
    requires Inv(s) && Enabled(s, step)
    ensures Inv(Next(s, step))
  {
    hide FpOf, Accepts;
    var s' := Next(s, step);
    forall fp | RowComing(s, fp) ensures RowComing(s', fp) {
      StaysComing(s, step, fp);
    }
    forall c | c in s'.calls && s'.calls[c].phase != Started ensures RowComing(s', FpOf(s'.calls[c].rec)) {
      assert c in s.calls && s'.calls[c].rec == s.calls[c].rec;
    }
    forall fp | fp in s'.flags ensures RowComing(s', fp) {
      if fp !in s.flags { assert s'.calls[step.call].phase == Inserting; }
    }
    forall fp | fp in s'.rows ensures exists c :: c in s'.calls && FpOf(s'.calls[c].rec) == fp {
      if fp in s.rows {
        var c :| c in s.calls && FpOf(s.calls[c].rec) == fp;
        assert s'.calls[c].rec == s.calls[c].rec;
      } else {
        assert FpOf(s'.calls[step.call].rec) == fp;
      }
    }
  }

  lemma RunInv(steps: seq<Step>)
    requires Possible(Tracker(), INITIAL, steps)
    ensures Inv(Run(Tracker(), INITIAL, steps))
  {
    var m, inv := Tracker(), (x: State) => Inv(x);
    forall x, t | inv(x) && m.enabled(x, t) ensures inv(m.next(x, t)) {
      StepInv(x, t);
    }
    Keeps(m, inv, INITIAL, steps);
  }

  /** Once all calls have finished, the rows are exactly the tracked fingerprints. */
  lemma Converges(steps: seq<Step>)
    requires Possible(Tracker(), INITIAL, steps)
    requires var s := Run(Tracker(), INITIAL, steps); forall c :: c in s.calls ==> s.calls[c].phase == Finished
    ensures var s := Run(Tracker(), INITIAL, steps);
      && s.rows.Keys == (set c | c in s.calls :: FpOf(s.calls[c].rec))
      && s.flags <= s.rows.Keys
  {
    RunInv(steps);
    hide FpOf;
  }

  /** At any moment of any interleaving: a flag without a row is the work of a call about to insert. */
  lemma FlagImpliesRowComing(steps: seq<Step>, fp: string)
    requires Possible(Tracker(), INITIAL, steps)
    requires fp in Run(Tracker(), INITIAL, steps).flags
    ensures RowComing(Run(Tracker(), INITIAL, steps), fp)
  {
    RunInv(steps);
  }

  // ----- What the rows show -----

  /** A touch as a serial call. */
  function EventOf(t: Touch): VisitorSpec.Event {
    VisitorSpec.Event(t.rec, VisitorSpec.Env(t.now, VisitorSpec.NoClient, true, true), {})
  }

  function Events(touches: seq<Touch>): (r: seq<VisitorSpec.Event>) {
    if touches == [] then []
    else Events(touches[..|touches| - 1]) + [EventOf(touches[|touches| - 1])]
  }

  function Touched(touches: seq<Touch>): set<nat> {
    set t | t in touches :: t.call
  }

  ghost predicate TouchesOk(s: State) {
    && (forall i, j :: 0 <= i < j < |s.touches| ==> s.touches[i].call != s.touches[j].call)
    && (forall t :: t in s.touches ==> t.call in s.calls && t.rec == s.calls[t.call].rec)
  }

  /** Every call that has finished either touched its row, once, or was lost. */
  ghost predicate Accounted(s: State) {
    && TouchesOk(s)
    && Touched(s.touches) !! s.lost
    && (forall c :: c in s.calls ==> (s.calls[c].phase == Finished <==> c in Touched(s.touches) + s.lost))
    && s.lost <= s.calls.Keys
  }

  ghost predicate Shows(s: State) {
    forall fp :: VisitorSpec.Summarised(s.rows, fp, VisitorSpec.Of(Events(s.touches), fp))
  }

  /** Field by field. */
  ghost predicate ShowsFields(s: State) {
    forall fp :: fp in s.rows ==>
      var events := VisitorSpec.Of(Events(s.touches), fp);
      events != [] && VisitorSpec.ShowsFields(s.rows[fp], events)
  }

  lemma FieldsToo(s: State)
    requires Shows(s)
    ensures ShowsFields(s)
  {
    hide VisitorSpec.ShowsFields, VisitorSpec.Of, Events, VisitorSpec.Summary;
    forall fp | fp in s.rows
      ensures var events := VisitorSpec.Of(Events(s.touches), fp);
        events != [] && VisitorSpec.ShowsFields(s.rows[fp], events)
    {
      assert VisitorSpec.Summarised(s.rows, fp, VisitorSpec.Of(Events(s.touches), fp));
      VisitorSpec.SummaryShows(VisitorSpec.Of(Events(s.touches), fp));
    }
  }

  lemma TouchesSnoc(touches: seq<Touch>, t: Touch)
    ensures Events(touches + [t]) == Events(touches) + [EventOf(t)]
    ensures Touched(touches + [t]) == Touched(touches) + {t.call}
  {
    assert (touches + [t])[..|touches|] == touches;
    assert forall x :: x in touches + [t] <==> x in touches || x == t;
  }

  /** Whichever statement touches a row, it makes the one upsert the call stands for. */
  lemma TouchIsUpsert(s: State, call: nat, row: VisitorSpec.Row, now: int)
    requires call in s.calls && Accepts(s.calls[call].rec)
    requires var rec := s.calls[call].rec;
      row == if FpOf(rec) in s.rows then VisitorSpec.Seen(s.rows[FpOf(rec)], Normalise(rec), now)
             else VisitorSpec.NewRow(Normalise(rec), now)
    ensures TouchRow(s, call, row, now).rows == VisitorSpec.Upsert(s.rows, s.calls[call].rec, now)
  {
    hide Key, Normalise, Accepts;
  }

  lemma OfSnoc(events: seq<VisitorSpec.Event>, e: VisitorSpec.Event, fp: string)
    ensures VisitorSpec.Of(events + [e], fp)
         == if Accepts(e.rec) && Key(Normalise(e.rec)) == fp then VisitorSpec.Of(events, fp) + [e]
            else VisitorSpec.Of(events, fp)
  {
    hide Accepts, Key, Normalise;
    assert (events + [e])[..|events|] == events;
  }

  lemma TouchShows(s: State, call: nat, row: VisitorSpec.Row, now: int)
    requires Shows(s) && call in s.calls && Accepts(s.calls[call].rec)
    requires var rec := s.calls[call].rec;
      row == if FpOf(rec) in s.rows then VisitorSpec.Seen(s.rows[FpOf(rec)], Normalise(rec), now)
             else VisitorSpec.NewRow(Normalise(rec), now)
    ensures Shows(TouchRow(s, call, row, now))
  {
    var s' := TouchRow(s, call, row, now);
    var t := Touch(call, s.calls[call].rec, now);
    TouchIsUpsert(s, call, row, now);
    TouchesSnoc(s.touches, t);
    hide Accepts, Key, Normalise, VisitorSpec.Summarised, VisitorSpec.Upsert;
    forall fp ensures VisitorSpec.Summarised(s'.rows, fp, VisitorSpec.Of(Events(s'.touches), fp)) {
      OfSnoc(Events(s.touches), EventOf(t), fp);
      VisitorSpec.UpsertSummarises(s.rows, fp, VisitorSpec.Of(Events(s.touches), fp), EventOf(t));
    }
  }

  ghost predicate AllAccepted(s: State) {
    forall c :: c in s.calls ==> Accepts(s.calls[c].rec)
  }

  lemma StepShows(s: State, step: Step)
    requires Shows(s) && AllAccepted(s) && Enabled(s, step)
    ensures Shows(Next(s, step)) && AllAccepted(Next(s, step))
  {
    hide Accepts, FpOf, VisitorSpec.Summarised, VisitorSpec.Of;
    match step
    case Insert(call, now) =>
      if FpOf(s.calls[call].rec) !in s.rows {
        TouchShows(s, call, VisitorSpec.NewRow(Normalise(s.calls[call].rec), now), now);
      }
    case Update(call, now) =>
      var fp := FpOf(s.calls[call].rec);
      if fp in s.rows {
        TouchShows(s, call, VisitorSpec.Seen(s.rows[fp], Normalise(s.calls[call].rec), now), now);
      }
    case _ =>
  }

  lemma TouchOnce(s: State, call: nat, row: VisitorSpec.Row, now: int)
    requires TouchesOk(s) && call in s.calls && call !in Touched(s.touches)
    ensures TouchesOk(TouchRow(s, call, row, now))
  {
    hide FpOf;
    var t, s' := Touch(call, s.calls[call].rec, now), TouchRow(s, call, row, now);
    forall i, j | 0 <= i < j < |s'.touches| ensures s'.touches[i].call != s'.touches[j].call {
      assert s.touches[i] in s.touches && s.touches[i].call in Touched(s.touches);
    }
    forall x | x in s'.touches ensures x.call in s'.calls && x.rec == s'.calls[x.call].rec {
      assert x == t || x in s.touches;
    }
  }

  lemma TouchAccounted(s: State, call: nat, row: VisitorSpec.Row, now: int)
    requires Accounted(s) && call in s.calls && s.calls[call].phase != Finished
    ensures Accounted(TouchRow(s, call, row, now))
  {
    hide FpOf, TouchesOk;
    TouchOnce(s, call, row, now);
    TouchesSnoc(s.touches, Touch(call, s.calls[call].rec, now));
    hide Touched;
    assert TouchRow(s, call, row, now).lost == s.lost && call !in s.lost;
  }

  lemma LostAccounted(s: State, call: nat)
    requires Accounted(s) && call in s.calls && s.calls[call].phase != Finished
    ensures Accounted(Enter(s.(lost := s.lost + {call}), call, Finished))
  {
    hide FpOf, Touched;
  }

  lemma EnterAccounted(s: State, call: nat, phase: Phase)
    requires Accounted(s) && call in s.calls && s.calls[call].phase != Finished && phase != Finished
    ensures Accounted(Enter(s, call, phase))
  {
    hide FpOf, Touched;
  }

  lemma BeginAccounted(s: State, call: nat, rec: Record)
    requires Accounted(s) && call !in s.calls
    ensures Accounted(s.(calls := s.calls[call := Call(rec, Started)]))
  {
    hide FpOf;
    assert forall t :: t in s.touches ==> t.call in s.calls;
  }

  lemma StepAccounted(s: State, step: Step)
    requires Accounted(s) && Enabled(s, step)
    ensures Accounted(Next(s, step))
  {
    hide Accepts, FpOf, Accounted, TouchRow;
    match step
    case Begin(call, rec) => BeginAccounted(s, call, rec);
    case SetNx(call, answered, effect) =>
      var fp := FpOf(s.calls[call].rec);
      FlagsAccounted(s, s.flags + {fp});
      EnterAccounted(s, call, Updating);
      EnterAccounted(s, call, Inserting);
      EnterAccounted(s.(flags := s.flags + {fp}), call, Inserting);
    case Insert(call, now) =>
      TouchAccounted(s, call, VisitorSpec.NewRow(Normalise(s.calls[call].rec), now), now);
      EnterAccounted(s, call, Updating);
    case Update(call, now) =>
      var fp := FpOf(s.calls[call].rec);
      LostAccounted(s, call);
      if fp in s.rows { TouchAccounted(s, call, VisitorSpec.Seen(s.rows[fp], Normalise(s.calls[call].rec), now), now); }
    case LoseFlags(flags) => FlagsAccounted(s, s.flags - flags);
  }

  lemma FlagsAccounted(s: State, flags: set<string>)
    requires Accounted(s)
    ensures Accounted(s.(flags := flags))
  {
  }

  /**
   * At any moment of any interleaving each row shows what serial calls would have made of it, namely
   * the calls that touched it, in the order of their statements: first seen, path and identity of the
   * first, the first non-empty user id, session and time of the last. Every finished call is among
   * them once, unless its UPDATE found no row.
   */
  lemma RowsShowTouches(steps: seq<Step>)
    requires Possible(Tracker(), INITIAL, steps)
    ensures Shows(Run(Tracker(), INITIAL, steps)) && Accounted(Run(Tracker(), INITIAL, steps))
    ensures ShowsFields(Run(Tracker(), INITIAL, steps))
  {
    var m, inv := Tracker(), (x: State) => Shows(x) && AllAccepted(x) && Accounted(x);
    assert inv(INITIAL);
    hide Shows, AllAccepted, Accounted;
    forall x, t | inv(x) && m.enabled(x, t) ensures inv(m.next(x, t)) {
      StepShows(x, t);
      StepAccounted(x, t);
    }
    Keeps(m, inv, INITIAL, steps);
    FieldsToo(Run(m, INITIAL, steps));
  }

  lemma LostByUpdate(s: State, step: Step, c: nat)
    requires Accounted(s) && Enabled(s, step)
    ensures c in Next(s, step).lost && c !in s.lost
       <==> step.Update? && c == step.call && FpOf(s.calls[c].rec) !in s.rows
  {
    hide FpOf, Touched, TouchesOk;
  }

  /** A call is lost exactly by an UPDATE that finds no row, and then another call is about to insert it. */
  lemma LostBeforeInsert(steps: seq<Step>, step: Step)
    requires Possible(Tracker(), INITIAL, steps)
    requires Enabled(Run(Tracker(), INITIAL, steps), step)
    ensures var s := Run(Tracker(), INITIAL, steps);
      && (forall c :: c in Next(s, step).lost && c !in s.lost
            <==> step.Update? && c == step.call && FpOf(s.calls[c].rec) !in s.rows)
      && (step.Update? && FpOf(s.calls[step.call].rec) !in s.rows ==>
            exists c :: c in s.calls && c != step.call && s.calls[c].phase == Inserting
                        && FpOf(s.calls[c].rec) == FpOf(s.calls[step.call].rec))
  {
    RunInv(steps);
    RowsShowTouches(steps);
    var s := Run(Tracker(), INITIAL, steps);
    hide Accounted, Next, FpOf, Shows, Run, Possible;
    forall c ensures c in Next(s, step).lost && c !in s.lost
        <==> step.Update? && c == step.call && FpOf(s.calls[c].rec) !in s.rows
    {
      LostByUpdate(s, step, c);
    }
  }

  // ----- A call on its own -----

  function AskStep(call: nat, env: VisitorSpec.Env): Step {
    match env.setNx
    case Answered => SetNx(call, true, true)
    case FailedAfter => SetNx(call, false, true)
    case FailedBefore => SetNx(call, false, false)
    case NoClient => SetNx(call, false, false)
  }

  /** What is left to do after the flag was asked for. */
  lemma RestOfCall(s: State, call: nat, now: int) returns (steps: seq<Step>)
    requires call in s.calls && s.calls[call].phase in {Inserting, Updating}
    ensures Possible(Tracker(), s, steps)
    ensures var s', rec := Run(Tracker(), s, steps), s.calls[call].rec;
      && s'.flags == s.flags
      && s'.rows == if FpOf(rec) in s.rows
                    then s.rows[FpOf(rec) := VisitorSpec.Seen(s.rows[FpOf(rec)], Normalise(rec), now)]
                    else if s.calls[call].phase == Inserting
                    then s.rows[FpOf(rec) := VisitorSpec.NewRow(Normalise(rec), now)]
                    else s.rows
  {
    hide FpOf, Normalise;
    if s.calls[call].phase == Updating {
      One(Tracker(), s, Update(call, now));
      steps := [Update(call, now)];
    } else {
      One(Tracker(), s, Insert(call, now));
      steps := [Insert(call, now)];
      if FpOf(s.calls[call].rec) in s.rows {
        Snoc(Tracker(), s, steps, Update(call, now));
        steps := steps + [Update(call, now)];
      }
    }
  }

  /** A call that runs alone does what the serial tracker does, for every fate of its SETNX. */
  lemma LoneCallIsTrack(s: State, call: nat, rec: Record, env: VisitorSpec.Env) returns (steps: seq<Step>)
    requires call !in s.calls && Accepts(rec) && env.insertOk && env.updateOk
    ensures Possible(Tracker(), s, steps)
    ensures var s', v := Run(Tracker(), s, steps), VisitorSpec.Track(VisitorSpec.Visitors(s.rows, s.flags), rec, env);
      s'.rows == v.rows && s'.flags == v.flags
  {
    hide Accepts, Normalise, Key;
    var ask := AskStep(call, env);
    One(Tracker(), s, Begin(call, rec));
    var s1 := Next(s, Begin(call, rec));
    Snoc(Tracker(), s, [Begin(call, rec)], ask);
    var s2 := Next(s1, ask);
    var rest := RestOfCall(s2, call, env.now);
    hide Run, Possible;
    Append(Tracker(), s, [Begin(call, rec)] + [ask], rest);
    steps := [Begin(call, rec)] + [ask] + rest;
  }

  // ----- When no call can be lost -----

  function Unfinished(s: State, fp: string): set<nat> {
    set c | c in s.calls && s.calls[c].phase != Finished && FpOf(s.calls[c].rec) == fp
  }

  predicate Admits(s: State, step: Step, c: nat) {
    Enabled(s, step) && (step.Begin? ==> |Unfinished(s, FpOf(step.rec))| < c)
  }

  /** At most c unfinished calls of each visitor. */
  ghost function Crowd(c: nat): Machine<State, Step> {
    Machine((s: State, step: Step) => Admits(s, step, c),
            (s: State, step: Step) => if Enabled(s, step) then Next(s, step) else s)
  }

  ghost predicate NeverLost(c: nat) {
    forall steps: seq<Step> :: Possible(Crowd(c), INITIAL, steps) ==> Run(Crowd(c), INITIAL, steps).lost == {}
  }

  predicate Overlap(s: State, a: nat, b: nat)
    requires a in s.calls && b in s.calls
  {
    && a != b && s.calls[a].phase != Finished && s.calls[b].phase != Finished
    && FpOf(s.calls[a].rec) == FpOf(s.calls[b].rec)
  }

  ghost predicate OneAtATime(s: State) {
    (forall a, b :: a in s.calls && b in s.calls ==> !Overlap(s, a, b)) && s.lost == {}
  }

  lemma NobodyElse(s: State, fp: string)
    requires |Unfinished(s, fp)| < 1
    ensures forall c :: c in s.calls && s.calls[c].phase != Finished ==> FpOf(s.calls[c].rec) != fp
  {
    assert Unfinished(s, fp) == {};
    forall c | c in s.calls && s.calls[c].phase != Finished ensures FpOf(s.calls[c].rec) != fp {
      assert c !in Unfinished(s, fp);
    }
  }

  lemma StepOneAtATime(s: State, step: Step, c: nat)
    requires Inv(s) && OneAtATime(s) && c <= 1 && Admits(s, step, c)
    ensures OneAtATime(Next(s, step))
  {
    hide FpOf, Accepts;
    if step.Begin? {
      NobodyElse(s, FpOf(step.rec));
    } else if step.Update? {
      assert RowComing(s, FpOf(s.calls[step.call].rec));
      assert forall c :: c in s.calls ==> !Overlap(s, c, step.call);
    }
    var s' := Next(s, step);
    forall a, b | a in s'.calls && b in s'.calls ensures !Overlap(s', a, b) {
      assert a in s.calls && b in s.calls ==> !Overlap(s, a, b);
    }
  }

  lemma AloneNeverLost(steps: seq<Step>, c: nat)
    requires c <= 1 && Possible(Crowd(c), INITIAL, steps)
    ensures Run(Crowd(c), INITIAL, steps).lost == {}
  {
    var m, inv := Crowd(c), (x: State) => Inv(x) && OneAtATime(x);
    forall x, t | inv(x) && m.enabled(x, t) ensures inv(m.next(x, t)) {
      hide Inv, OneAtATime;
      StepInv(x, t);
      StepOneAtATime(x, t, c);
    }
    Keeps(m, inv, INITIAL, steps);
  }

  /** One more step at the end of a run with at most two unfinished calls of each visitor. */
  lemma Then(steps: seq<Step>, s: State, step: Step)
    requires Possible(Crowd(2), INITIAL, steps) && Run(Crowd(2), INITIAL, steps) == s && Admits(s, step, 2)
    ensures Possible(Crowd(2), INITIAL, steps + [step])
    ensures Run(Crowd(2), INITIAL, steps + [step]) == Next(s, step)
  {
    Snoc(Crowd(2), INITIAL, steps, step);
  }

  function TwoCalls(a: Call, b: Call, flags: set<string>): State {
    State(map[], flags, map[0 := a, 1 := b], [], {})
  }

  lemma BothBegin(a: Record, b: Record) returns (steps: seq<Step>)
    requires Accepts(a) && Accepts(b)
    ensures Possible(Crowd(2), INITIAL, steps)
    ensures Run(Crowd(2), INITIAL, steps) == TwoCalls(Call(a, Started), Call(b, Started), {})
  {
    Nothing(Crowd(2), INITIAL);
    hide Run, Possible, FpOf, Accepts;
    assert Unfinished(INITIAL, FpOf(a)) == {};
    Then([], INITIAL, Begin(0, a));
    steps := [] + [Begin(0, a)];
    var s := INITIAL.(calls := map[0 := Call(a, Started)]);
    assert Unfinished(s, FpOf(b)) <= {0};
    SubsetSize(Unfinished(s, FpOf(b)), {0});
    Then(steps, s, Begin(1, b));
    steps := steps + [Begin(1, b)];
    assert Next(s, Begin(1, b)).calls == map[0 := Call(a, Started), 1 := Call(b, Started)];
  }

  /** Both calls of a new visitor ask for the flag before either reaches the table. */
  lemma BothAsk(a: Record, b: Record) returns (steps: seq<Step>)
    requires Accepts(a) && Accepts(b) && FpOf(a) == FpOf(b)
    ensures Possible(Crowd(2), INITIAL, steps)
    ensures Run(Crowd(2), INITIAL, steps) == TwoCalls(Call(a, Inserting), Call(b, Updating), {FpOf(a)})
  {
    hide Run, Possible, FpOf, Accepts, Unfinished;
    steps := BothBegin(a, b);
    var s := TwoCalls(Call(a, Started), Call(b, Started), {});
    Then(steps, s, SetNx(0, true, true));
    steps := steps + [SetNx(0, true, true)];
    assert Next(s, SetNx(0, true, true)).calls == map[0 := Call(a, Inserting), 1 := Call(b, Started)];
    assert {} + {FpOf(a)} == {FpOf(a)};
    s := TwoCalls(Call(a, Inserting), Call(b, Started), {FpOf(a)});
    Then(steps, s, SetNx(1, true, true));
    steps := steps + [SetNx(1, true, true)];
    assert Next(s, SetNx(1, true, true)).calls == map[0 := Call(a, Inserting), 1 := Call(b, Updating)];
  }

  lemma BothEnd(rec: Record, rec1: Record, now: int) returns (steps: seq<Step>)
    requires Accepts(rec) && Accepts(rec1) && FpOf(rec1) == FpOf(rec) && Normalise(rec).userId == ""
    ensures Possible(Crowd(2), INITIAL, steps)
    ensures var s := Run(Crowd(2), INITIAL, steps);
      && s.calls == map[0 := Call(rec, Finished), 1 := Call(rec1, Finished)]
      && FpOf(rec) in s.rows && s.rows[FpOf(rec)].userId == None && s.lost == {1}
  {
    hide Run, Possible, FpOf, Accepts, Normalise;
    steps := BothAsk(rec, rec1);
    var s := TwoCalls(Call(rec, Inserting), Call(rec1, Updating), {FpOf(rec)});
    Then(steps, s, Update(1, now));
    steps := steps + [Update(1, now)];
    s := Next(s, Update(1, now));
    assert s.calls == map[0 := Call(rec, Inserting), 1 := Call(rec1, Finished)];
    Then(steps, s, Insert(0, now));
    steps := steps + [Insert(0, now)];
    s := Next(s, Insert(0, now));
    assert s.calls == map[0 := Call(rec, Finished), 1 := Call(rec1, Finished)];
  }

  /** It does happen: of two first visits, the one that carries the user id leaves no trace of it. */
  lemma UserCanBeLost(rec: Record, user: string, now: int) returns (steps: seq<Step>)
    requires Accepts(rec) && rec.userId == "" && user != ""
    ensures Possible(Tracker(), INITIAL, steps) && Possible(Crowd(2), INITIAL, steps)
    ensures Run(Crowd(2), INITIAL, steps) == Run(Tracker(), INITIAL, steps)
    ensures var s := Run(Tracker(), INITIAL, steps);
      && s.calls == map[0 := Call(rec, Finished), 1 := Call(rec.(userId := user), Finished)]
      && FpOf(rec.(userId := user)) == FpOf(rec)
      && FpOf(rec) in s.rows && s.rows[FpOf(rec)].userId == None && s.lost == {1}
  {
    var rec1 := rec.(userId := user);
    assert Accepts(rec1) && FpOf(rec1) == FpOf(rec) && Normalise(rec).userId == "";
    steps := BothEnd(rec, rec1, now);
    hide Next, FpOf, Accepts, Normalise;
    MoreEnabled(Crowd(2), Tracker(), INITIAL, steps);
  }

  lemma SomeAccepted() returns (rec: Record)
    ensures Accepts(rec) && rec.userId == ""
  {
    rec := Record("visitor1", "session1", "", "", "", "", "", "", "", "");
    TrimFixed("visitor1");
    TrimFixed("session1");
  }

  /** No interleaving loses a call exactly when no two calls of the same visitor may overlap. */
  lemma NeverLostIffAlone(c: nat)
    ensures NeverLost(c) <==> c <= 1
  {
    if c <= 1 {
      forall steps: seq<Step> | Possible(Crowd(c), INITIAL, steps)
        ensures Run(Crowd(c), INITIAL, steps).lost == {}
      {
        AloneNeverLost(steps, c);
      }
    } else {
      var rec := SomeAccepted();
      var steps := UserCanBeLost(rec, "user", 0);
      hide Next, Enabled;
      MoreEnabled(Crowd(2), Crowd(c), INITIAL, steps);
      assert 1 in Run(Crowd(c), INITIAL, steps).lost;
    }
  }
}
