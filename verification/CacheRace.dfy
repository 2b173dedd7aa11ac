/**
 * The existence cache of one bin under concurrent calls, command by command. PublicExists asks the
 * cache, looks up the row and caches what it found; Delete, expiry and pruning delete the row and then
 * the entry. No command fails, except that an entry may not get set.
 */
module CacheRace {
  import opened Prelude
  import opened Runs
  import WebhookOps

  /** Found: the row was there, with ttl left; Removing: the row is deleted or expired, the entry is next to go. */
  datatype Phase = Asked | Found(ttl: int) | Removing

  /** row: the bin exists; entry: when the cache entry dies. */
  datatype State = State(now: int, row: bool, expiresAt: int, entry: Option<int>, calls: map<nat, Phase>)

  datatype Step =
    | Tick(now: int)
    | Ask(call: nat)
    | Look(call: nat)
    | Put(call: nat, works: bool)
    | Remove(call: nat)
    | Forget(call: nat)

  predicate Cached(s: State) {
    s.entry.Some? && s.now <= s.entry.value
  }

  /** A call that finds an entry returns at once, so that only a miss takes further steps. */
  predicate Enabled(s: State, step: Step, k: nat) {
    match step
    case Tick(now) => s.now <= now
    case Ask(call) => call !in s.calls && |s.calls| < k && !Cached(s)
    case Look(call) => call in s.calls && s.calls[call].Asked?
    case Put(call, _) => call in s.calls && s.calls[call].Found?
    case Remove(call) => call !in s.calls && |s.calls| < k
    case Forget(call) => call in s.calls && s.calls[call].Removing?
  }

  function Leave(s: State, call: nat): State {
    s.(calls := s.calls - {call})
  }

  function Next(s: State, step: Step, k: nat): State
    requires Enabled(s, step, k)
  {
    match step
    case Tick(now) => s.(now := now)
    case Ask(call) => s.(calls := s.calls[call := Asked])
    case Look(call) =>
      if !s.row || s.now == s.expiresAt then Leave(s, call)
      else s.(calls := s.calls[call := if s.now > s.expiresAt then Removing else Found(s.expiresAt - s.now)])
    case Put(call, works) =>
      Leave(if works then s.(entry := Some(s.now + s.calls[call].ttl)) else s, call)
    case Remove(call) => s.(row := false, calls := s.calls[call := Removing])
    case Forget(call) => Leave(s.(entry := None), call)
  }

  /** At most k calls in flight. */
  ghost function Bin(k: nat): Machine<State, Step> {
    Machine((s: State, step: Step) => Enabled(s, step, k),
            (s: State, step: Step) => if Enabled(s, step, k) then Next(s, step, k) else s)
  }

  // ----- A lookup on its own -----

  /** The bin and its entry in the tables and the cache of the serial store. */
  predicate Pictures(s: State, w: WebhookOps.State, b: Id) {
    && (s.row <==> b in w.db.bins)
    && (s.row ==> s.expiresAt == w.db.bins[b].expiresAt)
    && s.entry == if b in w.cache then Some(w.cache[b]) else None
  }

  /** A missed lookup that runs alone leaves the entry that the serial one leaves when its prune fails. */
  lemma LoneLookup(s: State, call: nat, k: nat, w: WebhookOps.State, b: Id) returns (steps: seq<Step>)
    requires s.calls == map[] && k >= 1 && !Cached(s) && Pictures(s, w, b)
    ensures Possible(Bin(k), s, steps) && Run(Bin(k), s, steps).calls == map[]
    ensures var env := WebhookOps.Env(s.now, false, true, true, true, true);
      Pictures(Run(Bin(k), s, steps), WebhookOps.CheckExists(w, b, env).state, b)
  {
    hide Run, Possible;
    Nothing(Bin(k), s);
    Then(s, [], s, Ask(call), k);
    var s1 := s.(calls := map[call := Asked]);
    Then(s, [] + [Ask(call)], s1, Look(call), k);
    steps := [] + [Ask(call)] + [Look(call)];
    var s2 := Next(s1, Look(call), k);
    assert s1.calls - {call} == map[];
    if call in s2.calls {
      var last := if s2.calls[call].Removing? then Forget(call) else Put(call, true);
      Then(s, steps, s2, last, k);
      assert s2.calls - {call} == map[];
      steps := steps + [last];
    }
  }

  /** A deletion that runs alone leaves neither row nor entry. */
  lemma LoneRemoval(s: State, call: nat, k: nat) returns (steps: seq<Step>)
    requires s.calls == map[] && k >= 1
    ensures Possible(Bin(k), s, steps)
    ensures Run(Bin(k), s, steps) == s.(row := false, entry := None)
  {
    hide Run, Possible;
    Nothing(Bin(k), s);
    Then(s, [], s, Remove(call), k);
    var s1 := s.(row := false, calls := map[call := Removing]);
    Then(s, [] + [Remove(call)], s1, Forget(call), k);
    assert s1.calls - {call} == map[];
    steps := [] + [Remove(call)] + [Forget(call)];
  }

  /** No live entry names a bin that is gone. */
  predicate Honest(s: State) {
    Cached(s) ==> s.row
  }

  ghost predicate QuietRun(s: State, steps: seq<Step>, k: nat) {
    s.calls == map[] && Possible(Bin(k), s, steps) && Run(Bin(k), s, steps).calls == map[]
  }

  ghost predicate StaysHonest(k: nat) {
    forall s: State, steps: seq<Step> :: QuietRun(s, steps, k) && Honest(s) ==> Honest(Run(Bin(k), s, steps))
  }

  /** Alone, a call that found the row still has it, and only one that removes the row can lie. */
  ghost predicate Alone(s: State) {
    && |s.calls| <= 1
    && (forall c :: c in s.calls && s.calls[c].Found? ==> s.row)
    && (Honest(s) || exists c :: c in s.calls && s.calls[c].Removing?)
  }

  lemma StepAlone(s: State, step: Step, k: nat)
    requires k <= 1 && Alone(s) && Enabled(s, step, k)
    ensures Alone(Next(s, step, k))
  {
    var s' := Next(s, step, k);
    if step.Ask? || step.Remove? {
      assert s.calls == map[];
      assert s'.calls.Keys == {step.call};
      assert step.Remove? ==> step.call in s'.calls && s'.calls[step.call].Removing?;
    } else if !step.Tick? {
      OnlyCall(s, step.call);
      assert s'.calls.Keys <= {step.call};
      SubsetSize(s'.calls.Keys, {step.call});
      assert step.call in s'.calls ==> s'.calls.Keys == {step.call};
    }
  }

  lemma OnlyCall(s: State, call: nat)
    requires |s.calls| <= 1 && call in s.calls
    ensures s.calls.Keys == {call}
  {
    assert |s.calls.Keys| == |s.calls|;
    SubsetSize({call}, s.calls.Keys);
  }

  lemma AloneStaysHonest(s: State, steps: seq<Step>, k: nat)
    requires k <= 1 && QuietRun(s, steps, k) && Honest(s)
    ensures Honest(Run(Bin(k), s, steps))
  {
    var m, inv := Bin(k), (x: State) => Alone(x);
    forall x, t | inv(x) && m.enabled(x, t) ensures inv(m.next(x, t)) {
      StepAlone(x, t, k);
    }
    Keeps(m, inv, s, steps);
  }

  /** One more step at the end of a run from start to s. */
  lemma Then(start: State, steps: seq<Step>, s: State, step: Step, k: nat)
    requires Possible(Bin(k), start, steps) && Run(Bin(k), start, steps) == s && Enabled(s, step, k)
    ensures Possible(Bin(k), start, steps + [step])
    ensures Run(Bin(k), start, steps + [step]) == Next(s, step, k)
  {
    Snoc(Bin(k), start, steps, step);
  }

  /** Call 0 finds the row, call 1 deletes the bin and its entry, and then call 0 caches what it found. */
  lemma GoneButCached(now: int, expiresAt: int, k: nat) returns (steps: seq<Step>)
    requires k >= 2 && now < expiresAt
    ensures Possible(Bin(k), State(now, true, expiresAt, None, map[]), steps)
    ensures Run(Bin(k), State(now, true, expiresAt, None, map[]), steps)
         == State(now, false, expiresAt, Some(expiresAt), map[])
  {
    hide Run, Possible;
    var start := State(now, true, expiresAt, None, map[]);
    var ttl := expiresAt - now;
    Nothing(Bin(k), start);
    Then(start, [], start, Ask(0), k);
    steps := [] + [Ask(0)];
    Then(start, steps, start.(calls := map[0 := Asked]), Look(0), k);
    steps := steps + [Look(0)];
    assert map[0 := Asked][0 := Found(ttl)] == map[0 := Found(ttl)];
    var found := start.(calls := map[0 := Found(ttl)]);
    Then(start, steps, found, Remove(1), k);
    steps := steps + [Remove(1)];
    assert map[0 := Found(ttl)][1 := Removing] == map[0 := Found(ttl), 1 := Removing];
    var gone := found.(row := false, calls := map[0 := Found(ttl), 1 := Removing]);
    Then(start, steps, gone, Forget(1), k);
    steps := steps + [Forget(1)];
    assert gone.calls - {1} == map[0 := Found(ttl)];
    var late := gone.(calls := map[0 := Found(ttl)]);
    Then(start, steps, late, Put(0, true), k);
    steps := steps + [Put(0, true)];
    assert late.calls - {0} == map[];
  }

  /** The cache never ends up naming a deleted bin exactly when no two calls on the bin may overlap. */
  lemma HonestIffAlone(k: nat)
    ensures StaysHonest(k) <==> k <= 1
  {
    if k <= 1 {
      forall s: State, steps: seq<Step> | QuietRun(s, steps, k) && Honest(s) ensures Honest(Run(Bin(k), s, steps)) {
        AloneStaysHonest(s, steps, k);
      }
    } else {
      var steps := GoneButCached(0, 1, k);
      assert QuietRun(State(0, true, 1, None, map[]), steps, k);
    }
  }
}
