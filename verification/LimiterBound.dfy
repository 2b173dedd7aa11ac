/**
 * Any number of concurrent Allow calls on one key, one Valkey command at a time. The EXPIRE of the
 * caller that saw 1 is in flight for an arbitrary time and may never arrive; replies may be lost.
 */
module LimiterBound {
  import opened Prelude
  import opened Runs
  import opened FixedWindow

  /**
   * A lifetime of the key, from the INCR that creates it. opener: that INCR was answered and
   * allowed; joined: when the other calls of this lifetime were allowed.
   */
  datatype Life = Life(start: int, opener: bool, joined: seq<int>)

  /** pending and told name lifetimes: of the EXPIREs in flight, and of the callers that saw 1. */
  datatype State = State(now: int, counter: Option<Counter>, lives: seq<Life>, pending: seq<nat>, told: seq<nat>)

  datatype Step =
    | Tick(now: int)
    | IncrStep(outcome: Outcome)
    | ExpireStep(i: nat)
    | LoseExpire(i: nat)

  const INITIAL: State := State(0, None, [], [], [])

  predicate Enabled(s: State, step: Step) {
    match step
    case Tick(now) => s.now <= now
    case IncrStep(_) => true
    case ExpireStep(i) => i < |s.pending|
    case LoseExpire(i) => i < |s.pending|
  }

  function Joined(l: Life, now: int): Life {
    l.(joined := l.joined + [now])
  }

  function Next(s: State, step: Step, limit: nat, window: nat): State
    requires Enabled(s, step)
  {
    match step
    case Tick(now) => s.(now := now)
    case IncrStep(outcome) =>
      if outcome.NotSent? then s
      else
        var c, answered := Incr(s.counter, s.now), outcome.Delivered?;
        if c.n == 1 then
          s.(counter := Some(c),
             lives := s.lives + [Life(s.now, answered && 1 <= limit, [])],
             pending := if answered then s.pending + [|s.lives|] else s.pending,
             told := if answered then s.told + [|s.lives|] else s.told)
        else if answered && c.n <= limit && s.lives != [] then
          var last := |s.lives| - 1;
          s.(counter := Some(c), lives := s.lives[last := Joined(s.lives[last], s.now)])
        else s.(counter := Some(c))
    case ExpireStep(i) =>
      s.(counter := Expire(s.counter, s.now, window), pending := s.pending[..i] + s.pending[i + 1..])
    case LoseExpire(i) =>
      s.(pending := s.pending[..i] + s.pending[i + 1..])
  }

  ghost function Key(limit: nat, window: nat): Machine<State, Step> {
    Machine((s: State, step: Step) => Enabled(s, step),
            (s: State, step: Step) => if Enabled(s, step) then Next(s, step, limit, window) else s)
  }

  // ----- Counting the allowed calls -----

  function InRange(times: seq<int>, a: int, b: int): nat {
    if times == [] then 0
    else InRange(times[..|times| - 1], a, b) + if a <= times[|times| - 1] < b then 1 else 0
  }

  function AllowedOf(l: Life, a: int, b: int): nat {
    InRange(l.joined, a, b) + if l.opener && a <= l.start < b then 1 else 0
  }

  /** Calls allowed at a time in [a, b). */
  function Allowed(lives: seq<Life>, a: int, b: int): nat {
    if lives == [] then 0
    else Allowed(lives[..|lives| - 1], a, b) + AllowedOf(lives[|lives| - 1], a, b)
  }

  function CeilDiv(x: nat, w: nat): (q: nat)
    requires w > 0
    ensures q * w >= x && (q > 0 ==> (q - 1) * w < x)
  {
    assert (x + w - 1) / w * w + (x + w - 1) % w == x + w - 1;
    (x + w - 1) / w
  }

  // ----- The invariant of every interleaving -----

  predicate LifeOk(l: Life, limit: nat) {
    && (l.opener ==> limit >= 1)
    && |l.joined| <= (if limit == 0 then 0 else limit - 1)
    && (forall t :: t in l.joined ==> l.start <= t)
  }

  /** A lifetime starts more than a window after the one before, and after all that one allowed. */
  predicate Follows(l: Life, m: Life, window: nat) {
    l.start + window < m.start && forall t :: t in l.joined ==> t < m.start
  }

  predicate Spaced(lives: seq<Life>, limit: nat, window: nat) {
    && (forall i :: 0 <= i < |lives| ==> LifeOk(lives[i], limit))
    && (forall i, j :: 0 <= i && j == i + 1 < |lives| ==> Follows(lives[i], lives[j], window))
  }

  predicate CurrentOk(s: State, limit: nat, window: nat) {
    match s.counter
    case None => s.lives == [] && s.pending == []
    case Some(c) =>
      && c.n >= 1 && s.lives != []
      && var l := s.lives[|s.lives| - 1];
      && l.start <= s.now && (forall t :: t in l.joined ==> t <= s.now)
      && |l.joined| <= c.n - 1
      && (c.deadline.Some? ==>
            && l.start + window <= c.deadline.value <= s.now + window
            && (forall t :: t in l.joined ==> t <= c.deadline.value)
            && s.pending == [])
      && (s.pending != [] ==> s.pending == [|s.lives| - 1])
  }

  predicate ToldOk(s: State) {
    && (forall i :: 0 <= i < |s.told| ==> s.told[i] < |s.lives|)
    && (forall i, j :: 0 <= i < j < |s.told| ==> s.told[i] < s.told[j])
  }

  predicate Inv(s: State, limit: nat, window: nat) {
    Spaced(s.lives, limit, window) && CurrentOk(s, limit, window) && ToldOk(s)
  }

  /** A new lifetime starts only when the last one's deadline has passed. */
  lemma CreateInv(s: State, answered: bool, limit: nat, window: nat)
    requires Inv(s, limit, window) && Incr(s.counter, s.now).n == 1
    ensures Inv(Next(s, IncrStep(if answered then Delivered else ReplyLost), limit, window), limit, window)
  {
    var s' := Next(s, IncrStep(if answered then Delivered else ReplyLost), limit, window);
    var n := |s.lives|;
    assert s'.lives[..n] == s.lives && |s'.lives| == n + 1;
    SpacedSnoc(s.lives, s'.lives[n], limit, window);
    assert s'.lives == s.lives + [s'.lives[n]];
  }

  lemma SpacedSnoc(lives: seq<Life>, l: Life, limit: nat, window: nat)
    requires Spaced(lives, limit, window) && LifeOk(l, limit)
    requires lives != [] ==> Follows(lives[|lives| - 1], l, window)
    ensures Spaced(lives + [l], limit, window)
  {
  }

  lemma JoinInv(s: State, limit: nat, window: nat)
    requires Inv(s, limit, window) && s.lives != []
    requires Incr(s.counter, s.now).n != 1 && Incr(s.counter, s.now).n <= limit
    ensures Inv(Next(s, IncrStep(Delivered), limit, window), limit, window)
  {
    var s' := Next(s, IncrStep(Delivered), limit, window);
    var last := |s.lives| - 1;
    var l := s'.lives[last];
    assert LifeOk(s.lives[last], limit);
    assert LifeOk(l, limit);
    if last > 0 { assert Follows(s.lives[last - 1], s.lives[last], window); }
    SpacedUpdate(s.lives, l, limit, window);
  }

  lemma SpacedUpdate(lives: seq<Life>, l: Life, limit: nat, window: nat)
    requires Spaced(lives, limit, window) && lives != [] && LifeOk(l, limit)
    requires l.start == lives[|lives| - 1].start
    ensures Spaced(lives[|lives| - 1 := l], limit, window)
  {
    var lives' := lives[|lives| - 1 := l];
    forall i, j | 0 <= i && j == i + 1 < |lives'| ensures Follows(lives'[i], lives'[j], window) {
      assert Follows(lives[i], lives[j], window);
    }
  }

  /** At most one EXPIRE is in flight, so when one arrives or is lost none is left. */
  lemma ExpireInv(s: State, step: Step, limit: nat, window: nat)
    requires Inv(s, limit, window) && Enabled(s, step) && (step.ExpireStep? || step.LoseExpire?)
    ensures Inv(Next(s, step, limit, window), limit, window)
  {
    hide Spaced;
    assert s.pending == [|s.lives| - 1] && step.i == 0;
    assert s.pending[..0] + s.pending[1..] == [];
  }

  /** Everything else leaves the lifetimes as they are. */
  lemma QuietInv(s: State, step: Step, limit: nat, window: nat)
    requires Inv(s, limit, window) && Enabled(s, step) && (step.Tick? || step.IncrStep?)
    requires Next(s, step, limit, window).lives == s.lives && Next(s, step, limit, window).told == s.told
    ensures Inv(Next(s, step, limit, window), limit, window)
  {
    hide Spaced;
  }

  lemma StepInv(s: State, step: Step, limit: nat, window: nat)
    requires Inv(s, limit, window) && Enabled(s, step)
    ensures Inv(Next(s, step, limit, window), limit, window)
  {
    hide Inv;
    if step.IncrStep? && !step.outcome.NotSent? && Incr(s.counter, s.now).n == 1 {
      CreateInv(s, step.outcome.Delivered?, limit, window);
    } else if step.IncrStep? && step.outcome.Delivered? && Incr(s.counter, s.now).n <= limit && s.lives != [] {
      JoinInv(s, limit, window);
    } else if step.ExpireStep? || step.LoseExpire? {
      ExpireInv(s, step, limit, window);
    } else {
      QuietInv(s, step, limit, window);
    }
  }

  lemma RunInv(steps: seq<Step>, limit: nat, window: nat)
    requires Possible(Key(limit, window), INITIAL, steps)
    ensures Inv(Run(Key(limit, window), INITIAL, steps), limit, window)
  {
    var m, inv := Key(limit, window), (x: State) => Inv(x, limit, window);
    assert Inv(INITIAL, limit, window);
    hide Inv;
    forall x, t | inv(x) && m.enabled(x, t) ensures inv(m.next(x, t)) {
      StepInv(x, t, limit, window);
    }
    Keeps(m, inv, INITIAL, steps);
  }

  /**
   * At most one caller of a lifetime sees 1; an EXPIRE in flight belongs to the current lifetime,
   * so none can shorten or lengthen a later one; lifetimes start more than a window apart.
   */
  lemma LifetimesAreSeparate(steps: seq<Step>, limit: nat, window: nat)
    requires Possible(Key(limit, window), INITIAL, steps)
    ensures var s := Run(Key(limit, window), INITIAL, steps);
      && (forall i, j :: 0 <= i < j < |s.told| ==> s.told[i] != s.told[j])
      && (forall p :: p in s.pending ==> p == |s.lives| - 1 && s.counter.Some? && s.counter.value.deadline.None?)
      && (forall i, j :: 0 <= i && j == i + 1 < |s.lives| ==> s.lives[i].start + window < s.lives[j].start)
  {
    RunInv(steps, limit, window);
    var s := Run(Key(limit, window), INITIAL, steps);
    assert Spaced(s.lives, limit, window) && CurrentOk(s, limit, window) && ToldOk(s);
    forall i, j | 0 <= i && j == i + 1 < |s.lives| ensures s.lives[i].start + window < s.lives[j].start {
      assert Follows(s.lives[i], s.lives[j], window);
    }
  }

  // ----- Who sees 1, and what if nobody does -----

  ghost predicate ToldExactly(s: State) {
    && (forall i :: 0 <= i < |s.told| ==> s.told[i] < |s.lives|)
    && (forall i :: 0 <= i < |s.lives| ==> (i in s.told <==> s.lives[i].opener))
  }

  lemma StepTold(s: State, step: Step, limit: nat, window: nat)
    requires limit >= 1 && ToldExactly(s) && Enabled(s, step)
    ensures ToldExactly(Next(s, step, limit, window))
  {
    var s', n := Next(s, step, limit, window), |s.lives|;
    if |s'.told| > |s.told| {
      assert s'.told == s.told + [n];
      assert forall i :: i in s'.told <==> i in s.told || i == n;
    }
  }

  /**
   * A lifetime has a caller that saw 1 exactly when the INCR that created it was answered, and then it
   * has exactly one.
   */
  lemma OneCallerSeesOne(steps: seq<Step>, limit: nat, window: nat)
    requires limit >= 1 && Possible(Key(limit, window), INITIAL, steps)
    ensures var s := Run(Key(limit, window), INITIAL, steps);
      && (forall i :: 0 <= i < |s.lives| ==> (i in s.told <==> s.lives[i].opener))
      && Distinct(s.told)
  {
    LifetimesAreSeparate(steps, limit, window);
    var m, inv := Key(limit, window), (x: State) => ToldExactly(x);
    forall x, t | inv(x) && m.enabled(x, t) ensures inv(m.next(x, t)) {
      StepTold(x, t, limit, window);
    }
    Keeps(m, inv, INITIAL, steps);
  }

  /** The lost reply of a creating INCR, or the lost EXPIRE of its caller, leaves a stuck counter. */
  lemma NobodySeesOne(limit: nat, window: nat)
    ensures Possible(Key(limit, window), INITIAL, [IncrStep(ReplyLost)])
    ensures var s := Run(Key(limit, window), INITIAL, [IncrStep(ReplyLost)]);
      |s.lives| == 1 && s.told == [] && Stuck(s)
    ensures Possible(Key(limit, window), INITIAL, [IncrStep(Delivered)] + [LoseExpire(0)])
    ensures Stuck(Run(Key(limit, window), INITIAL, [IncrStep(Delivered)] + [LoseExpire(0)]))
  {
    One(Key(limit, window), INITIAL, IncrStep(ReplyLost));
    One(Key(limit, window), INITIAL, IncrStep(Delivered));
    Snoc(Key(limit, window), INITIAL, [IncrStep(Delivered)], LoseExpire(0));
  }

  /** A counter without a deadline, and no EXPIRE on its way. */
  predicate Stuck(s: State) {
    s.counter.Some? && s.counter.value.deadline.None? && s.pending == []
  }

  /** From s on, whatever happens, this counter never ends. */
  ghost predicate NeverEnds(s: State, limit: nat, window: nat) {
    forall steps: seq<Step> :: Possible(Key(limit, window), s, steps) ==>
      |Run(Key(limit, window), s, steps).lives| == |s.lives|
  }

  /** A stuck counter only counts up, and once it is full no call is allowed any more. */
  ghost predicate StillStuck(s: State, x: State, limit: nat)
    requires Stuck(s)
  {
    && Stuck(x) && x.counter.value.n >= s.counter.value.n >= 1
    && |x.lives| == |s.lives| && x.told == s.told
    && (s.counter.value.n >= limit ==> x.lives == s.lives)
  }

  lemma StuckForEver(s: State, steps: seq<Step>, limit: nat, window: nat)
    requires Stuck(s) && s.counter.value.n >= 1 && Possible(Key(limit, window), s, steps)
    ensures var x := Run(Key(limit, window), s, steps);
      && Stuck(x) && |x.lives| == |s.lives| && x.told == s.told
      && (s.counter.value.n >= limit ==> x.lives == s.lives)
  {
    var m, inv := Key(limit, window), (x: State) => Stuck(s) && StillStuck(s, x, limit);
    forall x, t | inv(x) && m.enabled(x, t) ensures inv(m.next(x, t)) {
      assert Enabled(x, t) ==> StillStuck(s, Next(x, t, limit, window), limit);
    }
    Keeps(m, inv, s, steps);
  }

  /** The end of a counter that has a deadline. */
  lemma EndsAfter(s: State, limit: nat, window: nat) returns (steps: seq<Step>)
    requires s.counter.Some? ==> s.counter.value.deadline.Some?
    ensures Possible(Key(limit, window), s, steps)
    ensures |Run(Key(limit, window), s, steps).lives| == |s.lives| + 1
  {
    var late := if s.counter.Some? && s.counter.value.deadline.value >= s.now
                then s.counter.value.deadline.value + 1 else s.now;
    One(Key(limit, window), s, Tick(late));
    Snoc(Key(limit, window), s, [Tick(late)], IncrStep(ReplyLost));
    steps := [Tick(late)] + [IncrStep(ReplyLost)];
  }

  /**
   * After any interleaving: the counter will never end, so that nobody sees 1 any more and, once it is
   * full, nobody is allowed, exactly when it has no deadline and no EXPIRE is on its way.
   */
  lemma NeverEndsIffStuck(before: seq<Step>, limit: nat, window: nat)
    requires Possible(Key(limit, window), INITIAL, before)
    ensures var s := Run(Key(limit, window), INITIAL, before); NeverEnds(s, limit, window) <==> Stuck(s)
  {
    RunInv(before, limit, window);
    var s := Run(Key(limit, window), INITIAL, before);
    assert CurrentOk(s, limit, window);
    if Stuck(s) {
      forall steps: seq<Step> | Possible(Key(limit, window), s, steps)
        ensures |Run(Key(limit, window), s, steps).lives| == |s.lives|
      {
        StuckForEver(s, steps, limit, window);
      }
    } else if s.pending == [] {
      var steps := EndsAfter(s, limit, window);
    } else {
      var s1 := Next(s, ExpireStep(0), limit, window);
      One(Key(limit, window), s, ExpireStep(0));
      var rest := EndsAfter(s1, limit, window);
      Append(Key(limit, window), s, [ExpireStep(0)], rest);
    }
  }

  /**
   * After any interleaving, a caller who is then denied alone and waits the advertised seconds is
   * allowed by the next answered call exactly when the counter had a deadline.
   */
  lemma WaitingAfterAnyRun(steps: seq<Step>, limit: nat, window: nat, first: Io, second: Io)
    requires limit >= 1 && Possible(Key(limit, window), INITIAL, steps)
    requires Run(Key(limit, window), INITIAL, steps).now <= first.incrAt && Ordered(first)
    requires first.incr.Delivered? && second.incr.Delivered?
    requires var c := Run(Key(limit, window), INITIAL, steps).counter;
      && !Allow(c, limit, window, first).ok
      && second.incrAt >= first.ttlAt + SECOND * RetrySeconds(Allow(c, limit, window, first).retryAfter)
    ensures var c := Run(Key(limit, window), INITIAL, steps).counter;
      Allow(Allow(c, limit, window, first).counter, limit, window, second).ok
      <==> c.Some? && c.value.deadline.Some?
  {
    RunInv(steps, limit, window);
    var s := Run(Key(limit, window), INITIAL, steps);
    assert CurrentOk(s, limit, window);
    WaitingSuffices(s.counter, limit, window, first, second);
  }

  // ----- The bound -----

  lemma {:induction false} InRangeSize(times: seq<int>, a: int, b: int)
    ensures InRange(times, a, b) <= |times|
    ensures (forall t :: t in times ==> t < a || b <= t) ==> InRange(times, a, b) == 0
  {
    if times == [] {
    } else {
      var front := times[..|times| - 1];
      InRangeSize(front, a, b);
      assert times[|times| - 1] in times && forall t :: t in front ==> t in times;
    }
  }

  lemma OneLife(l: Life, limit: nat, a: int, b: int)
    requires LifeOk(l, limit)
    ensures AllowedOf(l, a, b) <= limit
    ensures l.start < a && limit >= 1 ==> AllowedOf(l, a, b) <= limit - 1
    ensures b <= l.start ==> AllowedOf(l, a, b) == 0
  {
    InRangeSize(l.joined, a, b);
  }

  lemma SpacedFront(lives: seq<Life>, limit: nat, window: nat)
    requires Spaced(lives, limit, window) && lives != []
    ensures Spaced(lives[..|lives| - 1], limit, window)
  {
    var front := lives[..|lives| - 1];
    assert forall i :: 0 <= i < |front| ==> front[i] == lives[i];
  }

  /** Lifetimes before one that starts by a allow nothing from a on. */
  lemma {:induction false} EarlierZero(lives: seq<Life>, limit: nat, window: nat, a: int, b: int)
    requires Spaced(lives, limit, window) && lives != [] && lives[|lives| - 1].start <= a
    ensures Allowed(lives[..|lives| - 1], a, b) == 0
    decreases |lives|
  {
    var front := lives[..|lives| - 1];
    if front == [] {
    } else {
      var prev := front[|front| - 1];
      assert Follows(lives[|lives| - 2], lives[|lives| - 1], window);
      SpacedFront(lives, limit, window);
      InRangeSize(prev.joined, a, b);
      EarlierZero(front, limit, window, a, b);
    }
  }

  // ----- The most that an interval can hold -----

  lemma MulMono(k: nat, x: int, y: int)
    requires x <= y
    ensures k * x <= k * y
  {
  }

  /**
   * The most that x + 1 milliseconds can hold: a full lifetime every window + 1 milliseconds and, if
   * the first of them does not start at once, the late calls of one that started before.
   */
  function Peak(x: nat, limit: nat, window: nat): nat
    requires limit >= 1
  {
    limit * (x / (window + 1) + 1) + if x % (window + 1) == 0 then 0 else limit - 1
  }

  lemma DivUnique(x: nat, q: nat, r: nat, w: nat)
    requires x == q * w + r && r < w
    ensures x / w == q && x % w == r
  {
    assert x == x / w * w + x % w;
    if x / w < q {
      MulMono(w, x / w + 1, q);
    } else if x / w > q {
      MulMono(w, q + 1, x / w);
    }
  }

  lemma PeakShift(p: nat, limit: nat, window: nat)
    requires limit >= 1
    ensures Peak(p + window + 1, limit, window) == Peak(p, limit, window) + limit
  {
    var w := window + 1;
    var q := p / w;
    assert (q + 1) * w == q * w + w;
    DivUnique(p + w, q + 1, p % w, w);
    assert limit * (q + 2) == limit * (q + 1) + limit;
  }

  lemma PeakGrows(p: nat, x: nat, limit: nat, window: nat)
    requires limit >= 1 && p <= x
    ensures Peak(p, limit, window) <= Peak(x, limit, window)
  {
    var w := window + 1;
    assert p == p / w * w + p % w && x == x / w * w + x % w;
    if x / w < p / w { MulMono(w, x / w + 1, p / w); }
    if p / w < x / w {
      MulMono(limit, p / w + 2, x / w + 1);
      assert limit * (p / w + 2) == limit * (p / w + 1) + limit;
    }
  }

  lemma PeakStart(x: nat, limit: nat, window: nat)
    requires limit >= 1
    ensures Peak(x, limit, window) >= if x == 0 then limit else 2 * limit - 1
  {
    var w := window + 1;
    if x >= w {
      PeakShift(x - w, limit, window);
      MulMono(limit, 1, (x - w) / w + 1);
    } else {
      assert x / w == 0 && x % w == x;
    }
  }

  /** Counting the lifetimes that can matter from a on, the last one included. */
  lemma {:induction false} PrefixBound(lives: seq<Life>, limit: nat, window: nat, a: int, b: int)
    requires Spaced(lives, limit, window) && lives != [] && limit >= 1
    ensures var s := lives[|lives| - 1].start;
      Allowed(lives, a, b) <= if s < a then limit - 1 else Peak(s - a, limit, window)
    decreases |lives|
  {
    hide Peak;
    var front, last := lives[..|lives| - 1], lives[|lives| - 1];
    OneLife(last, limit, a, b);
    if last.start < a {
      EarlierZero(lives, limit, window, a, b);
    } else {
      PeakStart(last.start - a, limit, window);
      if front == [] {
        assert Allowed(front, a, b) == 0;
      } else {
        var prev := front[|front| - 1];
        assert Follows(lives[|lives| - 2], last, window);
        SpacedFront(lives, limit, window);
        PrefixBound(front, limit, window, a, b);
        if prev.start >= a {
          PeakShift(prev.start - a, limit, window);
          PeakGrows(prev.start - a + window + 1, last.start - a, limit, window);
        } else if last.start == a {
          EarlierZero(lives, limit, window, a, b);
        }
      }
    }
  }

  lemma {:induction false} IntervalBound(lives: seq<Life>, limit: nat, window: nat, a: int, b: int)
    requires Spaced(lives, limit, window) && limit >= 1 && a < b
    ensures Allowed(lives, a, b) <= Peak(b - a - 1, limit, window)
    decreases |lives|
  {
    hide Peak;
    PeakStart(b - a - 1, limit, window);
    if lives == [] {
      assert Allowed(lives, a, b) == 0;
    } else {
      var last := lives[|lives| - 1];
      OneLife(last, limit, a, b);
      if b <= last.start {
        SpacedFront(lives, limit, window);
        IntervalBound(lives[..|lives| - 1], limit, window, a, b);
      } else {
        PrefixBound(lives, limit, window, a, b);
        if last.start >= a { PeakGrows(last.start - a, b - a - 1, limit, window); }
      }
    }
  }

  lemma {:induction false} NothingAllowed(lives: seq<Life>, window: nat, a: int, b: int)
    requires Spaced(lives, 0, window)
    ensures Allowed(lives, a, b) == 0
    decreases |lives|
  {
    if lives == [] {
      assert Allowed(lives, a, b) == 0;
    } else {
      SpacedFront(lives, 0, window);
      OneLife(lives[|lives| - 1], 0, a, b);
      NothingAllowed(lives[..|lives| - 1], window, a, b);
    }
  }

  /**
   * Whatever the interleaving and whatever is lost, at most Peak(L - 1) calls are allowed in L
   * milliseconds, which is fewer than limit * (ceil(L / window) + 1).
   */
  lemma AllowedInInterval(steps: seq<Step>, limit: nat, window: nat, a: int, b: int)
    requires a < b && Possible(Key(limit, window), INITIAL, steps)
    ensures Allowed(Run(Key(limit, window), INITIAL, steps).lives, a, b)
         <= if limit == 0 then 0 else Peak(b - a - 1, limit, window)
    ensures limit >= 1 && window >= 1 ==>
      Allowed(Run(Key(limit, window), INITIAL, steps).lives, a, b) < limit * (CeilDiv(b - a, window) + 1)
  {
    RunInv(steps, limit, window);
    hide Peak, CeilDiv;
    if limit >= 1 && window >= 1 { PeakWithinWindows(b - a, limit, window); }
    var lives := Run(Key(limit, window), INITIAL, steps).lives;
    if limit >= 1 {
      IntervalBound(lives, limit, window, a, b);
    } else {
      NothingAllowed(lives, window, a, b);
    }
  }

  lemma FewerWindows(x: nat, window: nat)
    requires window >= 1
    ensures x / (window + 1) <= x / window
  {
    var q, n := x / (window + 1), x / window;
    assert q * (window + 1) <= x && x < (n + 1) * window;
    assert q * (window + 1) == q * window + q;
    if n < q { MulMono(window, n + 1, q); }
  }

  /** Peak stays below limit calls for each window begun, and for one more. */
  lemma PeakWithinWindows(length: nat, limit: nat, window: nat)
    requires length >= 1 && limit >= 1 && window >= 1
    ensures Peak(length - 1, limit, window) < limit * (CeilDiv(length, window) + 1)
  {
    var x := length - 1;
    var q, n := x / (window + 1), x / window;
    FewerWindows(x, window);
    CeilOfNext(x, window);
    MulMono(limit, q + 2, n + 2);
    assert limit * (q + 2) == limit * (q + 1) + limit;
  }

  lemma CeilOfNext(x: nat, window: nat)
    requires window >= 1
    ensures CeilDiv(x + 1, window) == x / window + 1
  {
    var n := x / window;
    assert (n + 1) * window == n * window + window;
    DivUnique(x + window, n + 1, x % window, window);
  }

  // ----- A call on its own -----

  lemma {:induction false} InRangeSnoc(times: seq<int>, t: int, a: int, b: int)
    ensures InRange(times + [t], a, b) == InRange(times, a, b) + if a <= t < b then 1 else 0
  {
    assert (times + [t])[..|times|] == times;
  }

  lemma AllowedSnoc(lives: seq<Life>, l: Life, a: int, b: int)
    ensures Allowed(lives + [l], a, b) == Allowed(lives, a, b) + AllowedOf(l, a, b)
  {
    assert (lives + [l])[..|lives|] == lives;
  }

  lemma AllowedLast(lives: seq<Life>, l: Life, a: int, b: int)
    requires lives != []
    ensures Allowed(lives[|lives| - 1 := l], a, b) - AllowedOf(l, a, b)
         == Allowed(lives, a, b) - AllowedOf(lives[|lives| - 1], a, b)
  {
    assert lives[|lives| - 1 := l][..|lives| - 1] == lives[..|lives| - 1];
  }

  /** The INCR of a call, answered or not, is counted as allowed exactly when the call is. */
  lemma IncrCounted(s: State, limit: nat, window: nat, io: Io)
    requires Inv(s, limit, window) && io.incrAt == s.now
    ensures var s' := Next(s, IncrStep(io.incr), limit, window);
      Allowed(s'.lives, s.now, s.now + 1)
      == Allowed(s.lives, s.now, s.now + 1) + if Allow(s.counter, limit, window, io).ok then 1 else 0
  {
    hide Allowed, Spaced, ToldOk;
    AllowWhen(s.counter, limit, window, io);
    var n := Incr(s.counter, s.now).n;
    if io.incr.NotSent? {
    } else if n == 1 {
      var l := Life(s.now, io.incr.Delivered? && 1 <= limit, []);
      AllowedSnoc(s.lives, l, s.now, s.now + 1);
    } else if io.incr.Delivered? && n <= limit {
      var last := s.lives[|s.lives| - 1];
      AllowedLast(s.lives, Joined(last, s.now), s.now, s.now + 1);
      InRangeSnoc(last.joined, s.now, s.now, s.now + 1);
      assert s.counter.Some?;
    }
  }

  lemma AllowWhen(c: Option<Counter>, limit: int, window: int, io: Io)
    ensures Allow(c, limit, window, io).ok <==> io.incr.Delivered? && Incr(c, io.incrAt).n <= limit
  {
  }

  /**
   * A call that runs alone at one instant is one of these interleavings: same counter, and allowed
   * exactly when the interleaving counts one more allowed call.
   */
  lemma CallIsInterleaving(s: State, limit: nat, window: nat, io: Io) returns (steps: seq<Step>)
    requires Inv(s, limit, window) && s.pending == [] && io.incrAt == io.expireAt == s.now
    ensures Possible(Key(limit, window), s, steps)
    ensures var s', v := Run(Key(limit, window), s, steps), Allow(s.counter, limit, window, io);
      && s'.counter == v.counter && s'.pending == []
      && Allowed(s'.lives, s.now, s.now + 1) == Allowed(s.lives, s.now, s.now + 1) + if v.ok then 1 else 0
  {
    hide Allowed, Spaced, ToldOk;
    IncrCounted(s, limit, window, io);
    var x := IncrStep(io.incr);
    var s1 := Next(s, x, limit, window);
    One(Key(limit, window), s, x);
    steps := [x];
    if s1.pending != [] {
      var y := if io.expire.NotSent? then LoseExpire(0) else ExpireStep(0);
      Snoc(Key(limit, window), s, steps, y);
      steps := steps + [y];
    }
  }
}
