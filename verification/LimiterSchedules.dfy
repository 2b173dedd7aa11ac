/** Interleavings of Allow calls that reach the bound on every interval length. */
module LimiterSchedules {
  import opened Prelude
  import opened Runs
  import opened FixedWindow
  import opened LimiterBound

  /** One more step at the end of a run from start to s. */
  lemma Then(start: State, steps: seq<Step>, s: State, step: Step, limit: nat, window: nat)
    requires Possible(Key(limit, window), start, steps) && Run(Key(limit, window), start, steps) == s
    requires Enabled(s, step)
    ensures Possible(Key(limit, window), start, steps + [step])
    ensures Run(Key(limit, window), start, steps + [step]) == Next(s, step, limit, window)
  {
    Snoc(Key(limit, window), start, steps, step);
  }

  function Copies(t: int, k: nat): seq<int> {
    seq(k, _ => t)
  }

  lemma {:induction false} CopiesInRange(times: seq<int>, t: int, k: nat, a: int, b: int)
    ensures InRange(times + Copies(t, k), a, b) == InRange(times, a, b) + if a <= t < b then k else 0
  {
    if k == 0 {
      assert times + Copies(t, k) == times;
    } else {
      CopiesInRange(times, t, k - 1, a, b);
      var all := times + Copies(t, k);
      assert all[..|all| - 1] == times + Copies(t, k - 1);
    }
  }

  function JoinedBy(s: State, k: nat): State
    requires s.lives != [] && s.counter.Some?
  {
    var last := |s.lives| - 1;
    s.(counter := Some(s.counter.value.(n := s.counter.value.n + k)),
       lives := s.lives[last := s.lives[last].(joined := s.lives[last].joined + Copies(s.now, k))])
  }

  /** Answered calls at one instant, while the counter lives and stays within the limit. */
  lemma {:induction false} JoinMany(s: State, k: nat, limit: nat, window: nat) returns (steps: seq<Step>)
    requires s.lives != [] && s.counter.Some? && Alive(s.counter, s.now).Some?
    requires s.counter.value.n >= 1 && s.counter.value.n + k <= limit
    ensures Possible(Key(limit, window), s, steps) && Run(Key(limit, window), s, steps) == JoinedBy(s, k)
    decreases k
  {
    hide Run, Possible;
    if k == 0 {
      steps := [];
      Nothing(Key(limit, window), s);
      assert s.lives[|s.lives| - 1].joined + Copies(s.now, 0) == s.lives[|s.lives| - 1].joined;
    } else {
      var front := JoinMany(s, k - 1, limit, window);
      Then(s, front, JoinedBy(s, k - 1), IncrStep(Delivered), limit, window);
      assert Copies(s.now, k - 1) + [s.now] == Copies(s.now, k);
      JoinOneMore(s, k, limit, window);
      steps := front + [IncrStep(Delivered)];
    }
  }

  lemma JoinOneMore(s: State, k: nat, limit: nat, window: nat)
    requires s.lives != [] && s.counter.Some? && Alive(s.counter, s.now).Some?
    requires k >= 1 && s.counter.value.n >= 1 && s.counter.value.n + k <= limit
    ensures Next(JoinedBy(s, k - 1), IncrStep(Delivered), limit, window) == JoinedBy(s, k)
  {
    var last := |s.lives| - 1;
    assert s.lives[last].joined + Copies(s.now, k - 1) + [s.now] == s.lives[last].joined + Copies(s.now, k);
  }

  /** A lifetime that opens at t is used up at once. */
  function FullAt(t: int, limit: nat): Life
    requires limit >= 1
  {
    Life(t, true, Copies(t, limit - 1))
  }

  /** The counter is used up and its deadline is a window after t. */
  predicate Spent(s: State, t: int, limit: nat, window: nat) {
    s.now <= t + window && s.counter == Some(Counter(limit, Some(t + window))) && s.pending == []
  }

  /** A new lifetime opens at t and is given its deadline. */
  lemma Opens(s: State, t: int, limit: nat, window: nat) returns (steps: seq<Step>, s': State)
    requires limit >= 1 && s.now <= t && Alive(s.counter, t).None? && s.pending == []
    ensures Possible(Key(limit, window), s, steps) && Run(Key(limit, window), s, steps) == s'
    ensures s'.now == t && s'.counter == Some(Counter(1, Some(t + window))) && s'.pending == []
    ensures s'.lives == s.lives + [Life(t, true, [])]
  {
    hide Run, Possible;
    Nothing(Key(limit, window), s);
    Then(s, [], s, Tick(t), limit, window);
    steps := [] + [Tick(t)];
    s' := Next(s, Tick(t), limit, window);
    Then(s, steps, s', IncrStep(Delivered), limit, window);
    steps := steps + [IncrStep(Delivered)];
    s' := Next(s', IncrStep(Delivered), limit, window);
    Then(s, steps, s', ExpireStep(0), limit, window);
    steps := steps + [ExpireStep(0)];
    s' := Next(s', ExpireStep(0), limit, window);
  }

  /** A full lifetime at t, once the counter before is dead. */
  lemma FullLife(s: State, t: int, limit: nat, window: nat) returns (steps: seq<Step>, s': State)
    requires limit >= 1 && s.now <= t && Alive(s.counter, t).None? && s.pending == []
    ensures Possible(Key(limit, window), s, steps) && Run(Key(limit, window), s, steps) == s'
    ensures Spent(s', t, limit, window) && s'.lives == s.lives + [FullAt(t, limit)]
  {
    hide Run, Possible;
    var x, s1 := Opens(s, t, limit, window);
    var y := JoinMany(s1, limit - 1, limit, window);
    Append(Key(limit, window), s, x, y);
    assert [] + Copies(t, limit - 1) == Copies(t, limit - 1);
    steps, s' := x + y, JoinedBy(s1, limit - 1);
    assert s'.lives == s.lives + [FullAt(t, limit)];
  }

  /** When the k-th lifetime after one at t can open, at the earliest. */
  function Opening(t: int, k: nat, window: nat): int {
    if k == 0 then t else Opening(t, k - 1, window) + window + 1
  }

  /** k full lifetimes, as close as they can be, the first at t. */
  function Row(t: int, k: nat, limit: nat, window: nat): (r: seq<Life>)
    requires limit >= 1
    ensures |r| == k
  {
    if k == 0 then [] else Row(t, k - 1, limit, window) + [FullAt(Opening(t, k - 1, window), limit)]
  }

  lemma {:induction false} FullRow(s: State, t: int, k: nat, limit: nat, window: nat)
    returns (steps: seq<Step>, s': State)
    requires limit >= 1 && s.now <= t && Alive(s.counter, t).None? && s.pending == []
    ensures Possible(Key(limit, window), s, steps) && Run(Key(limit, window), s, steps) == s'
    ensures Spent(s', Opening(t, k, window), limit, window) && s'.lives == s.lives + Row(t, k + 1, limit, window)
    decreases k
  {
    hide Run, Possible;
    if k == 0 {
      steps, s' := FullLife(s, t, limit, window);
      assert Row(t, 1, limit, window) == [] + [FullAt(t, limit)];
    } else {
      var x, s1 := FullRow(s, t, k - 1, limit, window);
      var y, s2 := FullLife(s1, Opening(t, k, window), limit, window);
      Append(Key(limit, window), s, x, y);
      steps, s' := x + y, s2;
    }
  }

  lemma FullAllowed(t: int, limit: nat, a: int, b: int)
    requires limit >= 1 && a <= t < b
    ensures AllowedOf(FullAt(t, limit), a, b) == limit
  {
    CopiesInRange([], t, limit - 1, a, b);
    assert [] + Copies(t, limit - 1) == Copies(t, limit - 1);
  }

  lemma {:induction false} OpeningIs(t: int, k: nat, window: nat)
    ensures Opening(t, k, window) == t + k * (window + 1)
  {
    if k == 0 {
      assert Opening(t, 0, window) == t;
    } else {
      OpeningIs(t, k - 1, window);
      assert k * (window + 1) == (k - 1) * (window + 1) + (window + 1);
    }
  }

  lemma {:induction false} RowAllowed(lives: seq<Life>, t: int, k: nat, limit: nat, window: nat, a: int, b: int)
    requires limit >= 1 && a <= t && Opening(t, k, window) < b
    ensures Opening(t, k, window) >= t
    ensures Allowed(lives + Row(t, k + 1, limit, window), a, b) == Allowed(lives, a, b) + limit * (k + 1)
    decreases k
  {
    hide FullAt, Allowed, AllowedOf;
    var front := lives + Row(t, k, limit, window);
    if k == 0 {
      assert front == lives;
    } else {
      RowAllowed(lives, t, k - 1, limit, window, a, b);
      assert limit * (k + 1) == limit * k + limit;
    }
    var l := FullAt(Opening(t, k, window), limit);
    FullAllowed(Opening(t, k, window), limit, a, b);
    AllowedSnoc(front, l, a, b);
    assert lives + Row(t, k + 1, limit, window) == front + [l];
  }

  /** A lifetime opens at 0 and is used up at the end of its window. */
  lemma LateLife(limit: nat, window: nat) returns (steps: seq<Step>, s: State)
    requires limit >= 1 && window >= 1
    ensures Possible(Key(limit, window), INITIAL, steps) && Run(Key(limit, window), INITIAL, steps) == s
    ensures Spent(s, 0, limit, window) && s.lives == [Life(0, true, Copies(window, limit - 1))]
    ensures Allowed(s.lives, window, window + 1) == limit - 1
    ensures forall b :: b > window ==> Allowed(s.lives, window, b) == limit - 1
  {
    hide Run, Possible;
    var x, s1 := Opens(INITIAL, 0, limit, window);
    Then(INITIAL, x, s1, Tick(window), limit, window);
    var s2 := Next(s1, Tick(window), limit, window);
    var y := JoinMany(s2, limit - 1, limit, window);
    Append(Key(limit, window), INITIAL, x + [Tick(window)], y);
    assert [] + Copies(window, limit - 1) == Copies(window, limit - 1);
    steps, s := x + [Tick(window)] + y, JoinedBy(s2, limit - 1);
    var l := Life(0, true, Copies(window, limit - 1));
    assert s.lives == [] + [l];
    forall b | b > window ensures Allowed(s.lives, window, b) == limit - 1 {
      CopiesInRange([], window, limit - 1, window, b);
      AllowedSnoc([], l, window, b);
    }
  }

  /** Full lifetimes from the start of the interval to its last millisecond. */
  lemma AttainedEven(limit: nat, window: nat, q: nat, length: nat) returns (steps: seq<Step>)
    requires limit >= 1 && Opening(0, q, window) < length
    ensures Possible(Key(limit, window), INITIAL, steps)
    ensures Allowed(Run(Key(limit, window), INITIAL, steps).lives, 0, length) == limit * (q + 1)
  {
    hide Run, Possible, Allowed, Row, Opening;
    var s: State;
    steps, s := FullRow(INITIAL, 0, q, limit, window);
    RowAllowed([], 0, q, limit, window, 0, length);
    NoneAllowed(0, length);
  }

  /** The same, one millisecond later, after the late calls of a lifetime before. */
  lemma AttainedLate(limit: nat, window: nat, q: nat, length: nat) returns (steps: seq<Step>)
    requires limit >= 1 && window >= 1 && Opening(window + 1, q, window) < window + length
    ensures Possible(Key(limit, window), INITIAL, steps)
    ensures Allowed(Run(Key(limit, window), INITIAL, steps).lives, window, window + length)
         == limit - 1 + limit * (q + 1)
  {
    hide Run, Possible, Allowed, Row, Opening;
    var y, s1 := LateLife(limit, window);
    var z, s2 := FullRow(s1, window + 1, q, limit, window);
    Append(Key(limit, window), INITIAL, y, z);
    steps := y + z;
    OpeningGrows(window + 1, q, window);
    RowAllowed(s1.lives, window + 1, q, limit, window, window, window + length);
  }

  lemma {:induction false} OpeningGrows(t: int, k: nat, window: nat)
    ensures Opening(t, k, window) >= t
  {
    if k == 0 {
    } else {
      OpeningGrows(t, k - 1, window);
    }
  }

  /** As many lifetimes as fit can open in time, one of them at once or all a millisecond later. */
  lemma OpeningsFit(x: nat, window: nat)
    ensures var q := x / (window + 1);
      && Opening(0, q, window) < x + 1
      && (x % (window + 1) > 0 ==> Opening(window + 1, q, window) < window + x + 1)
  {
    var q, w := x / (window + 1), window + 1;
    OpeningIs(0, q, window);
    OpeningIs(window + 1, q, window);
    assert x == q * w + x % w;
  }

  /** For every limit, window and length, some interleaving allows exactly Peak in some interval of that length. */
  lemma BoundAttained(limit: nat, window: nat, length: nat) returns (steps: seq<Step>, a: int)
    requires limit >= 1 && window >= 1 && length >= 1
    ensures Possible(Key(limit, window), INITIAL, steps)
    ensures Allowed(Run(Key(limit, window), INITIAL, steps).lives, a, a + length) == Peak(length - 1, limit, window)
  {
    hide Run, Possible, Allowed, Opening, Key;
    var q := (length - 1) / (window + 1);
    OpeningsFit(length - 1, window);
    if (length - 1) % (window + 1) == 0 {
      steps := AttainedEven(limit, window, q, length);
      a := 0;
    } else {
      steps := AttainedLate(limit, window, q, length);
      a := window;
    }
  }

  lemma NoneAllowed(a: int, b: int)
    ensures Allowed([], a, b) == 0
  {
  }
}
