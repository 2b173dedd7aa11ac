/**
 * State machines and their runs. An interleaving is any sequence of steps, each of them enabled when
 * its turn comes.
 */
module Runs {

  /** next is meant for enabled steps. */
  datatype Machine<!S, !T> = Machine(enabled: (S, T) -> bool, next: (S, T) -> S)

  ghost predicate Possible<S(!new), T(!new)>(m: Machine<S, T>, s: S, steps: seq<T>)
    decreases |steps|
  {
    steps == [] || (m.enabled(s, steps[0]) && Possible(m, m.next(s, steps[0]), steps[1..]))
  }

  ghost function Run<S(!new), T(!new)>(m: Machine<S, T>, s: S, steps: seq<T>): S
    decreases |steps|
  {
    if steps == [] then s else Run(m, m.next(s, steps[0]), steps[1..])
  }

  lemma Nothing<S(!new), T(!new)>(m: Machine<S, T>, s: S)
    ensures Possible(m, s, []) && Run(m, s, []) == s
  {
  }

  lemma One<S(!new), T(!new)>(m: Machine<S, T>, s: S, step: T)
    ensures Possible(m, s, [step]) <==> m.enabled(s, step)
    ensures Run(m, s, [step]) == m.next(s, step)
  {
    var s1 := m.next(s, step);
    assert [step][1..] == [] && Possible(m, s1, []) && Run(m, s1, []) == s1;
  }

  lemma {:induction false} Append<S(!new), T(!new)>(m: Machine<S, T>, s: S, a: seq<T>, b: seq<T>)
    ensures Run(m, s, a + b) == Run(m, Run(m, s, a), b)
    ensures Possible(m, s, a + b) <==> Possible(m, s, a) && Possible(m, Run(m, s, a), b)
    decreases |a|
  {
    if a == [] {
      assert a + b == b;
    } else {
      Append(m, m.next(s, a[0]), a[1..], b);
      assert (a + b)[0] == a[0] && (a + b)[1..] == a[1..] + b;
    }
  }

  lemma Snoc<S(!new), T(!new)>(m: Machine<S, T>, s: S, a: seq<T>, step: T)
    ensures Possible(m, s, a + [step]) <==> Possible(m, s, a) && m.enabled(Run(m, s, a), step)
    ensures Run(m, s, a + [step]) == m.next(Run(m, s, a), step)
  {
    One(m, Run(m, s, a), step);
    Append(m, s, a, [step]);
  }

  /** What every step keeps, every run keeps. */
  lemma {:induction false} Keeps<S(!new), T(!new)>(m: Machine<S, T>, inv: S -> bool, s: S, steps: seq<T>)
    requires inv(s) && Possible(m, s, steps)
    requires forall x, t :: inv(x) && m.enabled(x, t) ==> inv(m.next(x, t))
    ensures inv(Run(m, s, steps))
    decreases |steps|
  {
    if steps == [] {
      assert Run(m, s, steps) == s;
    } else {
      Keeps(m, inv, m.next(s, steps[0]), steps[1..]);
    }
  }

  /** A run of a machine is a run of one that enables more. */
  lemma {:induction false} MoreEnabled<S(!new), T(!new)>(m: Machine<S, T>, more: Machine<S, T>, s: S, steps: seq<T>)
    requires Possible(m, s, steps)
    requires forall x, t :: m.enabled(x, t) ==> more.enabled(x, t) && more.next(x, t) == m.next(x, t)
    ensures Possible(more, s, steps) && Run(more, s, steps) == Run(m, s, steps)
    decreases |steps|
  {
    if steps == [] {
      assert Run(m, s, steps) == s;
    } else {
      MoreEnabled(m, more, m.next(s, steps[0]), steps[1..]);
    }
  }
}
