/**
 * The one query shape all webhook tables are read by: ORDER BY time DESC with a LIMIT or an OFFSET.
 * SQL leaves the order among equal times open, so a result is any sequence TopN accepts.
 */
module NewestFirst {
  import opened Prelude

  /** out is a possible result of selecting the n newest keys of times, newest first. */
  ghost predicate TopN(times: map<Id, int>, n: nat, out: seq<Id>) {
    && Distinct(out)
    && (forall x :: x in out ==> x in times)
    && |out| == Min(n, |times.Keys|)
    && (forall i, j :: 0 <= i < j < |out| ==> times[out[i]] >= times[out[j]])
    && (forall x, y :: x in out && y in times && y !in out ==> times[y] <= times[x])
  }

  /** kept is a possible set of n newest keys: nothing left out is newer than anything kept. */
  ghost predicate IsTop(times: map<Id, int>, n: nat, kept: set<Id>) {
    && kept <= times.Keys
    && |kept| == Min(n, |times.Keys|)
    && (forall x, y :: x in kept && y in times && y !in kept ==> times[y] <= times[x])
  }

  ghost predicate DistinctTimes(times: map<Id, int>) {
    forall x, y :: x in times && y in times && x != y ==> times[x] != times[y]
  }

  lemma TopNIsTop(times: map<Id, int>, n: nat, out: seq<Id>)
    requires TopN(times, n, out)
    ensures IsTop(times, n, Elems(out))
  {
    DistinctSize(out);
  }

  lemma NewerIsSelected(times: map<Id, int>, n: nat, out: seq<Id>, x: Id, y: Id)
    requires TopN(times, n, out) && y in out && x in times && times[y] < times[x]
    ensures x in out
  {
  }

  /** Two answers to the same query differ only by hits of equal times. */
  lemma TopTie(times: map<Id, int>, n: nat, a: set<Id>, b: set<Id>, x: Id)
    requires IsTop(times, n, a) && IsTop(times, n, b)
    requires x in a && x !in b
    ensures exists y :: y in b && y !in a && times[y] == times[x]
  {
    assert exists y :: y in b && y !in a by {
      if b <= a { SubsetSize(b, a); }
    }
    var y :| y in b && y !in a;
    assert times[x] <= times[y] <= times[x];
  }

  /** Without ties the query has one answer as a set. */
  lemma TopUnique(times: map<Id, int>, n: nat, a: set<Id>, b: set<Id>)
    requires DistinctTimes(times)
    requires IsTop(times, n, a) && IsTop(times, n, b)
    ensures a == b
  {
    forall x | x in a ensures x in b {
      if x !in b { TopTie(times, n, a, b, x); }
    }
    SubsetSize(a, b);
  }

  /** When an arrival displaces nothing but is kept, something at most as recent was displaced. */
  lemma Displaced(all: map<Id, int>, n: nat, kept: set<Id>, h: Id, at: int, kept': set<Id>, y: Id)
    requires IsTop(all, n, kept) && h !in all
    requires IsTop(Restrict(all, kept)[h := at], n, kept')
    requires y in all && y !in kept && h in kept'
    ensures all[y] <= at
  {
    var seen := Restrict(all, kept)[h := at];
    SubsetSize(kept, all.Keys);
    assert seen.Keys == kept + {h};
    assert |kept'| == |kept| == n;
    assert kept' == (kept' - {h}) + {h};
    assert exists z :: z in kept && z !in kept' by {
      if kept <= kept' { SubsetSize(kept, kept' - {h}); }
    }
    var z :| z in kept && z !in kept';
    assert all[y] <= all[z] == seen[z] <= seen[h];
  }

  lemma StreamOrder(all: map<Id, int>, n: nat, kept: set<Id>, h: Id, at: int, kept': set<Id>, x: Id, y: Id)
    requires IsTop(all, n, kept) && h !in all
    requires IsTop(Restrict(all, kept)[h := at], n, kept')
    requires x in kept' && y in all[h := at] && y !in kept'
    ensures x in all[h := at] && all[h := at][y] <= all[h := at][x]
  {
    var seen := Restrict(all, kept)[h := at];
    assert x in seen;
    if y in seen {
      assert seen[y] <= seen[x];
    } else if x == h {
      Displaced(all, n, kept, h, at, kept', y);
    } else {
      assert x in kept && all[y] <= all[x];
    }
  }

  lemma StreamSize(all: map<Id, int>, n: nat, kept: set<Id>, h: Id, at: int, kept': set<Id>)
    requires IsTop(all, n, kept) && h !in all
    requires IsTop(Restrict(all, kept)[h := at], n, kept')
    ensures kept' <= all[h := at].Keys && |kept'| == Min(n, |all[h := at].Keys|)
  {
    assert Restrict(all, kept)[h := at].Keys == kept + {h};
    assert all[h := at].Keys == all.Keys + {h};
    if kept != all.Keys { SubsetSize(kept, all.Keys); }
  }

  /**
   * Streaming: keeping the n newest of (what was kept, plus one arrival) keeps the n newest of
   * everything that ever arrived, whatever the arrival's time is.
   */
  lemma TopStream(all: map<Id, int>, n: nat, kept: set<Id>, h: Id, at: int, kept': set<Id>)
    requires IsTop(all, n, kept)
    requires h !in all
    requires IsTop(Restrict(all, kept)[h := at], n, kept')
    ensures IsTop(all[h := at], n, kept')
  {
    StreamSize(all, n, kept, h, at, kept');
    forall x, y | x in kept' && y in all[h := at] && y !in kept' ensures all[h := at][y] <= all[h := at][x] {
      StreamOrder(all, n, kept, h, at, kept', x, y);
    }
  }

  lemma ConsDistinct(id: Id, s: seq<Id>)
    requires Distinct(s) && id !in s
    ensures Distinct([id] + s) && Elems([id] + s) == {id} + Elems(s)
  {
    forall i, j | 0 <= i < j < |[id] + s| ensures ([id] + s)[i] != ([id] + s)[j] {
      assert ([id] + s)[j] == s[j - 1];
    }
    assert forall x :: x in [id] + s <==> x == id || x in s;
  }

  lemma ConsSorted(times: map<Id, int>, front: seq<Id>, id: Id, now: int)
    requires id !in times && forall h :: h in times ==> times[h] <= now
    requires forall x :: x in front ==> x in times
    requires forall i, j :: 0 <= i < j < |front| ==> times[front[i]] >= times[front[j]]
    ensures var keep, all := [id] + front, times[id := now];
      forall i, j :: 0 <= i < j < |keep| ==> keep[i] in all && keep[j] in all && all[keep[i]] >= all[keep[j]]
  {
    var keep, all := [id] + front, times[id := now];
    forall i, j | 0 <= i < j < |keep| ensures keep[i] in all && keep[j] in all && all[keep[i]] >= all[keep[j]] {
      assert keep[j] == front[j - 1];
      if i > 0 { assert keep[i] == front[i - 1]; }
    }
  }

  /**
   * A full selection and one newer arrival: the oldest is what the n newest leave out. others are
   * the selected ones but the oldest.
   */
  lemma OldestLeft(times: map<Id, int>, n: nat, oldest: Id, others: seq<Id>, id: Id, now: int)
    requires oldest in times && |times.Keys| == n
    requires TopN(times - {oldest}, n - 1, others)
    requires id !in times && forall h :: h in times ==> times[oldest] <= times[h] <= now
    ensures TopN(times[id := now], n, [id] + others)
    ensures times[id := now].Keys - Elems([id] + others) == {oldest}
  {
    var keep, all := [id] + others, times[id := now];
    OldestElems(times, n, oldest, others, id, now);
    OthersSorted(times, n - 1, oldest, others);
    ConsSorted(times, others, id, now);
    hide Distinct, TopN;
    AllButOne(all, n, keep, oldest);
    assert all.Keys - (all.Keys - {oldest}) == {oldest};
  }

  lemma OldestElems(times: map<Id, int>, n: nat, oldest: Id, others: seq<Id>, id: Id, now: int)
    requires oldest in times && |times.Keys| == n && id !in times
    requires TopN(times - {oldest}, n - 1, others)
    ensures Distinct([id] + others) && Elems([id] + others) == times[id := now].Keys - {oldest}
    ensures |times[id := now].Keys| == n + 1
  {
    var rest := times - {oldest};
    assert rest.Keys == times.Keys - {oldest};
    SelectsAll(rest, others);
    ConsDistinct(id, others);
    hide Distinct, TopN;
    assert times[id := now].Keys == times.Keys + {id};
  }

  lemma OthersSorted(times: map<Id, int>, n: nat, oldest: Id, others: seq<Id>)
    requires TopN(times - {oldest}, n, others)
    ensures forall x :: x in others ==> x in times
    ensures forall i, j :: 0 <= i < j < |others| ==> times[others[i]] >= times[others[j]]
  {
    var rest := times - {oldest};
    assert forall x :: x in others ==> x in rest && x in times && rest[x] == times[x];
    assert forall i :: 0 <= i < |others| ==> others[i] in others;
    assert forall i, j :: 0 <= i < j < |others| ==> rest[others[i]] >= rest[others[j]];
  }

  lemma AllButOne(all: map<Id, int>, n: nat, keep: seq<Id>, oldest: Id)
    requires Distinct(keep) && oldest in all && Elems(keep) == all.Keys - {oldest} && |all.Keys| == n + 1
    requires forall i, j :: 0 <= i < j < |keep| ==> keep[i] in all && keep[j] in all && all[keep[i]] >= all[keep[j]]
    requires forall h :: h in all ==> all[oldest] <= all[h]
    ensures TopN(all, n, keep)
  {
    DistinctSize(keep);
    hide Distinct;
    assert forall y :: y in keep <==> y in Elems(keep);
  }

  lemma SelectsAll(times: map<Id, int>, order: seq<Id>)
    requires TopN(times, |times.Keys|, order)
    ensures Elems(order) == times.Keys
  {
    DistinctSize(order);
    SubsetSize(Elems(order), times.Keys);
  }

  /** The selection the database performs; among equal times it may return any order. */
  method OrderDesc(times: map<Id, int>, n: nat) returns (out: seq<Id>)
    ensures TopN(times, n, out)
  {
    out := [];
    var rest := times.Keys;
    while |out| < n && rest != {}
      invariant rest <= times.Keys
      invariant forall x :: x in out <==> x in times && x !in rest
      invariant Distinct(out)
      invariant |out| <= n && |out| + |rest| == |times.Keys|
      invariant forall i, j :: 0 <= i < j < |out| ==>
        out[i] in times && out[j] in times && times[out[i]] >= times[out[j]]
      invariant forall x, y :: x in out && y in rest ==> x in times && times[y] <= times[x]
      decreases rest
    {
      var best := Newest(times, rest);
      out := out + [best];
      rest := rest - {best};
    }
  }

  method Newest(times: map<Id, int>, among: set<Id>) returns (best: Id)
    requires among != {} && among <= times.Keys
    ensures best in among && forall y :: y in among ==> times[y] <= times[best]
  {
    best :| best in among;
    var todo := among - {best};
    while todo != {}
      invariant todo <= among && best in among
      invariant forall y :: y in among - todo ==> times[y] <= times[best]
      decreases todo
    {
      var y :| y in todo;
      if times[best] < times[y] { best := y; }
      todo := todo - {y};
    }
  }
}
