/** Exactly which bins can be paged through without losing a hit. */
module PagingTies {
  import opened Prelude
  import opened NewestFirst
  import opened Tables
  import opened WebhookOps
  import opened Paging

  /** Every session that starts from s and ends with an empty page returns all it should. */
  ghost predicate AlwaysComplete(s: State, used: set<Id>, user: string, binId: Id) {
    forall turns: seq<Turn> :: Pages(s, used, user, binId, turns) ==> CompleteIfOver(s, used, user, binId, turns)
  }

  ghost predicate CompleteIfOver(s: State, used: set<Id>, user: string, binId: Id, turns: seq<Turn>)
    requires Pages(s, used, user, binId, turns)
  {
    var first := HitTimes(s.db, binId);
    var x := Play(Start(s, used), user, binId, first, turns);
    x.over ==> Complete(first, HitTimes(x.s.db, binId), x.got)
  }

  // ----- Asking for one hit at a time -----

  lemma {:induction false} NewestOf(times: map<Id, int>) returns (best: Id)
    requires times.Keys != {}
    ensures best in times && forall y :: y in times ==> times[y] <= times[best]
    decreases times.Keys
  {
    var x :| x in times;
    var rest := times - {x};
    if rest.Keys == {} {
      best := x;
      assert forall y :: y in times ==> y == x || y in rest;
    } else {
      var b := NewestOf(rest);
      best := if times[b] > times[x] then b else x;
      assert forall y :: y in times ==> y == x || y in rest;
    }
  }

  lemma OneHit(times: map<Id, int>, best: Id)
    requires best in times && forall y :: y in times ==> times[y] <= times[best]
    ensures TopN(times, 1, [best])
  {
    assert {best} <= times.Keys;
    SubsetSize({best}, times.Keys);
  }

  ghost predicate Strict(first: map<Id, int>, got: seq<Id>) {
    forall i, j :: 0 <= i < j < |got| ==> got[i] in first && got[j] in first && first[got[i]] > first[got[j]]
  }

  /** A session on an unchanged bin whose hits so far came from different times. */
  ghost predicate Walking(x: Session, user: string, binId: Id, env: Env, first: map<Id, int>) {
    && !x.over && HitTimes(x.s.db, binId) == first && "" !in first
    && GetOwned(x.s, user, binId, env).reply.OneBin?
    && Strict(first, x.got) && (forall h :: h in x.got ==> h in first)
  }

  /** The page that the next turn gets: the newest hit left, or none. */
  lemma NextHit(x: Session, user: string, binId: Id, env: Env, first: map<Id, int>) returns (turn: Turn)
    requires Walking(x, user, binId, env, first)
    ensures turn.More? && |turn.page| <= 1 && Valid(x, user, binId, first, turn)
    ensures var cand := Candidates(x.s.db, binId, Cursor(x.got));
      && (turn.page == [] <==> cand.Keys == {})
      && (turn.page != [] ==> turn.page[0] in cand)
    ensures var y := Advance(x, user, binId, turn); y.s == x.s && y.got == x.got + turn.page
    ensures Advance(x, user, binId, turn).over <==> turn.page == []
  {
    var cand := Candidates(x.s.db, binId, Cursor(x.got));
    hide HitTimes, Candidates;
    if cand.Keys == {} {
      assert TopN(cand, 1, []);
      turn := More(1, [], env);
    } else {
      var best := NewestOf(cand);
      OneHit(cand, best);
      turn := More(1, [best], env);
    }
    hide TopN;
  }

  lemma LaterCandidates(db: Db, binId: Id, got: seq<Id>, best: Id)
    requires "" !in HitTimes(db, binId) && best in Candidates(db, binId, Cursor(got))
    requires got != [] ==> Cursor(got) in HitTimes(db, binId)
    ensures best in HitTimes(db, binId)
    ensures got != [] ==> HitTimes(db, binId)[best] < HitTimes(db, binId)[Cursor(got)]
    ensures Candidates(db, binId, best).Keys < Candidates(db, binId, Cursor(got)).Keys
  {
    assert best !in Candidates(db, binId, best);
  }

  lemma StrictSnoc(first: map<Id, int>, got: seq<Id>, best: Id)
    requires Strict(first, got) && best in first && forall h :: h in got ==> h in first
    requires got != [] ==> first[best] < first[Cursor(got)]
    ensures Strict(first, got + [best]) && forall h :: h in got + [best] ==> h in first
  {
    var all := got + [best];
    forall i, j | 0 <= i < j < |all| ensures all[i] in first && all[j] in first && first[all[i]] > first[all[j]] {
      assert all[i] == got[i] && got[i] in got;
      if j == |got| {
        assert i < |got| - 1 ==> first[got[i]] > first[got[|got| - 1]];
      } else {
        assert all[j] == got[j];
      }
    }
  }

  /** Asked for one hit at a time, a bin at rest yields one hit of each time, and then an empty page. */
  lemma {:induction false} OneByOne(x: Session, user: string, binId: Id, env: Env, first: map<Id, int>)
    returns (turns: seq<Turn>)
    requires Walking(x, user, binId, env, first)
    ensures turns != [] && turns[0].More? && AllValid(x, user, binId, first, turns)
    ensures var y := Play(x, user, binId, first, turns);
      y.over && y.s == x.s && Strict(first, y.got)
    decreases Candidates(x.s.db, binId, Cursor(x.got)).Keys
  {
    var turn := NextHit(x, user, binId, env, first);
    var y := Advance(x, user, binId, turn);
    hide Valid, Advance, HitTimes, Candidates, Strict, GetOwned;
    if turn.page == [] {
      turns := [turn];
      assert turns[1..] == [] && AllValid(y, user, binId, first, []) && Play(y, user, binId, first, []) == y;
      assert x.got + turn.page == x.got;
    } else {
      var best := turn.page[0];
      assert turn.page == [best];
      assert x.got != [] ==> Cursor(x.got) in x.got;
      LaterCandidates(x.s.db, binId, x.got, best);
      StrictSnoc(first, x.got, best);
      assert Cursor(y.got) == best;
      var rest := OneByOne(y, user, binId, env, first);
      turns := [turn] + rest;
      assert turns[1..] == rest;
    }
  }

  lemma TiesNotBoth(first: map<Id, int>, got: seq<Id>)
    requires Strict(first, got) && Complete(first, first, got)
    ensures DistinctTimes(first)
  {
    forall x, y | x in first && y in first && x != y ensures first[x] != first[y] {
      assert x in got && y in got;
      var i, j :| 0 <= i < |got| && 0 <= j < |got| && got[i] == x && got[j] == y;
    }
  }

  /**
   * A bin that its owner can read is paged through completely by every session, whatever the page
   * sizes and whatever happens in between, if and only if no two of its hits have the same time.
   */
  lemma CompleteIffDistinct(s: State, used: set<Id>, user: string, binId: Id, env: Env)
    requires s.db.hits.Keys <= used && "" !in used
    requires GetOwned(s, user, binId, env).reply.OneBin?
    ensures AlwaysComplete(s, used, user, binId) <==> DistinctTimes(HitTimes(s.db, binId))
  {
    var first := HitTimes(s.db, binId);
    if DistinctTimes(first) {
      forall turns: seq<Turn> | Pages(s, used, user, binId, turns)
        ensures CompleteIfOver(s, used, user, binId, turns)
      {
        DistinctTimesLoseNothing(s, used, user, binId, turns);
      }
    } else {
      var x := Start(s, used);
      assert "" !in first;
      assert Walking(x, user, binId, env, first);
      var turns := OneByOne(x, user, binId, env, first);
      hide Walking, AllValid, Play, HitTimes, Strict, DistinctTimes, GetOwned;
      assert Pages(s, used, user, binId, turns);
      if CompleteIfOver(s, used, user, binId, turns) {
        TiesNotBoth(first, Play(x, user, binId, first, turns).got);
      }
    }
  }
}
