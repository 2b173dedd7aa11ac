/**
 * A client pages through a bin by passing the last hit id it got as the cursor, while the store goes
 * on: newer hits arrive and push out old ones, the bin may be cleared, deleted or expire.
 */
module Paging {
  import opened Prelude
  import opened NewestFirst
  import opened Limits
  import opened Tables
  import opened HitLaws
  import opened WebhookOps

  datatype Turn =
    | Other(e: Event)
    | More(limit: int, page: seq<Id>, env: Env)

  /**
   * got: all ids returned so far; ends: the last id of each page, which becomes the cursor;
   * over: the last page was empty; pages: requests made.
   */
  datatype Session = Session(s: State, used: set<Id>, got: seq<Id>, ends: seq<Id>, over: bool, pages: nat)

  function Start(s: State, used: set<Id>): Session {
    Session(s, used, [], [], false, 0)
  }

  function Cursor(got: seq<Id>): Id {
    if got == [] then "" else got[|got| - 1]
  }

  function Request(x: Session, user: string, binId: Id, turn: Turn): Op
    requires turn.More?
  {
    ListHits(user, binId, turn.limit, Cursor(x.got), turn.page)
  }

  /** first: the hits of the bin when the client starts. Later arrivals are newer than all of them. */
  ghost predicate Valid(x: Session, user: string, binId: Id, first: map<Id, int>, turn: Turn) {
    match turn
    case Other(e) =>
      && WellFormed(e.op) && NewIds(e.op) !! x.used && Allowed(x.s, e.op, e.env)
      && (e.op.Ingest? && e.op.binId == binId ==> forall h :: h in first ==> first[h] < e.env.now)
    case More(limit, page, env) =>
      && !x.over
      && GetOwned(x.s, user, binId, env).reply.OneBin?
      && Allowed(x.s, Request(x, user, binId, turn), env)
  }

  function Advance(x: Session, user: string, binId: Id, turn: Turn): Session
    requires turn.Other? ==> WellFormed(turn.e.op)
  {
    match turn
    case Other(e) => x.(s := Step(x.s, e.op, e.env).state, used := x.used + NewIds(e.op))
    case More(_, page, env) =>
      Session(Step(x.s, Request(x, user, binId, turn), env).state, x.used, x.got + page,
              if page == [] then x.ends else x.ends + [Cursor(page)], page == [], x.pages + 1)
  }

  // ----- What the store does to the hits the client started from -----

  /**
   * Survivors keep their time, whatever is not from the start is newer, and what is gone is older than
   * what survives.
   */
  ghost predicate Later(first: map<Id, int>, now: map<Id, int>) {
    && (forall h :: h in first && h in now ==> now[h] == first[h])
    && (forall h, g :: h in now && h !in first && g in first ==> first[g] < now[h])
    && (forall g, h :: g in first && h in first && g in now && first[g] < first[h] ==> h in now)
  }

  ghost predicate NoReuse(db: Db, first: map<Id, int>, used: set<Id>) {
    db.hits.Keys <= used && first.Keys <= used
  }

  lemma IngestLater(first: map<Id, int>, times: map<Id, int>, h: Id, at: int, keep: seq<Id>)
    requires Later(first, times) && h !in first && h !in times
    requires forall g :: g in first ==> first[g] < at
    requires TopN(times[h := at], MAX_HITS_PER_BIN, keep)
    ensures Later(first, Restrict(times[h := at], Elems(keep)))
  {
    var now := Restrict(times[h := at], Elems(keep));
    forall g, x | g in first && x in first && g in now && first[g] < first[x] ensures x in now {
      assert g in keep && g in times && x in times;
      NewerIsSelected(times[h := at], MAX_HITS_PER_BIN, keep, x, g);
    }
  }

  /** Everything but an ingest leaves the hits of a bin alone or deletes them all. */
  lemma AllOrNothing(s: State, op: Op, env: Env, binId: Id)
    requires WellFormed(op) && !op.Ingest?
    ensures HitTimes(Step(s, op, env).state.db, binId) in {HitTimes(s.db, binId), map[]}
    ensures Step(s, op, env).state.db.hits.Keys <= s.db.hits.Keys
  {
    hide KeepHits, RowsOf, HitTimes;
    var s1 := PruneExpired(s, env);
    DeletedTimes(s.db, ExpiredIds(s.db, env.now), binId);
    if op.Create? {
      SameHits(s1.db, NewBin(op.user, op.name, op.newId, env.now), binId);
    } else if op.ClearHits? {
      ClearAllOrNothing(s, op.user, op.binId, env, binId);
    } else if !op.List? && !op.PublicExists? {
      DeletedTimes(s.db, {op.binId}, binId);
      DeletedTimes(s1.db, {op.binId}, binId);
    }
  }

  lemma SameHits(db: Db, bin: Bin, b: Id)
    ensures HitTimes(InsertBin(db, bin), b) == HitTimes(db, b)
  {
  }

  lemma ClearAllOrNothing(s: State, user: string, target: Id, env: Env, binId: Id)
    ensures HitTimes(ClearBinHits(s, user, target, env).state.db, binId) in {HitTimes(s.db, binId), map[]}
    ensures ClearBinHits(s, user, target, env).state.db.hits.Keys <= s.db.hits.Keys
  {
    DeletedTimes(s.db, {target}, binId);
    ClearedTimes(s.db, target, binId);
    DeletedTimes(ClearBin(s.db, target), {target}, binId);
    assert ClearBin(s.db, target).hits.Keys <= s.db.hits.Keys;
    hide HitTimes, ClearBin;
  }

  lemma OtherLater(s: State, used: set<Id>, binId: Id, first: map<Id, int>, e: Event)
    requires NoReuse(s.db, first, used) && Later(first, HitTimes(s.db, binId))
    requires WellFormed(e.op) && NewIds(e.op) !! used && Allowed(s, e.op, e.env)
    requires e.op.Ingest? && e.op.binId == binId ==> forall h :: h in first ==> first[h] < e.env.now
    ensures Later(first, HitTimes(Step(s, e.op, e.env).state.db, binId))
    ensures NoReuse(Step(s, e.op, e.env).state.db, first, used + NewIds(e.op))
  {
    if e.op.Ingest? {
      IngestOtherLater(s, used, binId, first, e.op, e.env);
    } else {
      AllOrNothing(s, e.op, e.env, binId);
      hide Step, Allowed;
    }
  }

  predicate Arrives(s: State, op: Op, env: Env, binId: Id)
    requires op.Ingest?
  {
    op.binId == binId && IngestHit(s, op.binId, op.input, op.hitId, op.keep, env).reply.Stored?
  }

  lemma RefusedHits(s: State, op: Op, env: Env, binId: Id)
    requires op.Ingest? && !IngestHit(s, op.binId, op.input, op.hitId, op.keep, env).reply.Stored?
    ensures var d := IngestHit(s, op.binId, op.input, op.hitId, op.keep, env);
      HitTimes(d.state.db, binId) in {HitTimes(s.db, binId), map[]}
  {
    hide HitTimes, StoreHit, MakeHit, DeleteBins;
    var s1 := PruneExpired(s, env);
    DeletedTimes(s.db, ExpiredIds(s.db, env.now), binId);
    DeletedTimes(s1.db, {op.binId}, binId);
  }

  lemma AcceptedHits(s: State, op: Op, env: Env, binId: Id)
    requires op.Ingest? && op.hitId !in s.db.hits
    requires IngestHit(s, op.binId, op.input, op.hitId, op.keep, env).reply.Stored?
    ensures var d := IngestHit(s, op.binId, op.input, op.hitId, op.keep, env);
      HitTimes(d.state.db, binId)
      == var times := HitTimes(PruneExpired(s, env).db, binId);
         if op.binId == binId then Restrict(times[op.hitId := env.now], Elems(op.keep)) else times
    ensures op.binId == binId && Allowed(s, op, env) ==>
      TopN(HitTimes(PruneExpired(s, env).db, binId)[op.hitId := env.now], MAX_HITS_PER_BIN, op.keep)
  {
    var s1, hit := PruneExpired(s, env), MakeHit(op.binId, op.input, op.hitId, env.now);
    assert op.hitId !in s1.db.hits;
    InsertedTimes(s1.db, hit, binId);
    StoredTimes(s1.db, hit, op.keep, binId);
    hide HitTimes, StoreHit, TopN, Restrict, InsertHit, PruneExpired;
  }

  lemma LiveBinKeepsHits(s: State, env: Env, binId: Id)
    ensures HitTimes(PruneExpired(s, env).db, binId) in {HitTimes(s.db, binId), map[]}
    ensures binId in PruneExpired(s, env).db.bins ==>
      HitTimes(PruneExpired(s, env).db, binId) == HitTimes(s.db, binId)
  {
    DeletedTimes(s.db, ExpiredIds(s.db, env.now), binId);
    hide HitTimes;
  }

  /** What an ingest, into this bin or another, leaves of this bin. */
  lemma IngestHits(s: State, op: Op, env: Env, binId: Id)
    requires op.Ingest? && WellFormed(op) && op.hitId !in s.db.hits
    ensures Arrives(s, op, env, binId) ==>
      HitTimes(Step(s, op, env).state.db, binId) == Restrict(HitTimes(s.db, binId)[op.hitId := env.now], Elems(op.keep))
    ensures Arrives(s, op, env, binId) && Allowed(s, op, env) ==>
      TopN(HitTimes(s.db, binId)[op.hitId := env.now], MAX_HITS_PER_BIN, op.keep)
    ensures !Arrives(s, op, env, binId) ==> HitTimes(Step(s, op, env).state.db, binId) in {HitTimes(s.db, binId), map[]}
  {
    LiveBinKeepsHits(s, env, binId);
    assert Arrives(s, op, env, binId) ==> binId in PruneExpired(s, env).db.bins;
    hide HitTimes, TopN, Restrict, IngestHit, PruneExpired, Allowed;
    if IngestHit(s, op.binId, op.input, op.hitId, op.keep, env).reply.Stored? {
      AcceptedHits(s, op, env, binId);
    } else {
      RefusedHits(s, op, env, binId);
    }
  }

  lemma IngestNoReuse(s: State, used: set<Id>, op: Op, env: Env)
    requires op.Ingest? && WellFormed(op) && s.db.hits.Keys <= used
    ensures Step(s, op, env).state.db.hits.Keys <= used + {op.hitId}
  {
    hide HitTimes;
  }

  lemma IngestOtherLater(s: State, used: set<Id>, binId: Id, first: map<Id, int>, op: Op, env: Env)
    requires op.Ingest? && WellFormed(op) && op.hitId !in used && Allowed(s, op, env)
    requires NoReuse(s.db, first, used) && Later(first, HitTimes(s.db, binId))
    requires op.binId == binId ==> forall h :: h in first ==> first[h] < env.now
    ensures Later(first, HitTimes(Step(s, op, env).state.db, binId))
    ensures NoReuse(Step(s, op, env).state.db, first, used + {op.hitId})
  {
    IngestHits(s, op, env, binId);
    IngestNoReuse(s, used, op, env);
    EmptyLater(first);
    hide HitTimes, Step, TopN, Later, Allowed, IngestHit;
    if Arrives(s, op, env, binId) {
      HitsAreUsed(s.db, binId);
      IngestLater(first, HitTimes(s.db, binId), op.hitId, env.now, op.keep);
    }
  }

  lemma HitsAreUsed(db: Db, binId: Id)
    ensures HitTimes(db, binId).Keys <= db.hits.Keys
  {
  }

  lemma EmptyLater(first: map<Id, int>)
    ensures Later(first, map[])
  {
  }

  // ----- The client's invariant -----

  ghost predicate Sorted(first: map<Id, int>, got: seq<Id>) {
    && Distinct(got)
    && (forall h :: h in got ==> h in first)
    && (forall i, j :: 0 <= i < j < |got| ==> got[i] in first && got[j] in first && first[got[i]] >= first[got[j]])
  }

  /** h has the same time as the last hit of some page. */
  ghost predicate Tied(first: map<Id, int>, ends: seq<Id>, h: Id)
    requires h in first
  {
    exists c :: c in ends && c in first && first[c] == first[h]
  }

  /** Everything still stored and at least as recent as the cursor has been returned, or is tied. */
  ghost predicate CaughtUp(first: map<Id, int>, now: map<Id, int>, got: seq<Id>, ends: seq<Id>)
    requires got != [] ==> Cursor(got) in first
  {
    got != [] ==>
      forall h :: h in first && h in now && first[h] >= first[Cursor(got)] ==> h in got || Tied(first, ends, h)
  }

  ghost predicate OnlyTiesLost(first: map<Id, int>, now: map<Id, int>, got: seq<Id>, ends: seq<Id>) {
    forall h :: h in first && h in now ==> h in got || Tied(first, ends, h)
  }

  ghost predicate Inv(x: Session, binId: Id, first: map<Id, int>) {
    var now := HitTimes(x.s.db, binId);
    && NoReuse(x.s.db, first, x.used) && "" !in first
    && Later(first, now)
    && (x.pages == 0 ==> x.got == [] && !x.over && now == first)
    && (x.pages > 0 && x.got == [] ==> x.over)
    && Sorted(first, x.got)
    && CaughtUp(first, now, x.got, x.ends)
    && (x.over ==> OnlyTiesLost(first, now, x.got, x.ends))
    && x.pages <= |x.got| + (if x.over then 1 else 0)
  }

  /** What is gone was older than every survivor, so what has been returned stays ahead. */
  lemma OtherKeeps(x: Session, user: string, binId: Id, first: map<Id, int>, e: Event)
    requires Inv(x, binId, first) && Valid(x, user, binId, first, Other(e)) && x.pages > 0
    ensures Inv(Advance(x, user, binId, Other(e)), binId, first)
  {
    OtherLater(x.s, x.used, binId, first, e);
    SurvivorsOnly(x.s, x.used, binId, first, e);
    hide Step, HitTimes, Allowed, Tied;
  }

  /** No hit of the start comes back. */
  lemma SurvivorsOnly(s: State, used: set<Id>, binId: Id, first: map<Id, int>, e: Event)
    requires NoReuse(s.db, first, used)
    requires WellFormed(e.op) && NewIds(e.op) !! used
    ensures forall h :: h in first && h in HitTimes(Step(s, e.op, e.env).state.db, binId) ==> h in HitTimes(s.db, binId)
  {
    if e.op.Ingest? {
      IngestHits(s, e.op, e.env, binId);
    } else {
      AllOrNothing(s, e.op, e.env, binId);
    }
    hide Step, HitTimes;
  }

  // ----- One page -----

  lemma PageIsSorted(first: map<Id, int>, cand: map<Id, int>, n: nat, page: seq<Id>)
    requires TopN(cand, n, page)
    requires forall h :: h in cand ==> h in first && cand[h] == first[h]
    ensures Sorted(first, page)
  {
    forall i, j | 0 <= i < j < |page|
      ensures page[i] in first && page[j] in first && first[page[i]] >= first[page[j]]
    {
      assert page[i] in page && page[j] in page;
      assert cand[page[i]] >= cand[page[j]];
    }
  }

  lemma PageContinues(first: map<Id, int>, page: seq<Id>, got: seq<Id>)
    requires Sorted(first, page) && Sorted(first, got)
    requires got != [] ==> Cursor(got) in first && forall h :: h in page ==> h in first && first[h] < first[Cursor(got)]
    ensures Sorted(first, got + page)
  {
    var all := got + page;
    forall i, j | 0 <= i < j < |all|
      ensures all[i] != all[j] && all[i] in first && all[j] in first && first[all[i]] >= first[all[j]]
    {
      if i >= |got| {
        assert all[i] == page[i - |got|] && all[j] == page[j - |got|];
      } else if j >= |got| {
        assert all[j] == page[j - |got|] && all[j] in page;
        assert i < |got| - 1 ==> first[got[i]] >= first[got[|got| - 1]];
      } else {
        assert all[i] == got[i] && all[j] == got[j];
      }
    }
  }

  lemma MoreEnds(first: map<Id, int>, ends: seq<Id>, last: Id, h: Id)
    requires h in first
    ensures Tied(first, ends, h) ==> Tied(first, ends + [last], h)
    ensures last in first && first[last] == first[h] ==> Tied(first, ends + [last], h)
  {
    assert last in ends + [last];
    if Tied(first, ends, h) {
      var c :| c in ends && c in first && first[c] == first[h];
      assert c in ends + [last];
    }
  }

  lemma PageCatchesUp(first: map<Id, int>, now: map<Id, int>, cand: map<Id, int>, n: nat, page: seq<Id>,
                      got: seq<Id>, ends: seq<Id>)
    requires TopN(cand, n, page) && page != []
    requires forall h :: h in cand ==> h in first && cand[h] == first[h]
    requires got != [] ==> Cursor(got) in first && CaughtUp(first, now, got, ends)
    requires forall h :: h in first && h in now && h !in cand ==> got != [] && first[h] >= first[Cursor(got)]
    ensures Cursor(got + page) in first && CaughtUp(first, now, got + page, ends + [Cursor(page)])
  {
    var last := page[|page| - 1];
    assert Cursor(got + page) == last && last in page;
    forall h | h in first && h in now && first[h] >= first[last]
      ensures h in got + page || Tied(first, ends + [last], h)
    {
      MoreEnds(first, ends, last, h);
      if h in cand && first[h] > first[last] { NewerIsSelected(cand, n, page, h, last); }
    }
  }

  /** The page query returns what the invariant needs, also when the cursor hit is gone. */
  lemma CandidatesSplit(db: Db, binId: Id, first: map<Id, int>, got: seq<Id>)
    requires Later(first, HitTimes(db, binId)) && "" !in first && Sorted(first, got)
    requires got == [] ==> HitTimes(db, binId) == first
    ensures var cand := Candidates(db, binId, Cursor(got));
      && (forall h :: h in cand ==> h in first && cand[h] == first[h])
      && (got != [] ==> Cursor(got) in first && forall h :: h in cand ==> cand[h] < first[Cursor(got)])
      && (forall h :: h in first && h in HitTimes(db, binId) && h !in cand ==>
            got != [] && first[h] >= first[Cursor(got)])
  {
    var now := HitTimes(db, binId);
    if got != [] {
      var c := Cursor(got);
      assert c in got && c in first;
      if c !in now {
        forall h | h in first && h in now ensures first[h] >= first[c] {
          assert first[h] < first[c] ==> c in now;
        }
      }
    }
  }

  lemma MoreKeeps(x: Session, user: string, binId: Id, first: map<Id, int>, turn: Turn)
    requires turn.More? && Inv(x, binId, first) && Valid(x, user, binId, first, turn)
    ensures Inv(Advance(x, user, binId, turn), binId, first)
  {
    var db, got, page, n := x.s.db, x.got, turn.page, PageSize(turn.limit);
    var now, cand := HitTimes(db, binId), Candidates(db, binId, Cursor(got));
    assert Advance(x, user, binId, turn).s == x.s;
    CandidatesSplit(db, binId, first, got);
    hide Step, HitTimes, Candidates, Later, GetOwned;
    PageIsSorted(first, cand, n, page);
    assert forall h :: h in page ==> h in cand;
    PageContinues(first, page, got);
    if page != [] {
      PageCatchesUp(first, now, cand, n, page, got, x.ends);
    } else {
      assert cand.Keys == {};
      assert got + page == got;
      assert OnlyTiesLost(first, now, got, x.ends);
    }
  }

  // ----- Whole sessions -----

  ghost predicate AllValid(x: Session, user: string, binId: Id, first: map<Id, int>, turns: seq<Turn>)
    decreases |turns|
  {
    turns == [] ||
    (&& Valid(x, user, binId, first, turns[0])
     && AllValid(Advance(x, user, binId, turns[0]), user, binId, first, turns[1..]))
  }

  ghost function Play(x: Session, user: string, binId: Id, first: map<Id, int>, turns: seq<Turn>): Session
    requires AllValid(x, user, binId, first, turns)
    decreases |turns|
  {
    if turns == [] then x else Play(Advance(x, user, binId, turns[0]), user, binId, first, turns[1..])
  }

  lemma {:induction false} PlayKeeps(x: Session, user: string, binId: Id, first: map<Id, int>, turns: seq<Turn>)
    requires AllValid(x, user, binId, first, turns) && Inv(x, binId, first)
    requires x.pages == 0 && turns != [] ==> turns[0].More?
    ensures Inv(Play(x, user, binId, first, turns), binId, first)
    ensures x.pages > 0 || turns != [] ==> Play(x, user, binId, first, turns).pages > 0
    decreases |turns|
  {
    assert turns != [] && turns[0].Other? ==> WellFormed(turns[0].e.op);
    hide Inv, Valid, Step, HitTimes;
    if turns == [] {
    } else {
      match turns[0] {
        case More(_, _, _) => MoreKeeps(x, user, binId, first, turns[0]);
        case Other(e) => OtherKeeps(x, user, binId, first, e);
      }
      PlayKeeps(Advance(x, user, binId, turns[0]), user, binId, first, turns[1..]);
    }
  }

  /** A session from its first page on. */
  ghost predicate Pages(s: State, used: set<Id>, user: string, binId: Id, turns: seq<Turn>) {
    && s.db.hits.Keys <= used && "" !in used
    && turns != [] && turns[0].More?
    && AllValid(Start(s, used), user, binId, HitTimes(s.db, binId), turns)
  }

  lemma SessionInv(s: State, used: set<Id>, user: string, binId: Id, turns: seq<Turn>)
    requires Pages(s, used, user, binId, turns)
    ensures var first := HitTimes(s.db, binId);
      Inv(Play(Start(s, used), user, binId, first, turns), binId, first)
  {
    var first := HitTimes(s.db, binId);
    assert Later(first, first);
    PlayKeeps(Start(s, used), user, binId, first, turns);
  }

  /** Every hit of the start that is still stored was returned. */
  ghost predicate Complete(first: map<Id, int>, now: map<Id, int>, got: seq<Id>) {
    forall h :: h in first && h in now ==> h in got
  }

  /** Every hit still stored that has the time of some page's last hit was returned too. */
  ghost predicate NoTieLost(first: map<Id, int>, now: map<Id, int>, got: seq<Id>, ends: seq<Id>) {
    forall h :: h in first && h in now && Tied(first, ends, h) ==> h in got
  }

  /**
   * Paging with the last id as cursor, with any page sizes and whatever happens in between: the hits
   * returned come newest first and without duplicates; there are at most as many non-empty pages as
   * there were hits at the start; and when a page comes back empty, every hit of the start that is
   * still stored has been returned, also if a cursor hit itself was pushed out, exactly when no
   * remaining hit was tied with the last one of a page. Nothing else is ever lost.
   */
  lemma PagingIsComplete(s: State, used: set<Id>, user: string, binId: Id, turns: seq<Turn>)
    requires Pages(s, used, user, binId, turns)
    ensures var first := HitTimes(s.db, binId);
      var x := Play(Start(s, used), user, binId, first, turns);
      var now := HitTimes(x.s.db, binId);
      && Sorted(first, x.got)
      && x.pages <= |first.Keys| + 1
      && (x.over ==> OnlyTiesLost(first, now, x.got, x.ends))
      && (x.over ==> (Complete(first, now, x.got) <==> NoTieLost(first, now, x.got, x.ends)))
  {
    var first := HitTimes(s.db, binId);
    var x := Play(Start(s, used), user, binId, first, turns);
    SessionInv(s, used, user, binId, turns);
    hide Play, AllValid, Step, HitTimes, Valid, Pages, Tied, Later;
    assert Sorted(first, x.got);
    DistinctSize(x.got);
    SubsetSize(Elems(x.got), first.Keys);
  }

  /** With distinct times the hits come strictly newest first, and none is lost. */
  lemma DistinctTimesLoseNothing(s: State, used: set<Id>, user: string, binId: Id, turns: seq<Turn>)
    requires Pages(s, used, user, binId, turns) && DistinctTimes(HitTimes(s.db, binId))
    ensures var first := HitTimes(s.db, binId);
      var x := Play(Start(s, used), user, binId, first, turns);
      && (forall i, j :: 0 <= i < j < |x.got| ==>
            x.got[i] in first && x.got[j] in first && first[x.got[i]] > first[x.got[j]])
      && (x.over ==> Complete(first, HitTimes(x.s.db, binId), x.got))
  {
    var first := HitTimes(s.db, binId);
    var x := Play(Start(s, used), user, binId, first, turns);
    var now := HitTimes(x.s.db, binId);
    PagingIsComplete(s, used, user, binId, turns);
    PlayEnds(Start(s, used), user, binId, first, turns);
    hide Play, AllValid, Step, HitTimes, Valid, Pages;
    forall i, j | 0 <= i < j < |x.got|
      ensures x.got[i] in first && x.got[j] in first && first[x.got[i]] > first[x.got[j]]
    {
      assert x.got[i] != x.got[j];
    }
    forall h | h in first && h in now && Tied(first, x.ends, h) ensures h in x.got {
      var c :| c in x.ends && c in first && first[c] == first[h];
      assert c == h;
    }
  }

  ghost predicate EndsReturned(x: Session) {
    forall c :: c in x.ends ==> c in x.got
  }

  lemma AdvanceEnds(x: Session, user: string, binId: Id, turn: Turn)
    requires turn.Other? ==> WellFormed(turn.e.op)
    requires EndsReturned(x)
    ensures EndsReturned(Advance(x, user, binId, turn))
  {
    hide Step;
    if turn.More? && turn.page != [] { assert Cursor(turn.page) in turn.page; }
  }

  lemma {:induction false} PlayEnds(x: Session, user: string, binId: Id, first: map<Id, int>, turns: seq<Turn>)
    requires AllValid(x, user, binId, first, turns) && EndsReturned(x)
    ensures EndsReturned(Play(x, user, binId, first, turns))
    decreases |turns|
  {
    hide EndsReturned, Step;
    if turns == [] {
      assert Play(x, user, binId, first, turns) == x;
    } else {
      assert turns[0].Other? ==> WellFormed(turns[0].e.op);
      hide Valid, Advance;
      AdvanceEnds(x, user, binId, turns[0]);
      PlayEnds(Advance(x, user, binId, turns[0]), user, binId, first, turns[1..]);
    }
  }

  // ----- Ties -----

  /**
   * What happens at a tie: whatever the cursor before, the query after a page loses exactly the
   * remaining hits that share the time of the page's last one.
   */
  lemma TiesAreSkipped(db: Db, binId: Id, cursor: Id, n: nat, page: seq<Id>, h: Id)
    requires TopN(Candidates(db, binId, cursor), n, page) && page != [] && Cursor(page) != ""
    requires h in Candidates(db, binId, cursor) && h !in page
    ensures Cursor(page) in page
    ensures h !in Candidates(db, binId, Cursor(page))
       <==> HitTimes(db, binId)[h] == HitTimes(db, binId)[Cursor(page)]
  {
    assert Cursor(page) in page;
  }
}
