/** Tracking a visitor: a volatile flag in Valkey decides between inserting and updating a row. */
module VisitorSpec {
  import opened Prelude
  import opened Text
  import opened Fingerprint

  datatype Row = Row(
    visitorId: string, sessionId: string, ip: string, userAgent: string, referer: string, origin: string,
    country: string, city: string, userId: Option<string>, firstSeenAt: int, lastSeenAt: int, firstPath: string)

  /** Rows of the visitors table and flags, both by fingerprint. */
  datatype Visitors = Visitors(rows: map<string, Row>, flags: set<string>)

  /** SETNX is answered, fails before or after taking effect, or there is no client. */
  datatype SetNx = Answered | FailedBefore | FailedAfter | NoClient

  /** insertOk: the INSERT does not fail for a reason other than the primary key; updateOk: nor does the UPDATE. */
  datatype Env = Env(now: int, setNx: SetNx, insertOk: bool, updateOk: bool)

  function UserOf(rec: Record): Option<string> {
    if rec.userId != "" then Some(rec.userId) else None
  }

  function NewRow(rec: Record, now: int): Row {
    Row(rec.visitorId, rec.sessionId, rec.ip, rec.userAgent, rec.referer, rec.origin,
        rec.country, rec.city, UserOf(rec), now, now, rec.firstPath)
  }

  /** COALESCE(user_id, new). */
  function Seen(row: Row, rec: Record, now: int): Row {
    row.(lastSeenAt := now, sessionId := rec.sessionId,
         userId := if row.userId.Some? then row.userId else UserOf(rec))
  }

  predicate CanInsert(rows: map<string, Row>, fp: string, env: Env) {
    fp !in rows && env.insertOk
  }

  function Insert(rows: map<string, Row>, rec: Record, fp: string, env: Env): map<string, Row> {
    if CanInsert(rows, fp, env) then rows[fp := NewRow(rec, env.now)] else rows
  }

  /** An UPDATE of a missing row changes nothing and is no error. */
  function UpdateSeen(rows: map<string, Row>, rec: Record, fp: string, env: Env): map<string, Row> {
    if fp in rows && env.updateOk then rows[fp := Seen(rows[fp], rec, env.now)] else rows
  }

  function Persist(rows: map<string, Row>, rec: Record, fp: string, env: Env): map<string, Row> {
    if CanInsert(rows, fp, env) then Insert(rows, rec, fp, env) else UpdateSeen(rows, rec, fp, env)
  }

  function Track(v: Visitors, rec0: Record, env: Env): Visitors {
    var rec := Normalise(rec0);
    var fp := Key(rec);
    if !Accepts(rec0) then v
    else
      match env.setNx
      case NoClient => v.(rows := Persist(v.rows, rec, fp, env))
      case FailedBefore => v.(rows := Persist(v.rows, rec, fp, env))
      case FailedAfter => Visitors(Persist(v.rows, rec, fp, env), v.flags + {fp})
      case Answered =>
        if fp in v.flags then v.(rows := UpdateSeen(v.rows, rec, fp, env))
        else Visitors(Persist(v.rows, rec, fp, env), v.flags + {fp})
  }

  // ----- The specification: one upsert -----

  function Upsert(rows: map<string, Row>, rec0: Record, now: int): map<string, Row> {
    var rec := Normalise(rec0);
    if !Accepts(rec0) then rows
    else if Key(rec) in rows then rows[Key(rec) := Seen(rows[Key(rec)], rec, now)]
    else rows[Key(rec) := NewRow(rec, now)]
  }

  ghost predicate FlagsHaveRows(v: Visitors) {
    v.flags <= v.rows.Keys
  }

  /** Whether the call reaches an INSERT that can succeed, where one is needed. */
  predicate InsertReached(v: Visitors, rec0: Record, env: Env) {
    env.insertOk && !(env.setNx.Answered? && Key(Normalise(rec0)) in v.flags)
  }

  /** Whether a row can be refreshed, or shows already what it should. */
  predicate UpdateReached(row: Row, rec: Record, env: Env) {
    env.updateOk || Seen(row, rec, env.now) == row
  }

  /** From any state: a call is an upsert exactly when the statement it needs is reached and works. */
  lemma TrackIsUpsert(v: Visitors, rec0: Record, env: Env)
    requires Accepts(rec0)
    ensures Track(v, rec0, env).rows == Upsert(v.rows, rec0, env.now)
       <==> var fp := Key(Normalise(rec0));
            if fp in v.rows then UpdateReached(v.rows[fp], Normalise(rec0), env) else InsertReached(v, rec0, env)
  {
    var rec := Normalise(rec0);
    var fp := Key(rec);
    hide Normalise, Key;
    if fp in v.rows {
      assert Upsert(v.rows, rec0, env.now)[fp] == Seen(v.rows[fp], rec, env.now);
      assert Track(v, rec0, env).rows[fp]
          == if env.updateOk then Seen(v.rows[fp], rec, env.now) else v.rows[fp];
    } else if !InsertReached(v, rec0, env) {
      assert fp !in Track(v, rec0, env).rows && fp in Upsert(v.rows, rec0, env.now);
    }
  }

  /** The flag is set exactly where SETNX takes effect, and no other changes. */
  lemma TrackFlags(v: Visitors, rec0: Record, env: Env)
    ensures Track(v, rec0, env).flags
         == if Accepts(rec0) && (env.setNx.Answered? || env.setNx.FailedAfter?)
            then v.flags + {Key(Normalise(rec0))} else v.flags
  {
    hide Normalise, Key, ValidId;
  }

  /** Where flags have rows and statements fail only on duplicates, every call is an upsert and keeps it so. */
  lemma TrackKeepsFlags(v: Visitors, rec0: Record, env: Env)
    requires FlagsHaveRows(v) && env.insertOk && env.updateOk
    ensures Track(v, rec0, env).rows == Upsert(v.rows, rec0, env.now)
    ensures FlagsHaveRows(Track(v, rec0, env))
  {
    hide Normalise, Key, ValidId;
  }

  // ----- Runs -----

  /** lost: flags that vanish from Valkey before the call. */
  datatype Event = Event(rec: Record, env: Env, lost: set<string>)

  function Run(v: Visitors, events: seq<Event>): Visitors
    decreases |events|
  {
    if events == [] then v
    else
      var e := events[|events| - 1];
      var before := Run(v, events[..|events| - 1]);
      Track(before.(flags := before.flags - e.lost), e.rec, e.env)
  }

  /** The accepted events of one fingerprint, in order. */
  function Of(events: seq<Event>, fp: string): (r: seq<Event>)
    ensures forall e :: e in r ==> e in events && Accepts(e.rec) && Key(Normalise(e.rec)) == fp
    decreases |events|
  {
    if events == [] then []
    else
      var e := events[|events| - 1];
      var rest := Of(events[..|events| - 1], fp);
      if Accepts(e.rec) && Key(Normalise(e.rec)) == fp then rest + [e] else rest
  }

  /** The first user id that is not empty. */
  function FirstUser(events: seq<Event>): Option<string> {
    if events == [] then None
    else if events[0].rec.userId != "" then Some(events[0].rec.userId)
    else FirstUser(events[1..])
  }

  /** What a row should show of its events. */
  function Summary(events: seq<Event>): Row
    requires events != []
  {
    var first, last := events[0], events[|events| - 1];
    NewRow(Normalise(first.rec), first.env.now)
      .(lastSeenAt := last.env.now, sessionId := Normalise(last.rec).sessionId, userId := FirstUser(events))
  }

  lemma {:induction false} FirstUserSnoc(events: seq<Event>, e: Event)
    ensures FirstUser(events + [e])
         == if FirstUser(events).Some? then FirstUser(events)
            else if e.rec.userId != "" then Some(e.rec.userId) else None
  {
    if events == [] {
      assert ([] + [e])[1..] == [];
    } else {
      FirstUserSnoc(events[1..], e);
      assert (events + [e])[1..] == events[1..] + [e];
    }
  }

  lemma SummarySnoc(events: seq<Event>, e: Event)
    ensures events == [] ==> Summary(events + [e]) == NewRow(Normalise(e.rec), e.env.now)
    ensures events != [] ==> Summary(events + [e]) == Seen(Summary(events), Normalise(e.rec), e.env.now)
  {
    FirstUserSnoc(events, e);
    hide Key, TrimSpace, Truncate;
    assert (events + [e])[|events|] == e;
  }

  // The same, field by field.

  /** The first n characters, or all. */
  predicate IsCut(cut: string, s: string, n: nat) {
    cut <= s && |cut| <= n && (|cut| < n ==> cut == s)
  }

  ghost predicate IsFirstUser(user: Option<string>, events: seq<Event>) {
    match user
    case None => forall i :: 0 <= i < |events| ==> events[i].rec.userId == ""
    case Some(u) =>
      u != "" && exists i :: 0 <= i < |events| && events[i].rec.userId == u
                             && forall k :: 0 <= k < i ==> events[k].rec.userId == ""
  }

  ghost predicate ShowsFields(row: Row, events: seq<Event>)
    requires events != []
  {
    var first, last := events[0], events[|events| - 1];
    && row.visitorId == TrimSpace(first.rec.visitorId)
    && row.ip == TrimSpace(first.rec.ip)
    && IsCut(row.userAgent, TrimSpace(first.rec.userAgent), 1024)
    && IsCut(row.referer, TrimSpace(first.rec.referer), 1024)
    && IsCut(row.origin, TrimSpace(first.rec.origin), 512)
    && row.country == TrimSpace(first.rec.country)
    && row.city == TrimSpace(first.rec.city)
    && IsCut(row.firstPath, first.rec.firstPath, 512)
    && row.firstSeenAt == first.env.now
    && row.lastSeenAt == last.env.now
    && row.sessionId == TrimSpace(last.rec.sessionId)
    && IsFirstUser(row.userId, events)
  }

  lemma {:induction false} FirstUserIs(events: seq<Event>)
    ensures IsFirstUser(FirstUser(events), events)
    decreases |events|
  {
    if events == [] {
    } else if events[0].rec.userId == "" {
      var rest := events[1..];
      FirstUserIs(rest);
      if FirstUser(rest).Some? {
        var i :| 0 <= i < |rest| && rest[i].rec.userId == FirstUser(rest).value
                 && forall k :: 0 <= k < i ==> rest[k].rec.userId == "";
        assert events[i + 1] == rest[i];
        forall k | 0 <= k < i + 1 ensures events[k].rec.userId == "" {
          if k > 0 { assert events[k] == rest[k - 1]; }
        }
      } else {
        forall k | 0 <= k < |events| ensures events[k].rec.userId == "" {
          if k > 0 { assert events[k] == rest[k - 1]; }
        }
      }
    } else {
      assert events[0].rec.userId == FirstUser(events).value;
    }
  }

  lemma SummaryShows(events: seq<Event>)
    requires events != []
    ensures ShowsFields(Summary(events), events)
  {
    FirstUserIs(events);
    hide TrimSpace, FirstUser, IsFirstUser;
  }

  ghost predicate Summarised(rows: map<string, Row>, fp: string, events: seq<Event>) {
    && (fp in rows <==> events != [])
    && (events != [] ==> rows[fp] == Summary(events))
  }

  lemma UpsertSummarises(rows: map<string, Row>, fp: string, events: seq<Event>, e: Event)
    requires Summarised(rows, fp, events)
    ensures Summarised(Upsert(rows, e.rec, e.env.now), fp,
                       if Accepts(e.rec) && Key(Normalise(e.rec)) == fp then events + [e] else events)
  {
    SummarySnoc(events, e);
    hide Key, Normalise, Accepts, Summary;
  }

  /**
   * Over every run, with SETNX failing and flags vanishing at will, a fingerprint has a row exactly
   * when it was tracked, and the row shows: first seen, path and identity of the first event, the
   * first non-empty user id, session and time of the last event.
   */
  lemma {:induction false} RowsSummarise(events: seq<Event>, fp: string)
    requires forall e :: e in events ==> e.env.insertOk && e.env.updateOk
    ensures FlagsHaveRows(Run(Visitors(map[], {}), events))
    ensures Summarised(Run(Visitors(map[], {}), events).rows, fp, Of(events, fp))
    ensures Of(events, fp) != [] ==>
      && fp in Run(Visitors(map[], {}), events).rows
      && ShowsFields(Run(Visitors(map[], {}), events).rows[fp], Of(events, fp))
    decreases |events|
  {
    if Of(events, fp) != [] { SummaryShows(Of(events, fp)); }
    hide ShowsFields;
    if events == [] {
      assert Summarised(map[], fp, []);
    } else {
      hide Track, Summarised, Upsert, Accepts, Key, Normalise;
      var e, front := events[|events| - 1], events[..|events| - 1];
      assert e in events && forall x :: x in front ==> x in events;
      RowsSummarise(front, fp);
      var before := Run(Visitors(map[], {}), front);
      var v := before.(flags := before.flags - e.lost);
      TrackKeepsFlags(v, e.rec, e.env);
      UpsertSummarises(before.rows, fp, Of(front, fp), e);
    }
  }

  // ----- When an insert fails for another reason -----

  lemma NeverInserted(v: Visitors, rec0: Record, env: Env, fp: string)
    requires fp in v.flags && fp !in v.rows && env.setNx.Answered?
    ensures fp in Track(v, rec0, env).flags && fp !in Track(v, rec0, env).rows
  {
    hide Normalise, Key, Accepts;
  }

  /** A flag without a row, while the flag is kept and SETNX answers: the visitor is never recorded. */
  lemma {:induction false} FlagWithoutRowIsFinal(v: Visitors, events: seq<Event>, fp: string)
    requires fp in v.flags && fp !in v.rows
    requires forall e :: e in events ==> e.env.setNx.Answered? && fp !in e.lost
    ensures fp in Run(v, events).flags && fp !in Run(v, events).rows
    decreases |events|
  {
    if events == [] {
    } else {
      var e, front := events[|events| - 1], events[..|events| - 1];
      assert e in events && forall x :: x in front ==> x in events;
      hide Normalise, Key, Accepts;
      FlagWithoutRowIsFinal(v, front, fp);
      var before := Run(v, front);
      NeverInserted(before.(flags := before.flags - e.lost), e.rec, e.env, fp);
    }
  }

  /** One failed insert of a new visitor leaves exactly that. */
  lemma FailedInsertLeavesFlag(v: Visitors, rec0: Record, env: Env)
    requires Accepts(rec0) && !env.insertOk && env.setNx.Answered?
    requires Key(Normalise(rec0)) !in v.rows && Key(Normalise(rec0)) !in v.flags
    ensures var fp := Key(Normalise(rec0));
      fp in Track(v, rec0, env).flags && fp !in Track(v, rec0, env).rows
  {
  }
}
