/** The visitor store as an object over Postgres and Valkey. */
module Visitor {
  import opened Prelude
  import opened Fingerprint
  import opened VisitorSpec

  class Store {
    var rows: map<string, Row>
    var flags: set<string>

    constructor ()
      ensures Contents() == Visitors(map[], {})
    {
      rows, flags := map[], {};
    }

    function Contents(): Visitors
      reads this
    {
      Visitors(rows, flags)
    }

    /** A row that shows one visit only. */
    static predicate FirstVisit(row: Row, rec: Record, now: int) {
      && row.visitorId == rec.visitorId && row.sessionId == rec.sessionId
      && row.ip == rec.ip && row.userAgent == rec.userAgent && row.referer == rec.referer && row.origin == rec.origin
      && row.country == rec.country && row.city == rec.city && row.firstPath == rec.firstPath
      && row.firstSeenAt == now && row.lastSeenAt == now
      && row.userId == if rec.userId == "" then None else Some(rec.userId)
    }

    method Insert(rec: Record, fp: string, env: Env) returns (ok: bool)
      modifies this`rows
      ensures ok == CanInsert(old(rows), fp, env)
      ensures rows == VisitorSpec.Insert(old(rows), rec, fp, env)
      ensures ok ==> fp in rows && FirstVisit(rows[fp], rec, env.now)
    {
      if fp in rows || !env.insertOk {
        return false;
      }
      rows := rows[fp := NewRow(rec, env.now)];
      ok := true;
    }

    method UpdateSeen(rec: Record, fp: string, env: Env)
      modifies this`rows
      ensures rows == VisitorSpec.UpdateSeen(old(rows), rec, fp, env)
      ensures fp in old(rows) && env.updateOk ==>
        && fp in rows && rows[fp].lastSeenAt == env.now && rows[fp].sessionId == rec.sessionId
        && rows[fp].firstSeenAt == old(rows)[fp].firstSeenAt && rows[fp].firstPath == old(rows)[fp].firstPath
        && (old(rows)[fp].userId.Some? ==> rows[fp].userId == old(rows)[fp].userId)
        && (old(rows)[fp].userId.None? && rec.userId != "" ==> rows[fp].userId == Some(rec.userId))
    {
      if fp in rows && env.updateOk {
        var user := if rows[fp].userId.Some? then rows[fp].userId else UserOf(rec);
        rows := rows[fp := rows[fp].(lastSeenAt := env.now, sessionId := rec.sessionId, userId := user)];
      }
    }

    method Persist(rec: Record, fp: string, env: Env)
      modifies this`rows
      ensures rows == VisitorSpec.Persist(old(rows), rec, fp, env)
    {
      var ok := Insert(rec, fp, env);
      if !ok {
        UpdateSeen(rec, fp, env);
      }
    }

    /** One call: an upsert whenever the row is there or an insert is reached. */
    method Track(rec0: Record, env: Env) returns (accepted: bool)
      modifies this
      ensures accepted == Accepts(rec0)
      ensures Contents() == VisitorSpec.Track(old(Contents()), rec0, env)
      ensures var fp := Key(Normalise(rec0));
        fp !in old(rows) && fp in rows ==> FirstVisit(rows[fp], Normalise(rec0), env.now)
      ensures old(FlagsHaveRows(Contents())) && env.insertOk && env.updateOk ==>
        rows == Upsert(old(rows), rec0, env.now) && FlagsHaveRows(Contents())
    {
      var rec := Normalise(rec0);
      accepted := ValidId(rec.visitorId) && ValidId(rec.sessionId);
      if FlagsHaveRows(Contents()) && env.insertOk && env.updateOk { TrackKeepsFlags(Contents(), rec0, env); }
      if !accepted {
        return;
      }
      var fp := Key(rec);
      hide Key, Normalise, ValidId;
      match env.setNx {
        case NoClient =>
          Persist(rec, fp, env);
        case FailedBefore =>
          Persist(rec, fp, env);
        case FailedAfter =>
          flags := flags + {fp};
          Persist(rec, fp, env);
        case Answered =>
          var wasSet := fp in flags;
          flags := flags + {fp};
          if wasSet {
            UpdateSeen(rec, fp, env);
          } else {
            var ok := Insert(rec, fp, env);
            if !ok {
              UpdateSeen(rec, fp, env);
            }
          }
      }
    }
  }
}
