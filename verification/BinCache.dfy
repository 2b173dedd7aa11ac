/** The existence cache, when no cache command fails. */
module BinCache {
  import opened Prelude
  import opened Tables
  import opened PruneLaws
  import opened WebhookOps

  /** An entry that has not died names a bin that lives at least as long. */
  ghost predicate Sound(s: State, now: int) {
    forall b :: b in s.cache && now <= s.cache[b] ==> b in s.db.bins && s.cache[b] <= s.db.bins[b].expiresAt
  }

  lemma SoundLater(s: State, t: int, now: int)
    requires Sound(s, t) && t <= now
    ensures Sound(s, now)
  {
  }

  lemma PruneSound(s: State, env: Env)
    requires Sound(s, env.now)
    ensures Sound(PruneExpired(s, env), env.now)
  {
  }

  lemma OwnedSound(s: State, user: string, binId: Id, env: Env)
    requires Sound(s, env.now)
    ensures Sound(GetOwned(s, user, binId, env).state, env.now)
  {
  }

  lemma ExistsSound(s: State, binId: Id, env: Env)
    requires Sound(s, env.now) && env.valkey
    ensures Sound(CheckExists(s, binId, env).state, env.now)
  {
    PruneSound(s, env);
  }

  /** The expired bin an ingest deletes leaves its entry behind, but that died with the bin. */
  lemma IngestSound(s: State, binId: Id, input: IngestInput, hitId: Id, keep: seq<Id>, env: Env)
    requires Sound(s, env.now)
    ensures Sound(IngestHit(s, binId, input, hitId, keep, env).state, env.now)
  {
    PruneSound(s, env);
    hide KeepHits, HitTimes, MakeHit;
  }

  lemma ClearSound(s: State, user: string, binId: Id, env: Env)
    requires Sound(s, env.now)
    ensures Sound(ClearBinHits(s, user, binId, env).state, env.now)
  {
    OwnedSound(s, user, binId, env);
    OwnedSound(s.(db := ClearBin(s.db, binId)), user, binId, env);
    hide KeepHits;
  }

  /** Every operation keeps the cache sound. */
  lemma StepSound(s: State, op: Op, env: Env)
    requires Sound(s, env.now) && env.valkey && WellFormed(op)
    ensures Sound(Step(s, op, env).state, env.now)
  {
    PruneSound(s, env);
    hide IngestHit, CheckExists, ClearBinHits;
    match op
    case Get(user, binId) => OwnedSound(PruneExpired(s, env), user, binId, env);
    case ClearHits(user, binId) => ClearSound(s, user, binId, env);
    case ListHits(user, binId, _, _, _) => OwnedSound(s, user, binId, env);
    case GetHit(user, binId, _) => OwnedSound(s, user, binId, env);
    case Delete(user, binId) => OwnedSound(s, user, binId, env);
    case Create(_, _, _) =>
    case List(_, _) =>
    case Ingest(binId, input, hitId, keep) => IngestSound(s, binId, input, hitId, keep, env);
    case PublicExists(binId) => ExistsSound(s, binId, env);
  }

  lemma {:induction false} RunSound(s: State, t: int, run: seq<Event>, now: int)
    requires Sound(s, t) && Clocked(t, run) && AllWellFormed(run)
    requires forall i :: 0 <= i < |run| ==> run[i].env.valkey
    requires t <= now && (run == [] || run[|run| - 1].env.now <= now)
    ensures Sound(Run(s, run), now)
    decreases |run|
  {
    hide Step, Sound;
    if run == [] {
      SoundLater(s, t, now);
    } else {
      var op, env := run[0].op, run[0].env;
      SoundLater(s, t, env.now);
      StepSound(s, op, env);
      ClockedEnd(env.now, run[1..]);
      RunSound(Step(s, op, env).state, env.now, run[1..], now);
    }
  }

  /** After any serial run without cache failures PublicExists tells exactly the unexpired bins. */
  lemma PublicExistsIsExact(run: seq<Event>, t: int, binId: Id, env: Env)
    requires Clocked(t, run) && AllWellFormed(run)
    requires forall i :: 0 <= i < |run| ==> run[i].env.valkey
    requires t <= env.now && (run == [] || run[|run| - 1].env.now <= env.now) && env.dbOk
    ensures var s := Run(State(EMPTY, map[]), run);
      CheckExists(s, binId, env).reply == Exists(Live(s.db, binId, env.now))
  {
    RunSound(State(EMPTY, map[]), t, run, env.now);
  }

  /**
   * From any state at all: the answer is wrong exactly when an entry outlived its bin, or without an
   * entry when the database fails.
   */
  lemma PublicExistsWrong(s: State, binId: Id, env: Env)
    ensures CheckExists(s, binId, env).reply != Exists(Live(s.db, binId, env.now))
       <==> if CacheHit(s.cache, binId, env) then !Live(s.db, binId, env.now)
            else Live(s.db, binId, env.now) && !env.dbOk
  {
  }
}
