/**
 * Each public operation of the webhook store as one step on the tables and the existence cache.
 * What the database may choose freely (the order of rows with equal times) is part of the operation
 * and constrained by Allowed; what may fail is part of the environment.
 */
module WebhookOps {
  import opened Prelude
  import opened NewestFirst
  import opened Limits
  import opened Text
  import opened Redaction
  import opened Tables

  /** cache maps the id of a "bin:" key to the time the key dies. */
  datatype State = State(db: Db, cache: map<Id, int>)

  /**
   * pruneOk: the statement that deletes all expired bins succeeds; expireOk: so does the deletion of
   * the one bin that was asked for, should it be expired; dbOk: so do the other statements that this
   * call comes to make, and the making of an id; rereadOk: so does looking a cleared bin up again;
   * valkey: the cache answers, false also standing for a store built without one.
   */
  datatype Env = Env(now: int, pruneOk: bool, expireOk: bool, dbOk: bool, rereadOk: bool, valkey: bool)

  datatype Err = NotFound | Forbidden | LimitBins | Expired | DbError

  datatype IngestInput = IngestInput(
    verb: string, path: string, rawQuery: string, queryParams: map<string, string>,
    headers: map<string, string>, contentType: string, body: string, ip: string, userAgent: string)

  datatype Summary = Summary(
    id: Id, receivedAt: int, verb: string, path: string, query: string, contentType: string,
    bodyBytes: nat, ip: string)

  datatype Op =
    | Create(user: string, name: string, newId: Id)
    | List(user: string, order: seq<Id>)
    | Get(user: string, binId: Id)
    | Delete(user: string, binId: Id)
    | ClearHits(user: string, binId: Id)
    | Ingest(binId: Id, input: IngestInput, hitId: Id, keep: seq<Id>)
    | ListHits(user: string, binId: Id, limit: int, after: Id, page: seq<Id>)
    | GetHit(user: string, binId: Id, hitId: Id)
    | PublicExists(binId: Id)

  datatype Reply =
    | OneBin(bin: Bin)
    | Bins(bins: seq<Bin>)
    | Ok
    | Stored(hit: Hit)
    | Hits(hits: seq<Summary>)
    | OneHit(hit: Hit)
    | Exists(exists_: bool)
    | Fail(err: Err)

  datatype Done = Done(state: State, reply: Reply)

  // ----- The cache -----

  function CacheBin(cache: map<Id, int>, id: Id, ttl: int, env: Env): map<Id, int> {
    if env.valkey && ttl > 0 then cache[id := env.now + ttl] else cache
  }

  function UncacheBins(cache: map<Id, int>, ids: set<Id>, env: Env): map<Id, int> {
    if env.valkey then cache - ids else cache
  }

  predicate CacheHit(cache: map<Id, int>, id: Id, env: Env) {
    env.valkey && id in cache && env.now <= cache[id]
  }

  // ----- Shared parts -----

  function PruneExpired(s: State, env: Env): State {
    if env.pruneOk then
      State(Prune(s.db, env.now), UncacheBins(s.cache, ExpiredIds(s.db, env.now), env))
    else s
  }

  function ExpireBin(db: Db, binId: Id, env: Env): Db {
    if env.expireOk then DeleteBins(db, {binId}) else db
  }

  function GetOwned(s: State, user: string, binId: Id, env: Env): Done {
    if !env.dbOk then Done(s, Fail(DbError))
    else if binId !in s.db.bins then Done(s, Fail(NotFound))
    else if s.db.bins[binId].userId != user then Done(s, Fail(Forbidden))
    else if env.now > s.db.bins[binId].expiresAt then
      Done(State(ExpireBin(s.db, binId, env), UncacheBins(s.cache, {binId}, env)), Fail(Expired))
    else Done(s, OneBin(s.db.bins[binId]))
  }

  function BinName(name: string, id: Id): string
    requires |id| >= 6
  {
    var trimmed := TrimSpace(name);
    Truncate(if trimmed == "" then "Bin " + id[..6] else trimmed, 64)
  }

  function NewBin(user: string, name: string, id: Id, now: int): Bin
    requires |id| >= 6
  {
    Bin(id, user, BinName(name, id), now, now + BIN_TTL, 0, None)
  }

  function MakeHit(binId: Id, input: IngestInput, hitId: Id, now: int): Hit {
    Hit(hitId, binId, now, ToUpper(TrimSpace(input.verb)), input.path, input.rawQuery, input.queryParams,
        Redact(input.headers), input.contentType, Truncate(input.body, MAX_BODY_BYTES),
        |input.body| > MAX_BODY_BYTES, |input.body|, input.ip, input.userAgent)
  }

  function Summarize(h: Hit): Summary {
    Summary(h.id, h.receivedAt, h.verb, h.path, h.query, h.contentType, h.bodyBytes, h.ip)
  }

  function Summaries(hits: seq<Hit>): seq<Summary> {
    seq(|hits|, i requires 0 <= i < |hits| => Summarize(hits[i]))
  }

  function PageSize(limit: int): nat {
    if limit <= 0 || limit > MAX_HITS_PER_BIN then MAX_HITS_PER_BIN else limit
  }

  // ----- The operations -----

  function CreateBin(s: State, user: string, name: string, newId: Id, env: Env): Done
    requires |newId| >= 6
  {
    var s1 := PruneExpired(s, env);
    if !env.pruneOk || !env.dbOk then Done(s1, Fail(DbError))
    else if |BinsOf(s1.db, user)| >= MAX_BINS_PER_USER then Done(s1, Fail(LimitBins))
    else
      var bin := NewBin(user, name, newId, env.now);
      Done(State(InsertBin(s1.db, bin), CacheBin(s1.cache, newId, BIN_TTL, env)), OneBin(bin))
  }

  function ListBins(s: State, order: seq<Id>, env: Env): Done {
    var s1 := PruneExpired(s, env);
    Done(s1, Bins(if env.dbOk then RowsOf(s1.db.bins, order) else []))
  }

  function GetBin(s: State, user: string, binId: Id, env: Env): Done {
    GetOwned(PruneExpired(s, env), user, binId, env)
  }

  function DeleteBin(s: State, user: string, binId: Id, env: Env): Done {
    var d := GetOwned(s, user, binId, env);
    if d.reply.Fail? then d
    else Done(State(DeleteBins(s.db, {binId}), UncacheBins(s.cache, {binId}, env)), Ok)
  }

  function ClearBinHits(s: State, user: string, binId: Id, env: Env): Done {
    var d := GetOwned(s, user, binId, env);
    if d.reply.Fail? then d
    else if !env.rereadOk then Done(s.(db := ClearBin(s.db, binId)), Fail(DbError))
    else GetOwned(s.(db := ClearBin(s.db, binId)), user, binId, env)
  }

  function IngestHit(s: State, binId: Id, input: IngestInput, hitId: Id, keep: seq<Id>, env: Env): Done {
    var s1 := PruneExpired(s, env);
    if !env.dbOk then Done(s1, Fail(DbError))
    else if binId !in s1.db.bins then Done(s1, Fail(NotFound))
    else if env.now > s1.db.bins[binId].expiresAt then
      Done(s1.(db := ExpireBin(s1.db, binId, env)), Fail(Expired))
    else
      var hit := MakeHit(binId, input, hitId, env.now);
      Done(s1.(db := StoreHit(s1.db, hit, keep)), Stored(hit))
  }

  function PageOfHits(s: State, user: string, binId: Id, page: seq<Id>, env: Env): Done {
    var d := GetOwned(s, user, binId, env);
    if d.reply.Fail? then d
    else Done(s, Hits(Summaries(RowsOf(s.db.hits, page))))
  }

  function FindHit(s: State, user: string, binId: Id, hitId: Id, env: Env): Done {
    var d := GetOwned(s, user, binId, env);
    if d.reply.Fail? then d
    else if hitId in s.db.hits && s.db.hits[hitId].binId == binId then Done(s, OneHit(s.db.hits[hitId]))
    else Done(s, Fail(NotFound))
  }

  function CheckExists(s: State, binId: Id, env: Env): Done {
    if CacheHit(s.cache, binId, env) then Done(s, Exists(true))
    else
      var s1 := PruneExpired(s, env);
      if !env.dbOk || binId !in s1.db.bins then Done(s1, Exists(false))
      else
        var expiresAt := s1.db.bins[binId].expiresAt;
        if env.now > expiresAt then
          Done(s1.(cache := UncacheBins(s1.cache, {binId}, env)), Exists(false))
        else Done(s1.(cache := CacheBin(s1.cache, binId, expiresAt - env.now, env)), Exists(true))
  }

  /** newID makes ids of 32 characters. */
  predicate WellFormed(op: Op) {
    && (op.Create? ==> |op.newId| == 2 * ID_BYTES)
    && (op.Ingest? ==> |op.hitId| == 2 * ID_BYTES)
  }

  function Step(s: State, op: Op, env: Env): Done
    requires WellFormed(op)
  {
    match op
    case Create(user, name, newId) => CreateBin(s, user, name, newId, env)
    case List(user, order) => ListBins(s, order, env)
    case Get(user, binId) => GetBin(s, user, binId, env)
    case Delete(user, binId) => DeleteBin(s, user, binId, env)
    case ClearHits(user, binId) => ClearBinHits(s, user, binId, env)
    case Ingest(binId, input, hitId, keep) => IngestHit(s, binId, input, hitId, keep, env)
    case ListHits(user, binId, limit, after, page) => PageOfHits(s, user, binId, page, env)
    case GetHit(user, binId, hitId) => FindHit(s, user, binId, hitId, env)
    case PublicExists(binId) => CheckExists(s, binId, env)
  }

  // ----- What the database may choose -----

  ghost predicate KeepAllowed(db: Db, hit: Hit, keep: seq<Id>) {
    TopN(HitTimes(InsertHit(db, hit), hit.binId), MAX_HITS_PER_BIN, keep)
  }

  ghost predicate OrderAllowed(db: Db, user: string, order: seq<Id>) {
    TopN(CreatedTimes(db, user), |CreatedTimes(db, user).Keys|, order)
  }

  ghost predicate PageAllowed(db: Db, binId: Id, limit: int, after: Id, page: seq<Id>) {
    TopN(Candidates(db, binId, after), PageSize(limit), page)
  }

  ghost predicate Allowed(s: State, op: Op, env: Env) {
    match op
    case List(user, order) => env.dbOk ==> OrderAllowed(PruneExpired(s, env).db, user, order)
    case Ingest(binId, input, hitId, keep) =>
      IngestHit(s, binId, input, hitId, keep, env).reply.Stored?
      ==> KeepAllowed(PruneExpired(s, env).db, MakeHit(binId, input, hitId, env.now), keep)
    case ListHits(user, binId, limit, after, page) =>
      GetOwned(s, user, binId, env).reply.OneBin? ==> PageAllowed(s.db, binId, limit, after, page)
    case _ => true
  }

  // ----- Runs -----

  datatype Event = Event(op: Op, env: Env)

  /** The id an operation may bring into the tables. */
  function NewIds(op: Op): set<Id> {
    match op
    case Create(_, _, newId) => {newId}
    case Ingest(_, _, hitId, _) => {hitId}
    case _ => {}
  }

  /** Ids brought in were never used before, and the database's choices are allowed. */
  ghost predicate Plays(s: State, used: set<Id>, run: seq<Event>)
    decreases |run|
  {
    run == [] ||
    var e := run[0];
    && WellFormed(e.op)
    && NewIds(e.op) !! used
    && Allowed(s, e.op, e.env)
    && Plays(Step(s, e.op, e.env).state, used + NewIds(e.op), run[1..])
  }

  /** The clock starts at t and does not go back. */
  predicate Clocked(t: int, run: seq<Event>)
    decreases |run|
  {
    run == [] || (t <= run[0].env.now && Clocked(run[0].env.now, run[1..]))
  }

  /** A serial run from s at time t. */
  ghost predicate Legal(s: State, used: set<Id>, t: int, run: seq<Event>) {
    Clocked(t, run) && Plays(s, used, run)
  }

  predicate AllWellFormed(run: seq<Event>) {
    forall i :: 0 <= i < |run| ==> WellFormed(run[i].op)
  }

  function Run(s: State, run: seq<Event>): State
    requires AllWellFormed(run)
    decreases |run|
  {
    if run == [] then s else Run(Step(s, run[0].op, run[0].env).state, run[1..])
  }

  function Replies(s: State, run: seq<Event>): (r: seq<Reply>)
    requires AllWellFormed(run)
    ensures |r| == |run|
    decreases |run|
  {
    if run == [] then []
    else
      var d := Step(s, run[0].op, run[0].env);
      [d.reply] + Replies(d.state, run[1..])
  }

  lemma {:induction false} PlaysWellFormed(s: State, used: set<Id>, run: seq<Event>)
    requires Plays(s, used, run)
    ensures AllWellFormed(run)
    decreases |run|
  {
    hide Step, Allowed;
    if run == [] {
    } else {
      PlaysWellFormed(Step(s, run[0].op, run[0].env).state, used + NewIds(run[0].op), run[1..]);
      assert forall i :: 0 < i < |run| ==> run[i] == run[1..][i - 1];
    }
  }

  lemma {:induction false} ClockedEnd(t: int, run: seq<Event>)
    requires Clocked(t, run)
    ensures run != [] ==> t <= run[|run| - 1].env.now
    decreases |run|
  {
    if |run| > 1 { ClockedEnd(run[0].env.now, run[1..]); }
  }
}
