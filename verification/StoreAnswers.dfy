/** What the callers of the webhook store get, told from the tables alone, and what each call leaves untouched. */
module StoreAnswers {
  import opened Prelude
  import opened NewestFirst
  import opened Text
  import opened Redaction
  import opened Tables
  import opened PruneLaws
  import opened WebhookOps

  // ----- ListHits -----

  /** Ids name their rows. */
  ghost predicate Keyed(db: Db) {
    forall h :: h in db.hits ==> db.hits[h].id == h
  }

  /** The hits of a bin that a page after the given id may show. */
  predicate Older(db: Db, binId: Id, after: Id, h: Id) {
    && h in db.hits && db.hits[h].binId == binId
    && (after != "" ==>
          after in db.hits && db.hits[after].binId == binId && db.hits[h].receivedAt < db.hits[after].receivedAt)
  }

  predicate SummaryOf(x: Summary, h: Hit) {
    && x.id == h.id && x.receivedAt == h.receivedAt && x.verb == h.verb && x.path == h.path
    && x.query == h.query && x.contentType == h.contentType && x.bodyBytes == h.bodyBytes && x.ip == h.ip
  }

  lemma CandidatesAre(db: Db, binId: Id, after: Id, h: Id)
    ensures h in Candidates(db, binId, after) <==> Older(db, binId, after, h)
    ensures h in Candidates(db, binId, after) ==> Candidates(db, binId, after)[h] == db.hits[h].receivedAt
  {
  }

  /**
   * A page is the rows named by its ids, newest first, each once; a hit that could be on it and is not
   * is at most as recent as all that are, and is left out only because the page is full, which it is at
   * the limit asked for, or at 100.
   */
  lemma ListHitsAnswer(s: State, user: string, binId: Id, limit: int, after: Id, page: seq<Id>, env: Env)
    requires Allowed(s, Op.ListHits(user, binId, limit, after, page), env) && Keyed(s.db)
    requires PageOfHits(s, user, binId, page, env).reply.Hits?
    ensures var hits, full := PageOfHits(s, user, binId, page, env).reply.hits,
                              if 1 <= limit <= 100 then limit else 100;
      && |hits| == |page| <= full && Distinct(page)
      && (forall i :: 0 <= i < |hits| ==>
            && Older(s.db, binId, after, page[i]) && hits[i].id == page[i] && SummaryOf(hits[i], s.db.hits[page[i]]))
      && (forall i, j :: 0 <= i < j < |hits| ==> hits[i].receivedAt >= hits[j].receivedAt)
      && (forall h :: Older(s.db, binId, after, h) && h !in page ==>
            |page| == full && forall i :: 0 <= i < |hits| ==> hits[i].receivedAt >= s.db.hits[h].receivedAt)
  {
    var times := Candidates(s.db, binId, after);
    forall h ensures h in times <==> Older(s.db, binId, after, h)
             ensures h in times ==> times[h] == s.db.hits[h].receivedAt {
      CandidatesAre(s.db, binId, after, h);
    }
    assert TopN(times, PageSize(limit), page);
    RowsInOrder(s.db.hits, page);
    var full := if 1 <= limit <= 100 then limit else 100;
    hide Candidates, Older;
    NewestPage(times, full, page);
    var hits := PageOfHits(s, user, binId, page, env).reply.hits;
    hide TopN, RowsOf;
    forall i | 0 <= i < |page|
      ensures page[i] in times && hits[i].id == page[i] && SummaryOf(hits[i], s.db.hits[page[i]])
    {
      assert page[i] in page;
    }
  }

  /** The selection, position by position. */
  lemma NewestPage(times: map<Id, int>, n: nat, page: seq<Id>)
    requires TopN(times, n, page)
    ensures |page| <= n && Distinct(page)
    ensures forall x :: x in page ==> x in times
    ensures forall i, j :: 0 <= i < j < |page| ==> times[page[i]] >= times[page[j]]
    ensures forall h :: h in times && h !in page ==>
      |page| == n && forall i :: 0 <= i < |page| ==> times[page[i]] >= times[h]
  {
    forall h | h in times && h !in page
      ensures |page| == n && forall i :: 0 <= i < |page| ==> times[page[i]] >= times[h]
    {
      if |page| == |times.Keys| {
        DistinctSize(page);
        SubsetSize(Elems(page), times.Keys);
      }
      assert forall i :: 0 <= i < |page| ==> page[i] in page;
    }
  }

  // ----- List -----

  /** The bins a List may show: the user's, without the expired ones if these could be pruned. */
  predicate Shown(db: Db, user: string, env: Env, b: Id) {
    b in db.bins && db.bins[b].userId == user && (env.pruneOk ==> env.now <= db.bins[b].expiresAt)
  }

  /** A list is exactly these bins, each once, the latest created first. */
  lemma ListAnswer(s: State, user: string, order: seq<Id>, env: Env)
    requires Allowed(s, Op.List(user, order), env) && env.dbOk
    ensures ListBins(s, order, env).reply.Bins?
    ensures var bins := ListBins(s, order, env).reply.bins;
      && |bins| == |order| && Distinct(order)
      && (forall b :: b in order <==> Shown(s.db, user, env, b))
      && (forall i :: 0 <= i < |bins| ==> bins[i] == s.db.bins[order[i]])
      && (forall i, j :: 0 <= i < j < |bins| ==> bins[i].createdAt >= bins[j].createdAt)
  {
    var db := PruneExpired(s, env).db;
    var times := CreatedTimes(db, user);
    assert forall b :: b in times <==> Shown(s.db, user, env, b);
    assert forall b :: b in times ==> times[b] == s.db.bins[b].createdAt && db.bins[b] == s.db.bins[b];
    NewestPage(times, |times.Keys|, order);
    DistinctSize(order);
    SubsetSize(Elems(order), times.Keys);
    assert forall b :: b in order <==> b in Elems(order);
    RowsInOrder(db.bins, order);
    hide TopN, RowsOf, Prune;
  }

  // ----- Create -----

  function LiveBins(db: Db, user: string, now: int): set<Id> {
    set b | b in db.bins && db.bins[b].userId == user && now <= db.bins[b].expiresAt
  }

  /** The name given, trimmed and cut to 64 characters, or one made of the id. */
  predicate Named(given: string, id: Id, name: string)
    requires |id| >= 6
  {
    var trimmed := TrimSpace(given);
    if trimmed == "" then name == "Bin " + id[..6]
    else name <= trimmed && (name == trimmed || |name| == 64) && |name| <= 64
  }

  /**
   * A bin is created exactly when the user has fewer than three that are alive and the database works.
   * It is new from now on, for 72 hours, is in the table, and is in the cache for as long.
   */
  lemma CreateAnswer(s: State, user: string, name: string, newId: Id, env: Env)
    requires |newId| == 32
    ensures var d := CreateBin(s, user, name, newId, env);
      && (d.reply.OneBin? <==> env.pruneOk && env.dbOk && |LiveBins(s.db, user, env.now)| < 3)
      && (d.reply == Fail(LimitBins) <==> env.pruneOk && env.dbOk && |LiveBins(s.db, user, env.now)| >= 3)
      && (!d.reply.OneBin? ==> d.reply == Fail(LimitBins) || d.reply == Fail(DbError))
    ensures var d := CreateBin(s, user, name, newId, env);
      d.reply.OneBin? ==>
        var bin := d.reply.bin;
        && bin.id == newId && bin.userId == user && Named(name, newId, bin.name)
        && bin.createdAt == env.now && bin.expiresAt == env.now + 72 * 60 * 60 * 1000
        && bin.hitCount == 0 && bin.lastHitAt == None
        && newId in d.state.db.bins && d.state.db.bins[newId] == bin
        && (env.valkey ==> newId in d.state.cache && d.state.cache[newId] == bin.expiresAt)
  {
    assert env.pruneOk ==> BinsOf(PruneExpired(s, env).db, user) == LiveBins(s.db, user, env.now);
  }

  // ----- Ingest -----

  /** The stored form of what arrived. */
  predicate Records(hit: Hit, binId: Id, input: IngestInput, hitId: Id, now: int) {
    && hit.id == hitId && hit.binId == binId && hit.receivedAt == now
    && hit.verb == ToUpper(TrimSpace(input.verb)) && hit.path == input.path && hit.query == input.rawQuery
    && hit.queryParams == input.queryParams && hit.contentType == input.contentType
    && hit.ip == input.ip && hit.userAgent == input.userAgent
    && hit.headers.Keys == input.headers.Keys
    && (forall k :: k in hit.headers ==> hit.headers[k] == if Secret(k) then "[redacted]" else input.headers[k])
    && hit.bodyBytes == |input.body|
    && (if |input.body| > 262144 then hit.bodyTrunc && hit.body == input.body[..262144]
        else !hit.bodyTrunc && hit.body == input.body)
  }

  predicate Alive(db: Db, b: Id, now: int) {
    b in db.bins && now <= db.bins[b].expiresAt
  }

  /** A hit is stored exactly when its bin is alive and the database works, and then shows all that arrived. */
  lemma IngestAnswer(s: State, binId: Id, input: IngestInput, hitId: Id, keep: seq<Id>, env: Env)
    ensures var d := IngestHit(s, binId, input, hitId, keep, env);
      && (d.reply.Stored? <==> env.dbOk && Alive(s.db, binId, env.now))
      && (!d.reply.Stored? ==>
            d.reply == if !env.dbOk then Fail(DbError)
                       else if binId in s.db.bins && !env.pruneOk then Fail(Expired) else Fail(NotFound))
      && (d.reply.Stored? ==>
            && Records(d.reply.hit, binId, input, hitId, env.now)
            && (hitId in d.state.db.hits <==> hitId in keep)
            && (hitId in keep ==> d.state.db.hits[hitId] == d.reply.hit)
            && binId in d.state.db.bins && d.state.db.bins[binId].lastHitAt == Some(env.now))
  {
    RedactIs(input.headers);
    hide Redact, Secret, TrimSpace, ToUpper, HitTimes;
  }

  // ----- Delete, ClearHits and PublicExists -----

  predicate Owned(db: Db, user: string, b: Id, now: int) {
    Alive(db, b, now) && db.bins[b].userId == user
  }

  lemma DeleteAnswer(s: State, user: string, binId: Id, env: Env)
    ensures var d := DeleteBin(s, user, binId, env);
      && (d.reply == Ok <==> env.dbOk && Owned(s.db, user, binId, env.now))
      && (d.reply == Ok ==>
            && binId !in d.state.db.bins && (forall h :: h in d.state.db.hits ==> d.state.db.hits[h].binId != binId)
            && (env.valkey ==> binId !in d.state.cache))
  {
  }

  lemma ClearAnswer(s: State, user: string, binId: Id, env: Env)
    ensures var d := ClearBinHits(s, user, binId, env);
      && (d.reply.OneBin? <==> env.dbOk && env.rereadOk && Owned(s.db, user, binId, env.now))
      && (env.dbOk && Owned(s.db, user, binId, env.now) ==>
            && (forall h :: h in d.state.db.hits ==> d.state.db.hits[h].binId != binId)
            && binId in d.state.db.bins
            && d.state.db.bins[binId].hitCount == 0 && d.state.db.bins[binId].lastHitAt == None)
      && (d.reply.OneBin? ==> binId in d.state.db.bins && d.reply.bin == d.state.db.bins[binId])
  {
  }

  predicate Vouched(s: State, b: Id, env: Env) {
    env.valkey && b in s.cache && env.now <= s.cache[b]
  }

  /** The row is there, but expired. */
  predicate Dead(db: Db, b: Id, now: int) {
    b in db.bins && now > db.bins[b].expiresAt
  }

  /** The cache answers while it has an entry; else the table does, and the entry is set to die with the bin. */
  lemma ExistsAnswer(s: State, binId: Id, env: Env)
    ensures var d := CheckExists(s, binId, env);
      && d.reply == Exists(Vouched(s, binId, env) || (env.dbOk && Alive(s.db, binId, env.now)))
      && (Vouched(s, binId, env) ==> d.state == s)
      && (Dead(s.db, binId, env.now) && !Vouched(s, binId, env) && env.dbOk && env.valkey ==> binId !in d.state.cache)
      && (!Vouched(s, binId, env) && d.reply == Exists(true) && env.valkey && env.now < s.db.bins[binId].expiresAt ==>
            binId in d.state.cache && d.state.cache[binId] == s.db.bins[binId].expiresAt)
  {
  }

  // ----- Which expired bins go -----

  predicate Prunes(s: State, op: Op, env: Env) {
    op.Create? || op.List? || op.Get? || op.Ingest? || (op.PublicExists? && !Vouched(s, op.binId, env))
  }

  /** The calls that prune leave no expired bin; the others touch no bin but the one they are asked about. */
  lemma PruningAnswer(s: State, op: Op, env: Env)
    requires WellFormed(op)
    ensures var after := Step(s, op, env).state.db;
      if Prunes(s, op, env) then env.pruneOk ==> forall b :: b in after.bins ==> env.now <= after.bins[b].expiresAt
      else forall b :: b in s.db.bins && (op.PublicExists? || b != op.binId) ==> b in after.bins
  {
    hide HitTimes, RowsOf, Summaries, BinName, Redact, Truncate;
    if op.Ingest? && env.pruneOk { IngestPrunes(s, op, env); }
    hide IngestHit;
  }

  lemma IngestPrunes(s: State, op: Op, env: Env)
    requires op.Ingest? && env.pruneOk
    ensures var after := IngestHit(s, op.binId, op.input, op.hitId, op.keep, env).state.db;
      forall b :: b in after.bins ==> env.now <= after.bins[b].expiresAt
  {
    hide HitTimes, Redact, Truncate;
  }

  /** An expired bin that was asked for is gone, if it could be deleted, and out of the cache, but for Ingest. */
  lemma ExpiredAnswer(s: State, op: Op, env: Env)
    requires WellFormed(op) && Step(s, op, env).reply == Fail(Expired)
    ensures op.Get? || op.Delete? || op.ClearHits? || op.ListHits? || op.GetHit? || op.Ingest?
    ensures op.binId in s.db.bins && env.now > s.db.bins[op.binId].expiresAt
    ensures env.expireOk ==> op.binId !in Step(s, op, env).state.db.bins
    ensures env.valkey && !op.Ingest? ==> op.binId !in Step(s, op, env).state.cache
  {
    hide HitTimes, RowsOf, Summaries, BinName, MakeHit;
  }

  // ----- What each call leaves untouched -----

  predicate SameBin(a: Bin, b: Bin) {
    a.id == b.id && a.userId == b.userId && a.name == b.name && a.createdAt == b.createdAt && a.expiresAt == b.expiresAt
  }

  predicate SameStats(a: Bin, b: Bin) {
    a.hitCount == b.hitCount && a.lastHitAt == b.lastHitAt
  }

  /** The call changes the hits of b: one is stored there, or its owner clears it. */
  predicate Changes(s: State, op: Op, env: Env, b: Id) {
    match op
    case Ingest(binId, _, _, _) => b == binId && env.dbOk && Alive(s.db, b, env.now)
    case ClearHits(user, binId) => b == binId && env.dbOk && Owned(s.db, user, b, env.now)
    case _ => false
  }

  /** Bins come from Create only, keep what they were created with, and go only expired or deleted by their owner. */
  ghost predicate BinsFrame(s: State, op: Op, env: Env, after: Db) {
    && (forall b :: b in after.bins ==>
          (op.Create? && b == op.newId) || (b in s.db.bins && SameBin(s.db.bins[b], after.bins[b])))
    && (forall b :: b in after.bins && b in s.db.bins && !(op.Create? && b == op.newId) && !Changes(s, op, env, b) ==>
          SameStats(s.db.bins[b], after.bins[b]))
    && (forall b :: b in s.db.bins && b !in after.bins ==>
          env.now > s.db.bins[b].expiresAt || (op.Delete? && op.binId == b && s.db.bins[b].userId == op.user))
  }

  /** Hits come from Ingest only, never change, and go only with their bin or when its hits are changed. */
  ghost predicate HitsFrame(s: State, op: Op, env: Env, after: Db) {
    && (forall h :: h in after.hits ==>
          (op.Ingest? && h == op.hitId) || (h in s.db.hits && after.hits[h] == s.db.hits[h]))
    && (forall h :: h in s.db.hits && h !in after.hits ==>
          s.db.hits[h].binId !in after.bins || Changes(s, op, env, s.db.hits[h].binId))
  }

  /** Entries are set by Create and PublicExists only, and go only with a bin that is expired or deleted. */
  ghost predicate CacheFrame(s: State, op: Op, env: Env, after: State) {
    && (forall b :: b in after.cache ==>
          || (op.Create? && b == op.newId)
          || (op.PublicExists? && b == op.binId)
          || (b in s.cache && after.cache[b] == s.cache[b]))
    && (forall b :: b in s.cache && b !in after.cache ==>
          b in s.db.bins && (b !in after.db.bins || env.now > s.db.bins[b].expiresAt))
    && (forall b :: b in s.db.bins && b !in after.db.bins && env.valkey && (op.Ingest? ==> env.pruneOk) ==>
          b !in after.cache)
  }

  /** A new id names nothing yet. */
  predicate FreshId(s: State, op: Op) {
    && (op.Create? ==> op.newId !in s.db.bins)
    && (op.Ingest? ==> op.hitId !in s.db.hits)
  }

  lemma CreateBins(s: State, op: Op, env: Env)
    requires op.Create? && WellFormed(op) && FreshId(s, op)
    ensures BinsFrame(s, op, env, Step(s, op, env).state.db)
  {
    hide HitTimes, RowsOf, Summaries, BinName, MakeHit;
  }

  /** d is db without some expired bins and their hits. */
  ghost predicate Shrinks(db: Db, d: Db, now: int) {
    && (forall b :: b in d.bins ==> b in db.bins && d.bins[b] == db.bins[b])
    && (forall b :: b in db.bins && b !in d.bins ==> now > db.bins[b].expiresAt)
    && (forall h :: h in d.hits ==> h in db.hits && d.hits[h] == db.hits[h])
    && (forall h :: h in db.hits && h !in d.hits ==> db.hits[h].binId !in d.bins)
  }

  lemma PruneShrinks(s: State, env: Env)
    ensures Shrinks(s.db, PruneExpired(s, env).db, env.now)
  {
  }

  lemma ExpireShrinks(db: Db, d: Db, b: Id, env: Env)
    requires Shrinks(db, d, env.now) && b in d.bins && env.now > d.bins[b].expiresAt
    ensures Shrinks(db, ExpireBin(d, b, env), env.now)
  {
  }

  /** An ingest stores its hit after pruning, or refuses and at most drops expired bins. */
  lemma IngestSplits(s: State, op: Op, env: Env)
    requires op.Ingest?
    ensures var d, db1 := IngestHit(s, op.binId, op.input, op.hitId, op.keep, env), PruneExpired(s, env).db;
      && Shrinks(s.db, db1, env.now)
      && (if env.dbOk && Alive(s.db, op.binId, env.now)
          then op.binId in db1.bins
               && d.state.db == StoreHit(db1, MakeHit(op.binId, op.input, op.hitId, env.now), op.keep)
          else Shrinks(s.db, d.state.db, env.now))
  {
    var db1 := PruneExpired(s, env).db;
    PruneShrinks(s, env);
    if op.binId in db1.bins && env.now > db1.bins[op.binId].expiresAt {
      ExpireShrinks(s.db, db1, op.binId, env);
    }
    hide StoreHit, MakeHit, ExpireBin;
  }

  lemma StoreHitBins(db: Db, hit: Hit, keep: seq<Id>)
    requires hit.binId in db.bins
    ensures StoreHit(db, hit, keep).bins.Keys == db.bins.Keys
    ensures forall b :: b in db.bins && b != hit.binId ==> StoreHit(db, hit, keep).bins[b] == db.bins[b]
    ensures SameBin(db.bins[hit.binId], StoreHit(db, hit, keep).bins[hit.binId])
  {
    hide HitTimes;
  }

  lemma StoreHitHits(db: Db, hit: Hit, keep: seq<Id>)
    requires hit.id !in db.hits
    ensures forall h :: h in StoreHit(db, hit, keep).hits && h != hit.id ==>
      h in db.hits && StoreHit(db, hit, keep).hits[h] == db.hits[h]
    ensures forall h :: h in db.hits && h !in StoreHit(db, hit, keep).hits ==> db.hits[h].binId == hit.binId
  {
    hide HitTimes;
  }

  lemma ShrunkBins(s: State, op: Op, env: Env, d: Db)
    requires Shrinks(s.db, d, env.now) && !op.Create?
    ensures BinsFrame(s, op, env, d)
  {
  }

  lemma StoredBinsFrame(s: State, op: Op, env: Env, d: Db, after: Db)
    requires op.Ingest? && Shrinks(s.db, d, env.now) && env.dbOk && Alive(s.db, op.binId, env.now)
    requires op.binId in d.bins && after.bins.Keys == d.bins.Keys
    requires forall b :: b in d.bins && b != op.binId ==> after.bins[b] == d.bins[b]
    requires SameBin(d.bins[op.binId], after.bins[op.binId])
    ensures BinsFrame(s, op, env, after)
  {
    assert forall b :: b in after.bins ==> b in d.bins && b in s.db.bins;
  }

  lemma IngestBins(s: State, op: Op, env: Env)
    requires op.Ingest? && WellFormed(op) && FreshId(s, op)
    ensures BinsFrame(s, op, env, Step(s, op, env).state.db)
  {
    var db1, hit := PruneExpired(s, env).db, MakeHit(op.binId, op.input, op.hitId, env.now);
    IngestSplits(s, op, env);
    assert hit.binId == op.binId;
    hide IngestHit, PruneExpired, MakeHit, BinsFrame, Shrinks, SameBin;
    if env.dbOk && Alive(s.db, op.binId, env.now) {
      StoreHitBins(db1, hit, op.keep);
      StoredBinsFrame(s, op, env, db1, StoreHit(db1, hit, op.keep));
    } else {
      ShrunkBins(s, op, env, Step(s, op, env).state.db);
    }
  }

  lemma ClearHitsBins(s: State, op: Op, env: Env)
    requires op.ClearHits? && WellFormed(op) && FreshId(s, op)
    ensures BinsFrame(s, op, env, Step(s, op, env).state.db)
  {
    hide HitTimes, RowsOf, Summaries, BinName, MakeHit;
  }

  lemma OwnerBins(s: State, op: Op, env: Env)
    requires op.Get? || op.Delete? || op.ListHits? || op.GetHit?
    ensures BinsFrame(s, op, env, Step(s, op, env).state.db)
  {
    hide RowsOf, Summaries;
  }

  lemma StepBins(s: State, op: Op, env: Env)
    requires WellFormed(op) && FreshId(s, op)
    ensures BinsFrame(s, op, env, Step(s, op, env).state.db)
  {
    hide HitTimes, RowsOf, Summaries, BinName, MakeHit, CreateBin, IngestHit, ClearBinHits;
    hide GetBin, DeleteBin, PageOfHits, FindHit;
    match op
    case Create(_, _, _) => CreateBins(s, op, env);
    case Ingest(_, _, _, _) => IngestBins(s, op, env);
    case ClearHits(_, _) => ClearHitsBins(s, op, env);
    case List(_, _) =>
    case PublicExists(_) =>
    case _ => OwnerBins(s, op, env);
  }

  lemma CreateHits(s: State, op: Op, env: Env)
    requires op.Create? && WellFormed(op) && FreshId(s, op)
    ensures HitsFrame(s, op, env, Step(s, op, env).state.db)
  {
    hide HitTimes, RowsOf, Summaries, BinName;
  }

  lemma ShrunkHits(s: State, op: Op, env: Env, d: Db)
    requires Shrinks(s.db, d, env.now)
    ensures HitsFrame(s, op, env, d)
  {
  }

  lemma StoredHitsFrame(s: State, op: Op, env: Env, d: Db, after: Db)
    requires op.Ingest? && Shrinks(s.db, d, env.now) && env.dbOk && Alive(s.db, op.binId, env.now)
    requires after.bins.Keys == d.bins.Keys
    requires forall h :: h in after.hits && h != op.hitId ==> h in d.hits && after.hits[h] == d.hits[h]
    requires forall h :: h in d.hits && h !in after.hits ==> d.hits[h].binId == op.binId
    ensures HitsFrame(s, op, env, after)
  {
    assert forall h :: h in s.db.hits && h !in after.hits && h in d.hits ==> d.hits[h] == s.db.hits[h];
  }

  lemma IngestHits(s: State, op: Op, env: Env)
    requires op.Ingest? && WellFormed(op) && FreshId(s, op)
    ensures HitsFrame(s, op, env, Step(s, op, env).state.db)
  {
    var db1, hit := PruneExpired(s, env).db, MakeHit(op.binId, op.input, op.hitId, env.now);
    IngestSplits(s, op, env);
    assert hit.id == op.hitId && hit.binId == op.binId;
    assert hit.id !in db1.hits;
    hide IngestHit, PruneExpired, MakeHit, HitsFrame, Shrinks, SameBin;
    if env.dbOk && Alive(s.db, op.binId, env.now) {
      StoreHitBins(db1, hit, op.keep);
      StoreHitHits(db1, hit, op.keep);
      StoredHitsFrame(s, op, env, db1, StoreHit(db1, hit, op.keep));
    } else {
      ShrunkHits(s, op, env, Step(s, op, env).state.db);
    }
  }

  lemma ClearHitsHits(s: State, op: Op, env: Env)
    requires op.ClearHits? && WellFormed(op) && FreshId(s, op)
    ensures HitsFrame(s, op, env, Step(s, op, env).state.db)
  {
    hide HitTimes, RowsOf, Summaries, BinName;
  }

  lemma OwnerHits(s: State, op: Op, env: Env)
    requires op.Get? || op.Delete? || op.ListHits? || op.GetHit?
    ensures HitsFrame(s, op, env, Step(s, op, env).state.db)
  {
    hide RowsOf, Summaries;
  }

  lemma StepHits(s: State, op: Op, env: Env)
    requires WellFormed(op) && FreshId(s, op)
    ensures HitsFrame(s, op, env, Step(s, op, env).state.db)
  {
    hide HitTimes, RowsOf, Summaries, BinName, CreateBin, IngestHit, ClearBinHits;
    hide GetBin, DeleteBin, PageOfHits, FindHit;
    match op
    case Create(_, _, _) => CreateHits(s, op, env);
    case Ingest(_, _, _, _) => IngestHits(s, op, env);
    case ClearHits(_, _) => ClearHitsHits(s, op, env);
    case List(_, _) =>
    case PublicExists(_) =>
    case _ => OwnerHits(s, op, env);
  }

  lemma CreateCache(s: State, op: Op, env: Env)
    requires op.Create? && WellFormed(op) && FreshId(s, op)
    ensures CacheFrame(s, op, env, Step(s, op, env).state)
  {
    hide HitTimes, RowsOf, Summaries, BinName, MakeHit;
  }

  lemma IngestCache(s: State, op: Op, env: Env)
    requires op.Ingest? && WellFormed(op) && FreshId(s, op)
    ensures CacheFrame(s, op, env, Step(s, op, env).state)
  {
    hide HitTimes, RowsOf, Summaries, BinName, Redact, Truncate;
  }

  lemma ClearHitsCache(s: State, op: Op, env: Env)
    requires op.ClearHits? && WellFormed(op) && FreshId(s, op)
    ensures CacheFrame(s, op, env, Step(s, op, env).state)
  {
    hide HitTimes, RowsOf, Summaries, BinName, MakeHit;
  }

  lemma OwnerCache(s: State, op: Op, env: Env)
    requires op.Get? || op.Delete? || op.ListHits? || op.GetHit?
    ensures CacheFrame(s, op, env, Step(s, op, env).state)
  {
    hide RowsOf, Summaries;
  }

  lemma StepCache(s: State, op: Op, env: Env)
    requires WellFormed(op) && FreshId(s, op)
    ensures CacheFrame(s, op, env, Step(s, op, env).state)
  {
    hide HitTimes, RowsOf, Summaries, BinName, MakeHit, CreateBin, IngestHit, ClearBinHits;
    hide GetBin, DeleteBin, PageOfHits, FindHit;
    match op
    case Create(_, _, _) => CreateCache(s, op, env);
    case Ingest(_, _, _, _) => IngestCache(s, op, env);
    case ClearHits(_, _) => ClearHitsCache(s, op, env);
    case List(_, _) =>
    case PublicExists(_) =>
    case _ => OwnerCache(s, op, env);
  }
}
