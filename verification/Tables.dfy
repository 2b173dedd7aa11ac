/** The tables webhook_bins and webhook_hits, and the effect of each SQL statement on them. */
module Tables {
  import opened Prelude

  datatype Bin = Bin(
    id: Id, userId: string, name: string, createdAt: int, expiresAt: int,
    hitCount: nat, lastHitAt: Option<int>)

  datatype Hit = Hit(
    id: Id, binId: Id, receivedAt: int, verb: string, path: string, query: string,
    queryParams: map<string, string>, headers: map<string, string>, contentType: string,
    body: string, bodyTrunc: bool, bodyBytes: nat, ip: string, userAgent: string)

  datatype Db = Db(bins: map<Id, Bin>, hits: map<Id, Hit>)

  const EMPTY := Db(map[], map[])

  /** DELETE FROM webhook_bins; hits go with their bin. */
  function DeleteBins(db: Db, ids: set<Id>): Db {
    Db(db.bins - ids, map h | h in db.hits && db.hits[h].binId !in ids :: db.hits[h])
  }

  function ExpiredIds(db: Db, now: int): set<Id> {
    set b | b in db.bins && db.bins[b].expiresAt < now
  }

  /** DELETE FROM webhook_bins WHERE expires_at < NOW(). */
  function Prune(db: Db, now: int): Db {
    DeleteBins(db, ExpiredIds(db, now))
  }

  function BinsOf(db: Db, user: string): set<Id> {
    set b | b in db.bins && db.bins[b].userId == user
  }

  function CreatedTimes(db: Db, user: string): map<Id, int> {
    map b | b in db.bins && db.bins[b].userId == user :: db.bins[b].createdAt
  }

  /** received_at of the hits of one bin. */
  function HitTimes(db: Db, binId: Id): map<Id, int> {
    map h | h in db.hits && db.hits[h].binId == binId :: db.hits[h].receivedAt
  }

  /** The hits a page may contain: those of the bin older than the cursor hit, if it is still there. */
  function Candidates(db: Db, binId: Id, after: Id): map<Id, int> {
    if after == "" then HitTimes(db, binId)
    else if after in HitTimes(db, binId) then
      map h | h in HitTimes(db, binId) && HitTimes(db, binId)[h] < HitTimes(db, binId)[after] :: HitTimes(db, binId)[h]
    else map[]
  }

  function InsertBin(db: Db, bin: Bin): Db {
    db.(bins := db.bins[bin.id := bin])
  }

  function InsertHit(db: Db, hit: Hit): Db {
    db.(hits := db.hits[hit.id := hit])
  }

  /** DELETE FROM webhook_hits WHERE bin_id = binId, sparing keep. */
  function KeepHits(db: Db, binId: Id, keep: set<Id>): Db {
    db.(hits := map h | h in db.hits && (db.hits[h].binId != binId || h in keep) :: db.hits[h])
  }

  /** UPDATE webhook_bins SET hit_count, last_hit_at. */
  function SetStats(db: Db, binId: Id, count: nat, last: Option<int>): Db {
    if binId in db.bins then
      db.(bins := db.bins[binId := db.bins[binId].(hitCount := count, lastHitAt := last)])
    else db
  }

  /** The ClearHits transaction. */
  function ClearBin(db: Db, binId: Id): Db {
    SetStats(KeepHits(db, binId, {}), binId, 0, None)
  }

  /** The Ingest transaction; keep is what the ORDER BY of its DELETE spares. */
  function StoreHit(db: Db, hit: Hit, keep: seq<Id>): Db {
    var kept := KeepHits(InsertHit(db, hit), hit.binId, Elems(keep));
    SetStats(kept, hit.binId, |HitTimes(kept, hit.binId).Keys|, Some(hit.receivedAt))
  }

  /** Rows in the order of a query result; ids without a row are skipped. */
  function RowsOf<T>(rows: map<Id, T>, order: seq<Id>): seq<T> {
    if order == [] then []
    else (if order[0] in rows then [rows[order[0]]] else []) + RowsOf(rows, order[1..])
  }
}
