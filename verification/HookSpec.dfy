/** One request to /hook/{id}: id test, cached existence check, limiter, bounded read, store. */
module HookSpec {
  import opened Prelude
  import opened Limits
  import opened Text
  import opened Tables
  import opened WebhookOps
  import opened BinId
  import FixedWindow

  const HOOK_LIMIT := 120
  const HOOK_WINDOW := 60 * 1000

  /** headers and query as parsed, several values per name; readOk: the body could be read. */
  datatype Request = Request(
    binId: Id, verb: string, pathExtra: string, rawQuery: string, query: map<string, seq<string>>,
    headers: map<string, seq<string>>, body: string, readOk: bool, ip: string)

  datatype Response = Response(status: int, retrySeconds: int, stored: Option<Hit>)

  /** The whole server state a request can reach. */
  datatype Sys = Sys(store: State, counters: map<string, FixedWindow.Counter>)

  datatype Handled = Handled(sys: Sys, response: Response)

  /** How the store's two calls and the limiter's three commands fare; all at one clock value. */
  datatype Faults = Faults(now: int, checkPrune: bool, checkOk: bool,
                           ingestPrune: bool, ingestExpire: bool, ingestOk: bool, valkey: bool,
                           incr: FixedWindow.Outcome, expire: FixedWindow.Outcome, ttl: FixedWindow.Outcome)
  {
    function Check(): Env { Env(now, checkPrune, true, checkOk, true, valkey) }
    function Ingest(): Env { Env(now, ingestPrune, ingestExpire, ingestOk, true, valkey) }
    function Limit(): FixedWindow.Io { FixedWindow.Io(now, now, now, incr, expire, ttl) }
  }

  function HookKey(binId: Id): string {
    "rl:" + ("hook:" + binId)
  }

  function JoinedHeaders(headers: map<string, seq<string>>): map<string, string> {
    map k | k in headers && headers[k] != [] :: Join(headers[k], ", ")
  }

  function FirstValues(query: map<string, seq<string>>): map<string, string> {
    map k | k in query && query[k] != [] :: query[k][0]
  }

  function Header(headers: map<string, seq<string>>, name: string): string {
    if name in headers && headers[name] != [] then headers[name][0] else ""
  }

  function HookPath(req: Request): string {
    "/hook/" + req.binId + if req.pathExtra != "" then "/" + req.pathExtra else ""
  }

  /** At most one byte more than allowed is read. */
  function ReadBody(req: Request): string {
    Truncate(req.body, MAX_BODY_BYTES + 1)
  }

  function InputOf(req: Request): IngestInput {
    IngestInput(req.verb, HookPath(req), req.rawQuery, FirstValues(req.query), JoinedHeaders(req.headers),
                Header(req.headers, "Content-Type"), ReadBody(req), req.ip, Header(req.headers, "User-Agent"))
  }

  function StatusOf(err: Err): int {
    match err
    case NotFound => 404
    case Expired => 404
    case Forbidden => 403
    case LimitBins => 409
    case DbError => 400
  }

  function Refuse(sys: Sys, status: int): Handled {
    Handled(sys, Response(status, 0, None))
  }

  function AfterLimit(sys: Sys, req: Request, hitId: Id, keep: seq<Id>, f: Faults): Handled {
    if req.verb == "HEAD" then Refuse(sys, 200)
    else if !req.readOk then Refuse(sys, 400)
    else if |ReadBody(req)| > MAX_BODY_BYTES then Refuse(sys, 413)
    else
      var d := IngestHit(sys.store, req.binId, InputOf(req), hitId, keep, f.Ingest());
      match d.reply
      case Stored(hit) => Handled(sys.(store := d.state), Response(200, 0, Some(hit)))
      case Fail(err) => Refuse(sys.(store := d.state), StatusOf(err))
      case _ => Refuse(sys.(store := d.state), 400)
  }

  function Verdict(sys: Sys, binId: Id, f: Faults): FixedWindow.Verdict {
    FixedWindow.Allow(FixedWindow.CounterOf(sys.counters, HookKey(binId)), HOOK_LIMIT, HOOK_WINDOW, f.Limit())
  }

  function Counted(sys: Sys, binId: Id, f: Faults): Sys {
    sys.(counters := FixedWindow.PutCounter(sys.counters, HookKey(binId), Verdict(sys, binId, f).counter))
  }

  function AfterCheck(sys: Sys, req: Request, hitId: Id, keep: seq<Id>, f: Faults): Handled {
    var v := Verdict(sys, req.binId, f);
    var sys' := Counted(sys, req.binId, f);
    if !v.ok then Handled(sys', Response(429, FixedWindow.RetrySeconds(v.retryAfter), None))
    else AfterLimit(sys', req, hitId, keep, f)
  }

  function HandleHook(sys: Sys, req: Request, hitId: Id, keep: seq<Id>, f: Faults): Handled {
    if !IsBinId(req.binId) then Refuse(sys, 404)
    else
      var d := CheckExists(sys.store, req.binId, f.Check());
      if d.reply != Exists(true) then Refuse(sys.(store := d.state), 404)
      else AfterCheck(sys.(store := d.state), req, hitId, keep, f)
  }

  /** The database's choice in the request's ingest, if it gets that far. */
  ghost predicate HookAllowed(sys: Sys, req: Request, hitId: Id, keep: seq<Id>, f: Faults) {
    var h := HandleHook(sys, req, hitId, keep, f);
    h.response.stored.Some? ==>
      var s := CheckExists(sys.store, req.binId, f.Check()).state;
      Allowed(s, Op.Ingest(req.binId, InputOf(req), hitId, keep), f.Ingest())
  }
}
