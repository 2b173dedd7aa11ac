/** The HTTP handler as the server runs it, over the store and the limiter. */
module HookHandler {
  import opened Prelude
  import opened Limits
  import opened Text
  import opened Tables
  import opened WebhookOps
  import opened BinId
  import opened HookSpec
  import FixedWindow
  import RateLimit
  import WebhookStore

  method JoinHeaders(headers: map<string, seq<string>>) returns (out: map<string, string>)
    ensures out == JoinedHeaders(headers)
  {
    out := map[];
    var todo := headers.Keys;
    while todo != {}
      invariant todo <= headers.Keys
      invariant out == JoinedHeaders(Restrict(headers, headers.Keys - todo))
      decreases todo
    {
      var k :| k in todo;
      todo := todo - {k};
      if headers[k] != [] {
        out := out[k := Join(headers[k], ", ")];
      }
    }
    assert Restrict(headers, headers.Keys - todo) == headers;
  }

  method TakeFirstValues(query: map<string, seq<string>>) returns (out: map<string, string>)
    ensures out == FirstValues(query)
  {
    out := map[];
    var todo := query.Keys;
    while todo != {}
      invariant todo <= query.Keys
      invariant out == FirstValues(Restrict(query, query.Keys - todo))
      decreases todo
    {
      var k :| k in todo;
      todo := todo - {k};
      if |query[k]| > 0 {
        out := out[k := query[k][0]];
      }
    }
    assert Restrict(query, query.Keys - todo) == query;
  }

  class Server {
    const hooks: WebhookStore.Store
    const limiter: RateLimit.Limiter

    constructor (hooks: WebhookStore.Store, limiter: RateLimit.Limiter)
      ensures this.hooks == hooks && this.limiter == limiter
    {
      this.hooks, this.limiter := hooks, limiter;
    }

    function Sys(): HookSpec.Sys
      reads hooks, limiter.rdb
    {
      HookSpec.Sys(hooks.State(), limiter.rdb.counters)
    }

    method HandleHookIngest(req: Request, hitId: Id, f: Faults) returns (response: Response, ghost keep: seq<Id>)
      requires |hitId| == 2 * ID_BYTES
      modifies hooks, limiter.rdb
      ensures Handled(Sys(), response) == HandleHook(old(Sys()), req, hitId, keep, f)
      ensures HookAllowed(old(Sys()), req, hitId, keep, f)
    {
      hide IsBinId, Encode, CheckExists, IngestHit, FixedWindow.Allow, Allowed, JoinedHeaders, FirstValues;
      keep := [];
      var looks := LooksLikeBinId(req.binId);
      if !looks {
        return Response(404, 0, None), keep;
      }
      var found := hooks.PublicExists(req.binId, f.Check());
      if !found {
        return Response(404, 0, None), keep;
      }
      var ok, retry := limiter.Allow("hook:" + req.binId, HOOK_LIMIT, HOOK_WINDOW, f.Limit());
      if !ok {
        return Response(429, FixedWindow.RetrySeconds(retry), None), keep;
      }
      if req.verb == "HEAD" {
        return Response(200, 0, None), keep;
      }
      if !req.readOk {
        return Response(400, 0, None), keep;
      }
      var body := ReadBody(req);
      if |body| > MAX_BODY_BYTES {
        return Response(413, 0, None), keep;
      }
      var headers := JoinHeaders(req.headers);
      var q := TakeFirstValues(req.query);
      var input := IngestInput(req.verb, HookPath(req), req.rawQuery, q, headers,
                               Header(req.headers, "Content-Type"), body, req.ip, Header(req.headers, "User-Agent"));
      var r: Reply;
      r, keep := hooks.Ingest(req.binId, input, hitId, f.Ingest());
      match r {
        case Stored(hit) => response := Response(200, 0, Some(hit));
        case Fail(err) => response := Response(StatusOf(err), 0, None);
        case _ => response := Response(400, 0, None);
      }
    }
  }
}
