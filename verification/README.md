# Webhook bins, rate limiter and visitor tracker: a Dafny model

This project models the part of the server that keeps state in Postgres and Valkey, and proves what
that state satisfies over whole runs and under interleaving:

- the **webhook store** (`internal/webhook/store.go`): bins that expire lazily, each holding its
  newest 100 hits with a derived count, paged by a cursor, behind an existence cache;
- the **hook handler** (`internal/httpapi/webhook.go`): id test, cached existence check, limiter,
  bounded body read and store, composed;
- the **fixed-window limiter** (`internal/ratelimit/ratelimit.go`): INCR, EXPIRE and TTL as separate
  commands that may fail or lose their reply;
- the **visitor tracker** (`internal/visitor/store.go`): a volatile flag that guards an insert-or-update.

Verify everything with `dafny verify dfyconfig.toml --resource-limit 2000000`.

## How it is built

*Two layers.* In the serial layer a whole operation is one step at one clock value
(`WebhookOps.Step`, `HookSpec.HandleHook`, `VisitorSpec.Track`, `FixedWindow.Allow`). In the
interleaved layer a single statement or command is one step of a state machine (`Runs.Machine`:
`ConcurrentIngest.Bin`, `ConcurrentCreate.User`, `CacheRace.Bin`, `LimiterBound.Key`,
`VisitorRace.Tracker`).
`LoneIngest.AloneIsSerial`, `LoneIngest.SerialStore`, `CacheRace.LoneLookup`,
`LimiterBound.CallIsInterleaving` and `VisitorRace.LoneCallIsTrack` connect the two.

*Objects and their specifications.* `WebhookStore.Store`, `RateLimit.Valkey`, `RateLimit.Limiter`,
`HookHandler.Server` and `Visitor.Store` are classes whose methods change fields statement by
statement, as the Go methods do. Each is proved equal to a function of the old state; the theorems
are about those functions.

*Answers told twice.* What a caller gets is also stated without the functions that compute it, from
the tables, the counter, the request and literal constants: `StoreAnswers` for the store, including
what each call leaves untouched, `HookAnswers` for the status of every request, the `...Answer` lemmas
of `FixedWindow` for the limiter, `VisitorSpec.ShowsFields` for a visitor's row, and the `...Is` lemmas
of `Text`, `Redaction`, `BinId` and `Fingerprint` for strings, by character codes.

*Time* is a non-decreasing integer in milliseconds, one clock for the application, Postgres and
Valkey. A Valkey key lives while `now <= deadline`, a bin while `now <= expiresAt`.

*Choices and failures.* `ORDER BY ... DESC` leaves ties open, so the result of such a query is any
sequence that `NewestFirst.TopN` admits, passed as part of the operation (`keep`, `order`, `page`)
and constrained by `Allowed`. New ids are inputs never used before. `Env` and `Faults` say whether
the prune statement, the deletion of a single expired bin and the operation's other statements
succeed, whether Valkey answers the cache commands, and how each limiter command fares; a store built
without Valkey is one whose Valkey never answers.

## What holds, and what does not

Some things one would like to say are not true of the code. Each is proved with the exact condition.

- *Lazy expiry is visible in three ways, and in no other* (`EagerStore.Differs`, reached in
  `VisibleExpiry`): a stranger who asks for an expired row that is not yet pruned is told 403 instead
  of 404; a `List` whose prune failed shows expired bins; a cache entry that outlived its bin, or that
  answers while the database fails, makes `PublicExists` say true.
- *A lifetime of a limiter key has a caller that sees 1 if and only if the INCR that created it was
  answered*, and then exactly one (`LimiterBound.OneCallerSeesOne`); a lost reply leaves none
  (`LimiterBound.NobodySeesOne`). After any interleaving a counter never ends if and only if it has no
  deadline and no EXPIRE is on its way (`LimiterBound.NeverEndsIffStuck`); it then only counts up, and
  once full allows nobody any more (`LimiterBound.StuckForEver`). Waiting the advertised time helps
  exactly when the counter has a deadline (`LimiterBound.WaitingAfterAnyRun`).
- *The interval bound can be sharpened to the exact maximum.* A key lives while `now <= deadline`, so
  lifetimes start more than a window apart. The most calls that L milliseconds can hold is
  `Peak(L - 1)`, for every L (`LimiterBound.AllowedInInterval`, `LimiterSchedules.BoundAttained`); it is
  always below `limit * (ceil(L / window) + 1)`.
- *hit_count and last_hit_at stay right if and only if no two transactions on the bin overlap*
  (`LoneIngest.CountExactIffAlone`, `LatestHit.LatestIffAlone`): with c in flight they do exactly for
  c <= 1. The cap overshoots by at most c - 1 with c transactions in flight, and does so from every full
  bin, row locks respected; one process has c <= 10 connections (`internal/db/postgres.go:23`).
- *The existence cache ends up naming no deleted bin if and only if no two calls on the bin overlap*
  (`CacheRace.HonestIffAlone`), even when no Valkey command fails: a lookup may cache what it found after
  a deletion has removed the entry. In serial runs without Valkey failures it never does
  (`BinCache.RunSound`).
- *The cache shows in what is stored only when an existence check fails in the database*: for one
  request to two servers that agree, exactly when the cache vouches for a live bin, the limiter allows
  the request and it can be stored (`CacheTransparency.CacheShowsIff`).
- *A bin is paged through completely by every session if and only if no two of its hits have the same
  time* (`PagingTies.CompleteIffDistinct`), whatever happens in between. What is lost in a session are
  ties with some page's last hit, and only those (`Paging.PagingIsComplete`, `Paging.TiesAreSkipped`).
- *A visitor can be lost*: `track` is an upsert exactly when the statement it needs is reached and works
  (`VisitorSpec.TrackIsUpsert`). An INSERT that fails for another reason than the primary key leaves a
  flag without a row (`VisitorSpec.FailedInsertLeavesFlag`), and while that flag stays the visitor is
  never recorded (`VisitorSpec.FlagWithoutRowIsFinal`).
- *No concurrent visit is lost if and only if no two calls of the same visitor overlap*
  (`VisitorRace.NeverLostIffAlone`). When they do, one that finds the flag set but whose UPDATE comes
  before the flag setter's INSERT changes nothing, and a user id that only it carries is not recorded
  (`VisitorRace.UserCanBeLost`); all other calls show in the row (`VisitorRace.RowsShowTouches`).
- *A fingerprint belongs to one set of fields if and only if no field has a cut*, a separator with no
  white space beside it (`Fingerprint.AcceptedKeyIsUnique`). The server takes the visitor id through
  `ValidID` and all fields but the referer from request headers, where an HTTP server should not let
  the separator through; for those `Fingerprint.SameKeySameFields` says that keys are equal only for
  equal fields, whatever the referer holds.

## Model

| member | source | states |
|---|---|---|
| NewestFirst.TopStream | internal/webhook/store.go:309-319 | keeping the newest n of what was kept plus one arrival keeps the newest n of all arrivals, in whatever order they come |
| NewestFirst.TopUnique | internal/webhook/store.go:309-319 | without ties the set spared by the DELETE is determined |
| NewestFirst.TopTie | internal/webhook/store.go:309-319 | two possible answers to the query differ only by hits of equal times |
| NewestFirst.OrderDesc | internal/webhook/store.go:353-359 | the ordering of a query: the returned sequence is one that ORDER BY DESC with a LIMIT may return |
| StoreInvariant.StepInv | internal/webhook/store.go:105-447 | every operation keeps: hits have bins; hit_count is the number of stored hits and at most 100; last_hit_at is null exactly for no hits and else their maximum; expires_at is created_at + 72 h; at most 3 bins per user |
| StoreInvariant.RunInv | internal/webhook/store.go:105-447 | that invariant holds after every serial run from the empty store, with prunes and cache commands failing at will |
| SlidingWindow.StoredAreNewest | internal/webhook/store.go:296-322 | after any serial run, even with arrival times out of order, a bin holds the newest min(n, 100) of all n hits that arrived since it was created or last cleared, with their times; with ties, nothing dropped is newer than anything kept |
| SlidingWindow.StoredAreDetermined | internal/webhook/store.go:296-322 | with distinct times exactly those hits are stored |
| SlidingWindow.StepInv | internal/webhook/store.go:198-338 | each operation keeps the stored hits equal to the newest of the recorded history; only a successful clear restarts the history |
| EagerStore.StepState | internal/webhook/store.go:105-500 | up to expired rows, every operation leaves the tables of a store in which bins vanish at their deadline |
| EagerStore.StepReply | internal/webhook/store.go:105-500 | an operation answers like the simple store, expired and not found counting as one, if and only if none of the three visible cases applies |
| EagerStore.StepChoices | internal/webhook/store.go:151-386 | both stores leave the database the same choices among ties |
| EagerStore.LazyRefinesEager | internal/webhook/store.go:105-500 | over every serial run, database failures included, the answers of lazy and eager expiry agree at exactly the positions where the visible cases do not apply |
| EagerStore.LazyTablesRefineEager | internal/webhook/store.go:487-500 | and at any later time the same bins and hits are alive in both |
| VisibleExpiry.StrangerIsTold | internal/webhook/store.go:461-468 | a serial run from the empty store in which a stranger is answered Forbidden for a bin that is gone |
| VisibleExpiry.ExpiredIsListed | internal/webhook/store.go:151-162 | a serial run in which a List whose prune fails shows an expired bin |
| VisibleExpiry.GoneIsSaidToExist | internal/webhook/store.go:429-434 | a serial run in which a deleted bin whose DEL failed is said to exist |
| PruneLaws.PruneStore | internal/webhook/store.go:290-336 | pruning commutes with the ingest transaction on a live bin |
| BinCache.StepSound | internal/webhook/store.go:83-95 | while Valkey answers, every operation keeps each live cache entry naming an existing bin that does not expire before the entry, although an ingest's own expiry delete leaves the entry behind |
| BinCache.RunSound | internal/webhook/store.go:83-95 | that holds over every serial run |
| BinCache.PublicExistsIsExact | internal/webhook/store.go:426-447 | after such a run PublicExists, if its query works, is true exactly for unexpired bins |
| BinCache.PublicExistsWrong | internal/webhook/store.go:426-447 | from any state its answer is wrong exactly when a live entry outlived its bin, or without an entry when the database fails |
| CacheRace.GoneButCached | internal/webhook/store.go:426-447 | a lookup and a deletion interleave so that a live entry names a deleted bin, though no command fails |
| CacheRace.HonestIffAlone | internal/webhook/store.go:83-95 | over all interleavings with at most k calls in flight, a live entry never names a deleted bin once all have finished, if and only if k is at most 1 |
| CacheRace.LoneLookup | internal/webhook/store.go:426-447 | a missed lookup that runs alone leaves the row and entry that the serial one leaves |
| CacheRace.LoneRemoval | internal/webhook/store.go:191-195 | a deletion that runs alone leaves neither row nor entry |
| Noninterference.OthersUnseen | internal/webhook/store.go:105-338 | operations of others on bins that are not v's leave v's bins and hits alone |
| Noninterference.OwnAnswersOnly | internal/webhook/store.go:105-424 | v's answers in any serial run are those of the simple store to v's own part of the run |
| Noninterference.OwnPartLegal | internal/webhook/store.go:105-424 | from any state of the invariant, v's own part of a serial run is a serial run of the real store on v's own bins, with the same choices open to the database and the same answers |
| Noninterference.OthersCanBeDeleted | internal/webhook/store.go:105-424 | delete from a serial run everything but v's operations on v's bins and the hits for them: what is left is a serial run and answers v alike |
| Noninterference.SameAnswers | internal/webhook/store.go:105-424 | so two serial runs that share v's part answer v alike, whatever else happens |
| UserDeletion.OneUserCanBeDeleted | internal/webhook/store.go:105-424 | delete from a serial run one user's operations on their own bins and all hits for these bins: what is left is a serial run and answers every other user alike about their own bins |
| UserDeletion.KeptChoice | internal/webhook/store.go:151-386 | every choice the database made for the others is open to it without that user |
| Paging.IngestLater | internal/webhook/store.go:309-319 | an eviction keeps this: if a hit of the start is still stored, so is every newer one of the start |
| Paging.CandidatesSplit | internal/webhook/store.go:361-370 | the page query leaves out only hits at least as recent as the cursor, also when the cursor hit is gone and its sub-select is NULL |
| Paging.MoreKeeps | internal/webhook/store.go:340-386 | after each page, everything stored and at least as recent as the cursor has been returned or has the time of some page's last hit |
| Paging.PagingIsComplete | internal/webhook/store.go:340-386 | paging during ingestion, with any limits and any times: newest first, no duplicates, finitely many pages, and at the empty page every hit of the start that is still stored has been returned or is tied with a page's last hit |
| Paging.DistinctTimesLoseNothing | internal/webhook/store.go:340-386 | with distinct times the hits come strictly descending and every hit of the start that is still stored is returned exactly once |
| PagingTies.OneByOne | internal/webhook/store.go:340-386 | asked for one hit at a time, a bin at rest yields hits of strictly descending times until an empty page |
| PagingTies.CompleteIffDistinct | internal/webhook/store.go:340-386 | for any bin its owner can read, every session is complete if and only if its hits have distinct times |
| Paging.TiesAreSkipped | internal/webhook/store.go:361-370 | after a page at any cursor, the next query misses exactly the unreturned hits with the time of the page's last one |
| WebhookStore.Store.PruneExpired | internal/webhook/store.go:487-500 | deletes exactly the bins past their deadline with their hits, and their cache entries, or nothing when the statement fails |
| WebhookStore.Store.GetOwned | internal/webhook/store.go:449-470 | new state and answer, including the deletion of the caller's own expired bin |
| WebhookStore.Store.Create | internal/webhook/store.go:105-149 | new state and answer are those of the specification the theorems are about |
| WebhookStore.Store.List | internal/webhook/store.go:151-176 | the same, and the order is one the database may choose |
| WebhookStore.Store.Get | internal/webhook/store.go:178-183 | new state and answer are those of the specification |
| WebhookStore.Store.Delete | internal/webhook/store.go:185-196 | new state and answer are those of the specification |
| WebhookStore.Store.ClearHits | internal/webhook/store.go:198-222 | new state and answer are those of the specification |
| WebhookStore.Store.Ingest | internal/webhook/store.go:236-338 | insert, cap, recount and update make the state of the specification, and the spared hits are some newest 100 |
| WebhookStore.Store.ListHits | internal/webhook/store.go:340-386 | new state and answer are those of the specification, and the page is one the database may choose |
| WebhookStore.Store.GetHit | internal/webhook/store.go:388-424 | new state and answer are those of the specification |
| WebhookStore.Store.PublicExists | internal/webhook/store.go:426-447 | new state and answer are those of the specification |
| WebhookStore.ScanRows | internal/webhook/store.go:167-174 | the row loop returns the query's rows in order |
| StoreAnswers.ListHitsAnswer | internal/webhook/store.go:340-386 | a page is the summaries of the rows its ids name, each once, newest first, of hits of the bin older than the cursor; one that is left out is at most as recent as all shown, and only because the page holds as many as asked for, or 100 |
| StoreAnswers.ListAnswer | internal/webhook/store.go:151-176 | the list is exactly the user's bins, without the expired ones if these could be pruned, each once, the latest created first |
| StoreAnswers.CreateAnswer | internal/webhook/store.go:105-149 | a bin is made exactly when the database works and the user has fewer than 3 alive; its id, owner, name, times and empty stats, its row and its cache entry for 72 hours |
| StoreAnswers.IngestAnswer | internal/webhook/store.go:236-338 | a hit is stored exactly when the database works and the bin is alive, else which error; every field of it from what arrived, cut at 256 KiB, with "[redacted]" for six header names spelled out; the bin's new time |
| StoreAnswers.DeleteAnswer | internal/webhook/store.go:185-196 | Ok exactly for the owner of a live bin; then bin, hits and cache entry are gone |
| StoreAnswers.ClearAnswer | internal/webhook/store.go:198-222 | the bin is cleared exactly for the owner while it is alive, and is returned with no hits, a zero count and no time |
| StoreAnswers.ExistsAnswer | internal/webhook/store.go:426-447 | true exactly when the cache vouches for the id or the table has it alive; then the entry is set to die with the bin |
| StoreAnswers.PruningAnswer | internal/webhook/store.go:487-500 | Create, List, Get, Ingest and a missed lookup leave no expired bin if the prune works; every other call touches no bin but the one it names |
| StoreAnswers.ExpiredAnswer | internal/webhook/store.go:464-468 | after an answer that the bin is expired, its row is gone if it could be deleted, and its cache entry is gone unless the call was an ingest |
| StoreAnswers.StepBins | internal/webhook/store.go:105-500 | no operation changes a bin's id, owner, name or times; bins come from Create only, go only expired or deleted by their owner, and their stats change only by a stored hit or a clear |
| StoreAnswers.StepHits | internal/webhook/store.go:105-500 | hits come from Ingest only, never change, and go only with their bin, by its clear, or when one is stored in it |
| StoreAnswers.StepCache | internal/webhook/store.go:83-95 | entries are set by Create and PublicExists only, are lost only for bins that are deleted or expired, and are dropped with every bin that goes, except by an ingest's own expiry delete |
| PruneLaws.RowsInOrder | internal/webhook/store.go:167-174 | scanned rows are the rows of the ids, position by position |
| Redaction.RedactHeaders | internal/webhook/store.go:502-513 | same names; "[redacted]" under every name that spells one of six literals in whatever case; every other value unchanged |
| Redaction.SensitiveIsSecret | internal/webhook/store.go:505-506 | the names on the list are those that agree at every position with one of the six literals, up to a letter A to Z where the literal has a to z |
| Redaction.CaseDoesNotMatter | internal/webhook/store.go:505-506 | names that differ only in the case of letters, told by their codes, are treated alike |
| BinId.DecodeEncode | internal/webhook/store.go:97-103 | decoding undoes the hexadecimal encoding |
| BinId.EncodeDecode | internal/webhook/store.go:97-103 | encoding undoes decoding |
| BinId.EncodeIs | internal/webhook/store.go:97-103 | two digits of 0123456789abcdef for each byte, in order, the higher four bits first |
| BinId.AcceptsExactlyEncodings | internal/httpapi/webhook.go:279-289 | the routed ids are exactly the encodings of 16 bytes |
| BinId.LooksLikeBinId | internal/httpapi/webhook.go:279-289 | the loop decides exactly that |
| HookHandler.JoinHeaders | internal/httpapi/webhook.go:212-218 | the loop makes one joined value per header name that has values |
| HookHandler.TakeFirstValues | internal/httpapi/webhook.go:219-224 | the loop keeps the first value of each query parameter that has one |
| HookHandler.Server.HandleHookIngest | internal/httpapi/webhook.go:166-247 | the whole handler over store, cache and limiter makes the state and response of its specification |
| HookAnswers.HookAnswer | internal/httpapi/webhook.go:166-247 | the status of every request: 404 for a malformed id, one neither cached nor alive, and a bin gone when the hit is to be stored; 429 exactly when the limiter does not answer or counts more than 120; 400 for an unreadable body or a failing database; 413 for a body over 256 KiB; 200 for HEAD and for exactly the requests that are stored |
| HookAnswers.HookStores | internal/httpapi/webhook.go:193-246 | a hit that is stored is the request, under the new id and at this time, and is in the table unless a tie at the cap drops it |
| HookAnswers.HookRetry | internal/httpapi/webhook.go:177-185 | Retry-After: the time left in the minute, rounded by at most half a second and up to the next second; 61 seconds if that is not known; 2 if the request was not counted |
| HookAnswers.HookCounts | internal/httpapi/webhook.go:177-185 | each request past the check is counted once on the counter of its bin, which dies a minute after it was opened; no other counter changes |
| HookRuns.RunFaithful | internal/httpapi/webhook.go:193-240 | over every run, whatever the cache holds, each stored hit is made from one accepted request |
| HookRuns.StoredHitsAreFaithful | internal/httpapi/webhook.go:193-240 | each stored hit has the time, verb, path, query, addresses and first values of its request, the whole body, its length and no truncation, and every header joined, but "[redacted]" under the six names spelled out |
| CacheTransparency.LiveHook | internal/httpapi/webhook.go:172-240 | for a live bin the limiter's counter and the request alone decide what is stored |
| CacheTransparency.DeadHook | internal/httpapi/webhook.go:172-240 | for a dead id nothing is stored, and only a stale entry lets that id's own counter move |
| CacheTransparency.CacheIsTransparent | internal/httpapi/webhook.go:172-240 | over every serial run, with any cache contents about ids known at the start or made since put in before each act, act by act the same hits are stored as with no cache |
| CacheTransparency.CacheShowsIff | internal/httpapi/webhook.go:172-240 | for one act on a server with a cache and one without that agree, whatever fails, what is stored differs if and only if the check fails in the database, the cache vouches for a live bin, and nothing else stops the request |
| CacheTransparency.HookKeepsUsed | internal/httpapi/webhook.go:172-240 | whatever fails, a request leaves in the cache and the tables only ids used before and its own |
| CacheTransparency.OwnCacheIsTransparent | internal/httpapi/webhook.go:172-240 | the server with its own cache, starting from whatever an earlier life left there and with any cache commands failing, stores the hits it would store without one |
| RateLimit.Valkey.Incr | internal/ratelimit/ratelimit.go:41-44 | counts one up, starting anew after a deadline; only the named key changes |
| RateLimit.Valkey.Expire | internal/ratelimit/ratelimit.go:45-47 | sets the deadline of a live key; only the named key changes |
| RateLimit.Limiter.Allow | internal/ratelimit/ratelimit.go:36-56 | verdict, waiting time and counter are those of the specification, for each fate of the three commands; no other key is touched |
| FixedWindow.AllowAnswer | internal/ratelimit/ratelimit.go:41-55 | allowed exactly when the INCR is answered with a count within the limit |
| FixedWindow.AllowCounter | internal/ratelimit/ratelimit.go:41-47 | the count and deadline a call leaves, for each fate of its commands |
| FixedWindow.RetryAnswer | internal/ratelimit/ratelimit.go:42-53 | a denied caller is told a second without an INCR answer, the time left to the deadline within half a second if TTL is answered before it, and else the window |
| FixedWindow.RetryHeader | internal/httpapi/webhook.go:22-24 | the header advertises more than the waiting time, by at most a second |
| FixedWindow.WaitingSuffices | internal/ratelimit/ratelimit.go:45-54 | a denied lone caller who waits the Retry-After seconds is allowed next time if and only if the counter had a deadline before the call, also when TTL was rounded, failed or came too late |
| LimiterBound.WaitingAfterAnyRun | internal/ratelimit/ratelimit.go:45-54 | the same after any interleaving of other calls, with nothing assumed of the counter |
| FixedWindow.WithoutExpireDeniedForEver | internal/ratelimit/ratelimit.go:45-54 | a full counter without a deadline denies every later call |
| LimiterBound.StepInv | internal/ratelimit/ratelimit.go:40-47 | the invariant of every interleaving of INCR, EXPIRE, losses and time |
| LimiterBound.LifetimesAreSeparate | internal/ratelimit/ratelimit.go:45-47 | at most one caller per key lifetime sees 1, an EXPIRE in flight always belongs to the current lifetime, and lifetimes start more than a window apart |
| LimiterBound.OneCallerSeesOne | internal/ratelimit/ratelimit.go:41-47 | for a limit of at least 1, a lifetime has a caller that saw 1 if and only if its creating INCR was answered, and then exactly one |
| LimiterBound.NobodySeesOne | internal/ratelimit/ratelimit.go:41-47 | a lost reply to the creating INCR leaves a lifetime that nobody is told of, and like a lost EXPIRE a counter without a deadline |
| LimiterBound.StuckForEver | internal/ratelimit/ratelimit.go:41-54 | from such a counter every interleaving keeps it, opens no new lifetime, and allows nobody once it is full |
| LimiterBound.NeverEndsIffStuck | internal/ratelimit/ratelimit.go:41-47 | after any interleaving, no continuation opens a new lifetime if and only if the counter has no deadline and no EXPIRE is on its way |
| LimiterBound.AllowedInInterval | internal/ratelimit/ratelimit.go:36-55 | in any interval of length L at most Peak(L - 1) calls are allowed, hence fewer than limit * (ceil(L / window) + 1), and none if the limit is 0 |
| LimiterSchedules.BoundAttained | internal/ratelimit/ratelimit.go:36-55 | for every limit, window and length L of at least 1, some run allows exactly Peak(L - 1) calls in some interval of length L |
| LimiterBound.CallIsInterleaving | internal/ratelimit/ratelimit.go:36-55 | a call that runs alone is one of these interleavings, with the same counter, and counted as allowed exactly when it returns true |
| CheckThenAct.ActInv | internal/webhook/store.go:290-336 | acting on an old look keeps: all rows lie in what the latest acted look kept plus the operations in flight beside it |
| CheckThenAct.Bound | internal/webhook/store.go:105-145 | hence at most max + c - 1 rows |
| ConcurrentIngest.Simulate | internal/webhook/store.go:290-336 | each statement of concurrent ingests and clears at Read Committed, and any other deletion, is a step of that race or none |
| ConcurrentIngest.LocksAre | internal/webhook/store.go:310-330 | a DELETE waits exactly for rows that another open transaction has deleted, an UPDATE of the bin for one that has updated it |
| ConcurrentIngest.CommittedHitsBound | internal/webhook/store.go:290-336 | with at most c transactions in flight a bin never has more than 100 + c - 1 committed hits, nor shows a larger count |
| IngestSchedules.BoundAttained | internal/webhook/store.go:290-336 | from every full bin some interleaving of c ingests that waits for row locks ends with 100 + c - 1 hits |
| LoneIngest.SerialStore | internal/webhook/store.go:198-222 | the ingest and clear transactions of the serial tables are the whole transactions used below |
| LoneIngest.AloneIsSerial | internal/webhook/store.go:290-336 | every run of ingests and clears one at a time, aborts included, ends as some sequence of the serial store's transactions does |
| LoneIngest.SerialIsAlone | internal/webhook/store.go:290-336 | and every such sequence is one of these runs |
| LoneIngest.HitCountDrifts | internal/webhook/store.go:324-330 | two overlapping transactions can leave two hits and a hit_count of 1 |
| LoneIngest.CountExactIffAlone | internal/webhook/store.go:324-330 | over all runs with at most c transactions in flight, hit_count is the number of hits whenever the bin is quiet, if and only if c is at most 1 |
| LatestHit.EarlierCommitsLast | internal/webhook/store.go:328-330 | of two overlapping ingests the earlier may commit last and leave its own time as last_hit_at |
| LatestHit.LatestIffAlone | internal/webhook/store.go:328-330 | with times that do not go back, last_hit_at is the newest hit's time, or null for none, whenever the bin is quiet, if and only if at most one transaction is in flight |
| ConcurrentCreate.Simulate | internal/webhook/store.go:105-145 | each statement of concurrent creates is a step of the race |
| ConcurrentCreate.UserBinsBound | internal/webhook/store.go:105-145 | with at most k creates of a user in flight, at most 3 + k - 1 bins; with k = 1 at most 3 |
| ConcurrentCreate.BoundAttained | internal/webhook/store.go:105-145 | a user one short of the limit can reach 3 + k - 1, for every k |
| Fingerprint.SameKeySameFields | internal/visitor/store.go:51-62 | before hashing, keys are equal exactly when all six trimmed fields are, if the first five hold no separator |
| Fingerprint.KeyIs | internal/visitor/store.go:51-62 | the joined key, field by field, with code 31 between two |
| Fingerprint.AcceptsIs | internal/visitor/store.go:45-47 | track accepts exactly the records whose trimmed visitor and session ids are 8 to 128 letters, digits, underscores or hyphens, by their codes |
| Fingerprint.UncutIsOnly | internal/visitor/store.go:51-62 | fields without a cut are the only reading of their join into as many trimmed fields |
| Fingerprint.KeyIsUnique | internal/visitor/store.go:51-62 | no other fields have a record's key if and only if none of its fields has a cut |
| Fingerprint.AcceptedKeyIsUnique | internal/visitor/store.go:75-100 | the same among the records track accepts, as track trims and cuts them |
| Fingerprint.AcceptedCollide | internal/visitor/store.go:51-62 | two records that track accepts, with different fields and one key |
| Fingerprint.NormaliseTwiceSameKey | internal/visitor/store.go:76-100 | trimming and cutting a record a second time does not change its key |
| VisitorSpec.TrackIsUpsert | internal/visitor/store.go:100-124 | from any state a call is one upsert if and only if the row exists and its update works or changes nothing, or it does not exist and a working insert is reached |
| VisitorSpec.TrackKeepsFlags | internal/visitor/store.go:100-124 | where flags have rows and statements fail only on duplicates, every call is one upsert for every outcome of SETNX, and flags still have rows |
| VisitorSpec.TrackFlags | internal/visitor/store.go:101-108 | a call sets its flag exactly where SETNX takes effect, and touches no other |
| VisitorSpec.RowsSummarise | internal/visitor/store.go:100-161 | over every run, with flags lost at will, a row exists exactly for tracked fingerprints; field by field it has the first event's time and path and its trimmed and cut identity fields, the first non-empty user id, and the last event's time and session |
| VisitorSpec.FlagWithoutRowIsFinal | internal/visitor/store.go:102-108 | a flag without a row, while it is kept and answered, means the visitor is never recorded |
| Visitor.Store.Insert | internal/visitor/store.go:126-140 | adds the row with every field of the record, first and last seen now, unless the key exists or the statement fails, and says which |
| Visitor.Store.UpdateSeen | internal/visitor/store.go:142-161 | sets time and session, fills an empty user id, keeps first time and path; no change without a row or when the statement fails |
| Visitor.Store.Persist | internal/visitor/store.go:117-124 | inserts, else updates |
| Visitor.Store.Track | internal/visitor/store.go:75-115 | rows and flags are those of the specification, a new row shows this visit, and one upsert under the conditions of TrackKeepsFlags |
| VisitorRace.StepInv | internal/visitor/store.go:101-124 | every step of concurrent calls keeps: a flag means the row exists or a call is about to insert it |
| VisitorRace.FlagImpliesRowComing | internal/visitor/store.go:101-124 | that holds at any moment of any interleaving, with SETNX failing and flags lost at will |
| VisitorRace.Converges | internal/visitor/store.go:101-124 | once all calls have finished the rows are exactly the tracked fingerprints |
| VisitorRace.RowsShowTouches | internal/visitor/store.go:100-161 | at any moment of any interleaving each row shows, field by field, the calls that changed it, in that order: first time, path and identity, first non-empty user id, last time and session; every finished call is among them once or is lost |
| VisitorRace.LoneCallIsTrack | internal/visitor/store.go:101-124 | a call that runs alone, whatever becomes of its SETNX, leaves the rows and flags of the serial tracker |
| VisitorRace.LostBeforeInsert | internal/visitor/store.go:106-108 | a call loses its update only while another call of the same visitor is about to insert the row |
| VisitorRace.UserCanBeLost | internal/visitor/store.go:106-108 | for every accepted record some interleaving of two first visits records no user id although one carried it |
| VisitorRace.NeverLostIffAlone | internal/visitor/store.go:100-124 | over all interleavings with at most c unfinished calls of each visitor, no call is lost if and only if c is at most 1 |

## Left out

- WebhookStore.Store.ClearHits: does not model, like every operation here, a database statement that is executed although its reply reports an error.
- WebhookStore.Store.Ingest: does not say which bodies Postgres refuses (invalid UTF-8, NUL); a refusal is one of the failures that `Env` allows. Strings are sequences of bytes.
- ConcurrentIngest.CommittedHitsBound: a DELETE takes the locks of all its rows in one step, when no other open transaction holds one, so deadlocks appear only as aborts; the number of runs is not less than Postgres allows.
- IngestSchedules.BoundAttained: takes a full bin none of whose hits is newer than the arrivals.
- LoneIngest.CountExactIffAlone: speaks of a bin while it exists; deleting the bin is not among the steps of its runs.
- LimiterBound.AllowedInInterval: assumes that counters survive, so a restart of Valkey that loses them is not covered, and that the client library does not resend an INCR.
- CacheTransparency.CacheIsTransparent: cache entries for ids that will only be generated later are not considered, nor are runs after an existence check has failed in the database, where the two servers' counters may differ; CacheTransparency.CacheShowsIff says when that very request shows it.
- CacheRace.HonestIffAlone: failing cache commands are left out, a DEL that fails leaves an entry even alone, as VisibleExpiry.GoneIsSaidToExist shows.
- Noninterference.OthersCanBeDeleted: assumes that no List of the observed user fails to prune, since such a list shows the user's own expired bins; PublicExists is not among the observed operations. UserDeletion.OneUserCanBeDeleted assumes it of every user but the deleted one.
- Paging.PagingIsComplete: later arrivals in the bin are newer than the hits of the start, as with one clock.
- Fingerprint.AcceptedKeyIsUnique: SHA-256 is left out; the statement is about the joined string before hashing.
- VisitorRace.RowsShowTouches: statements fail only on a duplicate key.
- The randomness of ids: freshness is assumed.
- Clock skew between the application, Postgres and Valkey, and a clock that moves within one operation; the precision of stored timestamps.
- Unicode letter case, Unicode white space and cutting inside a UTF-8 sequence: letters and white space are ASCII.
- SQL drivers, connection pooling, timeouts, JSON encoding and decoding, and the migrations themselves.
- The other handlers, except for the Retry-After arithmetic that bin creation shares with the hook handler; `hookURL` and `webhookLimits`.
- Deleting a user, which sets the visitor rows' user_id to NULL.
- Authentication, mail, user storage, configuration and routing: library behaviour or single-branch code.
