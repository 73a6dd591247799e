# The life of a cached response

A Dafny model of an HTTP cache middleware for Caddy, from the arrival of a request to the eviction of what it left in
the cache, with the laws the middleware depends on.  `dafny verify dfyconfig.toml` checks the whole project.

## Structure

| file | module | form | what it models |
|---|---|---|---|
| `http.dfy` | `Http` | functions, loops | header maps, the names of a Vary value, `matchVary`, `copyHeaders`, the header snapshot |
| `freshness.dfy` | `Freshness` | functions, a loop | `expirationObject`, `getCacheStatus` |
| `entries.dfy` | `Entries` | values | one list of variants, the table, and the map from (key, variant) to entry it stands for |
| `deletion.dfy` | `Deletion` | values | the effect of `Del`, whose loop ranges over an array that is shifted under it |
| `http_cache.dfy` | `HttpCache` | class | `HTTPCache`: buckets, slices with shared backing arrays, Clean requests, timers; `Purge` |
| `response_spec.dfy` | `ResponseSpec` | state machine | a response as everyone but its two goroutines sees it |
| `handshake.dfy` | `Handshake` | state machine | `Response`, `fetchUpstream`, `respond`: two goroutines, four channels, three flags |
| `url_lock.dfy` | `UrlLock`, `LockSpec`, `LockMachine` | class, state machines | the per-key lock |
| `subscription.dfy` | `Subscriptions` | class | the subscribers of a file |
| `file_stream.dfy` | `FileStream`, `WaitAll` | state machines | readers that follow a file; waiting for the last of them |
| `server.dfy` | `Server` | state machine | `ServeHTTP` over all of it, with any number of requests, timers, purges and time |
| `server_progress.dfy` | `ServerProgress` | lemmas | every request finishes |
| `single_flight.dfy` | `SingleFlight` | lemmas | one fetch for concurrent requests |
| `server_table.dfy` | `ServerTable` | lemmas | the server's table is the map that the run's operations build, in every reachable state |
| `hits.dfy` | `Hits` | lemmas | where in the run a hit was found |
| `broken_hits.dfy` | `BrokenHits` | lemmas, a run | what a client has been sent when an answer from the cache broke off |

The parts are tied together by refinement.  A class method is proved to compute a function on lists (`Put` computes
`PutList`, `CleanEntry` computes `RemoveEntry`, `Del` computes `Purged`), and the server's table changes by the same
functions.  Each step of the handover is a step of `ResponseSpec` or invisible to it, and the server uses
`ResponseSpec`.  Each step of the key lock is a step of `LockSpec` or invisible to it; the server takes the key lock in
three steps of its own, with the bucket's mutex held while it waits for the key's.

In a state machine an event is one read or write of a shared field, one channel operation, or what runs under one
lock.  A run is any sequence of enabled events, so a statement about every legal run, or every reachable state, is one
about every interleaving under sequentially consistent memory.

Time is a number of nanoseconds; in a run it never goes back.  The Clean of an entry that a timer or a purge removes
holds the bucket's lock until it is done; that of a replaced entry is on its own.  Whether a Clean fails is a parameter.
A checksum of a key is an arbitrary function to the naturals, the bucket is its remainder.  What the Cache-Control
library decides is an arbitrary verdict.  An entry's `id` is its identity, so two entries are equal exactly when they are
the same object; it is also the number of the fetch that made it.  A request's header map is what Go's server lets
through: canonical names that are not empty and hold only characters a field name may hold.

Premises throughout: the cache is not distributed; the number of buckets does not change; each entry is put once; a
response has one Vary line, which, like the request it answers, does not change after `WriteHeader`; in `Server` an
upstream handler performs at least one operation before it returns.

## What the proofs show about the code

- `Del` does not do what its name says.  `cleanEntry` shifts the array that `Del` ranges over (`cache.go:517`,
  `cache.go:593`), so each removal passes over the next element unless that is the last.  Of n fresh entries
  (n - 1) / 2 stay.  `Deletion.PurgedAsIntended` says exactly for which lists one call leaves what the same loop over a
  copy of the list would leave, and `Deletion.CallsToEmpty` how many calls empty a list.  The comment at `cache.go:516`
  leaves the stale entries to their timers; the fresh ones that were passed over are left to them too.
- An answer can follow one that broke off.  The status of a stored response goes out before its body is copied
  (`cache.go:327-328`).  When the copy fails, `ServeHTTP` goes on to a fetch or a stale entry (`handler.go:321-392`) and
  answers through the same writer: the client keeps the first status, and the bytes copied so far come before the new
  body.  `BrokenHits.SentExactlyIff` says exactly when a reply's status and body are what its client was sent: if
  and only if no earlier answer to the request broke off, or those that did had sent the same status and no bytes.
  `BrokenHits.AnswerBehindBrokenHit` is a run in which a client that should get a 404 without a body is sent a 200 and a
  byte of another response.
- `Subscription` taken by itself: a `WaitAll` caller can return while a reader is registered.  From any state, and with no
  reader coming or going any more, a caller that has not returned can be misled exactly when there is a reader and a
  token of an earlier emptying (`WaitAll.PrematureReturn`); such a state comes about only by a subscription beside a
  token (`WaitAll.ReturnsWhenEmpty`), and `WaitAll.RefillMisleads` gives two runs.  And `NotifyAll` sends on a closed
  channel exactly when it is called after `Close` with a subscriber registered, as in `Subscriptions.WriteAfterClose`.
  Neither happens in this repository: a file is opened only after it has been closed for writing
  (`response.go:113-118`), so no channel is ever registered and no Clean waits (`Server.CleanNeverWaits`).
- The handover ends with both goroutines done exactly when the upstream does something and the handler sets a body
  (`Handshake.Termination`).  When a stale entry is served, when the upstream's error is seen, for a private HEAD
  request (whose client does get the status), or when the backend cannot be made, the upstream's goroutine never finishes or panics.
- An insertion can displace an entry that the new one does not make up for.  It never does so, whatever requests can be
  received, exactly when the displaced entry's Vary value names every field that the new one's names; parts of a Vary
  value that are no field name, such as the one empty part of a missing Vary, do not matter
  (`Entries.DisplacementLosesNothing`, `Entries.DisplacementIsPossible`).  A response without Vary that is followed by one
  with it is an instance (`Entries.MixedVaryDisplaces`); the other way round nothing is lost (`Entries.NamelessIsCovered`).
- `matchVary` reads the first Vary line of the live header map, `getCacheStatus` the snapshot, which keeps the last line
  of each field: they see the same value exactly when first and last line agree (`Http.SnapshotShowsField`).

## Model

| member | source | states |
|---|---|---|
| `Http.CopyHeaders` | response.go:13-19 | each name ends up with the last line of a source field of that name; names the source does not have are as before |
| `Http.Snapshot` | response.go:140-142 | the snapshot holds every field but Server, each with its last line, and nothing else |
| `Http.SnapshotShowsField` | response.go:13-19 | reading a field from the snapshot and from the map gives the same exactly when the field's first and last lines agree |
| `Http.SplitJoin` | cache.go:260 | the names of a Vary value are the parts between its commas: none holds a comma and together they are the value |
| `Http.MatchVary` | cache.go:256-268 | the loop with early exit answers whether the two requests agree on every name the Vary value lists |
| `Http.AgreeIsSameVariant` | cache.go:256-268 | agreeing on those names is having the same variant, so matching is an equivalence for one Vary value |
| `Freshness.GetCacheStatus` | cache.go:218-254 | public if and only if storable, then with the declared expiration; otherwise held back for the lock timeout, given no time at all, or expired at once, and when each |
| `Freshness.PublicLifetime` | cache.go:249-251 | a stored response lives at least the lesser of a second and the configured age, and exactly the declared lifetime unless the configured age takes over |
| `Freshness.DeclaredLifetimeIsDuration` | cache.go:113-131 | no header values make the declared lifetime leave the 64-bit range |
| `Entries.FirstMatch` | cache.go:539-545 | the first position whose entry the request matches, or the end |
| `Entries.Lookup` | cache.go:479-483 | the first entry that is fresh (or stale ones are wanted) and matches; none only if there is none |
| `Entries.PutConserves` | cache.go:539-548 | an insertion adds the entry and takes out the one it displaces, nothing else |
| `Entries.PutKeepsNoDup` | cache.go:539-548 | a list without duplicates stays so, and holds the new entry and all but the displaced one |
| `Entries.RemoveConserves` | cache.go:591-597 | a removal takes out that entry once if it is there, nothing else |
| `Entries.RemoveKeepsNoDup` | cache.go:591-597 | afterwards the entry is gone and there are still no duplicates |
| `Entries.ReadYourWrite` | cache.go:531-549 | right after Put the entry's own request finds it, whatever the Vary values in the list |
| `Entries.OpRepresents` | cache.go:531-549 | under one Vary value per key, Put and cleanEntry are update and remove-if-same-entry on a map from (key, variant), and leave all other slots alone |
| `Entries.RunRepresents` | cache.go:584-602 | so does every sequence of them; in particular a list holds pairwise distinct variants |
| `Entries.GetRepresents` | cache.go:468-486 | Get is lookup in that map, filtered by freshness |
| `Entries.FreshUntilExpiration` | cache.go:479-483 | through any later operations that neither remove nor replace it, every matching Get before the expiration returns the entry |
| `Entries.NeverAfterExpiration` | cache.go:352-354 | from the expiration on no Get for fresh entries returns it |
| `Http.NoFieldReadsEmpty` | cache.go:260-264 | in whatever can be received, a part of a Vary value that is no field name reads as empty |
| `Http.AgreeCarriesOver` | cache.go:256-268 | for all header maps that can be received: agreeing on one Vary value implies agreeing on another if and only if the first names every field of the second |
| `Entries.DisplacementLosesNothing` | cache.go:539-545 | for every Put and the entry it displaces: every receivable request the old entry could answer the new one can, if and only if the old Vary value names every field of the new |
| `Entries.DisplacementIsPossible` | cache.go:539-545 | for any two Vary values: some Put, of receivable requests, displaces an entry whose own request the new one cannot answer, if and only if the old value does not name every field of the new |
| `Entries.NamelessIsCovered` | cache.go:256-268 | a response without Vary never makes the entry it displaces a loss |
| `Entries.MixedVaryDisplaces` | cache.go:539-545 | an instance of it |
| `Deletion.WalkIsPurged` | cache.go:506-528 | iterating over the shifted array computes the recursive function in which a removal passes over the next element unless it is the last |
| `Deletion.PurgedConserves` | cache.go:591-597 | what is left and what is cleaned together are the list |
| `Deletion.PurgedOnlyFresh` | cache.go:517-518 | only entries seen fresh are removed |
| `Deletion.AllFreshLeavesHalf` | cache.go:506-528 | of n fresh entries exactly (n - 1) / 2 stay, none of one or two |
| `Deletion.CallsToEmpty` | cache.go:506-528 | a list of n fresh entries is empty after k calls if and only if n + 2 <= 2^(k+1) |
| `Deletion.CopyWalkIsIntended` | cache.go:516-525 | the same loop over a copy, cleaning from the live list with one clock reading per iteration, removes each entry it finds fresh, in order, until a Clean fails |
| `Deletion.CopyWalkRemovesFresh` | cache.go:516-525 | at one instant it removes all fresh entries and no others |
| `Deletion.PurgedAsIntended` | cache.go:505-528 | one call of Del leaves the same as that loop if and only if no two fresh entries are adjacent before the last position |
| `HttpCache.HTTPCache.Bucket` | cache.go:428-430 | a key's bucket exists |
| `HttpCache.HTTPCache.constructor` | cache.go:399-426 | an empty table of the configured number of buckets |
| `HttpCache.HTTPCache.Get` | cache.go:468-486 | the loop over the stored slice computes `Lookup` of the key's list |
| `HttpCache.HTTPCache.Keys` | cache.go:489-503 | exactly the keys with a resident entry, each once |
| `HttpCache.HTTPCache.FindMatch` | cache.go:539-540 | the loop finds the first match |
| `HttpCache.HTTPCache.Append` | cache.go:548 | append in place or into a larger array adds the entry at the end and touches no other key's array |
| `HttpCache.HTTPCache.DeleteAt` | cache.go:593 | the shift removes one position; the vacated cell keeps the last element, which a slice read before still shows |
| `HttpCache.HTTPCache.Put` | cache.go:531-549 | the key's list becomes `PutList`, the displaced entry has Clean requested, one timer at expiration plus StaleMaxAge starts; other keys are untouched, entries stay in their key's bucket without duplicates |
| `HttpCache.HTTPCache.CleanEntry` | cache.go:584-602 | the entry leaves its key's list and has Clean requested if and only if it was there; an error only if that Clean fails |
| `HttpCache.HTTPCache.CleanShown` | cache.go:517-525 | cleaning an entry in the middle of the iteration leaves the old slice ending in the original last element |
| `HttpCache.HTTPCache.Visit` | cache.go:517-525 | one iteration over the old slice value: what is done so far plus the rest of the walk is `Purged` |
| `HttpCache.HTTPCache.Del` | cache.go:506-528 | on the shared array the call leaves, cleans and returns exactly what `Purged` says, including after a failing Clean; other keys are untouched |
| `HttpCache.HTTPCache.Purge` | endpoint.go:94-110 | only lists of matching keys change, each as `Del` does it; success if and only if no Clean fails |
| `HttpCache.HTTPCache.PurgeAndList` | endpoint.go:94-110 | afterwards a matching key whose entries are all fresh is listed if and only if it had more than two; keys that do not match stay listed |
| `ResponseSpec.InvStep` | response.go:87-105 | what is stored and what is to come are always the whole body; a complete body never changes |
| `ResponseSpec.CompleteIsWhole` | response.go:210-222 | a body marked complete is the concatenation of all buffers |
| `Handshake.Refines` | response.go:87-222 | every step of either goroutine is one step of the response seen from outside, or changes nothing there |
| `Handshake.InvRun` | response.go:87-222 | in every interleaving: header published and announced once, a body token for whoever saw no body, completion only after the last byte |
| `Handshake.Transparency` | handler.go:68-115 | in every interleaving the client has nothing, or the first status and then a prefix of what was written, in order and once; a finished handler has sent all of it, or the status alone for HEAD, stored or private; nothing of a response that is abandoned |
| `Handshake.SendsNeverBlock` | response.go:121-145 | no send on any of the four channels ever meets a full channel |
| `Handshake.Progress` | response.go:210-222 | until both goroutines of a handover are done, one of them can step |
| `Handshake.RemainingDecreases` | response.go:87-222 | every step, on every path, decreases a measure that stays natural |
| `Handshake.Termination` | handler.go:95-115 | every run is bounded, and where it stops both goroutines are done if and only if the upstream did something and the handler set a body |
| `UrlLock.URLLock.Bucket` | url_lock.go:48-50 | a key's bucket exists |
| `UrlLock.URLLock.constructor` | url_lock.go:17-31 | an empty table of the configured number of buckets |
| `UrlLock.URLLock.LockFor` | url_lock.go:39-43 | the key's mutex in the table, or a new one put there; every other key keeps its own, no two keys share one |
| `UrlLock.URLLock.Acquire` | url_lock.go:34-46 | the returned mutex is the key's and is locked; no other key's mutex or its state changes |
| `LockMachine.InvRun` | url_lock.go:34-46 | in every reachable state mutex holders, bucket holders and the table of mutexes agree |
| `LockMachine.MutualExclusion` | url_lock.go:34-46 | at most one thread holds a key, at most one per bucket waits for a key, and two threads know the same mutex if and only if it is for the same key |
| `LockMachine.MutexStable` | url_lock.go:39-43 | a key's mutex never changes once it exists |
| `LockMachine.Refines` | url_lock.go:34-46 | every step takes a free key, releases a key its thread holds, or is invisible |
| `LockMachine.NoDeadlock` | url_lock.go:34-46 | while some thread is unfinished, some thread can step |
| `LockMachine.EveryRunFinishes` | url_lock.go:34-46 | a run stops if and only if it has made five steps for each acquisition, and then every thread is done; no run is longer |
| `Subscriptions.WithoutAt` | backends/file.go:144-148 | taking out one element of a list without duplicates takes out just that position |
| `Subscriptions.Subscription.NewSubscriber` | backends/file.go:122-137 | registers a new one-slot channel, or after Close returns a closed channel that is not registered |
| `Subscriptions.Subscription.DeleteMatching` | backends/file.go:144-148 | ranging over the old slice while deleting in place removes exactly this channel and keeps the order of the others |
| `Subscriptions.Subscription.RemoveSubscriber` | backends/file.go:140-158 | the same, and leaves one token exactly when the list is then empty or one was there before |
| `Subscriptions.Subscription.Close` | backends/file.go:161-177 | closes every registered channel, none twice, and loses no pending notification |
| `Subscriptions.Subscription.NotifyAll` | backends/file.go:180-190 | leaves a notification in every empty slot; sends on a closed channel if and only if it runs after Close with a channel registered |
| `Subscriptions.WriteAfterClose` | backends/file.go:180-190 | a registered channel, Close and then NotifyAll end in the send on a closed channel |
| `FileStream.InvRun` | backends/file.go:39-60 | in every run the file is what was written so far and every reader has the file up to its offset |
| `FileStream.ReadsAreTheFile` | backends/file.go:84-94 | for every interleaving and every lost notification a reader has a prefix of what is written, and is told of the end only with its channel closed and drained and with everything read |
| `FileStream.ReaderAdvances` | backends/file.go:84-94 | after Close a reader never waits and each of its steps decreases a measure |
| `FileStream.OthersDoNotDisturb` | backends/file.go:161-177 | no step of anyone else then changes the reader or the file |
| `FileStream.ReaderFinishes` | backends/file.go:84-94 | so from any state after Close the reader reaches the end with the whole content, in a bounded number of steps |
| `WaitAll.ReturnsWhenEmpty` | backends/file.go:192-205 | if nobody subscribes while a token lies there, every caller returns with no subscriber left |
| `WaitAll.PrematureReturn` | backends/file.go:199-205 | any caller that has not returned, waiting or not, can go on to return too early without the list changing if and only if there are subscribers and a token |
| `WaitAll.RefillCanMislead` | backends/file.go:140-205 | every run that leaves a token beside a subscriber extends, by at most two events, to an early return of any caller that has not returned |
| `WaitAll.RefillMisleads` | backends/file.go:140-158 | two runs in which that happens, before the caller looks and while it waits |
| `WaitAll.SingleCallerReturns` | backends/file.go:150-157 | a single caller that waits finds the token once the list is empty |
| `Server.InvRun` | handler.go:284-422 | the invariant of locks, table, timers, responses and threads holds in every reachable state |
| `Server.MoverOk` | handler.go:318-421 | each branch of the request's control flow keeps what the thread knows about the entry or fetch it deals with |
| `Server.HitIsWhole` | handler.go:317-392 | in every reachable state a hit carries status and whole body of a response that was fetched and inserted for the same key, to a request that agrees on every name its Vary lists; its client was sent that after what broken answers to it had sent, and exactly that if and only if those sent nothing but this status |
| `Hits.HitWasFound` | handler.go:319-392 | whatever a request serves from the table it found by a lookup of its own, in the table as it then was |
| `Hits.HitSoundness` | handler.go:317-392 | both: and the lookup, at a known event of the run, had a clock reading within the run at which the entry was unexpired, or followed this request's own fetch having been answered with 500 or more |
| `Server.OwnSoundness` | handler.go:399-421 | a miss or a skip carries status and whole body of this request's own fetch, and its client was sent that after what broken answers to it had sent |
| `BrokenHits.BrokenIffBrokeOff` | cache.go:327-329 | something was sent that belongs to no later answer if and only if a copy of an opened file failed earlier in the run |
| `BrokenHits.SentExactlyIff` | handler.go:321-421 | status and body of a reply are exactly what was sent if and only if no earlier answer to the request broke off, or only with this status and no bytes |
| `BrokenHits.AnswerBehindBrokenHit` | handler.go:321-421 | a run in which an answer follows a hit that broke off |
| `Server.Conservation` | cache.go:531-611 | every entry ever put is once in its list with its timer pending, or has had Clean requested once, never both; with no timer pending the table is empty |
| `Server.TimerAfterInsertion` | cache.go:535-537 | a timer that can fire is of an entry that has been inserted, even if it was due at once |
| `Server.OneFetchPerKey` | handler.go:318-377 | at most one fetch for a key is in progress |
| `Server.OneReader` | handler.go:68-80 | no two requests read one entry's body at the same time |
| `Server.BodyReaderProgress` | response.go:113-118 | so the single token suffices: once the response is closed a waiting reader can go on and a later one does not wait |
| `Server.OpenedFilesAreWhole` | cache.go:305-306 | a body's file is opened only when it holds the whole body |
| `Server.CleanNeverWaits` | backends/file.go:51-54 | in every reachable state no file has a subscriber, so a Clean made under a bucket's lock can always be done |
| `Server.NoDeadlock` | handler.go:284-422 | while a request is unfinished, be it parked on its key with the bucket's mutex held, or behind a Clean that holds the table's bucket, some request, upstream or Clean can step, and without an error |
| `ServerProgress.LeftDecreases` | handler.go:284-422 | every step of a request or an upstream decreases a measure over all requests and responses, and no timer, purge or tick increases it |
| `ServerProgress.CapsExist` | response.go:87-105 | every run has a largest body and a largest number of buffers |
| `ServerProgress.EveryRequestFinishes` | handler.go:284-422 | in terms of these, requests and upstreams together take a bounded number of steps in any run, each Clean one more; and where none can go on every request is answered and every lock released, the table's included |
| `SingleFlight.InsertsAtEnd` | cache.go:539-548 | in such a run as below an insertion for the key never finds a match |
| `SingleFlight.SingleFlight` | handler.go:317-419 | among any traffic for other keys, in a run without error, expiry or purge for one key: at most one fetch for each of its variants; a finished request has a miss if it made that fetch, else a hit on what the fetch stored |
| `SingleFlight.QuietProgress` | handler.go:317-419 | such a run can always be continued until all requests are finished |
| `SingleFlight.ExactlyOneFetch` | handler.go:317-419 | where such a run stops, every request for the key has been answered from exactly one fetch for its variant: one miss, all others hits on its entry |
| `ServerTable.TableFollowsOps` | cache.go:531-602 | every event of the server changes the table by at most one insertion or removal of an entry |
| `ServerTable.TableIsRunOps` | cache.go:531-602 | in every reachable state the table is what the run's insertions and removals make of the empty one |
| `ServerTable.TableIsMap` | cache.go:531-602 | and under one Vary value per key it stands for the map that the same operations build from the empty map |
| `ServerTable.LookupIsMapLookup` | handler.go:319 | what a request's lookup finds is what that map holds for its variant, if fresh |
| `ServerTable.FreshUntilExpirationInRuns` | cache.go:479-483 | from its insertion in a run until a timer, a purge or an insertion for its variant, an entry is what every matching lookup before its expiration finds, and none later does |

## Left out

- The distributed mode, the groupcache and redis backends (and with them the "no pre-collect" error), consul and influx: external coordination and libraries.
- Caddyfile and JSON configuration, the admin routes and their payloads, logging, metrics, the status header, Content-Length and Content-Type: plumbing.
- `shouldUseCache` and the bypass it decides, the key template and the body hash: every request of the model is one that uses the cache, with its key given.
- `handleShowCache`: it reads entries without the key's lock, so `Server.OneReader` does not hold with it.
- Parsing of Cache-Control and dates, checksums, regular expressions: arbitrary verdicts, functions and conditions.
- `Response` as a class: its methods block in the middle, so the fields and channels are the state of `Handshake` and the methods are its steps. The same holds for `FileReader` in `FileStream` and for `ServeHTTP` in `Server`.
- I/O errors of Write, Flush and Close of a body; opening and copying a file can fail in `Server`.
- What the client of a private response has got while it is passed through: `Server` adds the body when it is complete, `Handshake.Transparency` says what holds in between. The error page that is sent for a failed request is not part of `Server`.
- The upstream's error: `popOrNil` may or may not see it, so `Server` lets either happen.
- An upstream that never returns, or performs no operation: outside `Server.NoDeadlock` and `ServerProgress.EveryRequestFinishes`; `Handshake.Termination` says what the latter leaves.
- Prompt delivery to streaming readers: notifications are coalesced, only prefix, completeness and termination are claimed.
- Fairness: requests finish where no request or upstream can step any more; that the scheduler goes on until then is assumed.
- The package-level table that instances share: `HttpCache.HTTPCache` is one instance, so several handlers over one table are one cache here.
- The goroutines of `Del` that interleave with other operations: `HttpCache.HTTPCache.Del` is a call without interference; in `Server` a purge removes arbitrary entries one at a time, which covers any interleaving.
- Strict conformance to RFC 7234 for `max-age=0`, invalid Expires, or `*` inside a longer Vary list: the rules are those of the code.
