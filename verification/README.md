# mbproxy, modelled and proved in Dafny

mbproxy is a concurrent Modbus TCP proxy: it answers reads from a per-register cache, lets
concurrent identical reads share one upstream fetch, forwards writes, and keeps a single upstream
connection alive, paced and retried. This project models the four protocols that make this hard and
the byte codecs underneath, and proves what they promise for every input, every interleaving and
every run.

| file | module | what it models |
|---|---|---|
| Coherence.dfy | Coherence | the write-generation protocol: any number of concurrent reads and writes over cache, coalescing and device |
| Service.dfy | Service | what readers get from that protocol: answers, refusals, stale data, hits |
| Coalescing.dfy | Coalescing | leaders, followers and replacement leaders of `CoalesceWithStatus` |
| Calls.dfy | Calls | what one call of the upstream client does, as a value: attempts, what they are taken for, what is recorded, how it ends; and what that means for whole runs |
| Client.dfy, Upstream.dfy | UpstreamClient, Upstream | connect, attempt, retry, disconnect, pacing, health counters as code, proved to behave as Calls says, against an arbitrary upstream |
| OwnerToken.dfy | OwnerToken | the one-token channel that serialises use of the client |
| GuardedConn.dfy | GuardedConn | the deadline guard and its watchdog |
| Errors.dfy | Errors | classification of arbitrary error trees and the downstream exception code |
| Codec.dfy, Frames.dfy | Codec, Frames | read responses, MBAP frames, request PDUs, validation |
| Entries.dfy, CacheStore.dfy, Keys.dfy | Entries, CacheStore, Keys | the cache as a value, as a heap object that copies, and its keys |
| Proxy.dfy | ProxySections | the critical sections of `handleRead` and `handleWrite` on the heap cache and the byte codecs |
| Durations.dfy, Bytes.dfy, Wrappers.dfy | Durations, Bytes, Wrappers | capped sums; bits and words; `Option` and `Result` |

Main results, hardest first:

- `Coherence.CacheCoherence`, `Coherence.ReadYourWrites`, `Coherence.WrittenValueIsSeen`: over all
  interleavings, no cached entry is older than a finished write to its address, and a read that
  enters after a write returned never sees an older value, however it is served.
  `Coherence.NothingFromBeforeTheWrite`, `NothingReadFromBeforeTheWrite`: and from the first
  invalidation on nothing from before the write began is cached or read. `Coherence.CleanupIsUnobservable`:
  dropping the cleanup passes of any run leaves every reader served the same.
- `Service.FetchedValueIsAnswered`, `RefusalHasACause`, `FinishServes`, `StoredReplyIsUsed`: a fetched value is
  answered, a refusal has a failed attempt or an ended context behind it, stale data stands in exactly when
  allowed, and a stored reply is used for as long as it is fresh and undisturbed.
- `Coalescing.JoinedRequestDecides`, `FetchesOnlyIfNothingToShare`, `CancelledCallerGetsNoValue`: sharing happens, and
  ended contexts get nothing.
- `Coalescing.OneFetchPerKey`, `ReturnedCaller`, `FinishedRequestIsFinal`, `RoundsAreBounded`,
  `EveryRunReturns`: safety, attribution, and a bound on rounds and steps with no deadlock.
- `UpstreamClient.Client.Execute`, `UpstreamClient.AnyRun`, `HealthOfAnIdleClient`: every call has an
  outcome as `Calls.Outcome` describes, tying result, attempts and records together; over every
  sequence of calls no poisoned connection is reused, a sound one is kept, attempts are paced,
  retries obey the rules, and the health counters are counts of calls.
- `Calls.ResultIsTheDevices`, `CallMeaning`, `CodeOfACall`, `RunKeepsSessions`, `CountersCountCalls`: what
  an outcome means.
- `Codec.CacheRefinesDirectRead`: a sub-range served from the cache is byte for byte the device's
  own answer.
- `Errors.WireErrorMapping`, `Errors.RequestErrorTransparent`, `GuardedConn.LateWriteIffInFlight`,
  `OwnerToken.TokenConserved`, `Frames.ConversationRoundTrip`.

## How the source is represented

- Concurrency: a region under a lock is one step; so are a channel operation, a look at a context
  and each of the three effects of a leader that finishes. Steps are labelled; `Enabled` says when
  one may happen, `After` what it does, and theorems quantify over all finite runs (`Reaches`).
- The device in Coherence is a log of states. A range is read at one position of the log; a device
  may also change on its own (`Evolve`). The beginning of a write repeats the device's state in the
  log, so that positions tell a read before it from one after. A write takes effect, if at all, before its `Execute`
  returns. "Write" means the four standard write codes, for the slave it names, in read-only mode
  `false`.
- Time is a number that never goes back and is read once per cache operation (the source reads it
  once per entry). Write generations and retry counters are unbounded.
- The upstream (`Upstream.Wire`) and request contexts (`Upstream.Context`) are driven by arbitrary
  functions: how long things take, what dialling and wire attempts return, when a context ends. A
  context can end during a wire attempt, whether anybody looks or not; the event records it.
  Consecutive looks at the same context with nothing observable in between are one look. Errors
  from outside contain none of the program's private error types; dial errors carry no Modbus
  exception.
- Entries in the cache are references to buffers (`CacheStore`); the specification of each operation
  is a function on values (`Entries`), shared by the heap class and by the coherence protocol.
- 8- and 16-bit arithmetic is written out with `% 256` and `% 65536` where the source computes in
  those widths.

Two properties one might expect do not hold of the code as written; the model keeps the code and
states the exact condition:

- A write can reach the raw connection after its request was cancelled, because the check in
  `guardedConn.Write` and the raw write are not one atomic step (internal/modbus/client.go:128-138).
  `LateWriteHappens` gives the schedule; `LateWriteIffInFlight` shows it happens exactly when a write
  had passed the check when the request ended.
- `requestError` does not leave the downstream code unchanged for every conceivable tree: a validation
  failure joined with an upstream or Modbus error maps differently once wrapped
  (internal/modbus/errors.go:88-96 against 140-160). `ValidationCanHide` is an instance,
  `RequestErrorTransparent` the exact condition; `WireErrorMapping`, `ConnectErrorMapping` and
  `LocalErrorMapping` give the codes of what the client builds, and `Calls.CauseIsNotHidden` shows that
  nothing a call fails with is affected.

## Model

| member | source | states |
|---|---|---|
| `Coherence.CacheCoherence` | internal/proxy/proxy.go:174-212 | in every reachable state every cached entry, fresh or expired, holds what the device reported at a moment not before any applied write covering its slave and address, unless that write is still between its two invalidations |
| `Coherence.ReadYourWrites` | internal/proxy/proxy.go:173-259 | a read that enters after a covering write returned gets, for that address, a value the device held no earlier than the write took effect: by hit, own fetch, as follower, as replacement leader or from stale data |
| `Coherence.WrittenValueIsSeen` | internal/proxy/proxy.go:354-370 | if only that write changed the address since, the read returns the written value |
| `Coherence.StepKeepsInv` | internal/proxy/proxy.go:173-259 | every step of readers, writers, device, clock and cleanup keeps the global invariant |
| `Coherence.RunKeepsInv` | internal/proxy/proxy.go:354-370 | every run keeps it, generations and log only grow, ended writes are settled, later readers take later snapshots |
| `Coherence.StepIsLater` | internal/proxy/proxy.go:358-368 | no step lowers the generation, rewrites the device's past or alters an ended write; a write that ends does so under a newer generation |
| `Coherence.LaterTransitive` | internal/proxy/proxy.go:358-368 | the "later state" relation composes over a run |
| `Coherence.StoreKeepsTable` | internal/proxy/proxy.go:203-210 | a guarded store puts only values into the table that no ended write has overtaken |
| `Coherence.StoredCellOk` | internal/cache/cache.go:221-236 | storing a reply good for the current generation leaves every cell good, stored or not |
| `Coherence.BoundaryKeepsTable` | internal/proxy/proxy.go:358-368 | both invalidations delete everything the moved generation newly counts as overtaken: at the first, what is older than the beginning of the write; at the second, what is older than its effect |
| `Coherence.NothingFromBeforeTheWrite` | internal/proxy/proxy.go:356-361 | from the first invalidation on, no cached entry the write covers was read before the write began, nor will one be stored by a fetch begun before |
| `Coherence.NothingReadFromBeforeTheWrite` | internal/proxy/proxy.go:356-361 | a read that enters after a write began, finished or not, successful or not, gets nothing from before its beginning for an address it covers |
| `Coherence.CleanupIsUnobservable` | internal/cache/cache.go:340-351 | the steps of any run without its cleanup passes are a run that ends with the same readers, answers, fetches, writes and device |
| `Coherence.SweepsChangeNothing` | internal/cache/cache.go:340-351 | the same from any two states that differ only in entries nobody can be served |
| `Coherence.OtherStepsOnlyDrop` | internal/cache/cache.go:340-351 | away from stores and write boundaries entries can only disappear |
| `Coherence.LookupIsOk` | internal/cache/cache.go:173-217 | what a fresh or stale lookup returns is good for the current generation |
| `Coherence.CoalescedValueIsOk` | internal/proxy/proxy.go:197-212 | a value shared under one key was fetched by a reader of the same generation and range, so it is as recent as the follower needs |
| `Coherence.EnterKept` | internal/proxy/proxy.go:174-187 | lookup and generation snapshot in one section give a reader an answer good for that snapshot |
| `Coherence.FetchKept` | internal/proxy/proxy.go:198-212 | a fetch after the snapshot reads the device no earlier than any write ended by then |
| `Coherence.FinishStep` | internal/proxy/proxy.go:214-258 | the final answer, if there is one, shared, own or stale, is good for the reader's snapshot |
| `Service.FetchedValueIsAnswered` | internal/proxy/proxy.go:198-258 | in every reachable state, a finished reader whose fetch, own or shared, brought a value is answered exactly it, every sample read at the one position of the fetch |
| `Service.RefusalHasACause` | internal/proxy/proxy.go:214-250 | a refusal passes on what the call returned: the reader's own context ended, or an attempt of a reader of the same generation and range failed in the run with exactly this failure |
| `Service.FailureHappened` | internal/proxy/proxy.go:198-202 | a recorded failure is that of an attempt made in the run |
| `Service.StaleOnlyIfAllowed` | internal/proxy/proxy.go:216-220 | an answer after an error occurs only with stale serving configured, a failure other than a protocol exception, and a context found active |
| `Service.FinishServes` | internal/proxy/proxy.go:214-258 | a reader whose call returned can finish; it is answered if and only if the call brought a value, or stale data is allowed and every address has an entry; otherwise refused with the call's error |
| `Service.PendingReaderIsCalling` | internal/proxy/proxy.go:189-212 | a reader not yet served is in the coalescing layer |
| `Service.StepKeepsServed` | internal/proxy/proxy.go:173-259 | every step keeps what readers were served in agreement with what their calls returned |
| `Service.EnterAnswersHits` | internal/proxy/proxy.go:174-198 | a reader is answered at entry, from the entries and without a call, if and only if every address has an entry within its TTL; otherwise it calls under the key of its generation and range |
| `Service.StoredReplyIsUsed` | internal/proxy/proxy.go:203-210 | after a store with no write boundary since the lookup, every later reader of any part of the range is answered without a fetch while the TTL lasts and no overlapping write begins or ends |
| `Service.RunKeepsStored` | internal/cache/cache.go:221-247 | stored entries stay, or are renewed, through every run without overlapping write boundaries |
| `Service.OneFetchPerRange` | internal/proxy/proxy.go:197-198 | at most one reader is fetching for a generation and range |
| `Service.SweepLeavesTheServable` | internal/cache/cache.go:340-351 | a cleanup step leaves exactly the entries that may still be served |
| `Coalescing.OneFetchPerKey` | internal/cache/cache.go:269-277 | at most one fetch per key runs, and the map entry for the key is that caller's request |
| `Coalescing.ReturnedCaller` | internal/cache/cache.go:258-336 | at most one fetch per call; coalesced means no own fetch and exactly another caller's result for the same key; own results come back unchanged; a context error is the caller's own |
| `Coalescing.FetchesOnlyIfNothingToShare` | internal/cache/cache.go:288-298 | a caller fetches for itself only if every request it waited for ended in its leader's context error |
| `Coalescing.JoinedRequestDecides` | internal/cache/cache.go:288-304 | once the request joined last has any other result, the caller has it to come, or has returned exactly it as coalesced, or its own context ended; it never goes round again |
| `Coalescing.LiveFollowerShares` | internal/cache/cache.go:295-304 | a live follower that reads such a request returns its result as coalesced |
| `Coalescing.CancelledCallerOnlyReturns` | internal/cache/cache.go:262-309 | a caller whose context is over and that is not fetching joins nothing and fetches nothing any more, and can only return that error |
| `Coalescing.CancelledCallerGetsNoValue` | internal/cache/cache.go:291-315 | a caller whose context ends before a value is on its way never returns one, not even its own fetch's |
| `Coalescing.LateLeaderPublishesNoValue` | internal/cache/cache.go:312-318 | a finished request holds what its leader's fetch returned, or the context error if the leader's context was over by then |
| `Coalescing.ReturnedStays` | internal/cache/cache.go:325-334 | a caller that has returned stays as it returned |
| `Coalescing.ReturnedWasFetched` | internal/cache/cache.go:295-334 | whatever is returned was fetched by some caller of the same key, or is the error of the caller's own context |
| `Coalescing.FinishedRequestIsFinal` | internal/cache/cache.go:317-323 | once `done` is closed the fields are set and no later step of any run changes them |
| `Coalescing.FinishedStep` | internal/cache/cache.go:317-323 | no single step changes a finished request |
| `Coalescing.RoundsAreBounded` | internal/cache/cache.go:261-335 | with N callers on a key a caller goes through at most N rounds and 4N + 2 steps |
| `Coalescing.LeadersAreDistinct` | internal/cache/cache.go:271-273 | distinct requests are led by distinct callers |
| `Coalescing.LeadersArePeers` | internal/cache/cache.go:288-298 | every request a caller waited for was led by another caller of its key |
| `Coalescing.NeverStuck` | internal/cache/cache.go:258-336 | while a caller has not returned, some caller of its key can move |
| `Coalescing.EveryRunReturns` | internal/cache/cache.go:258-336 | the N callers of a key take at most N(4N + 2) own steps in any run, and where none of them can take another every one has returned |
| `Coalescing.TurnsCountSteps` | internal/cache/cache.go:261-335 | the number of turns kept for a caller is the number of own steps it took in the run |
| `Coalescing.LeaderCanMove` | internal/cache/cache.go:312-334 | a leader can always take its next step |
| `Coalescing.StepKeepsInv` | internal/cache/cache.go:258-336 | every step keeps the invariant tying callers, requests and the map together |
| `Coalescing.RunKeepsInv` | internal/cache/cache.go:258-336 | every run keeps it |
| `Coalescing.MoverKept` | internal/cache/cache.go:262-329 | the moving caller keeps its bookkeeping: rounds, turns, led request, outcome |
| `Coalescing.JoinKept` | internal/cache/cache.go:270-277 | a follower joins a request it has never waited for before |
| `Coalescing.LeaderAndFollowerKept` | internal/cache/cache.go:288-334 | waking, reading, recording, removing and closing keep the mover's bookkeeping; a follower goes on from a request only if that ended in a context error |
| `Coalescing.BystanderKept` | internal/cache/cache.go:269-323 | a step of one caller never disturbs another |
| `Coalescing.RequestKept` | internal/cache/cache.go:312-323 | every request keeps its leader, key and published outcome |
| `Coalescing.EntryKept` | internal/cache/cache.go:320-323 | map entries always point to unfinished requests whose leader has not yet removed them |
| `UpstreamClient.AnyRun` | internal/modbus/client.go:324-634 | for every sequence of Connect, Execute and Close against every upstream: log and verdicts are those of the calls, each call did what its kind does (`Calls.CallKept`), no badly failed session carries another attempt, attempts start at least `requestDelay` after every earlier reply, and between requests a session that answers stays the same |
| `UpstreamClient.RunKeepsAllSessions` | internal/modbus/client.go:619-629 | two wire attempts with only requests between them and no bad failure use the same session |
| `UpstreamClient.Client.Execute` | internal/modbus/client.go:500-634 | the call has an outcome: its attempts, what was recorded for each, whether it was retried and its result fit together; wire attempts plus failed dials equal the reported attempts; only reads make two, the second after a transport failure and on a newer session; a session that answered is still there; a context already over makes no event at all |
| `UpstreamClient.Client.Run` | internal/modbus/client.go:520-634 | the loop ends within two passes, so the trailing return is dead |
| `UpstreamClient.Client.Attempt` | internal/modbus/client.go:522-630 | one pass ends the call with an outcome, in which a first transport failure of a read stands unretried only if the context is over, or leaves everything ready for a second read attempt |
| `UpstreamClient.Client.TryOnWire` | internal/modbus/client.go:555-629 | a context already over leaves the log untouched; otherwise one exchange and its consequences |
| `UpstreamClient.Client.Exchange` | internal/modbus/client.go:576-589 | one wire attempt and what it is taken for; if the context was over when it came back, with anything but a genuine exception, the error is the context's |
| `UpstreamClient.Client.SendWire` | internal/modbus/client.go:576-594 | one event; the live session afterwards; the next request time set by exactly the delay after a reply and untouched otherwise |
| `Calls.InterruptedAttemptEndsTheCall` | internal/modbus/client.go:583-633 | an attempt that the end of the context interrupted is the last of its call, ends it with the context's error, and records no transport failure |
| `UpstreamClient.Client.AfterReply` | internal/modbus/client.go:591-606 | a reply keeps the session, and is a success if and only if the context is not over |
| `UpstreamClient.Client.AfterFailure` | internal/modbus/client.go:608-629 | goes round if and only if it was a read's first attempt, failed in transport, and the context is live; otherwise returns this error with this number of attempts |
| `UpstreamClient.Client.PrepareRetry` | internal/modbus/client.go:619-624 | the failed session is dropped before the retry |
| `UpstreamClient.Client.FailAfter` | internal/modbus/client.go:625-629 | returns this error; the session is kept after a genuine exception and dropped after anything else |
| `UpstreamClient.Client.AfterFailedConnect` | internal/modbus/client.go:527-541 | a failed connect is recorded as an attempt; goes round if and only if it was a read's first, a transport failure, and the context is live |
| `UpstreamClient.Client.WaitForRequestSlot` | internal/modbus/client.go:636-651 | fails exactly if the context is over; on success every earlier reply is at least `requestDelay` ago; no time passes if the slot was free |
| `UpstreamClient.Client.ConnectLocked` | internal/modbus/client.go:332-366 | exactly these events: the old session closed if there was one, one dial, and the new session closed again if it could not be connected; session, flag and error accordingly |
| `UpstreamClient.Client.DisconnectLocked` | internal/modbus/client.go:368-379 | exactly one close event if there was a session, none otherwise; then no session |
| `UpstreamClient.Client.Connect` | internal/modbus/client.go:324-330 | keeps the client valid, an error exactly when there is no session |
| `UpstreamClient.Client.Close` | internal/modbus/client.go:382-398 | keeps the client valid, without a session |
| `UpstreamClient.Client.JudgeAttempt` | internal/modbus/client.go:735-742 | first-attempt transport failures extend the first streak, and the counters still fold the history |
| `UpstreamClient.Client.RecordRetry` | internal/modbus/client.go:744-748 | one more retry, counters fold the history |
| `UpstreamClient.Client.RecordSuccess` | internal/modbus/client.go:750-764 | a success ends the streaks it should, counters fold the history |
| `UpstreamClient.Client.FinalError` | internal/modbus/client.go:716-733 | the call's error, with the final streak extended or ended, counters fold the history |
| `UpstreamClient.HistoryOfAnIdleClient` | internal/modbus/client.go:619-629 | the traffic of a client nobody owns: no poisoned session reused, attempts spaced |
| `UpstreamClient.HealthOfAnIdleClient` | internal/modbus/client.go:444-458 | of a client nobody owns, for the calls it has served: first and final streak count calls since the last that ends the streak, totals count calls, recovered <= total retries, degraded exactly with a first streak, `connected` exactly with a session, and the session is as the last call left it |
| `Calls.CountersCountCalls` | internal/modbus/client.go:716-764 | over any run, the counters are counts of calls: first attempts failed in transport since the last first-attempt success, calls ended in transport since the last reply or genuine exception, retries, recoveries; degraded exactly when the first streak is not empty |
| `Calls.CallMeaning` | internal/modbus/client.go:608-624 | what is counted, in terms of what happened: success on the first or second attempt, reply or genuine exception, first or last attempt broken in transport, retried; both directions while the context is live |
| `Calls.CountersFoldCalls` | internal/modbus/client.go:716-764 | the counters after a run are the fold of what each call does to them |
| `Calls.JudgedByEvent` | internal/modbus/client.go:583-617 | an attempt is taken for a reply, a protocol exception or a transport failure exactly as it happened, except that the end of the context can stand in for a failure |
| `Calls.ResultIsTheDevices` | internal/modbus/client.go:583-633 | a call ends with a protocol exception if and only if its last attempt met a genuine one, and returns that very error; it succeeds if and only if its last attempt got a reply and its context is not over |
| `Calls.OutcomeKeepsRetryRules` | internal/modbus/client.go:520-634 | writes and opaque codes make at most one attempt, reads two, the second only after the first broke in transport and on a newer session; the error reports exactly the attempts made |
| `Calls.OutcomeHasACause` | internal/modbus/client.go:500-634 | every error of a call is a RequestError around one of the classified causes |
| `Calls.CauseIsNotHidden` | internal/modbus/errors.go:127-168 | no cause of a failed call is of the kind that a RequestError hides |
| `Calls.CodeOfACall` | internal/modbus/errors.go:138-168 | the code sent downstream for a failed call, under any wrappers, is the one for its cause, never zero, and the device's own after a genuine exception |
| `Calls.RunKeepsSessions` | internal/modbus/client.go:619-629 | over any run, two attempts with only requests between them and no bad failure use the same session |
| `Calls.RequestsAreThrifty` | internal/modbus/client.go:619-629 | requests close or dial nothing while a session is live |
| `Calls.EndsByContext` | internal/modbus/client.go:544-575 | a call that ends between attempts ends with its context's error |
| `Calls.ClientErrorHasACode` | internal/modbus/errors.go:138-168 | for every cause and any wrappers: the code is the device's for genuine exceptions only, the validation code for refusals, 0x04 for local connect failures, 0x0B for the rest, never zero |
| `UpstreamClient.SoundAfterSend` | internal/modbus/client.go:576-594 | one more attempt on the live session keeps discipline and pacing; only a harmless one keeps the session live |
| `Upstream.NoPoisonedReuse` | internal/modbus/client.go:619-627 | in a disciplined log no session on which an attempt failed badly is used again |
| `Upstream.PoisonIsForever` | internal/modbus/client.go:619-627 | such a session is never live again |
| `Upstream.SoundSessionIsKept` | internal/modbus/client.go:619-629 | where nothing live is given up, a session that answers goes on being used |
| `Upstream.PacedRun` | internal/modbus/client.go:544-554 | in a paced log every attempt starts at least the delay after every earlier reply |
| `OwnerToken.TokenConserved` | internal/modbus/client.go:400-418 | token in the channel or with exactly one request, so one user at a time and `release` never blocks |
| `OwnerToken.EndedEarlyNeverUses` | internal/modbus/client.go:508-518 | a request whose context ended before ownership performs no session operation |
| `OwnerToken.EndedWhileAskingNeverTakes` | internal/modbus/client.go:400-406 | a request whose context is over when it asks never takes the token |
| `OwnerToken.RefusedOnlyIfEnded` | internal/modbus/client.go:400-414 | only requests whose context ended are refused; a live one given the token owns the client |
| `OwnerToken.SomeoneCanMove` | internal/modbus/client.go:400-418 | every unfinished request can move, or the holder of the token can |
| `OwnerToken.StepKeepsInv` | internal/modbus/client.go:400-418 | every step keeps tokens plus holders at one |
| `GuardedConn.WatchdogIsolation` | internal/modbus/client.go:246-260 | a watchdog that fires finds its own request bound |
| `GuardedConn.OverUntilUnbound` | internal/modbus/client.go:84-138 | a request that is over stays over until unbound; no write passes the check and every deadline set is past |
| `GuardedConn.LateWriteIffInFlight` | internal/modbus/client.go:128-138 | a raw write after the end is possible exactly when one had already passed the check |
| `GuardedConn.LateWriteHappens` | internal/modbus/client.go:128-138 | a schedule in which it happens |
| `GuardedConn.DeadlineIsBounded` | internal/modbus/client.go:53-126 | in every reachable state with a bound request the raw deadline is at most its limit, or already past if the request is over |
| `GuardedConn.RunKeepsInv` | internal/modbus/client.go:229-261 | requests, watchdogs, writes and finish functions in any order keep the binding invariant |
| `GuardedConn.Conn.SetDeadline` | internal/modbus/client.go:84-126 | moves the connection as the protocol's step; clamped to the request's limit, past once it is over, untouched when unbound |
| `GuardedConn.Conn.CheckWrite` | internal/modbus/client.go:84-98 | moves the connection as the protocol's step: a write passes, and is then in flight, if and only if the bound request is not over |
| `GuardedConn.Conn.Bind` | internal/modbus/client.go:53-62 | moves the connection as the protocol's Begin step, keeping its invariant |
| `GuardedConn.Conn.Cancel` | internal/modbus/client.go:73-82 | moves the connection as the protocol's WatchdogFires step: the request is marked cancelled and the raw deadline is not later than now |
| `GuardedConn.FiredWatchdogWakes` | internal/modbus/client.go:246-253 | in every reachable state, a bound request whose watchdog has fired is cancelled and its raw deadline past, until it finishes; an unfired watchdog of an ended context can fire |
| `GuardedConn.GuardFollowsTheRequest` | internal/modbus/client.go:84-138 | a bound request writes, and gets the deadline it asks for up to its limit, if and only if its context is live and its limit not reached; otherwise no write and a past deadline |
| `GuardedConn.BindingSetsTheLimit` | internal/modbus/client.go:53-62 | binding sets the raw deadline to the limit of a live request, and into the past for one already over |
| `GuardedConn.UnboundIsFree` | internal/modbus/client.go:64-71 | after unbinding deadlines are set as asked and any new request can be bound |
| `GuardedConn.Conn.Unbind` | internal/modbus/client.go:64-71 | moves the connection as the protocol's Unbind step, keeping its invariant |
| `GuardedConn.Conn.ClampNow` | internal/modbus/client.go:84-108 | the branches as written compute the protocol's clamp |
| `Errors.WireErrorMapping` | internal/modbus/client.go:653-671 | for every error tree of a wire attempt under any wrappers: the device's code exactly for genuine exceptions, 0x0B otherwise, never zero; protocol, context and transport kinds characterised exactly |
| `Errors.WrappersAreTransparent` | internal/cache/cache.go:53-81 | annotations and coalescing attribution change neither kind nor code of any tree |
| `Errors.RequestErrorTransparent` | internal/modbus/errors.go:127-182 | wrapping in a RequestError keeps the kind, and the code if and only if no validation failure hides another error |
| `Errors.ValidationCanHide` | internal/modbus/errors.go:137-168 | a tree for which it does not |
| `Errors.ReportedAs` | internal/modbus/errors.go:127-168 | kind and code of any error that became a RequestError under wrappers |
| `Errors.PathKinds` | internal/modbus/client.go:653-671 | the kinds the retry loop sees, characterised on the raw error |
| `Errors.ConnectErrorMapping` | internal/modbus/client.go:340-351 | a failed connect, by what its error contains: context end, timed-out or broken link give their kind and 0x0B, anything else is local and gives 0x04 |
| `Errors.ForeignKind` | internal/modbus/errors.go:77-125 | the kind of any error from outside without a Modbus exception, by what it contains: deadline, cancellation, first net error timing out, net error or closed sentinel, else local |
| `Errors.WireErrorKind` | internal/modbus/client.go:653-671 | the kind of any wire failure under wrappers, by what its error contains |
| `Errors.SearchIsErrorsAs` | internal/modbus/errors.go:81-120 | the search answers with the first node of the sort asked for, or with nothing exactly if there is none |
| `Errors.RequestErrorDecides` | internal/modbus/errors.go:127-145 | a RequestError has the last word on kind, and on the code of protocol exceptions and coded local errors |
| `Errors.LocalErrorMapping` | internal/modbus/errors.go:77-91 | context ends give 0x0B, rejected requests keep their validation code |
| `Errors.SearchThrough` | internal/modbus/errors.go:53-75 | a wrapper changes only the answers about its own type |
| `Codec.CacheRefinesDirectRead` | internal/proxy/proxy.go:415-488 | after a response is decomposed and stored, any sub-range served from the cache is byte for byte the device's answer for it, including unaligned coil ranges |
| `Codec.DecomposeUndoesAssemble` | internal/proxy/proxy.go:415-488 | decomposing an assembled response gives the values back |
| `Codec.AssembleUndoesDecomposeRegisters` | internal/proxy/proxy.go:423-434 | assembling a decomposed register response gives it back |
| `Codec.AssembleUndoesDecomposeCoils` | internal/proxy/proxy.go:436-484 | for coils every bit is kept and padding cleared; identity exactly when padding was clear |
| `Codec.ResponseFits` | internal/modbus/client.go:828-836 | for every validated quantity the PDU has 2 to 252 bytes and an exact count byte |
| `Codec.DecomposeResponse` | internal/proxy/proxy.go:415-454 | the loops, in uint16 arithmetic, compute the per-address values, or nil exactly when the payload is short |
| `Codec.DecomposeRegisters` | internal/proxy/proxy.go:423-434 | the register loop |
| `Codec.DecomposeCoils` | internal/proxy/proxy.go:436-450 | the coil loop |
| `Codec.AssembleResponse` | internal/proxy/proxy.go:457-488 | the loops build function code, count byte and payload in a new array |
| `Codec.AssembleRegisters` | internal/proxy/proxy.go:459-470 | the register loop |
| `Codec.AssembleCoils` | internal/proxy/proxy.go:472-484 | the coil loop |
| `Codec.TurnOn` | internal/proxy/proxy.go:478-482 | or-ing one bit in is one more coil in the payload |
| `Codec.PayloadBit` | internal/proxy/proxy.go:479-481 | bit i of a coil payload is coil i, and padding is zero |
| `Codec.DecomposedValues` | internal/proxy/proxy.go:415-454 | a response decomposes if and only if its payload is long enough; a register is its two bytes, a coil its bit |
| `Codec.AssembledValues` | internal/proxy/proxy.go:457-488 | a register value gives its first two bytes, or zeros if shorter; a coil is on exactly if its value begins with a nonzero byte |
| `Codec.DecomposeReply` | internal/modbus/client.go:937-943 | decomposing the device's reply gives its registers or coils |
| `Codec.AssembleValues` | internal/modbus/client.go:937-943 | assembling them gives the device's reply |
| `Frames.FrameRoundTrip` | internal/modbus/server.go:263-355 | a frame is read back as transaction, unit and PDU with the rest of the stream intact if and only if the PDU has 1 to 253 bytes |
| `Frames.AcceptedUnit` | internal/modbus/server.go:263-289 | an accepted unit is the header's own fields and exactly the PDU the header announces; the rest follows it |
| `Frames.HeaderIsItsFields` | internal/modbus/server.go:343-350 | a header with protocol id 0 is the one its fields are printed as |
| `Frames.RefusedInput` | internal/modbus/server.go:264-289 | which input is refused, and why, byte by byte |
| `Frames.ConversationRoundTrip` | internal/modbus/server.go:263-355 | any sequence of deliverable responses is read back as the same sequence |
| `Frames.WriteResponse` | internal/modbus/server.go:343-355 | the filled buffer is header and PDU |
| `Frames.ReadRequest` | internal/modbus/server.go:263-303 | reads one frame and parses it, with every error case |
| `Frames.ParseRequest` | internal/modbus/server.go:305-341 | the byte-typed bound of the write data cannot wrap: the data are exactly the counted bytes |
| `Frames.ParsedExactlyIfLongEnough` | internal/modbus/server.go:305-341 | a PDU parses if and only if it is long enough for its function code and the bytes it announces |
| `Frames.ParseUndoesEncode` | internal/modbus/server.go:305-341 | parsing an encoded request gives back every field |
| `Frames.EncodeUndoesParse` | internal/modbus/server.go:305-341 | an accepted PDU begins with the encoding of what was parsed |
| `Frames.ValidatedRequest` | internal/modbus/client.go:824-878 | accepted requests do not wrap, have representable quantities and exactly their data; refusals have a validation code |
| `Frames.ValidationIsExact` | internal/modbus/client.go:824-878 | accepted if and only if legal; illegal content is 0x03, legal content past the last address 0x02, a vendor code not matching its PDU 0x01 |
| `Frames.LegalRequestIsServed` | internal/modbus/server.go:263-341 | every legal standard request, encoded and framed, is read, parsed and accepted as meant |
| `Frames.VendorRequestIsServed` | internal/modbus/server.go:336-341 | every PDU with another function code goes through untouched |
| `Frames.FunctionCodes` | internal/modbus/server.go:366-384 | which codes are reads and which writes |
| `Frames.ReadResponseIsDeliverable` | internal/modbus/server.go:343-355 | the frame of any response to a validated read is read back as that response |
| `Entries.CleanupIsUnobservable` | internal/cache/cache.go:340-351 | inserting or dropping cleanup passes anywhere in a list of cache operations changes no answer |
| `Entries.SweepsDoNotMatter` | internal/cache/cache.go:20-22 | tables that agree on live entries answer alike with and without sweeps |
| `Entries.StoredRangeServesSubRange` | internal/cache/cache.go:173-236 | a stored range serves every sub-range fresh while its TTL lasts and nothing after, and stale at any time, also after a cleanup that keeps stale entries |
| `Entries.CleanupEffect` | internal/cache/cache.go:340-351 | a cleanup removes exactly what is older than its TTL, nothing if stale entries are kept |
| `Entries.SetRangeEffect` | internal/cache/cache.go:221-236 | exactly the keys of the range are written, with one time |
| `Entries.InvalidateEffect` | internal/proxy/proxy.go:391-403 | exactly the written addresses disappear, under all four read codes |
| `Entries.RangeKeysExact` | internal/cache/cache.go:239-247 | the keys of a validated range are those of its addresses and no others |
| `Keys.RegKeyInjective` | internal/cache/cache.go:106-108 | a register key determines slave, function code and address |
| `Keys.RangeKeyInjective` | internal/proxy/proxy.go:197 | a generation-prefixed range key determines all five fields |
| `CacheStore.Cache.GetRange` | internal/cache/cache.go:173-193 | all or nothing; buffers handed out are new, distinct and not the cache's |
| `CacheStore.Cache.GetRangeStale` | internal/cache/cache.go:197-217 | the same regardless of age |
| `CacheStore.Cache.SetRange` | internal/cache/cache.go:221-236 | stores the contents in new buffers, so shared coil slices stay the caller's |
| `CacheStore.Cache.DeleteRange` | internal/cache/cache.go:239-247 | removes exactly the keys of the range |
| `CacheStore.Cache.CleanupOnce` | internal/cache/cache.go:340-351 | removes exactly the expired entries, none when stale entries are kept |
| `CacheStore.InflightRequest.Publish` | internal/cache/cache.go:317-334 | the leader returns a new buffer with the fetched contents, not the one it publishes |
| `CacheStore.InflightRequest.Share` | internal/cache/cache.go:302-304 | each follower gets a new buffer with the published contents |
| `ProxySections.Proxy.Lookup` | internal/proxy/proxy.go:174-187 | the answer packed from a complete fresh range in a new buffer, with the generation of the same section |
| `ProxySections.Proxy.StaleLookup` | internal/proxy/proxy.go:216-242 | the answer packed from a complete range of any age, if and only if configured, the error is not a protocol exception, the context is active and the range is there |
| `ProxySections.Proxy.StoreReply` | internal/proxy/proxy.go:203-210 | stored exactly if it decomposes and no write boundary came in between, in new buffers |
| `ProxySections.Proxy.WriteBoundary` | internal/proxy/proxy.go:358-368 | generation up by one and the written range gone |
| `ProxySections.Proxy.InvalidateCache` | internal/proxy/proxy.go:391-403 | the written range gone under every read code |
| `ProxySections.Proxy.StoreThenServe` | internal/proxy/proxy.go:174-210 | a device reply stored through the byte codec and the heap cache, then looked up in part: byte for byte what the device would have answered for the part |
| `ProxySections.Proxy.WriteThenLookup` | internal/proxy/proxy.go:358-368 | after either end of a write a lookup of any range sharing an address with it misses, under a newer generation |
| `Entries.TouchedIsMissing` | internal/proxy/proxy.go:391-403 | no range sharing an address with an invalidated one can be served, fresh or stale |
| `Durations.SaturatingSum` | internal/proxy/proxy.go:376-389 | the sum of the positive durations, capped |
| `Durations.CompleteTiming` | internal/modbus/client.go:697-714 | the total covers the capped sum of the parts and is otherwise kept |

## Left out

- Listening, accepting, socket reads, dialling and goroutine start-up and shutdown: only byte sequences and step order are modelled.
- The grid-x/modbus library is not part of this model: a wire attempt is an arbitrary result.
- internal/health, internal/logging, internal/config and log-argument building: presentation and parsing.
- Read-only modes, their fake or exception responses, and passthrough of vendor function codes in `HandleRequest`: single branches without state.
- Late effects of ambiguous writes after `Execute` returned, broadcast effects on other slave ids, and register changes made by vendor PDUs: not what the invalidation covers.
- Wrap-around of the 64-bit write generation and retry counters.
- Single-key `Get`, `GetStale`, `Set` and `Delete` of the cache: the range operations contain them.
- The `followers` field of an in-flight request: written and never read. Wait durations and the `Waited` flag: they feed logs only.
- `lastErr`, `lastSuccess`, `lastFirstSuccess` and the degraded window: health presentation beyond the counters.
- In `Coalescing` and `Coherence` buffers are named by their contents; that leader and followers share no memory is stated on the heap objects of `CacheStore` instead.
- UpstreamClient.Client.Execute: a success stands for the response bytes, and the time spent per phase is not tracked, because neither influences the control flow.
- UpstreamClient.Client.JudgeAttempt: the time of the first failure is recorded but nothing is stated about it beyond being set, because it only feeds the degraded window.
- Codec.DecomposeRegisters: for quantities of 32768 and more with a payload of 65534 bytes and more the original slices out of bounds; its precondition excludes them, and validation never lets such a quantity through.
- Codec.AssembleResponse: requires a quantity whose byte count fits a uint16, which every validated quantity does; beyond that the original indexes out of bounds.
