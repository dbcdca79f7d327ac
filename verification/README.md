# Sky Radar: a verified model of its stateful core

Sky Radar ingests aircraft reports from several providers, merges them into one canonical
state per aircraft, publishes changes on a sequence-numbered stream, and serves them to
browsers live, after a reconnect, and as a replay. This project models the parts of it whose
correctness spans several functions or a whole run, and proves what the code promises about
them.

| file | what it models |
|---|---|
| `FlightStream`, `Hub`, `Gateway`, `BrowserClient` | the stream readers, the WebSocket hub, one connection's handshake / replay / live loop, and the reconnecting browser client, as the imperative code they are |
| `ResumeProtocol`, `ResumeCoverage` | those actors interleaving as atomic steps over any run: exactly-once order, no silent loss, session exactness, and where updates can still be lost |
| `HistoryWriter` | the history downsampler: reserve, insert outside the lock, roll back; any number of concurrent calls |
| `TokenBucket` | the Redis rate-limit script, the tiers and the Retry-After header |
| `Merge`, `PublishDedup` | multi-source merge and the concurrent publish stage |
| `ReplayApi`, `ReplayWindow`, `ReplayPlayback`, `ReplaySession` | GET /replay over two stores, the scrubber store, playback frames, and the whole way from the stores to the map |
| `Geofence`, `StaleSignal`, `EventEngine` | the event detectors over whole traces, and the two loops that drive them |
| `Text`, `Codec`, `MergedStates`, `HotState` | the Redis hash codec, and the hot-state hashes with their geo index |
| `NaturalOrder`, `TaskQueue` | natural ordering of prompts and the pipeline's task loop |
| `Prelude`, `Geo`, `FlightModel`, `Lexicographic`, `Filtering` | shared types, orders and sequence lemmas |

Code that changes state step by step is a class or a method with loops, proved against a
specification function; what is promised about whole runs is proved about those functions.
I/O results (does an insert fail, does a Redis transaction run and is it answered, does a fetch
fail, when does a key expire, in which order does a map iterate) are parameters or
nondeterministic steps, so every lemma holds for all of them. Parsers, printers, the icon classifier and point-in-polygon are function parameters.

## Where the code and its documentation differ

The code is modelled as it is; each difference is a proved lemma.

- `cmd/apigateway/ws_hub.go:33-35` says a dropped message is recoverable by reconnecting. It is
  if and only if the browser had heard of nothing as new by the time its connection closed
  (`ResumeCoverage.DropRecoveredIff`); runs where it is and where it is not
  (`ResumeCoverage.DropIsRecovered`, `ResumeCoverage.DropIsSilent`).
- `internal/pgstorewriter/historywriter.go:45-46` says a failed insert is rolled back so the next
  call can retry. The same reading passes again if and only if its reservation was still on top,
  or evicted, by then (`HistoryWriter.RetryPassesIff`, `HistoryWriter.PhantomBlocksRetry`).
- `cmd/apigateway/replay.go:119-120` calls the two parts of a replay disjoint. Both ends are
  inclusive: they share an instant if and only if the boundary lies inside the window and both
  stores hold something in the box exactly there (`ReplayWindow.PartsOverlapIff`).
- `automation/activities/tasks.go:126-129` says digit runs compare numerically. Different numbers
  below 2^64 do if and only if both or neither are below 2^63; the 64-bit accumulator wraps
  (`NaturalOrder.RunsCompareNumericallyIff`).
- `internal/redisutil/ratelimit.go:24-25` says an expired bucket key is harmless. It is if and only
  if the capacity is at most 600.001 times the refill rate (`TokenBucket.ExpiryUnobservableIff`,
  `TokenBucket.WindowBoundIff`), which every tier of `cmd/apigateway/auth.go` satisfies
  (`TokenBucket.TierConforms`).
- `internal/redisutil/flightstate.go:207-306` does not give back a squawk that is present but
  empty, which `cmd/normalizer/providers.go:200` can produce (`MergedStates.EmptySquawkLost`).
- `internal/redisutil/flightstate.go:42-52` says a write stores the hash and indexes its position.
  Redis indexes no position beyond 85.05112878 degrees of latitude or 180 of longitude and does not
  undo the rest of the transaction, so such a write fails with its hash stored: it leaves every live
  hash indexed if and only if the position can be indexed or the name already is
  (`HotState.WriteKeepsIndexedIff`, `HotState.PolarFlightUnindexed`), and a scan that misses a live
  flight misses only those (`HotState.QueryCompleteIff`, `HotState.CompleteInRange`).

## Model

| member | source | states |
|---|---|---|
| Geo.ContainsIffNearest | internal/geo/bbox.go:63-66 | a box holds exactly the positions it would not have to move to reach: its edges included, none if it is inverted |
| FlightStream.ResumableIff | internal/natsutil/flighttail.go:83-85 | the retention check accepts a resume point exactly when nothing after it has been trimmed |
| FlightStream.DecodedFromExact | internal/natsutil/flighttail.go:189-194 | a fetched range holds exactly its decodable sequence numbers, ascending |
| FlightStream.DeliveredExact | internal/natsutil/flighttail.go:189-194 | what a reader hands over carries exactly those numbers, each with its own instant and state |
| FlightStream.FetchBacklog | internal/natsutil/flighttail.go:179-199 | the loop returns the decodable messages of the range in stream order, each with its own number and state |
| Hub.WsHub.Register | cmd/apigateway/ws_hub.go:82-92 | the client joins the broadcast set, once |
| Hub.WsHub.Unregister | cmd/apigateway/ws_hub.go:95-105 | the client leaves the broadcast set |
| Hub.WsHub.Broadcast | cmd/apigateway/ws_hub.go:111-123 | every client is offered the message on its own viewport and channel; no client affects another |
| Hub.UnreadQueueIsPrefix | cmd/apigateway/ws_hub.go:31-36 | an unread channel holds exactly the first 64 in-viewport messages: newest dropped, never reordered or evicted |
| Gateway.ReplayResume | cmd/apigateway/ws_gateway.go:139-190 | a gap is answered by exactly its in-viewport part, or by one resume_failed and nothing else, or by a strict prefix if the connection is lost; the mark handed on is the head after a refusal, otherwise the furthest number reached, in view or not |
| Gateway.Handshake | cmd/apigateway/ws_gateway.go:79-126 | a successful handshake has written the replay's whole answer and the acknowledgement of its mark, and leaves the client registered; a failed one a strict prefix of that, and never leaves it registered; which mark that is `ResumeProtocol.HandshakeIsSteps` says |
| Gateway.Serve | cmd/apigateway/ws_gateway.go:198-223 | the live loop writes exactly the queued messages that move past the mark |
| Gateway.FreshMovesForward | cmd/apigateway/ws_gateway.go:211-220 | what it writes is strictly ascending above the mark, and from an ascending queue nothing above the mark is left out |
| Gateway.ReplayMarkIsFurthest | cmd/apigateway/ws_gateway.go:186-189 | no message of an ascending backlog is above the mark, which is the resume point or one of its numbers |
| Gateway.HandleWS | cmd/apigateway/ws_gateway.go:54-72 | over a whole connection, however far it gets, no update is written twice or out of order, across replay, acknowledgement and live loop, and none at or below the resume point |
| BrowserClient.FlightSocket.OnOpen | web/src/api/ws.ts:79-83 | the subscribe message carries the current viewport and resume point |
| BrowserClient.FlightSocket.OnMessage | web/src/api/ws.ts:85-113 | the whole state after each server message, a sequence number of 0 setting nothing |
| BrowserClient.ResumePointExact | web/src/api/ws.ts:92-111 | after any messages the resume point is the last number other than 0 heard since the last resume_failed |
| BrowserClient.PassedOnExact | web/src/api/ws.ts:98-111 | the updates passed on are exactly those received, in order, and each resume_failed is told once |
| BrowserClient.FlightSocket.OnClose | web/src/api/ws.ts:115-132 | a reconnect is scheduled exactly when the caller has not closed the socket |
| BrowserClient.FlightSocket.UpdateBBox | web/src/api/ws.ts:137-143 | the viewport is remembered for the next connect and sent now if one is open |
| BrowserClient.BackoffGrows | web/src/api/ws.ts:122-128 | the delay never shrinks while attempts fail, starts at 1 s, doubles until it is 30 s, and is that exactly from the sixth attempt on |
| ResumeProtocol.BroadcastIsOffer | cmd/apigateway/ws_hub.go:111-123 | the protocol's broadcast step is the hub's, on sequence numbers |
| ResumeProtocol.ServeAllIsLoop | cmd/apigateway/ws_gateway.go:211-220 | the protocol's serving steps write exactly what the live loop writes |
| ResumeProtocol.ReplayAllIsLoop | cmd/apigateway/ws_gateway.go:176-184 | the protocol's replay steps write exactly what the replay loop writes |
| ResumeProtocol.HandshakeIsSteps | cmd/apigateway/ws_gateway.go:79-126 | the protocol's handshake steps end where the gateway's handshake does, for no gap, a refused one and a replayed one: the same messages written, the same number acknowledged and handed on |
| ResumeProtocol.FetchedIsRetained | internal/natsutil/flighttail.go:78-111 | a fetch delivers only decodable, retained messages above the resume point |
| ResumeProtocol.OrderedStep | cmd/apigateway/ws_gateway.go:79-223 | every step of every actor keeps the order invariant |
| ResumeProtocol.OrderedDeliver | web/src/api/ws.ts:92-112 | a delivered message keeps it: each one moves past all that was heard before |
| ResumeProtocol.UpdatesStrictlyIncrease | web/src/api/ws.ts:98-103 | on every run the updates passed on are strictly increasing and the resume point never exceeds the stream head |
| ResumeProtocol.SkippedForever | web/src/api/ws.ts:81-101 | an update not passed on by the time a newer number is heard is never passed on |
| ResumeCoverage.CoveredStep | cmd/apigateway/ws_gateway.go:98-118 | every calm step keeps the coverage invariant, which rests on registering before reading the head |
| ResumeCoverage.CoveredRegister | cmd/apigateway/ws_gateway.go:98-113 | a resume makes everything dropped above its resume point owed again |
| ResumeCoverage.LostStep | cmd/apigateway/ws_hub.go:118-121 | a message recorded as dropped has not been delivered and cannot be any more |
| ResumeCoverage.CoveredFetch | cmd/apigateway/ws_gateway.go:165-189 | a full fetch covers its whole gap |
| ResumeCoverage.CoveredServe | cmd/apigateway/ws_gateway.go:211-220 | dropping what is at or below the mark and writing the rest keeps coverage |
| ResumeCoverage.NothingOwedBetween | web/src/api/ws.ts:92-103 | nothing owed lies between the resume point and the next message to arrive |
| ResumeCoverage.NoSilentLoss | cmd/apigateway/ws_gateway.go:79-223 | from any moment after which the viewport stays put and fetches are full - without a connection, or on a served one that filters by that viewport - between the baseline and the resume point, above what had been heard or published by that moment, what is passed on is exactly the viewport less what the hub dropped and no replay answered for |
| ResumeCoverage.BaselineStands | web/src/api/ws.ts:104-111 | on every run the baseline stands and the resume point only moves forward until a resume_failed is heard |
| ResumeCoverage.NothingLostSince | web/src/api/ws.ts:79-113 | from such a moment with a resume point, through any reconnects without a resume_failed, the same: everything above that resume point, or on a served connection everything published since |
| ResumeCoverage.RecoveredIff | cmd/apigateway/ws_gateway.go:128-190 | a viewport message published by the time a connection closes is passed on, once the browser gets past it, if and only if it already was or nothing as new had been heard |
| ResumeCoverage.DropRecoveredIff | cmd/apigateway/ws_hub.go:33-35 | so a dropped message is recovered by reconnecting if and only if nothing as new had been heard when the connection closed |
| ResumeCoverage.DropIsRecovered | cmd/apigateway/ws_hub.go:33-35 | a run in which a dropped message is recovered |
| ResumeCoverage.SessionExact | cmd/apigateway/ws_hub.go:111-123 | at every serving step the queue holds exactly the viewport above the mark up to the hub's position, and what was written is exactly the viewport part of (start, mark], less what the hub dropped on this connection |
| ResumeCoverage.DrainsInAnyOrder | cmd/apigateway/ws_gateway.go:202-222 | in whatever order broadcasts, writes and deliveries come, a served connection has a bounded number of them ahead, and has drained exactly when none is possible |
| ResumeCoverage.Drains | cmd/apigateway/ws_gateway.go:202-222 | such a schedule exists from every served state, and drops nothing the hub has already broadcast |
| ResumeCoverage.QuiescentIsComplete | cmd/apigateway/ws_gateway.go:79-223 | once drained, what has been passed on since the baseline is exactly the viewport published, less what the hub dropped |
| ResumeCoverage.DrainedPast | cmd/apigateway/ws_hub.go:33-35 | a lost message stays lost when its connection delivers a newer one |
| ResumeCoverage.DropIsSilent | cmd/apigateway/ws_hub.go:33-35 | a run in which a dropped message is passed over without a resume_failed |
| ResumeCoverage.ShortFetchIsSilent | cmd/apigateway/ws_gateway.go:186-188 | a run in which an empty fetch is passed over without a resume_failed: the full-fetch hypothesis is needed |
| HistoryWriter.HistoryWriter.Reserve | internal/pgstorewriter/historywriter.go:51-58 | the first critical section: passes exactly at or after the interval, and reserves |
| HistoryWriter.HistoryWriter.RollBack | internal/pgstorewriter/historywriter.go:70-79 | the second one: gives the reservation back only while it is still on top |
| HistoryWriter.HistoryWriter.Observe | internal/pgstorewriter/historywriter.go:47-84 | an undisturbed call writes exactly when the gate passes and the insert succeeds, and a failed one leaves no trace |
| HistoryWriter.HistoryWriter.EvictBefore | internal/pgstorewriter/historywriter.go:90-98 | exactly the entries older than the cutoff go |
| HistoryWriter.RollBackUndoes | internal/pgstorewriter/historywriter.go:57-79 | reserving and rolling back restores the gate |
| HistoryWriter.PopExplained | internal/pgstorewriter/historywriter.go:72-78 | rolling back a top reservation pops the stack of reservations |
| HistoryWriter.StepExplained | internal/pgstorewriter/historywriter.go:47-98 | every step keeps the stack of reservations the gate is the top of |
| HistoryWriter.RowsSpaced | internal/pgstorewriter/historywriter.go:38-46 | under any interleaving, failures and evictions, rows of one aircraft are at least the interval apart |
| HistoryWriter.RowsOnce | internal/pgstorewriter/historywriter.go:43-46 | and no reading is inserted twice: the row a call writes was not there |
| HistoryWriter.AcceptedIff | internal/pgstorewriter/historywriter.go:47-58 | as long as nothing fails or is evicted, a reading is skipped exactly when an accepted one of its aircraft is less than an interval older |
| HistoryWriter.RetryPassesIff | internal/pgstorewriter/historywriter.go:45-46 | on every run, after a failed insert the same reading passes the gate again if and only if its reservation was still on top, or evicted |
| HistoryWriter.PhantomBlocksRetry | internal/pgstorewriter/historywriter.go:72-78 | two overlapping failures write nothing; in between, the first reading cannot be retried, and in the end a later one is refused |
| HistoryWriter.EvictionUnobservableIff | internal/pgstorewriter/historywriter.go:90-98 | an eviction leaves a reading's verdict unchanged, whatever the gate holds, if and only if the reading is a full interval after the newest entry evicted |
| TokenBucket.RateLimiter.AllowTokenBucket | internal/redisutil/ratelimit.go:28-109 | the script's answer and the stored bucket, expiry included, or an error that changes nothing |
| TokenBucket.ExpiryUnobservableIff | internal/redisutil/ratelimit.go:66-73 | the TTL changes no answer on any run if and only if capacity is at most 600.001 times the refill rate |
| TokenBucket.ExpiryKeepsOutcome | internal/redisutil/ratelimit.go:60-61 | under that bound each single answer is the same |
| TokenBucket.WindowBudget | internal/redisutil/ratelimit.go:49-61 | under it, tokens held by the expiring bucket plus calls allowed in any window never exceed capacity plus refill |
| TokenBucket.WindowBoundIff | internal/redisutil/ratelimit.go:45-61 | the calls allowed in any window of any run obey the bucket's bound if and only if capacity is at most 600.001 times the refill rate |
| TokenBucket.LevelWitness | internal/redisutil/ratelimit.go:40-49 | while nothing is denied, the level is set by one call that found the bucket full, expired or not |
| TokenBucket.FitsIsAllowed | internal/redisutil/ratelimit.go:33-63 | a sequence of calls that fits the budget in every window is always allowed, expired or not |
| TokenBucket.ConformanceIff | internal/redisutil/ratelimit.go:33-63 | a fresh bucket allows exactly the sequences of calls that fit the budget in every window, if and only if capacity is at most 600.001 times the refill rate |
| TokenBucket.DeniedUnobservableIff | internal/redisutil/ratelimit.go:45-63 | deleting a denied call from any history changes no other answer if and only if capacity is at most 600.001 times the refill rate or a token is earned every millisecond |
| TokenBucket.RefillTwice | internal/redisutil/ratelimit.go:45-49 | refilling in two parts earns what one refill does |
| TokenBucket.ClockBack | internal/redisutil/ratelimit.go:45-60 | a clock that has gone back neither earns nor costs anything, and earning starts again from there |
| TokenBucket.TogetherAllowed | internal/redisutil/ratelimit.go:45-61 | after any run, of calls made together exactly as many are allowed as there are whole tokens |
| TokenBucket.RemainingExact | internal/redisutil/ratelimit.go:63 | the reported remainder is exactly how many further calls at that instant are allowed, never negative and 0 after a denial |
| TokenBucket.RetryAfterExact | cmd/apigateway/auth.go:133-135 | after a denial the next call is allowed exactly from the returned milliseconds on or once the key has expired, and the header's seconds always suffice, by less than one second |
| TokenBucket.TierConforms | cmd/apigateway/auth.go:50-52 | for every tier, whose capacity and minute's refill are its allowance: expiry is unobservable, windows are bounded, a sequence is allowed exactly when it fits, denied calls leave no trace |
| TokenBucket.TierRetryAfter | cmd/apigateway/auth.go:133-135 | within a tier the wait is at most a minute, is the first millisecond by which the missing part of a call has been earned, and is exact, expiry included |
| TokenBucket.TierBurst | cmd/apigateway/auth.go:46-49 | a fresh bucket lets exactly one minute's allowance through at once |
| TokenBucket.TierEarns | cmd/apigateway/auth.go:46-52 | drained at one instant, it lets through together exactly a sixty-thousandth of the allowance for each millisecond since, rounded down, at most the whole |
| TokenBucket.TierWindow | cmd/apigateway/auth.go:46-52 | in any window of any run no more calls are allowed than one allowance and that share of it for each millisecond of the window |
| TokenBucket.TierDrainedWait | cmd/apigateway/auth.go:133-135 | a caller that has just drained it waits for one call's share of a minute, to the millisecond |
| Merge.PickWinner | cmd/normalizer/merge.go:181-208 | the loop returns the winner among the reports within 15 s of the freshest, by the rule's own terms: no better class of position, then none newer, then no provider's name that comes first; of reports that tie the first |
| Merge.WinsIff | cmd/normalizer/merge.go:170-221 | that rule, with ADS-B ahead of MLAT ahead of everything else, is the precedence the loop compares by |
| Merge.PreferredTransitive | cmd/normalizer/merge.go:198-204 | the precedence is an order, so one pass finds its optimum |
| Merge.WinnerUnique | cmd/normalizer/merge.go:181-208 | with one report per provider the winner is unique |
| Merge.WinnerOfSubset | cmd/normalizer/merge.go:181-208 | any subset keeping the winner and one freshest report has the same winner |
| Merge.StaleReportIgnored | cmd/normalizer/merge.go:192-195 | a report more than 15 s staler than another does not change the winner |
| Merge.StaleReportKeepsPosition | cmd/normalizer/merge.go:67-87 | nor anything taken from it: motion, quality and instant stay, only its provider and its military flag are added |
| Merge.PickAircraftType | cmd/normalizer/merge.go:94-108 | the winner's designator, else that of the winner among those carrying one |
| Merge.PickEmitterCategory | cmd/normalizer/merge.go:113-127 | likewise for the emitter category |
| Merge.AnyMilitary | cmd/normalizer/merge.go:131-138 | true exactly when some report says so |
| Merge.SourceList | cmd/normalizer/merge.go:225-236 | exactly the providers that reported, ascending, each once |
| Lexicographic.TextBeforeIff | cmd/normalizer/merge.go:224-236 | names are ordered by the first character in which they differ |
| Merge.Merge | cmd/normalizer/merge.go:34-88 | fails exactly when no report is valid, otherwise produces the merge of the set of valid reports |
| Merge.MergeUnique | cmd/normalizer/merge.go:34-88 | that merge is determined by the set |
| Merge.GroupByIcao | cmd/normalizer/merge.go:155-159 | each raw report is filed under its lower-cased address |
| Merge.MergeAll | cmd/normalizer/merge.go:154-176 | strictly ascending addresses, one state for each aircraft with a valid report |
| Merge.MergeAllUnique | cmd/normalizer/merge.go:154-176 | the output depends only on the set of raw reports, not their order or repetition |
| Merge.OneProviderTwiceIsAmbiguous | cmd/normalizer/merge.go:200-204 | of two different reports of one provider tied in time and quality the loop keeps whichever comes first: the hypothesis is needed |
| PublishDedup.Normalizer.PersistAndPublish | cmd/normalizer/main.go:259-273 | published only after a successful write, confirmed exactly when both needed parts succeed |
| PublishDedup.Normalizer.PersistAndPublishAll | cmd/normalizer/main.go:227-249 | the new memory and each aircraft's messages, whatever order the workers finish in |
| PublishDedup.MemoryMatchesStream | cmd/normalizer/main.go:213-226 | on every run what is remembered as published is the last acknowledged message |
| PublishDedup.ConfirmedIsLatest | cmd/normalizer/main.go:251-258 | a confirmed state is what the stream ends with |
| PublishDedup.CycleExact | cmd/normalizer/main.go:228-290 | after a cycle an aircraft is remembered if and only if it was written and the stream acknowledges it or had it already, and is sent exactly when it had not |
| PublishDedup.FailureIsRetried | cmd/normalizer/main.go:240-244 | after a failed write or publish the next cycle carrying a state for that aircraft publishes again |
| PublishDedup.ReliableRunsPublishChanges | cmd/normalizer/main.go:176-205 | without failures the stream carries exactly the changes of LastSeenUTC, an absent cycle resetting the memory |
| ReplayApi.ReplayReader.Fetch | internal/natsutil/flighttail.go:179-199 | up to the requested number of messages, decoded, fewer if the wait runs out, or an error |
| ReplayApi.TakeBatch | cmd/apigateway/replay.go:197-207 | stopping at the first message past `to` loses nothing from the batch |
| ReplayApi.EndsPast | cmd/apigateway/replay.go:197-211 | ending early past `to` still answers for the whole stream |
| ReplayApi.BlindFetch | cmd/apigateway/replay.go:192-194 | an empty batch before the backlog is consumed takes a chunk that fails to decode or a fetch that ran out of time; with everything decoding, an empty-handed fetch |
| ReplayApi.CollectJetStreamSamples | cmd/apigateway/replay.go:164-213 | whatever the batch size and the fetches come back with: fails exactly when a fetch did, otherwise answers for a prefix of the stream; for all that was pending when everything decodes and no fetch is empty-handed |
| ReplayWindow.FilterByBBox | cmd/apigateway/replay.go:231-242 | exactly the records in the box, in order |
| ReplayWindow.HistoryExact | internal/pgstore/flighthistory.go:39-72 | rows of the window in time order, all of them below the row cap |
| ReplayWindow.CapKeepsEarliest | internal/pgstore/flighthistory.go:39-46 | beyond the row cap the earliest rows of the window are returned |
| ReplayWindow.PickedMember | cmd/apigateway/replay.go:214-228 | a stream sample is exactly one message up to the end of the window and in the box, with that message's address, instant, position and motion |
| ReplayWindow.StartOfExact | internal/natsutil/flighttail.go:97-111 | the consumer starts at the first message not older than the given instant |
| ReplayWindow.CollectFrom | cmd/apigateway/replay.go:164-213 | in time order, inside the window, and when all decodes and no fetch is empty-handed exactly the picked part of the stored messages |
| ReplayWindow.PartsJoin | cmd/apigateway/replay.go:119-122 | appending the newer part to the older one needs no merge |
| ReplayWindow.CollectReplaySamples | cmd/apigateway/replay.go:123-155 | fails only if a store does; otherwise in time order, within the window, and under those conditions exactly the two parts |
| ReplayWindow.PartsOverlapIff | cmd/apigateway/replay.go:117-122 | the two parts share an instant if and only if the boundary lies inside the window and both stores hold something in the box exactly there |
| ReplayWindow.BoundaryReturnedTwice | cmd/apigateway/replay.go:117-122 | for instance a row and a message alike at the boundary are both returned |
| ReplayPlayback.ComputeFlightsAtTime | web/src/replay/replayPlayback.ts:15-30 | the Map loop with its early exit computes the frame of the applied prefix, in order of first appearance; on ascending instants exactly each aircraft's last sample at or before the instant, field by field |
| ReplayPlayback.FrameExact | web/src/replay/replayPlayback.ts:4-14 | on ascending samples a frame holds exactly each aircraft's last sample at or before the instant, each once |
| ReplayPlayback.SampleIsDepicted | web/src/replay/replayPlayback.ts:36-60 | a sample is shown field by field, what it does not carry as absent, and by one frame only |
| ReplayPlayback.FrameKeepsSample | web/src/replay/replayPlayback.ts:36-60 | a shown state determines its sample: nothing a sample carries is lost |
| ReplayPlayback.ForwardKeepsAircraft | web/src/replay/replayPlayback.ts:21-29 | moving forward never removes or reorders an aircraft |
| ReplayPlayback.KeepReadable | web/src/store/useReplayStore.ts:54-62 | drops exactly the samples that do not parse, instants aligned by index |
| ReplayPlayback.ReadableExact | web/src/store/useReplayStore.ts:54-62 | what is kept is exactly what parses, in the order it came |
| ReplayPlayback.ReplayStore.LoadWindow | web/src/store/useReplayStore.ts:48-74 | the loaded samples, the head at the start, stopped |
| ReplayPlayback.ReplayStore.SetScrub | web/src/store/useReplayStore.ts:78-95 | the head is clamped to the window and playback stops at its end |
| ReplayPlayback.ReplayStore.TogglePlay | web/src/store/useReplayStore.ts:97-112 | play and pause, restarting from the start after the end |
| ReplayPlayback.ReplayStore.Exit | web/src/store/useReplayStore.ts:116-127 | back to no window |
| ReplayPlayback.SoundKept | web/src/store/useReplayStore.ts:78-112 | the head stays inside the window and playing means something is left |
| ReplayPlayback.ToggleExact | web/src/store/useReplayStore.ts:97-112 | pressed with something left it starts or stops where it is, and twice changes nothing; at the end it starts over |
| ReplayPlayback.Clamped | web/src/store/useReplayStore.ts:83-86 | the head goes to the point of the window nearest to where it was dragged |
| ReplayPlayback.PlaybackEnds | web/src/replay/ReplayScrubber.tsx:34-40 | ticks advance 7.5 s each, never past the end, and playback stops exactly there |
| ReplayPlayback.PlayAgain | web/src/store/useReplayStore.ts:102-110 | pressing play at the end replays the recording back to the same state |
| ReplayPlayback.ReplayShowsLastServed | web/src/store/useReplayStore.ts:48-95 | end to end: at any scrub instant the frame holds exactly each aircraft's last served sample at or before it |
| ReplaySession.HandleStartReplay | web/src/map/MapView.tsx:212-233 | either the error is set, only because a store failed, with the old window kept, or the gateway's answer is loaded whole, stopped at its start |
| ReplaySession.ReplayFlights | web/src/map/MapView.tsx:205-209 | the map shows each aircraft once, by its last served sample at or before the head |
| ReplaySession.ReplayTo | web/src/map/MapView.tsx:205-233 | asking for a replay and scrubbing anywhere shows each aircraft, field by field, by its last served sample at or before the clamped head, and by a newest one either store held by then when everything stored decodes, no fetch is empty-handed and rows are not cut off |
| ReplaySession.NewestShown | cmd/apigateway/replay.go:115-155 | from what was served to what is stored: every aircraft a store held something of by then is shown, by nothing older than that |
| Geofence.GeofenceDetector.Observe | cmd/eventengine/geofence.go:46-74 | the zone loop's events, each naming the observed aircraft and instant and a checked zone's ID and name as it is now, and the recorded containment |
| Geofence.GeofenceDetector.SetZones | cmd/eventengine/geofence.go:83-87 | only the zone set changes |
| Geofence.GeofenceDetector.EvictBefore | cmd/eventengine/geofence.go:94-104 | exactly the aircraft last observed before the cutoff are forgotten |
| Geofence.RecordedExact | cmd/eventengine/geofence.go:58-61 | a checked zone ends up as it is now, every other ID as it was |
| Geofence.CrossingsExact | cmd/eventengine/geofence.go:58-72 | with unique IDs an event fires exactly for the zones with a baseline that differs from now, naming aircraft, zone, direction and instant |
| Geofence.CrossingsTell | cmd/eventengine/geofence.go:68-70 | IDs unique or not, every event names the observed aircraft and instant, and a checked zone's ID, name and containment now |
| Geofence.CrossingsOnce | cmd/eventengine/geofence.go:58-72 | each at most once |
| Geofence.OrderUnobservable | cmd/eventengine/main.go:384-388 | the order of the zones changes neither the events nor the record |
| Geofence.ObservationAccounted | cmd/eventengine/geofence.go:58-73 | within one observation the events on a zone alternate from its recorded state to its new one, IDs unique or not |
| Geofence.Conservation | cmd/eventengine/geofence.go:46-104 | on every run, for each aircraft and zone the events name, since the aircraft was last forgotten: they strictly alternate, and enters minus exits is last recorded containment minus baseline |
| Geofence.MergeZones | cmd/eventengine/main.go:376-389 | one zone per ID; with unique IDs on both sides exactly the overlay's zones and those of the base whose ID the overlay does not have |
| StaleSignal.StaleSignalDetector.Observe | cmd/eventengine/stalesignal.go:47-52 | the aircraft is tracked and unflagged, all others untouched |
| StaleSignal.StaleSignalDetector.Sweep | cmd/eventengine/stalesignal.go:59-80 | each aircraft is swept once, in any order, and reported exactly when it crosses the threshold |
| StaleSignal.EventFor | cmd/eventengine/stalesignal.go:94-106 | a report names the last sighting, is dated at the sweep that makes it, and counts the silence between in whole seconds |
| StaleSignal.TrackTellsSilence | cmd/eventengine/stalesignal.go:59-80 | between observations the track tells whether a silence has been seen, across evictions |
| StaleSignal.SilenceReportedOnce | cmd/eventengine/stalesignal.go:54-58 | a sweep reports an aircraft if and only if it is the first since the last observation to see a silence above the threshold |
| StaleSignal.ReportCount | cmd/eventengine/stalesignal.go:54-58 | so all sweeps between two observations report it once if one sees such a silence, else never |
| StaleSignal.ForgottenIff | cmd/eventengine/stalesignal.go:64-73 | between observations an aircraft is forgotten exactly when it has been reported and a later sweep finds it silent for more than six thresholds |
| StaleSignal.NeverObserved | cmd/eventengine/stalesignal.go:64-79 | an aircraft never observed is never reported |
| EventEngine.Engine.Callback | cmd/eventengine/main.go:235-261 | both detectors observe, in this order; the geofence events are returned |
| EventEngine.Engine.Tick | cmd/eventengine/main.go:428-439 | sweep, then eviction at six thresholds |
| EventEngine.HeldFromLastSeen | cmd/eventengine/main.go:237-254 | under any interleaving, what the geofence detector holds stems from the last observation, unless a callback for the aircraft is halfway through |
| EventEngine.HeldForSix | cmd/eventengine/main.go:282-288 | containment is held from its last observation until an eviction finds that more than six thresholds old |
| EventEngine.ForgottenUnreportedIff | cmd/eventengine/main.go:428-439 | under any interleaving of the two loops, containment is forgotten without a stale event since the last observation if and only if no sweep since has seen a silence above the threshold, which takes a callback or a tick caught between its two detectors |
| EventEngine.ForgottenAfterReport | cmd/eventengine/main.go:282-288 | with whole callbacks and ticks it is forgotten only after such an event, in the same tick at the latest |
| EventEngine.TornCallbackForgets | cmd/eventengine/main.go:237-254 | a run in which a tick between a callback's two detectors forgets without reporting |
| EventEngine.TornTickForgets | cmd/eventengine/main.go:428-438 | a run in which a callback between a tick's two detectors has the same effect |
| Text.AtoiItoa | internal/redisutil/flightstate.go:315-345 | integers are read back as written, within 64 bits |
| Text.AtoiExact | internal/redisutil/flightstate.go:325-345 | a number is read from decimal digits after an optional sign, within 64 bits, and from nothing else |
| Text.SplitPieces | internal/redisutil/flightstate.go:270-273 | joining undoes splitting |
| Text.SplitJoin | internal/redisutil/flightstate.go:221 | splitting undoes joining exactly for non-empty lists without the separator |
| Codec.DecodeEncode | internal/redisutil/flightstate.go:207-306 | every stored state of machine values decodes, to what storing made of it |
| Codec.DecimalFormatsExact | internal/redisutil/flightstate.go:212-223 | text formats with the assumed round trip exist |
| Codec.SourcesKeptIff | internal/redisutil/flightstate.go:270-273 | the source list survives exactly when it is not one empty name and no name has a comma |
| Codec.RoundTripIff | internal/redisutil/flightstate.go:207-356 | the codec is exact on a state if and only if: lower-case address, not stale, no present-but-empty text, listable sources |
| Codec.StoredOnce | internal/redisutil/flightstate.go:207-306 | storing what was read changes nothing more |
| Codec.OldHashDecodes | internal/redisutil/flightstate.go:275-283 | a hash without the military field decodes as not military |
| MergedStates.MergedRoundTripIff | cmd/normalizer/merge.go:67-87 | a merged state round-trips if and only if its squawk is not present but empty |
| MergedStates.EmptySquawkLost | cmd/normalizer/providers.go:200 | an empty squawk is read back as absent, nothing else changes |
| HotState.HotStore.WriteFlightState | internal/redisutil/flightstate.go:53-69 | executed, the hash is stored under the trimmed lower-case address and its index entry with it if the index accepts the position; it succeeds exactly when that is so and the answer arrives; not executed, or without an address, nothing changes |
| HotState.HotStore.ReadFlightState | internal/redisutil/flightstate.go:74-90 | the decoded hash, or not found, or the decode error |
| HotState.WriteIsRead | internal/redisutil/flightstate.go:53-90 | what an executed write stores is read back under its address and indexed at its latitude and longitude, and no other aircraft is touched |
| HotState.KeyOfSpelling | internal/redisutil/flightstate.go:36-54 | white space around an address and its case name the same hash, any other spelling another |
| HotState.TrimExact | internal/redisutil/flightstate.go:54 | trimming takes white space off both ends and nothing else |
| FlightModel.LowerExact | internal/redisutil/flightstate.go:38-40 | lower-casing leaves no upper-case letter and nothing else changed, and makes two texts equal exactly when they spell the same letters |
| HotState.HotStore.PruneExpiredGeoMembers | internal/redisutil/flightstate.go:98-131 | with nothing expiring meanwhile exactly the live part of the index stays, which is every live hash if and only if none was missing; the count is what was removed |
| HotState.HotStore.QueryFlightsByBBox | internal/redisutil/flightstate.go:146-172 | the scan branch never fails and returns exactly the live indexed flights in the box, strictly ascending; all the live ones if every live hash is indexed or the box lies within the index's range |
| HotState.QueryCompleteIff | internal/redisutil/flightstate.go:146-172 | such an answer misses no live flight of its box if and only if the index does not |
| HotState.CompleteInRange | internal/redisutil/flightstate.go:133-145 | in consistent stores it misses none of a box within the index's range, nor any when every live hash is indexed |
| HotState.WriteKeepsIndexedIff | internal/redisutil/flightstate.go:62-68 | a write leaves every live hash indexed if and only if its address is empty, its position can be indexed or its name is indexed already |
| HotState.FiledDecodes | internal/redisutil/flightstate.go:155-164 | what was written always decodes, under its own name, so no query fails |
| HotState.StepSound | internal/redisutil/flightstate.go:53-131 | every step keeps the stores consistent - a live hash that is not indexed was last written at a position the index refuses - and what a prune is about to remove dead |
| HotState.AlwaysIndexed | cmd/normalizer/main.go:181-205 | on every run of the sequential merge loop that writes only positions the index accepts, whatever expires and when, every live hash is indexed |
| HotState.AlwaysIndexedInRange | cmd/normalizer/main.go:181-205 | on every run at all, every live flight at a position the index accepts is indexed |
| HotState.RefusedIsUnindexed | internal/redisutil/flightstate.go:62-68 | one first write beyond the index's range leaves a live hash unindexed |
| HotState.PolarFlightUnindexed | internal/redisutil/flightstate.go:62-68 | for instance any aircraft first reported at 86 degrees north, with formats that exist |
| HotState.PruneLeaves | internal/redisutil/flightstate.go:98-131 | a prune whose checks are answered key by key, hashes expiring around them in any order, leaves exactly the names its check found live, and removes no live name |
| HotState.PruneAgreesIff | internal/redisutil/flightstate.go:91-97 | afterwards index and hashes agree if and only if every live hash was indexed before and nothing found live has expired since |
| HotState.WriteDuringPrune | internal/redisutil/flightstate.go:107-126 | a write between check and removal, at a position the index accepts, would leave a live flight unindexed exactly when the check had found it dead |
| NaturalOrder.ScanNumber | automation/activities/tasks.go:154-160 | the digit run's end and its wrapped value |
| NaturalOrder.NaturalLess | automation/activities/tasks.go:130-150 | the two-cursor loop decides lexicographic order on characters and numbers |
| NaturalOrder.CompareStep | automation/activities/tasks.go:132-148 | one loop step compares the two next tokens |
| NaturalOrder.NaturalIsStrictWeak | automation/activities/tasks.go:126-150 | irreflexive, asymmetric, transitive, and incomparable exactly when the tokens are equal |
| NaturalOrder.RunsCompareWrapped | automation/activities/tasks.go:154-160 | digit runs compare by value modulo 64-bit wrap-around, numerically below 2^63 |
| NaturalOrder.RunsCompareNumericallyIff | automation/activities/tasks.go:126-129 | different numbers below 2^64 compare numerically if and only if both or neither are below 2^63 |
| TaskQueue.PromptQueue.GetNextTask | automation/activities/tasks.go:58-118 | none exactly when all is done, otherwise an uncompleted task no uncompleted one precedes |
| TaskQueue.PromptQueue.MarkComplete | automation/activities/tasks.go:163-170 | exactly this task's marker is added |
| TaskQueue.TaskIDExact | automation/activities/tasks.go:120-124 | an ID is the path without its ending, separators replaced by dashes |
| TaskQueue.SameIDIff | automation/activities/tasks.go:120-124 | two prompts share an ID exactly when they differ in nothing but separators and dashes |
| TaskQueue.PromptQueue.PipelineWorkflow | automation/workflow/pipeline.go:48-159 | keeps the order whatever fails, marking complete included, and ends without an error only when the queue is empty |
| TaskQueue.CompletingNextKeepsOrder | automation/workflow/pipeline.go:154-156 | completing the next task leaves no smaller one uncompleted |
| TaskQueue.RunsInOrder | automation/workflow/pipeline.go:48-159 | over every run from no markers, with distinct IDs, no completed task has a smaller uncompleted one |
| TaskQueue.CompletionsSorted | automation/activities/tasks.go:95-117 | tasks complete in natural order, none twice |
| TaskQueue.SharedIDsSkip | automation/activities/tasks.go:120-124 | two paths with one ID break the order: distinct IDs are needed |

## Left out

- Coverage is stated from any moment without a connection, or on a served connection whose filter is the browser's viewport, after which the viewport stays put, fetches are full and retention does not pass the resume point between check and fetch; order is stated without any of these. `ShortFetchIsSilent` shows the fetch hypothesis is needed.
- A viewport that settles on a served connection: what was published before that under the old viewport is not tracked, `RecoveredIff` and `DropRecoveredIff` speak of a closed connection.
- Abandoned replay requests (the page drops their answer) and the clock and viewport they are made from, which are parameters.
- The gateway's client messages after the handshake are pan steps; malformed ones and the handshake's parse errors are not modelled.
- One browser and one connection at a time; other clients and other gateways appear only through the stream and the position of the hub's tail.
- The resume point of a client that has none yet, and of one acknowledged at 0 (the number is omitted on the wire): nothing is promised about what it missed.
- Go's zero `time.Time`, clock skew between machines and time zones: instants are integers, non-zero where the code relies on it.
- HistoryWriter: a failed insert means no row was written, redelivered messages and the table's own uniqueness are not modelled, and runs take readings after an eviction to come at cutoff plus interval or later (`EvictionUnobservableIff` says what that hypothesis buys).
- TokenBucket: exact reals, so Lua's number-to-text rounding is not captured; whole runs assume a clock that does not go back, though the script's own handling of that is modelled.
- StaleSignal.EventFor: whole seconds are cut from exact durations, where the source goes through a float.
- MergedRoundTripIff: float and timestamp text formats are parameters assumed to read back what they wrote for the values they carry; JSON and provider payload parsing are a partial function from raw reports, and the icon classifier is a parameter assumed never to return empty text.
- CollectReplaySamples: the exact contents are stated for a stream whose messages all decode; with undecodable ones `CollectJetStreamSamples` says which prefix is answered. SQL is a filter over the table in time order, so the order of rows with equal instants is that of the table.
- Request parsing, the 2-hour limit and the response encoding of GET /replay.
- HotState.HotStore.QueryFlightsByBBox: only the scan branch; GEORADIUS, the radius of a box and geohash rounding are left out, and nothing is claimed about the radius covering the box. A hash that cannot be read for want of a connection is not modelled.
- HotState.HotStore.WriteFlightState: the range of the index, and that a refused GEOADD undoes nothing, are Redis's own rules and not stated in the code.
- Strings are byte strings; lower-casing and trimming are ASCII.
- Geometry inside a zone, dead reckoning, map rendering and the rest of the user interface.
- The altitude, speed and watchlist detectors and the watchlist half of the refresh loop: simpler copies of the two detectors modelled here.
- EventEngine: events are those the detectors return; the engine logs and skips one it fails to publish, and that is not modelled.
- TaskQueue.PromptQueue.PipelineWorkflow: the inner review and check loops either let the prompt complete or end the run; the activities they call, their retries and their waiting are not modelled.
- The HTTP adapters, sessions, CRUD handlers, migrations, health and telemetry: they move data in and out and keep no state these properties depend on.
