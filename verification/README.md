# Verification model of Precog

Precog is a caching HTTP middleware. It keeps responses in a two-tier in-memory store, coalesces
concurrent requests for one resource, and prefetches the routes a Markov model predicts. This
project models the four parts of it that are hardest to get right and proves what they promise.
`dafny verify dfyconfig.toml` checks all of it.

## The four parts

**The request protocol** (`Protocol*.dfy`, `InflightGroup.dfy`, `ResponseWriter.dfy`,
`StoreBridge.dfy`). Any number of requests and prefetch jobs, for any keys, are interleaved one
synchronisation step at a time: store lookup, variant lookup, join or create a call, re-check,
handler, store, store the variant, assign the result, delete the key, close the call. The
environment decides what a read returns, how the handler ends (whole response, stream, panic), and
when a follower is cancelled. One inductive invariant (`ProtocolSafety.Inv`) carries single flight,
one handler run and one response head per request, the caching policy, and progress. Further modules
count the handler runs for a key, say which steps answer a request without running it
(`ProtocolDirectives`), which request or job produced what is stored and shared (`ProtocolOrigin`),
when a coalesced entry fits a follower (`ProtocolVary`), what a request gets by how its own handler run
ended (`ProtocolOutcome`), what its call publishes (`ProtocolResult`), and what is stored, how often, under
which keys, and who may share a call (`ProtocolPolicy`).
`InflightGroup` is the coalescer as it keeps its state, call objects shared between leader and
followers; each of its methods is one effect of the step machine. `ResponseWriter` models the capturing
writer as a class over the client's response, and `WriterOutcome` says from the handler's calls alone
when it streams and what head the client gets. `StoreBridge` shows that the entries of the protocol are
those of the two-tier store, `StoreJoin` that what the calls of that store do is what the protocol allows
its environment, and `JoinedMachine` runs the two together. Each of its runs is a run of the protocol, but
for a reference flag, that a response is complete, which the bytes in the store do not have
(`ProtocolAlike`); `JoinedPanic` is such a run.

**The two-tier store** (`Bytes`, `HeaderCodec`, `Arena`, `Shard`, `ShardedStore`, `TieredStore`,
`TierMachine`, with `Mime`, `Vary`, `HeaderMerge` and `Replay`). Real bytes: little-endian fields, the
header codec with its loops over a buffer, records appended to a ring, and the index from hashes to
offsets. The layers refine each other: ring and index, log of records, history of successful
operations. Go enumerates a map in any order, so what depends on the order is a relation
(`IsEncoding`, `IsPersisted`, `IsRecovered`) and every result holds for each order. `TierMachine`
interleaves any number of calls on the two tiers, one slot access or locked operation at a time; what
a Get answers there is what the request protocol assumes of a store read. `TierLimits` says exactly
when a Get can still answer without a new Set, `TierReliable` when the store never misses, and `TierAlone`
what one call does that no other interrupts.

**The predictors** (`Predictors`, `DenseCounters`, `PredictorRefinement`, `PredictionLists`,
`PredictorClasses`, `TransitionLog`, `RegistryMachine`, `CounterMachine`, `RescaleMachine`,
`RescaleAlone`, `RescaleDrift`). The flat matrix with 32-bit wrap-around written out, the nested-map
predictor as its simple form, the registry that interns routes, and the pieces that are lock-free in the
program, as interleaved step machines: interning, counting, and halving a row while others count into it
or halve it too. What both predictors count and list is read off the log of requests (`TransitionLog`).

**The keys** (`CacheKey`, `VariantKey`, with `Sorting`, `Strings` and `Division`). The text fed to the
hash, with the hash an arbitrary function, and the hexadecimal rendering. `KeyReading` and `Spelling` say
byte by byte how the keys read and how the names are spelled, letter by letter.

## Where the code and its documentation part

The model follows the code. Each difference below has a lemma.

- One execution per burst of misses (README.md:14): a follower whose request is cancelled falls
  through and runs the handler again (`CancelledRunsHandler`, `TwoRunsAfterCancel`). With a reliable
  store, and responses without Vary that are all stored, the handler runs exactly once for every
  cancelled follower and at most once besides (`RunsCounted`).
- Client directives are said to be fully respected (README.md:71), and the comment at middleware.go:85
  says that both `no-cache` and `no-store` skip the lookup. `no-store` does not: a lookup answers
  whatever it says (`HitIff`, `NoStoreStillHits`). `no-cache` skips the first lookup only. The leader's
  re-check does not look at it, and an authenticated request that may coalesce with its own session
  can be answered there, or by a call it waits for, without running the handler; every other
  request with `no-cache` runs it (`NoCacheRuns`, `NoCacheStillServed`).
- A prefetch job recovers from a panic of the handler and then looks at the recorder, whose status
  is 200 by default. With any store, a partial response is stored only when such a handler panicked and
  left what passes for a storable response, and with one that rejects nothing exactly then
  (`PartialStoredIff`, `PanicFillsCache`), on the two tiers as well (`PanicReachesStore`).
- A handler that announces an event stream after it has written body bytes leaves those bytes stuck in
  the buffer, behind the stream; the writer's invariant holds throughout exactly when no call does
  that (`RunSoundIff`). The bytes then stay in order exactly as long as no write overtakes them
  (`RunConservesIff`), and the client ends up with all of them, in order, exactly when they are flushed
  in the end, and not behind something else that shows (`DeliveredIff`, `StrandingLosesBytes`,
  `FlushSavesBytes`). The single head survives in any case (`HeadOnce`).
- A response that itself carries `X-Precog-Vary-...` headers gets them as Vary constraints when it
  is read back from the arena, so that the two tiers may decide differently. The decision is the
  same for all requests exactly when every such header is overwritten by a recorded one, or the
  response has `Vary: *` (`DecisionSurvives`; `OwnVaryHeaderChangesDecision` is a response that fails).
- The header fields are 16 and 32 bits wide and truncate silently: the codec is a round trip
  exactly on headers that fit (`RoundTrip`; `LongNameIsLost` is one that does not), and a stored
  response reads back unchanged exactly when it fits (`ReadBackExact`).
- The capacity test adds two 32-bit numbers: it is the intended test exactly for shards below 2 GiB
  (`CapacityTestExact`).
- Del is said to invalidate both tiers (store_tier.go:109). A Get that races with it may bring the
  deleted entry back into L1, where later Gets find it (`PromotionOutlivesDel`, and the run from an
  empty store in `DeletedEntryComesBack`). A Get that starts later can answer without a new Set
  exactly when an unexpired copy is in L1, in the arena, or on its way into L1 (`LaterAnswersIff`);
  with one call at a time, a hit is always the last Set.
- The key is fed the decoded path, which may hold a "?": then a path can be told from another path
  with a query only up to that sign (`FedEqualIff`, `TargetsMixedIff`, `QuestionInPathCollides`).
- A host is told from the path behind it only by its space, and by holding no slash
  (`SlashInHostCollides`); Go's HTTP server refuses such hosts.
- A coalesced follower is handed the call's entry without a Vary check of its own, so it may be handed a
  response for another value of a header in Vary (`FollowerMismatched`). Whoever led the call, the entry
  fits exactly when the follower sent, for every header in Vary, what the request or job that produced
  the entry sent (`FollowerMatchIff`).
- For a prediction limit below one the map predictor lists everything. The dense one lists nothing for
  zero and panics for a negative limit if there is something to list (`PredictionsAgreeIff`,
  `LimitBelowOneDiffers`).
- A variant is addressed by a hash of the request's values, joined by ampersands (middleware.go:346-361).
  Different values can make one text, as "x&b=y" with "z" does and "x" with "y&b=z"
  (`AmpersandCollides`); two signatures share one exactly when they fall into the same segments
  (`SameTextIff`), and without ampersands in them only if they are the same (`PlainTextIff`).
- Rescaling is said to preserve the probabilities of a row (predictor_dense.go:162-163). One rescaling
  that no other overlaps leaves the total above the sum of the row by exactly the number of recorders
  whose cell was halved between their two adds (`LoneRescale`, `DriftAfterRescale`). But every add to
  the total while it is saturated starts another rescaling, and two that overlap can halve the cells
  twice and the total once (`RescaledTwice`). However they overlap, what the last one to store the total
  left uncounted is exactly what the total is out by (`TotalIs`, `ExactIff`).
- Rescaling is said to exclude overflow (predictor_dense.go:163). With one request at a time it does
  (`RecordKeeps`). With any interleaving, no 32-bit add of a row ever wraps exactly when its total and
  the transitions recorded from there on stay together below 2^32: beyond that, recorders that pause
  before they rescale can carry the total past it (`NoAddWraps`).

## Model

| member | source | states |
|---|---|---|
| ProtocolTheorems.SingleFlight | coalesce.go:62-111 | In every reachable state at most one thread executes the leader's function of a key, and its call is the one in the map |
| ProtocolTheorems.OwnCallOnly | coalesce.go:96-104 | The delete by key always removes the leader's own call; the close always finds its own call still open, so no channel is closed twice |
| ProtocolTheorems.PublishedIsFrozen | coalesce.go:100-104 | The result of a closed call never changes in any continuation of any run |
| ProtocolTheorems.FollowerGotPublished | coalesce.go:66-74 | A follower that was not cancelled returns exactly the published result (or panic error) of the call it joined, which is for its own key |
| ProtocolTheorems.OneRunOneHead | middleware.go:133-343 | Each request runs the handler at most once, has sent exactly one head when done, and never falls through to the uncoalesced execution as a leader |
| ProtocolOutcome.OwnRunDecides | middleware.go:161-343 | In any run, a finished request whose handler returned a response is answered with exactly that response, whichever of the ways it came back; with a stream after a stream; a panicked one ran a handler that panicked, and has sent a head exactly if that had streamed; and one that ran none was answered from the store or a call |
| ProtocolOutcome.OwnIsReturned | middleware.go:250-342 | A response a request gets as its own is the one its handler returned, in an event of the run: status and body unchanged, with its values of the headers in Vary recorded |
| ProtocolOutcome.HitWasFound | middleware.go:85-110 | A hit is what a lookup of that very request found in a step of the run, and the request is one that looks up, matches and is permitted |
| ProtocolOutcome.SharedWasGiven | middleware.go:138-245 | A request answered without running the handler and without a hit got the entry that its own re-check found, or that the call it waited for was closed with |
| ProtocolResult.PublishedIs | coalesce.go:83-104 | Every closed call carries what became of its leader: with no handler run an entry already stored; after a run whose response may be kept exactly that response, recorded for the leader; else none, with the error that says unshareable for a request, streaming, or panicked |
| ProtocolPolicy.CallBoundary | middleware.go:119-130 | Whoever leads, waits for or was served by a call may share it: a call for all only without directives and on a public route or with nothing of its own; a call per user only of that session, authenticated |
| ProtocolPolicy.OneCallOneSession | middleware.go:119-130 | Who waits for a call asked for the same as its leader, and both are of one authenticated session or both may share with anyone |
| ProtocolPolicy.LooksUpIff | middleware.go:85-87 | A request looks up the store exactly when it sent no no-cache; a job always does |
| ProtocolPolicy.MissGoes | middleware.go:116-133 | A request whose lookup does not answer goes on to a call exactly when it may share one, and else runs alone |
| ProtocolPolicy.SetsMade | middleware.go:195-209 | A finished request or job has made exactly the Sets its own handler run asks for: none, one, or two where a Vary list adds the variant, which a job never does |
| ProtocolPolicy.StoredIff | middleware.go:203-209 | Under any key, what is ever in the store is exactly what some event of the run stored there: under the own key, or the variant made of the headers the request sends for the names in Vary |
| ProtocolPolicy.ReadsUnder | middleware.go:85-97 | A lookup or re-check finds only what was stored under the own key, and one of a variant only what was stored under the variant the request itself makes |
| ProtocolPolicy.JobSkips | prefetcher.go:171-175 | A prefetch job that finds its key at first changes nothing and runs nothing |
| ProtocolTheorems.OnlyStorableStored | middleware.go:195-213 | Whatever was ever stored in any run, by leader, passthrough or prefetch job, has status 200, no Set-Cookie, no no-store or private, and no Vary of a star, each written out |
| ProtocolTheorems.DeliveryPolicy | middleware.go:99-130 | A cached or coalesced entry has these properties too and reaches only requests that are unauthenticated, on a public route, or given a response marked public; a hit also has the value the request sends for every recorded header and runs no handler |
| ProtocolTheorems.NoDeadlock | coalesce.go:66-110 | In every reachable state with an unfinished thread some thread can step: a blocked follower has a live leader or a published result |
| ProtocolTheorems.RunBounded | coalesce.go:62-111 | Every run takes at most twenty steps for each request or job, by a ranking that each step decreases |
| ProtocolTheorems.RunCompletes | coalesce.go:83-110 | Every run, panicking and cancelled ones included, can be continued until every request has returned |
| ProtocolSafety.RunInv | coalesce.go:62-111 | The protocol invariant holds in every state of every interleaving of any number of requests and jobs |
| ProtocolSafety.StepKeeps | coalesce.go:62-111 | Any enabled step of any thread keeps the protocol invariant |
| ProtocolInvariant.StepThreadKeeps | middleware.go:133-278 | Every branch of lookup, leader function, cases A to C and passthrough keeps what a thread knows of itself, given the call it waited on |
| ProtocolOnce.AtMostOneCommit | middleware.go:138-209 | With a store that neither evicts nor expires and responses without Vary, at most one leader on a key ever stores a response, whatever the interleaving |
| ProtocolPolicy.OneLeaderStores | middleware.go:138-209 | The same by the events of the run: at most one leader of a call for all under a key ever makes a Set |
| ProtocolSingleRun.RunsCounted | middleware.go:138-276 | Over every interleaving of coalescable requests and prefetch jobs for a key, with a reliable store and storable responses without Vary, the handler runs by leaders at most once, late leaders included, and exactly once more for every cancelled follower |
| ProtocolSingleRun.AtMostOneRun | middleware.go:138-213 | So one execution serves a whole burst of which no follower is cancelled |
| ProtocolLimits.PartialStoredIff | prefetcher.go:200-251 | With any store, a partial response is stored, or about to be, only if some prefetch job's handler panicked and left a storable-looking response; with a store that rejects nothing, exactly then |
| ProtocolLimits.CancelledRunsHandler | coalesce.go:68-70 | A cancelled follower can always go on to run the handler itself |
| ProtocolLimits.TwoRunsAfterCancel | coalesce.go:68-70 | A concrete run of two coalescable requests in which the handler runs twice |
| ProtocolLimits.PanicFillsCache | prefetcher.go:200-251 | A concrete run from an empty store in which a prefetch job whose handler panics before writing stores an empty 200 response |
| ProtocolDirectives.HitIff | middleware.go:85-114 | In any run, a request ends as a hit exactly when one of its lookups, primary or variant, found a matching and permitted entry and it sent no no-cache; no-store does not matter |
| ProtocolDirectives.NoRunIff | middleware.go:85-245 | The handler has not run for a finished request exactly when a lookup, the re-check of its own call, or the call it waited for answered it |
| ProtocolDirectives.NoCacheRuns | middleware.go:120-159 | A finished request with a client no-cache has run the handler, except exactly when it is authenticated, may coalesce with its own session, and a re-check or the call it waited for answered it |
| ProtocolDirectives.NoCacheStillServed | middleware.go:127-159 | A concrete run in which a no-cache request is answered with a stored response |
| ProtocolDirectives.NoStoreStillHits | middleware.go:85-111 | A concrete run in which a no-store request is answered by the lookup |
| ProtocolVary.RecordedMatches | middleware.go:372-385 | A response recorded for a request matches that request |
| ProtocolVary.FollowerMatchIff | middleware.go:224-245 | In any run, the entry a request is handed by a call, whoever led it, was produced for the same key, and passes the request's own Vary check exactly when it sent what any request or job that produced the entry sent for every header in Vary |
| ProtocolVary.FollowerMismatched | middleware.go:224-245 | A concrete run of two requests in which a follower is handed a response that does not match it |
| ProtocolVary.FollowerLikeLeaderIff | middleware.go:133-159 | For a call led by a request, a re-check that finds another request's response included: the entry fits the follower exactly when it sent what the leader sent for every recorded header |
| ProtocolOrigin.RunOrigin | middleware.go:133-278 | In every reachable state, all that is stored, in a call, or held by a thread to be shared was returned by the handler to some request or job for the same key, with that one's headers recorded, and policy allowed it to be stored |
| ProtocolOrigin.StoredWasProduced | middleware.go:195-213 | Everything ever stored under a key or variant was produced for that key by some handler run of the same execution |
| ProtocolOrigin.DeliveredWasProduced | middleware.go:99-245 | So was every hit and every coalesced delivery, for the key of the request that gets it |
| ProtocolOrigin.ProducerMayShare | middleware.go:195-201 | What is produced for storing has status 200 and nothing against it, and comes from a request that is unauthenticated, on a public route, or got a response marked public, and that sent no no-store unless it is a prefetch |
| ProtocolOrigin.ProducedExactly | middleware.go:195-213 | The converse as well: the end of a handler run produces something to store exactly when the response is 200, sets no cookie, is neither no-store nor private, has no Vary of a star, and may be shared by the rule for a request or for a job |
| ProtocolOrigin.AuthenticationIsolated | middleware.go:195-201 | In any run, a response to an authenticated request on a private route, not marked public, reaches no request as a hit or coalesced, and no hit or coalesced delivery that is not public reaches an authenticated request on a private route |
| InflightGroup.InflightGroup.Enter | coalesce.go:63-81 | Joins the call in flight under the key, or makes the caller the leader of a new one; the state changes as the protocol's step says |
| InflightGroup.InflightGroup.Register | coalesce.go:76-80 | A new open call object appears under the key, distinct from all earlier ones, which are untouched |
| InflightGroup.InflightGroup.Fill | coalesce.go:93 | Assigns the result to exactly the leader's call object |
| InflightGroup.InflightGroup.Remove | coalesce.go:96-98 | Takes the key, and nothing else, out of the map; followers keep their call object |
| InflightGroup.InflightGroup.Publish | coalesce.go:100-104 | Closes exactly that call, with the panic error in place of its error after a panic |
| InflightGroup.InflightGroup.Wait | coalesce.go:71-72 | A follower reads the result of the call object it holds, even after the key is gone |
| StoreBridge.MatchesView | store.go:21-38 | The protocol's Vary decision is the entry's own, for every canonical request header |
| StoreBridge.HitViewSurvives | sharded_store.go:116-193 | What either tier answers shows the protocol the same policy flags, Vary, recorded constraints and body as the entry the caller stored |
| StoreJoin.AnswerAllowed | store_tier.go:44-74 | Once both have seen the same Sets, what a Get of the two tiers answers, under any interleaving, is a read the protocol allows |
| StoreJoin.MissAllowed | store_tier.go:44-74 | So is a miss for want of an unexpired record, of a reliable store too if every Set fitted and nothing expired |
| StoreJoin.ExpiredMissAllowed | store_tier.go:44-74 | So is a miss because the entry expired between the read and the last check |
| StoreJoin.SetAllowed | store_tier.go:77-99 | A Set that writes its record is a successful Set of the protocol, of any response that looks like the entry, complete or not; a refused one is an unsuccessful one that a reliable store never has; and both have still seen the same Sets |
| StoreJoin.OtherStepsSeeNothing | store_tier.go:101-119 | Slot accesses, promotions and deletions leave what was seen as it is |
| StoreJoin.StampedFaithful | middleware.go:203-208 | An entry of the kind RunJoins is about stays one when it has been stored, with its internal headers, as when it is stored again for its variant |
| ProtocolAlike.StepAlike | middleware.go:133-278 | Every step of a thread is the same whether the responses it handles are complete or not, but for the handler's own end |
| ProtocolAlike.ActAlike | middleware.go:133-278 | What one of two states does that differ only in such flags, the other does, and they still differ only in them |
| JoinedMachine.StepJoins | middleware.go:85-213 | Each step of the protocol running on the two tiers is, but for the flag of what a lookup found, a step the protocol allows on its own, partial responses included |
| JoinedMachine.RunJoins | middleware.go:85-213 | Any interleaving of requests and jobs, panicking ones included, with the store calls they make has a run of the protocol alone with the same steps, that ends alike but for such flags, and is a run of the store alone; so what holds of the protocol's runs holds on the two tiers |
| JoinedMachine.StoresAny | middleware.go:204-208 | Whatever response a thread is about to store, a partial one too, a Set of an entry that looks like it can store, and it is then among those Set under its key |
| JoinedMachine.JointlyIsolated | middleware.go:195-201 | Authentication isolation, on the two tiers |
| JoinedPanic.PanicReachesStore | prefetcher.go:200-251 | A concrete run of the two together from nothing, in which a job's handler panics and an empty 200 response ends in the arena and is seen by the protocol as stored |
| StoreBridge.ExtractVary | middleware.go:372-385 | The loop records the request's value of each non-empty trimmed name in the Vary header |
| StoreBridge.ExtractKeys | middleware.go:372-385 | For a Vary other than empty and star, a name is recorded exactly when it is not empty, has no space at either end, and some part between commas is that name with space around it; its value is what the request sends |
| Strings.TrimIs | middleware.go:379 | Trimming takes the space on both sides of a text that has none at its ends, and nothing of it |
| Strings.TrimIff | middleware.go:379 | The trimmed text is the one without space at its ends that the text pads |
| Strings.NamesInOrder | middleware.go:347-358 | The names of a list are its trimmed non-empty parts, in order |
| Spelling.ViewSays | middleware.go:195-201 | What the protocol decides by is what the headers say: whether Cache-Control mentions no-store, private or public anywhere, whether there is a Set-Cookie, whether the first Vary is empty or a star, status and body |
| Spelling.ContainsIff | middleware.go:198-201 | A text is found at any place of another |
| Spelling.CaseIs | normalizer.go:77-83 | Small and capital letters: the 26 letters move by 32, other bytes stay |
| Spelling.TokenIs | middleware.go:381 | What a header name may be made of, sign by sign |
| Spelling.CanonicalIs | middleware.go:381 | The canonical form of a name, letter by letter; a name that is no token stays as it is |
| Spelling.GetIs | middleware.go:381 | A header's value is the first under the canonical name, or empty |
| StoreBridge.ExtractSatisfied | middleware.go:372-385 | The recording request satisfies the constraints recorded from it |
| StoreBridge.ExtractView | middleware.go:372-385 | What the protocol records for a response is what extractVaryMap puts in the entry |
| ResponseWriter.StepKeeps | response_writer.go:40-121 | Each call keeps conservation of bytes, the bounded buffer, the empty buffer while streaming and the single head exactly when it does not announce a stream over buffered bytes |
| ResponseWriter.RunSoundIff | response_writer.go:40-121 | A whole handler run keeps all of that throughout exactly when no call of it strands buffered bytes |
| ResponseWriter.StepConserves | response_writer.go:40-89 | Each call keeps sent and buffered bytes in order exactly when it is no write that visibly overtakes buffered bytes |
| ResponseWriter.RunConservesIff | response_writer.go:40-89 | The bytes stay in order all along a handler run exactly when no write of it overtakes |
| ResponseWriter.DeliveredIff | response_writer.go:40-121 | At the end the client has exactly the bytes written, in order, exactly when none are stuck behind the stream and none were flushed too late |
| ResponseWriter.FlushInTime | response_writer.go:79-89 | A flush before anything else was sent is never too late |
| ResponseWriter.NothingToOvertake | response_writer.go:55-60 | A write overtakes only when bytes are still buffered and it has bytes itself |
| ResponseWriter.FlushSavesBytes | response_writer.go:79-89 | A concrete handler that strands a byte and delivers it by a flush |
| ResponseWriter.EqualBytesDoNotShow | response_writer.go:55-60 | A state in which overtaking with an equal byte goes unnoticed and with another one does not |
| ResponseWriter.HeadOnce | response_writer.go:40-121 | For every handler: exactly one head once streaming and none before; overflow and a written head each go with streaming; until then nothing is sent and the buffer is the whole body |
| WriterOutcome.HandlerShows | response_writer.go:40-134 | From the calls alone: the writer streams from the first call that starts it; the one head has the code of the last WriteHeader up to that call, or 200 if there was none or it was 0; before it, status, header and body captured are those of the calls so far |
| WriterOutcome.StreamsIff | response_writer.go:40-89 | It streams exactly when some call of the handler is a flush, a WriteHeader that announces an event stream or an upgrade, or a write with which a positive limit is exceeded |
| ResponseWriter.StrandingLosesBytes | response_writer.go:40-60 | A concrete handler whose first byte never reaches the client before its second |
| ResponseWriter.CapturingResponseWriter.WriteHeader | response_writer.go:40-52 | The object's new state, and the client's, are the specified step's; later status codes are ignored once the head is out |
| ResponseWriter.CapturingResponseWriter.Write | response_writer.go:55-76 | As specified: pass through, overflow with the head and the buffered bytes first, or buffer |
| ResponseWriter.CapturingResponseWriter.Flush | response_writer.go:79-89 | As specified: switch to streaming, head first, then the buffered bytes |
| ResponseWriter.CapturingResponseWriter.CommitHead | response_writer.go:106-121 | Sends one head, at most once, over a merge of every captured value into the client's headers, whatever form the captured keys have |
| HeaderMerge.AddAll | response_writer.go:111-115 | Adding value by value gives the client's headers with all captured values under their canonical names, in the order of some enumeration of the keys |
| HeaderMerge.MergeUnique | response_writer.go:111-115 | The order does not matter unless two keys are one name canonically |
| HeaderCodec.RoundTrip | sharded_store.go:270-340 | For every header map and every enumeration order, decoding what was encoded gives the same header exactly when counts and lengths fit their fields |
| HeaderCodec.LongNameIsLost | sharded_store.go:284-290 | A header name of 65536 bytes comes back differently |
| HeaderCodec.OneHeader | sharded_store.go:270-302 | The bytes of one header with one value, field by field, in little-endian fields of 2, 2, 2 and 4 bytes |
| Bytes.LEDigit | sharded_store.go:253-259 | Byte i of a little-endian field is the i-th digit of the number to the base 256 |
| HeaderCodec.DecodedFits | sharded_store.go:304-340 | Whatever bytes it reads, the decoder yields a header whose counts and lengths fit the fields |
| HeaderCodec.CutBetween | sharded_store.go:311-325 | Of bytes that end between headers, all headers so far are kept, whatever number was announced |
| HeaderCodec.CutValue | sharded_store.go:326-336 | Of bytes that end within a value, the values before it are kept, and reading goes on behind its length |
| HeaderCodec.EncodeHeaders | sharded_store.go:270-302 | The bytes written are an encoding of the header in some order and fill the precomputed size exactly, all writes in bounds |
| HeaderCodec.EncodedSize | sharded_store.go:274-280 | The precomputed size is that of the headers in whichever order they are written |
| HeaderCodec.DecodeHeaders | sharded_store.go:304-340 | Total, in bounds and terminating on arbitrary bytes, with the specified result |
| HeaderCodec.ReadValues | sharded_store.go:326-336 | The value loop stops where the specification stops, at the end of the input or of a cut value |
| Arena.ParseSerialized | sharded_store.go:130-175 | Reading at the front of a record, whatever follows it, gives a miss for another hash or past the expiry, and else that record's fields |
| Arena.FlattenAt | sharded_store.go:250-266 | The bytes from a record's offset on begin with exactly that record |
| Arena.PutKeeps | sharded_store.go:239-267 | A Set keeps the arena consistent and within its size; the record is found, other hashes are kept or, after a reset, all gone |
| Arena.RemoveKeeps | sharded_store.go:343-351 | A Del keeps the arena consistent and takes away that hash only |
| Arena.ReadableIff | sharded_store.go:116-268 | Over every run, a record can be found under a hash exactly when some Set stored it and no later event was a Set or Del of the hash, Close, or the first Set that did not fit |
| Arena.FieldsAt | sharded_store.go:252-264 | Where in a record each of its fields is, of 8, 8, 2, 2, 4 and 4 bytes, and the payload behind them |
| Arena.FitsIs | sharded_store.go:229-248 | A record is accepted exactly when the shard is open and holds 28 bytes more than its parts, and empties the shard exactly when it does not fit behind the bytes in it |
| Arena.UsedIs | sharded_store.go:250-266 | The bytes in a shard are 28 and the parts of each record since it was last emptied |
| Shard.ReadBackExact | sharded_store.go:116-193 | An entry read back is the stored response exactly when status, content type and header fit their fields |
| Shard.CapacityTestExact | sharded_store.go:240-248 | The 32-bit capacity test is the intended one for all fill levels exactly when twice the shard size is below 4 GiB |
| Shard.AddressablePlain | sharded_store.go:223-241 | For an entry without headers, the records below 4 GiB that SetByHash is about are those of 28 bytes, content type and body |
| Shard.CacheShard.GetByHash | sharded_store.go:116-193 | A miss, or the record found for the hash with its header decoded and its Vary map recovered; a miss exactly when nothing is found or the clock is past a non-zero expiry; never out of bounds |
| Shard.CacheShard.SetByHash | sharded_store.go:202-268 | Stamps expiry and persists Vary in the caller's entry in any case; succeeds exactly when open and the record fits a shard; then the hash finds the record, and other hashes are kept or all dropped by a reset |
| Shard.CacheShard.Append | sharded_store.go:235-267 | The ring stays the concatenation of the records since the last reset, with the index at the latest record of each hash |
| Shard.CacheShard.Del | sharded_store.go:345-350 | The hash is forgotten, on a closed shard too, and the ring keeps its bytes |
| Shard.CacheShard.Close | sharded_store.go:355-361 | Nothing is found and nothing accepted any more |
| Sharded.ShardedStore.constructor | sharded_store.go:45-76 | Distinct empty shards of the configured size, 64 KiB at least |
| Sharded.ShardedStore.GetByHash | sharded_store.go:116-193 | Answers from the record readable under the hash in its own shard |
| Sharded.ShardedStore.SetByHash | sharded_store.go:202-268 | Changes what other hashes find only if they share the shard and it was reset |
| Sharded.ShardedStore.Del | sharded_store.go:343-351 | Takes away the one hash in whichever shard it is |
| Sharded.ShardedStore.Close | sharded_store.go:354-363 | No hash is found in any shard |
| Tiered.LastSetIff | store_tier.go:44-132 | The reference: a hash is bound to an entry exactly when some successful Set bound it and no later Set, Del or Close undid that |
| Tiered.TieredStore.Get | store_tier.go:44-74 | Answers only the last successful Set of that very hash, not since deleted and unexpired, though L1 may outlive an arena reset; hits exactly when the slot of the hash, of 256, or its record is there and unexpired |
| Tiered.TieredStore.Set | store_tier.go:77-99 | Adds one binding to the history exactly when L2 accepts, with the expiry of the second clock reading, and fills the slot with that of the first; a refused Set leaves both tiers as they were |
| Tiered.TieredStore.PromoteL1 | store_tier.go:101-107 | Replaces one slot with an entry of the last Set and keeps the invariant of both tiers |
| Tiered.TieredStore.Del | store_tier.go:110-119 | Ends the binding in both tiers, and no other: every other slot and record is as before |
| Tiered.TieredStore.Close | store_tier.go:127-132 | Ends every binding in both tiers |
| TierMachine.AnsweredWasSet | store_tier.go:44-119 | Over every interleaving of Gets, Sets and Dels, a Get answers the entry of some accepted Set of that very hash, with an expiry its ttl after some time so far, unexpired at the Get's last clock reading |
| TierMachine.StepKeeps | store_tier.go:44-119 | Any atomic step of any call keeps every L1 slot, arena record and value in flight backed by an accepted Set, with a safe expiry |
| TierMachine.PromotionOutlivesDel | store_tier.go:72-118 | After a Get has read L2, a Del can return, the promotion follow, and a later Get still answer the deleted entry: concurrently a hit need not be the last Set |
| TierAlone.SetAlone | store_tier.go:77-99 | A Set that no call interrupts: the record carries the entry and the expiry of the second clock reading; it is found, others of its shard lost, or nothing changed, exactly by the sizes |
| TierAlone.SetPromotes | store_tier.go:94-107 | Then exactly the slot of the hash takes the entry, with the expiry of the first reading |
| TierAlone.DelAlone | store_tier.go:110-119 | A Del that no call interrupts leaves no record and no slot of its hash, and all others as they were |
| TierAlone.HitAlone | store_tier.go:44-55 | A Get answers from its slot exactly when that holds its hash unexpired, and else goes on, changing nothing |
| TierAlone.ReadAlone | store_tier.go:57-73 | A Get that reads the arena answers the record found, unexpired at the second reading, and puts just that into the slot |
| TierAlone.MissAlone | store_tier.go:57-61 | It can end there with a miss exactly when nothing unexpired is found |
| TierLimits.DeletedEntryComesBack | store_tier.go:44-119 | A concrete run of a Set, two Gets and a Del from an empty store: Set and Del have returned when the second Get starts, and it answers the deleted entry |
| TierLimits.LaterAnswersIff | store_tier.go:44-119 | In every reachable state, a Get that starts now can answer its hash without a new successful Set exactly when an unexpired copy is in its slot, in the arena, or carried by another call into L1 |
| TierLimits.StepStaysDead | store_tier.go:44-119 | No step but a successful Set of the hash brings such a copy about, or gives one to a Get that had none |
| TierReliable.NeverMissesOnceSet | store_tier.go:44-99 | In any run of Gets and of Sets that all fit, as long as nothing has expired, a Get that starts once its hash was Set never ends in a miss: the store is reliable in the protocol's sense |
| Tiered.AnswersSame | store_tier.go:44-74 | From either tier, a hit has the status, content type, header and body of the stored entry when that fits the fields |
| Tiered.HitKeepsVary | store.go:21-38 | From either tier, a hit takes the same Vary decision for every request as the entry the caller stored |
| Vary.MatchesVary | store.go:21-38 | The loop decides whether the request has every recorded value, and never for a Vary of a star |
| Vary.PersistVary | sharded_store.go:213-221 | Each recorded name gets its internal header, in any order, and every other header stays |
| Vary.RecoverVary | sharded_store.go:162-172 | The map recovered holds the first value of each internal header under the rest of its name, and nothing else |
| Spelling.PersistedIs | sharded_store.go:213-221 | Under X-Precog-Vary- and the canonical form of a recorded name is exactly its value |
| Spelling.PersistedElsewhere | sharded_store.go:213-221 | Under every other name the header is as before |
| Spelling.RecoveredIs | sharded_store.go:162-172 | A name is recovered exactly when some header with a value begins with x-precog-vary-, in any case, and goes on with it; its value is the first of such a header |
| Spelling.MatchesIs | store.go:21-38 | The decision, written out: no Vary of a star, and for every recorded name the value the request sends |
| Vary.DecisionSurvives | sharded_store.go:162-221 | Reading back keeps the Vary decision for all requests exactly when the response is never matched or carries no internal-looking header that is not overwritten |
| Vary.OwnVaryHeaderChangesDecision | sharded_store.go:162-172 | A concrete response with an internal-looking header of its own, which matches all requests before the arena and not all after it |
| Replay.WriteResponse | sharded_store.go:83-107 | What a hit sends: the public headers added in some enumeration order, content type if missing, the two markers, status and body |
| Replay.WriteMiss | middleware.go:329-342 | What a miss sends, likewise |
| Replay.SendsEntry | sharded_store.go:83-107 | On a hit status and body are the entry's, 200 for no status, with the two markers; on a miss they are the entry's, with the marker of a miss |
| Replay.SendsHeader | sharded_store.go:85-92 | On either path, under the canonical name of every header of the entry that does not begin with x-precog-vary in any case, the client gets the values already there and then all of the entry's; the content type fills in where there is none |
| Replay.SendsNothingElse | middleware.go:329-339 | Under any other name it gets what was already there: internal headers are never sent |
| Replay.HitReplaysMiss | sharded_store.go:83-107 | From either tier a hit replays a miss of the stored entry on the same response headers: same status, body and every header, except X-Cache and X-Precog; and there is only one such miss unless two headers are one name canonically |
| CacheKey.FedEqualIff | normalizer.go:76-110 | Two requests feed the hash the same text exactly when upper-cased method, lower-cased host, and the targets made of path and canonical query agree |
| CacheKey.SameTargetIff | normalizer.go:86-102 | Between paths without "?" targets agree exactly when paths and multisets of query segments agree |
| CacheKey.SameLengthTargetIff | normalizer.go:86-102 | So do they between paths of one length, "?" in them or not |
| CacheKey.TargetsMixedIff | normalizer.go:86-102 | Targets of a shorter and a longer path agree exactly when the longer one goes on with "?" and the rest, with its own query, is the other's canonical query |
| CacheKey.QuestionInPathCollides | normalizer.go:86-102 | The decoded path "/a?b" is fed like the path "/a" with the query "b" |
| CacheKey.SlashInHostCollides | normalizer.go:79-87 | The host "/a" before the path "/b" is fed like no host before the path "/a /b" |
| CacheKey.SameQueryIff | normalizer.go:88-102 | Two queries have one canonical form exactly when they have the same segments, order aside |
| CacheKey.ShortcutAgrees | normalizer.go:90-101 | The path for a query without an ampersand gives what sorting gives |
| CacheKey.HexInjective | normalizer.go:117-122 | Different 64-bit hashes are written with different digits |
| CacheKey.KeyEqualIff | normalizer.go:114-123 | Where the hash separates the two texts, two requests share a key exactly when method, host and target agree |
| KeyReading.FedReads | normalizer.go:76-102 | The text fed, letter for letter: method in capitals, blank, host in small letters and blank if there is one, path, and "?" and the query if there is one |
| KeyReading.QueryIs | normalizer.go:88-102 | The query in that text has exactly the segments of the request's, in bytewise order |
| KeyReading.LeqIff | normalizer.go:94 | That order: the front of a text comes first, and else the smaller byte where two first differ |
| KeyReading.HexAt | normalizer.go:117-122 | Letter i of the key is the hexadecimal digit of that place, in small letters |
| VariantKey.VarySignature | middleware.go:346-361 | The loop writes the text of the names in Vary with the request's values, a leading empty part leaving an ampersand |
| VariantKey.TextOfSignature | middleware.go:346-361 | That is the text of the signature by which the protocol tells variants apart, for every request |
| KeyReading.TextReads | middleware.go:346-361 | The text of one name and of two, letter for letter, with and without a leading empty part |
| KeyReading.VariantReads | middleware.go:363-370 | The key of a variant is the primary key, "_v" and the hash of that text in hexadecimal |
| KeyReading.HexShortIs | middleware.go:369 | Without leading zeros |
| VariantKey.SameTextIff | middleware.go:346-361 | Two signatures share a text exactly when cutting their items at ampersands gives the same segments |
| VariantKey.PlainTextIff | middleware.go:346-361 | Without ampersands, and equals signs in names, exactly when they have the same items, letter case of names aside, and begin alike |
| VariantKey.AmpersandCollides | middleware.go:346-371 | Two requests that differ in both headers of "Vary: A, B" have one variant key, whatever the hash |
| VariantKey.VariantKeyIff | middleware.go:363-371 | Keys made of primary keys of one length agree exactly when the primary keys do and both are variants with one digest, or neither is a variant |
| VariantKey.UsedApart | middleware.go:346-371 | Where the hashes separate the texts in use and no name or value in them holds an ampersand, the store keys in use have hashes of their own, as JoinedMachine asks |
| CacheKey.FeedDigest | normalizer.go:76-109 | What is written to the digest, in order, is the canonical text |
| CacheKey.FeedQuery | normalizer.go:88-102 | The query part is written as specified, with the shortcut for a query without an ampersand |
| CacheKey.WriteParts | normalizer.go:95-100 | The loop writes the parts joined by ampersands |
| CacheKey.CanonicalCacheKey | normalizer.go:114-123 | The shift loop fills the 16 bytes with the digits of the hash, most significant first |
| Sorting.SortEqualIff | normalizer.go:93-94 | Sorting under a total order identifies exactly the sequences that are permutations of each other |
| DenseCounters.RescaleBound | predictor_dense.go:164-175 | Halving a row moves each probability by at most n over twice the new total, cross-multiplied in integers |
| DenseCounters.RescaledRow | predictor_dense.go:156-175 | A saturated row keeps a positive total, at most half of the old one, and the order of its counts |
| DenseCounters.RecordKeeps | predictor_dense.go:95-160 | Over any Record, evictions and rescaling included, every row total is the sum of its row and below saturation, so no 32-bit add wraps |
| DenseCounters.RegisterKeeps | endpoint_index.go:33-73 | Ids are kept, no two patterns share one, and a pattern is refused exactly when new with all 4096 ids given |
| CounterMachine.SumIsTotalPlusBetween | predictor_dense.go:151-159 | Over every interleaving, while no row's own recorders can saturate it, a row's sum is its total plus the recorders between their two atomic adds, and no one rescales |
| CounterMachine.NothingLost | predictor_dense.go:151-159 | When all recorders are done, each cell and total has grown by exactly the transitions recorded |
| CounterMachine.RescalesIff | predictor_dense.go:155-158 | A recorder goes on to rescale exactly when its add brings the total to 0x7FFFFFFF or beyond |
| RescaleAlone.RecordAlone | predictor_dense.go:151-175 | A recorder that no other interrupts adds one to its cell and to the total, and if that reaches 0x7FFFFFFF halves every cell and stores their new sum |
| RescaleMachine.NoAddWraps | predictor_dense.go:151-175 | For a row whose total is its sum, below saturation, and any number of recorders, in every interleaving with any number rescaling at once: no 32-bit add wraps, exactly when the total and the recorders together stay below 2^32 |
| RescaleMachine.CellsBounded | predictor_dense.go:151-175 | Under that bound no cell exceeds its first value plus what was recorded into it, stale halves of overlapping rescalings included |
| RescaleDrift.TotalIs | predictor_dense.go:151-175 | In every such interleaving, whenever no one rescales, the total with what recorders in between will still add is the sum of the row plus the excess: nothing before the first rescaling, then the recorders in between when the last total was stored, less what others had changed behind the rescaler that stored it |
| RescaleDrift.ExactIff | predictor_dense.go:151-175 | Once all have finished, the total is the sum of the row exactly when that excess is zero |
| RescaleDrift.LoneRescale | predictor_dense.go:164-175 | After a rescaling that no other overlaps, with any number of recorders adding to cells meanwhile, the total with what recorders in between will still add to it exceeds the sum of the row by exactly those whose cell was halved after their add, and is exact exactly when there are none |
| RescaleDrift.DriftAfterRescale | predictor_dense.go:151-175 | Once those have finished, the total exceeds the sum of the row by exactly the recorders whose cell was halved after they added to it |
| RescaleDrift.RescaledTwice | predictor_dense.go:156-175 | A concrete run of two recorders that both rescale, which leaves the only transition ever recorded with probability one half |
| PredictorRefinement.RecordAgrees | predictor_dense.go:95-160 | One Record on both predictors, dropping the same session if any, keeps every cell equal to its map count and every total equal |
| PredictorRefinement.ResetAgrees | predictor.go:213-217 | So does a session reset |
| PredictorRefinement.StepAgreesIff | predictor_dense.go:95-160 | From agreement, one lawful step leaves the predictors in agreement exactly when the pattern is not refused, both drop the same session or none, and no row saturates |
| PredictorRefinement.RunsAgreeIff | predictor_dense.go:95-160 | The predictors agree all along a sequence of records and resets, however long and with however many sessions, exactly when every step of it is such a step |
| PredictorRefinement.RunsAgree | predictor.go:52-99 | That is always so for few enough routes, session ids and requests |
| PredictionLists.PredictionsAgreeIff | predictor_dense.go:183-251 | In agreeing states both predictors list the same probabilities, ties in any order, exactly when the limit is at least one or the map predictor lists nothing; the dense one panics exactly when the limit is negative and there is something to list |
| PredictionLists.LimitBelowOneDiffers | predictor_dense.go:183-251 | In a concrete agreeing state and for any limit below one, the map predictor lists its one route, and the dense one lists nothing for zero and panics below |
| TransitionLog.CountsAre | predictor.go:52-99 | On every log of requests, resets and drops, the map predictor's count of two routes is the number of requests for the second by a session whose last request, since it began or was reset or dropped, was for the first; and the total likewise for any route |
| TransitionLog.DenseCountsAre | predictor_dense.go:95-160 | In agreement the cells and totals of the flat matrix are those numbers |
| TransitionLog.HistoryIs | predictor.go:94-98 | A session keeps the last ten routes it visited since it began, was reset or was dropped |
| TransitionLog.MapForetells | predictor.go:102-144 | On every log, the list shows routes that followed the session's last one with the number of times and the total, each once, most frequent first; what is left out of it followed no more often than anything in it, and only if a positive limit is reached |
| TransitionLog.DenseForetells | predictor_dense.go:183-251 | So does the dense predictor's in agreement, cut at any limit |
| TransitionLog.Bounded | predictor_dense.go:135-148 | On every lawful log there are never more than 5000 sessions in the map predictor, 500 in a shard of the dense one, or 4096 routes |
| TransitionLog.DroppedIff | predictor.go:86-91 | A session is dropped exactly when one without a history arrives while there are 5000 |
| PredictorClasses.EndpointRegistry.GetOrRegister | endpoint_index.go:33-73 | Returns the pattern's id or the invalid id, with the reverse table as specified |
| PredictorClasses.DenseMatrixPredictor.Record | predictor_dense.go:95-160 | The arrays, registry and sessions end as specified; a session is dropped exactly when a new one finds its shard full |
| PredictorClasses.DenseMatrixPredictor.BumpCounters | predictor_dense.go:152-159 | Two adds into the flat arrays, and rescaling on saturation, all indices in bounds in 32-bit arithmetic |
| PredictorClasses.DenseMatrixPredictor.RescaleRow | predictor_dense.go:164-175 | The loop halves exactly that row and stores the new sum as its total |
| PredictorClasses.DenseMatrixPredictor.Predict | predictor_dense.go:183-251 | The scan lists the non-zero cells of registered ids, sorted by count and cut at the limit, for any limit, negative ones included |
| PredictorClasses.DenseMatrixPredictor.ResetSession | predictor_dense.go:343-349 | Forgets one session |
| PredictorClasses.AdaptiveMarkovPredictor.Record | predictor.go:52-99 | The maps end as specified; a session is dropped exactly when a new one finds the predictor full |
| PredictorClasses.AdaptiveMarkovPredictor.Predict | predictor.go:102-144 | Lists each entry of the row once, sorted by count and cut at the limit if that is positive |
| PredictorClasses.AdaptiveMarkovPredictor.ResetSession | predictor.go:213-217 | Forgets one session |
| PredictorClasses.ListRow | predictor.go:124-133 | The loop lists each entry of a row exactly once, in any order |
| RegistryMachine.RunInv | endpoint_index.go:33-73 | The registry invariant holds over every interleaving of registrars, step by step |
| RegistryMachine.ReadersSee | endpoint_index.go:76-94 | A reader at any moment sees a bijection onto the first ids, nested lengths, at most 4096 ids, and for a published id its own pattern, or nothing while the registrar holding the lock has yet to put it into the table |
| RegistryMachine.IdsNeverChange | endpoint_index.go:33-88 | A published id and its table entry never change |
| RegistryMachine.ReturnedIsRight | endpoint_index.go:33-73 | A registrar returns its own pattern's id, or none with all 4096 ids given to others |
| RegistryMachine.OnlyLockBlocks | endpoint_index.go:66-70 | The write into the new table is in bounds, and a registrar waits for nothing but the lock |

## Left out

- ProtocolOnce.AtMostOneCommit: with Vary headers the re-check may fail for a different request, so several commits are right; the statement is for responses without Vary and a store that neither evicts nor expires.
- ProtocolTheorems.DeliveryPolicy: coalesced followers get the call's entry without a Vary check of their own (middleware.go:225), so the Vary part is claimed for hits only; ProtocolVary.FollowerMatchIff says when it holds for them.
- ProtocolVary.FollowerLikeLeaderIff: calls led by a request; a prefetch job may share a stored entry that does not match its own synthetic request, and then ProtocolVary.FollowerMatchIff decides.
- JoinedMachine.RunJoins: the store keys in use have hashes of their own (VariantKey.UsedApart says when, VariantKey.AmpersandCollides when not), and the entries stored fit their fields, were recorded by some request, and carry no internal-looking header of their own; what happens otherwise is Shard.ReadBackExact and Vary.DecisionSurvives.
- ProtocolSafety.RunInv: the middleware, the coalescing and the prefetch job are steps on values, so that they can be interleaved; only the coalescer's state and the writer are also classes. A handler that never returns or calls `runtime.Goexit` is not modelled.
- Tiered.TieredStore.Get: sequential histories. Under concurrency L1 promotion may race with Set and Del, and what then holds is TierMachine.AnsweredWasSet, on values and without Close.
- Shard.CacheShard.SetByHash: shards below 2 GiB and records below 4 GiB, where the 32-bit arithmetic is exact (Shard.CapacityTestExact); clock readings and expiry times non-negative and within 63 bits.
- Shard.CacheShard.Append: the same widths.
- Sharded.ShardedStore.constructor: shard sizes below 2 GiB.
- Sharded.ShardedStore.SetByHash: records below 4 GiB, as above.
- Tiered.TieredStore.Set: records below 4 GiB, as above. An entry is a value here, and the caller's entry after the call is the result `stored`; that L1 and the caller share one object that later writes could change is not captured. Fields that may be nil are empty maps.
- Vary.DecisionSurvives: header maps with canonical keys, as the server and Header.Set leave them; keys put into the map directly are not modelled.
- CounterMachine.SumIsTotalPlusBetween: rows that their own recorders cannot saturate; RescaleMachine and RescaleDrift take the others, one row at a time.
- CounterMachine.NothingLost: the same rows; with rescaling, increments are lost, and RescaleDrift.LoneRescale and RescaleDrift.TotalIs say how many.
- RescaleDrift.TotalIs: below the bound of RescaleMachine.NoAddWraps, beyond which the adds themselves may wrap; and when no one is in the midst of rescaling.
- CacheKey.FedEqualIff: hosts with a space or slash, which Go's HTTP server refuses (CacheKey.SlashInHostCollides shows what they do), and, before an empty path, hosts with "?".
- CacheKey.KeyEqualIff: the same hosts, and a collision of the 64-bit hash itself; xxhash is an arbitrary function.
- PredictionLists.PredictionsAgreeIff: floating-point probabilities are the fractions count over total; concrete calls rebuilt from a pattern are not part of this model.
- Variant keys: in the request protocol a variant is addressed by its signature, not by the text and hash made of it (VariantKey); an entry found under a shared key still has to pass the Vary check.
- MemoryStore and the Ristretto store: plain maps or a wrapper over an unseen library; the reference history of TieredStore plays the simple store.
- NormalizeRoute, the regular expressions, SeedTransition, the `varyVals` arguments, FastHash64 with a body: easy or unrelated to the properties above. Patterns are arbitrary strings shared by both predictors.
- CreatedAt, telemetry, cookies, session ids, skipped routes, upgrade, event-stream and range requests, unsafe methods, Hijack, informational responses: they pass around the cache.
- The prefetcher's queue and worker pool, its timeout, and the Link header: only what a job does with the store, the coalescer and the handler is modelled.
- Errors of writing to the client, and what the client's own Flush does.
- Non-ASCII letters in method, host and header names.
- The browser and WebAssembly client, configuration defaults, and `isRoutePublic` and `IsRequestAuthenticated`, which are parameters of the protocol.
