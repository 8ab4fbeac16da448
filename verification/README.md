# Model of the cross-chain oracle's event pipeline

The oracle watches chains, turns their logs into events, enriches the events with prices, correlates them within time
windows, and streams signals to subscribers. This project models the parts of it where state, time and concurrency
meet, and proves what they promise.

| file | what it models |
|---|---|
| `Window.dfy` | one event window: added to, capped, drained by triggers, pruned in the background; the class `EventWindow` and the meaning of any list of operations on it |
| `Correlations.dfy`, `CorrelationProperties.dfy` | what a list of correlations makes of a timed run of events, and what holds of every run |
| `Firing.dfy` | exactly when a correlation can fire at all |
| `Correlator.dfy` | the class `Correlator`, whose methods are proved against that meaning |
| `Events.dfy`, `Sequences.dfy`, `Words.dfy` | enriched events and agreement on fields; filtering and suffixes; the bounds of 64-bit words |
| `Pipeline.dfy` | producer, normalizer, enricher pool, engine and emitter over bounded channels, as a step system |
| `Emitter.dfy` | fan-out of signals to subscribers that come and go: a step system, and the class `Emitter` whose methods take its steps |
| `Chainlink.dfy` | concurrent price lookups over shared caches: a step system, and the class `Provider` whose critical sections are its steps |
| `Polling.dfy` | the polling subscription's block cursor |
| `BlockCache.dfy` | the block-timestamp cache and the log processing that reads through it |
| `Decoder.dfy` | the Wormhole message and ERC-20 approval decoders over bytes, with 64-bit wrap-around and slice panics |
| `KeyMatch.dfy` | the search for the configuration key behind an environment key |
| `Reconnect.dfy` | retries with a doubling, capped wait in 64-bit durations |

Time is an explicit clock reading passed wherever the code asks for the current time. A call to `Correlator.Process` is
a list of critical sections, and any background prunes may run before each of them, so a run covers every interleaving
of the engine and the pruner. In the step systems a run is any list of steps; a step that is not enabled does nothing.

Where the code departs from what one would expect of it, the model follows the code, and the exact condition is
proved:

- A prune removes an entry that expires at this very instant and a take keeps it (`internal/engine/correlation.go:60`
  against `:83`). So pruning a window can show in a run (`PruningShows`), exactly when a take shares an instant with an
  earlier prune and would have matched something that was there before that prune and expires at that instant
  (`PruningIsInvisibleExactly`).
- Field names the engine does not know compare equal for all events (`internal/engine/engine.go:150-151`), so they
  never separate keys; `CoarserFields` and `CanFireExactly` depend on it.
- Not every correlation can fire: an earlier one on the same sequence may drain all its matches, one between events of
  its first type may drain them as they arrive, and the cap may be below its threshold. `CanFireExactly` is the exact
  condition on the configuration.
- A 64-bit sum in the message decoder can wrap (`WrappingOffsetPanics`), and an empty payload is indexed while building
  its error (`EmptyPayloadPanics`); decoding panics in exactly those cases, which can be read off the data beforehand
  (`DecodingIsSafe`).
- Doubling the wait between connection attempts can overflow; the first n waits are the intended ones exactly when
  none of the waits doubled on the way to the n-th reaches 2^62 ns (`IntendedUnlessOverflow`).
- The key search drops leading underscores, and never produces a dotted environment key; the result flattens back to
  the environment key exactly when neither matters (`BestKeyMatch`).
- After the first failure the wait is the initial one even above the maximum; later ones are capped.

## Model

| member | source | states |
|---|---|---|
| `Events.CompareFields` | internal/engine/correlation.go:87-94 | the early-exit loop decides agreement of two events on every listed field |
| `Events.FieldsByName` | internal/engine/engine.go:118-153 | what agreement on each known name means, part by part; an absent part agrees with an empty one |
| `Events.UnknownFieldsAgree` | internal/engine/engine.go:150-151 | a name the engine does not know agrees for all events |
| `Events.CoarserFields` | internal/engine/engine.go:118-153 | agreement on one list of fields implies agreement on another for all events exactly when every known name of the second is in the first; unknown names never matter |
| `Windows.EventWindow.constructor` | internal/engine/correlation.go:24-29 | a new window is empty, with no history |
| `Windows.EventWindow.Add` | internal/engine/correlation.go:31-49 | old entries and the new one, in order, are the entries dropped followed by those kept; exactly as many are dropped as exceed a positive cap, and reported if there is a callback |
| `Windows.EventWindow.TakeMatchingEntries` | internal/engine/correlation.go:53-70 | in one pass returns the unexpired agreeing events in order and keeps the unexpired others in order |
| `Windows.EventWindow.Prune` | internal/engine/correlation.go:78-85 | keeps exactly the entries that expire strictly later, in order |
| `Windows.AfterSorted` | internal/engine/correlation.go:31-36 | with one TTL and a clock that never goes back, entries stay sorted by expiry through adds, caps, takes and prunes |
| `Windows.PruneDropsPrefix` | internal/engine/correlation.go:78-85 | in a sorted window a prune drops a prefix of expired entries |
| `Windows.PruneSimulation` | internal/engine/correlation.go:31-86 | the pruned window is always a suffix of the one never pruned, and what it lacks has expired by the last prune, even when the cap drops entries |
| `Windows.PruningIsInvisible` | internal/engine/correlation.go:31-86 | inserting prunes anywhere in a run, the clock moving on before the next take, changes no take's result, whatever the cap |
| `Windows.PruneVisibleExactlyAtExpiry` | internal/engine/correlation.go:60-83 | the exact condition under which a prune does not change a following take: later clock, or no match expiring at that instant |
| `Windows.PruningIsInvisibleExactly` | internal/engine/correlation.go:31-86 | for every run and cap, all takes return what they would without the prunes iff no take shares an instant with an earlier prune and would match something older than that prune that expires at that instant |
| `Windows.PruningShows` | internal/engine/correlation.go:60-83 | a reachable run, with one add, in which a prune changes a take's result |
| `Windows.RaisingTheCap` | internal/engine/correlation.go:38-48 | on the same operations, the window and every take's result under a smaller cap are suffixes of those under a larger or no cap |
| `Windows.CapNeverReached` | internal/engine/correlation.go:38-48 | a cap the uncapped window never exceeds changes nothing |
| `Windows.ContentsFromHistory` | internal/engine/correlation.go:31-85 | the uncapped window holds exactly the added entries that every later operation let survive, in order of arrival |
| `Windows.TakeIsHistoryScan` | internal/engine/correlation.go:53-70 | while the cap is never exceeded, a take returns exactly, in order of arrival, the earlier events that are unexpired, agree with the trigger and were matched by no earlier take, regardless of pruning |
| `Windows.FiresOnCountSinceLastTrigger` | internal/engine/correlation.go:169-174 | when all takes use the same fields, a trigger fires iff enough unexpired same-key events were added since the previous same-key trigger |
| `Windows.StepPartitions` | internal/engine/correlation.go:53-85 | a take or a prune splits the window, as a multiset, into what stays, what is returned and what has expired |
| `Windows.Conservation` | internal/engine/correlation.go:31-85 | in every reachable window, added entries = current + returned + expired + dropped by the cap, as multisets, so nothing is returned twice |
| `Windows.SignalsArePaidFor` | internal/engine/correlation.go:157-179 | the thresholds of everything fired from a window plus its current size never exceed the number of adds |
| `Windows.SizeWithinCap` | internal/engine/correlation.go:38-48 | a window never outgrows a positive cap |
| `Windows.Need` | internal/engine/correlation.go:170-173 | the threshold in effect is the greater of one and the configured one |
| `Correlations.TtlIsGreatestDuration` | internal/engine/correlation.go:109-123 | a type's TTL is the greatest duration, parsed or defaulted, of the correlations naming the type if one is positive, and the default otherwise |
| `Correlations.RunTimed` | internal/engine/correlation.go:153-190 | in a run whose clock never goes back no window's operations do either, and takes come after the prunes before them when sections do |
| `Correlations.RaisingTheCapKeepsSignals` | internal/engine/correlation.go:38-48 | whatever correlation fires on an event under a smaller cap also fires on it under a larger one |
| `Correlations.SignalContents` | internal/engine/engine.go:155-169 | there is exactly one signal for each correlation that fires, in list order, with the event's chains, token and amounts and that correlation's signal type, confidence and name |
| `CorrelationProperties.AddsOfWindow` | internal/engine/correlation.go:181-187 | everything added to a type's window in any run is of that type, with the window's one TTL |
| `CorrelationProperties.ReachableWindow` | internal/engine/correlation.go:153-190 | every reachable window is sorted by expiry, holds only its type, nothing past clock + TTL, and respects a positive cap |
| `CorrelationProperties.PruningChangesNoSignal` | internal/engine/correlation.go:136-190 | whatever the pruner does between events or amid one, every correlation fires on the same events as in the run without it |
| `CorrelationProperties.FiresOnHistoryScan` | internal/engine/correlation.go:157-179 | while the cap is never exceeded, a correlation finds exactly what a scan of the whole history of its shared window finds, and fires iff that is enough |
| `CorrelationProperties.LoneCorrelationFires` | internal/engine/correlation.go:153-190 | a lone correlation fires iff at least max(1, MinFirstCount) unexpired same-key first events arrived since the previous same-key trigger, counted over the run's inputs |
| `CorrelationProperties.TakeThenTake` | internal/engine/correlation.go:51-70 | a trigger leaves nothing for a later one with its key and takes nothing from one with another key |
| `CorrelationProperties.SectionDrains` | internal/engine/correlation.go:51-70 | after a correlation that applies, its window holds nothing expired and nothing that agrees with the event, even below the threshold |
| `CorrelationProperties.ShadowedNeverFires` | internal/engine/correlation.go:157-179 | a correlation with the sequence of an earlier one that compares no further known field never fires, in any run, whatever the thresholds, windows and cap |
| `CorrelationProperties.SelfWindowApart` | internal/engine/correlation.go:157-187 | the window of a self-sequence holds at most one entry per key after every event of every run |
| `CorrelationProperties.FoundBesideSelfSequence` | internal/engine/correlation.go:157-187 | a correlation finds at most one event if any correlation between events of its first type compares no known field that it does not |
| `CorrelationProperties.SelfSequenceNeverNeedsTwo` | internal/engine/correlation.go:157-187 | a correlation whose sequence repeats one type finds at most one event, so with a threshold of two or more it never fires |
| `Firing.ObstructedNeverFires` | internal/engine/correlation.go:153-190 | if a correlation fires in any run whose clock never goes back, nothing in the configuration obstructs it |
| `Firing.UnobstructedFires` | internal/engine/correlation.go:153-190 | if nothing in the configuration obstructs a correlation, there is such a run in which it fires |
| `Firing.CanFireExactly` | internal/engine/correlation.go:153-190 | for every list of correlations, cap and position: the correlation can fire in some run iff it has two types, a TTL that is not negative, a threshold within the cap, no earlier correlation of its sequence that compares no further known field, and, for thresholds above one, no such correlation between events of its first type |
| `CorrelationProperties.RunAdds` | internal/engine/correlation.go:181-187 | a type's window is added to exactly once for each event of the type |
| `CorrelationProperties.FiresAtItsTake` | internal/engine/correlation.go:169-178 | a correlation fires iff its own take, at its place in the window's operations, reaches the threshold |
| `CorrelationProperties.RunSpendsThresholds` | internal/engine/correlation.go:157-179 | over any run, the thresholds of the correlations that fire from first events of a type add up to what that window's takes spend |
| `CorrelationProperties.SignalsNeverExceedArrivals` | internal/engine/correlation.go:157-187 | over any run, the sum of max(1, MinFirstCount) over all signals fired from first events of a type, plus the entries still stored, never exceeds the events of that type that arrived |
| `Correlators.Correlator.constructor` | internal/engine/correlation.go:103-126 | windows exist for exactly the types in some sequence, distinct and empty, each with the recorded TTL, the cap and the drop callback |
| `Correlators.AddTypes` | internal/engine/correlation.go:115-122 | one correlation adds windows, with the cap and the callback, for its missing types and raises the TTLs it exceeds, and changes nothing else |
| `Correlators.Correlator.RunPrunes` | internal/engine/correlation.go:136-151 | background prunes reach exactly the windows they are for, in order |
| `Correlators.Correlator.PruneAll` | internal/engine/correlation.go:141-145 | a timer tick prunes every window once, in whatever order, and counts as one input in which no event arrives |
| `Correlators.Correlator.Consider` | internal/engine/correlation.go:157-179 | one turn of the loop takes from the first type's window only if the correlation applies, and fires iff the take reaches the threshold |
| `Correlators.Correlator.Store` | internal/engine/correlation.go:181-187 | stores the event in its type's window, if any, with that window's TTL |
| `Correlators.Correlator.ConsiderAll` | internal/engine/correlation.go:157-179 | the loop collects exactly the signals of the correlations that fire, in list order, and each window sees exactly their takes |
| `Correlators.Correlator.Process` | internal/engine/correlation.go:153-190 | returns, in list order, exactly the signals of the correlations that fire by the run's meaning, field by field those of the event and of that correlation, and leaves every window with exactly the operations the run means for it |
| `Correlators.Correlator.OpenEntries` | internal/engine/correlation.go:128-134 | the sum of the windows' sizes, each counted once, at most number of windows times a positive cap |
| `Correlators.Correlator.ReportedIsDropped` | internal/engine/correlation.go:38-42 | what all windows reported to the shared drop callback adds up to everything the cap ever dropped from them in the run, or to nothing without a callback |
| `Pipeline.RunProtocol` | internal/enricher/enricher.go:29-58 | the pool has the configured number of workers, four when that is not positive; in every reachable state nothing was sent on or closed while closed; a stage has closed its output iff it has returned, and before cancellation only once its input was closed and drained |
| `Pipeline.SendsAndClosesAreSafe` | internal/normalizer/normalizer.go:97-138 | in every reachable state, a step that sends on a channel or closes it finds it open |
| `Pipeline.PanicsExactly` | internal/enricher/enricher.go:36-58 | the panic flag goes up exactly when a step sends on or closes a closed channel |
| `Pipeline.RunWithinCaps` | e2e/e2e_test.go:247-250 | no channel ever holds more than its capacity |
| `Pipeline.RunAccounted` | internal/normalizer/normalizer.go:97-138 | in every reachable state each well-formed input is, enriched, in exactly one place: upstream, in a channel, in a worker, processed, or lost to cancellation |
| `Pipeline.RunInSequence` | internal/engine/engine.go:181-225 | delivered, skipped, queued and pending signals are in order those of the processed events; only a cancelled engine forgets any |
| `Pipeline.CancellationTakesHold` | internal/enricher/enricher.go:44-53 | after a cancellation, in every run, normalizer, workers and engine together take at most one more event for each of them that has not returned |
| `Pipeline.EveryStepProgresses` | internal/enricher/enricher.go:36-58 | every step of every goroutine decreases one measure |
| `Pipeline.RunsEnd` | e2e/e2e_test.go:263-282 | no run has more steps than the measure at its start |
| `Pipeline.QuietMeansDone` | e2e/e2e_test.go:263-282 | no deadlock: when nothing can move, normalizer, workers and engine have returned and closed their outputs; without cancellation all channels are drained |
| `Pipeline.PipelineConservation` | internal/enricher/enricher.go:36-58 | over all interleavings: no panic; processed events are a sub-multiset of the enriched, normalized, well-formed inputs and delivered signals a prefix of theirs; an uncancelled run that has gone quiet has all of both |
| `Emitters.RunKeeps` | internal/signal/grpc/grpc.go:78-134 | registration, accounting, queue bounds and counters hold in every reachable state |
| `Emitters.MatchesFilter` | internal/signal/grpc/grpc.go:207-224 | the chain of early exits accepts exactly the signals whose values are in each list that is not empty and whose confidence reaches a positive minimum |
| `Emitters.FanOutConservation` | internal/signal/grpc/grpc.go:78-134 | for every subscription ever made, what it took followed by its queue is an in-order part of the matching signals emitted while it was registered, all of them iff none was dropped, and accepted plus dropped equals their number |
| `Emitters.MissedIsInVain` | internal/signal/grpc/grpc.go:87-99 | over every run, a subscription misses a signal each time, and only when, one that passes its filter is offered while its queue is full, or while nobody waits on an unbuffered channel |
| `Emitters.NothingLostWithRoom` | internal/signal/grpc/grpc.go:87-99 | what a subscription took and has queued is all the matching signals emitted while it was registered, in order, iff at every offer of one it had room |
| `Emitters.CountersAreTotals` | internal/signal/grpc/grpc.go:87-99 | emitted and dropped are the sums over every subscription that ever existed |
| `Emitters.Emitter.constructor` | internal/signal/grpc/grpc.go:45-47 | a new emitter is the start of a run |
| `Emitters.Emitter.OfferTo` | internal/signal/grpc/grpc.go:83-100 | a listener with room gets the signal at the end of its queue and emitted goes up; one without keeps what it has and dropped goes up; one whose filter rejects it, and everyone else, is left alone |
| `Emitters.Emitter.Emit` | internal/signal/grpc/grpc.go:78-102 | does so for each registered listener once, in order, and for nobody else; emitted and dropped go up by the numbers of listeners that gained and that missed the signal |
| `Emitters.Emitter.Subscribe` | internal/signal/grpc/grpc.go:104-113 | appends a listener with an empty queue, registered from now on |
| `Emitters.Emitter.Serve` | internal/signal/grpc/grpc.go:124-133 | forwards the oldest queued signal or leaves when the client is gone or the stream fails; no other subscription and no counter changes |
| `Emitters.Emitter.Unsubscribe` | internal/signal/grpc/grpc.go:115-122 | removes exactly this listener |
| `Polling.LogsSplit` | internal/adapter/evm/polling.go:62-66 | the logs of two adjoining block ranges are those of the whole range |
| `Polling.OneBlock` | internal/adapter/evm/polling.go:62-66 | the range from one block to the next has exactly the next block's logs |
| `Polling.LogsAreOfBlocks` | internal/adapter/evm/polling.go:62-66 | a log is in a range iff it is in one of its blocks, the lower end excluded and the upper included |
| `Polling.Poller.constructor` | internal/adapter/evm/polling.go:35-40 | polling starts at the head with nothing sent |
| `Polling.Poller.Poll` | internal/adapter/evm/polling.go:49-84 | for every schedule of heads, failures and cancellations the logs sent are exactly those of the blocks after the start up to the cursor, then a prefix of the range in progress; between polls a log was sent iff it is in such a block; the cursor never goes back |
| `Polling.Poller.SendRange` | internal/adapter/evm/polling.go:72-78 | sends a prefix of the new range, all of it unless cancelled |
| `Polling.TwoSchedulesAgree` | internal/adapter/evm/polling.go:40-84 | two schedules that reach the same block between polls have sent the same logs |
| `BlockCaches.BlockCache.constructor` | internal/adapter/evm/blockcache.go:16-24 | sizes below one become one; nothing is cached |
| `BlockCaches.BlockCache.Get` | internal/adapter/evm/blockcache.go:26-33 | returns the value last set for the block iff block + maxSize is at least the greatest block ever set, and none otherwise |
| `BlockCaches.BlockCache.Set` | internal/adapter/evm/blockcache.go:35-52 | keeps that agreement with the whole history, and at most maxSize + 1 entries |
| `BlockCaches.BlockCache.Evict` | internal/adapter/evm/blockcache.go:46-50 | deletes exactly the blocks below the cutoff, in whatever order the map is visited |
| `BlockCaches.WindowSlides` | internal/adapter/evm/blockcache.go:35-52 | inserting and then deleting below the cutoff answers as the longer history does |
| `BlockCaches.LogProcessor.ProcessLog` | internal/adapter/evm/evm.go:169-227 | a log that decodes is stamped with the true timestamp if the cache knows it, otherwise with what the request yields or zero; a positive answer is cached exactly when the cache did not know it; an undecodable log changes nothing |
| `BlockCaches.LogProcessor.ProcessLogs` | internal/adapter/evm/evm.go:118-126 | over any list of incoming logs, what is inserted and what is handed on are those of the functional account |
| `BlockCaches.FetchedOnceStampedAlways` | internal/adapter/evm/evm.go:182-189 | in every list of logs, once a block's request succeeded, every later log of the block is stamped with its true timestamp, whatever its own request does, while the block is within the cache's window |
| `BlockCaches.TruthKept` | internal/adapter/evm/evm.go:182-189 | inserting a fetched timestamp keeps the cache free of wrong ones, evictions included |
| `Chainlink.RunSound` | internal/price/chainlink/chainlink.go:63-125 | in every reachable state all cached prices, known decimals and calls in progress rest on answers their own feed gave |
| `Chainlink.ReturnedPrices` | internal/price/chainlink/chainlink.go:63-107 | under every interleaving a returned price times 10^decimals is the answer of a round really fetched for the feed; a hit is served only within the cache TTL; the round's age is within the threshold plus the check-to-store gap, plus less than the TTL for a hit |
| `Chainlink.CachedPrices` | internal/price/chainlink/chainlink.go:102-104 | the same provenance for every cached price, whose expiry is its store time plus the TTL |
| `Chainlink.TensMultiply` | internal/price/chainlink/chainlink.go:97-100 | the divisors are the powers of ten |
| `Chainlink.QuoteMeans` | internal/price/chainlink/chainlink.go:78-100 | a price is quoted iff decimals and round were had and the round is no older than the threshold, and is then the answer over ten to the decimals; otherwise the error says what was missing or stale |
| `Chainlink.Provider.constructor` | internal/price/chainlink/chainlink.go:52-61 | both maps start empty |
| `Chainlink.Provider.ReadPrice` | internal/price/chainlink/chainlink.go:71-76 | the cached price while unexpired, as one section of a run |
| `Chainlink.Provider.ReadKnownDecimals` | internal/price/chainlink/chainlink.go:110-115 | the decimals already known, as one section of a run |
| `Chainlink.Provider.FetchAndStoreDecimals` | internal/price/chainlink/chainlink.go:117-124 | stores the feed's answer, if any, and nothing else |
| `Chainlink.Provider.FetchAndCheckRound` | internal/price/chainlink/chainlink.go:83-100 | a price only from a round that is not older than the threshold |
| `Chainlink.Provider.WritePrice` | internal/price/chainlink/chainlink.go:102-106 | caches the price until now plus the TTL and returns it |
| `Chainlink.Provider.GetDecimals` | internal/price/chainlink/chainlink.go:109-125 | known decimals win over asking; a failed request stores nothing |
| `Chainlink.Provider.GetFeedPrice` | internal/price/chainlink/chainlink.go:71-106 | result or error and new contents of both maps for every cache state and every answer or failure of the feed, and the call's place in the run, to which the provenance results apply |
| `Chainlink.Provider.GetPriceUSD` | internal/price/chainlink/chainlink.go:63-107 | a token without a feed is an error that touches nothing; any other token's price is its feed's, with the same results |
| `Decoder.ValueOfSpell` | internal/adapter/evm/decoder_test.go:180-190 | writing a number that fits big-endian and reading it back is the identity |
| `Decoder.BigEndian` | internal/adapter/evm/decoder.go:73 | the first byte of a number counts most |
| `Decoder.ExtractionIsSafe` | internal/adapter/evm/decoder.go:69-84 | payload extraction panics iff a 64-bit sum wraps; otherwise it fails with the code's error or returns exactly the stretch of data after the length word, as long as that word says |
| `Decoder.DecodingIsSafe` | internal/adapter/evm/decoder.go:41-118 | decoding any log panics iff it is a message from the bridge whose 64-bit sums wrap or whose length word is inside the data and zero |
| `Decoder.DecodedExactly` | internal/adapter/evm/decoder.go:41-148 | for all logs, when decoding yields a deposit and when an approval, and each field of either in terms of the log's topics and data |
| `Decoder.RefusedExactly` | internal/adapter/evm/decoder.go:41-126 | for all logs, when decoding fails with each error: no topics, no decoder, other senders, too few topics, too little data, bounds, other payload kinds, short transfers |
| `Decoder.PayloadRoundTrip` | internal/adapter/evm/decoder_test.go:180-202 | extracting from the ABI encoding of any message yields exactly its payload |
| `Decoder.EmptyPayloadPanics` | internal/adapter/evm/decoder.go:89-92 | every encoded bridge message with an empty payload makes the decoder panic |
| `Decoder.WrappingOffsetPanics` | internal/adapter/evm/decoder.go:73-78 | every bridge message whose offset word is 2^64 - 1 makes the decoder panic |
| `Decoder.TransferHeader` | internal/adapter/evm/decoder_test.go:23-32 | kind, amount, token and target chain are where the transfer layout puts them |
| `Decoder.TransferRoundTrip` | internal/adapter/evm/decoder.go:58-118 | a transfer sent through the bridge decodes to its own amount, token and target chain |
| `Decoder.ApprovalRoundTrip` | internal/adapter/evm/decoder.go:120-148 | an approval log decodes to its own token, owner, spender and value |
| `KeyMatch.SplitJoin` | internal/config/config.go:293-296 | the parts joined with underscores are the key; there is one part iff there is no underscore |
| `KeyMatch.ReachesAllChoices` | internal/config/config.go:300-313 | once something is built, the search reaches exactly the keys that separate the remaining parts by dots or underscores |
| `KeyMatch.ReachesFromStart` | internal/config/config.go:307-314 | from the start it reaches exactly the keys that flatten to the key without its leading underscores |
| `KeyMatch.LastMatchIsFirst` | internal/config/config.go:302-312 | trying the underscore before the dot and letting the last match win keeps the first match in ASCII order |
| `KeyMatch.Search` | internal/config/config.go:300-313 | leaves the ASCII-least existing key it can reach, or the old value when there is none, after 2^n candidates |
| `KeyMatch.SearchOutcome` | internal/config/config.go:298-316 | for a key without dots the search ends with the ASCII-least non-empty existing key that flattens to the key without leading underscores, or with nothing when there is none |
| `KeyMatch.NotAfterMeans` | internal/config/config.go:311-312 | the order meant is ASCII order: a prefix, or the lesser character where two keys first differ |
| `KeyMatch.BestKeyMatch` | internal/config/config.go:287-320 | a key without underscores is returned as it is; any other key without dots is answered by that match, or, when there is none, by itself with a dot at every underscore and nothing else changed, as is any answer that is no existing key; the result flattens back to the key iff that has no dot and no leading underscore that a match drops; 2^(n-1) candidates for n parts |
| `Reconnect.BackoffIsIntended` | internal/adapter/reconnect.go:49-52 | unless a doubling before it overflows, the wait after failure k is the initial one for k = 1 and min(initial * 2^(k-1), maximum) after that |
| `Reconnect.OverflowHappens` | internal/adapter/reconnect.go:49-52 | if a configured duration reaches 2^62 some wait is not the intended one |
| `Reconnect.IntendedUnlessOverflow` | internal/adapter/reconnect.go:49-52 | for every n the first n waits are the intended ones iff the initial wait (for n >= 2) and the longest later wait that is doubled (for n >= 3) are below 2^62 |
| `Reconnect.AlwaysIntendedUnlessOverflow` | internal/adapter/reconnect.go:49-52 | all waits, however many, are the intended ones iff both configured durations are below 2^62 |
| `Reconnect.WithReconnect` | internal/adapter/reconnect.go:17-55 | every way to end: connected, cancelled before, after or while waiting, or out of retries, with the exact number of calls and waits; at most MaxRetries calls, no wait after the last failure, and the bound on the total wait when none of its own doublings overflows |
| `Reconnect.SumOfWaits` | internal/adapter/reconnect.go:43-52 | the waits add up to at most the first one plus the maximum for each later one |
| `Reconnect.Double` | internal/adapter/reconnect.go:49 | doubling is that of 64-bit durations: in range, and congruent to twice the wait modulo 2^64 |
| `Reconnect.SumAppend` | internal/adapter/reconnect.go:43-47 | the total of two lists of waits is the sum of their totals |

## Left out

- Rules: `Evaluate`, `matchConditions`, `evalCondition` and `buildMetadata` of the engine are look-ups on one event with no state; the pipeline takes the engine's signals as a function of the events it processed so far.
- What `Normalize` and `enrich` compute: parameters of the pipeline; which events are malformed is up to the parameter.
- `windowDuration` is stored by the constructor and never consulted (internal/engine/correlation.go:114), so it has no field here.
- Duration parsing, UUIDs, detection times, logging, telemetry, status tracking and the registry's own look-ups; a token's feed is a parameter of the price provider.
- Widths of clocks, TTLs, counters and block numbers, except in the decoder and the reconnect loop, where wrap-around matters.
- Floating point: prices are reals and formatted field values are opaque strings.
- Unbuffered pipeline channels: the configuration gives every pipeline channel a positive default (internal/config/config.go:164-175), and the absence of deadlock is stated for positive capacities.
- The program's entry point drains the adapter only after starting it; the pipeline follows the concurrent wiring of e2e/e2e_test.go:263-282.
- Decoder.DecodingIsSafe: the Wormhole SDK is not part of this model; that it takes an empty payload for no transfer, kinds 1 and 3 for transfers, and fails below 101 bytes is assumed.
- Decoder.TransferRoundTrip: hashes, hexadecimal and decimal formatting and the names of Wormhole chains are not modelled; addresses are bytes, amounts and chains numbers. A slice's capacity is taken to be its length.
- Chainlink.ReturnedPrices: answers are unsigned as in the code (internal/price/chainlink/chainlink.go:165), times are unbounded, and rounding of the quotient is not modelled.
- Polling.Poller.Poll: the chain is append-only, a query returns its logs in block order, and delivery across subscriptions is not covered, since each starts at the current head.
- Emitters.FanOutConservation: signals are emitted by the one goroutine of `Run`, as in the program; a subscriber's stream is the list of signals handed to it, the last of which may have failed to send.
- `EventWindow` stores entries as a sequence, so the reuse of the backing array by the compaction is not modelled; Go's mutexes and read-write locks are the atomicity of the sections.
- Transport, protobuf conversion, websocket subscriptions, the Solana and Cosmos stubs, configuration loading and validation.
