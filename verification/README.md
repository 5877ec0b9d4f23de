# Verified model of the streaming SDK's core

The SDK wraps calls to a blockchain node. Around those calls sit algorithms and small
concurrent protocols that can be reasoned about on their own; this project models them in
Dafny and proves what they promise. One module follows one source file or one mechanism in it.

| module | mechanism |
|---|---|
| `HistoryRanking`, `HistorySelectors`, `HistoryCsv` | dashboard history: bounded-heap top-k, memoised filter and paging, CSV export |
| `AdaptivePool`, `TokenBuckets` | the worker pool with an adaptive limit, and the token bucket |
| `Relayer`, `RelayerSafety`, `RelayerMessages`, `RelayerLine`, `RelayerDelivery`, `RelayerObject` | the hand-off lock, offline queue and reconnect attempts of the websocket relayer |
| `EventDedup`, `EventDelivery` | event subscriptions: the window of recent ids shared by polling, replay and backfill, and what reaches the handlers |
| `LruCache`, `LruLifetimes`, `CacheKeys`, `Module49`, `Module44` | the LRU cache with lifetimes and snapshots, and the two engines memoised with it |
| `DecimalAmounts`, `StreamAccrual`, `StreamListing` | money parsing and printing, accrual and withdrawals, the two-filter listing |
| `BatchSubmission`, `BatchAnswers` | numbering and submission of transaction batches |
| `DerSignatures` | DER signatures to raw ones |
| `CircuitBreaker` | the lazily advanced circuit breaker |
| `Common`, `Text` | shared datatypes, separators and decimal numerals |

## How the source is represented

- Code that updates state in place is a class or a method with loops. Each of its methods is
  proved equal to a function of the old state, and the lemmas about runs and reachable states
  are about those functions.
- A concurrent protocol is a state machine. One step is the code between two awaits; steps of
  different workers, calls and replies interleave in any order, and a run is any sequence of steps.
- Clocks are parameters. The network, the signer, the sockets and the user's functions are
  oracles or function values that may answer anything.
- Text is a sequence of characters, money and times are integers, token counts and progress
  fractions are exact reals.

## Where the code falls short of a promise

- The examples in the comment above `calculateRate` (`src/utils.ts:75-80`) disagree with the code
  below it, by one and by a factor of ten; the code is followed: `DocumentedRatesDiffer`.
- `derToRawSignature` is to throw unless its input is well formed (`src/signer.ts:314`), but it never
  compares the SEQUENCE length with what follows, never looks at octets after the second INTEGER nor
  at a sign bit or a superfluous zero octet, and a length of four octets with its top bit set turns
  negative in a 32-bit shift. One malformed input each is accepted: `ShortSequenceAccepted`,
  `TrailingOctetAccepted`, `NegativeIntegerAccepted`, `PaddedIntegerAccepted`,
  `NegativeLengthAccepted`. `AcceptedExact` says of every accepted input, by the octets the code
  leaves out, whether it is well formed; `WellFormedDecoded` says what every well-formed input gives,
  and `StrictDecoderExact` that with those tests the promise would hold.
- The two-filter listing is right for every pair of indexes exactly when
  `offset + limit + 1 <= 100`: `PagesRightExactly`.
- A CSV export survives reading exactly when it has a row; a matrix ending in a line with one empty
  cell does not: `CsvRoundTripExact`.
- A call on the circuit breaker reads the clock up to three times, and listeners run in between.
  Circuit transitions form a legal chain in every history exactly when no call reads it as much as a
  cooldown apart: `TransitionsChainExactly`; for one history, exactly when no call opened the circuit
  that late: `ChainsExactly`. `SlowOpeningBreaks` and `SlowProbeBreaks` are two that did.
- `allSucceeded` is documented as "confirmed on-chain" (`src/batch-tx.ts:535-538`) but is also true
  for a dry run, which submits nothing: `DryRunSucceedsUnconfirmed` shows one, and
  `SucceededIsConfirmedExactly` says that the documentation holds exactly without `dryRun`.
- A connect() that has the lock does not look at `isDestroyed` again, so a destroyed relayer can come
  to have a socket, exactly when destroy() overtakes such a call: `SocketAfterDestroyExactly`.
  `DestroyOvertakesConnect` is a run in which it does.
- `hydrate` is documented to return "the number of entries actually restored"
  (`src/lru-memo-cache.ts:190`) but also counts those it evicts or overwrites again:
  `HydrateOvercounts` shows one, and `HydrateCountsExactly` says that the number is right exactly when
  the entries not skipped have different keys and fit the capacity together.

## Model

| member | source | states |
|---|---|---|
| HistoryRanking.RankingCorrect | src/dashboard/transaction-history.ts:621-624 | the reference order lists every row once, newest first, equal timestamps by original index |
| HistoryRanking.DescendingUnique | src/dashboard/transaction-history.ts:621-624 | only one arrangement of given rows is in that order, so the final sort has one possible result |
| HistoryRanking.KeptIsPrefix | src/dashboard/transaction-history.ts:647-673 | rows kept while nothing dropped outranks them sort to a prefix of sorting everything |
| HistoryRanking.RootIsLowest | src/dashboard/transaction-history.ts:626-644 | heap order puts the row to drop next at the root |
| HistoryRanking.BoundedHeap.SiftDown | src/dashboard/transaction-history.ts:626-644 | restores heap order below a hole and keeps the rows |
| HistoryRanking.BoundedHeap.Push | src/dashboard/transaction-history.ts:653-663 | adds one row and restores heap order |
| HistoryRanking.BoundedHeap.ReplaceRoot | src/dashboard/transaction-history.ts:664-667 | swaps the lowest row for the candidate and restores heap order |
| HistoryRanking.ReplaceKeepsBest | src/dashboard/transaction-history.ts:664-667 | replacing the root keeps the heap at the k best rows seen |
| HistoryRanking.SkipKeepsBest | src/dashboard/transaction-history.ts:664-667 | a candidate not above the root can be skipped |
| HistoryRanking.BoundedHeap.Offer | src/dashboard/transaction-history.ts:651-668 | one turn of the scan grows the heap below k, exchanges a lower root, or leaves it |
| HistoryRanking.KeepsBest | src/dashboard/transaction-history.ts:651-668 | whichever it does, the heap holds the best min(k, seen) rows and what was dropped outranks none of them |
| HistoryRanking.TopKByTimestampDesc | src/dashboard/transaction-history.ts:647-673 | for every list and every k the bounded heap returns what sorting everything and taking k returns |
| HistorySelectors.SignatureDetermines | src/dashboard/transaction-history.ts:583-585 | equal signatures force equal filters and equal normalised search text |
| HistorySelectors.SameSignatureSameRows | src/dashboard/transaction-history.ts:585-603 | hence equal signatures select the same rows of any array |
| HistorySelectors.ClampPage | src/dashboard/transaction-history.ts:423-430 | any page input, absent or not a number included, becomes an existing page |
| HistorySelectors.NearestPage | src/dashboard/transaction-history.ts:423-430 | it is the existing page nearest to the whole part of the number, the first for what is none |
| HistorySelectors.PageSizes | src/dashboard/transaction-history.ts:676-704 | ten rows a page by default, never less than one |
| HistorySelectors.FilteredExactly | src/dashboard/transaction-history.ts:590-603 | the filter keeps exactly the rows with the chosen status, kind and direction that hold the search text in one of four fields, in order |
| HistorySelectors.NewestThenSlice | src/dashboard/transaction-history.ts:681-694 | taking the k newest and slicing cuts the page a full sort would give |
| HistorySelectors.PageCount | src/dashboard/transaction-history.ts:698-704 | the pages reach every row and only the last may be short |
| HistorySelectors.PagesPartition | src/dashboard/transaction-history.ts:676-704 | all pages joined are the whole filtered list in order, every row exactly as often as it occurs, equal timestamps included |
| HistorySelectors.PagesFull | src/dashboard/transaction-history.ts:676-704 | every page but the last is full; the last is empty only if nothing passes the filter |
| HistorySelectors.SelectorCache.Entry | src/dashboard/transaction-history.ts:575-607 | the memoised filter result is a fresh filter's; other arrays keep their entries |
| HistorySelectors.SelectorCache.VisibleTransactions | src/dashboard/transaction-history.ts:676-695 | the page shown is cut from the full order of a fresh filter |
| HistorySelectors.SelectorCache.SelectTotalPages | src/dashboard/transaction-history.ts:698-704 | the page count is that of a fresh filter, never below 1 |
| HistorySelectors.SelectorCache.ReadAllPages | src/dashboard/transaction-history.ts:676-704 | paging through the selector from first to last page reproduces the whole order |
| HistoryCsv.ExportTransactionsToCsv | src/dashboard/transaction-history.ts:833-889 | the loop writes exactly the matrix of cell strings, missing records skipped |
| HistoryCsv.ColumnsMatch | src/dashboard/transaction-history.ts:847-884 | what stands under each of the ten headers |
| HistoryCsv.MatrixExactly | src/dashboard/transaction-history.ts:860-887 | the header if asked for, then one line per record present, in order |
| HistoryCsv.QuotedExactly | src/dashboard/transaction-history.ts:818-826 | a cell is quoted exactly when it holds a comma, a quote or a line break |
| HistoryCsv.ReadQuotedInverts | src/dashboard/transaction-history.ts:818-826 | a quoted cell reads back whatever quotes, commas and line breaks it holds, whatever follows |
| HistoryCsv.ReadBareInverts | src/dashboard/transaction-history.ts:818-826 | a cell left bare reads back |
| HistoryCsv.ReadRecordInverts | src/dashboard/transaction-history.ts:833-889 | a line reads back to its cells |
| HistoryCsv.ReadFileInverts | src/dashboard/transaction-history.ts:833-889 | reading a rendered matrix by section 2 of RFC 4180 gives it back, up to one final empty cell |
| HistoryCsv.CsvRoundTripExact | src/dashboard/transaction-history.ts:833-889 | exactly which matrices survive writing and reading |
| HistoryCsv.ExportRoundTrip | src/dashboard/transaction-history.ts:833-889 | an export reads back to exactly its cells if and only if it emits a row |
| AdaptivePool.StepLimit | src/map-with-concurrency.ts:154-179 | every step keeps min <= limit <= max and the in-flight count equal to the workers in flight, at most max |
| AdaptivePool.StepWaiters | src/map-with-concurrency.ts:154-164 | every step keeps the waiter list exact, and empty while there is room: no wake-up is lost |
| AdaptivePool.ClaimItems | src/map-with-concurrency.ts:167-168 | claiming gives an item exactly one worker |
| AdaptivePool.SettleItems | src/map-with-concurrency.ts:172-174 | storing a result releases the item at once |
| AdaptivePool.StepItems | src/map-with-concurrency.ts:166-179 | every step keeps each claimed item with its result or with exactly one worker |
| AdaptivePool.RunOk | src/map-with-concurrency.ts:138-184 | in every interleaving all of this holds throughout |
| AdaptivePool.AdmittedWithinLimit | src/map-with-concurrency.ts:154-159 | a call is admitted only while fewer than `limit` are in flight |
| AdaptivePool.Progress | src/map-with-concurrency.ts:154-179 | while a worker is unfinished some step can be taken: no deadlock |
| AdaptivePool.StepDescends | src/map-with-concurrency.ts:154-179 | a step settles an item or brings some worker closer to its call |
| AdaptivePool.RunsEnd | src/map-with-concurrency.ts:166-184 | no run takes more than n(4w + 1) + 4w steps, whatever the latencies and rejections |
| AdaptivePool.RunCompletes | src/map-with-concurrency.ts:166-184 | a run that cannot go on has finished every worker, and without rejections results[i] = fn(items[i]) for all i |
| AdaptivePool.LimitMoves | src/map-with-concurrency.ts:174 | a call that resolves fast adds a slot up to the maximum, a slow one halves the limit down to the minimum, and no other step moves it |
| AdaptivePool.Aimd | src/map-with-concurrency.ts:171-178 | in every run, from any point on, k fast calls lift the limit by k up to the maximum and k slow ones divide it by 2^k down to the minimum, whatever else happens in between |
| AdaptivePool.AimdFromStart | src/map-with-concurrency.ts:149-178 | the same from the initial limit |
| AdaptivePool.PlacesAreUsed | src/map-with-concurrency.ts:154-183 | once every worker has tested the limit, with items left and no rejection, at least min(limit, items) calls are in flight |
| AdaptivePool.ConfigureKeeps | src/map-with-concurrency.ts:114-149 | the defaults are 1, 8 and 2, and options in order are taken as given |
| AdaptivePool.Shared.constructor | src/map-with-concurrency.ts:124-152 | options of any kind give limits in order and an initial state that satisfies the invariant |
| AdaptivePool.Shared.TakePlace | src/map-with-concurrency.ts:154-159 | wait or take a place, as one step of the specification |
| AdaptivePool.Shared.GivePlaceBack | src/map-with-concurrency.ts:161-164 | release and wake everyone |
| AdaptivePool.Shared.NextItem | src/map-with-concurrency.ts:167-169 | claim the next item and ask for a place, or finish |
| AdaptivePool.Shared.OnReturn | src/map-with-concurrency.ts:171-178 | the segment after a call resolves is one step and keeps the invariant |
| AdaptivePool.Shared.OnThrow | src/map-with-concurrency.ts:171-177 | the segment after a call rejects is one step and keeps the invariant |
| TokenBuckets.TokensBounded | src/map-with-concurrency.ts:48-58 | tokens stay within [0, capacity] in every run |
| TokenBuckets.GrantsArePaid | src/map-with-concurrency.ts:48-58 | calls started by an instant are paid for by tokens held or earned until then |
| TokenBuckets.WindowBound | src/map-with-concurrency.ts:48-64 | in any window of T ms at most capacity + rate T / 1000 calls start, for any number of workers |
| TokenBuckets.StartsPerWindow | src/map-with-concurrency.ts:42-64 | the same bound from the creation of the bucket, for any positive rate |
| TokenBuckets.SleepIsEnough | src/map-with-concurrency.ts:60-62 | a refused worker that sleeps its time and has no competitor is served |
| TokenBuckets.SleepIsExact | src/map-with-concurrency.ts:60-62 | without a competitor it is served exactly from the end of its sleep on: the sleep is not too long either |
| TokenBuckets.StartsFull | src/map-with-concurrency.ts:42-46 | the bucket starts full: as many calls as it holds start at once, and one for any positive rate |
| TokenBuckets.TokenBucket.TryTake | src/map-with-concurrency.ts:48-62 | one turn of the loop is one attempt on the bucket, with the sleep the code computes |
| RelayerSafety.RunSafe | src/relayer/WebSocketRelayer.ts:94-111 | in every reachable state, destroy() included, at most one task holds the lock, the queue keeps its bound and the attempts their maximum |
| RelayerMessages.StepConserves | src/relayer/WebSocketRelayer.ts:367-377 | no step makes or loses a message |
| RelayerMessages.RunConserves | src/relayer/WebSocketRelayer.ts:477-519 | every copy passed to send() is queued, waiting, holding the lock, transmitted, evicted, expired, refused or discarded, and only one of these |
| RelayerMessages.TransmittedAtMostOnce | src/relayer/WebSocketRelayer.ts:484-519 | a message sent once is transmitted at most once, and not while it is anywhere else |
| RelayerSafety.DestroyedRunIsQuiet | src/relayer/WebSocketRelayer.ts:539-565 | whatever follows destroy() in a run, what was transmitted before it stays all that is, nobody new takes the lock and nothing is queued |
| RelayerSafety.SocketAfterDestroyExactly | src/relayer/WebSocketRelayer.ts:155-167 | a socket can be opened after destroy() exactly when a connect() held the lock that had not looked at the socket yet |
| RelayerSafety.DestroyOvertakesConnect | src/relayer/WebSocketRelayer.ts:147-167 | connect(), destroy(), then the connect goes on: the destroyed relayer has a socket |
| RelayerSafety.WaitersAreServed | src/relayer/WebSocketRelayer.ts:104-111 | in every reachable state, while a call waits for the lock somebody holds it |
| RelayerLine.LineMoves | src/relayer/WebSocketRelayer.ts:94-111 | until destroy() the line loses only those served, from its front, and gains only newcomers, at its end; three turns of the holders serve at least one |
| RelayerLine.WaiterIsServed | src/relayer/WebSocketRelayer.ts:94-111 | who stands at place i gets the lock, before anybody behind it, within 3 (i + 1) turns of the holders, unless the relayer is destroyed |
| RelayerMessages.ReleaseInLine | src/relayer/WebSocketRelayer.ts:104-111 | releasing serves the line from its front |
| RelayerMessages.QueueKeepsNewest | src/relayer/WebSocketRelayer.ts:477-482 | however many messages are queued, the queue is the newest ones in order |
| RelayerMessages.FlushInOrder | src/relayer/WebSocketRelayer.ts:367-377 | on an open socket the messages still fresh stand in line in the order they were queued |
| RelayerDelivery.SendExactly | src/relayer/WebSocketRelayer.ts:484-500 | in every reachable state send() refuses when given up, makes the message the last of the bounded queue when offline, and puts it in line when online; nothing else is lost |
| RelayerDelivery.HolderSends | src/relayer/WebSocketRelayer.ts:500-519 | in every reachable state a send() with the lock is transmitted if the socket is open and takes it, queued again if offline, refused otherwise |
| RelayerDelivery.StaysQueued | src/relayer/WebSocketRelayer.ts:477-482 | along every run without destroy() and opening, a queued message stays until as many newer ones were queued as fit |
| RelayerDelivery.OpenedFlushes | src/relayer/WebSocketRelayer.ts:367-377 | in every reachable state an open socket empties the queue: the fresh messages are in line in order, exactly the aged ones expire |
| RelayerDelivery.OfflineMessageGoesOut | src/relayer/WebSocketRelayer.ts:367-377 | a message sent offline is in line after the next opening, or has expired by its age, unless destroy() or too many newer messages come first |
| RelayerDelivery.LostLinkReconnects | src/relayer/WebSocketRelayer.ts:358-408 | in every reachable state a lost link asks for a reconnect while attempts are left and gives up for good when all were tried |
| RelayerDelivery.ReconnectGoesOn | src/relayer/WebSocketRelayer.ts:410-435 | a reconnect with the lock counts an attempt, waits, and opens a socket unless that became needless or was cancelled |
| RelayerDelivery.ConnectAsks | src/relayer/WebSocketRelayer.ts:127-145 | connect() resets the attempts and stands in line unless one is pending; on a destroyed relayer nothing changes |
| RelayerDelivery.ConnectGoesOn | src/relayer/WebSocketRelayer.ts:155-167 | a connect with the lock opens a socket unless one is open |
| RelayerDelivery.SettledMayConnect | src/relayer/WebSocketRelayer.ts:134-152 | once a pending connect() has settled the next one stands in line again |
| RelayerDelivery.DisconnectExactly | src/relayer/WebSocketRelayer.ts:521-537 | disconnect() closes the socket and ends reconnecting but keeps queue and line |
| RelayerObject.WebSocketRelayer.TakeLock | src/relayer/WebSocketRelayer.ts:94-102 | acquire, or stand in line |
| RelayerObject.WebSocketRelayer.GiveUpLock | src/relayer/WebSocketRelayer.ts:104-111 | hand the lock to the next in line, or open it |
| RelayerObject.WebSocketRelayer.Enqueue | src/relayer/WebSocketRelayer.ts:477-482 | the bounded queue, oldest entry evicted |
| RelayerObject.WebSocketRelayer.BeginSend | src/relayer/WebSocketRelayer.ts:484-500 | send() up to its first await |
| RelayerObject.WebSocketRelayer.ResumeSend | src/relayer/WebSocketRelayer.ts:500-518 | the second half of send(): transmitted exactly when still allowed, open and accepted by the socket |
| RelayerObject.WebSocketRelayer.FlushPendingMessages | src/relayer/WebSocketRelayer.ts:367-377 | the loop sends or expires each queued message once |
| RelayerObject.WebSocketRelayer.OnOpen | src/relayer/WebSocketRelayer.ts:201-210 | opening resets the attempts and flushes, as one step |
| RelayerObject.WebSocketRelayer.OnClose | src/relayer/WebSocketRelayer.ts:221-236 | losing the link asks for a reconnect, or gives up exactly when attempts are used up |
| RelayerObject.WebSocketRelayer.ResumeReconnecting | src/relayer/WebSocketRelayer.ts:408-434 | a reconnect with the lock: check again, count the attempt, wait, check again, open |
| RelayerObject.WebSocketRelayer.ResumeConnect | src/relayer/WebSocketRelayer.ts:155-167 | a connect with the lock opens a socket unless one is open |
| RelayerObject.WebSocketRelayer.Connect | src/relayer/WebSocketRelayer.ts:127-145 | connect() resets the attempts and shares a pending connection |
| RelayerObject.WebSocketRelayer.Disconnect | src/relayer/WebSocketRelayer.ts:521-537 | disconnect() as one step |
| RelayerObject.WebSocketRelayer.Destroy | src/relayer/WebSocketRelayer.ts:539-565 | destroy() discards the queue and the line and forgets the lock |
| EventDedup.RunOk | src/events.ts:104-118 | in all interleavings the window is the last ids dispatched; one replay and one backfill at most; replayed events lie inside their gaps, backfilled ones below the end of theirs |
| EventDedup.RepeatsAreFar | src/events.ts:104-118 | an id that never repeats within the window's length is more than that apart from its next dispatch |
| EventDedup.Repeats | src/events.ts:170-293 | between two dispatches of an id at least a window of other ids was dispatched, all different |
| EventDedup.ReplayInOrder | src/events.ts:180-190 | a replay offers exactly the fetched events strictly inside its gap, in sequence order |
| EventDedup.NothingIsLost | src/events.ts:180-293 | in every run, after a reply to a poll, a replay or a backfill the ids of all events it brought that are its to dispatch have been dispatched, by it or before, and those without an id by it |
| EventDelivery.SubscribedIsDelivered | src/events.ts:276-277 | in every run without unsubscribe() everything dispatched reaches the handlers |
| EventDelivery.DeliveredExactly | src/events.ts:347-361 | a dispatch reaches the handlers exactly if it was made before unsubscribe() |
| EventDelivery.BroughtIsDelivered | src/events.ts:180-293 | in every run without unsubscribe() every event a reply to a poll, a replay or a backfill brings has then been given to the handlers, now or under its id before |
| EventDelivery.DispatchedInOrder | src/events.ts:180-293 | in every run a step dispatches events of its reply only, in their order |
| EventDelivery.ReadsOn | src/events.ts:229-306 | in every run the next poll reads on from the cursor, or the ledger, at which the last reply handled to its end left off |
| EventDelivery.PollingGoesOn | src/events.ts:229-340 | the timer starts a poll, seeding first only while nothing is known, and is set again after every poll until polling stops |
| EventDelivery.LedgerFollowsPolls | src/events.ts:256-272 | in every run the highest ledger known is that of the ledgers polling has handled |
| EventDelivery.FirstGapIsBackfilled | src/events.ts:204-272 | in every run a poll leaves the backfill that was under way, or else exactly that of the first gap its events leave |
| EventDelivery.RequestsEnd | src/events.ts:192-225 | a replay or backfill is over with its reply or its failure, so the next gap can start one |
| EventDedup.ReplaysAreForJumps | src/events.ts:278-290 | the last sequence is the last polled one and every replay is for two polled numbers in a row that do not follow each other |
| EventDedup.FirstJumpIsReplayed | src/events.ts:278-290 | in every run, with a start ledger known, a poll leaves the replay that was under way, or else exactly that of the first jump among the events it handled |
| EventDedup.UnsubscribedRunIsQuiet | src/events.ts:347-361 | whatever follows unsubscribe() in a run, replies in flight included, nothing dispatched beyond what was before it reaches a handler, and no poll is started |
| EventDedup.StopsExactly | src/events.ts:309-341 | polling has stopped exactly when somebody unsubscribed or the failures in a row reached the maximum, or 1 for any maximum below it |
| EventDedup.GapsAreExact | src/indexer.ts:253-282 | between the first and the current ledger each one was a record when observed or lies in a reported gap, never both |
| EventDedup.GapsDisjoint | src/indexer.ts:253-282 | reported gaps ascend and never overlap |
| EventDedup.RecentIdWindow.Seen | src/events.ts:109-117 | the window after one id, and whether it was known |
| EventDedup.LedgerGapDetector.Observe | src/indexer.ts:269-282 | an error exactly for a negative ledger; otherwise the gap and the advanced ledger |
| EventDedup.Subscription.HandlePolled | src/events.ts:257-292 | one polled event: ledger, window, dispatch, sequence |
| EventDedup.Subscription.OnPollReply | src/events.ts:245-341 | a whole poll reply, a malformed ledger in the middle included |
| EventDedup.Subscription.OnReplayReply | src/events.ts:180-195 | a replay reply dispatches what the window does not know |
| EventDedup.Subscription.OnBackfillReply | src/events.ts:216-225 | a backfill reply likewise |
| EventDedup.Subscription.CancelSubscription | src/events.ts:348-360 | unsubscribe() as one step |
| LruCache.SizeBounded | src/lru-memo-cache.ts:127-136 | in every run the size keeps to the capacity and every deadline belongs to a stored key |
| LruCache.Retention | src/lru-memo-cache.ts:80-136 | a key set or hit is still returned, with its last value, until its deadline and while fewer other keys than the capacity were set or hit since |
| LruCache.ExactlyMostRecent | src/lru-memo-cache.ts:92-136 | without lifetimes the cache holds, in order, exactly the last touched keys that fit |
| LruLifetimes.ReturnedIsFresh | src/lru-memo-cache.ts:80-103 | in every run a lookup returns only the value last set, and only before its deadline |
| LruLifetimes.ExpiredIsMiss | src/lru-memo-cache.ts:92-103 | in every run a key whose last deadline has come is a miss, and the lookup clears the entry and its deadline |
| LruLifetimes.SnapshotIsLive | src/lru-memo-cache.ts:169-179 | a snapshot holds a stored entry exactly when it has no deadline or a later one |
| LruLifetimes.SnapshotInOrder | src/lru-memo-cache.ts:169-179 | and lists them least recently used first |
| LruLifetimes.HydratedIsLive | src/lru-memo-cache.ts:210-221 | hydration takes an entry exactly when it has no deadline or a later one |
| LruCache.GetValid | src/lru-memo-cache.ts:92-103 | a lookup keeps the cache well formed and moves a hit to the end |
| LruCache.InsertValid | src/lru-memo-cache.ts:127-136 | an insertion keeps the cache well formed |
| LruCache.SnapshotRoundTrip | src/lru-memo-cache.ts:169-223 | serialising and hydrating at one instant leaves exactly the most recent live entries that fit, in order, with their deadlines |
| LruCache.HydrateCountsExactly | src/lru-memo-cache.ts:190-223 | for any cache and any snapshot the returned count is the number of entries hydration leaves in the cache exactly when the entries not skipped have different keys and fit the capacity |
| LruCache.HydrateOvercounts | src/lru-memo-cache.ts:190-223 | two entries hydrated into a cache of one: the count is 2, the cache holds the second |
| LruCache.LruMemoCache.Get | src/lru-memo-cache.ts:92-103 | expired entries go, hits move to the end |
| LruCache.LruMemoCache.Set | src/lru-memo-cache.ts:114-119 | refuses exactly a lifetime that is not positive and finite, changing nothing then |
| LruCache.LruMemoCache.InsertEntry | src/lru-memo-cache.ts:127-136 | replaces the key, or makes room by evicting the oldest |
| LruCache.LruMemoCache.Serialize | src/lru-memo-cache.ts:169-179 | the live entries, least recently used first |
| LruCache.LruMemoCache.Hydrate | src/lru-memo-cache.ts:193-223 | each error case; entries before a rejected key stay restored |
| CacheKeys.JoinedInjective | src/module49.ts:124 | joining with underscores is injective for fields without them, whatever the id contains |
| Module49.KeyDetermines | src/module49.ts:124 | equal keys force equal id, stream terms and instant |
| Module49.UncachedExactly | src/module49.ts:122-162 | an evaluation holds the rate for every second run less what was withdrawn, and the progress, at the item's or the clock's second |
| Module49.Engine.ProcessSingleItem | src/module49.ts:122-162 | in any run the result is the uncached one but for the mark; processed = hits + misses; the next lookup is a hit |
| Module49.Engine.ProcessStreamBatch | src/module49.ts:99-117 | the chunked loop returns the uncached results of the present items in order |
| Module44.KeyDetermines | src/module44.ts:137 | equal keys force equal assessments, though not equal streams |
| Module44.RiskOnlyGrows | src/module44.ts:163-187 | with accepted thresholds the risk of any stream never falls as time passes |
| Module44.AssessedExactly | src/module44.ts:163-187 | level and runway from the seconds left: inactive and 0 for a stopped stream, healthy and unbounded for an open-ended one |
| Module44.ThresholdsChecked | src/module44.ts:104-109 | thresholds are accepted exactly when 0 <= critical < warning |
| Module44.NowExactly | src/module44.ts:134-137 | the item's own timestamp, else the clock's second |
| Module44.EveryLevelReachable | src/module44.ts:104-109 | every level is reported at some instant exactly when the thresholds are accepted and the lower one exceeds 1 |
| Module44.Calculator.AssessSingleItem | src/module44.ts:134-161 | in any run the assessment is the uncached one but for the mark |
| Module44.Calculator.AssessBatch | src/module44.ts:115-129 | slot i answers item i; the slot of a missing item stays empty |
| DecimalAmounts.ParseRoundsHalfUp | src/utils.ts:24-43 | every accepted text parses to floor(value 10^d + 1/2), carry into the whole part included |
| DecimalAmounts.ParsedExactly | src/utils.ts:24-32 | exactly digits, or digits around one dot with a digit somewhere, are parsed |
| DecimalAmounts.FromStroops | src/utils.ts:53-66 | the printing loop computes the display form |
| DecimalAmounts.TrimmedEnd | src/utils.ts:60-63 | the trimming loop drops trailing zeros but keeps a digit |
| DecimalAmounts.PrintedForm | src/utils.ts:53-66 | a printed amount is the whole units without leading zeros, a dot and digits without trailing zeros but one |
| DecimalAmounts.SignPrinted | src/utils.ts:53-66 | a negative amount is the positive one after a minus sign |
| DecimalAmounts.PrintThenParse | src/utils.ts:24-66 | parsing a printed amount gives it back, for every amount >= 0 |
| DecimalAmounts.PrintedAccepted | src/utils.ts:24-66 | exactly the amounts >= 0 print to something the parser accepts |
| DecimalAmounts.PrintAfterParseIdempotent | src/utils.ts:24-66 | printing after parsing settles at once |
| DecimalAmounts.RateRoundsHalfUp | src/utils.ts:82-92 | the rate misses the deposit by at most half a stroop a second |
| DecimalAmounts.RatedExactly | src/utils.ts:82-92 | a rate is given exactly for a positive duration and an accepted amount |
| DecimalAmounts.DocumentedRatesDiffer | src/utils.ts:75-92 | the code gives 1142 and 386 where the comment says 1141 and 3858 |
| StreamAccrual.StreamedMonotone | src/utils.ts:190-206 | the streamed total never falls, through pauses and past the end |
| StreamAccrual.StreamedExactly | src/utils.ts:190-206 | the streamed total is the rate for every second in which the stream ran, counted second by second; what was paid out if cancelled |
| StreamAccrual.WithdrawableExactly | src/utils.ts:154-175 | withdrawable is that less what was withdrawn, never negative, nothing if cancelled; both implementations |
| StreamAccrual.StopsAccruing | src/utils.ts:157-164 | from the pause on, and from the end on, nothing accrues |
| StreamAccrual.ProgressExactly | src/utils.ts:121-148 | progress of a bounded stream is the share of its time that has passed; 1/2 stands for an open-ended one |
| StreamAccrual.SimulatedExactly | src/streams.ts:496-513 | a simulated withdrawal pays what is asked, everything by default, and never more than is there |
| StreamAccrual.Conservation | src/utils.ts:154-206 | withdrawn + withdrawable is the streamed total exactly when no more was withdrawn |
| StreamAccrual.RunSafe | src/streams.ts:496-513 | in any run of requests at non-decreasing times never more is withdrawn than streamed, and nothing is lost |
| StreamAccrual.LeastCeiling | src/streams.ts:496-513 | the total withdrawn has a closed form: the least of the ceilings set by the requests |
| StreamAccrual.SplitIndependent | src/streams.ts:496-513 | splitting a request in two at one instant changes nothing, now or later |
| StreamAccrual.DrainIsTotal | src/streams.ts:496-513 | after asking for everything the total no longer depends on the history |
| StreamListing.MergeIsUnion | src/streams.ts:1604-1606 | the merged list is the ascending enumeration of the union |
| StreamListing.LimitsKept | src/constants.ts:160-172 | a limit from 1 to 100 is kept, a larger one cut to 100, any other replaced by 20 |
| StreamListing.PrefixesSuffice | src/streams.ts:1593-1606 | the first w entries of the union come from the first w of each index |
| StreamListing.PageWithinWindow | src/streams.ts:1583-1612 | within the window, page and next-page flag are those of the whole union |
| StreamListing.PageBeyondWindow | src/streams.ts:1593 | past it, an index long enough loses its next page |
| StreamListing.PagesRightExactly | src/streams.ts:1583-1612 | the listing is right for all indexes exactly when offset + limit + 1 <= 100 |
| StreamListing.NextPageContinues | src/streams.ts:1569-1612 | the page at the next offset continues without gap or repeat |
| BatchSubmission.RunShaped | src/batch-tx.ts:718-834 | against any network: k successes, one entry that broke or was aborted, then only skipped; the network saw send, confirm, send, confirm, in order |
| BatchSubmission.ResultAgrees | src/batch-tx.ts:836-845 | flags and counts agree with the outcomes, and outside a dry run with what the network saw |
| BatchSubmission.DryRunSucceedsUnconfirmed | src/batch-tx.ts:743-756 | a dry run of any one transaction reports allSucceeded and sends the network nothing |
| BatchAnswers.OutcomeByAnswers | src/batch-tx.ts:718-834 | for every network, signer and abort signal each outcome follows from their answers: SUCCESS only if accepted and answered with success by the first poll that is not pending, FAILED, ERROR and SKIPPED likewise |
| BatchAnswers.AllSucceededExactly | src/batch-tx.ts:836-845 | allSucceeded exactly when every transaction succeeds by the answers |
| BatchAnswers.FirstFailureByAnswers | src/batch-tx.ts:836-845 | the first failure reported is the first transaction that does not succeed by the answers |
| BatchAnswers.SentExactly | src/batch-tx.ts:718-782 | a transaction is sent, with its number, exactly if all before it succeeded and it is not aborted, dry or unsigned |
| BatchAnswers.ConfirmedExactly | src/batch-tx.ts:793-818 | a confirmation is read back exactly for those the network confirmed |
| BatchAnswers.SucceededIsConfirmed | src/batch-tx.ts:535-538 | outside a dry run allSucceeded means that the network accepted and confirmed every transaction, in turn |
| BatchAnswers.DryRunUnconfirmed | src/batch-tx.ts:743-756 | a dry run on a network that refuses everything reports allSucceeded |
| BatchAnswers.SucceededIsConfirmedExactly | src/batch-tx.ts:535-538 | allSucceeded means confirmed on-chain by the network's answers, for every network and batch, exactly without dryRun |
| BatchAnswers.ProgressExactly | src/batch-tx.ts:706-756 | progress is reported for every outcome in order, but for the successes of a dry run |
| BatchAnswers.SkippedExactly | src/batch-tx.ts:559-600 | the skipped indexes are those after the first failure, and its own if it was aborted before |
| BatchSubmission.NumberedAt | src/batch-tx.ts:321-335 | transaction i takes sequence + i + 1 |
| BatchSubmission.SubmissionsInSequence | src/batch-tx.ts:306-337 | numbered from the account's sequence, each submission carries the account's next number at that moment |
| BatchSubmission.RetryIsTheBrokenOne | src/batch-tx.ts:602-622 | the operations offered for a retry are the one that broke, or none after an abort |
| BatchSubmission.BuildBatchTransactionsSync | src/batch-tx.ts:321-336 | numbers every operation, or fails at the first without a name |
| BatchSubmission.Poll | src/batch-tx.ts:793-833 | the polling loop ends with the first terminal answer, or times out |
| BatchSubmission.Attempt | src/batch-tx.ts:722-833 | skip, abort, dry run, sign, send and poll, in that order |
| BatchSubmission.SubmitBatch | src/batch-tx.ts:688-852 | the loop computes outcomes, first failure, counts, progress calls and the thrown error |
| BatchSubmission.ChunkBatchOperations | src/batch-tx.ts:75-88 | chunks put end to end are the list; all full but perhaps the last, none empty; an error exactly below size 1 |
| DerSignatures.LengthsAgree | src/signer.ts:336-357 | the 32-bit length is the announced one unless four octets set its top bit |
| DerSignatures.FixedWidthCorrect | src/signer.ts:373-384 | fixing the width succeeds exactly for values that fit and gives their big-endian form |
| DerSignatures.DecodesContents | src/signer.ts:316-370 | what any input, malformed or not, is taken to contain: same inputs accepted and same octets as a tolerant reader that does not test more than the code, unless a length goes negative |
| DerSignatures.DecodedAsAnnounced | src/signer.ts:316-370 | an accepted input is decoded to the contents its lengths announce exactly when none of them went negative |
| DerSignatures.MinimalExact | src/signer.ts:306-314 | the rules for INTEGER contents (shortest, sign bit clear) describe exactly what an encoder writes for their value |
| DerSignatures.WellFormedDecoded | src/signer.ts:307-329 | every well-formed input is accepted exactly when both values are below 2^256, and then gives their 32-octet forms, r first; otherwise the error says it is too wide |
| DerSignatures.AcceptedExact | src/signer.ts:314-329 | an accepted input is well formed exactly when its octets pass the tests the code leaves out |
| DerSignatures.StrictDecoderExact | src/signer.ts:314-329 | accepting only what passes those tests as well would accept exactly the well-formed inputs with both values below 2^256, each decoded to its two values |
| DerSignatures.RefusedExactly | src/signer.ts:316-384 | which inputs are refused as no SEQUENCE, and which as too wide |
| DerSignatures.ShortSequenceAccepted | src/signer.ts:322 | a SEQUENCE of announced length 0 before six octets is accepted |
| DerSignatures.TrailingOctetAccepted | src/signer.ts:322-324 | an octet after the SEQUENCE is accepted |
| DerSignatures.NegativeIntegerAccepted | src/signer.ts:360-370 | a negative INTEGER is accepted |
| DerSignatures.PaddedIntegerAccepted | src/signer.ts:373-378 | an INTEGER with a superfluous zero octet is accepted |
| DerSignatures.NegativeLengthAccepted | src/signer.ts:354-369 | an INTEGER whose announced length exceeds the input by far is accepted |
| DerSignatures.SignatureRoundTrip | src/signer.ts:316-384 | for all r, s < 2^256 decoding their encoding gives their 32-octet forms, r first |
| DerSignatures.ReadDerLength | src/signer.ts:336-357 | the length loop |
| DerSignatures.DerIntegerToFixedWidth | src/signer.ts:373-384 | the trimming loop and the left padding |
| DerSignatures.DerToRawSignature | src/signer.ts:316-329 | the 64-octet array, filled in place, and every error case |
| CircuitBreaker.RunReflects | src/rpc-circuit-state.ts:127-248 | in every history counters, deadline and stored state match the failures since the last success or reset |
| CircuitBreaker.ReportedState | src/rpc-circuit-state.ts:127-248 | the reported state is closed below the threshold, else open until last failure + cooldown, else half-open, for any threshold and cooldown and however long calls take |
| CircuitBreaker.TimesReported | src/rpc-circuit-state.ts:170-248 | in every history the times of the last failure and success since a reset are those reported, for endpoints that failed before |
| CircuitBreaker.ChainsExactly | src/rpc-circuit-state.ts:127-248 | the transitions of a history chain from closed to the stored state over legal edges exactly when no call that opened the circuit read the clock again after its own cooldown |
| CircuitBreaker.TransitionsChainExactly | src/rpc-circuit-state.ts:127-248 | they chain in every history whose calls read the clock at most so long apart exactly when that is less than the cooldown |
| CircuitBreaker.IllegalEdge | src/rpc-circuit-state.ts:227-234 | for every threshold, an opening failure as slow as its cooldown announces open to half-open, then closed to half-open |
| CircuitBreaker.SlowOpeningBreaks | src/rpc-circuit-state.ts:231-234 | a first failure at 100 with a cooldown of 1, read again at 101, announces those two |
| CircuitBreaker.SlowProbeBreaks | src/rpc-circuit-state.ts:213-222 | a failed probe as slow as its cooldown announces half-open to open last, while half-open is stored |
| CircuitBreaker.Registry.GetCircuitState | src/rpc-circuit-state.ts:127-164 | reading one scope advances it and leaves the others alone |
| CircuitBreaker.Registry.Succeeded | src/rpc-circuit-state.ts:170-182 | a success on one scope with its three clock readings, listeners included |
| CircuitBreaker.Registry.Failed | src/rpc-circuit-state.ts:188-235 | a failure on one scope with its three clock readings, listeners included |
| CircuitBreaker.Registry.ResetCircuit | src/rpc-circuit-state.ts:240-248 | a reset of one scope, listeners included |

## Left out

- Sockets are not told apart: a socket may open, close or fail at any moment, which allows more behaviour than real ones. That the current socket is the newest, or that one connect() is pending at most, is not stated; the code does not keep the first.
- Handlers that call back into the relayer, or unsubscribe, in the middle of a segment that notifies them.
- Callbacks that only tell of a gap (`onGap`, `onLedgerGap`) or of a polling error.
- Heartbeat pings, random back-off lengths and delays between polls: timing only.
- Decoding of event topics and payloads, and `replayEvents`: foreign data, and a loop without the shared window.
- `mapWithConcurrency` apart from its token bucket: the adaptive pool contains its difficulties. `fn` is a function of the item.
- TokenBuckets.WindowBound: tokens are exact reals; rounding of floating-point numbers is not modelled.
- LruCache.Retention: cached values are present; a cached `undefined` is a miss in the original. JSON text, timings, NaN deadlines and keys of other types on serialising are not modelled.
- LruCache.LruMemoCache.constructor: a default lifetime that is not positive is a precondition; the original throws.
- Module44.Calculator.constructor: rejected thresholds are a precondition, decided by `CheckThresholds`; the original throws.
- Module49.Engine.ProcessStreamBatch: the chunk size is at least 1 unless there are no items; below that the original loop does not end.
- Module44.Calculator.AssessBatch: the chunk size, likewise.
- Module49.KeyDetermines: numbers in keys are integers; fractional timestamps and numbers printed with an exponent are not modelled. Stream fields the computations do not read are not in the snapshot type.
- DecimalAmounts.ParseRoundsHalfUp: decimals go up to 22; above that the power of ten comes from floating point.
- StreamListing.PagesRightExactly: offsets are non-negative and indexes strictly ascending; base64 cursors and the single-filter and unfiltered listings are not modelled.
- `Array.prototype.sort` is an insertion sort by the same comparison; the orders used admit one result. Timestamps of history rows are integers, and missing rows in a rows array are not modelled.
- Trimming, lower-casing and the formatting of amounts, addresses and times are parameters.
- Error texts and throwing progress callbacks of batches, and the building of a transaction itself; indexes of built transactions are non-negative.
- CircuitBreaker.ReportedState: threshold and cooldown are fixed per scope and the clock never runs backwards. Half-open admits any number of probes in the original. Listeners that call back into the breaker, status listeners other than transitions, and `execute`, are not modelled.
- Contract-side transitions, transports, wallets, keystores, fee estimation and user interface: foreign calls or effects.
- `src/module26.ts`, `src/module36.ts`, `src/module48.ts`: their keys do not determine what they compute, so the cache is not transparent there.
- `src/with-retry.ts`, `parseDuration` and `StreamBuilder.cleanup`: the documented bounds do not hold as stated.
