# The mev-share node in Dafny

The node takes bundles of transactions from clients, validates them, joins a
backrun to the bundle it names by hash, queues them for simulation, simulates
them for each block of their window, publishes hints and sends what succeeded to
builders. This project models that pipeline and proves what holds of every
input, every reachable state and every run.

- **Simulation queue.** `PackedItem` is the byte format of queue members and the
  order Redis sorts them in. `QueueMachine` is the queue as a machine of atomic
  actions: pushes, workers and the block updater interleave freely, and each Redis
  command, block load and return of the process function is one action.
  `QueuePlacement`, `QueueSafety`, `QueueConservation`, `QueueRequeues` and
  `QueueCapacity` prove its invariants. `RedisQueues` holds the imperative queue.
  Its calls, one after the other, are a run of the machine (`QueueCalls`,
  `QueueSerial`), so theorems about runs become theorems about the object.
- **Worker.** `SimWorker` is the simulation worker and the gate to the builders,
  `WorkerRuns` the queue with the worker plugged in, `Replacement` the
  replacement nonces.
- **Spike manager.** `SpikeMachine` is the single-flight cache as a machine of
  channel, mutex, cache and map actions. `SpikeSafety` and `SpikeProgress` prove it
  safe and free of deadlock. `SpikeManagers` holds the imperative loop bodies,
  proved to be runs of the machine.
- **Bundles.** `Validation*`, `Acceptance`, `BundleHash`, `BuilderTargets`, `RefundRecipient`,
  `Matching`, `MatchedHashes`, `Pipeline`.
- **Disclosure and statistics.** `Logs`, `Hints`, `HintContents`, `Rounding`,
  `BundleStats`.

Decoding of transactions, transaction hashes, keccak and JSON are parameters.
Where a proof needs keccak to be free of collisions, the lemma says so
(`BundleHash.CollisionFree`).

Where code and comments disagree the model follows the code. The examples and the
mention of powers of 16 at `RoundUpWithPrecision` do not describe what it does.
`Intersect` can return duplicates. `cleanBody` changes only copies of the body
elements, so it does nothing.

Some expected properties fail. For each there is a lemma with an input that shows
it, and a lemma with the exact condition:

- A nested bundle with no max block can empty or spoil the merged window, which
  is possible only at current blocks below 30 (`UnsetNestedMaxEmptiesWindow`,
  `WindowSoundIff`, `IdempotentIff`, `LateAcceptanceSetsNestedMax`).
- Not every accepted bundle converts to the refund-recipient form: one with two
  refunds does not (`TwoRefundsDoNotConvert`, `ConversionPreservesMeaning`).
- Bundles are cleaned before they are sent, after which a bundle that allows a
  transaction to revert no longer converts (`CleaningLosesReverting`,
  `CleanedConvertsIff`).
- Blocks past 2^53 can share a score, and negative timestamps sort after
  positive ones (`BlocksPast53BitsCollide`, `NegativeTimeSortsLate`,
  `OrderAgreesIff`).
- A push with min above max is processed outside its window
  (`EmptyWindowIsProcessed`, `ClampKeepsWindowIff`).
- The worker asks for a next block that does not exist only at the largest
  uint64 state block (`NextBlockWithoutRoom`, `NextBlockHasRoom`).
- A bundle can be sent for a block past its window, exactly if the state block
  reached the end of the window (`SendPastWindow`, `SendBlockBounds`).
- After the replacement counter expires an old bundle can pass
  (`ExpiryLetsOldPass`, `OldIff`).
- A bundle that is replaced between its check and its send is sent all the same
  (`ReplacedWhileSending`, `SentIsLatestIff`).
- A failed insert can make hints be published again
  (`FailedInsertPublishesAgain`, `HintsAreCounted`).
- Rounding with no digit of precision is idempotent at no positive number
  (`RoundedUpIdempotentIff`, which covers both).

## Model

| member | source | states |
|---|---|---|
| PackedItem.PutBigEndian | simqueue/utils.go:36-38 | a big-endian word is written at its offset and no other byte changes |
| PackedItem.PackData | simqueue/utils.go:28-41 | the filled buffer and the score are the packed form of the item |
| PackedItem.UnpackOfPacked | simqueue/utils.go:28-56 | unpacking recovers every field of every item, except that the block passes through a binary64 number |
| PackedItem.RoundTripIff | simqueue/utils.go:28-56 | packing then unpacking is the identity exactly when the block is a binary64 number |
| PackedItem.MemberOrder | simqueue/utils.go:22-41 | packed bytes compare lexicographically exactly as priority, iteration, unsigned timestamp, max block and payload do |
| PackedItem.OrderAgreesIff | simqueue/utils.go:22-41 | for any two items, the Redis order on score and bytes is the documented order exactly when: for one block, timestamps that decide have equal signs; for two blocks, they differ as binary64 numbers or the other fields agree |
| PackedItem.ScheduledBeforeIsTotalOrder | simqueue/queue.go:36-44 | the scheduling order is a strict total order, so the least item is unique |
| PackedItem.NegativeTimeSortsLate | simqueue/utils.go:37-37 | an item from before 1970 is sorted after the same item with a later time |
| PackedItem.BlocksPast53BitsCollide | simqueue/utils.go:29-29 | past 2^53 an item for a lower block can be sorted after one for a higher block |
| Bytes.Float64Monotone | simqueue/utils.go:29-29 | conversion of uint64 to binary64 never reverses order |
| Bytes.Float64ExactIff | simqueue/utils.go:29-29 | conversion is exact exactly on multiples of the local spacing |
| QueuePlacement.StepKeeps | simqueue/queue.go:175-445 | every action of every thread keeps each item in exactly one place, with any item property that the queue's decisions keep |
| QueueSafety.RunKeeps | simqueue/queue.go:162-445 | every state of every run satisfies the placement invariant with the window, retry and history properties |
| QueueSafety.ItemsStayInWindow | simqueue/queue.go:175-206 | every queued and in-flight item has submitted min <= current min <= max |
| QueueSafety.CallsAreOnTimeAndInOrder | simqueue/queue.go:295-387 | process calls target the loaded block plus one, inside the window, never go back, and move on strictly after a success |
| QueueSafety.LivesAreBounded | simqueue/queue.go:295-445 | the history of every item ever submitted satisfies all bounds |
| QueueSafety.WorkIsBounded | simqueue/queue.go:423-445 | at most MaxRetries + 1 calls that are not lagging, and at most MaxRetries + (max - min) requeues that change the item |
| QueueConservation.ItemsAreConserved | simqueue/queue.go:228-445 | in every reachable state no two items share a key, and submissions = queued + in flight + gone |
| QueueConservation.AddNeverCollides | simqueue/queue.go:256-265 | adding to the sorted set never overwrites a member |
| QueueConservation.InspectionOutcome | simqueue/queue.go:309-340 | exactly when a popped item is processed, requeued, stale, or out of retries |
| QueueConservation.VerdictOutcome | simqueue/queue.go:346-383 | exactly when each verdict requeues or drops the item, why, and the requeued item |
| QueueRequeues.RequeuedOrDropped | simqueue/queue.go:228-445 | in every reachable state, every action of a thread keeps its item, adds it once as a new member, or lets it go: a worker for one of six reasons or a crash, a push only when rejected or on a crash |
| QueueRequeues.RequeuedExactlyOnce | simqueue/queue.go:228-445 | in every run an item is added exactly once between two pops; only items never popped are rejected, only popped ones dropped by a worker |
| QueueConservation.RequeuesUseUpWork | simqueue/queue.go:311-445 | a requeue puts back the same item (too early, lagging) or strictly decreases (MaxRetries - iteration) + (max - min) |
| QueueConservation.ClampKeepsWindowIff | simqueue/queue.go:175-206 | the item that is pushed, field by field; clamping to the next block keeps a window non-empty exactly when it was |
| QueueCalls.EmptyWindowIsProcessed | simqueue/queue.go:175-206 | a run from the start in which an item pushed with min above max is processed past its max block |
| QueueCapacity.UnprocessableIsBounded | simqueue/queue.go:211-265 | with at most n threads between count and add, whatever interleaves, unprocessable items never exceed the larger threshold plus n - 1 |
| QueueCalls.EnqueueRun | simqueue/queue.go:228-265 | pushToQueue, uninterrupted, is a run that adds the item exactly if the queue accepts it |
| QueueCalls.PushRun | simqueue/queue.go:175-206 | Push, uninterrupted, is a run of the machine |
| QueueCalls.TurnRun | simqueue/queue.go:295-387 | a worker's turn, uninterrupted, is a run that pops the first item and requeues it as decided |
| RedisQueues.CountsAgree | simqueue/queue.go:211-224 | counts over packed members by score are the counts over queued items by block |
| RedisQueues.AcceptsIff | simqueue/queue.go:228-254 | admission in the four configured limits and the number of members up to, and past, the next block |
| RedisQueues.ClassifyIff | simqueue/queue.go:348-383 | which sets of joined errors lead to which verdict |
| RedisQueues.TurnErrorIff | simqueue/queue.go:295-445 | which error a turn returns, for any item and any answer |
| RedisQueues.MinimumIsFirst | simqueue/queue.go:269-293 | the member Redis pops is the first queued item in the documented order |
| RedisQueues.PoppedMember | simqueue/queue.go:269-293 | what Redis removes as its minimum is the packed form of the first item, and the rest still represents the rest |
| RedisQueues.RedisQueue.constructor | simqueue/queue.go:150-160 | a new queue is empty at block zero |
| RedisQueues.RedisQueue.UpdateBlock | simqueue/queue.go:162-173 | the block never goes back; a lower one is an error |
| RedisQueues.RedisQueue.QueuedItems | simqueue/queue.go:211-224 | the two counts split the sorted set at the next block and add up to its size |
| RedisQueues.RedisQueue.PushToQueue | simqueue/queue.go:228-265 | the packed member is added exactly when the count of its class is below the limit of its class and priority, and an add never leaves more than that limit |
| RedisQueues.RedisQueue.Push | simqueue/queue.go:175-206 | exactly when a push succeeds, in its blocks, the counts and the four limits; stale and full errors; the member added; the object stays a run of the machine, well submitted if the window is non-empty and the key new |
| RedisQueues.RedisQueue.PopFromQueue | simqueue/queue.go:269-293 | pops and unpacks the first item in scheduling order, or reports an empty set |
| RedisQueues.RedisQueue.RetryItem | simqueue/queue.go:423-445 | the loop over attempts leaves the sorted set and the error that the retry decision says |
| RedisQueues.RedisQueue.ProcessNextItem | simqueue/queue.go:295-387 | one turn pops the first item, requeues or drops it as the classified answer says, and returns the matching error; the object stays a well submitted run |
| RedisQueues.RedisQueue.AfterProcess | simqueue/queue.go:346-387 | the chain of error tests amounts to the verdict's decision |
| RedisQueues.RedisQueue.MembersLieInWindows | simqueue/queue.go:175-206 | every member of a well used queue object unpacks to an item inside the window it was pushed with |
| RedisQueues.RedisQueue.FutureItemsAreFew | simqueue/queue.go:228-265 | whatever calls were made on the object, one after the other, items for future blocks never exceed the larger threshold |
| SpikeSafety.StepKeeps | spike/manager.go:76-163 | every action of clients, dispatcher and goroutines, and every cache expiry, keeps the invariant |
| SpikeSafety.RunKeeps | spike/manager.go:76-163 | the invariant holds in every state of every run |
| SpikeProgress.OneFetchPerKey | spike/manager.go:76-141 | at most one fetch per key is in flight, and a key has waiters exactly while one is |
| SpikeProgress.OneOwner | spike/manager.go:76-163 | every result channel has exactly one owner |
| SpikeProgress.OneSendOneClose | spike/manager.go:76-141 | every channel gets one send and one close when answered, none before |
| SpikeProgress.SendsNeverBlock | spike/manager.go:76-141 | whoever is about to send finds the buffer empty |
| SpikeProgress.RepliesComeFromFetches | spike/manager.go:76-163 | what callers get and what is cached are recorded replies for that key; only found values are cached |
| SpikeProgress.RepliesWereFetched | spike/manager.go:76-141 | every recorded reply was returned by a fetch of that key during the run |
| SpikeProgress.StepUsesUpMeasure | spike/manager.go:76-163 | every internal action decreases a measure; only a new call increases it |
| SpikeProgress.WorkPerCallIsBounded | spike/manager.go:76-163 | a run has at most sixteen internal actions per call |
| SpikeProgress.SomeActionUnlessQuiescent | spike/manager.go:76-163 | unless every call is answered and no waiter is left, some internal action can happen, once pending fetches return |
| SpikeProgress.CanReachQuiescence | spike/manager.go:76-163 | from every reachable state at most as many internal actions as the measure says lead to all calls answered and no waiters left |
| SpikeManagers.Manager.DispatchOne | spike/manager.go:76-95 | a dispatcher turn answers from the cache, joins the waiters or spawns, and is a run of the machine |
| SpikeManagers.Manager.RunTask | spike/manager.go:96-139 | a goroutine answers from the cache, joins, or fetches, caches a success and answers; it is a run of the machine |
| SpikeManagers.Manager.DeliverAll | spike/manager.go:118-138 | every waiter gets the reply once and the key is forgotten |
| BuilderNames.Intersect | mevshare/utils.go:73-90 | the loops compute the lowercased elements of the second list that the first has |
| BuilderNames.IntersectionNames | mevshare/utils.go:73-90 | the names of the result are the case-insensitive intersection |
| BuilderNames.IntersectionSnoc | mevshare/utils.go:73-90 | order and repetition of the result are those of the second list |
| BuilderNames.ToLowerChars | mevshare/bundle_validation.go:237-240 | letters A to Z move up by 32 code points, all else stays |
| BuilderLists.IntersectAllNames | mevshare/bundle_validation.go:56-65 | after any number of merges a name is left exactly when every list has it |
| BuilderLists.IntersectAllAgain | mevshare/bundle_validation.go:56-65 | merging the outcome again yields the very same sequence |
| Validation.MergeIsIntersection | mevshare/bundle_validation.go:39-53 | merging any windows intersects them, the result is non-empty exactly when both are, and for such windows merging fails exactly when they are disjoint |
| Validation.MergeBuildersIsIntersection | mevshare/bundle_validation.go:55-65 | an absent inner setting counts as an empty list |
| Validation.RevertModeNormalised | mevshare/bundle_validation.go:67-92 | the outcome is a valid mode consistent with canRevert, a given mode wins, and applying it again changes nothing |
| ValidationLoops.CheckRefundConfig | mevshare/bundle_validation.go:193-203 | accepts exactly percentages in range with total at most 100 |
| ValidationLoops.CheckRefunds | mevshare/bundle_validation.go:205-223 | accepts exactly distinct indices in range, percentages in range and total at most 100 |
| ValidationLoops.LowerInPlace | mevshare/bundle_validation.go:237-240 | every name is lowered, in place and in order |
| ValidationLoops.ValidateBundleInner | mevshare/bundle_validation.go:94-255 | the loops and early returns compute the validation function, errors included |
| ValidationLoops.FinishBundle | mevshare/bundle_validation.go:173-254 | the checks after the body loop, in order, with privacy clean-up and fresh metadata |
| Acceptance.AcceptedIff | mevshare/bundle_validation.go:94-255 | a bundle is accepted exactly when version, the four window bounds, element kinds, pairwise overlap of windows, count, refunds and privacy are as written out; then its count and matching state |
| Acceptance.RejectedBeforeBody | mevshare/bundle_validation.go:95-125 | which error the checks before the body give, in their order |
| Acceptance.RejectedByElement | mevshare/bundle_validation.go:127-172 | the first element that does not fit decides the error |
| Acceptance.RejectedAfterBody | mevshare/bundle_validation.go:173-236 | which error the checks after the body give, in their order |
| Acceptance.AcceptedPrivacy | mevshare/bundle_validation.go:225-241 | hints gain the hash bit exactly when not zero, the wanted refund stays, and builders are the names that the bundle and all its bundles list |
| Acceptance.AcceptedElement | mevshare/bundle_validation.go:128-171 | every element of the result: explicit revert mode, accepted nested bundle, or unchanged |
| Acceptance.AcceptedRest | mevshare/bundle_validation.go:243-254 | node-owned metadata is fresh, the matching hash is the hash of the hash, and no other field changes |
| ValidationWindow.InnerAccepted | mevshare/bundle_validation.go:154-171 | nested bundles of an accepted bundle were accepted one level down and are fully matched |
| ValidationWindow.WindowIsIntersection | mevshare/bundle_validation.go:102-171 | an accepted bundle's window is the non-empty intersection of its own and all nested windows |
| ValidationWindow.WindowSoundIff | mevshare/bundle_validation.go:102-171 | the merged window still passes all four inclusion checks exactly when every nested bundle sets its max block |
| ValidationWindow.LateAcceptanceSetsNestedMax | mevshare/bundle_validation.go:102-171 | from block 30 on, acceptance alone gives that condition |
| ValidationNormal.BodyIsNormal | mevshare/bundle_validation.go:121-171 | validation maps the body element by element to its normal form, keeping kinds and order |
| ValidationNormal.Idempotent | mevshare/bundle_validation.go:94-255 | validating the result again returns the same bundle, hash and count, at every level |
| ValidationNormal.IdempotentIff | mevshare/bundle_validation.go:94-260 | it does so exactly when every nested bundle sets its max block |
| ValidationNormal.UnsetNestedMaxEmptiesWindow | mevshare/bundle_validation.go:154-158 | an accepted bundle whose window is empty |
| BundleHash.HashIsTreeHash | mevshare/bundle_validation.go:127-186 | validation's hash is the hash of the body tree with single-element bundles collapsed |
| BundleHash.HashIdentifiesTree | mevshare/bundle_validation.go:177-186 | without collisions, the hash of a fully matched tree determines the tree |
| BundleHash.SameHashIffSameTree | mevshare/bundle_validation.go:127-186 | two accepted, fully matched bundles have equal hashes exactly when their collapsed trees are equal |
| BuilderTargets.NamedThroughoutIff | mevshare/bundle_validation.go:262-274 | the recursive reading of the merge agrees with quantifying over every bundle in the tree |
| BuilderTargets.MergePrivacyBuildersInner | mevshare/bundle_validation.go:262-269 | the recursive loop keeps exactly the names that the top and every bundle below share |
| BuilderTargets.MergePrivacyBuilders | mevshare/bundle_validation.go:271-274 | the merged list is the intersection over the whole tree, at any depth |
| BuilderTargets.ExternalTargets | mevshare/builders.go:278-312 | each suitable configured builder is chosen exactly once and no other is |
| BuilderTargets.InternalTargets | mevshare/builders.go:241-276 | exactly which internal builders are sent to, by API, signer, delay and block |
| BuilderTargets.SendTargets | mevshare/builders.go:202-312 | exactly which external builders are chosen, once each: named by every bundle of the tree, supporting replacement if needed, and not delayed on the first block |
| RefundRecipient.ExtractTxsForRefundRecipientBundle | mevshare/refund_recipient.go:12-45 | the recursive loop computes the extraction function, errors included |
| RefundRecipient.ExtractsLeaves | mevshare/refund_recipient.go:12-45 | a conversion lists the leaves in order and the hashes of exactly those that may revert |
| RefundRecipient.ExtractRefundIff | mevshare/refund_recipient.go:47-95 | refund data is found exactly for no refund, for one of a first element that refunds its sender, or for one of a bundle with a single recipient |
| RefundRecipient.ExtractsRefund | mevshare/refund_recipient.go:47-95 | exactly when the refund names no recipient, or the one in the config, and the percentage in each case |
| RefundRecipient.ConversionPreservesMeaning | mevshare/refund_recipient.go:97-114 | an accepted, fully matched bundle converts exactly when it flattens and its refund can be expressed; then block, leaves, count (at most 50), reverting hashes and refund are right |
| RefundRecipient.RefundIsSane | mevshare/refund_recipient.go:47-95 | for an accepted bundle the refund is the one asked for, in [0, 100] and at most each factor |
| RefundRecipient.CleanedConvertsIff | mevshare/builders.go:348-356 | a cleaned bundle converts exactly when it flattens, its refund can be expressed and nothing may revert; then block, transactions, no reverting hashes and the refund asked for |
| RefundRecipient.CleaningLosesReverting | mevshare/builders.go:348-356 | a bundle of one transaction that may revert converts as a whole, and no longer does once cleaned |
| RefundRecipient.TwoRefundsDoNotConvert | mevshare/refund_recipient.go:52-55 | an accepted, fully matched bundle that flattens but refunds two transactions does not convert |
| Logs.Log.RemoveLogFields | mevshare/hints.go:186-193 | in place, topics after the first and all data are zeroed, the number of topics kept |
| Logs.FilterSpecialLogs | mevshare/hints.go:162-184 | keeps the special logs in order, redacted in place, also when a log is listed twice |
| Logs.SpecialLogsShowViews | mevshare/hints.go:162-193 | two log lists give equal special logs exactly when their swap views are equal |
| Logs.SpecialLogsSnoc | mevshare/hints.go:162-193 | which logs are kept, in order, and every topic and byte left of them |
| Hints.ExtractHintsInner | mevshare/hints.go:48-93 | the recursive loop computes the hint function, errors included |
| Hints.TxHintsDiscloseExactly | mevshare/hints.go:14-46 | a transaction's hints are equal exactly when what the intent discloses of it is |
| Hints.SameViewSameHints | mevshare/hints.go:48-93 | bundle trees that agree on what the intents along each path disclose give equal hints |
| Hints.HintsDiscloseOnlyTheView | mevshare/hints.go:95-132 | the published hint depends on nothing but the view, the matching hash and the rounded figures |
| Hints.HiddenBundlesStayHidden | mevshare/hints.go:48-132 | exchanging body and logs of a bundle that does not share its hash, nested at any depth, leaves the published hint unchanged |
| HintContents.HintContains | mevshare/hints.go:14-132 | exactly when a hint is extracted, and all it contains: matching hash, the contributions of the transactions in view in order, field by field, and the rounded figures |
| HintContents.AcceptedHintHash | mevshare/hints.go:117-120 | the hint of an accepted bundle carries the hash of its hash |
| Rounding.RoundUpWithPrecision | mevshare/utils.go:92-120 | the steps on the decimal string compute the rounding function, for every integer and precision |
| Rounding.RoundedUpOfNat | mevshare/utils.go:97-120 | the number itself if it has at most p digits, else the least multiple of the power of ten not below it |
| Rounding.RoundedUpOfInt | mevshare/utils.go:97-120 | the same for every integer, the sign counting as a digit |
| Rounding.RoundedUpBelowNextPower | mevshare/utils.go:97-120 | the result stays within the power of ten above the number |
| Rounding.RoundedUpHasFewDigits | mevshare/utils.go:97-120 | the result has at most p significant digits |
| Rounding.RoundedUpRelativeError | mevshare/utils.go:97-120 | (result - n) * 10^(p-1) < n |
| Rounding.RoundedUpMonotone | mevshare/utils.go:97-120 | rounding preserves order, also across digit counts |
| Rounding.RoundedUpIdempotent | mevshare/utils.go:97-120 | rounding twice is rounding once |
| Rounding.RoundedUpIdempotentIff | mevshare/utils.go:97-120 | at a positive number it is idempotent exactly when some digit of precision is kept |
| BundleStats.StatsTable.InsertBundleForStats | mevshare/database.go:203-322 | one row changes as the insertion function says, including each failing transaction; no other row changes |
| BundleStats.StatsTable.CancelBundleByHash | mevshare/database.go:324-341 | cancels exactly the signer's own row, once |
| BundleStats.RowSummarisesResults | mevshare/database.go:203-322 | after any run of results and cancellations: last success or else last result, exact count and total gas, latest body |
| BundleStats.DecisiveIsLastSuccess | mevshare/database.go:254-282 | the stored result is that of the last success; if there is none, of the last result |
| BundleStats.CancellationStays | mevshare/database.go:203-341 | no result undoes a cancellation and only the first signer cancels |
| BundleStats.CancelledForever | mevshare/database.go:203-341 | once cancelled, cancelled in every later state |
| BundleStats.RowOrigin | mevshare/database.go:203-341 | in every run the row has signer and matching permission of the first recorded result, and is cancelled exactly when that signer cancelled after it |
| BundleStats.InsertAnswers | mevshare/database.go:203-322 | when the caller is told that the bundle is known, or of an error, at each failing point |
| BundleStats.HintsAreBounded | mevshare/sim_result_backend.go:87-114 | hints are processed at most once more than transactions fail |
| BundleStats.HintsAreCounted | mevshare/sim_result_backend.go:87-105 | in every run hints are processed exactly once per shared success whose insert failed or which no recorded result preceded |
| BundleStats.FailedInsertPublishesAgain | mevshare/sim_result_backend.go:87-105 | a failed insert makes hints be processed twice |
| Replacement.CacheKeyInjective | adapters/redis/replacement.go:25-37 | with addresses of fixed length, keys of different signers or ids differ |
| Replacement.ReplacementCache.IncReplacementNonce | adapters/redis/replacement.go:25-34 | the counter of the key grows by one and is returned; others stay |
| Replacement.PassedNoncesNeverGoDown | mevshare/sim_queue.go:185-196 | across all workers, nonces judged not old never go down in check order |
| Replacement.OnlyLatestPasses | mevshare/sim_queue.go:185-196 | a bundle is not old exactly when its nonce is the current counter |
| Replacement.OldIff | mevshare/sim_queue.go:185-196 | in every run, expiry included, old exactly when more submissions than the nonce followed the last loss of the counter |
| Replacement.LatestAlwaysPasses | mevshare/sim_queue.go:185-196 | a submission not replaced later is never judged old |
| Replacement.ExpiryLetsOldPass | adapters/redis/replacement.go:30-32 | with expiry a replaced bundle passes after its replacement did |
| Replacement.SentIsLatestIff | mevshare/sim_queue.go:185-238 | over any run, what is sent was the latest at its check, and still is when sent exactly if nothing was submitted under its key in between |
| Replacement.ReplacedWhileSending | mevshare/sim_queue.go:229-238 | a run in which a bundle is replaced after its check and still sent |
| SimWorker.SentIff | mevshare/sim_result_backend.go:116-133 | exactly which bundles and cancellations a call sends, in nonces, blocks and fields of the bundle, and for which block |
| SimWorker.VerdictIff | mevshare/sim_queue.go:130-262 | the verdict for every answer, in blocks, the replacement id and the place of "nonce too low" in the message |
| SimWorker.ContainsIff | mevshare/sim_queue.go:260-262 | the search finds the text exactly if it occurs at some position |
| SimWorker.DeliveryIff | mevshare/sim_queue.go:185-238 | exactly when a result is handed on, as a cancellation or not, as old or not |
| SimWorker.NextBlockHasRoom | mevshare/sim_queue.go:199-227 | the next block is asked for only if the target is below the bundle's max block, unless the state block is the largest uint64 |
| SimWorker.NextBlockWithoutRoom | mevshare/sim_queue.go:219-227 | at that state block it is asked for without room |
| SimWorker.SendBlockBounds | mevshare/sim_result_backend.go:127-133 | a send is for the target block or later, and in the window exactly if the state block is below the max block |
| SimWorker.SendPastWindow | mevshare/sim_result_backend.go:127-133 | a success simulated on the last block of the window is sent for the block after it |
| SimWorker.RetriedFailuresAreSilent | mevshare/sim_queue.go:198-238 | results that are tried again are not recorded or sent unless they cancel |
| SimWorker.SentExactlyIfLatest | mevshare/sim_queue.go:185-196 | over any run of submissions, what is simulated in time under a replacement id is sent exactly when it is the latest as the counter is read, save a success without tip |
| SimWorker.SentWasLatestWhenChecked | mevshare/sim_queue.go:185-196 | whatever else happens in the call, a bundle that is sent was the latest as the counter was read |
| WorkerRuns.ItemsStayStored | mevshare/sim_queue.go:109-119 | in every run each item still is the bundle, with the max block, that was scheduled |
| WorkerRuns.NextBlockIsNeverMissing | mevshare/sim_queue.go:198-227 | in every run an item ends for want of a next block only after a success, never after the worker asked for the next block |
| WorkerRuns.SendsAreBounded | mevshare/sim_queue.go:229-238 | in every run a submission is sent at most MaxRetries + 1 times |
| WorkerRuns.SendsAreNotEarly | mevshare/sim_result_backend.go:127-133 | in every run what is sent was submitted, for a block not before its target nor its submitted window |
| Matching.FindAndReplace | mevshare/api.go:94-103 | every occurrence is replaced in place and the result says whether there was one |
| Matching.MatchBackrun | mevshare/api.go:148-184 | exactly when each error is returned, and every field of the joined bundle otherwise |
| Matching.HintedMayBeBackrun | mevshare/bundle_validation.go:231-233 | an accepted bundle can be backrun exactly when it asked for any hint |
| Matching.HashOnlyFirst | mevshare/bundle_validation.go:127-140 | an accepted bundle is unmatched exactly when its first element is a hash, and no other is |
| Matching.MatchIsSound | mevshare/api.go:163-184 | joining accepted bundles leaves nothing unmatched, with a valid refund, only builders the stored bundle names, and the common window |
| MatchedHashes.JoinedHashesAreTreeHashes | mevshare/api.go:169-172 | without collisions, the rewritten body hashes of a joined bundle are the tree hashes of its elements: the replacement hits no other element |
| Pipeline.AcceptedWorkIsBounded | mevshare/sim_queue.go:109-119 | an accepted bundle enters the queue with a non-empty window and is changed by at most MaxRetries + 30 requeues |

## Left out

- SpikeManagers.Manager.DispatchOne: runs without interference from other threads; interleaving is covered by the machine, of which the method is one run.
- SpikeManagers.Manager.RunTask: likewise runs without interference; a concurrent cache expiry is covered by the machine only.
- RedisQueues.RedisQueue.ProcessNextItem: runs without interference, with a fixed block; interleaving is covered by the machine.
- RedisQueues.RedisQueue.Push: takes blocks up to 2^53 and non-negative times, as the queue machine does; outside that range the order and round-trip lemmas say what changes.
- MatchedHashes.JoinedHashesAreTreeHashes: takes it that the first element carries no transaction beside its hash; with one, the joined element is treated as that transaction (MatchIsSound).
- Hints.HintsDiscloseOnlyTheView: says what hints may depend on; equality of hints is characterised exactly only per transaction.
- WorkerRuns.NextBlockIsNeverMissing: takes it that state blocks are below the largest uint64, where the property fails.
- SimWorker.VerdictIff: takes it that stored bundles have metadata, without which the worker panics.
- ValidationLoops.ValidateBundleInner: rewrites bundle values, not shared structs, so aliasing between a bundle and its nested bundles is not captured; neither is it in MatchBackrun and MergePrivacyBuilders.
- ValidationLoops.LowerInPlace: lowers ASCII letters only.
- uint64 wrap-around of block numbers in validation and in the queue's `currentBlock + 1`; the worker's own arithmetic does wrap in the model.
- Several nodes sharing one Redis queue, each with its own block number.
- Clients of Redis, Postgres, Ethereum and builders, JSON, backoff times, timeouts, wall-clock expiry and rate limits: they are parameters or nondeterministic steps.
- Completion of the wait groups in builder dispatch; only the choice of targets is modelled.
- The cache of known bundles with `newerInclusion`: which resubmissions are ignored depends on evictions that the cache library decides, and the comparison itself is one `<`.
- The cancellation cache, GetBundleByMatchingHash and InsertBundleForBuilder: single Redis or SQL commands; their answers are parameters of the worker and of the matching.
- jsonrpcserver, cmd, metrics, EthCachingClient, formatUnits, dbIntToEth, ConfigFromEnv, LoadBuilderConfig, printing of hint intents.
