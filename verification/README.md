# A verified model of the Eggplant SDK's position engine

The SDK moves prediction-market positions through a relayer: it merges, converts and redeems
conditional tokens, keeps order books, and deduplicates a redundant stream of events. This project
models the parts whose correctness is subtle and proves what they are for.

## The convert planner and its engine

One negRisk event is a ledger: each leg holds some NO and some YES, and collateral is freed along the
way (`Ledger`). Merge, split and convert are the three steps. Two facts carry everything: no step
changes what the wallet is worth, whichever leg wins; and "freed plus still freeable" is changed only by
a convert larger than the largest net NO position, which loses exactly the excess.

`Planner` is the planner itself: classify the balances, cut the leftover NO into level tiers, flatten the
plan into calls. Calls carry a condition id or a market id with a bitmap, as on the wire; `PlanSteps`
decodes them back into ledger steps. The central lemma, `Resume.HeadStep`, says that executing the first
planned call and planning again gives exactly the rest of the plan, for any dust floor, any leg cap, and
legs with or without a condition id. From it follow

- executability, exact proceeds and the fixpoint (`Resume`),
- optimality among all sequences of merges, splits and converts, with the exact condition (`Optimality`),
- truncation to the leg cap as a refinement of the untruncated plan, with the exact condition (`Truncation`),
- several events in one wallet with one pot of collateral (`Wallet`, `WalletBound`), what each call weighs
  (`Weights`), submissions under a call cap and a gas budget, in minimal number (`GasChunks`, `Packing`), the
  layout of the flat balance read (`Layout`), and the run loop against a chain and a relayer that may answer
  anything, with a log of everything it submits (`Submission`, `Engine`),
- what it costs when a YES token id is unknown and its balance reads as 0 (`HiddenYes`), when planning again
  from such a read resumes the plan (`HiddenResume`), and exactly when a failure loses something (`HiddenLoss`),
- agreement of the sweep's scan with the planner (`Sweep`), and the background worker that coalesces
  queued jobs into cycles (`Worker`).

## The rest

`Book` proves that any interleaving of duplicated, in-order copies of one stream ends in the same order
book, and that its two depth queries are adjoint. `SeenIds` is a sliding window of accepted ids.
`LiveSocket` is the PING/PONG liveness loop over real time. `DataPager` and the `Redeem` modules are the
redeem drain: paging under an offset cap, grouping, batches with retries (`RedeemDrain`), the passes of a
run (`RedeemPass`), what a page-set's rows come to (`RedeemRows`), when a condition is counted twice (`RedeemCount`, `RedeemSplit`, `RedeemTwice`), and the loop
(`RedeemRun`), whose termination measure is the number of held tokens. `Cancels` and `CancelMerge` are the
bookkeeping of cancel targets.

## Where the code and its documentation differ

The model follows the code. `eggplant_sdk/convert.py:573-574` says every planned call is valid on its own
against the balances the plan was made from. That is false of post-merges, which spend YES that only the
preceding convert mints. `Snapshot.SnapshotValidIff` gives the exact condition over the balances;
`Counterexamples.SnapshotClaimFails` gives events of 21 legs or more where it fails. What does hold is
validity in order (`Resume.PrefixThenReplan`).

## Where a property stops

Each of these holds up to an exact condition, and each has an input at which it fails.

- The plan is optimal exactly when no leg without a condition id holds both sides or is truncated
  (`Optimality.PlanIsOptimalIff`); a single leg with a pair and no condition id is lost
  (`Optimality.PairWithoutConditionIsLost`).
- A truncated tier frees what the untruncated one would exactly when every truncated member has a condition
  id (`Truncation.TruncationRefines`); 21 legs, the last without one, reach a different ledger
  (`Counterexamples.TruncationLosesLeg`).
- With a YES token id unknown, every planned call still executes and a settled round frees exactly what it
  reports. If every holding past the leg cap, as a read shows it, has a known YES token id, any number of
  failures costs nothing (`HiddenResume.ShownPrefix`). For an event recoverable as shown, a failure costs
  nothing at any point of the plan exactly when no leg with an unknown id that the cap truncates at some size
  leaves more than the largest leftover less the gap to the next smaller size (`HiddenLoss.ResumesIff`);
  21 legs of one NO each lose (`Counterexamples.ReplanLosesHiddenYes`).
- A drain in which nothing is given up, without cap or dust floor, counts a condition twice exactly when both
  its sides are held at the start, the first page-set that names either names only one and has the condition as
  neg-risk, and a later page-set names the other (`RedeemSplit.CountsTwiceIffSplit`). In any drain, whatever
  fails, that needs such reports and both batches accepted by the relayer's answers
  (`RedeemCount.CountsTwiceIff`); `RedeemTwice.CountsOneConditionTwice` is such a run.
- Each id is accepted exactly once by `SeenIds` exactly when none is delivered again after leaving the
  window (`SeenIds.AcceptedOnceIff`); a window of one accepts a, b, a three times
  (`SeenIds.ReturningIdIsAcceptedAgain`).
- A socket polled on time is dropped for silence only after three unanswered PINGs; with any delay of up to
  five seconds, after two (`LiveSocket.UnansweredBeforeDrop`, `LiveSocket.DroppedAfterTwo`).
- The merged response of a batched cancel partitions the batch as the payloads' own responses do exactly
  when none of those overrules another (`CancelMerge.MergedPartitionIff`); a second payload's response that
  cancels the first one's first id splits 1001 ids otherwise (`CancelMerge.OneTooManySplits`).

## Assumptions

The legs of a job are the whole event: one shared market id, distinct positions (last bytes of the question
ids) and distinct condition ids; different jobs are different events with disjoint condition ids and token
ids (`PlanSteps.WellFormed`, `Wallet.WalletOk`, `Engine.CycleReady`). Nothing else moves the balances. A
batch lands whole or not at all, and has landed by the next read if it landed. Where a YES token id may be
unknown, `Engine` states what still holds; its strongest clauses are those for wallets in which every holding
past the leg cap has a known one (`HiddenResume.TailsKnown`).
A reported row names its condition's own token and its kind, neg-risk or not; a redeem sent to the contract of
the other kind does nothing. The ids of one cancel batch are distinct. Amounts are unbounded nonnegative integers.

## Model

| member | source | states |
|---|---|---|
| IndexSet.IndexSetOf | eggplant_sdk/convert.py:199-207 | the bitmap has a bit set exactly for the positions of the listed questions, repeated or not |
| IndexSet.SetBitIsOr | eggplant_sdk/convert.py:206 | setting a bit is arithmetic OR with a power of two |
| Ledger.StepStake | eggplant_sdk/convert.py:17-20 | a step lowers collateral plus all NO by the converted amount and nothing else |
| Ledger.StepNet | eggplant_sdk/convert.py:17-20 | a step lowers every leg's net NO by the converted amount |
| Ledger.WorthConservedByRun | eggplant_sdk/convert.py:17-20 | no run of merges, splits and converts changes the wallet's worth, whichever leg wins |
| Ledger.StepLoss | eggplant_sdk/convert.py:17-20 | freed plus freeable is kept, except that a convert above the top net NO loses exactly the excess |
| Ledger.NothingFreesMore | eggplant_sdk/convert.py:507-511 | no finite run frees more than all NO held less the largest net NO |
| Planner.ClassifyEvent | eggplant_sdk/convert.py:467-494 | merges and holdings are those of each leg in order; a leg without condition id still offsets its pairs |
| Planner.LevelsAreSizes | eggplant_sdk/convert.py:517 | the levels are exactly the holding sizes |
| Planner.LevelsIncrease | eggplant_sdk/convert.py:517 | the levels are strictly increasing |
| Planner.PlanTiers | eggplant_sdk/convert.py:497-538 | the loop builds one tier per level over the holders of that level, stopping at a lone dust tier |
| Planner.PlanEvent | eggplant_sdk/convert.py:541-549 | proceeds are the merges plus, per tier, one amount per converted leg but one and per post-merge |
| Planner.PlanEventFromBalances | eggplant_sdk/convert.py:552-560 | the plan of a snapshot, under the cap of 20 legs per convert |
| Planner.BuildConvert | eggplant_sdk/convert.py:210-221 | an error for no questions; otherwise the market id of the first and the bitmap of all |
| Planner.EventCalls | eggplant_sdk/convert.py:586-600 | one event's calls in order, an error exactly when a tier has no question |
| Planner.PlanCalls | eggplant_sdk/convert.py:563-601 | all events' calls one after the other, merges before converts, post-merges right behind their convert |
| Weights.CallsAreWeighed | eggplant_sdk/convert.py:63-68 | in the call list of a wallet every merge weighs 400,000 and every convert 700,000 plus 175,000 for each leg of the event whose market it names |
| Weights.ShownCallsAreWeighed | eggplant_sdk/convert.py:586-600 | the same of a list planned from a read, by the legs of the wallet itself |
| Weights.CallIsSent | eggplant_sdk/convert.py:586-600 | every planned call addresses the event it was planned for |
| Weights.EventsInOrder | eggplant_sdk/convert.py:585-601 | the calls of different events follow one another in the order of the events |
| Sweep.TiersIff | eggplant_sdk/convert.py:517-526 | there are tiers exactly for several holdings or a lone one at or above the floor |
| PlanSteps.PlanNeverEmptyTier | eggplant_sdk/convert.py:517-537 | the planner never makes a tier without questions, so flattening its plans never fails |
| PlanSteps.FirstMerge | eggplant_sdk/convert.py:484-486 | making the first planned merge removes it from the plan and leaves every holding alone |
| PlanSteps.TierMask | eggplant_sdk/convert.py:199-207 | decoding a tier's bitmap selects exactly the first NO-holding legs up to the cap |
| PlanSteps.ConvertFirst | eggplant_sdk/convert.py:526-536 | after a tier's convert the planned merges are its post-merges and the holdings are lowered by its amount |
| Resume.TiersHead | eggplant_sdk/convert.py:503-511 | the first tier takes the smallest size from every holder, the other tiers are the plan of what it leaves |
| Resume.HeadStep | eggplant_sdk/convert.py:503-511 | the first planned call is executable, and planning again after it gives exactly the rest |
| Resume.PrefixThenReplan | eggplant_sdk/convert.py:563-601 | any prefix of the plan executes in order, leaves the rest as the new plan, and keeps freed plus planned |
| Resume.PlanIsFixpoint | eggplant_sdk/convert.py:503-511 | the whole plan executes, frees exactly its stated proceeds, and leaves no merge and no tier |
| Resume.PrefixKeepsWorth | eggplant_sdk/convert.py:541-549 | after any prefix the wallet is worth the same whichever leg wins |
| Optimality.ProceedsMeetBound | eggplant_sdk/convert.py:541-549 | proceeds never exceed the bound and reach it exactly when the event is recoverable |
| Optimality.BoundIsAttained | eggplant_sdk/convert.py:503-511 | some run frees the whole bound |
| Optimality.PlanIsOptimalIff | eggplant_sdk/convert.py:497-560 | no run beats the plan if and only if no leg without condition id holds a pair or lies past the cap |
| Optimality.PlanIsOptimal | eggplant_sdk/convert.py:497-560 | with all condition ids, proceeds are all NO less the largest net NO, whatever floor and cap, and nothing beats them |
| Optimality.PairWithoutConditionIsLost | eggplant_sdk/convert.py:484-494 | a concrete leg with a pair and no condition id, where the plan frees nothing and a merge would |
| Truncation.MergesNet | eggplant_sdk/convert.py:481-486 | running the planned merges nets every mergeable leg and changes nothing else |
| Truncation.TruncationRefines | eggplant_sdk/convert.py:415-429 | a truncated tier and its post-merges reach the ledger of one convert over all members, iff all truncated members have condition ids |
| Truncation.CapIsInvisible | eggplant_sdk/convert.py:513-516 | with condition ids on every holding, plans under any two caps reach the same ledger |
| Counterexamples.TruncationLosesLeg | eggplant_sdk/convert.py:529-535 | events of 21 to 256 legs, the last without a condition id, whose truncated tier reaches another ledger |
| Snapshot.SnapshotValidIff | eggplant_sdk/convert.py:573-574 | every call is valid against the snapshot if and only if each mergeable leg holds, for every leftover size within its own that `cap` earlier legs reach, YES to cover that size less the next smaller one |
| Snapshot.NoYesValidIff | eggplant_sdk/convert.py:573-574 | with no YES held, every call is valid on its own if and only if no holding past the cap has a condition id |
| Snapshot.UnmergeableTailIsValid | eggplant_sdk/convert.py:573-574 | with no mergeable holding past the cap, every call is valid on its own, whatever YES is held |
| Snapshot.NarrowEventIsValid | eggplant_sdk/convert.py:573-574 | with no more holdings than the cap, every call is valid on its own |
| Counterexamples.SnapshotClaimFails | eggplant_sdk/convert.py:573-574 | concrete events of 21 to 256 legs that refute the documented claim |
| Wallet.WalletPrefix | eggplant_sdk/convert.py:585-601 | any prefix of the plan of several events executes and leaves exactly the rest to plan |
| Wallet.ExecutedKeepsWorth | eggplant_sdk/convert.py:541-549 | wherever executable calls have led, every event is worth what it was, whichever leg wins |
| Wallet.ProceedsMeetBounds | eggplant_sdk/convert.py:958 | summed proceeds meet the summed bound exactly when every event is recoverable |
| WalletBound.NothingFreesMoreTogether | eggplant_sdk/convert.py:17-20 | no interleaving of steps over all events, sharing one pot of collateral, frees more than the events' bounds together |
| WalletBound.SplitIsPaidFromPot | eggplant_sdk/convert.py:20 | a split on any event may use the collateral of the whole wallet, and no more |
| WalletBound.NothingBeatsIff | eggplant_sdk/convert.py:17-20 | an amount is beaten by no interleaving if and only if it reaches those bounds together |
| WalletBound.FinishedRunIsOptimal | eggplant_sdk/convert.py:913-1012 | a run that leaves nothing to plan has freed the plan of the initial balances, beaten by no interleaving if and only if every event is recoverable |
| GasChunks.ChunkByGas | eggplant_sdk/convert.py:604-627 | ranges cover the list in order, each within both limits or a single call, and no valid split has fewer |
| GasChunks.GreedyStaysAhead | eggplant_sdk/convert.py:604-627 | a greedy split never needs more ranges than another valid split |
| GasChunks.SubmittedIsAll | eggplant_sdk/convert.py:608-610 | the submissions one after the other are exactly the call list |
| Packing.RangesSplit | eggplant_sdk/convert.py:604-627 | the chunks are consecutive slices of the list, each a single call or within the call cap and, weighed by the wallet's events, the gas budget |
| Packing.RangesAreFewest | eggplant_sdk/convert.py:604-627 | no way of cutting the list into such slices has fewer |
| Layout.BatchTokenIds | eggplant_sdk/convert.py:810-824 | the query lists NO then known YES ids leg by leg, as many as the token count |
| Layout.UnpackBalances | eggplant_sdk/convert.py:827-843 | an error exactly on a wrong length, otherwise the pairs that pack back to the list |
| Layout.UnpackMulti | eggplant_sdk/convert.py:846-861 | the same for all jobs: an error exactly when the length differs from the summed count |
| Layout.ReadBack | eggplant_sdk/convert.py:810-861 | unpacking packed balances returns them, YES as 0 where its id is unknown |
| Engine.BatchOfWallet | eggplant_sdk/convert.py:876-883 | the one batch query of a wallet returns its packed balances |
| Submission.LastTryBounds | eggplant_sdk/convert.py:786-791 | only busy answers are retried, at most the given times, and a busy answer settles only the last |
| Submission.Remote.SubmitWithBusyRetry | eggplant_sdk/convert.py:773-807 | a submission is settled by the first answer that is not busy or the last allowed, is the same batch at every request, and lands at most once |
| Engine.ReadBalancesMulti | eggplant_sdk/convert.py:864-883 | a successful read is the wallet's balances, with YES of unknown id at 0; a failed one is never masked as zeros |
| Engine.PlanJobs | eggplant_sdk/convert.py:896-910 | each job's plan is the plan of what the read shows, and planning submits nothing |
| Engine.SubmitBatch | eggplant_sdk/convert.py:976-988 | takes only executable batches, asks again only while the wallet is busy and retries are left, and lands whole or not at all |
| Engine.SubmitChunks | eggplant_sdk/convert.py:976-988 | every chunk sent is executable and is the next range of the list, none is sent after one that is not accepted; exactly a prefix of the plan lands, all of it if the last is accepted |
| Engine.RunRound | eggplant_sdk/convert.py:946-998 | a prefix of the round's plan lands; what is logged, busy retries aside, is the first batches of a split of the plan into as few submissions as the call cap and gas budget allow; a settled round submitted all of them, reports their number, and reports exactly what they freed |
| Engine.ProcessJobs | eggplant_sdk/convert.py:913-1012 | in every run only executable calls move the chain, every round logs the batches of its own plan and nothing else, and success reports the last round exactly, its number of submissions included; if every holding past the cap has a known YES id, the chain is at a prefix of the first plan and success means all of it is freed, beaten by nothing iff nothing is lost to the reads; giving up needs an exhausted quota or three failed rounds |
| Engine.AllKnown | eggplant_sdk/convert.py:913-1012 | with every YES id known that condition holds, and only legs that cannot be merged are lost |
| HiddenYes.ReadShowsRows | eggplant_sdk/convert.py:827-843 | what a read gives the planner is the event with unknown YES balances at 0 |
| HiddenYes.HiddenPlanRuns | eggplant_sdk/convert.py:827-843 | a plan made with YES hidden executes on the real balances and frees exactly its stated proceeds |
| HiddenYes.ShownPlanRuns | eggplant_sdk/convert.py:827-843 | any prefix of what is planned for a wallet from a read executes on the wallet itself |
| HiddenYes.ShownPlanFrees | eggplant_sdk/convert.py:827-843 | all of it frees exactly the proceeds it was planned with |
| HiddenYes.HiddenYesCost | eggplant_sdk/convert.py:481-494 | it falls short by at least the overstatement of the top net NO, and by exactly that iff the event as shown is recoverable |
| HiddenYes.HiddenPlanIsOptimalIff | eggplant_sdk/convert.py:481-494 | it is optimal if and only if nothing else is lost and the top net NO is not overstated |
| HiddenYes.HiddenPairIsLost | eggplant_sdk/convert.py:837 | a concrete leg whose hidden pair is planned as nothing to free |
| HiddenResume.ShownHeadStep | eggplant_sdk/convert.py:937-948 | if every holding past the cap has a known YES id, planning again from a read after the first call gives exactly the rest, as much promised, and the same of the tail |
| HiddenResume.ShownPrefix | eggplant_sdk/convert.py:937-948 | the same for several events and after any prefix |
| HiddenResume.WhenTailsKnown | eggplant_sdk/convert.py:937-948 | that condition holds with every YES id known, and with at most `cap` NO legs an event |
| HiddenResume.ShownPlansAreOptimalIff | eggplant_sdk/convert.py:497-560 | what is planned from reads is beaten by no interleaving of steps iff nothing is lost to unmergeable legs or to what is not shown |
| HiddenLoss.ResumesIff | eggplant_sdk/convert.py:937-948 | for an event recoverable as shown, planning again makes up for the first plan after every prefix iff no truncated leg of unknown YES id leaves more than the largest leftover less the gap of the size it is truncated at |
| Counterexamples.ReplanLosesHiddenYes | eggplant_sdk/convert.py:937-948 | events of 21 to 256 legs, the last YES id unknown, where planning again after the first call does not |
| Worker.DedupBySlug | eggplant_sdk/convert.py:661-665 | the loop keeps the first job of every slug |
| Worker.OneJobPerSlug | eggplant_sdk/convert.py:661-665 | no slug runs twice and none is missed |
| Worker.FirstOccurrenceRuns | eggplant_sdk/convert.py:661-665 | what runs for a slug is the job queued first |
| Worker.DedupKeepsOrder | eggplant_sdk/convert.py:661-665 | the jobs that run keep their queue order |
| Worker.ResidualSettles | eggplant_sdk/convert.py:652-658 | a wait settles every job if and only if it is at least the residual |
| Worker.ConvertWorker.RunCycle | eggplant_sdk/convert.py:702-756 | tops up the wait so every fill has settled, calls the cycle once on the distinct events, and emits one result per job with that call's outcome |
| Worker.ConvertWorker.RunPass | eggplant_sdk/convert.py:690-756 | takes the first job and everything queued by the end of the first wait; later jobs stay queued |
| Worker.ConvertWorker.Run | eggplant_sdk/convert.py:668-756 | over any run, jobs offered are those consumed, in order, plus those too late for the last pass |
| Worker.CycleOfIsOwn | eggplant_sdk/convert.py:682-685 | each consumed job stands at its own position in the batch of the cycle that consumed it |
| Worker.OneResultPerJob | eggplant_sdk/convert.py:682-756 | one result per consumed job, duplicates included, in consumption order, telling how that very cycle ended: success, quota exhausted, or its error |
| Sweep.LegSizes | eggplant_sdk/sweep.py:77-103 | each leg is credited the positions its token map names, unknown and unparsable tokens skipped |
| Sweep.CreditedIsTotal | eggplant_sdk/sweep.py:77-103 | with distinct tokens that is exactly the reported size of the leg's own tokens |
| Sweep.ClassifySizes | eggplant_sdk/sweep.py:106-143 | counts and flags agree with the planner's merges, holdings and tiers |
| Sweep.ScanEvent | eggplant_sdk/sweep.py:71-143 | on exact reports an event is actionable exactly when its plan has calls, and merge shares equal the planned merges |
| Book.ApplyKeepsNoZero | eggplant_sdk/book.py:36-63 | no event leaves a level of size zero |
| Book.EntriesMakeLadder | eggplant_sdk/book.py:44-45 | a ladder has exactly the prices some entry gives a non-zero size, each at the size its last such entry gives |
| Book.SnapshotReplaces | eggplant_sdk/book.py:36-45 | after a snapshot the bids are the ladder of its bids and the asks that of its asks |
| Book.DeltaSetsOne | eggplant_sdk/book.py:47-63 | a change sets or removes the level at its price on its own side and leaves everything else alone |
| Book.FanOutConverges | eggplant_sdk/book.py:47-52 | any interleaving of complete in-order copies of a stream ends in the book of one copy |
| Book.OrderBook.ApplySnapshot | eggplant_sdk/book.py:36-45 | both ladders are replaced, each by its own side's entries, zero sizes dropped, later entries overriding |
| Book.OrderBook.ApplyDelta | eggplant_sdk/book.py:47-63 | one level of the named side is set or removed, the other side is left alone, and true is returned exactly when the ladder changed |
| Book.OrderBook.BestBid | eggplant_sdk/book.py:65-67 | the highest bid, none exactly on an empty ladder |
| Book.OrderBook.BestAsk | eggplant_sdk/book.py:69-71 | the lowest ask, none exactly on an empty ladder |
| Book.OrderBook.AskPriceForSize | eggplant_sdk/book.py:73-88 | the least price whose depth covers the need, or the deepest when none does |
| Book.OrderBook.AskDepthUpTo | eggplant_sdk/book.py:90-98 | the depth at or below a ceiling, in whatever order levels are summed |
| Book.PriceForSizeUnique | eggplant_sdk/book.py:73-88 | the marginal price is unique |
| Book.DepthQueriesAdjoint | eggplant_sdk/book.py:90-98 | a ceiling buys the need if and only if the ladder holds it and the ceiling reaches the marginal price |
| SeenIds.Seen.Insert | eggplant_sdk/ws/util.py:101-112 | set and queue hold the same distinct ids, the last accepted ones; an id is new iff not among them |
| SeenIds.Seen.Contains | eggplant_sdk/ws/util.py:114-119 | seen means among the last accepted ids |
| SeenIds.Deliver | eggplant_sdk/ws/util.py:88-94 | over a whole stream, exactly the first deliveries are handled when re-deliveries stay in the window |
| SeenIds.AcceptedIsDelivered | eggplant_sdk/ws/util.py:101-112 | exactly the delivered ids are accepted, however short the window |
| SeenIds.AcceptedOnceIff | eggplant_sdk/ws/util.py:88-94 | each id is accepted exactly once if and only if no id returns after leaving the window |
| SeenIds.ReturningIdIsAcceptedAgain | eggplant_sdk/ws/util.py:105-112 | a window of one accepts a, b, a three times |
| SeenIds.FewIdsStayInWindow | eggplant_sdk/ws/util.py:101-112 | with no more ids than the capacity every delivery stays in the window |
| LiveSocket.Socket.NextText | eggplant_sdk/ws/market.py:238-272 | of the polls used the last ends the call as its outcome says (clean close, failed read, data, PONG timeout, failed ping) and no earlier one ends it; the last PONG and the next ping are kept |
| LiveSocket.CallEnds | eggplant_sdk/ws/market.py:238-272 | the same of the turn-by-turn machine, in terms of the polls alone |
| LiveSocket.CallIsTurns | eggplant_sdk/ws/market.py:238-272 | a call is the turns it uses: their state and their verdict |
| LiveSocket.SessionIsCalls | eggplant_sdk/ws/market.py:238-272 | a whole session is what repeated calls compute |
| LiveSocket.TurnsAreBounded | eggplant_sdk/ws/market.py:243-256 | no turn begins later than the last PONG read plus 30 plus 10 plus the caller's delay |
| LiveSocket.SilenceIsDropped | eggplant_sdk/ws/market.py:245-250 | once PONGs stop, any turn from the last PONG plus 30 plus 10 on raises, no turn begins later than the caller's delay past that, and no drop comes within the timeout |
| LiveSocket.TimeoutNeedsUnansweredPings | eggplant_sdk/ws/frames.py:24-26 | a drop for silence needs at least n unanswered PINGs whenever n paced intervals, and a new socket's slack, fit in the timeout |
| LiveSocket.UnansweredBeforeDrop | eggplant_sdk/ws/frames.py:24-26 | three when polled on time, two with delays of up to five seconds |
| LiveSocket.DroppedAfterTwo | eggplant_sdk/ws/frames.py:24-26 | with any such delay a session is dropped after exactly two |
| DataPager.AllRedeemable | eggplant_sdk/data.py:105-135 | the page-set, with hit_cap exact; without it every asset appears exactly once |
| DataPager.PageSetIs | eggplant_sdk/data.py:115-135 | a cut page-set is the first rows within reach of the offset cap, or of what lies before the first full page with nothing new |
| DataPager.FirstRowsAreFirst | eggplant_sdk/data.py:119-123 | of each asset the row listed first is kept, and the kept rows stay in order |
| DataPager.DistinctListingNeverStale | eggplant_sdk/data.py:129-131 | a listing without repeats is never cut by the recycled-page test |
| Redeem.GroupRedeemable | eggplant_sdk/redeem.py:95-119 | the groups of the rows, first-seen order, unparsable rows dropped |
| Redeem.GroupsWellFormed | eggplant_sdk/redeem.py:95-119 | one group per condition, holding the condition's own tokens and kind when rows are truthful |
| Redeem.BuildRedemptions | eggplant_sdk/redeem.py:122-147 | groups holding something and no less than the minimum, with their balances |
| Redeem.BuildCalls | eggplant_sdk/redeem.py:200-221 | neg-risk conditions redeem their held sides through the adapter, binary ones both through the CTF |
| RedeemRows.GroupedIffReported | eggplant_sdk/redeem.py:95-119 | a condition is grouped exactly when some row of it parses |
| RedeemRows.KindOfFirstRow | eggplant_sdk/redeem.py:111-114 | a group has the kind its condition's first parsed row gives |
| RedeemRows.TokenOfLastRow | eggplant_sdk/redeem.py:115-118 | a group's token of a side is that of its condition's last parsed row of that side |
| RedeemRows.GroupedInOrder | eggplant_sdk/redeem.py:99-119 | conditions are grouped in the order of their first parsed rows |
| RedeemRows.PlannedIff | eggplant_sdk/redeem.py:122-147 | a condition is redeemed exactly when its reported sides hold something, and no less than the minimum |
| RedeemRows.CallKind | eggplant_sdk/redeem.py:200-221 | a planned call goes to the CTF exactly when its condition's first parsed row is not neg-risk |
| RedeemRows.CallSides | eggplant_sdk/redeem.py:200-221 | through the adapter a call names exactly the reported sides held, through the CTF both, and it is sent where its condition is redeemed |
| RedeemRows.CallsInOrder | eggplant_sdk/redeem.py:293-297 | calls follow the order of their conditions' first rows, so a cap keeps those reported first |
| RedeemRows.CapTakesFirst | eggplant_sdk/redeem.py:293-297 | a cap cuts the calls off behind as many conditions as it leaves, and cuts nothing else |
| RedeemRows.PassFollowsIff | eggplant_sdk/redeem.py:283-314 | without a cap or failure, another pass follows exactly when paging stopped short and something reported was worth redeeming |
| Redeem.BatchDrains | eggplant_sdk/redeem.py:318-328 | landing a batch, each call sent where its condition is redeemed, empties at least one held token per call |
| Redeem.LeftAfterRedeemIff | eggplant_sdk/convert.py:292-297 | a condition still holds something after its redeem iff it is neg-risk and its other, held side was not reported |
| RedeemDrain.SecondLandingIsIdle | eggplant_sdk/redeem.py:318-326 | redeeming a batch again after it landed unreported changes nothing |
| RedeemDrain.SubmitBatch | eggplant_sdk/redeem.py:333-361 | success is the last answer; however often a batch lands, the balances change once |
| RedeemDrain.BatchTries | eggplant_sdk/redeem.py:333-361 | a batch is sent again only after a failed try, at most the given times, given up only after the last, and landed iff some try did |
| RedeemDrain.AllSentWell | eggplant_sdk/redeem.py:318-362 | every call is counted once, accepted calls have landed, and each emptied a held token |
| RedeemDrain.SubmitBatches | eggplant_sdk/redeem.py:318-362 | what is logged, repeats aside, is the calls in order in batches of the size asked for, one settled before the next; counts and balances are those of sending them so |
| RedeemDrain.PlannedCallsAreUseful | eggplant_sdk/redeem.py:122-147 | planned calls concern distinct conditions, and each is sent where it redeems something held |
| RedeemDrain.ReadAndPlan | eggplant_sdk/redeem.py:235-244 | reading only the grouped tokens plans the redemptions of the chain's balances |
| RedeemRun.RunPass | eggplant_sdk/redeem.py:290-314 | one pass submits exactly the capped redemptions of its page-set and goes on exactly when it made progress, was cut short and the cap is not used up |
| RedeemRun.RedeemAll | eggplant_sdk/redeem.py:263-315 | every run ends, is the chain of passes to the first that does not go on, submits each pass's calls in batches and nothing else, never exceeds the cap, counts no token twice, and no condition twice when the page-sets read report every held side of a neg-risk condition |
| RedeemPass.LastPageSetIsEmpty | eggplant_sdk/redeem.py:271-279 | with no failure, cap or dust floor, every token the last page-set named is empty |
| RedeemCount.AcceptedTwiceIsSplit | eggplant_sdk/redeem.py:289-306 | a condition accepted in two passes was reported as neg-risk without a held side by the earlier page-set, and with it by the later |
| RedeemCount.AcceptedIff | eggplant_sdk/redeem.py:318-362 | a pass counts a condition iff it sends a call for it and the relayer's answers accept that call's batch |
| RedeemCount.CountsTwiceIff | eggplant_sdk/redeem.py:289-306 | in any run, a condition is counted twice iff two passes send calls for it in batches the answers accept, its reports split like that |
| RedeemSplit.CountsTwiceIffSplit | eggplant_sdk/redeem.py:289-306 | with nothing given up and no cap or floor: iff both sides are held at the start, the first page-set naming either names one only, as neg-risk, and a later one names the other |
| RedeemTwice.CountsOneConditionTwice | eggplant_sdk/redeem.py:289-306 | a concrete complete run, over a listing of 1000 equal rows and one of one row, that counts one condition twice |
| Cancels.PartitionCancels | eggplant_sdk/clob/poster.py:578-607 | done and retry are the batch split by verdict, in order; with no response everything is retried |
| Cancels.TerminalIff | eggplant_sdk/clob/poster.py:541-568 | a reason is terminal exactly when one of seven phrases stands in it, in whatever case |
| Cancels.NothingLost | eggplant_sdk/clob/poster.py:583-597 | done and retry together are the batch as a multiset |
| Cancels.KeptHasVerdict | eggplant_sdk/clob/poster.py:583-597 | each side holds exactly the batch's items of its verdict |
| Cancels.KeepIsInOrder | eggplant_sdk/clob/poster.py:583-597 | each side keeps the batch order |
| Cancels.NoTargetLost | eggplant_sdk/clob/poster.py:583-597 | over any retry rounds, dropped and still tracked items together are the batch |
| Cancels.DroppedWasConfirmed | eggplant_sdk/clob/poster.py:591-596 | an item leaves tracking after a canceled or terminal verdict for its id and only then |
| CancelMerge.CancelInBatches | eggplant_sdk/clob/poster.py:610-618 | one request per payload of 1000, in order, responses merged; the first failure fails the whole |
| CancelMerge.PayloadsCover | eggplant_sdk/clob/poster.py:610-618 | the payloads one after the other are the ids, none empty and none over 1000, all but the last full |
| CancelMerge.MergedVerdict | eggplant_sdk/clob/poster.py:616-617 | an id is gone for the merged response iff some response cancels it or the last reason given for it is terminal |
| CancelMerge.MergedPartitionIff | eggplant_sdk/clob/poster.py:578-618 | with distinct ids, partitioning by the merged response is partitioning payload by payload iff no response overrules another payload's verdict |
| CancelMerge.OwnAnswersOverruleNothing | eggplant_sdk/clob/poster.py:610-618 | responses that name only ids of their own payload overrule nothing |
| CancelMerge.BatchedCancelPartition | eggplant_sdk/clob/poster.py:578-618 | the same of any successful batched cancel |
| CancelMerge.ForeignCancelSplits | eggplant_sdk/clob/poster.py:610-618 | any batch of two payloads, the first answered with silence and the second cancelling its first id, is partitioned otherwise than payload by payload |
| CancelMerge.OneTooManySplits | eggplant_sdk/clob/poster.py:610-618 | the same of 1001 concrete distinct ids |

## Left out

- Engine.ProcessJobs: does not model wrapping the freed USDC.e (best effort, its own submission), the
  returned text, or the sleeps; a failure of the wrap snapshot read counts as a failed balance read.
- Engine.ProcessJobs: where a holding past the leg cap has an unknown YES token id it states executability, the
  last round's exact proceeds and conservation of worth, not that the first plan is freed in full, which is
  false (`Counterexamples.ReplanLosesHiddenYes`).
- HiddenLoss.ResumesIff: speaks of events recoverable as a read shows them; where a truncated leg has no
  condition id, planning again may also promise more than the first plan.
- Submission.Remote.Submit: an accepted batch is on chain by the next read; settlement delay beyond the wait is not modelled.
- Planner.PlanTiers: the leg cap is a natural number; Python's slicing with a negative cap is not modelled.
- Planner.BuildConvert: ABI encoding is not modelled; a call is its decoded content. Merges and converts all go to one contract.
- RedeemRun.RedeemAll: a failed page request or balance read, which raises out of the loop, is not modelled;
  it is not claimed that the wallet ends empty, since rows with another outcome name no token, failed batches
  stay, and a page-set of dust stops the loop.
- DataPager.AllRedeemable: the listing stands still during one paging run and may change between runs.
- RedeemDrain.ReadAndPlan: the chunking of the balance read is not modelled.
- Worker.ConvertWorker.Run: the endless loop is every finite run of it; an exception that is not an SDK error
  ends the worker and is not modelled; a cycle's outcome is an arbitrary function of the jobs it ran on.
- Sweep.ClassifySizes: sizes are exact integers where the source sums floats; an unheld minimum is 0, not infinity.
- Book.OrderBook.AskPriceForSize: prices and sizes are integers in one unit; decimal rounding is not modelled.
- LiveSocket.Socket.NextText: the clock reading and the outcome of each receive are inputs; cancellation is not modelled.
- Cancels.PartitionCancels: lower-casing covers ASCII letters only.
- CancelMerge.CancelInBatches: the concurrent single-order variant is not modelled.
- Concurrency of separate reads (`asyncio.gather`) is not modelled; each read is one moment.
- HTTP, WebSocket and JSON-RPC transport, signing, hashing and address derivation.
- Wire parsing, leg parsing from market metadata, fees, ticks and price formatting: one-branch facts.
- Approvals, wraps and the sweep's discovery and execution loop: thin sequencing over remote calls.
