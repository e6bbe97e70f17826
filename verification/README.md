# katpool in Dafny

A Dafny 4.11 model of katpool, a Kaspa mining pool written in Rust, with the properties its money path, its
share-submission path and its control loops are meant to have. `dafny verify dfyconfig.toml` checks the whole
project.

**The reward ledger** (`FeeModel`, `ProRata`, `ShareWindow`, `Ledger`, `LedgerSafety`, `LedgerTheorems`, `Payouts`,
`PayoutTiers`, `AllocationEngine`). A matured coinbase output is recorded once per outpoint; its share window is
rolled up per wallet; the reward is pro-rated with a residue rule; each gross is split into pool fee, NACHO rebate and
net payout; everything commits in one transaction gated on the reward row. `Ledger` is a state machine whose steps are
the atomic transactions: share inserts, UTXO observations, the five stages of an allocation attempt, and a crash of an
attempt at any stage, in any interleaving. `AllocationEngine` is the same operation as a method over the tables, with
its loops; its tables are those of the machine's five steps run back to back. `Payouts` says what every row of every
run pays in terms of the share table alone. The tables carry two history columns the database does not have: how many
shares each window was last closed over, and how many an allocated reward's attempt had closed over.

**Share submission** (`JobRing`, `WalkBack`, `TtlQueue`, `TtlPruning`, `DuplicateGuard`, `DuplicateHistory`,
`BlockGuard`, `Submission`, `SubmissionSafety`, `SubmissionTheorems`, `SubmissionProgress`, `DuplicateAnswers`,
`Arrivals`, `BlockPublication`, `BlockAnswers`). The 300-slot job ring against an unbounded log of issued jobs, the
walk-back over earlier jobs, the two caches with TTL and capacity, and the machine of concurrent submissions: jobs are
issued per client while submissions walk them, the block guard and the node are composed in, and each submission's
events, counter and settled outcome are tied to the frame it came from, its walk and the node's answer. Proof-of-work
values and block hashes are uninterpreted functions of job and nonce.

**Control and limiting** (`VarDiff`, `VarDiffConvergence`, `TokenBucket`, `AntiAbuse`, `CircuitBreaker`,
`KrcHoldings`, `TierClassifier`, `TierAnswers`, `TierProbes`). The difficulty controller, the per-IP token bucket and
connection tickets, and concurrent tier classification behind a TTL cache and a circuit breaker.

**Codecs** (`LineFraming`, `LineFramingTheorems`, `FrameText`, `JobCodec`, `Decimal`, `Money`). Newline framing over
arbitrary read chunks, the job encodings, and fixed-point amounts.

A machine is a function `Step` on states and actions; an action that does not apply leaves the state alone; a run
is a sequence of actions, so a theorem over all action sequences is a theorem over all interleavings. Classes carry
the source's mutable fields, and their methods are proved against the functions the theorems are about.

Conventions. Weights, difficulties, rates and clock readings are exact reals or integers. A `sqrt` is a given
nonnegative real whose square is the argument. 64-bit bounds are written out where they decide an outcome
(`I64_MAX`, `U64_LIMIT`, `U128_LIMIT`). Release builds of the source abort on integer overflow, so the walk-back
from job id 0 is an explicit `Underflow` verdict. Database semantics (unique keys, row locks, `ON CONFLICT`,
ordering) are those of the queries in `crates/katpool-db`.

Where the code and its comments disagree the model follows the code:

- `accountant/src/config.rs:196-198` says every remainder stays with the pool; in the code the remainder of the
  top-line fee stays in the net payout and only the rebate remainder goes to the pool (`FeeModel.ExactSplit`).
- `accountant/src/config.rs:200-203` says only a negative gross is an error; a gross whose product with the rate
  exceeds 64 bits is one too (`FeeModel.ComputeAllocationOutcome`).
- `accountant/src/tier_kasplex.rs:372-377` says the cooldown lets one probe through; in the code every call that
  reaches the gate before a reply goes through (`TierProbes.ProbesBetweenReplies`).
- `bridge/src/kaspaapi.rs:540-544` and `:561-570` treat an RPC error that names a duplicate block apart from other
  errors. The RPC error is wrapped in a context whose text is all that the two string tests see, so neither can match
  one, and only the guard's own refusal is ever reported as a duplicate. The model keeps the `DuplicateError` answer:
  its runs include those of the code, and the theorems hold with and without it.

Properties that turned out false of the code, each with a witness and the exact condition under which it holds:

- The block guard's capacity bounds its map but not its queue, which grows under mark and remove
  (`BlockGuard.QueueCanOutgrowMap`). A remove keeps the queue a listing of the map exactly when the hash is not live
  (`BlockGuard.RemoveKeepsListingIff`), and each remove of a live hash costs at most one entry
  (`BlockGuard.QueueBound`).
- Framing does depend on the cut: a first read that is a bare `SM` is refused even when the line goes on harmlessly
  (`LineFramingTheorems.CutAfterSMIsRefused`, `LineFramingTheorems.TheCutMatters`).
  `LineFramingTheorems.SurvivesUnlessCutAfterSM` is the exact condition.
- The cooldown does not let one probe through but every call at the gate (`TierProbes.TwoProbesInFlight`). Two go out
  before a reply exactly when two calls reached the gate (`TierProbes.TwoProbesIffTwoReach`); calls that come one at
  a time probe once (`TierProbes.SequentialCallsProbeOnce`).
- The token-bucket bound of burst plus rate times length fails for stamps that go back
  (`TokenBucket.ClockMustNotGoBack`). It holds for all limits exactly when none does
  (`TokenBucket.BudgetIffNondecreasing`), and for arbitrary stamps admission is characterised by the refill
  (`TokenBucket.AdmittedIffConforming`).
- A share that names job id 0 can end the process (`SubmissionTheorems.AbortIsReachable`): exactly when the job found
  in slot 0 misses both targets (`SubmissionTheorems.AbortsExactly`), and a job is found there exactly after 300 have
  been issued (`JobRing.LookupOfZero`).

The difficulty step goes towards its goal and not past it from every reachable difficulty
(`VarDiffConvergence.DifficultyAtLeastOne`, `VarDiffConvergence.StepNeverCrosses`). Below 1, which no run reaches, the
exact condition is `VarDiffConvergence.TowardsIff`.

## Model

| member | source | states |
|---|---|---|
| FeeModel.ComputeAllocationOutcome | accountant/src/config.rs:210-254 | For every gross and tier: which of success, negative gross and fee overflow results, as an if-and-only-if each, so the rebate overflow and the unbalanced error are unreachable; on success all parts are nonnegative, add up to the gross, and are the exact floors |
| FeeModel.RebateStageFits | accountant/src/config.rs:224-236 | Whenever the fee product fits 64 bits the rebate product does too, whatever the tier |
| FeeModel.SmallGrossSucceeds | accountant/src/config.rs:210-254 | Every gross up to i64::MAX / 1000 is split successfully |
| FeeModel.TierOnlyMovesTheFee | accountant/src/config.rs:114-118 | The tier never changes the net payout or whether the split succeeds; Elite only moves fee into rebate |
| FeeModel.PartsAddUp | accountant/src/config.rs:179-181 | Over any list of balanced splits the sums of the three parts add up to the sum of the grosses |
| FeeModel.SumTotals | accountant/src/allocation.rs:417-429 | The saturating loop returns the true sums capped at i64::MAX |
| FeeModel.TotalsAreExact | accountant/src/allocation.rs:417-429 | When the grosses add up to a 64-bit reward no total saturates and the three add up to the reward |
| ProRata.ProRateIsFloorShare | accountant/src/allocation.rs:450-469 | The pro-rated amount is the greatest integer not above the exact proportional share, between 0 and the reward |
| ProRata.ResidueRange | accountant/src/allocation.rs:243-257 | For positive total weight the residue lies in 0 to N - 1 |
| ProRata.GrossesArePropSplit | accountant/src/allocation.rs:238-257 | Grosses add up exactly to the reward; every wallet but the smallest id gets its floor share and the smallest gets its floor share plus the residue |
| ProRata.GrossesOrderIndependent | accountant/src/allocation.rs:243-257 | A wallet's gross is the same for every order of the rows |
| ProRata.SumWeights | accountant/src/allocation.rs:238-241 | The loop total is the sum of the row weights |
| ProRata.FloorAll | accountant/src/allocation.rs:243-249 | The array of floor shares and their running sum |
| ProRata.FirstByWallet | accountant/src/allocation.rs:250-257 | The scan finds the first row with the smallest wallet id |
| ProRata.ProRateWindow | accountant/src/allocation.rs:238-257 | The whole stage: an error exactly for a total weight that is not positive, otherwise the proportional grosses with the residue placed |
| ProRata.SplitAll | accountant/src/allocation.rs:272-279 | The splitting loop stops at the first error and otherwise splits every gross |
| ProRata.SplitGrossesOutcome | accountant/src/allocation.rs:272-279 | Success exactly when every gross times the rate fits 64 bits; then each split is exact and the grosses are kept |
| ProRata.RewardFullyDistributed | accountant/src/allocation.rs:238-279 | For rewards up to i64::MAX / 1000 the whole pipeline succeeds and fee, rebate and net totals add up to the reward without saturating |
| ShareWindow.GroupByWalletIsPerWallet | accountant/src/window.rs:111-120 | The grouped aggregate holds exactly the wallets with a share in range, each with its weight sum, share count and earliest credit |
| ShareWindow.HistoryKeepsSnapshots | accountant/src/window.rs:88-179 | After any history of inserts and closures every window's rows are exactly the rollup of the shares that were in the table when that window was last closed, and empty if it never was |
| ShareWindow.ClosuresMoveForward | accountant/src/window.rs:88-179 | No insert or closure, of any window, moves a window back to fewer shares |
| ShareWindow.ClosedRowsAre | accountant/src/window.rs:88-179 | Closing over such tables leaves exactly the per-wallet sums and counts of the half-open range |
| ShareWindow.ClosureIsExact | accountant/src/window.rs:88-179 | After any history a closure leaves rows for exactly the contributing wallets, with exact weights and counts, all ending now; a row that was there keeps its start and a new one starts at its wallet's earliest credit in the window |
| ShareWindow.FirstStartIsKept | accountant/src/window.rs:121-127 | No later operation changes the first started_at of a row, and no row disappears |
| ShareWindow.ReclosureIsIdempotent | accountant/src/window.rs:88-179 | A second closure changes nothing but the end stamp |
| ShareWindow.AdjacentWindowsPartition | accountant/src/window.rs:111-120 | Adjacent half-open windows count every share exactly once, by weight and by number |
| ShareWindow.AllContributors | accountant/src/window.rs:137-161 | Summed over the wallets of the window, weights and counts are the totals over all shares in range |
| ShareWindow.ReadBack | accountant/src/window.rs:137-161 | The read-back loop over the upserted rows returns the number and the total difficulty of all shares in range |
| ShareWindow.WindowAggregator.InsertShare | crates/katpool-db/src/repo/share.rs:59-88 | Appends the share; every window stays the exact rollup of the shares at its last closure |
| ShareWindow.WindowAggregator.CloseWindow | accountant/src/window.rs:88-179 | An error exactly for an empty range, which changes nothing; otherwise the upserted rows and their stamps are exact for the shares now in the table, other windows keep theirs, and the outcome reports the number of wallets, shares and the total weight |
| Ledger.MaturityRule | accountant/src/maturity.rs:486-497 | The checked-subtraction test is maturity exactly when the virtual score reached block score plus maturity |
| Ledger.RecordMatured | accountant/src/maturity.rs:350-444 | One sweep: outpoints stay distinct, old rows are kept in place, every new row is unallocated and comes from an eligible UTXO of this sweep, every eligible UTXO is recorded, and the counts of new, below-floor and failed outputs are exact |
| LedgerSafety.RunKeepsInv | accountant/src/allocation.rs:208-354 | The ledger invariant holds in every state reachable under any interleaving of sweeps, shares, closures, attempts and crashes |
| LedgerSafety.ListedWeightsPositive | accountant/src/allocation.rs:238-241 | Rows listed for a window have positive weights and distinct wallets, so the invalid-weight error is unreachable from the tables |
| LedgerTheorems.AllocationIsProp | accountant/src/allocation.rs:208-354 | In every run an allocated reward has one listing of its window's wallets behind it, of all shares credited up to a moment no earlier than the allocating attempt's own closure; its rows are that listing one for one, each with its own wallet, weight and split, the grosses are the proportional split with residue, and each row has the exact fee, rebate and net floors of its gross |
| Payouts.PaidByShares | accountant/src/allocation.rs:231-354 | In every run, in terms of the share table alone: each wallet that contributed to the window has one row and no other wallet has; the row carries the summed difficulty of its wallet out of that of the window, a gross that is its part of the reward rounded down, plus the residue exactly for the smallest contributing wallet id, and its exact fee split; the rows add up to the reward, the residue is below their number, and the one audit entry counts and sums them |
| Payouts.EveryRowPays | accountant/src/allocation.rs:283-298 | In every run every row in the table belongs to an allocated reward and pays its wallet so |
| Payouts.ListingTotal | accountant/src/allocation.rs:238 | The weights of a listing add up to the difficulty of all shares in the window |
| PayoutTiers.TierWasGiven | accountant/src/allocation.rs:260-281 | In every run the tier a row was split under was given for that very wallet, to an attempt that had read it in the window of the row's reward |
| LedgerTheorems.BasisWasClosed | accountant/src/allocation.rs:208-236 | In every run that lower bound is the number of shares in the table when an attempt for this very reward closed its window |
| LedgerTheorems.RewardTrichotomy | accountant/src/allocation.rs:208-354 | In every run each reward is unallocated with no rows, retained by the pool with no rows, or fully distributed with grosses that add up to its amount and audit totals that do too |
| LedgerTheorems.AccrualMatchesRows | accountant/src/allocation.rs:314-320 | In every run a wallet's accrued rebate is the sum of the rebates over its rows |
| LedgerTheorems.NoDoubleAllocation | accountant/src/allocation.rs:300-320 | No two rows ever share reward and wallet |
| LedgerTheorems.StepOnReward | accountant/src/allocation.rs:300-320 | No step changes a recorded reward's identity, amount or score, nor the rows and audit of an allocated one |
| LedgerTheorems.AllocationIsPermanent | accountant/src/allocation.rs:300-320 | Over any continuation an allocated reward keeps its flag, rows and audit |
| LedgerTheorems.RewardWasObserved | accountant/src/maturity.rs:350-444 | Each reward row stems from an observation of that outpoint, with its amount and score, that was mature and at or above the score floor; outpoints are distinct |
| LedgerTheorems.EligibleIsRecorded | accountant/src/maturity.rs:350-444 | From every reachable state an observation of an eligible output with a new outpoint adds exactly its reward, unallocated, and any other observation changes no reward |
| LedgerTheorems.ValueIsConserved | accountant/src/maturity.rs:350-444 | The gross of all rows is the sum of the amounts of distributed rewards and never exceeds the sum over recorded outpoints |
| LedgerTheorems.AllocatedHasWindow | accountant/src/maturity.rs:433-444 | A reward can only be allocated when its window is nonempty as a range |
| LedgerTheorems.UndisturbedAttemptAllocates | accountant/src/allocation.rs:208-354 | From every reachable state, for every listing order and all tiers, an undisturbed attempt on an open reward with a window leaves it retained if no wallet contributed, fully distributed exactly if every gross times the rate fits 64 bits, and open otherwise |
| LedgerTheorems.AttemptRuns | accountant/src/allocation.rs:208-354 | The five steps of the machine run back to back are one call of the engine on the same tables |
| AllocationEngine.Engine.constructor | accountant/src/config.rs:62-70 | An engine over a fee configuration that its constructor let through starts valid on empty tables |
| AllocationEngine.Engine.AllocateCoinbaseReward | accountant/src/allocation.rs:208-354 | The tables afterwards are the engine call that `AttemptRuns` equates with the machine's attempt; the outcome by cases is negative reward, bad window, split error, unknown reward, already allocated, retained, or the proportional split with exact totals that add up to the reward |
| AllocationEngine.Engine.AllocateListed | accountant/src/allocation.rs:231-354 | The part after the closure: the invalid-weight error is unreachable, and the commit happens exactly when the split succeeds and the reward is open |
| AllocationEngine.Engine.FinaliseEmpty | accountant/src/allocation.rs:376-408 | Marks an open reward retained with one audit entry; a second call or an unknown id changes nothing |
| AllocationEngine.Engine.CommitAllocation | accountant/src/allocation.rs:281-354 | Inserts rows, accruals, flag and audit together exactly when the locked reward is still open; the rows added are one for each listed wallet, in order, with its own weight and split |
| AllocationEngine.NewRows | accountant/src/allocation.rs:283-298 | Row i belongs to wallet i of the listing, carries its weight out of the total of the listing, and split i |
| AllocationEngine.AccrueAll | accountant/src/allocation.rs:315-319 | The accrual loop adds each row's rebate to its wallet |
| JobRing.NewestInSlotIsNewest | bridge/src/mining_state.rs:54-75 | What a slot holds is the newest issued id congruent to it |
| JobRing.OwnSlotExactlyForLast300 | bridge/src/mining_state.rs:54-91 | An id is still in its slot exactly while fewer than 300 jobs were issued after it |
| JobRing.LookupRefinesLog | bridge/src/mining_state.rs:79-91 | Looking up an issued id returns the log's job for it when it is among the last 300, and otherwise the newest job of its slot |
| JobRing.LookupOfZero | bridge/src/mining_state.rs:79-85 | Id 0, which is never issued, finds a job exactly when at least 300 jobs were issued |
| JobRing.RingLooksUp | bridge/src/mining_state.rs:54-85 | The ring as a map of slots answers every lookup as the log does |
| JobRing.MiningState.AddJob | bridge/src/mining_state.rs:54-75 | Appends to the log, returns the new id, and keeps both slot maps in step with it |
| JobRing.MiningState.GetJob | bridge/src/mining_state.rs:79-85 | Returns the newest job of the id's slot |
| JobRing.MiningState.GetJobIdAtSlot | bridge/src/mining_state.rs:88-91 | Returns the newest id issued into the slot |
| WalkBack.Evaluate | bridge/src/share_handler.rs:599-1179 | The loop's verdict for every id: the first tried job that passes a target, or low difficulty after at most min(id, 300) checks; it aborts exactly for id 0 with a miss |
| WalkBack.LowExactlyWhenAllMiss | bridge/src/share_handler.rs:1118-1206 | For every id, low difficulty exactly when every tried job misses both targets |
| WalkBack.HitIsFirstThatPasses | bridge/src/share_handler.rs:599-1179 | The job of a block or share verdict is the first on the walk that passes, every job before it missing |
| WalkBack.WalkResultUnique | bridge/src/share_handler.rs:599-1179 | The relation admits one verdict, so it determines the job and its DAA score |
| WalkBack.WalkHasVerdict | bridge/src/share_handler.rs:599-1179 | Every walk has a verdict, so together with uniqueness the relation is a function |
| WalkBack.TriedSlotsDistinct | bridge/src/share_handler.rs:1140-1179 | No slot is visited twice and the id never drops below 1 |
| WalkBack.FullRingIsCovered | bridge/src/share_handler.rs:1140-1179 | Against a full unchanging ring, for every id from 1, low difficulty exactly when every slot on the way misses: all 300 from id 300 upwards, slots 1 to the id below that |
| TtlQueue.Prune | bridge/src/share_handler.rs:200-222 | The two pruning loops compute the pruned queue, which `TtlPruning.PruneIsExactly` describes |
| TtlPruning.PruneIsExactly | bridge/src/share_handler.rs:200-222 | For every queue: pruning takes a front part of it and the keys in that part, and a position is in that part exactly when every position up to it is past the TTL or no longer in the map, or the map is over its capacity without the positions before it |
| TtlPruning.KeptIff | bridge/src/kaspaapi.rs:116-138 | A key stays, with its entry unchanged, exactly when it is in the map and none of its positions is taken |
| DuplicateHistory.QueueIsInsertionOrder | bridge/src/share_handler.rs:200-236 | After any history of inserts, sets and lookups the queue lists exactly the resident keys, once each, at most max + 1 of them, ordered by the insert that began each present stay |
| DuplicateHistory.ResidentStays | bridge/src/share_handler.rs:229-236 | That insert found the key absent, and the key has been resident after every operation since |
| DuplicateHistory.EntryIsLastTouch | bridge/src/share_handler.rs:229-245 | A resident entry holds the time and outcome of the last set on that key in this stay, or of the insert that began it if there was none |
| DuplicateHistory.GetReturnsLastRecorded | bridge/src/share_handler.rs:224-245 | After any history a lookup returns that outcome exactly when the key is resident and not to be forgotten |
| DuplicateHistory.ForgetsIff | bridge/src/share_handler.rs:200-222 | After any history a resident key is dropped exactly when every key whose stay began no later was last recorded more than the TTL ago, or the guard is over capacity and no stay began earlier |
| DuplicateHistory.FirstExpiredLeaves | bridge/src/share_handler.rs:200-213 | The key whose stay began first does not outlive its TTL: the next operation of any kind drops it, and it is there again only if that operation inserts it |
| DuplicateHistory.EvictedIsEarliest | bridge/src/share_handler.rs:200-222 | A key that pruning drops was last touched more than the TTL ago, or the map is over capacity and every key whose stay began no later is dropped too |
| DuplicateGuard.DuplicateSubmitGuard.Lookup | bridge/src/share_handler.rs:224-227 | Prunes and returns the live outcome, keeping the listing |
| DuplicateGuard.DuplicateSubmitGuard.Insert | bridge/src/share_handler.rs:229-236 | Adds an in-flight entry at the back unless the key is live, keeping the listing |
| DuplicateGuard.DuplicateSubmitGuard.Set | bridge/src/share_handler.rs:238-245 | Updates a live entry in place and never adds one, keeping the listing |
| BlockGuard.TryMarkFacts | bridge/src/kaspaapi.rs:140-148 | Marks, as of now, exactly when the hash is not in the guard or pruning drops it; every other hash keeps its mark exactly unless pruning drops it; the map stays within max + 1 and its keys stay queued |
| BlockGuard.RemoveFacts | bridge/src/kaspaapi.rs:150-154 | Removes the hash; every other hash keeps its mark exactly unless pruning drops it |
| BlockGuard.BlockSubmitGuard.TryMarkHash | bridge/src/kaspaapi.rs:140-148 | The method marks as specified and keeps the guard valid |
| BlockGuard.BlockSubmitGuard.RemoveHash | bridge/src/kaspaapi.rs:150-154 | The method removes as specified and keeps the guard valid |
| BlockGuard.RunKeepsInv | bridge/src/kaspaapi.rs:482-570 | In every run of concurrent submissions each unevicted hash has at most one holder and is marked exactly while it has one |
| BlockGuard.AtMostOneNodeCall | bridge/src/kaspaapi.rs:482-570 | Of two node calls for the same unevicted hash the earlier one ended in a released transport failure, so none overlaps and none follows a verdict |
| BlockGuard.StepOnCall | bridge/src/kaspaapi.rs:546-570 | Only an answer ends a call and only a non-duplicate transport failure is released |
| BlockGuard.VerdictIsFinal | bridge/src/kaspaapi.rs:546-570 | A node verdict stays for the rest of the run |
| BlockGuard.EvictedWasDropped | bridge/src/kaspaapi.rs:116-154 | In every run the evicted hashes are exactly those that were marked when a mark or a release pruned the guard at a time that drops them |
| BlockGuard.QueueCanOutgrowMap | bridge/src/kaspaapi.rs:116-154 | Counterexample to a bounded queue: from empty, n rounds of mark and remove beside one live hash leave n + 1 queue entries for one map entry |
| BlockGuard.RemoveKeepsListingIff | bridge/src/kaspaapi.rs:150-154 | The exact condition per operation: a remove keeps the queue a duplicate-free listing of the map exactly when the hash is not live |
| BlockGuard.QueueBound | bridge/src/kaspaapi.rs:116-154 | Over every run from empty the queue holds at most max + 1 + j hashes after j removes of a live hash, and with none it lists the map exactly |
| SubmissionSafety.RunKeepsInv | bridge/src/share_handler.rs:558-594 | The invariant of the concurrent submission machine over every run: each submission is at one point of the plan fixed by its walk and the node's reply, and the log, counters and cache follow |
| SubmissionTheorems.OneEvaluationPerResidency | bridge/src/share_handler.rs:558-594 | The submissions evaluated for a key number exactly its evictions plus its present residency, so never two within one |
| DuplicateAnswers.GuardIsHistory | bridge/src/share_handler.rs:558-571 | In every run the guard is the one after the lookups, inserts and sets the run performed, so the results over histories hold for every run |
| Arrivals.JobsAreIssued | bridge/src/mining_state.rs:54-75 | In every run the jobs a client has are those issued to it, in order |
| Arrivals.ArrivalIsAnswered | bridge/src/share_handler.rs:405-594 | In every run an arriving frame adds one submission: refused with its reason; a duplicate exactly when its key is in the guard and not to be forgotten, told the outcome last recorded in the present stay, in flight exactly when none was; or under evaluation |
| Arrivals.EverySubmissionArrived | bridge/src/share_handler.rs:405-594 | Every submission of every run came by one arrival and stands as its frame calls for: too few parameters and a missing job each publish their rejection exactly if the names are valid, an unparsable frame publishes nothing, a duplicate was told the last outcome, and any other is evaluated for the client, job id and nonce of the frame, from the newest job of the slot among the jobs issued when it was looked up |
| Arrivals.DuplicateWasToldTheLast | bridge/src/share_handler.rs:558-594 | Every duplicate of every run published nothing and was told that when it arrived, and an outcome other than in flight was settled by an evaluation of the same key |
| SubmissionProgress.NewSubmissionEnds | bridge/src/share_handler.rs:558-1260 | From every reachable state of a live process, for all pool targets and every node answer, a submission with a new key and a job at its slot has a run to its end: finished with the verdict of its walk, or an abort exactly for id 0 with a miss |
| SubmissionTheorems.PlanEffects | bridge/src/share_handler.rs:842-1260 | For each verdict and node reply, by the validity of wallet, worker and difficulty: the exact log, the one counter raised and the one outcome settled by the complete course |
| SubmissionTheorems.FinishedIsJudged | bridge/src/share_handler.rs:599-1179 | In every run the verdict of a finished submission says what its walk found over its client's ring as each check met it: a block or a pool share is the first job whose proof of work with the submitted nonce meets the network or the pool target, all before it missing both; low difficulty is that nothing passed down to id 1, around the ring or to an empty slot |
| SubmissionTheorems.FinishedIsExactly | bridge/src/share_handler.rs:842-1260 | In every run the log of a finished submission, the one counter it raised and the outcome it settled are exactly those of its verdict and of what its handler reported of the node call: a credit exactly with valid wallet, worker and difficulty, other events exactly with valid names, an acceptance always, and block events carry the hash of the job that passed with the submitted nonce |
| SubmissionTheorems.LowDifficultyExactlyWhenAllMiss | bridge/src/share_handler.rs:1118-1206 | In every run a low-difficulty rejection is published exactly when nothing on the walk passes and the wallet and worker names are valid |
| SubmissionTheorems.CreditedIsFirstThatPasses | bridge/src/share_handler.rs:1140-1255 | In every run the credited DAA score is that of the first job on the walk whose proof of work with the submitted nonce meets a target |
| SubmissionTheorems.CountersCountSubmissions | bridge/src/share_handler.rs:1029-1225 | In every run each of the three counters lies between the finished submissions whose verdict and reply call for it and all that are due to raise it |
| SubmissionTheorems.CountersExactAtRest | bridge/src/share_handler.rs:1029-1225 | When no submission is part-way, each counter is exactly the number of submissions whose verdict and reply call for it |
| SubmissionTheorems.AbortsExactly | bridge/src/share_handler.rs:1140-1179 | An evaluation ends the process exactly when the client named id 0 and the job it found there misses both targets |
| SubmissionTheorems.AbortedNamedZero | bridge/src/share_handler.rs:1140-1179 | In every run an aborted submission named id 0, its client had been issued at least 300 jobs, and the job in slot 0 missed |
| SubmissionTheorems.HaltedMeans | bridge/src/share_handler.rs:1140-1179 | In every run the process has ended exactly when some submission aborted |
| SubmissionTheorems.AbortIsReachable | bridge/src/share_handler.rs:1140-1179 | Witness: under every limit, issuing 300 jobs and submitting id 0 ends the process |
| BlockPublication.RunKeepsNode | bridge/src/share_handler.rs:836-960 | In every run each block submission waits on, or was answered by, a call of its own, for the hash of the job that passed with the submitted nonce, in the composed block guard, and what was reported of a finished call is what the call allows: refused, accepted, rejected or failed |
| BlockAnswers.AnswersWereGiven | bridge/src/kaspaapi.rs:546-570 | In every run the answer recorded for a submission's call is one the node gave to that submission, and a released call got a transport failure |
| BlockAnswers.BlockWasReturned | bridge/src/share_handler.rs:894-1085 | In every run what a finished block reported of its call is what the call had come to when it returned |
| BlockAnswers.BlockEndsAsAnswered | bridge/src/share_handler.rs:611-1085 | In every run a finished block is the first job on its walk that passes, with a proof of work that meets its network target; its call was for the hash of that job with the submitted nonce, and its log, one counter and settled outcome are, by what the node had answered this submission when the call returned and by the validity of the names and the difficulty: accepted is found, announced and credited, rejected is found and credited, refused or a named duplicate is found and stale, failed is found and bad |
| BlockPublication.OneSubmissionPublishesAcceptance | bridge/src/kaspaapi.rs:482-570 | In every run, across all clients, at most one submission publishes acceptance of a block hash the guard has not evicted |
| VarDiff.ClampedStepIsOneDoublingOrHalving | bridge/src/share_handler.rs:57-112 | From a power of two every adjustment is exactly a doubling for a fast miner, a halving for a slow one down to 1, and nothing otherwise |
| VarDiff.ReachableIsPow2 | bridge/src/share_handler.rs:1767-1783 | With the clamp, every difficulty after any sequence of windows is a power of two, at least 1 |
| VarDiff.SeedIsPow2 | bridge/src/stratum_server.rs:116-122 | A port seed is the value given, and under the clamp the greatest power of two in it; 4 if none is given |
| VarDiff.UndecidedKeeps | bridge/src/share_handler.rs:74-87 | A window of less than 30 seconds or fewer than 3 shares changes nothing, unless 90 seconds passed without a share |
| VarDiff.IdleHalves | bridge/src/share_handler.rs:74-83 | After 90 seconds without a share the unclamped difficulty is halved, but not below 1, where it comes to rest |
| VarDiff.FloorPow2Between | bridge/src/share_handler.rs:57-65 | Rounding down gives the power of two at or below the value |
| VarDiff.CeilPow2Between | bridge/src/share_handler.rs:57-65 | Rounding up gives the power of two at or above the value |
| VarDiffConvergence.SteadyMeansConstantHashrate | bridge/src/share_handler.rs:87-91 | A window is steady for a goal exactly when shares per minute times difficulty is the hashrate behind it |
| VarDiffConvergence.UnchangedIffSettled | bridge/src/share_handler.rs:92-112 | A deciding window leaves the difficulty alone exactly when the ratio is in the 0.75 to 1.25 band, or the miner is slow and less than a tenth is left above the floor of 1 |
| VarDiffConvergence.StepNeverCrosses | bridge/src/share_handler.rs:92-112 | From 1 upwards a step stays at or above 1, moves by at most a factor of two, towards the goal and never past it |
| VarDiffConvergence.RunNeverCrosses | bridge/src/share_handler.rs:1767-1783 | The same along every steady run |
| VarDiffConvergence.RunSteps | bridge/src/share_handler.rs:1767-1783 | Each step of a run: direction, factor, change exactly when unsettled, doubling or halving when more than a factor 4 away |
| VarDiffConvergence.Converges | bridge/src/share_handler.rs:1767-1783 | Within a factor 4 * 2^n of the goal, n + 3 deciding windows settle the difficulty, and it never changes again |
| VarDiffConvergence.SomeBoundApplies | bridge/src/share_handler.rs:1767-1783 | Such an n exists for every start and goal |
| VarDiffConvergence.DifficultyAtLeastOne | bridge/src/stratum_server.rs:116-122 | No run from a port seed goes below difficulty 1, with or without the clamp |
| VarDiffConvergence.TowardsIff | bridge/src/share_handler.rs:92-112 | At every positive difficulty a step goes towards the goal and not past it exactly when the difficulty is above 0.9, the goal is at least 1, or the ratio is inside the band |
| VarDiffConvergence.BelowOneCrosses | bridge/src/share_handler.rs:92-112 | Witness below 1: from 0.1 with goal 0.225 a step goes to 1 |
| TokenBucket.RefillIsRateTimesElapsed | bridge/src/anti_abuse.rs:234-237 | The refill between two stamps is the rate times the time between them |
| TokenBucket.GainIsElapsedIff | bridge/src/anti_abuse.rs:234-237 | What the stamps refill over an interval is at least the rate times its length, and exactly that when and only when no stamp in it goes back |
| TokenBucket.LevelWithinSlack | bridge/src/anti_abuse.rs:231-246 | For arbitrary stamps the level never exceeds burst plus refill minus admissions counted from any earlier frame |
| TokenBucket.AdmittedIffConforming | bridge/src/anti_abuse.rs:231-246 | For arbitrary stamps a bucket that starts full admits a frame exactly when no interval ending at it would exceed burst plus what its stamps refill |
| TokenBucket.GainBound | bridge/src/anti_abuse.rs:231-246 | For arbitrary stamps any interval of any bucket admits at most burst plus what its stamps refill |
| TokenBucket.IntervalBound | bridge/src/anti_abuse.rs:231-246 | Any interval without a backward stamp, of any bucket, admits at most burst plus rate times length |
| TokenBucket.ConformingTrafficPasses | bridge/src/anti_abuse.rs:231-246 | Traffic no faster than the rate is never refused by a bucket that can hold a token |
| TokenBucket.DipsWithinOneSecond | bridge/src/anti_abuse.rs:231-246 | The stamps of that counterexample all lie within one second |
| TokenBucket.ClockMustNotGoBack | bridge/src/anti_abuse.rs:231-246 | Counterexample: stamps dipping by one second are admitted without bound |
| TokenBucket.BudgetIffNondecreasing | bridge/src/anti_abuse.rs:231-246 | The exact condition: stamps never go back if and only if, under all limits and from every full bucket, at most burst plus rate times length is admitted |
| AntiAbuse.NewConfig | bridge/src/anti_abuse.rs:95-114 | A configuration holding the four arguments results exactly when all limits are positive; otherwise the error names the first, in the source's order, that is not, with its value |
| AntiAbuse.AntiAbuseGuard.TryAccept | bridge/src/anti_abuse.rs:294-307 | Refused for the address cap exactly when the address holds no ticket and the table is full, else for the connection cap, naming the tickets held and the cap, exactly when it holds that many, else a ticket; a refusal changes nothing |
| AntiAbuse.AntiAbuseGuard.TryConsumeFrame | bridge/src/anti_abuse.rs:312-318 | Consumes from the address's bucket; an address without a ticket is refused; the tickets stay |
| AntiAbuse.AntiAbuseGuard.ReleaseTicket | bridge/src/anti_abuse.rs:323-331 | Returns the ticket and forgets the address with its last one |
| AntiAbuse.TableMatchesTickets | bridge/src/anti_abuse.rs:294-331 | In every run the tracked addresses are exactly the ticket holders, each count is its live tickets within the cap, and the table is within its cap |
| AntiAbuse.AcceptIsExact | bridge/src/anti_abuse.rs:294-331 | In every run the same of the answer to an accept, by the tickets held; the tickets change by exactly the one granted or dropped, a frame changes none, and no frame of an address without a ticket is let through |
| AntiAbuse.RunProjectsToBucket | bridge/src/anti_abuse.rs:227-246 | Through any interleaving a resident address sees exactly the token bucket played on its own frame times |
| AntiAbuse.FramesAreBounded | bridge/src/anti_abuse.rs:312-318 | After any history the frames admitted for a resident address between s and t number at most burst plus rate times (t - s) |
| AntiAbuse.AdmittedIffWithinBudget | bridge/src/anti_abuse.rs:294-318 | From the accept that creates the entry, through any interleaving and for arbitrary stamps, a frame is admitted exactly when no interval of the address's own frames ending now would exceed its budget |
| CircuitBreaker.OpenIffEnoughFailures | accountant/src/tier_kasplex.rs:171-214 | After any history the breaker is open exactly when at least the threshold of failures came without a success between them, dated from the latest failure |
| CircuitBreaker.AllowsIff | accountant/src/tier_kasplex.rs:182-194 | A request is let through exactly when fewer than the threshold of failures came since the last success, or the cooldown has passed since the latest of them |
| CircuitBreaker.BreakerCell.AllowsRequest | accountant/src/tier_kasplex.rs:191-194 | The same of the stored fields, against the history they came from |
| CircuitBreaker.BreakerCell.OnSuccess | accountant/src/tier_kasplex.rs:196-200 | Closes the breaker and forgets the failures |
| CircuitBreaker.BreakerCell.OnFailureAt | accountant/src/tier_kasplex.rs:202-214 | Open afterwards exactly when the threshold is reached without a success, and then dated now |
| KrcHoldings.ParsesExactlyPrinted | accountant/src/tier_kasplex.rs:460-471 | Accepts exactly the plain decimal numerals below 2^128, each as the number it prints |
| KrcHoldings.SumRows | accountant/src/tier_kasplex.rs:340-360 | True exactly when some run of readable rows within 128 bits reaches the threshold, false exactly when all rows are readable and fall short; otherwise the error of the first row that cannot be taken, naming the unreadable field or the overflow |
| KrcHoldings.CleanRowsDecideByTotal | accountant/src/tier_kasplex.rs:340-360 | Over readable rows the early exit does not matter: the answer is whether the whole holding reaches the threshold |
| KrcHoldings.TotalIsFreeAndLocked | accountant/src/tier_kasplex.rs:344-352 | What rows hold together is the sum of the free amounts and the sum of the locked ones |
| TierClassifier.TierCache.Lookup | accountant/src/tier_kasplex.rs:259-269 | Returns the tier of an unexpired entry and drops an expired one; no later lookup can tell the difference |
| TierClassifier.TierCache.Store | accountant/src/tier_kasplex.rs:271-277 | Afterwards the key answers with this tier exactly until the TTL has passed |
| TierClassifier.RunKeepsInv | accountant/src/tier_kasplex.rs:365-424 | In every interleaving the breaker is the function of the replies logged, and each cached entry and each logged event is justified by earlier ones |
| TierClassifier.VerdictIsShown | accountant/src/tier_kasplex.rs:394-423 | The branches on the joined replies take Elite exactly for a true trigger, Standard exactly for three false ones, and the failure path exactly when none is true and one failed |
| TierClassifier.EliteIsEarned | accountant/src/tier_kasplex.rs:365-424 | Elite is answered only if one of the three triggers of that wallet was true in this call's replies, or in those of a call that stored it less than the TTL before |
| TierClassifier.CachedWasEarned | accountant/src/tier_kasplex.rs:259-277 | A tier served from the cache was stored within the TTL by a call whose triggers showed it, one true for Elite and all three false for Standard, so degraded answers are never cached |
| TierClassifier.UpstreamOnlyWhenCooledDown | accountant/src/tier_kasplex.rs:365-381 | In every run no upstream call starts while the breaker is tripped inside its cooldown, and the gate answers Standard only then |
| TierAnswers.AnsweredAsShown | accountant/src/tier_kasplex.rs:394-423 | In every run a call that heard its triggers and answered did so from them, for the same wallet: Elite exactly when one was true |
| TierAnswers.RepliedCallIsAnswered | accountant/src/tier_kasplex.rs:259-424 | From every reachable state a call in flight that hears its triggers and stores answers what they show; an established tier is then served exactly until the TTL has passed, and a failure leaves the cache alone |
| TierAnswers.CachedIsLastStored | accountant/src/tier_kasplex.rs:255-277 | In every run a cached entry is what the last call to store a tier for the wallet established, good for the TTL from then, and the cache was not cleared since |
| TierAnswers.LookupIsExact | accountant/src/tier_kasplex.rs:259-269 | From every reachable state a new call is answered from the cache, with that tier, exactly while its TTL has not passed; otherwise it goes on to the gate, and only the looked-up entry is dropped |
| TierProbes.TwoProbesInFlight | accountant/src/tier_kasplex.rs:372-381 | Counterexample to a single probe, under every configuration: a run from the start that has two probes in flight while the breaker is open |
| TierProbes.SequentialCallsProbeOnce | accountant/src/tier_kasplex.rs:365-424 | If every call starts after the earlier ones finished, between any two upstream starts lies the reply to the first |
| TierProbes.ProbesBetweenReplies | accountant/src/tier_kasplex.rs:372-381 | After any history, in a span without a reply the upstream starts number exactly the calls that reached the gate after the cooldown |
| TierProbes.TwoProbesIffTwoReach | accountant/src/tier_kasplex.rs:372-381 | The exact condition: a span without a reply has two starts or more exactly when two different calls reached the gate in it, cooled down |
| LineFraming.LinesRebuild | bridge/src/stratum_listener.rs:543-545 | Lines and tail put together are the stream |
| LineFraming.LinesHoldNoNewline | bridge/src/stratum_listener.rs:543-545 | No line and no tail contains a newline |
| LineFraming.ExtractIsLines | bridge/src/stratum_listener.rs:543-605 | Cutting lines off the buffer yields the trimmed nonempty lines up to the first HTTP-like one, fails exactly if there is one, and otherwise leaves the tail |
| LineFraming.ExtractLines | bridge/src/stratum_listener.rs:543-605 | The extraction loop computes that cut |
| LineFraming.LineReader.AppendLineData | bridge/src/stratum_listener.rs:33-39 | Appends exactly when the result fits the cap and otherwise leaves the buffer alone |
| LineFraming.LineReader.Read | bridge/src/stratum_listener.rs:380-605 | One read: null bytes dropped, first-message check, cap, extraction; the frames dispatched are appended in order |
| LineFraming.LineReader.DropNulls | bridge/src/stratum_listener.rs:380 | Removes exactly the null bytes |
| FrameText.OnlyNullsAreStripped | bridge/src/stratum_listener.rs:380 | A read loses its null bytes and nothing else |
| FrameText.TrimIsExactly | bridge/src/stratum_listener.rs:544 | Trimming takes off all white space before and after a line and nothing else |
| FrameText.SpaceIs | bridge/src/stratum_listener.rs:544 | White space is the blank and the control characters from tab to carriage return |
| FrameText.HttpLikeIs | bridge/src/stratum_listener.rs:555-563 | A line ends the connection exactly if it is SM or begins with the HTTP/2 preface or one of six HTTP methods |
| FrameText.FramesAreTheLines | bridge/src/stratum_listener.rs:543-605 | There is a frame for each line that is not blank before the first that looks like HTTP: its trimmed text, at the place the line has among them |
| LineFramingTheorems.OpenIffAllTaken | bridge/src/stratum_listener.rs:380-605 | For every way of cutting the stream: the connection is open exactly when each read passes the first check, fits the cap and completes no HTTP-like line; then the frames are the trimmed nonempty lines of the whole null-stripped stream and the buffer is its tail |
| LineFramingTheorems.BufferIsBounded | bridge/src/stratum_listener.rs:29-39 | The leftover buffer never holds a newline and never exceeds the cap |
| LineFramingTheorems.ChunkingIsIrrelevant | bridge/src/stratum_listener.rs:532-605 | Two cuts of the same stream that both survive dispatch the same frames and leave the same buffer |
| LineFramingTheorems.DispatchedIsPrefix | bridge/src/stratum_listener.rs:532-605 | Open or closed, what was dispatched is a prefix of the frames of the whole stream |
| LineFramingTheorems.SurvivesUnlessCutAfterSM | bridge/src/stratum_listener.rs:380-605 | The connection survives exactly when every read fits the cap, no line looks like HTTP, and the first read is not cut short: the bare SM of a longer line, or an HTTP-like line that never ends |
| LineFramingTheorems.CutAfterSMIsRefused | bridge/src/stratum_listener.rs:389-398 | Counterexample to chunking independence: a first read of SM is refused whatever follows |
| LineFramingTheorems.UncutSurvives | bridge/src/stratum_listener.rs:380-605 | Uncut, a stream within the cap whose first line is complete and whose lines are not HTTP-like survives and is dispatched |
| LineFramingTheorems.TheCutMatters | bridge/src/stratum_listener.rs:380-605 | For every harmless line that begins with SM: in one read it is dispatched, cut after the second byte the same bytes are refused |
| LineFramingTheorems.SMIsSuchARead | bridge/src/stratum_listener.rs:389-398 | The text SM itself is such a read |
| JobCodec.GenerateJobHeader | bridge/src/hasher.rs:253-267 | The loop yields the little-endian words that the data holds, at most four |
| JobCodec.WordsGiveBytesBack | bridge/src/hasher.rs:253-267 | Those words determine the header bytes they came from |
| JobCodec.GenerateLargeJobParams | bridge/src/hasher.rs:367-390 | A result exactly for 32 bytes or more, and then the same text as the IceRiver encoder on the first 32 bytes |
| JobCodec.LargeIsIceRiver | bridge/src/hasher.rs:277-390 | Big-endian words plus the byte-swapped timestamp print as the hash text plus the little-endian timestamp text |
| JobCodec.HexOfWord | bridge/src/hasher.rs:388-389 | A big-endian word in padded hex is the hex of its bytes |
| JobCodec.HexDigits | bridge/src/hasher.rs:388-389 | The digits printed and read are those of lower-case hex, in order |
| JobCodec.SwappedTimestamp | bridge/src/hasher.rs:384-386 | Reading the big-endian timestamp as little-endian prints the timestamp's little-endian bytes |
| JobCodec.JobDecodes | bridge/src/hasher.rs:277-337 | The 80 characters determine the 32-byte hash and the 64-bit timestamp |
| Decimal.PrintReadInverse | accountant/src/tier_kasplex.rs:460-471 | Canonical digit strings and natural numbers determine each other |
| Money.RoundTrip | api/src/money.rs:45-58 | What is printed reads back as exactly the same amount, for every amount and every scale whose power of ten fits 64 bits |
| Money.PrintingIsInjective | api/src/money.rs:45-58 | Distinct amounts print differently |
| Money.NoTrailingZeros | api/src/money.rs:45-58 | A point is printed exactly for amounts that are not whole, and the fraction never ends in zero |

## Left out

- Sockets, keepalive, PROXY headers, gRPC, HTTP and Postgres: replies are parameters and transactions are atomic steps.
- Proof-of-work and header hashing, address decoding, JSON parsing, the nonce text with its extranonce prefix: uninterpreted or absent.
- The text of the replies to a miner: a reply is the outcome a submission settles or a duplicate is told.
- Floating-point rounding: weights, ratios, tokens and clock readings are exact.
- `sweep_blocks` and `process_submitted` in accountant/src/maturity.rs: block colouring is telemetry beside the ledger.
- `calculate_target`, `diff_to_target` and its variants in bridge/src/hasher.rs: short arithmetic with no cross-cutting law.
- Prometheus, logging, stats tables, configuration and environment parsing, API handlers, front ends, CPU miner and diagnostics.
- The payout engines, and accountant/src/consumer.rs and replay.rs, which feed the tables one event at a time.
- 64-bit wrap-around of the job counter, of the submission counters and of the accrued-rebate column.
- LineFraming.LineReader.Read: models ASCII input, for which lossy UTF-8 decoding is the identity and bytes are characters; the rate limiter and the handlers behind the dispatch are not part of it.
- AllocationEngine.Engine.AllocateCoinbaseReward: database failures and wallet addresses that do not parse are not among its errors; a failure at any stage is the machine's crash step.
- VarDiffConvergence.Converges: speaks of windows with enough shares to decide; shorter windows leave the difficulty as it is.
- TierClassifier.RunKeepsInv: the three upstream requests of a call are one reply step, since the source joins them before acting.
- SubmissionSafety.RunKeepsInv: worker-level statistics beside the three overall counters are not part of the state.
