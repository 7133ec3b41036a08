# Isnad, verified

A Dafny 4.11 model of the parts of Isnad that must not go wrong: the budgeted
evidence run and the gate on its verdict, the allowance a real network call
must pass, the promise behind an idempotency key, and the stores whose races
decide whether a consent, a correction, a remote subscription or a journal row
is lost or used twice.

`dafny verify dfyconfig.toml` checks everything. The files follow the source:

| file | what it holds |
|---|---|
| `Domain.dfy` | enumerations, sums, permutations |
| `Policy.dfy`, `Belief.dfy`, `Evidence.dfy` | policy questions, the running score, the chain and its gates |
| `Planner.dfy`, `Investigator.dfy` | greedy and model planners; the run itself |
| `RateLimit.dfy` | the sliding-window limiter against a limiter that forgets nothing |
| `Access.dfy` | judge sessions and the rolling-hour ledger (modules Ledger and Access) |
| `Operations.dfy`, `Verification.dfy` | the durable rows and chains; the idempotency protocol over them |
| `NetworkConditions.dfy` | the subscription table, and the protocol with an operator that may act unheard |
| `Outcomes.dfy`, `RunEvents.dfy` | corrections as one linked list; the event journal and its replay |
| `Consent.dfy`, `Cache.dfy` | the consent lifecycle; the process-local cache |

## How it is modelled

- Stateful source classes are Dafny classes with the same fields; their methods
  are proved against functions on the old and new state. Ghost fields record
  history (every accepted hit, every outbound attempt, every persisted event)
  so that a property can speak of what happened and not of what is remembered.
- A database session block is one atomic transaction. Where several clients
  race, each transaction is a function and the protocol is a step system over
  those functions (`Verification`, `NetworkConditions`, `RunEvents`), or each
  transaction is a method of its own and any order of calls is an interleaving
  (`Outcomes`, `Consents`). Threads started by a request outlive its
  cancellation; a crash takes both.
- The provider, the model, the operator, the order in which concurrent calls
  finish and the rival writers are arbitrary: functions or steps with no
  promise beyond the assumptions below.
- Probabilities are held as log-odds. The logistic is strictly increasing, so
  comparing log-odds with the thresholds is the same decision. Costs, scores
  and times are real numbers; rounding for display is not modelled.

## Assumptions

- A provider's link echoes the action asked for, and a provider does not raise
  (a raised `gather` aborts the run and is an interruption in `Verification`).
  A provider's own timing answer is neither `not_attempted` nor the deferral
  text; local evidence carries no timing.
- Priced actions have a positive price; the policy file prices every action
  that is not local.
- Digests are injective and hexadecimal, so they hold no colon. Identifiers and
  tokens drawn at random are fresh. A stored chain id may collide: the save is
  then refused, as the source refuses it.
- The operator's answers are honest: a refusal other than a timeout means
  nothing was created and nothing will be, a created id names what was created,
  and a confirmed deletion, 404 or 410 means nothing is left. It may create or
  delete without answering. The configured provider kind does not change.
- Clocks read by one process do not run backwards. A reading taken before a lock
  may be stale when it is used.
- A run's attempt log is sealed before settlement reads the clock, and admits no
  more than was reserved.
- A handler reports once: on the consent it opened, or on the step it claimed.

## Where a promise has a limit

- A DECLINE can stand with no adverse link at all: many small weights can pass
  the line, and the gate only looks at links at or above the adverse bar
  (`DeclineWithoutAdverseLink`, with the exact condition in `DeclineExactly`).
- In parallel mode dates are paid from budget already committed to later links of
  the batch, so a non-negative budget is a theorem of sequential runs; the
  overdraft is at most the dates paid inside the batch (`GatherParallel`).
- A check is bought twice exactly when continuity already bought the one the
  caller requires (`Investigate`).
- One spend per key and retention needs the purge not to meet a request that is
  still building on its reservation or giving it back; work that merely outlives
  its row is harmless to it. An answer to the body asked about needs more: no
  request that is working or saving either, because a save finishes whatever row
  stands under its key. Both conditions are exact
  (`Verification.PurgeIsSafeExactlyWhenClear`); `StalledReleaseSpendsTwice` and
  `LateSaveAnswersAnotherBody` are runs that fail them.
- The caps of live subscriptions hold in every run whose unknown marks hit rows
  that still count, and the first other mark is what breaks one
  (`StepBreaksACapExactly`, `BrokenCapsWereRevived`); both a late ambiguous create
  and a failed deletion can be that mark (`LateAnswerExceedsTheCaps`,
  `FailedDeleteExceedsTheCaps`).
- A consent that expired while being exchanged or verified may still be
  completed or failed by the handler that claimed it, and the handler that opened
  it may turn any outcome into FAILED (`OpenerMayOverwriteAnyStatus`,
  `OutcomesAreFinal`); what is monotone is the rank.
- A replay from zero is called gap-free although a prefix may be gone
  (`FreshReplayIsCompleteExactlyWhenNothingWasDropped`). A run restarted after
  retention emptied it reuses its numbers, and an old cursor is then silently
  wrong: exactly when the row it stands on is of a later incarnation
  (`ReplayContinuesExactlyItsOwnIncarnation`, `RestartedRunHidesEvents`). An
  insert under way when retention runs may leave a number out of turn
  (`RunEvents.PurgeIsSafeExactlyWhenClear`).
- The cache can still read an entry at the instant it may already be purged
  (`ReadAndPurgeMeetAtExpiry`).

## Model

| member | source | states |
|---|---|---|
| `Beliefs.Belief.Apply` | app/agent/belief.py:25-27 | a signal's weight is added to the log-odds and recorded in the trace, in order |
| `Evidence.ResolvedCorroborators` | app/agent/investigator.py:670-683 | a required check is resolved if and only if some link of it came back PASS or FLAG; an INFO answer resolves nothing |
| `Evidence.CorroborationGaps` | app/agent/investigator.py:685-730 | the gaps are exactly the uncorroborated adverse signals of the chain, each once, with the reason policy gives for it |
| `Evidence.ApplyCorroborationGate` | app/agent/investigator.py:732-756 | a decline becomes a challenge exactly when there is an adverse link and every adverse link carries a signal whose corroboration is unmet; otherwise the decision stands |
| `Evidence.DeclineExactly` | app/agent/investigator.py:415-442 | the exact condition for a final DECLINE: past the line, and either no adverse link at all or an adverse signal that policy corroborates with nothing, or with checks enough of which some link of the chain answered with PASS or FLAG |
| `Evidence.AllowExactly` | app/agent/investigator.py:427-442 | the exact condition for a final ALLOW: below the line, no hole, enough network links that lower the risk of this hypothesis, no recycled number |
| `Evidence.GradeExactly` | app/policy/engine.py:206-257 | each of the five grades as an equivalence over score, holes, adverse deltas, corroboration and the number of links |
| `Evidence.GapExactly` | app/agent/investigator.py:685-730 | what a gap says: the checks policy names, which of them came back PASS or FLAG, and the exact condition of each of the four reasons |
| `Evidence.ResolvedIgnoresOrder` | app/agent/investigator.py:670-683 | which checks resolved depends on the set of links, not on their order |
| `Evidence.GateIgnoresOrder` | app/agent/investigator.py:732-756 | the gate gives the same answer on every permutation of the chain |
| `Evidence.SupportIgnoresOrder` | app/agent/investigator.py:640-648 | the number of supporting network links is the same on every permutation of the chain |
| `Evidence.DeltaSumIgnoresOrder` | app/agent/belief.py:25-27 | the accumulated log-odds is the same for every order of the same links |
| `Evidence.DecisionIgnoresOrder` | app/agent/investigator.py:415-442 | two runs that gathered the same links in different orders reach the same score and the same decision |
| `Evidence.DecisionAndGradeAgree` | app/policy/engine.py:206-257 | REFUTED implies DECLINE; DECLINE implies REFUTED or UNRESOLVED; a gated run is a CHALLENGE graded DEGRADED or UNRESOLVED; ALLOW implies an attested grade when a network link is required; an attested grade implies ALLOW unless the number is recycled |
| `Policies.Policy.Cost` | app/policy/engine.py:123-132 | no action has a negative price, and exactly the local ones are free |
| `Policies.Policy.MinResolved` | app/policy/engine.py:77-87 | corroboration always needs at least one resolved check, whatever the file says |
| `Policies.Policy.BatchSize` | app/policy/engine.py:92-95 | a parallel batch always has room for at least one action |
| `Policies.Policy.DateCost` | app/policy/engine.py:134-148 | a date that is enabled is never free |
| `Planners.Affordable` | app/agent/planner.py:123-126 | offered are exactly the candidates that are unused and within budget |
| `Planners.NextBest` | app/agent/planner.py:141-150 | the result is the unused affordable candidate of greatest weighted gain per price, compared crosswise in the policy's own gains, weights and prices, the earliest listed of equals; none exactly when no such gain is positive |
| `Planners.BestIsUnique` | app/agent/planner.py:141-150 | that description leaves one answer, so the deterministic choice is a function of its inputs |
| `Planners.RelevantComesFirst` | app/policy/engine.py:161-171 | where relevance weighs more, a check irrelevant to the hypothesis is never chosen while a relevant one of the same gain and price is affordable |
| `Planners.ScoresCompare` | app/policy/engine.py:161-171 | comparing scores, gain times weight per price, is comparing the weighted gains crosswise |
| `Planners.GreedyChoose` | app/agent/planner.py:128-139 | the greedy choice is that best affordable candidate, or a stop when there is none worth buying |
| `Planners.CheapestStepUp` | app/agent/planner.py:152-180 | the cheapest affordable one of location, number and reachability by the policy's price, the earliest listed of equals, and none exactly when none is affordable; never an OTP |
| `Planners.LLMPlanner.constructor` | app/agent/planner.py:221-236 | a caller may tighten the call ceiling and never raise it |
| `Planners.LLMPlanner.Choose` | app/agent/planner.py:254-272 | for every reply the model could give: a stop or an unused affordable candidate, at most one more model call and never past the ceiling; greedy selects only where no answer arrived; an answer that names an offered action is the action chosen |
| `Planners.LLMPlanner.Ask` | app/agent/planner.py:274-306 | which of the model's replies lets greedy select, which one stops the selection, and which is validated |
| `Planners.LLMPlanner.Validate` | app/agent/planner.py:320-338 | exact equality with an offered action's id after stripping, or a stop |
| `Planners.StripTakesTheEnds` | app/agent/planner.py:320-338 | stripping the reply takes whitespace off both ends, nothing else, and leaves none there |
| `Investigators.DateNeverPricesOutTheCheck` | app/agent/investigator.py:758-781 | paying for a date out of what the reserve leaves never makes the cheapest outstanding corroborating check unaffordable |
| `Investigators.ReserveExactly` | app/agent/investigator.py:758-781 | what is held back: nothing for a signal that stands, otherwise the price of the cheapest check it asks for that can still be bought, if any can |
| `Investigators.BatchIsDetermined` | app/agent/investigator.py:541-552 | the parallel batch is a function of policy, hypothesis, what is taken and the budget: no provider answer and no model can change it |
| `Investigators.BatchIsBestInTurn` | app/agent/investigator.py:541-552 | each member of the batch is the best buy among what the members before it leave, by the policy's own numbers; the batch is short only when nothing left is worth anything |
| `Investigators.GapsAreExplained` | app/agent/investigator.py:707-721 | when corroboration was exhausted, no gap is ever reported as simply not attempted |
| `Investigators.BalancedStep` | app/agent/investigator.py:337-361 | accounting for one more link moves log-odds, cost, budget, used actions and holes together so that the books of the run stay balanced |
| `Investigators.BalancedDate` | app/agent/investigator.py:406-413 | a date that arrives later moves cost and budget by its price and nothing else |
| `Investigators.BatchSums` | app/agent/investigator.py:565-589 | over a batch, score and prices add up as over its actions, plus one date price per date asked for |
| `Investigators.NoRepeatAfterBatch` | app/agent/investigator.py:541-589 | a batch of distinct unused actions, finished in any order, repeats no purchase |
| `Investigators.StillExhausted` | app/agent/investigator.py:406-413 | settling deferred dates leaves exhausted corroboration exhausted |
| `Investigators.Investigation.Call` | app/agent/investigator.py:837-845 | the provider's answer becomes the next numbered link, scored from policy by its signal |
| `Investigators.Investigation.EnrichTiming` | app/agent/investigator.py:847-902 | a date is charged exactly when it is sold, affordable and the operator was asked for a swap check; it changes the link's timing and nothing else, and says why it was not asked |
| `Investigators.Investigation.AccountFor` | app/agent/investigator.py:337-361 | one link settled: the books balance, and its date is charged exactly when it is sold, the operator is reached and the corroboration reserve leaves room for it |
| `Investigators.Investigation.Buy` | app/agent/investigator.py:337-361 | one sequential purchase appends one link as the provider answered it, charges its check and its date, and never overspends when the check was affordable |
| `Investigators.Investigation.ApplyLocal` | app/agent/investigator.py:123-140 | local evidence enters the chain numbered and scored, at no cost |
| `Investigators.Investigation.CheckContinuity` | app/agent/investigator.py:153-190 | the continuity check is bought exactly when the merchant holds a date and the budget covers it |
| `Investigators.Investigation.BuyRequired` | app/agent/investigator.py:192-238 | the required check is bought once, or the run is refused, exactly by its price |
| `Investigators.Investigation.ChooseBatch` | app/agent/investigator.py:541-552 | the batch is chosen in turn by the deterministic rule, distinct, unused and within budget |
| `Investigators.Investigation.CallAll` | app/agent/investigator.py:565 | every call of the batch appends its link in the order it finishes |
| `Investigators.Investigation.SettleBatch` | app/agent/investigator.py:568-589 | settling the finished batch moves the belief by the batch's total shift and the budget by its prices and dates |
| `Investigators.Investigation.FireBatch` | app/agent/investigator.py:565-590 | belief and prices after the batch are the same for every completion order of its calls |
| `Investigators.Investigation.GatherParallel` | app/agent/investigator.py:518-590 | the parallel phase buys exactly the determined batch; the overdraft is at most the dates paid inside it |
| `Investigators.Investigation.NextCorroboration` | app/agent/investigator.py:815-835 | the first outstanding affordable check, observation by observation and in the order policy lists them, and none exactly when none is outstanding |
| `Investigators.Investigation.AskPlanner` | app/agent/investigator.py:307-317 | whichever planner runs, the choice is a stop or an unused affordable candidate; the greedy one gives the best |
| `Investigators.Investigation.ChooseAttestation` | app/agent/investigator.py:288-296 | the check an allow must rest on is chosen by the deterministic rule, and none only if nothing is worth buying |
| `Investigators.Investigation.NextAction` | app/agent/investigator.py:266-337 | past the decline line the outstanding corroboration comes first; then the best network fact an unsupported allow needs; a decisive belief with neither stops; only an undecided one asks the planner; above the line it stops only with corroboration exhausted |
| `Investigators.Investigation.TakeTurn` | app/agent/investigator.py:266-361 | one turn buys the one link it calls for or stops for a true reason |
| `Investigators.Investigation.BuyAffordable` | app/agent/investigator.py:337-361 | a covered purchase keeps the budget non-negative and strictly shrinks what can still be bought, so every run ends |
| `Investigators.Investigation.Gather` | app/agent/investigator.py:266-361 | the loop terminates even at zero prices; every link it buys is the one its turn calls for, given the chain before it and what that had cost, and carries what the provider answered; the stopping reason is true; a belief above the decline line leaves every corroborator bought, blocked or unaffordable |
| `Investigators.Investigation.StepUp` | app/agent/investigator.py:365-404 | exactly the cheapest low-friction check, the earliest listed of equals, is bought for a challenge that can afford one, and nothing otherwise |
| `Investigators.Investigation.SettleDeferred` | app/agent/investigator.py:783-799 | only dates that stood aside for corroboration are retried; one still standing aside costs more than what is left |
| `Investigators.Investigation.Conclude` | app/agent/investigator.py:411-516 | decision, grade, gaps, cost and operations of the verdict are those of the finished chain |
| `Investigators.Investigation.Open` | app/agent/investigator.py:123-238 | local evidence, continuity and the required check, in that order, under the opening budget |
| `Investigators.Investigation.Close` | app/agent/investigator.py:363-516 | step-up, deferred dates and the gate: the verdict explains itself, and corroboration that was exhausted stays so unless a step-up moved the belief |
| `Investigators.Investigation.Investigate` | app/agent/investigator.py:63-516 | for every planner, provider and mode: the verdict recomputes from its chain, cost plus remaining budget is the opening budget, the sequential budget never goes negative, no check is bought twice except the one both continuity and the caller ask for, and a decline-side finish has exhausted its corroboration |
| `Investigators.Investigation.VerdictMeaning` | app/agent/investigator.py:413-450 | a finished run's ALLOW and DECLINE, both directions, in terms of the links of its own chain and the fields of the policy |
| `Investigators.Investigation.UnresolvedChecksHoldTheDecline` | app/agent/investigator.py:670-756 | a run whose every adverse link needs checks of which too few were answered other than INFO does not decline; and past the line, with something adverse, only such a run does not |
| `Investigators.Investigation.GradeMeaning` | app/agent/investigator.py:444-450 | a finished run's grade, each as an equivalence over its own chain |
| `Investigators.Investigation.GapsMeaning` | app/agent/investigator.py:685-730 | the gaps a verdict reports are exactly the adverse signals that do not stand, each with the checks policy names and those of them that were answered |
| `Investigators.Investigation.MoneyMeaning` | app/agent/investigator.py:801-813 | a finished run's cost is one bill a link, its check's price and its date's where the operator was asked; cost and what is left make the opening budget; operations count every link and every date asked for |
| `Investigators.OnlyAnAnswerCorroborates` | app/agent/investigator.py:670-683 | a concrete chain under the shipped weights: a moved SIM declines if and only if the remaining check came back PASS or FLAG; an INFO leaves it a challenge |
| `Investigators.DeclineWithoutAdverseLink` | app/agent/investigator.py:732-756 | under the shipped prices and thresholds, two different checks within the budget, neither adverse and neither decisive before the last, end in a decline: the gate looks only at adverse links |
| `Investigators.DeclineOnBeliefAlone` | app/agent/investigator.py:63-516 | a whole run does so: one local finding short of adverse on an undecided prior declines, whatever the operator answers |
| `RateLimits.AnyWindowHolds` | app/api/rate_limit.py:36-50 | accepted hits spaced as the limiter spaces them never exceed the limit in any window |
| `RateLimits.KeptIsTheWindow` | app/api/rate_limit.py:43-46 | after the old hits are popped, the kept hits are exactly the accepted hits of the last window of the full log |
| `RateLimits.WaitIsExact` | app/api/rate_limit.py:47-48 | a refusal's wait is exact: a limiter that forgot nothing refuses before it and allows from it on |
| `RateLimits.FaithfulWithHit` | app/api/rate_limit.py:49-50 | taking a hit while fewer than the limit are kept keeps the bucket faithful to its full log |
| `RateLimits.FaithfulToNothing` | app/api/rate_limit.py:57-59 | a bucket whose last hit is past may be forgotten without changing any later answer |
| `RateLimits.SlidingWindowLimiter.Check` | app/api/rate_limit.py:36-50 | allowed if and only if fewer than the limit of all hits ever accepted lie in the last window, with an exact retry time, for every bucket never force-dropped |
| `RateLimits.SlidingWindowLimiter.Evict` | app/api/rate_limit.py:52-61 | the bucket map stays bounded; at most one live bucket goes, the oldest inserted, and only when every bucket of a full map is live |
| `RateLimits.SlidingWindowLimiter.DropPast` | app/api/rate_limit.py:56-59 | exactly the buckets with a hit still inside the window survive the sweep, unchanged |
| `RateLimits.SlidingWindowLimiter.NeverMoreThanTheLimit` | app/api/rate_limit.py:36-50 | over any window at any time, at most the limit of hits was accepted |
| `Ledger.CountOfPruned` | app/judge/access.py:282-287 | pruning removes no entry of a live run and no entry that has not aged out |
| `Ledger.CountsAfterSettle` | app/judge/access.py:361-366 | settlement replaces the entries of its own run by what it spent and touches no other run's |
| `Ledger.SettledEntries` | app/judge/access.py:361-367 | after settling and pruning, the ledger holds each entry exactly as often as it should |
| `Ledger.SoundAfterPrune` | app/judge/access.py:282-287 | a prune by a clock reading taken before the lock, however stale, keeps every recent attempt covered |
| `Ledger.SoundAfterReserve` | app/judge/access.py:289-336 | reserving a run's whole budget keeps the rolling hour bounded and every attempt covered |
| `Ledger.SoundAfterAttempt` | app/providers/nac_contract.py:151-163 | an outbound attempt within its reservation keeps every hour, past and future, within the allowance |
| `Ledger.SoundAfterSettle` | app/judge/access.py:338-367 | settling a sealed run keeps every attempt covered by an entry no older than it |
| `Ledger.HeldByWithout` | app/judge/access.py:354-358 | removing one reservation lowers its own session's held attempts by exactly its size and no other session's |
| `Ledger.CoveredIsBounded` | app/judge/access.py:330-334 | attempts covered entry by entry are no more numerous than the ledger |
| `Access.JudgeAccess.PruneHour` | app/judge/access.py:282-287 | the hour keeps exactly the entries after the cutoff and those of live runs |
| `Access.JudgeAccess.Attempt` | app/providers/nac_contract.py:151-163 | an attempt is admitted only under a live reservation with budget left, and keeps the ledger sound |
| `Access.JudgeAccess.ReserveRealRun` | app/judge/access.py:289-336 | granted exactly when capability, session, concurrency, session cap and hourly cap all allow; a refusal names its cause and reserves nothing |
| `Access.JudgeAccess.Book` | app/judge/access.py:328-336 | a granted reservation is written to the session, the counter, the table and the hour together |
| `Access.JudgeAccess.SettleRealRun` | app/judge/access.py:338-367 | a clean run is charged exactly the attempts it made, within its reservation, and gives the rest back to its session and to the hour; an unclean one is charged all of it; every entry of every other run stays unless it aged out; a second settlement changes nothing; another session's is rejected |
| `Access.JudgeAccess.Unbook` | app/judge/access.py:350-366 | closing one reservation releases exactly its own share and no other live run's entries |
| `Access.Spent` | app/judge/access.py:358-359 | a clean settlement is charged exactly what was made, between nothing and the reservation, and an unclean one the whole reservation |
| `Access.MakeRoom` | app/judge/access.py:128-137 | expired sessions go first, then those expiring soonest, and exactly as many stay as leave room for one more |
| `Access.JudgeAccess.Mint` | app/judge/access.py:128-145 | a fresh session without capability, within the store's bound, displacing no more than that bound requires |
| `Access.JudgeAccess.Get` | app/judge/access.py:147-156 | the unexpired session behind a token, and nothing else |
| `Access.JudgeAccess.GrantNac` | app/judge/access.py:169-187 | the capability is granted exactly for a live session, an enabled deployment and a recognized code, to that session alone |
| `Access.JudgeAccess.LedgerAgrees` | app/judge/access.py:110-121 | active runs equal live reservations; each holds exactly its attempts in the hour; each session's reserved is the sum of its own; used plus reserved stays within the session cap and the hour within its cap |
| `Access.JudgeAccess.NoHourExceedsTheAllowance` | app/judge/access.py:289-367 | over the whole history, no window of 3600 seconds holds more attempts than the deployment allows |
| `Operations.SaveWinsOverUncertainty` | app/db/store.py:94-104 | whichever of a save and the uncertainty mark of its own request commits last, the row names the chain |
| `Operations.OnlyReleaseFrees` | app/db/operations.py:116-129 | of the transactions only a release frees a key, only a pending one; a finished row and every stored chain survive the others |
| `Operations.Database.Insert` | app/db/operations.py:76-104 | one insert claims the key exactly when no row holds it |
| `Operations.Database.Existing` | app/db/operations.py:102-107 | a refused insert reads the row that stands in the way, or reports a vanished one as still in progress |
| `Operations.Database.Release` | app/db/operations.py:116-129 | a row is deleted only while pending, and the answer says whether it was |
| `Operations.Database.MarkUncertain` | app/db/operations.py:132-146 | only a pending row becomes uncertain; no other row changes |
| `Operations.Database.PurgeExpired` | app/db/operations.py:149-182 | only rows past the window of their own state go, an uncertain one past its own, at most a batch of them, and all of them when the batch suffices |
| `Operations.Database.Save` | app/db/store.py:46-111 | the chain and the completion of its key commit together, and a second chain of the same id changes nothing |
| `Operations.Database.Get` | app/db/store.py:125-141 | a chain is readable by its owner only |
| `Operations.Readable` | app/db/store.py:125-135 | another owner's chain and a missing one are the same answer |
| `Verification.ReplaysExactlyItsOwn` | app/api/verification_service.py:36-75 | a cached state is replayed if and only if it is the completed state written for this very request hash |
| `Verification.AnsweredByItsParts` | app/api/verification_service.py:36-75 | the cached state string is answered by its three parts: another hash conflicts, done replays what can be read, pending is in progress, anything else is invalid |
| `Verification.RoundTripsExactlyWithoutColon` | app/api/verification_service.py:43-44 | the cached state string parses back to the hash and payload written if and only if the hash holds no colon |
| `Verification.PartitionAtFirstColon` | app/api/verification_service.py:43-44 | splitting at the first colon recovers a colon-free head and everything after it |
| `Verification.ReplayOrRefuse` | app/api/verification_service.py:131-178 | answered exactly for the same hash, a finished row and a readable chain; in progress exactly up to the lease and reconciliation from every later instant for a pending row, and for an uncertain one at once; another hash is always a conflict |
| `Verification.InsertKeepsBase` | app/db/operations.py:76-107 | the reservation step, won or lost, leaves every row with the one request whose insert it is, whatever was purged before |
| `Verification.SaveKeepsBase` | app/db/store.py:94-110 | a save that commits at any time, also under a row somebody else reserved since, leaves a finished row naming a stored chain of its own owner |
| `Verification.CleanupKeepsBase` | app/api/verification_service.py:273-286 | release and uncertainty mark, whenever their threads run and whoever's row they meet, keep every row with its holder |
| `Verification.HitAnswersItsOwn` | app/api/verification_service.py:236-242 | in every run, an answer from the cache is the answer of a request with the same key and hash |
| `Verification.ReadIsHonest` | app/api/verification_service.py:243-249 | an answer from an honest row, which is what a patient purge leaves, is the stored chain of the row's holder, for the hash asked about |
| `Verification.RememberKeepsBase` | app/api/verification_service.py:289-299 | the cache is only ever written with the response of the request's own chain |
| `Verification.StepKeepsSpend` | app/api/verification_service.py:230-286 | every step but a purge that meets a building or releasing request keeps the one-spend invariant of a key |
| `Verification.StepKeepsHonesty` | app/api/verification_service.py:230-286 | every step but a purge that meets a request that may still save or give back keeps the honesty invariant of a key |
| `Verification.PurgeIsSafeExactlyWhenClear` | app/db/operations.py:149-182 | for each of the two promises: every run that follows a purge keeps it if and only if the purge met no request in the way - building or releasing for one spend, and also working or saving for honest answers |
| `Verification.PurgeTooSoonBreaksThePromise` | app/db/operations.py:149-182 | from any state at all, a purge that meets such a request has a continuation, with no further purge, that breaks the promise |
| `Verification.StepKeepsInv` | app/api/verification_service.py:196-286 | every step of every request, thread, purge and cache eviction keeps the promised invariant of a key, if a purge of that key waits for the requests in the way |
| `Verification.RunKeepsInv` | app/api/verification_service.py:196-286 | so does every interleaving of any number of them |
| `Verification.OneSpendPerRetention` | app/api/verification_service.py:230-286 | over every interleaving, failure, crash and cancellation, two requests under one key never both start work within one retention of its row, unless a purge of that key met a request still building or releasing; work that outlives its row does no harm |
| `Verification.OneSpendWithoutPurge` | app/api/verification_service.py:230-286 | a key that is never purged is spent at most once, ever, whatever is purged elsewhere |
| `Verification.AnswersAreHonest` | app/api/verification_service.py:131-178 | every answer is the stored chain of a request with the same key, owner and hash, unless a purge of that key met a request that could still save or release |
| `Verification.OwnAnswersAreHonest` | app/api/verification_service.py:256-272 | a request answered by its own work gets the chain it stored, for its own key and hash, in every run |
| `Verification.ReplaysAgree` | app/api/verification_service.py:100-128 | two answers to one key whose work began in the same retention are the same response, from cache, database or the original run |
| `Verification.SpentKeyIsTaken` | app/db/operations.py:76-107 | once work began, the key stays taken for the rest of its retention |
| `Verification.FreedOnlyUnspent` | app/api/verification_service.py:279-285 | a row goes away only by a purge or by the release of a request under its key that never started work; while the purge is patient, of the very request that reserved it |
| `Verification.FinishedStays` | app/db/operations.py:132-146 | a finished row is changed by no step but its own purge and a save landing under its key, and by no save while the purge is patient; no late uncertainty mark undoes it |
| `Verification.FinishedNamesItsChain` | app/db/store.py:94-104 | a finished row names a stored chain of its own owner in every run, and of its own request hash while the purge is patient |
| `Verification.RetryIsDecided` | app/api/verification_service.py:131-178 | a retry that finds the row retained gets the row's chain, is told to wait, to reconcile, or that the key was reused, each exactly by the row's hash, state, age and the lease |
| `Verification.HitIsDecided` | app/api/verification_service.py:36-75 | a cached answer is replayed to the body it was written for, and refuses any other as reuse |
| `Verification.HowAFailureEnds` | app/api/verification_service.py:273-286 | how each failure, cancellation and crash leaves its request and what it leaves under way: release before work, mark once work may have begun |
| `Verification.HowAStepGoes` | app/api/verification_service.py:228-272 | what reserving, starting work, concluding, cleaning up and remembering change, of the request, the row and the cache |
| `Verification.AnyThreadMayRunNext` | app/api/verification_service.py:228-286 | a request may be cut short at any point, and a thread may run or fail whenever it is under way |
| `Verification.FailureBeforeWorkFreesTheKey` | app/api/verification_service.py:283-285 | a failure before any work gives the key back for a retry |
| `Verification.FailureAfterWorkAsksToReconcile` | app/api/verification_service.py:273-286 | a failure or cancellation once work may have begun leaves the key taken, and a retry is told to reconcile |
| `Verification.CrashedKeyIsRefused` | app/db/operations.py:48-59 | in every run after a request crashes before or during its work, until its row is purged, a retry is told to wait while the row is pending within its lease, and to reconcile at every later instant |
| `Verification.LateSaveFinishesTheKey` | app/api/verification_service.py:263-286 | a request cancelled during its save is finished with its own chain, in either order of the save and the uncertainty mark |
| `Verification.UndisturbedWorkIsAnswered` | app/api/verification_service.py:256-272 | an undisturbed request answers with its own chain, which its key's row then names |
| `Verification.StalledReleaseSpendsTwice` | app/db/operations.py:116-129 | a concrete run: a release that stalls past its row's retention frees the next holder's row, and the key is spent twice |
| `Verification.LateSaveAnswersAnotherBody` | app/db/store.py:94-99 | a concrete run: work that outlives its row's retention finishes the row of the next request, and a retry of that one is answered with the chain of another body |
| `NetworkConditions.LiveIsNotTerminal` | app/network_conditions.py:184-203 | the count query and the status shown to a caller agree on what is live |
| `NetworkConditions.EffectiveStatus` | app/network_conditions.py:184-188 | a status changes by the clock alone, only to expired, and only from pending or active |
| `NetworkConditions.Subscriptions.Reserve` | app/network_conditions.py:391-421 | a row is reserved exactly when both caps have room, and with it both caps still hold |
| `NetworkConditions.Subscriptions.Mark` | app/network_conditions.py:502-515 | only the named row changes, and a row that is gone stays gone |
| `NetworkConditions.Subscriptions.Forget` | app/network_conditions.py:518-524 | the reservation is removed and nothing else |
| `NetworkConditions.Subscriptions.Adopt` | app/network_conditions.py:580-587 | a found remote id is adopted only by a row still unknown and without one |
| `NetworkConditions.Subscriptions.ExpireDue` | app/network_conditions.py:272-299 | only rows whose expiry has come are settled, at most a batch, and all of them when the batch suffices |
| `NetworkConditions.Subscriptions.PurgeTerminal` | app/network_conditions.py:225-269 | only rows settled and past retention go; a row of status unknown is never among them |
| `NetworkConditions.Inbox.Accept` | app/network_conditions.py:747-816 | each refusal has its condition; an accepted event is the newest stored; only acceptance changes anything, and displaces at most one oldest event |
| `NetworkConditions.ClearStaysClear` | app/network_conditions.py:357-468 | once nothing is left at the operator for a local id, nothing ever comes back for it |
| `NetworkConditions.CreateAnswerDecides` | app/network_conditions.py:423-468 | which status each answer to a create leaves, in numbers: only 400 to 499 other than 408 fails the row; no status, 408 and everything else makes it unknown |
| `NetworkConditions.DeleteAnswerDecides` | app/network_conditions.py:615-634 | only a confirmation, 404 or 410 marks a row deleted; any other answer makes it unknown |
| `NetworkConditions.DeletePlanned` | app/network_conditions.py:596-618 | what a deletion does by the row's owner, status and remote id; a row whose remote state is unseen must be reconciled first |
| `NetworkConditions.DeleteProceeds` | app/network_conditions.py:596-634 | a deletion asks the operator for a remote id it knows, marks a settled row that never had one, and otherwise does nothing |
| `NetworkConditions.StepKeepsCreate` | app/network_conditions.py:423-468 | every step leaves each id watched by a pending, active or unknown row, or clear at the operator |
| `NetworkConditions.StepKeepsRow` | app/network_conditions.py:502-524 | a row's remote id is the one its own create call brought about |
| `NetworkConditions.StepKeepsDelete` | app/network_conditions.py:590-634 | a deletion believed confirmed really left nothing behind |
| `NetworkConditions.StepKeepsLookup` | app/network_conditions.py:551-587 | a looked-up remote id belongs to the row it was looked up for |
| `NetworkConditions.StepKeepsInv` | app/network_conditions.py:357-634 | every step of create, reconcile, delete, expire and purge, and every act of the operator, keeps the invariant |
| `NetworkConditions.NoLeakedSubscription` | app/network_conditions.py:357-634 | in every run, an operator whose refusals (400 to 499 other than 408) and confirmations (404, 410) are honest holds no unexpired subscription without a local row that is pending, active or unknown |
| `NetworkConditions.OneRemotePerRow` | app/network_conditions.py:423-468 | a local row has at most one remote subscription, and names no other |
| `NetworkConditions.UnknownIsOnlyResolved` | app/network_conditions.py:551-634 | an unknown row is never dropped; it leaves that status only by its remote id or by a confirmed deletion |
| `NetworkConditions.DroppedOnlyWhenClear` | app/network_conditions.py:225-269 | a row disappears only when nothing is left for it at the operator |
| `NetworkConditions.UnknownMarkCounts` | app/network_conditions.py:191-222 | marking a row unknown raises its account's and its device's live count by one exactly when the row was no longer live, and by nothing otherwise |
| `NetworkConditions.FewerLive` | app/network_conditions.py:184-222 | no other step of anybody but a granted reservation raises any live count |
| `NetworkConditions.GrantKeepsCaps` | app/network_conditions.py:391-421 | a reservation granted by a clock reading however stale leaves both caps holding by the clock of the moment |
| `NetworkConditions.StepBreaksACapExactly` | app/network_conditions.py:184-222 | while the caps hold, a step breaks one if and only if it marks unknown a row that no longer counted, of an account or a device already full |
| `NetworkConditions.CapsHoldWithoutRevival` | app/network_conditions.py:357-634 | over every run from nothing, both caps hold after every step if every unknown mark, of a failed deletion or of an ambiguous create, hits a row that still counts |
| `NetworkConditions.BrokenCapsWereRevived` | app/network_conditions.py:357-634 | when a run breaks a cap, the first step that does is such a mark |
| `NetworkConditions.LateAnswerExceedsTheCaps` | app/network_conditions.py:438-460 | a concrete run: a create answered ambiguously after its row expired and was replaced makes two live rows under a cap of one |
| `NetworkConditions.FailedDeleteExceedsTheCaps` | app/network_conditions.py:618-632 | a concrete run: so does a failed deletion of an expired subscription beside its replacement |
| `Outcomes.OneHead` | app/db/outcomes.py:86-96 | a slot has exactly one current event when it has any, the last of its timeline |
| `Outcomes.TimelineIsUnique` | app/db/outcomes.py:192-213 | the links admit one timeline only |
| `Outcomes.PurgeCutsAPrefix` | app/db/outcomes.py:243-255 | a purge by report time removes a prefix of every timeline and leaves the rest linked |
| `Outcomes.OutcomeLog.CurrentHead` | app/db/outcomes.py:86-96 | the current event is the last of the timeline, and there is none only when it is empty |
| `Outcomes.OutcomeLog.Decide` | app/db/outcomes.py:111-130 | a retry is answered with the original receipt, a reused key refused, and a report proceeds exactly when it names the current event |
| `Outcomes.OutcomeLog.Commit` | app/db/outcomes.py:132-189 | whatever committed since the decision: the event is written exactly when its target is still current, or the slot still empty, and the key unused; otherwise nothing changes |
| `Outcomes.OutcomeLog.Recheck` | app/db/outcomes.py:177-188 | after a collision the same key is replayed or refused, and otherwise the slot was taken |
| `Outcomes.OutcomeLog.PurgeOutcomes` | app/db/outcomes.py:243-255 | everything reported by the cutoff goes and every timeline keeps its suffix |
| `Outcomes.OutcomeLog.PurgeRecords` | app/db/challenges.py:278-290 | exactly the idempotency records created by the cutoff go, and no event or open decision is touched |
| `Outcomes.OutcomeLog.OneCurrentEvent` | app/db/outcomes.py:192-213 | in every reachable state a slot with events has one current event and one timeline |
| `Outcomes.OutcomeLog.SuccessorsAreRetained` | app/db/outcomes.py:243-255 | no retained event points at a successor that is gone; the successor points back and was reported no earlier |
| `RunEvents.DensePurge` | app/db/run_events.py:201-210 | a purge by time drops a prefix of the numbers of the current incarnation |
| `RunEvents.PageContinues` | app/db/run_events.py:155-181 | from a held cursor a page continues at the next number and skips none |
| `RunEvents.FreshReplayIsCompleteExactlyWhenNothingWasDropped` | app/db/run_events.py:184-198 | a replay from zero reports no gap and is complete if and only if nothing was dropped |
| `RunEvents.RunJournal.MaxSequence` | app/db/run_events.py:127-132 | the greatest stored number, or zero |
| `RunEvents.RunJournal.ReadNext` | app/db/run_events.py:127-132 | the number claimed is one past the last of the current incarnation, and 1 again once retention has emptied the run |
| `RunEvents.RunJournal.StampClaim` | app/db/run_events.py:133-142 | the event carries the clock of the moment between the read and the insert |
| `RunEvents.RunJournal.InsertRow` | app/db/run_events.py:133-149 | the primary key admits a claim exactly when nobody took its number since, and then as the next of the series |
| `RunEvents.RunJournal.TryOnce` | app/db/run_events.py:125-149 | one try stores the event last exactly when no rival landed in between, with a time from within the call |
| `RunEvents.RunJournal.PersistEvent` | app/db/run_events.py:111-152 | stored once under the number returned, or dropped exactly when rivals took the number three times running; an empty run id changes nothing |
| `RunEvents.RunJournal.PurgeOlderThan` | app/db/run_events.py:201-210 | exactly the rows by the cutoff go, whenever it runs; the journal stays dense and in order if no insert under way is in its way |
| `RunEvents.RunJournal.EventsAfter` | app/db/run_events.py:155-181 | the first rows above the cursor in order, and none of them missed below the page's end |
| `RunEvents.RunJournal.ReplayFrom` | app/db/run_events.py:155-198 | paging from a held cursor ends and yields the whole retained suffix once, in order |
| `RunEvents.StepKeepsInv` | app/db/run_events.py:125-149 | every read, stamp, insert and patient purge keeps the current incarnation numbered 1, 2, 3 as it was committed and in order of time |
| `RunEvents.PurgeIsSafeExactlyWhenClear` | app/db/run_events.py:201-210 | every run that follows a purge stays dense and in order if and only if no insert under way points at or below what the purge drops (or, when it empties the run, at any number but 1) |
| `RunEvents.PurgeTooSoonMisnumbers` | app/db/run_events.py:133-149 | otherwise that insert goes through and takes a number that is not the next |
| `RunEvents.ReplayContinuesExactlyItsOwnIncarnation` | app/db/run_events.py:155-198 | for a client told there is no gap, the replay after its last event is exactly what was persisted since, if and only if the row it stands on is of the current incarnation |
| `RunEvents.NoHoleWithoutRestart` | app/db/run_events.py:184-198 | so a run that retention never emptied has no silent hole |
| `RunEvents.TimeFollowsSequence` | app/db/run_events.py:133-142 | server time never runs backwards along the stored numbers |
| `RunEvents.RestartedRunHidesEvents` | app/db/run_events.py:127-132 | a concrete run: emit, empty by retention, emit twice; the old cursor is told there is no gap and is never shown the second event |
| `Consents.EveryTransition` | app/consent.py:199-306 | no operation lowers a consent's rank; a terminal status gives way only to the report of a handler still out: COMPLETED only to the failure of the handler that opened it, FAILED only to a verification it overtook, DENIED only to FAILED, EXPIRED to FAILED or a claimed verification's COMPLETED |
| `Consents.OutcomesAreFinal` | app/consent.py:246-284 | once the opening handler has reported, COMPLETED is final, and so is FAILED unless a verification is still out |
| `Consents.EffectOf` | app/consent.py:131-284 | what each operation changes of a record, field by field, and that one that has run out only expires |
| `Consents.RankOrdersTheSteps` | app/consent.py:209-306 | the steps to an outcome come strictly one after the other, and no outcome ranks above another |
| `Consents.DroppedExactly` | app/consent.py:141-167 | a record is past retention exactly when it has been terminal for all of it |
| `Consents.OpenerMayOverwriteAnyStatus` | app/api/routes_consent.py:123-134 | every status, COMPLETED included, can be reached while the authorization request is still open, and its failure then makes it FAILED |
| `Consents.OneCallbackOneVerification` | app/consent.py:199-306 | over any sequence of operations, the opening handler's included: at most one callback and one verification are claimed, and a token exists only while authorized or verifying |
| `Consents.ExpiryStartsRetention` | app/consent.py:131-167 | a record that only now is seen to have expired is not dropped before its full retention |
| `Consents.ConsentStore.SetAuthorizationUrl` | app/consent.py:199-202 | the opening handler's URL is kept only while the consent is still pending |
| `Consents.ConsentStore.BeginCallback` | app/consent.py:209-234 | claimed exactly once, from PENDING; a second callback is told it is a replay; the state stops resolving with the claim |
| `Consents.ConsentStore.Deny` | app/consent.py:236-244 | the state stops resolving; only a pending or exchanging consent is denied |
| `Consents.ConsentStore.Fail` | app/consent.py:246-251 | the handler that opened the consent or claimed its exchange reports failure, whatever the status by then: it is FAILED, the token is gone, and the state index is left as it was |
| `Consents.ConsentStore.Authorize` | app/consent.py:253-258 | a token is attached only to a consent still exchanging |
| `Consents.ConsentStore.ClaimVerification` | app/consent.py:260-268 | claimed exactly once, with the token; a completed consent gives its stored response |
| `Consents.ConsentStore.Complete` | app/consent.py:270-277 | the response is stored, the token dropped and retention restarted |
| `Consents.ConsentStore.FailVerification` | app/consent.py:279-284 | the handler that claimed the verification reports its failure, and the token is gone |
| `Consents.ConsentStore.Create` | app/consent.py:93-129 | a consent is added only within both limits, after dropping exactly what is past its terminal retention; every other record and state stays |
| `Consents.ConsentStore.Sweep` | app/consent.py:141-167 | every record is expired if due, and dropped exactly when past its full terminal retention, together with its state and no other |
| `Consents.ConsentStore.ByState` | app/consent.py:174-183 | a listed state is found exactly when its record is still within retention, and leads only to a consent whose callback nobody claimed |
| `Consents.ConsentStore.Owned` | app/consent.py:185-197 | a consent is shown to its own merchant only, and not past its retention |
| `Consents.ConsentStore.StateNeverResolvesAClaim` | app/consent.py:209-234 | the state index never leads to a consent being exchanged, authorized, being verified or completed; one that failed to open may still be found |
| `Caches.ReadAndPurgeMeetAtExpiry` | app/cache.py:72-99 | reading and purging disagree at the instant of expiry and at no other |
| `Caches.InMemoryCache.Get` | app/cache.py:72-80 | a read returns the last value written, unexpired, or nothing, and disturbs no other key |
| `Caches.InMemoryCache.Set` | app/cache.py:82-86 | the value just written is what the key reads as until its time to live is over, and for good if that is zero; what is displaced is at most what eviction gives up |
| `Caches.InMemoryCache.SetIfAbsent` | app/cache.py:44-62 | a reservation never displaces an entry that has not reached its expiry; it is refused exactly for a readable value, or when unexpired entries fill the cache; once made it reads as itself for its time to live |
| `Caches.InMemoryCache.DeleteIfValue` | app/cache.py:64-70 | only the very value is released; a newer one and every other key stay |
| `Caches.InMemoryCache.Evict` | app/cache.py:88-92 | what has expired goes, and only if nothing has, the oldest inserted |
| `Caches.InMemoryCache.PurgeExpired` | app/cache.py:94-99 | exactly the entries at or past their expiry go |

## Left out

- Investigators.Investigation.Investigate: rationale texts, planner labels, emitted events, latency and verdict prose are not modelled, because they never feed a decision.
- Investigators.Investigation.Conclude: the operation count also counts local links, as the source's does; it is not claimed to be billable when local evidence is present.
- Investigators.Investigation.GatherParallel: claims a bounded overdraft and not a non-negative budget, because the source pays dates before later links of the same batch.
- Access.JudgeAccess.ReserveRealRun: the reservation id is a parameter assumed never issued before, because it is drawn at random.
- Access.JudgeAccess.GrantNac: recognizing an organizer code is a parameter, because it is a constant-time comparison of configured secrets.
- Verification.StepKeepsInv: `execute` is a step system and not one method, because what is proved is about requests interrupted and interleaved at its awaits.
- Verification.AnswersAreHonest: holds only while the purge of the key is patient, as Verification.PurgeIsSafeExactlyWhenClear shows it must; the response is an arbitrary function of the stored chain, whose request hash covers the request and its options; two deployments with different pricing may render the counterfactual differently.
- RunEvents.RunJournal.PersistEvent: retention does not run inside one call; a purge between the read and the insert is a step of the journal, and RunEvents.PurgeIsSafeExactlyWhenClear says what it does.
- RunEvents.RunJournal.ReplayFrom: the journal does not change between the pages of one replay.
- NetworkConditions.Inbox.Accept: comparing the callback token is a parameter, a naive timestamp is excluded by the type, and the level vocabulary is not modelled.
- NetworkConditions.Subscriptions.Reserve: the callback configuration check and the provider capability check before it are one-branch refusals.
- Reading congestion intervals and pacing queries: projections and one comparison.
- Merchant keys minted for judges, `snapshot`, `public` and listings: smaller copies or projections of what is proved here.
- The Redis cache: an external service; the protocol already assumes nothing of a cache but that what it returns was once written.
- Challenge attempts, proof shares, announcements, velocity, model budget and token stores: the same compare-and-swap, one-use and rolling-window patterns.
- HTTP routes, streaming, templates, signing, hashing, policy loading, startup checks and migrations.
