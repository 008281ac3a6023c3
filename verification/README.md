# CryptoARC: a verified model

CryptoARC is a paper-trading bot: a Python backend that listens to token launches and trades them on
paper, a React monitor, a local signer daemon, and tools around them.  This project models, in Dafny
4.11, the parts in which small pieces of state have to stay right over long runs, and proves what
they keep.

`dafny verify dfyconfig.toml` checks the whole project.

## How it is built

One module per component.  Code that changes state step by step is a class or a method with a loop,
and its contract equates the new state with a function of the old one (`View() == F(old(View()))`);
what the component promises is then proved about those functions, over every run.  A module named
`...Laws` (and `HealthProbeHistory`, `ScannerText`) says what those functions do in other terms: on the
actions of a run, on the characters of a text, on prices and settings, without naming them.  Money,
prices and clock readings are exact reals.

- `HealthProbe`, `HealthProbeRuns`, `HealthProbeHistory` - the shared RPC health probe of the signer daemon: the dictionary
  and the flags as mutable objects, every interleaving of callers and runner threads as a transition system, and what
  each thread is told in terms of the actions before it.
- `Scanner`, `ScannerText`, `ScannerPrinting` - the three hand-written scanners of the settings-contract check, proved
  against one lexer; what that lexer makes of comments, literals and braces; printing an object literal and scanning it
  again.
- `WorkQueue`, `WorkQueueLaws`, `Governor` - the retrying work queue with dead letters, and the governor that sheds
  optional work.
- `TradeStream`, `TradeStreamLaws` - the manager of trade subscriptions and the drop-oldest queue in front of it.
- `PaperTrader`, `PaperTraderLaws`, `TradeStats` - the life of a paper position, and the statistics of closed trades.
- `ShadowEvaluation`, `PriceDiagnostics`, `TokenMerge`, `JsonEquality`, `JsonStructure`, `HotWallet` (with `ShadowEvaluationLaws`,
  `PriceDiagnosticsLaws`, `HotWalletLaws`) - one-pass computations
  and their direct definitions: drawdown and the economic report, the jump counter, the snapshot merge and its
  comparison of tokens, the block-wise cipher and the vault around it.
- `PilotRisk`, `PilotRiskLaws`, `PilotStops`, `Auth`, `AuthLaws` - bounds over whole runs: what the pilot can lose and when its stops are caps, and how
  often a password can be guessed.
- `StableSort`, `Options`, `Common` - the stable sort that Python and section 23.1.3.30 of ECMA-262 both promise, the
  two usual result types, and small shared definitions.

## What turned out not to hold, and when it does

- A health probe whose thread cannot be started stays registered for ever, and every later answer for its URL is that
  the probe timed out (`HealthProbeRuns.FailedStartLeaks`).
  `HealthProbeRuns.NothingLeaks` says exactly when: after all threads are finished the dictionary is empty if and only if
  every thread started.
- The deque, the set, the timestamps and the remote subscriptions of the trade stream agree after every run if and
  only if there is a single slot (`TradeStream.AgreementIffOneSlot`); with two slots or more, a preferred mint that is already
  subscribed is appended again.  For any number of slots they agree all along a run if and only if no switch of the run
  takes a mint that is still subscribed (`TradeStream.AgreementAlongRuns`); `TradeStream.StreamInvariant` holds regardless.
- The comparison of decoded JSON values is not symmetric (`JsonStructure.LengthIsRead`): an object with a `length` field can
  equal an array.  A value is compared structurally with every other value if and only if no object inside it owns
  an empty prototype or a length that makes it look like an array (`JsonStructure.StructuralIff`); for tokens, see
  `JsonStructure.TokensAreStructuralIff`.
- The $25 freeze of the pilot does not cap the losses: a run loses $27.50 (`PilotStops.FreezeCanBePassed`), though no run
  loses $30.50 (`PilotRisk.LossesAreBounded`).  For one position it is a cap if and only if the loss so far, the stake,
  the entry cost and the highest exit cost fit into it (`PilotStops.FreezeHoldsIff`, `PilotStops.FreezeHoldsAlongRuns`); buys
  that leave that much room keep it for whole runs (`PilotStops.RoomMakesTheFreezeACap`); without such a rule it is a cap
  over all runs if and only if the policy allows no buy at all (`PilotStops.FreezeIsACapIff`).
- A lockout ends after a minute, but that does not let everybody in: comparing passwords or codes raises when one of
  them is not ASCII.  After the last clock reading and a minute more, the right password and code are accepted if and
  only if both are ASCII (`Auth.LockoutEnds`).  Setting a password with an umlaut, which the settings accept, locks
  everybody out (`Auth.UmlautLocksOut`).

## Model

| member | source | states |
|---|---|---|
| `HealthProbe.ProbeRegistry.GetOrStart` | tools/local_signer_daemon.py:240-255 | a caller joins the registered probe unless it is both expired and done; otherwise a fresh probe replaces it, and only then is a thread started |
| `HealthProbe.ProbeRegistry.SeesExpired` | tools/local_signer_daemon.py:216-218 | the first critical section of a caller reads the expiry of its own probe |
| `HealthProbe.ProbeRegistry.TimeOut` | tools/local_signer_daemon.py:219-224 | a timed-out caller expires its probe and removes it exactly if it is done and still the registered one |
| `HealthProbe.ProbeRegistry.Collect` | tools/local_signer_daemon.py:225-231 | a woken caller removes its probe exactly if it is still the registered one, and answers by the expiry it saw |
| `HealthProbe.ProbeRegistry.Finish` | tools/local_signer_daemon.py:268-270 | the runner removes its probe exactly if somebody expired it and it is still the registered one |
| `HealthProbe.ProbeRegistry.RemoveIfCurrent` | tools/local_signer_daemon.py:227-231 | a removal never takes another probe than the one held |
| `HealthProbeRuns.NextKeepsInv` | tools/local_signer_daemon.py:215-270 | every atomic step of any thread keeps the protocol invariant |
| `HealthProbeRuns.FlagsOnlyRise` | tools/local_signer_daemon.py:221-270 | the flags of a probe are only raised, and the result of a done probe is frozen |
| `HealthProbeRuns.SingleFlight` | tools/local_signer_daemon.py:240-267 | in every interleaving at most one health request per URL is in flight, and a new caller would join it |
| `HealthProbeRuns.NothingLeaks` | tools/local_signer_daemon.py:219-270 | when all threads are finished the dictionary holds exactly the URLs of probes whose thread never started |
| `HealthProbeRuns.FailedStartLeaks` | tools/local_signer_daemon.py:215-255 | after one request whose thread cannot be started everybody is finished, and in every extension of the run the probe stays registered and every answer for that URL is that it timed out |
| `HealthProbeRuns.OnlyOwnersRemove` | tools/local_signer_daemon.py:222-270 | an entry disappears only once its probe is done, by a thread holding that very probe, or by a lookup that finds it expired before its runner has retired it |
| `HealthProbeRuns.VerdictsAreTrue` | tools/local_signer_daemon.py:215-237 | each answer is the one that the flags of its own probe for its own URL call for, and "timed out" is only given for an expired probe |
| `HealthProbeRuns.ExpiryIsFinal` | tools/local_signer_daemon.py:216-229 | once a probe is expired, no caller gets past it that was not past it already |
| `HealthProbeRuns.RequestsFinish` | tools/local_signer_daemon.py:215-270 | n requests take at most 9n atomic steps of all threads together, and unless everybody is finished somebody can step |
| `HealthProbeHistory.AnswersAreTrue` | tools/local_signer_daemon.py:215-267 | over every run, whoever is answered "healthy" on a probe is so exactly if the one request of that probe returned "ok", "failed" exactly if it raised, "malformed" exactly if it returned anything else or was killed; "timed out" means that somebody's wait for it timed out |
| `HealthProbeHistory.StepsOfCallers` | tools/local_signer_daemon.py:215-237 | how far each step takes its caller, in terms of whose wait has timed out and what has been signalled before; all other callers stay where they are |
| `HealthProbeHistory.StepsOfTheDictionary` | tools/local_signer_daemon.py:215-270 | which steps remove the entry of a URL, which replace it, and that all others keep it |
| `HealthProbeHistory.StepsOfALookup` | tools/local_signer_daemon.py:240-255 | a lookup joins the entry it finds unless that was given up on and has signalled; otherwise it makes the one new probe and starts its thread |
| `HealthProbeHistory.StepKeepsHistory` | tools/local_signer_daemon.py:215-270 | every step keeps what the flags of a probe say about the actions so far |
| `Scanner.SkipTrivia` | scripts/check_settings_contract.py:32-66 | the shared first half of the three loop bodies is one turn of the lexer, whose meaning on the text is given by `ScannerText` |
| `Scanner.ExtractBracedBlock` | scripts/check_settings_contract.py:14-75 | returns exactly the balanced block at the first brace from `start`, and fails exactly when there is none |
| `Scanner.ExtractTopLevelFields` | scripts/check_settings_contract.py:92-160 | returns exactly the identifiers of top-level code that are followed by a colon or an optional colon |
| `Scanner.FindTopLevelProperty` | scripts/check_settings_contract.py:163-226 | returns the cursor after the first top-level property of that name, and nothing exactly when there is none |
| `Scanner.ReextractionIsIdentity` | scripts/check_settings_contract.py:14-75 | extracting from an extracted block gives the same block and no other |
| `Scanner.BlockDepth` | scripts/check_settings_contract.py:67-72 | in a block the depth is at least one from the opening brace to the last character, which ends at zero outside quotes and comments |
| `Scanner.PropertiesAreFields` | scripts/check_settings_contract.py:145-158 | the properties the finder can hit are exactly the extracted fields that are not optional |
| `Scanner.JumpIsSteps` | scripts/check_settings_contract.py:145-158 | jumping over an identifier equals stepping through it |
| `Scanner.ReachOrder` | scripts/check_settings_contract.py:31-73 | a run of the lexer is a line: states reached from one start are ordered |
| `ScannerText.TriviaIsSkipped` | scripts/check_settings_contract.py:36-66 | a line comment up to the first line feed or carriage return, a block comment up to the first closing delimiter and a literal up to its first unescaped mark, whatever they hold, lead back to code at the same depth right behind them and nowhere to code before |
| `ScannerText.CharacterIsCode` | scripts/check_settings_contract.py:58-73 | every other character is code, and the braces among them change the depth by one |
| `ScannerText.StateBySight` | scripts/check_settings_contract.py:31-73 | for a text in pieces, where the lexer is in code and at what depth is told by counting the braces among the pieces of code before it |
| `ScannerText.CodeBySight` | scripts/check_settings_contract.py:31-73 | code is reached at a place, at a depth, if and only if a piece begins there with that many braces open |
| `ScannerText.BlockBySight` | scripts/check_settings_contract.py:14-75 | the balanced block of a text in pieces ends where the braces of its code first return to zero, and there is none if they never do |
| `ScannerText.NameBySight` | scripts/check_settings_contract.py:145-158 | a name is found exactly where a piece begins at depth one, at an identifier character before which its word has only digits, and it runs to the end of the word |
| `ScannerText.ColonBySight` | scripts/check_settings_contract.py:148-157 | a field has its colon behind its name or behind one question mark, spaces aside; a property has it without |
| `ScannerText.CharactersByCode` | scripts/check_settings_contract.py:11 | the characters of identifiers and of space by their code points |
| `ScannerPrinting.NestedDepth` | scripts/check_settings_contract.py:137-144 | inside a nested block the field scanner is at depth two or more, so it meets no field there |
| `ScannerPrinting.ItemScan` | scripts/check_settings_contract.py:92-160 | scanning one printed item finds exactly its name, whatever comments stand before it and whatever its value, and as a property exactly if it is not optional |
| `ScannerPrinting.ParsingUndoesPrinting` | scripts/check_settings_contract.py:92-160 | a printed literal with comments, nested blocks and quoted values is one balanced block, its fields are exactly the printed names and its properties exactly those not optional |
| `WorkQueue.BoundedWorkQueue.Add` | backend/app/core/workload_governor.py:62-68 | accepts a job exactly if its identity is new and non-empty and there is room for queued and claimed jobs together |
| `WorkQueue.BoundedWorkQueue.Take` | backend/app/core/workload_governor.py:70-77 | claims the oldest queued job and counts the attempt |
| `WorkQueue.BoundedWorkQueue.Complete` | backend/app/core/workload_governor.py:79-84 | forgets a claimed job and frees its identity |
| `WorkQueue.BoundedWorkQueue.Reject` | backend/app/core/workload_governor.py:86-96 | puts a failed job back to the front, or into the dead letters when its attempts are used up |
| `WorkQueue.StepKeepsInv` | backend/app/core/workload_governor.py:62-96 | every operation keeps the invariant of the queue and its history |
| `WorkQueue.QueueSafety` | backend/app/core/workload_governor.py:52-96 | after any operations: accepted = finished + queued + claimed + dead, no identity is held twice, capacity is kept, dead jobs have used exactly the retry limit |
| `WorkQueue.ClaimsBounded` | backend/app/core/workload_governor.py:70-96 | at most `retry_limit` claims are handed out per accepted job |
| `WorkQueue.ResolvedInOrder` | backend/app/core/workload_governor.py:70-96 | with a single consumer jobs are resolved in the order of acceptance, however often they are retried |
| `WorkQueueLaws.LimitsAreKept` | backend/app/core/workload_governor.py:53-56 | the capacity and the retry limit are those asked for, at least one, after any operations |
| `WorkQueueLaws.AddMeans` | backend/app/core/workload_governor.py:62-68 | after any operations a job is accepted exactly if it has an identity that no queued, claimed or dead job has and there is room; it then waits last |
| `WorkQueueLaws.TakeMeans` | backend/app/core/workload_governor.py:70-77 | a claim hands out the job at the front, tried once more, with its payload, and nothing exactly if none is queued |
| `WorkQueueLaws.CompleteMeans` | backend/app/core/workload_governor.py:79-84 | a job is finished exactly if it was claimed, and its identity is then free again |
| `WorkQueueLaws.RejectMeans` | backend/app/core/workload_governor.py:86-96 | a failed job goes back to the front while it was tried fewer times than the limit, and is a dead letter otherwise; an unclaimed one changes nothing |
| `Governor.WorkloadGovernor.Observe` | backend/app/core/workload_governor.py:118-145 | the published state and the counters follow the decision function; a late snapshot changes nothing; each reason is published exactly if its metric is over its limit |
| `Governor.WorkloadGovernor.Allowed` | backend/app/core/workload_governor.py:147-150 | core tiers are always allowed, the optional ones unless they are shed |
| `Governor.WorkloadGovernor.RecordResult` | backend/app/core/workload_governor.py:152-159 | the answer and the new memory are those of the pruned memory function |
| `Governor.WorkloadGovernor.RecordWorkerFailure` | backend/app/core/workload_governor.py:161-162 | the failure log is the last twenty failures |
| `Governor.ReasonsAreTheLimitsExceeded` | backend/app/core/workload_governor.py:175-191 | each of the seven reasons is there if and only if its metric is over its limit, once and in order, and a window is pressured if and only if one is |
| `Governor.ObserveExplains` | backend/app/core/workload_governor.py:123-134 | the two counters mean the same about the windows over a limit before and after a snapshot |
| `Governor.OnlyRecordsCount` | backend/app/core/workload_governor.py:118-121 | a stream has the effect of its version records, whose versions strictly increase |
| `Governor.SheddingIsHistory` | backend/app/core/workload_governor.py:118-145 | over the raw metrics of the records: tiers are shed exactly when some run of N windows over a limit ended at a moment since which no R consecutive windows were all clear; the two counters are the lengths of the current runs |
| `Governor.VersionIsNewest` | backend/app/core/workload_governor.py:118-121 | the version reached is the greatest of the start and of all snapshots of the stream |
| `Governor.PruningIsInvisible` | backend/app/core/workload_governor.py:152-159 | over any run, every answer is that of a memory that is never pruned |
| `Governor.AcceptedOnce` | backend/app/core/workload_governor.py:152-159 | each (version, job) is accepted at most once |
| `Governor.AcceptedIff` | backend/app/core/workload_governor.py:152-159 | a result is accepted if and only if it names a job, is about the newest snapshot so far and was not reported since that became the newest |
| `TradeStream.TradeSubscriptions.HandleLaunch` | backend/app/core/sources.py:401-419 | an ordinary launch is ignored, or takes a slot from the oldest subscription, with the frames sent accordingly |
| `TradeStream.TradeSubscriptions.HandlePreference` | backend/app/core/sources.py:420-454 | a preferred mint is switched to, released, or left alone |
| `TradeStream.TradeSubscriptions.SwitchPreferred` | backend/app/core/sources.py:425-446 | the active mint is released and others are evicted, the previously active one last, before the new one is subscribed |
| `TradeStream.TradeSubscriptions.PrepareConnection` | backend/app/core/sources.py:336-360 | before a connection the preferred mint, else the oldest, else the next launch is in the deque |
| `TradeStream.TradeSubscriptions.Resubscribe` | backend/app/core/sources.py:363-364 | a new connection subscribes every mint of the deque, in order |
| `TradeStreamLaws.LaunchIsSubscribed` | backend/app/core/sources.py:401-419 | a launch that is heard and not subscribed takes a slot exactly if the deque is empty, there is more than one slot, or the oldest is ten minutes old: just as many of the oldest as it takes are unsubscribed, oldest first, then it is subscribed and appended; otherwise nothing changes |
| `TradeStreamLaws.PreferredIsSwitchedTo` | backend/app/core/sources.py:423-446 | another preferred mint takes the place of the active one, or of the oldest named one of a full deque, or is added; with its frames, timestamp and count |
| `TradeStreamLaws.PreferenceIsReleased` | backend/app/core/sources.py:447-454 | without a preferred mint the active one is unsubscribed and not counted as dropped; every other answer changes nothing |
| `TradeStreamLaws.ConnectionIsPrepared` | backend/app/core/sources.py:335-364 | which mint a connection is prepared for, what that drops, and that a connection announces the whole deque in order |
| `TradeStreamLaws.EvictionCuts` | backend/app/core/sources.py:406-411 | making room drops the shortest cut of oldest mints, in order |
| `TradeStream.NextKeepsInv` | backend/app/core/sources.py:335-477 | every event keeps the invariant of the subscriptions |
| `TradeStream.StreamInvariant` | backend/app/core/sources.py:335-477 | after any run the deque is within capacity, the active preferred mint is subscribed, and the remote side has all of the set and nothing outside the deque |
| `TradeStream.LaunchSparesPreferred` | backend/app/core/sources.py:374-419 | an ordinary launch never evicts anything while a preferred mint is active |
| `TradeStream.DoubledCandidate` | backend/app/core/sources.py:442-446 | in candidate-only mode with two slots or more, a concrete run ends with one mint twice in the deque, so the records disagree |
| `TradeStream.DoubledLaunch` | backend/app/core/sources.py:442-446 | the same when ordinary launches are subscribed as well |
| `TradeStream.AgreementIffOneSlot` | backend/app/core/sources.py:323-477 | deque, set, timestamps and remote subscriptions agree after every run if and only if there is one slot |
| `TradeStream.CandidateOnlySlot` | backend/app/core/sources.py:339-360 | in single-slot candidate-only mode the slot holds the active preferred mint or nothing |
| `TradeStream.SlotRotatesSlowly` | backend/app/core/sources.py:182-183 | in a single slot that listens to launches, an ordinary launch replaces another only after ten minutes |
| `TradeStream.NextAgreesIff` | backend/app/core/sources.py:335-477 | for any number of slots, one event keeps the four records in agreement exactly unless a switch takes a mint that is still subscribed after making room |
| `TradeStream.AgreementAlongRuns` | backend/app/core/sources.py:335-477 | for any number of slots, the records agree all along a run if and only if no switch of the run does so |
| `TradeStream.SubscriptionQueue.Offer` | backend/app/core/sources.py:301-321 | the waiting mints are the newest of those offered and not taken; a full queue loses exactly its oldest |
| `TradeStream.SubscriptionQueue.Take` | backend/app/core/sources.py:349-350 | mints are taken in the order offered, skipping only dropped ones |
| `PaperTrader.Token.DoBuy` | backend/app/core/paper_trader.py:14-57 | a buy fails, waits for its fill, or is live, with its entry price, size, entry fee and the breakdown of its costs |
| `PaperTrader.Token.MarkToMarket` | backend/app/core/paper_trader.py:132-151 | marking sets the moves, the exit fee with its parts, the total of fees and the profit of the realised and the open part, and nothing else |
| `PaperTrader.Token.DoClose` | backend/app/core/paper_trader.py:153-164 | closing marks once more and records price, time and reason |
| `PaperTrader.Token.DoReprice` | backend/app/core/paper_trader.py:71-82 | a tick's price is applied, with its floor, before anything is decided |
| `PaperTrader.Token.FillPartial` | backend/app/core/paper_trader.py:86-91 | the partial fill realises its share of the marked profit once |
| `PaperTrader.Token.DoTick` | backend/app/core/paper_trader.py:59-130 | one tick of the status machine, with its clock readings and what it answers |
| `PaperTraderLaws.FailedFill` | backend/app/core/paper_trader.py:16-21 | a fill fails exactly if the bucket, one unit up, is within the configured rate, and then only status and flag change |
| `PaperTraderLaws.FilledBuy` | backend/app/core/paper_trader.py:23-57 | a filled buy field by field: price with slippage and impact and its floor, fees of the stake, breakdown of costs, delay and status |
| `PaperTraderLaws.WaitsForItsFill` | backend/app/core/paper_trader.py:60-66 | a bought position waits out its delay, whatever the prices, and is then live |
| `PaperTraderLaws.OtherTicks` | backend/app/core/paper_trader.py:60-69 | a tick of a position that is not live changes nothing but the delay |
| `PaperTraderLaws.TickedPrice` | backend/app/core/paper_trader.py:71-76 | the price of a tick is the last one moved by the given percentage, never below its floor, and peak and trough follow it |
| `PaperTraderLaws.MarkedProfit` | backend/app/core/paper_trader.py:132-151 | marking, written out in prices and settings: the profit is what is realised plus the open share of stake times relative gain less both fees |
| `PaperTraderLaws.WholePositionProfit` | backend/app/core/paper_trader.py:132-151 | with nothing realised and all open the profit is stake * (ratio - 1) less the entry fee and the exit fee, each in its three parts |
| `PaperTraderLaws.PartialFill` | backend/app/core/paper_trader.py:86-91 | the partial fill is taken once, as soon as the move reaches its threshold, and realises the clamped fraction of the marked profit |
| `PaperTraderLaws.TickSells` | backend/app/core/paper_trader.py:84-130 | a live tick sells exactly if the minimum hold time is over and a rung of the ladder of exits holds, for the reason of the first that does, at the price and time of the tick |
| `PaperTraderLaws.FinalProfit` | backend/app/core/paper_trader.py:14-164 | over any path from a buy, the profit of a sold position is the blend, in the fraction sold, of what the whole would have netted at the tick of the partial fill and at the tick of the sale, both written out in prices and settings |
| `PaperTrader.FeesAddUp` | backend/app/core/paper_trader.py:34-151 | over any path from a buy, the recorded parts of both fees and the total of fees add up |
| `PaperTrader.SettledStays` | backend/app/core/paper_trader.py:68-69 | a sold or skipped position never changes again and never answers true |
| `PaperTrader.ClosesIffLimitReached` | backend/app/core/paper_trader.py:93-130 | a live tick closes exactly when the position was held long enough and some limit is reached; the take profit outranks the others; otherwise the tick only marks |
| `PaperTrader.ClosesInTime` | backend/app/core/paper_trader.py:59-130 | an open position closes exactly once within its lifetime and then never changes |
| `PaperTrader.BoughtIsSold` | backend/app/core/paper_trader.py:14-130 | a filled buy is sold within fill delay plus max(1, tick limit) ticks, on any price path; a failed fill is never touched again |
| `PaperTrader.LimitSufficesIff` | backend/app/core/paper_trader.py:59-128 | fill delay plus tick limit are enough ticks on every path exactly for the positive limits that the settings accept |
| `PaperTrader.PartialIsNeutralIff` | backend/app/core/paper_trader.py:83-91 | for any position, re-marking after the partial fill leaves the profit unchanged exactly when the realised share of the profit is the net value of the part sold |
| `PaperTrader.PartialIsNeutralOnRuns` | backend/app/core/paper_trader.py:83-91 | on every path from a buy, the tick that takes the partial fill leaves the profit unchanged on re-marking |
| `PaperTrader.PartialPreservesValue` | backend/app/core/paper_trader.py:83-164 | the final profit is f times the net value at the partial fill plus (1 - f) times the net value at the close, on any price path |
| `PaperTrader.PathAccounted` | backend/app/core/paper_trader.py:83-164 | along any path of ticks the realised and the remaining part match the partial fill that happened |
| `TradeStats.BotStats.ApplyClosedTrade` | backend/app/core/paper_trader.py:186-204 | one closed trade updates the tally, and the rates are those of the new tally |
| `TradeStats.TallySummarises` | backend/app/core/paper_trader.py:186-199 | wins, losses and scratches partition the trades; the profit is their sum; best and worst are their extremes, starting at zero |
| `TradeStats.OrderDoesNotMatter` | backend/app/core/paper_trader.py:186-204 | the same trades closed in any order give the same statistics |
| `TradeStats.RatesArePercentages` | backend/app/core/paper_trader.py:200-203 | the rates are percentages, and wins among all trades are no more than among decided ones |
| `TradeStats.RatesOfTrades` | backend/app/core/paper_trader.py:200-203 | the three rates are the won trades of the decided ones, the won ones of all, and those within the threshold of all, in percent, cut to whole numbers |
| `ShadowEvaluation.ComputeDrawdown` | backend/app/core/shadow_evaluation.py:187-194 | the running-peak loop returns the maximum over i <= j of prefix sum i minus prefix sum j, in percent of the modelled equity |
| `ShadowEvaluation.ComputeMetrics` | backend/app/core/shadow_evaluation.py:181-199 | net, profit factor and drawdown of the rows |
| `ShadowEvaluation.MetricsUnique` | backend/app/core/shadow_evaluation.py:181-199 | the metrics are determined by their direct definition |
| `ShadowEvaluation.WinsLessLosses` | backend/app/core/shadow_evaluation.py:184-186 | gains less losses is the net result |
| `ShadowEvaluation.Screen` | backend/app/core/shadow_evaluation.py:81-129 | counts the fixtures and keeps exactly the genuine rows with no blocker, with all blockers in order |
| `ShadowEvaluation.Evaluate` | backend/app/core/shadow_evaluation.py:74-179 | the report is the one that its definition over the rows allows |
| `ShadowEvaluation.NetIsHeldOutPlusTraining` | backend/app/core/shadow_evaluation.py:131-136 | the total net is held-out net plus training net |
| `ShadowEvaluation.FixturesChangeNothing` | backend/app/core/shadow_evaluation.py:82-86 | fixture rows change nothing but the fixture count |
| `ShadowEvaluation.BlockersAreReported` | backend/app/core/shadow_evaluation.py:84-166 | every blocker of every genuine row is in the report, which is then not ready |
| `ShadowEvaluation.ReadyIffClean` | backend/app/core/shadow_evaluation.py:131-166 | a report is ready if and only if no genuine row is blocked and the genuine rows pass every gate: samples, days, regimes, net, profit factor, drawdown, held-out result, no collapse, no catastrophe under stress |
| `ShadowEvaluationLaws.RowIsJudged` | backend/app/core/shadow_evaluation.py:84-129 | each of the eleven blockers of a row is found if and only if its condition holds, once and in order; a row is clean if and only if none does |
| `ShadowEvaluationLaws.FiguresAreMeasured` | backend/app/core/shadow_evaluation.py:181-199 | the metrics are exactly the sum of gross less costs, gains over losses (99 without a loss, 0 without either), and the largest fall in dollars |
| `ShadowEvaluationLaws.ReportIsMeasured` | backend/app/core/shadow_evaluation.py:131-166 | the four sets of figures are about all clean rows at their own and at stressed costs, about those held out and about the others; samples, days and regimes are those of the clean rows |
| `ShadowEvaluationLaws.BlockersAreThese` | backend/app/core/shadow_evaluation.py:81-166 | the blockers of a report are those of its genuine rows and then those whose condition on the figures holds, in order of first occurrence |
| `ShadowEvaluationLaws.DedupeKeepsOrder` | backend/app/core/shadow_evaluation.py:162 | each blocker is listed once, in the order in which they first come up |
| `PriceDiagnostics.Scan` | backend/app/core/price_pipeline.py:100-113 | the single pass counts what the per-mint histories and the per-source buckets say |
| `PriceDiagnostics.ListRows` | backend/app/core/price_pipeline.py:115-126 | one row per source, with its counts, acceptance rate and average confidence |
| `PriceDiagnostics.Diagnose` | backend/app/core/price_pipeline.py:97-146 | counts, rates and the recommended confidence of the observations, jumps and rows of them in time order |
| `PriceDiagnostics.JumpsAreOfTheMints` | backend/app/core/price_pipeline.py:100-113 | the jump count does not depend on how the mints are listed |
| `PriceDiagnostics.TotalSnoc` | backend/app/core/price_pipeline.py:108-113 | an observation adds exactly the jump it completes in its own mint's history |
| `PriceDiagnostics.OwnHistory` | backend/app/core/price_pipeline.py:103-113 | a mint's history in the shared pass is that of its own observations sorted on their own |
| `PriceDiagnostics.SourcesCountEverything` | backend/app/core/price_pipeline.py:115-135 | source counts sum to the number of observations and their accepted counts to the accepted ones, largest first |
| `PriceDiagnosticsLaws.JumpsOfAMint` | backend/app/core/price_pipeline.py:108-113 | the jumps of a mint are the places in its accepted non-zero prices that move by more than ten times the positive price before |
| `PriceDiagnosticsLaws.RecommendationMeans` | backend/app/core/price_pipeline.py:139-146 | the recommended confidence is 0.45 without observations, 0.55 without accepted ones, else the accepted average less 0.05 within 0.45 and 0.85 |
| `PriceDiagnosticsLaws.DiagnosticsMean` | backend/app/core/price_pipeline.py:97-137 | counts, rates, leaps and source rows, counted out on the observations |
| `TokenMerge.MergeMonitorTokens` | frontend/src/App.tsx:493-508 | the two loops and the sort give the merged list, and the current list comes back exactly when it is equal |
| `TokenMerge.TakeIncoming` | frontend/src/App.tsx:494-499 | each incoming id keeps its first place and its last token, or the equivalent current object |
| `TokenMerge.KeepCurrent` | frontend/src/App.tsx:500-502 | current tokens that are neither skipped nor seen are appended in order |
| `TokenMerge.MergeContents` | frontend/src/App.tsx:493-508 | the merged list has unique ids, is newest first, and holds exactly the incoming ids and the non-skipped current ids |
| `TokenMerge.MergeIsFixedPoint` | frontend/src/App.tsx:493-508 | merging the same snapshot again gives the same list, for any reflexive comparison |
| `TokenMerge.CopyKeepsMergedList` | frontend/src/App.tsx:493-508 | merging a copy of the snapshot just merged, in other objects, gives back the merged list object by object, kept tokens included |
| `TokenMerge.DecodedMergeIsFixedPoint` | frontend/src/App.tsx:461-508 | with the program's own comparison, a later decoding of the same snapshot in which only ages differ gives back the list on screen |
| `TokenMerge.EquivalentSnapshotKeepsList` | frontend/src/App.tsx:498-506 | a snapshot equivalent to the screen gives back the objects on screen |
| `StableSort.SortOrders` | frontend/src/App.tsx:503 | sorting orders and permutes |
| `StableSort.SortCommutesWithFilter` | backend/app/core/price_pipeline.py:103 | the sort is stable: picking elements before or after sorting is the same |
| `JsonEquality.SimpleEqual` | frontend/src/App.tsx:461-480 | decides the comparison, including what an array or a prototype answers to a key it does not own |
| `JsonEquality.EqualToItself` | frontend/src/App.tsx:462 | every value equals itself |
| `JsonStructure.StructuralIff` | frontend/src/App.tsx:461-480 | a value is compared structurally with every value if and only if no object inside it can be mistaken, although only one side's keys are looked at |
| `JsonStructure.UnmistakableIsStructural` | frontend/src/App.tsx:461-480 | from such a value, equal means the same up to the order of keys |
| `JsonStructure.ComparisonIsEquivalence` | frontend/src/App.tsx:461-480 | sameness is an equivalence, and so is the comparison of values that cannot be mistaken |
| `JsonStructure.LengthIsRead` | frontend/src/App.tsx:470-477 | a concrete pair that is equal in one direction only |
| `JsonEquality.TokensEquivalent` | frontend/src/App.tsx:482-491 | two tokens are equivalent when they agree on every field of either but the age |
| `JsonStructure.EquivalentIgnoresAgeOnly` | frontend/src/App.tsx:482-491 | tokens whose fields cannot be mistaken are equivalent exactly when all fields but the age are the same |
| `JsonStructure.TokensAreStructuralIff` | frontend/src/App.tsx:482-491 | and only for such tokens is that so against every token without an empty prototype |
| `HotWallet.XorStream` | backend/app/core/hot_wallet.py:386-397 | the block-wise loop computes the pointwise cipher, and fails exactly when the four-byte counter would overflow |
| `HotWallet.XorTwice` | backend/app/core/hot_wallet.py:386-397 | the cipher is its own inverse |
| `HotWallet.DecryptUndoesEncrypt` | backend/app/core/hot_wallet.py:354-380 | decryption undoes encryption under the same password |
| `HotWallet.HotWalletVault.SealBytes` | backend/app/core/hot_wallet.py:354-369 | encryption with its error cases |
| `HotWallet.HotWalletVault.OpenBytes` | backend/app/core/hot_wallet.py:371-380 | decryption with its error cases |
| `HotWallet.HotWalletVault.ImportPrivateKey` | backend/app/core/hot_wallet.py:78-101 | an import replaces sidecar and signer together, or fails and changes nothing |
| `HotWallet.HotWalletVault.UnlockWith` | backend/app/core/hot_wallet.py:103-121 | an unlock sets the signer only when the three public keys agree |
| `HotWallet.UnlockedIsLastImported` | backend/app/core/hot_wallet.py:78-132 | after any run the unlocked signer has the public key of the last import and of the sidecar |
| `HotWallet.OwnPasswordUnlocks` | backend/app/core/hot_wallet.py:78-121 | after any run the password of the last import unlocks exactly its key |
| `HotWallet.SignerIsExpected` | backend/app/core/hot_wallet.py:303-325 | after any run a signature is allowed exactly for the unlocked signer's own public key, and the sidecar check never refuses what the other checks accept |
| `HotWalletLaws.CounterIsBigEndian` | backend/app/core/hot_wallet.py:391 | the counter is four bytes, the most significant first |
| `HotWalletLaws.SealedFormat` | backend/app/core/hot_wallet.py:354-369 | byte i is combined with byte i mod 32 of the keyed hash of nonce and counter i div 32 under the first half of the derived key; the second half signs nonce and ciphertext; when sealing fails |
| `HotWalletLaws.OpenedFormat` | backend/app/core/hot_wallet.py:371-380 | what opens, with which error otherwise, and what comes out |
| `HotWalletLaws.ImportMeans` | backend/app/core/hot_wallet.py:78-101 | when an import succeeds, and what signer and sidecar then hold; a failed one changes nothing |
| `HotWalletLaws.UnlockMeans` | backend/app/core/hot_wallet.py:103-121 | an unlock succeeds exactly if the sidecar opens and holds a key whose public key is the packed one and the sidecar's |
| `HotWalletLaws.LastOperationDecides` | backend/app/core/hot_wallet.py:78-132 | after any run, who can sign is settled by the last operation: nobody after a lock or a clear, the last imported key after its password, the new key after an import |
| `HotWalletLaws.SignatureIsDecided` | backend/app/core/hot_wallet.py:303-325 | after any run, which refusal a signature meets first, and that the signer is returned when none |
| `PilotRisk.DownIsLargest` | backend/app/core/pilot_risk.py:10-14 | rounding down gives the largest number of quanta within the amount, never grows it, and is idempotent |
| `PilotRisk.CreatedIsCapped` | backend/app/core/pilot_risk.py:79-130 | when a policy exists, and that its caps are $5 or 5%, $10, $10 and $25 rounded down by less than a quantum |
| `PilotRisk.CostIsCapped` | backend/app/core/pilot_risk.py:132-133 | the cost cap is at most 25 cents and at most a twentieth of the amount |
| `PilotRisk.EvaluateEntry` | backend/app/core/pilot_risk.py:135-165 | lists every reason to refuse a buy, once and in order, and allows it exactly when there is none |
| `PilotRisk.EvaluateExit` | backend/app/core/pilot_risk.py:167-179 | the same for a sell, for which the state of the pilot is no reason; a refused protective exit needs a recovery decision |
| `PilotRisk.AllowedBuy` | backend/app/core/pilot_risk.py:135-165 | the entry gate lets a buy through only when no position is open and every stop is clear |
| `PilotRiskLaws.CreationFails` | backend/app/core/pilot_risk.py:91-101 | each error of a policy's creation, exactly when it is given |
| `PilotRiskLaws.CostCapIsLargest` | backend/app/core/pilot_risk.py:132-133 | the cost cap is the largest whole number of ten-thousandths worth at most 25 cents and at most a twentieth of the amount |
| `PilotRiskLaws.EntryIsDecided` | backend/app/core/pilot_risk.py:135-151 | each reason of a refused buy about what is asked for and what was lost, if and only if its condition holds |
| `PilotRiskLaws.EntryTermsAreDecided` | backend/app/core/pilot_risk.py:150-165 | the same for the terms and the state of the pilot |
| `PilotRiskLaws.EntryIsAllowedIff` | backend/app/core/pilot_risk.py:135-165 | a buy goes through exactly under the whole condition, written out |
| `PilotRiskLaws.ExitIsDecided` | backend/app/core/pilot_risk.py:167-179 | the same for a sell, which no stop can refuse, and when a recovery decision is needed |
| `PilotRiskLaws.StateIsOfTheLedger` | backend/app/core/state.py:12180-12258 | what the entry gate is shown: profits of the window and of the day with the mark of the open position, all losses, and the losses in a row |
| `PilotRiskLaws.AttemptMeans` | backend/app/core/pilot_risk.py:135-179 | what an attempted buy or sell leaves behind |
| `PilotRisk.StepKeepsInv` | backend/app/core/state.py:12180-12258 | every attempted buy or sell keeps the bounds on the ledger |
| `PilotRisk.LossesAreBounded` | backend/app/core/pilot_risk.py:101-179 | over any campaign the cumulative loss stays under $25 + $5 + 2 x $0.25, every day's loss within $10 + $5 + 2 x $0.25, losses in a row within three, and each stake within $5 and 5% of the equity |
| `PilotRisk.SessionLossesAreBounded` | backend/app/core/state.py:12203-12222 | over any campaign, positions bought outside windows included, the loss of every pilot window stays within $10 + $5 + 2 x $0.25 |
| `PilotRisk.FreezeIsFinal` | backend/app/core/pilot_risk.py:146-149 | after the freeze or the third loss in a row, nothing is ever bought again and the ledger never changes |
| `PilotStops.FreezeHoldsIff` | backend/app/core/pilot_risk.py:146-176 | every allowed sell of an open position keeps the loss within the freeze if and only if the loss so far, the stake, the entry cost and the highest exit cost fit into it |
| `PilotStops.FreezeHoldsAlongRuns` | backend/app/core/pilot_risk.py:135-176 | the same at any moment of any run |
| `PilotStops.RoomMakesTheFreezeACap` | backend/app/core/pilot_risk.py:135-176 | over any run whose buys leave that much room, the loss never passes the freeze |
| `PilotStops.FreezeIsACapIff` | backend/app/core/pilot_risk.py:101-147 | the freeze caps the loss of every run of a created policy if and only if its trade cap is zero |
| `PilotStops.FreezeCanBePassed` | backend/app/core/pilot_risk.py:142-147 | a concrete run in one active window loses $27.50, past the $25 freeze |
| `Auth.AuthManager.TryLogin` | backend/app/auth.py:30-43 | a login is refused while locked, open without a password, raised without effect by a comparison that is not ASCII, accepted, or recorded as a failure |
| `Auth.VerifyCode` | backend/app/auth.py:91-98 | the loop over three half-minutes decides whether a code matches, differs, or makes the comparison raise |
| `Auth.VerifyMeans` | backend/app/auth.py:91-98 | with a secret that decodes, a code matches exactly when it is ASCII and that of one of the three half-minutes, spaces aside, and raises exactly when it is not ASCII |
| `Auth.AuthManager.RecordFailure` | backend/app/auth.py:60-63 | the fifth failure and each one after it locks for a minute |
| `Auth.AuthManager.IsValid` | backend/app/auth.py:50-58 | a token is valid while its session lasts; an expired session is forgotten |
| `Auth.AuthManager.SetPassword` | backend/app/auth.py:65-68 | a new password ends all sessions and clears the failures, not the lock |
| `Auth.FailuresAreSpaced` | backend/app/auth.py:30-43 | from the fifth on, rejections are at least a minute apart |
| `Auth.LockoutRate` | backend/app/auth.py:30-63 | from any state, at most 5 + floor(T/60) credential checks are rejected in T seconds |
| `Auth.RateIsReached` | backend/app/auth.py:30-63 | that rate is reached from every enabled, unlocked state with an ASCII password |
| `Auth.ValidMeansIssued` | backend/app/auth.py:45-76 | a token is valid exactly when it was issued for a time not yet over and no credential has changed since; forgetting expired sessions is invisible |
| `Auth.LockoutEnds` | backend/app/auth.py:30-63 | whatever was tried, a minute after the last clock reading the right password and code are accepted if and only if both are ASCII |
| `Auth.UnusableStays` | backend/app/auth.py:30-43 | under a password that is not ASCII no login is ever accepted or counted as a failure, until the password is set anew |
| `Auth.UmlautLocksOut` | backend/app/auth.py:36-38 | after a concrete password with an umlaut is set, nobody is ever accepted |
| `AuthLaws.SpacesAreDropped` | backend/app/auth.py:94 | normalising a code removes its spaces and nothing else |
| `AuthLaws.LoginMeans` | backend/app/auth.py:30-63 | every login case by case with all that it changes: a session of eight hours, one more failure, from the fifth on a lock of a minute; with the half-minutes of the codes written out |
| `AuthLaws.CredentialsAreLast` | backend/app/auth.py:65-76 | after any run the password and the secret are those last set |

## Left out

- Rounding of floats and the 28 digits of Decimal: money, prices and percentages are exact reals, and `round` is the identity.
- Network, websockets, threads and RPC: they appear as nondeterministic outcomes; a wait may time out at any moment.
- Cryptography and encodings: keyed hash, key derivation, base64 (section 4 of RFC 4648), JSON of the sealed payload, key parsing
  and the codes of a secret are parameters; only their lengths and round trips are assumed (`HotWallet.Sound`). Nothing is
  claimed about forged or corrupted sidecars, nor that a wrong password is refused.
- HotWallet.HotWalletVault.UnlockWith: a sidecar that is not JSON at all is not modelled; the expected public key of a signature and the label of a wallet are taken as already stripped.
- PaperTrader.Token.DoTick: the decision log is not kept, nor is the reading that only feeds a hold time which marking overwrites.
- PaperTrader.Token.DoBuy: the strategy profile, the texts of the risk filters and the reason text of a failed fill are not kept.
- TradeStream.DoubledCandidate: the application itself listens only to candidates exactly when there is one slot, so this mode and a single slot that listens to launches, as in `TradeStream.SlotRotatesSlowly`, are built only by other callers of the class.
- TradeStream.TradeSubscriptions.HandlePreference: every send succeeds or the connection ends before it; sends that fail halfway through an update are not modelled, nor are status texts and the messages lost around a reconnect.
- ShadowEvaluation.Evaluate: the normalised exit reason and the New York calendar day of a row are inputs, since text normalisation and time-zone tables are not part of this model.
- JsonEquality.SimpleEqual: values are decoded JSON, so undefined, functions and NaN do not occur. Of what is inherited only the prototype itself is modelled. The order of integer-like keys is not, since the comparison does not depend on it.
- JsonEquality.TokensEquivalent: keys of both tokens are looked at twice rather than collected into a set first.
- TokenMerge.MergeMonitorTokens: dates are numbers, that is, parseable; mutation of tokens by other code is not modelled.
- PilotRisk.LossesAreBounded: that each position is closed by one sell through the exit gate, losing at most the stake and the two costs, is a premise: the application calls the gate only for buys and records one outcome per sell. The ledger holds the outcomes of one policy in time order, and marks of an open position are arbitrary.
- PilotRisk.SessionLossesAreBounded: that a position bought outside any window is sold only in a window without outcomes is a premise, which the application keeps: a closed window is not opened again, and only sells of the open window are recorded.
- PilotRisk.CreatedIsCapped: identifiers and the fingerprint of a policy are not modelled.
- Auth.LockoutRate: concurrent logins are serialised, and the clock is non-negative and does not go back.
- Auth.AuthManager.TryLogin: the readings of the clock for the lock and for the three codes are one.
- Concurrent calls: each operation of the work queue is atomic, as its lock makes it; the governor has no lock, and its calls are taken one at a time.
- `compare_field_sets`, the Python and TypeScript field markers, and the extraction of dataclass fields: set differences and regular expressions around the scanners.
- Market regime classification, first-tick validation, poll intervals and other single-expression helpers: they would only add easy members.
- Gate checklists, routes, user interface, storage tables, Telegram delivery and configuration.
