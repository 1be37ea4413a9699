# Decision and safety layer of the Phoenix V3 bot: a verified model

This project models the part of the trading bot that decides whether an intent may run, and proves what that part
keeps over whole runs. `dafny verify dfyconfig.toml` checks everything.

Stateful Go objects are classes whose methods are proved equal to a step function on values; the laws are then
proved about runs of that step function.

| file | what it holds |
|---|---|
| `StateStore.dfy` | the file-backed risk state: reload detection, save through a rename, system calls that may fail |
| `Cooldown.dfy` | the per-key cooldown and minimum-interval rule on top of that store |
| `Evaluator.dfy` | the first-reject evaluator and the most conservative modification |
| `PriceDivergence.dfy`, `PriceNormalization.dfy`, `PriceComparison.dfy` | the price rule, its printed reasons, the two normalisers, and what the deviation means |
| `RiskManager.dfy`, `Pipeline.dfy` | the global breaker, and one intent on its way through all gates of `executeIntent` |
| `Approvals.dfy`, `Freezing.dfy` | whole runs of the executor: how often it approves, and how soon failures freeze the breaker |
| `Text.dfy`, `Reasons.dfy` | printing and parsing of reasons on sequences of characters |
| `RiskStats.dfy`, `StatsReadBack.dfy`, `DivergenceSamples.dfy`, `Ranks.dfy` | statistics parsed from reasons, and the top-N / last-N collector |
| `DetailTexts.dfy`, `BotRuns.dfy` | the normalisers' own texts, and whole runs of the executor with the bot's own names, prices and keys |
| `Advisory.dfy` | the hysteresis of the advisory mode |
| `PriceAggregator.dfy`, `Names.dfy` | the two-source aggregator with its freshness, staleness and freezing |
| `Ticks.dfy`, `Rebalance.dfy` | tick arithmetic on truncating division, and the rebalance strategy |
| `MemoryStream.dfy` | the bounded channel that drops its oldest event, select by select, and the subscription table |
| `Basics.dfy`, `RiskTypes.dfy` | shared definitions |

Conventions. Times and durations are integers in milliseconds, and Go's zero time is a constant of its own. Prices are
reals. Go's `/` and `%` are spelled out, since they truncate toward zero. Everything that comes from outside (clocks,
results of system calls, gates of other components, 1.0001^tick) is a parameter, so each law holds for any behaviour
of it. What a Go map yields for a missing key is `Basics.Get`.

## Where the code differs from what it says

- `artifacts/phase6_3_delivery.txt:10` promises that leaving HALT takes consecutive non-HALT suggestions. The counters
  reset each other (`internal/advisory/state.go:122-128`), so it takes a run of one single suggestion:
  `Advisory.LeavesHaltExactly`. However HALT was entered, a stream that alternates between SAFE and NO_CHANGE stays in
  HALT exactly when the threshold is at least 2, or more if the stream goes on with the suggestion that came last:
  `Advisory.AlternatingStaysInHalt`.
- Line 12 of the same file promises the like for leaving SAFE. It takes NO_CHANGE alone, or HALT at its own threshold:
  `Advisory.LeavesSafeExactly` and `Advisory.AlternatingStaysInSafe`.
- A steady suggestion wins after enough inputs, except that NO_CHANGE is never reached from a mode string the machine
  does not know (a loaded file may hold one): `Advisory.SteadyInputWins`.
- `observeDeviationBps` adds a value twice once its buffer is full (`internal/riskcontrol/stats.go:229` and `:238`), so
  the reported average can exceed every deviation ever seen, by any amount: `BotRuns.ReportedAverageHasNoBound` gives
  the runs, and `RiskStats.SumMatchesBufferExactly` says exactly when the sum is right.
- `computeCenteredRange` can miss the current tick when the width is one spacing.
  `Ticks.CenteredRangeContainsEveryTick` gives the exact condition.
- The relative deviation depends on the direction of the quote once a price falls below 1e-9:
  `PriceComparison.InversionExactly`.
- `skipReasonKind` looks for its words anywhere in the reason, also inside source names and details:
  `PriceDivergence.SkipKindReadBack` says exactly when the branch taken is counted.
- A stat that fails after a rename, followed by a load and a save that both fail, loses an update:
  `StateStore.DoubleFaultLosesUpdate`.
- The bound on how soon failures can freeze the breaker needs a single cooldown key: any two keys that take turns break
  it, for every limit above the threshold (`Freezing.TwoKeysFreezeSooner`).
- With three price sources the aggregate can be older than the newest price: `PriceAggregator.ThreeSourcesMissTheNewest`.
- Two overlapping publishers can lose the newest event without any reader: `MemoryStream.OverlapLosesNewest`.

## Model

| member | source | states |
|---|---|---|
| Freezing.FreezingTakesTime | cmd/bot/main.go:1741-1907 | With one key, counters at zero, an enabled rule, an ordered clock and a failure limit not below the threshold: a run that ends frozen holds exactly limit-many failures in a row; the last is recorded at least (limit - threshold) cooldowns after the one that reached the threshold, and approved at least (threshold - 1) intervals plus (limit - threshold) times the longer of interval and cooldown after the first |
| Freezing.BoundIsAttained | cmd/bot/main.go:1852-1870 | That bound cannot be improved: from every start with an unused key, a run of well-timed failures freezes the breaker exactly then |
| Freezing.StreakInvariant | cmd/bot/main.go:1852-1907 | At every point of such a run both failure counters equal the length of the streak since the last success, the breaker is frozen exactly at its limit, and the stored cooldown end is that of the last failure |
| Freezing.FrozenBlocksEverything | cmd/bot/main.go:1741-1769 | From a frozen breaker on, every intent of any run is skipped and the breaker never changes |
| Freezing.TwoKeysFreezeSooner | cmd/bot/main.go:1852-1870 | For every limit above the threshold, two unused keys that take turns freeze the breaker strictly sooner than that bound, so the single-key condition is needed |
| Freezing.TwoKeysFreezeAtOnce | cmd/bot/main.go:1852-1870 | With threshold 3 and limit 4 such a run freezes in the very millisecond in which the third failure is counted |
| Approvals.ApprovalsAreSpaced | internal/riskcontrol/rule_cooldown_frequency.go:103-128 | Over any interleaving of intents, keys, failures and successes, with any loads and saves failing before the rename: approvals of one key by the cooldown rule, also those that the price rule then rejects, are a minimum interval apart, so are final approvals, and a closed window of W ms holds at most W / interval + 1 of either |
| Approvals.GrantEffect | internal/riskcontrol/rule_cooldown_frequency.go:121-128 | An approval by the cooldown rule passes the gate and is the only thing that moves a last-intent time; a final approval is one of them |
| Pipeline.WhoConsumesTheSlot | cmd/bot/main.go:328-333 | A rejection by HALT or by the dry-run rule leaves store and file as they were; a rejection by the price rule has consumed the slot of its key; a rejection by the cooldown rule moves no last-intent time |
| Pipeline.RulesInOrder | cmd/bot/main.go:328-333 | The verdict and the store after the four installed rules, through the evaluator: the cooldown rule is reached only past HALT and dry run, and its write stays even if the price rule then rejects |
| Pipeline.RulesInSync | internal/riskcontrol/rule_cooldown_frequency.go:85-128 | With a store in sync, an evaluation that reaches the cooldown rule makes exactly one write, and approves exactly if the gate passes and the price rule does not reject |
| Pipeline.ExecuteInSync | cmd/bot/main.go:1852-1907 | What one execution does to last-intent times, failure counts and cooldown ends, by outcome, and that the store stays in sync |
| Pipeline.ExecutedExactly | cmd/bot/main.go:1526-1907 | An intent fails or is simulated if and only if the rules do not reject it, the trimmed risk mode is empty or SAFE, the trimmed desired state neither PAUSED nor SAFE_MODE, it has not expired, the market is normal, the breaker is neither frozen nor at a limit, and the pool is not in danger; it fails exactly if its preparation does |
| Pipeline.SkippedAtFirstShutGate | cmd/bot/main.go:1526-1800 | It is skipped at a gate if and only if that is the first one that is shut, for all seven gates |
| Pipeline.ApprovedExactly | cmd/bot/main.go:328-333 | With a store in sync the rules approve if and only if the risk mode is not HALT, the candidate is a dry run, the key's cooldown is over, its last approval is not less than an interval ago, and no compared deviation is above the threshold |
| Pipeline.HaltReason | internal/riskcontrol/rule_risk_mode_halt.go:18-29 | A HALT rejection ends with the control file's trimmed reason, if there is one |
| Pipeline.HeldBotDoesNothing | cmd/bot/main.go:1549-1641 | Over any run while the control file pauses the bot or sets another risk mode than SAFE: every intent is skipped, and no failure count, cooldown end or field of the breaker moves |
| Pipeline.Executor.ExecuteIntent | cmd/bot/main.go:1526-1907 | The gates in order with their early returns: outcome, breaker, state and file after one intent equal the execution that the rows above characterise |
| Pipeline.Executor.EvaluateRules | cmd/bot/main.go:328-333 | The installed rules run one after the other over the real store give the verdict and the state that the evaluator's semantics prescribe, and leave the breaker alone |
| RiskManager.FrozenForever | internal/risk/manager.go:43-106 | A frozen breaker refuses after any sequence of checks, records and limit changes |
| RiskManager.Manager.Check | internal/risk/manager.go:43-67 | Refuses exactly on frozen, gas, failures or drawdown, names the first cause in that order, and freezes or cautions accordingly |
| RiskManager.CauseExactly | internal/risk/manager.go:47-64 | The condition of every cause of a refusal, and the mode that it leaves |
| RiskManager.LimitsExactly | internal/risk/manager.go:94-106 | A limit moves only to positive gas, a positive count, or a drawdown strictly between 0 and 1 |
| RiskManager.Manager.NoteFailure | internal/risk/manager.go:77-84 | One more failure, and frozen exactly from the limit on |
| StateStore.NoUpdateIsLost | internal/riskcontrol/state_store.go:61-143 | As long as no operation both fails to load a changed file and fails to save: memory holds every mutation applied so far, and the file holds exactly the state of the last save that got through |
| StateStore.SingleWriterKeepsAll | internal/riskcontrol/state_store.go:61-143 | A single writer whose stat after a rename succeeds loses nothing to failed loads or saves, and a fresh store on the same file reads back the state of the last successful save |
| StateStore.OperateKeeps | internal/riskcontrol/state_store.go:236-274 | One operation applies its mutation to everything remembered so far and keeps the state recoverable, whether its save gets through or not |
| StateStore.DoubleFaultLosesUpdate | internal/riskcontrol/state_store.go:87-104 | With an unnoticed own change of the file, a failed load and a failed save, the next good load brings back the state from before the operation |
| StateStore.FailedRestatLeavesSync | internal/riskcontrol/state_store.go:137-143 | A failed stat after the rename leaves the store out of sync exactly if the file's metadata changed, with the state still recoverable |
| StateStore.LoadSettles | internal/riskcontrol/state_store.go:61-104 | A load never touches the file; if nothing fails it leaves the store in sync, with the file's contents if that version had not been read and empty if the file is gone, and a second one does nothing; if it fails it changes nothing |
| StateStore.FailureMutation | internal/riskcontrol/state_store.go:265-271 | A failure adds one, and starts a cooldown exactly from a positive threshold on and for a positive length |
| StateStore.RiskStateStore.LoadIfChanged | internal/riskcontrol/state_store.go:61-104 | Missing file, unchanged metadata, failed stat, read or decode, and reload: the state and cached metadata after each, and exactly when success and a change are reported |
| StateStore.RiskStateStore.SaveNow | internal/riskcontrol/state_store.go:112-143 | The file changes only if the rename got through, and the cached metadata only if the stat after it did |
| StateStore.RiskStateStore.NoteFailure | internal/riskcontrol/state_store.go:260-274 | Counts the failure, sets the cooldown end exactly from the threshold on, saves, and returns end, count and success |
| Cooldown.CooldownAndFrequencyRule.Evaluate | internal/riskcontrol/rule_cooldown_frequency.go:74-129 | Decision, store and file after one evaluation with its four loads; the recorded match is the rejecting key with a time in the future, and is cleared by an approval |
| Cooldown.EvaluatedInSync | internal/riskcontrol/rule_cooldown_frequency.go:85-128 | In sync, the separate loads of one evaluation see one state: it is one decision and one write, whatever fails |
| Cooldown.RejectedKeyReadBack | internal/riskcontrol/stats.go:274-299 | The key parsed from either rejection reason is the rejected key if and only if the key holds no blank |
| Cooldown.KeysStartSolid | internal/riskcontrol/state_store.go:167-181 | Every key that the rule builds is non-empty and starts with a non-space character, as the parser needs |
| Cooldown.KeysSeparateIntents | internal/riskcontrol/state_store.go:167-181 | Two intents share a key if and only if target, type, chain and trimmed pool are the same, for targets and types without a bar |
| Cooldown.RejectedNumbersReadBack | internal/riskcontrol/rule_cooldown_frequency.go:92-114 | Every number in a rejection's reason reads back as the time left, its end, the failure count, the threshold or the interval |
| Cooldown.DefaultsFillIn | internal/riskcontrol/rule_cooldown_frequency.go:33-50 | Positive settings stand, all others become a minute, three failures and five minutes |
| Evaluator.Evaluate | internal/riskcontrol/evaluator.go:33-86 | The loop with its running best modification returns the conclusion drawn from the consulted decisions, and threads the rules' state |
| Evaluator.ReportedRule | internal/riskcontrol/evaluator.go:56-85 | A rejection is reported under the rule that rejected and for its reason, or for its invalid verdict by name; a modification under its winner; an approval, exactly if every decision approves, under the evaluator's own name |
| Evaluator.TidiedDecision | internal/riskcontrol/evaluator.go:44-53 | What a rule left blank is filled in, and nothing else is changed |
| Evaluator.VerdictIgnoresOrder | internal/riskcontrol/evaluator.go:41-86 | For stateless rules, any permutation of the rules gives the same verdict, and a MODIFY names the same rule at the same place in the order |
| Evaluator.WinnerIsLeast | internal/riskcontrol/evaluator.go:62-68 | The winner of the left-to-right fold is a modification not later than any other in the total preorder (has a degradation, urgency, deadline, rule id) |
| Evaluator.ChoiceIsMinimum | internal/riskcontrol/evaluator.go:88-125 | The case analysis of the pairwise choice is the minimum of that order |
| Evaluator.PreferredModification | internal/riskcontrol/evaluator.go:88-125 | Whichever comes first, a degradation beats none, then a lower urgency, a missing one being the highest, then an earlier deadline, a missing or zero one being the latest, then the rule id |
| Evaluator.NoLaterIsTotalPreorder | internal/riskcontrol/degrade.go:43-55 | The order is total and transitive, and ties agree in place and rule id |
| Evaluator.ConsultedAreOpinions | internal/riskcontrol/evaluator.go:42-75 | For stateless rules the consulted decisions are a prefix of what all rules would say, ending at the first that stops, if one does |
| Evaluator.RejectsOnce | internal/riskcontrol/evaluator.go:56-75 | An evaluation rejects with exactly one rejecting decision, or with none and an invalid verdict |
| Evaluator.ScreenIsVerdict | internal/riskcontrol/evaluator.go:41-86 | For rules that only approve or reject, the whole evaluation is the short form that stops at the first rejection |
| StatsReadBack.ParsedStatisticsAreExact | internal/riskcontrol/stats.go:84-135 | Over any run of the executor, the statistics parsed from printed reasons equal the statistics of what was decided: counts by verdict and rule, rejections by key, skips by kind, and every compared deviation |
| StatsReadBack.EvaluationObserved | internal/riskcontrol/stats.go:84-135 | The same for one evaluation through the four installed rules, whichever rule it ended at |
| StatsReadBack.GateObserved | internal/riskcontrol/stats.go:112-119 | A decision of the cooldown rule is counted under exactly the rejected key and never as a skip |
| StatsReadBack.PriceObserved | internal/riskcontrol/stats.go:121-133 | A decision of the price rule is counted with its deviation, its skip and its skip kind |
| PriceDivergence.ComparedExactly | internal/riskcontrol/rule_price_source_divergence.go:85-166 | Two prices are compared if and only if the rule is on, both are present with positive times, normalised, with a positive normalised or raw price, neither older than the limit if there is one, and neither more than the gap older than the other if there is one |
| PriceDivergence.BranchesExactly | internal/riskcontrol/rule_price_source_divergence.go:85-164 | The condition of every skip branch, and which sources a missing-source skip names |
| PriceDivergence.ComparedDeviation | internal/riskcontrol/rule_price_source_divergence.go:166-200 | The compared deviation is the integer nearest to 10000 times the price gap over the lower price (at least 1e-9), and the rule rejects exactly above the threshold |
| PriceDivergence.SourcesMayBeSwapped | internal/riskcontrol/rule_price_source_divergence.go:89-166 | Naming the two sources the other way round changes neither the branch nor the deviation nor the verdict |
| PriceDivergence.ComparedNumbersReadBack | internal/riskcontrol/rule_price_source_divergence.go:166-187 | On a compared decision the parsers return exactly the deviation and the threshold that were compared, in both printed forms |
| PriceDivergence.NoDeviationWithoutComparison | internal/riskcontrol/rule_price_source_divergence.go:94-164 | On a disabled or skipped decision no deviation is parsed |
| PriceDivergence.SkipKindReadBack | internal/riskcontrol/stats.go:258-272 | The counted skip kind is the branch taken if and only if no printed source name or detail holds a word that is looked for earlier |
| PriceDivergence.SkipReadBack | internal/riskcontrol/stats.go:250-256 | A decision of the price rule counts as a skip exactly when the rule skipped, whatever names and details hold |
| PriceDivergence.StaleNumbersReadBack | internal/riskcontrol/rule_price_source_divergence.go:133-145 | A stale skip prints the age of the first source and the limit in seconds, and they read back |
| Reasons.ParsedFromWords | internal/riskcontrol/stats.go:280-299 | Behind the first occurrence of a marker, the parser returns exactly the token printed there |
| Reasons.OccursInJoin | internal/riskcontrol/stats.go:281-284 | A marker without spaces occurs in a text exactly if it occurs in one of its words |
| Text.ParseRoundTrip | internal/riskcontrol/stats.go:301-311 | Parsing a printed 64-bit integer gives it back |
| Text.ParsedFits | internal/riskcontrol/stats.go:306-309 | Whatever is parsed fits into 64 bits |
| Text.FixedIsNearest | internal/riskcontrol/rule_price_source_divergence.go:171-174 | A price is printed as the nearest number with ten decimals, with a sign exactly if it is negative |
| Text.ScanToken | internal/riskcontrol/stats.go:290-298 | The scan returns the longest prefix without a blank |
| RiskStats.CountersAgree | internal/riskcontrol/stats.go:92-134 | In every reachable state the verdict counts add up to the evaluations, the REJECT count is the rejecting decisions plus evaluations ended by an invalid verdict, skips by rule and by kind add up alike, and the price rule's rejects agree |
| RiskStats.EvaluatorProduces | internal/riskcontrol/evaluator.go:42-85 | Every evaluation that the evaluator returns has the shape that the counters rely on |
| RiskStats.DeviationsAccount | internal/riskcontrol/stats.go:222-239 | Over any run the buffer holds at most 8192 reported values, the maximum is that of all values, and the sum is that of the buffer plus, once more, every value that came after it was full |
| RiskStats.SumMatchesBufferExactly | internal/riskcontrol/stats.go:229-238 | The sum is the buffer's sum if and only if every value after the buffer was full is zero; otherwise it is larger |
| RiskStats.QuantilesAreRanks | internal/riskcontrol/stats.go:161-173 | P50 and P95 are the elements of rank floor(q (n - 1)) by counting smaller elements of the buffer, and P50 <= P95 <= the maximum |
| RiskStats.Collector.ObserveDeviationBps | internal/riskcontrol/stats.go:222-239 | Samples, maximum and sum after one value, with the second addition once the buffer is full |
| RiskStats.Collector.Observe | internal/riskcontrol/stats.go:84-135 | All counters after one evaluation |
| RiskStats.Collector.Snapshot | internal/riskcontrol/stats.go:137-175 | All count maps, the time-mismatch count and rate, and average and quantiles, which are zero for an empty buffer |
| RiskStats.AverageHasNoBound | internal/riskcontrol/stats.go:166-167 | Enough reports of one positive deviation take the average past any bound, while the maximum is that deviation |
| RiskStats.AverageBelowCapacity | internal/riskcontrol/stats.go:229-232 | Until the buffer overflows it holds exactly what was observed, and the average is the true one |
| BotRuns.ReportedAverageHasNoBound | internal/riskcontrol/stats.go:222-239 | For every bound a run of the bot, one approval by the cooldown rule per minimum interval, ends with a greater average although no deviation exceeds 10000 |
| BotRuns.BotStatisticsAreExact | cmd/bot/main.go:1326-1360 | For the bot's two sources, the normalisers' own texts and keys built from intents, the parsed statistics are exact over any run, for any prices, ticks and decimals |
| BotRuns.BotIsReadable | cmd/bot/main.go:1326-1360 | Nothing that the bot prints gets in the way of the parsers |
| DetailTexts.DetailsAreClean | internal/riskcontrol/price_normalization.go:84-161 | Trimmed and quoted, no detail of either normaliser holds a numeric marker or the kind word that is looked for first |
| DivergenceSamples.RejectCollector.ObserveReject | internal/riskcontrol/divergence_samples.go:81-186 | After any sequence of rejects the kept deviations are the topN largest of the whole history in descending order, the kept samples come from it, and `recent` is exactly its last recentN; anything that is not a price reject changes nothing |
| DivergenceSamples.TopStep | internal/riskcontrol/divergence_samples.go:179-185 | Sorting the previous top-N plus one sample and truncating yields the top-N of the whole history |
| DivergenceSamples.SampleIsExact | internal/riskcontrol/divergence_samples.go:104-111 | For a printed price rejection the sample carries exactly the compared deviation and threshold |
| DivergenceSamples.SamplePricesAreCompared | internal/riskcontrol/divergence_samples.go:89-167 | The sample carries the two prices and times that were compared, and the mismatch note exactly if they are more than ten seconds apart |
| DivergenceSamples.SampleWithoutNumbers | internal/riskcontrol/divergence_samples.go:104-111 | A reason without numbers is made up for by the deviation of the two recorded prices and the caller's threshold |
| Ranks.TopIsIncremental | internal/riskcontrol/divergence_samples.go:179-185 | To know the n largest after one more element, the n largest before are enough |
| Ranks.SortedHasRank | internal/riskcontrol/stats.go:168-171 | The element at position r of the sorted buffer has rank r by counting |
| PriceNormalization.NormalizeOnchainTick | internal/riskcontrol/price_normalization.go:57-162 | Filter, argmin and safety gate: the first of the log-closest valid candidates if it is within a factor of 1e6, the first valid one without a reference, and each failure by its own detail |
| PriceNormalization.AcceptedReading | internal/riskcontrol/price_normalization.go:72-161 | An accepted price is base * scale, scale / base, base or 1 / base as its detail says; without a reference it is base * scale; with one it is within a factor of 1e6 and no other of the four readings is closer |
| PriceNormalization.RefusedExactly | internal/riskcontrol/price_normalization.go:63-154 | A price is refused if and only if decimals are missing, the tick is unusable, or all readings are more than a factor of 1e6 off, each under its own detail |
| PriceNormalization.ExchangeExactly | internal/riskcontrol/price_normalization.go:23-38 | A positive aggregate price is inverted exactly, any other one is refused |
| PriceNormalization.OnchainWithinGate | internal/riskcontrol/price_normalization.go:145-161 | With a reference, an accepted price is positive and within a factor of 1e6 of it |
| PriceComparison.ReportedDeviationIsBounded | cmd/bot/main.go:1326-1360 | For price points built from both normalisers in one execution, any compared deviation lies between 0 and 9,999,990,000 bps |
| PriceComparison.InversionExactly | internal/riskcontrol/rule_price_source_divergence.go:190-200 | Inverting both prices keeps the exact deviation if and only if the prices are equal, or inverses, or all four values are at least 1e-9 |
| PriceComparison.DeviationIsRatio | internal/riskcontrol/rule_price_source_divergence.go:196-198 | Above the epsilon the deviation is the price ratio less one |
| PriceComparison.DeviationIsSymmetric | internal/riskcontrol/rule_price_source_divergence.go:190-200 | The two sources may be swapped |
| PriceComparison.RatioBoundsDeviation | internal/riskcontrol/rule_price_source_divergence.go:190-200 | A price ratio of at most 1e6 shows a deviation of at most 9,999,990,000 bps |
| Advisory.AdvisoryStateManager.UpdateState | internal/advisory/state.go:112-186 | Counters, mode, times, returned mode and reported reason after one update |
| Advisory.CountersAreTrailingRuns | internal/advisory/state.go:122-128 | Over any run from zero counters, each counter is the length of the trailing run of its mode, so at most one is positive |
| Advisory.EntersHaltExactly | internal/advisory/state.go:139-144 | The mode becomes HALT if and only if haltUpN trailing inputs are HALT |
| Advisory.LeavesHaltExactly | internal/advisory/state.go:145-165 | The mode leaves HALT if and only if one single non-HALT suggestion fills the last haltDownM inputs |
| Advisory.AlternatingStaysInHalt | internal/advisory/state.go:145-165 | After any history that ends in HALT, any number of alternating SAFE and NO_CHANGE inputs, starting with either, ends in HALT if and only if haltDownM is at least 2 plus the copies of the first one that the history ends with |
| Advisory.LeavesSafeExactly | internal/advisory/state.go:139-171 | The mode leaves SAFE if and only if haltUpN trailing inputs are HALT or safeDownM are NO_CHANGE |
| Advisory.AlternatingStaysInSafe | internal/advisory/state.go:139-171 | The same for SAFE under alternating HALT and NO_CHANGE inputs and their two thresholds |
| Advisory.LeavesNoChangeExactly | internal/advisory/state.go:139-157 | NO_CHANGE, where a new manager starts, is left if and only if haltUpN trailing inputs are HALT or safeUpN are SAFE, and then for that mode |
| Advisory.LeavesUnknownExactly | internal/advisory/state.go:139-157 | A mode that the machine does not know is left in just the same two ways |
| Advisory.SinceLastSwitch | internal/advisory/state.go:116-173 | The recorded times are those of the last switch and of the last input |
| Advisory.AlternatingKeepsMode | internal/advisory/state.go:122-171 | For any current mode and the two other ones in turn: the exact thresholds that keep it |
| Advisory.SwitchBudget | internal/advisory/state.go:122-171 | Over any run, mode switches times the smallest threshold is at most the number of inputs |
| Advisory.SteadyInputWins | internal/advisory/state.go:138-171 | Feeding one suggestion for as many inputs as the largest threshold makes it current, except NO_CHANGE from an unknown mode |
| Advisory.SteadyInput | internal/advisory/state.go:138-171 | The exact mode after k copies of one suggestion from any state |
| PriceAggregator.AggregateIsNewest | internal/feed/price_aggregator.go:192-372 | In every reachable state with at most two price sources, whatever the clock did, the aggregate carries the newest update time; after an event it is stale exactly when no source is fresh, and the fallback reason never survives |
| PriceAggregator.ThreeSourcesMissTheNewest | internal/feed/price_aggregator.go:304-309 | A concrete run with three sources leaves the aggregate older than the newest price, so the limit of two is needed |
| PriceAggregator.RiskOnlyRises | internal/feed/price_aggregator.go:225-254 | From the start or any later point, between price updates and at non-decreasing times, no source event or tick lowers the risk level |
| PriceAggregator.NormalInPrices | internal/feed/price_aggregator.go:304-357 | In every reachable state with two sources, right after an event and with a freeze window not shorter than the stale window: the mode is normal if and only if both have sent a price within the stale window and the prices differ by at most the limit times their mean |
| PriceAggregator.TwoLivePrices | internal/feed/price_aggregator.go:304-319 | Two live prices give their midpoint, the relative gap, and confidence 1.0 and normal mode, or 0.6 and "divergence", exactly by that condition |
| PriceAggregator.OneLivePrice | internal/feed/price_aggregator.go:320-332 | One live price is the aggregate, with confidence 0.7, degraded for what keeps the other source away |
| PriceAggregator.NoLivePrice | internal/feed/price_aggregator.go:333-357 | Without a live price the last aggregate stays, without confidence, stale or frozen by its age alone |
| PriceAggregator.NoFreshNoConfidence | internal/feed/price_aggregator.go:333-357 | Without a fresh source there is no confidence and no normal mode, however many sources there are |
| PriceAggregator.PriceTouches | internal/feed/price_aggregator.go:192-207 | A price connects its source, sets price, time and a latency that is never negative, and leaves errors and other sources alone |
| PriceAggregator.EventTouches | internal/feed/price_aggregator.go:225-243 | A source event sets the connection and records an error if it has one, and touches no price and no other source |
| PriceAggregator.IgnoredExactly | internal/feed/price_aggregator.go:192-228 | Events without a source name and prices that are not positive or carry no time change nothing; all others reach their source |
| PriceAggregator.NormalMeansAgreement | internal/feed/price_aggregator.go:304-357 | With the freeze window not shorter than the stale window: normal mode is full confidence is two fresh sources within the limit, and then the price lies between theirs |
| PriceAggregator.RecomputeVerdict | internal/feed/price_aggregator.go:343-367 | The level after a recomputation is a function of sources and time alone |
| PriceAggregator.RecomputeTracksNewest | internal/feed/price_aggregator.go:304-341 | A recomputation yields the newest update time even if it was not there before, once a source is fresh |
| PriceAggregator.ErrorCountIsExact | internal/feed/price_aggregator.go:237-243 | For an ordered clock the reported count is the number of errors in the minute up to the source's last error, although old entries are dropped as they age |
| PriceAggregator.PruneTimes | internal/feed/price_aggregator.go:423-432 | The in-place compaction keeps exactly the times after the cutoff, in order |
| PriceAggregator.Aggregator.RecomputeLocked | internal/feed/price_aggregator.go:265-372 | Aggregate and risk after a recomputation, whatever order the map yields, and whether anything but staleness changed |
| PriceAggregator.Aggregator.OnPriceUpdate | internal/feed/price_aggregator.go:192-223 | Source, aggregate and risk after a price; a ticker is offered only with a price and a time, and always when the aggregate changed |
| PriceAggregator.Aggregator.OnSourceEvent | internal/feed/price_aggregator.go:225-246 | Source, error window, aggregate and risk after a source event |
| Ticks.AlignmentIsFloor | internal/strategy/v3_rebalance.go:501-512 | Both alignment helpers are the mathematical floor to a multiple, for negative ticks too, and snapping up mirrors snapping down |
| Ticks.SnapUpIsCeiling | internal/chain/univ3/adapter.go:165-177 | Snapping up is the least multiple not below the value |
| Ticks.SpacingOfTiers | internal/chain/univ3/adapter.go:136-149 | The spacing of every fee tier, and 1 for any other fee |
| Ticks.MintRangeIsSmallestCover | internal/chain/univ3/adapter.go:55-63 | The minted range is aligned, non-empty and covers the raw bounds; no aligned cover of an ordered raw range is narrower, and every one contains it unless the raw range is a single tick |
| Ticks.CenteredRangeShape | internal/strategy/v3_rebalance.go:479-489 | Aligned bounds, exactly the aligned width, and at most one spacing off centre |
| Ticks.CenteredRangeContainsEveryTick | internal/strategy/v3_rebalance.go:479-489 | Every tick lies in its own centred range if and only if the aligned width is at least two spacings or the spacing is at most 3 |
| Ticks.AlignedWidthShape | internal/strategy/v3_rebalance.go:491-499 | The width is a positive multiple: the floor of a large enough one, ten spacings otherwise |
| Rebalance.V3RebalanceStrategy.EvaluateAt | internal/strategy/v3_rebalance.go:217-368 | Verdict, ranges and strategy state after one evaluation; only an emitted intent changes the state |
| Rebalance.VerdictsExactly | internal/strategy/v3_rebalance.go:251-317 | The condition of every verdict in terms of tick, range and clock; a shift of the centre is asked for only if it moves the centre by at least the minimum |
| Rebalance.UnknownPosition | internal/strategy/v3_rebalance.go:226-249 | A position is unknown exactly at (0, 0), and then the assumed range takes its place |
| Rebalance.QuiescentExactlyWhenWideEnough | internal/strategy/v3_rebalance.go:247-317 | After the own range was adopted, the same tick never asks again at any time, for all ticks, if and only if the minimum move is positive and the width leaves room for half a width, the spacing and the buffer |
| Rebalance.IntentsAreSpaced | internal/strategy/v3_rebalance.go:280-298 | Over any calls with changing parameters and any clock, successive intents are a cooldown apart |
| MemoryStream.DeliveredInOrder | internal/events/memory_stream.go:47-64 | With serialised publishers and a reader between any two selects: received then buffered events are a subsequence of the published ones, the buffer is bounded, and between two Publish calls the newest event is the last of them |
| MemoryStream.NothingUnaccounted | internal/events/memory_stream.go:47-64 | Under any overlap of publishers the buffer is bounded, and every published copy of every event is received, buffered, dropped or on its way, exactly once |
| MemoryStream.OverlapLosesNewest | internal/events/memory_stream.go:52-62 | A concrete overlap of two publishers drops the newest event, so serialisation is needed |
| MemoryStream.Subscriptions.Cancel | internal/events/memory_stream.go:79-97 | Exactly one channel leaves its topic and is closed, the other topics keep theirs, and empty topics vanish |
| MemoryStream.Subscriptions.Subscribe | internal/events/memory_stream.go:67-77 | A new open channel is appended to its topic only |
| MemoryStream.SwapRemove | internal/events/memory_stream.go:83-90 | Removing by moving the last channel into the gap keeps all others, once each |

## Left out

- Sub-millisecond durations, and the flooring of `UnixMilli`: all times are whole milliseconds.
- 64-bit overflow of counters, sums and times, and the conversion of huge deviations to `int64`: integers are unbounded.
- Rounding, NaN and infinities of floating point: prices are reals, a non-finite value is one that is not positive, and
  `math.Pow`, `math.Pow10` results are parameters; `math.Log` distances are ratios, which it orders alike.
- `%q` beyond printable characters and the common escapes, and the tie rounding of `%.10f`.
- The digits that `%g` prints in a normalisation detail: any finite number's text is a parameter.
- The JSON encoding, and its repair of missing maps: what is encoded is taken to be decoded again.
- The file system beyond one file's metadata and contents; a rename either takes effect as a whole or not at all.
- `SnapshotTopCooldowns`, with the extra load after a failure: it only reads for the API.
- Nil receivers, nil rules and a missing store: the bot always constructs them.
- The live-broadcast branches of `executeIntent`: `isDryRun` is the constant true (`cmd/bot/main.go:1803`). Throttling by
  `ShouldThrottle`, the intent queue, the API server, logs and the JSONL writer are left out with them.
- The application of a MODIFY (`ApplyDegradation`): `executeIntent` does not apply modifications.
- The intent carried along in an evaluation, and the metadata part of a degradation: no decision looks at them.
- Reading of configuration and environment: values are parameters, with the defaults of the constructors.
- The remaining fields of a reject sample (key, names, ages, detail text, magnitude notes), and the report files.
- The printed text of the advisory reason, which is a structured value here, and loading and saving of its file.
- The full output channel of the aggregator, its log lines, `Snapshot` and `GetGate`.
- The context cancellation of `Publish`, and a cancel that overlaps with a `Publish` of the same topic.
- MemoryStream.Subscriptions.Cancel: asks that the channel is still listed, because a second call of the Go closure panics on closing twice.
- MemoryStream.DeliveredInOrder: one subscription; with several of them, each has a channel of its own that behaves like this one.
- PriceAggregator.AggregateIsNewest: at most two sources that ever sent a price, which is what the bot starts; with three it is false.
- PriceAggregator.ErrorCountIsExact: needs an ordered clock, because an error that arrives late prunes by its own time.
- Pipeline.ExecuteInSync: needs that a stat after a rename succeeds; `StateStore.NoUpdateIsLost` covers the other case.
- StatsReadBack.ParsedStatisticsAreExact: needs keys without blanks and names and details without the markers; `BotRuns.BotStatisticsAreExact` is free of that for the bot's own texts, and the exact conditions are with each parser.
