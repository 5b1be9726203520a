# Fraud scoring engine: verified model

A Dafny model of a real-time fraud detection service: the in-memory store, the
scoring pipeline that drives it, the case ledger it feeds, the seven detectors and
the log-odds ensemble that decide a verdict, the learning layer (probability
calibration, isolation forest, pseudo-random generator), the per-IP rate limiter,
the two database backends and the offline evaluation. Floating-point numbers are
Dafny `real`s without rounding; where the program can meet a value that is not a
number, the type is `Float`, a real or `None`, and the arithmetic lets `None` spread.

Objects the program updates in place are classes here (`MemStore.Store`,
`Cases.Manager`, `Pipeline.Pipeline`, `Rules.Engine`, `RateLimit.RateLimiterStore`,
`Prng.Generator`, `Calibration.LogisticCalibrator`, the two database stores), and
its loops are loops. Each such method is proved equal to a function of the old
state, and the results below are proved about those functions over every input,
every stream of calls or every interleaving of steps.

| file | models |
|---|---|
| `Models`, `MemStore`, `Cases`, `Rules`, `Verdicts`, `Pipeline` | the sequential scoring transaction and its state |
| `Concurrency` | many `Process` calls in flight, one step per critical section, mixed with analyst actions |
| `Interleavings` | what every interleaving keeps, and exactly-once processing without overlaps |
| `Overlaps`, `Replacement` | what overlapping calls with one ID can do to the store and to a case |
| `Ensemble`, `EnsembleFacts`, `LoneDetector` | the log-odds combiner and the power inequality it amounts to |
| `Statistics`, `AmountDetectors`, `Population`, `Velocity`, `Signals`, `Behavioral` | the seven detectors and the population baselines |
| `Scoring` | the seven detectors and the combiner on a live store |
| `Calibration`, `RestingPoints`, `Training`, `LiveTraining`, `Metrics`, `Evaluation` | gradient descent, retraining, confusion counts, offline replay |
| `Prng`, `IsolationForest`, `ForestFeatures` | the 64-bit generator, the trees grown from it, and the features they split on |
| `RateLimit` | token buckets with eviction, each request and each walk in one step |
| `RateLimitRaces`, `RateLimitExtremes` | the steps of requests and walks interleaved, and how far the races can go |
| `Backends` | Redis and Postgres histories |
| `Floats`, `Exponentials`, `RealSums`, `Selections`, `Powers`, `Divisibility`, `FiniteSets` | mathematics used by the others |

## Main results

* **Duplicates leave no trace.** Any stream of calls, with duplicates and
  cancellations, ends in exactly the state of its first completed calls, also when
  the first copy has long left the bounded history
  (`Pipeline.DuplicatesLeaveNoTrace`), whatever walk over Go's maps each call's
  detectors take and whatever rules are loaded when it runs; a case exists exactly
  when that first call's verdict asked for one (`Pipeline.CaseIffVerdict`).
* **The verdict on its inputs.** Without a block rule, 1 - final score is
  (1 - ensemble score)(1 - sum of the applying flag rules' weights), or 0 once that is at
  most 0.15 (`Pipeline.VerdictByRules`), and the store after any stream is what adding
  the first completions with these scores makes of it (`Pipeline.StreamIsAdds`).
* **Exactly once under concurrency.** For every interleaving in which calls with one
  ID do not overlap, each ID is added once, its case is opened at most once, and no
  call touches an existing case (`Interleavings.ExactlyOnce`,
  `Interleavings.CallsNeverResetCases`). With no assumption, every case belongs to a
  recorded transaction and the counters agree (`Interleavings.EveryRunKeepsInv`).
  When calls with one ID do overlap, it is determined exactly how often they can
  add it (`Overlaps.AtMostOnceIff`, `Overlaps.EverAtMostOnceIff`), and when they can replace its case and with it
  an analyst's verdict (`Replacement.ReplacementIff`, `Replacement.EverReplacedIff`).
* **Ensemble decisions without logarithms.** The combined score reaches a level t
  exactly when the product of the votes' odds, each to its weight in hundredths,
  reaches (t/(1-t))^100 (`Ensemble.ExactTest`); bounds, monotonicity and the table
  of who can flag alone follow.
* **Full period.** The generator returns to a state after n draws if and only if 2^64
  divides n, and draws every word (`Prng.FullPeriod`, `Prng.EveryWordIsReached`).
* **Builder and lookup agree** on isolation trees
  (`IsolationForest.CellsAreReached`, `IsolationForest.CellsPartitionRows`).
* **The feature of every split is known.** On two features, a split made after k
  constant columns uses feature (seed + 1 + k) mod 2 (`ForestFeatures.ForestLaw`).
* **Eviction is unobservable**, at each rate, exactly when the idle cutoff is at least
  one second (`RateLimit.EvictionUnobservableIff`; the program's cutoff is five
  minutes). With every race between requests and the walk allowed for, an IP gets at
  most one further burst through, as long as no request is held up for long
  (`RateLimitRaces.RacyWindowBound`), and that burst is real
  (`RateLimitExtremes.TwoBurstsPass`).
* **A retrained model is usable** exactly when no labelled case is its user's only
  amount in a category with spread (`LiveTraining.RetrainedModelIsProperIff`).
* **Where calibration rests.** The descent rests exactly at the coefficients
  whose expected frauds are the observed ones (`Calibration.RestsIffCalibrated`), and
  such a point is the only one if and only if two pairs of different scores lie where
  the sigmoid is not cut off (`RestingPoints.RestsAloneIff`).
* **Three backends, one history** (`Backends.BackendsAgree`).

## Where the code falls short of its description

Each of these is proved, together with the exact condition where there is one.

* A user with exactly one earlier amount in the category, scored against a population
  with spread, gets no z-score: the sample deviation of one value is not a number.
  The ensemble score is then not a number either and its severity reads low
  (`Scoring.NoAnswerIff`; a concrete store is `Scoring.TwoBuyers`). In the pipeline
  such a transaction is not flagged, and flag rules do not help, not even one of
  weight 1: the blend is not a number, so only a block or a review rule opens a case
  (`Verdicts.NoScoreSilencesFlags`).
* Retraining on such a score stores coefficients that are not numbers, and no
  calibrated probability is one until a later retraining in which no labelled case is
  a lone amount. It takes one labelled case on a user's
  only amount in a category with spread, which a first purchase is as soon as the
  pipeline has recorded it (`LiveTraining.RetrainedModelIsProperIff`,
  `LiveTraining.LabelledFirstPurchaseMutes`, `LiveTraining.TwoBuyersMute`).
* Two overlapping calls with one ID can both be recorded, and the second can replace
  a confirmed case by an open one. The calls in flight can do so if and only if two of
  these remain: calls that can still open the case, and the case itself
  (`Replacement.ReplacementIff`). With new calls arriving, a case is safe for good if
  and only if its transaction is recorded and at most one of these remains
  (`Replacement.EverReplacedIff`); two deliveries of a transaction not yet recorded
  are enough, from every state (`Replacement.DeliveriesCanLoseVerdict`).
* A final case status is not final: assigning the case again returns it to review
  (`Cases.VerdictIffLastWord`).
* On two features the forest's generator draws twice per split and once per constant
  column, and its lowest bit alternates, so the feature of a split is fixed by the
  constant columns met before it. With the program's seed 42 the forest never looks at
  an amount if and only if every split comes after an even number of them
  (`ForestFeatures.ForestIgnoresAmountIff`), as when the training rows have pairwise
  different hours (`ForestFeatures.DistinctHoursHideAmounts`).
* Retraining rebuilds transactions without time and device. The rebuilt transaction
  fires the velocity detector if and only if more than four entries of the history
  are undated (or dated within five minutes before year 1), counts as Monday 00:00 for
  the behavioural detector, and never fires the device detector
  (`Training.RebuiltSignals`).
* The limiter's cap of one burst holds for atomic requests. A bucket the walk has picked
  for deletion can still serve a burst before the deletion and its successor another
  right after (`RateLimitExtremes.TwoBurstsPass`), and if a request may be held up for n
  idle times, n requests pass at one instant, whatever the rate
  (`RateLimitExtremes.SlowRequestsPass`).
* The z-score detector flags alone only from a score of 6561/6562, not from its own
  threshold; the fence detector from odds whose 17th power is at least 9^83
  (`LoneDetector.LoneVerdict`).
* Counters agree only as long as the severity handed to `Add` agrees with the score
  on being flagged (`MemStore.AddConservesIff`); the pipeline always arranges that.
* An empty transaction ID is never seen, so each such call is scored again; every
  result about identity speaks of nonempty IDs; the HTTP handler fills in a missing one.

## Model

| member | source | states |
|---|---|---|
| Models.SeverityFollowsScore | internal/models/models.go:52-68 | Severity buckets are ordered like the scores, what is not a number is low, and being flagged is the same as being at least medium |
| MemStore.Store.constructor | internal/storage/storage.go:72-79 | A new store is the empty state |
| MemStore.Store.Add | internal/storage/storage.go:87-108 | The whole new state: capped history, seen ID unless empty, three counters, the caller's severity or the score's when unset |
| MemStore.Store.Seed | internal/storage/storage.go:116-127 | Records history and ID and touches no counter |
| MemStore.Store.Append | internal/storage/storage.go:132-141 | Only that user's history changes, to the last hundred of old plus new |
| MemStore.Store.GetUserHistory | internal/storage/storage.go:145-159 | Answers the stored history, empty for an unknown user |
| MemStore.Store.HasSeen | internal/storage/storage.go:197-206 | True exactly for a nonempty recorded ID |
| MemStore.HistoryIsLogSuffix | internal/storage/storage.go:132-141 | After any run of Add and Seed the history is the last hundred entries of the user's unbounded log, and never longer |
| MemStore.KeptEntries | internal/storage/storage.go:132-141 | Entry by entry: the history is the newest hundred of the log, oldest first |
| MemStore.SeenIffRecorded | internal/storage/storage.go:197-206 | After any run an ID is seen if and only if it is nonempty and some operation recorded it, however long ago |
| MemStore.AddConserves | internal/storage/storage.go:98-106 | An Add whose severity fits its score keeps scored equal to the sum of the buckets and flagged equal to medium plus high plus critical |
| MemStore.AddConservesIff | internal/storage/storage.go:98-106 | One Add keeps the counters in agreement if and only if severity and score agree on being flagged |
| MemStore.CountersCountAdds | internal/storage/storage.go:98-106 | Each counter is the number of Adds of the run that qualify for it; Seed counts for none |
| Rules.MatchDecomposes | internal/rules/rules.go:132-158 | An unconstrained rule matches everything, and a rule matches exactly when each of its eight fields alone does |
| Rules.BoundAccepts | internal/rules/rules.go:133-138 | A positive bound accepts exactly the amounts on its side, itself included; any other bound accepts all |
| Rules.ListAccepts | internal/rules/rules.go:139-156 | A nonempty list accepts exactly when the transaction's own country, category, device or user folds equal to a listed value, or its merchant contains one; excluded countries the opposite |
| Rules.OneFieldSeesItself | internal/rules/rules.go:132-158 | A rule that constrains one field is unaffected by any change of the other fields |
| Rules.NarrowingOnlyLoses | internal/rules/rules.go:132-158 | Matching is antitone: a rule with tighter bounds and lists matches no more transactions |
| Rules.FiredIff | internal/rules/rules.go:114-130 | A match is reported if and only if some rule of the list applies |
| Rules.FiredInOrder | internal/rules/rules.go:114-130 | The matches are those of the positions whose rule applies, in rising order, each with its rule's action and weight |
| Rules.Engine.constructor | internal/rules/rules.go:85-87 | The engine starts with the given rules |
| Rules.Engine.Reload | internal/rules/rules.go:90-103 | The rule list is replaced as a whole, or kept when the file cannot be read or parsed |
| Rules.Engine.Evaluate | internal/rules/rules.go:114-130 | Returns the firing rules in file order |
| Rules.FindAction | internal/rules/rules.go:180-197 | The shared loop of HasBlock and HasReview is true exactly when some match carries the action |
| Rules.FlagWeight | internal/rules/rules.go:200-211 | The total weight of the flag matches, capped at 1 |
| Rules.FlagTotalIsFlagSum | internal/rules/rules.go:200-211 | Selecting the flag matches and adding up their weights gives the total; above 1 it is cut to 1 |
| Rules.FlagSumIsOfRules | internal/rules/rules.go:114-130 | The flag weights of the matches are the weights of the flag rules that apply |
| Rules.FiredPermutes | internal/rules/rules.go:114-130 | Reordering the rules only reorders the matches |
| Verdicts.Adjust | internal/pipeline/pipeline.go:130-143 | The step-by-step overwriting of score and severity computes blend followed by override, also for a score that is not a number |
| Verdicts.Judge | internal/pipeline/pipeline.go:118-164 | The verdict with block, review and the recorded rule IDs, for any matches |
| Verdicts.VerdictOnMatches | internal/pipeline/pipeline.go:113-164 | The whole verdict on given matches: blocked, review and rule IDs by position, and without a block 1 - final is (1 - score)(1 - sum of the flag matches' weights), or 0 once that is at most 0.15 |
| Verdicts.OtherMatchesLeaveScore | internal/pipeline/pipeline.go:130-143 | Inserting a match that neither blocks nor flags changes neither score nor severity |
| Verdicts.FinalRiskIsConsistent | internal/pipeline/pipeline.go:130-143 | The final severity is the one the final score calls for, a real score never drops, not-a-number survives exactly without a block, critical means exactly 1, and scores from 0.85 up to 1 do not occur |
| Verdicts.CriticalIff | internal/pipeline/pipeline.go:130-143 | Critical if and only if blocked, or the score is a number and (1 - score)(1 - weight) is at most 0.15 |
| Verdicts.NoScoreSilencesFlags | internal/pipeline/pipeline.go:130-167 | Without an ensemble score no flag weight counts: only a block or a review rule opens a case, and only a block gives a score |
| Verdicts.RaiseBounds | internal/pipeline/pipeline.go:121-134 | Blending multiplies the two complements and stays between the score and 1 |
| Verdicts.RaiseMonotone | internal/pipeline/pipeline.go:130-134 | Blending is monotone in score and weight |
| Verdicts.FinalRiskMonotone | internal/pipeline/pipeline.go:130-143 | A higher ensemble score, a higher flag weight or an added block never lowers the final score |
| Verdicts.VerdictIgnoresRuleOrder | internal/pipeline/pipeline.go:113-167 | Reordering the rules file changes nothing but the order of the recorded rule IDs |
| Verdicts.OpensCaseIff | internal/pipeline/pipeline.go:157-167 | A case is asked for if and only if the final score is flagged or a review rule matched; a block always flags |
| Cases.CaseKeyInjective | internal/cases/cases.go:114 | Different transactions never share a case ID |
| Cases.Manager.constructor | internal/cases/cases.go:105-107 | A new manager has no cases and no hooks |
| Cases.Manager.OnResolve | internal/cases/cases.go:98-102 | Registers one more hook and changes nothing else |
| Cases.Manager.Create | internal/cases/cases.go:110-137 | The whole new ledger: a fresh open case under the derived ID, replacing any earlier one |
| Cases.Manager.Assign | internal/cases/cases.go:161-172 | Status and analyst of that one case change; an unknown ID changes nothing and is reported |
| Cases.Manager.Resolve | internal/cases/cases.go:175-208 | Status, analyst, date and optional note of that one case change, and a confirmation fires every registered hook in order |
| Cases.Manager.FireHooks | internal/cases/cases.go:204-206 | One firing per hook, in registration order |
| Cases.Manager.AddNote | internal/cases/cases.go:211-226 | Appends one note to that case and changes nothing else |
| Cases.Manager.Stats | internal/cases/cases.go:238-257 | For every status and priority the number of cases that carry it, and the total, whatever order the map is walked in |
| Cases.CountsAddUp | internal/cases/cases.go:245-255 | The six status counts and the four priority counts each add up to the number of cases |
| Cases.RunKeepsVerdictsDated | internal/cases/cases.go:175-208 | After every run of handler-validated operations a case with a verdict has its resolution time, and none is auto-resolved |
| Cases.RunEvolves | internal/cases/cases.go:110-226 | Unless its key is created again, a case keeps its facts, never loses a note and never loses its resolution time |
| Cases.VerdictIffLastWord | internal/api/cases_handlers.go:50-98 | A case has a verdict if and only if the last operation that touched its status was a resolution: assignment undoes it |
| Cases.StatusIsLastWord | internal/cases/cases.go:110-208 | After any run the status is exactly that of the last operation to touch it: open for a creation, in review for an assignment, the requested one for a resolution |
| Cases.SomeLastTouch | internal/cases/cases.go:110-138 | Every case has such an operation |
| Cases.DateIsLastResolution | internal/cases/cases.go:175-192 | The resolution time is that of the last resolution since the case was opened, and nothing when there was none |
| Cases.FactsAreLastCreation | internal/cases/cases.go:110-138 | Transaction, score and rule IDs are those its last creation was given |
| Cases.HooksFireOncePerConfirmation | internal/cases/cases.go:198-206 | Hook k has fired for a case exactly as often as the case was confirmed while k was registered |
| Cases.CaseRemembers | internal/cases/cases.go:110-226 | After every run a case carries exactly the notes written on it since its creation, in order, and the analyst who touched it last |
| Pipeline.Pipeline.Process | internal/pipeline/pipeline.go:85-190 | Result and whole new state of store and ledger for duplicate, cancelled and scored calls, whether or not the ensemble score is a number |
| Pipeline.AnswerOf | internal/pipeline/pipeline.go:85-190 | Duplicate before cancelled before scored; a scored call reports the calibration of the ensemble's own score and the ID of the case, opened exactly when flagged, under review or blocked |
| Pipeline.VerdictByRules | internal/pipeline/pipeline.go:104-143 | The verdict on the loaded rules: block and review when such a rule applies, and otherwise the ensemble score of the store before the call, raised by the sum of the applying flag rules' weights |
| Pipeline.Pipeline.Assess | internal/pipeline/pipeline.go:113-143 | The verdict on the current rules |
| Pipeline.Pipeline.Conclude | internal/pipeline/pipeline.go:145-167 | The transaction is added with the final risk, then a case is opened exactly when the verdict asks for it |
| Pipeline.SeenAfterStream | internal/pipeline/pipeline.go:88-102 | After a stream an ID is seen if and only if it was before or some call with it was not cancelled |
| Pipeline.DuplicatesLeaveNoTrace | internal/pipeline/pipeline.go:88-102 | The whole state after any stream equals the state after its first completions alone, each call with its own walk over the maps and the rules loaded at the time |
| Pipeline.RedeliveryIsIdempotent | internal/pipeline/pipeline.go:88-98 | Appending calls whose IDs have completed changes nothing |
| Pipeline.TotalScoredCountsFirsts | internal/pipeline/pipeline.go:145-155 | The scored counter grows by exactly the number of first completions |
| Pipeline.VerdictIsConsistent | internal/pipeline/pipeline.go:105-143 | On every state and call the final severity fits the final score, and a real ensemble score is not lowered |
| Pipeline.StreamConserves | internal/pipeline/pipeline.go:145-155 | Any stream keeps scored equal to the sum of the buckets and flagged equal to medium plus high plus critical |
| Pipeline.StreamIsAdds | internal/pipeline/pipeline.go:145-155 | The store after any stream is what adding each first completion with the risk of its final verdict makes of it |
| Pipeline.OpeningLasts | internal/pipeline/pipeline.go:157-167 | A case opened by a first completion keeps that call's verdict through the rest of the stream |
| Pipeline.CaseIffVerdict | internal/pipeline/pipeline.go:157-167 | An unknown transaction ends with a case if and only if its first completed call was judged to deserve one, and the case records that verdict |
| Pipeline.PriorityTellsScore | internal/cases/cases.go:259-270 | A case has critical priority exactly when the score is 1, high from 0.7 up to that, medium from 0.5 to 0.7, and low exactly when it was not flagged |
| Concurrency.SoloIsProcess | internal/pipeline/pipeline.go:85-190 | The steps of one call, uninterrupted, are exactly the sequential call |
| Interleavings.InvStep | internal/pipeline/pipeline.go:85-190 | Every enabled step of any call or analyst keeps the invariant |
| Interleavings.EveryRunKeepsInv | internal/pipeline/pipeline.go:145-167 | In every reachable state of every interleaving: recorded IDs are seen, cases belong to opened IDs, verdicts are dated, counters agree |
| Interleavings.CasesBelongToRecordedTransactions | internal/pipeline/pipeline.go:145-167 | With no assumption on overlap, a case's transaction ID is seen, because Add precedes Create |
| Interleavings.OnceStep | internal/pipeline/pipeline.go:85-190 | While calls with one ID do not overlap, every step keeps the exactly-once invariant |
| Interleavings.ExactlyOnce | internal/pipeline/pipeline.go:88-167 | For every such run: each nonempty ID added at most once and its case opened at most once; seen exactly when known before or added once; a completed call's ID has been added |
| Interleavings.CallsNeverResetCases | internal/cases/cases.go:110-137 | In such a run no step of a call changes a case that already exists |
| Interleavings.CasesOnlyEvolve | internal/cases/cases.go:110-226 | Along any later stretch of such a run a case keeps its facts, notes and resolution time |
| Overlaps.AddsBoundedByLive | internal/pipeline/pipeline.go:88-155 | Calls in flight add an ID at most once for each of them not yet turned away |
| Overlaps.AllLiveCanAdd | internal/pipeline/pipeline.go:88-155 | There is a schedule in which every one of them does |
| Overlaps.AtMostOnceIff | internal/pipeline/pipeline.go:88-155 | The calls in flight can add an ID more than once if and only if two of them have yet to be turned away |
| Overlaps.EverAtMostOnceIff | internal/storage/storage.go:87-108 | With new calls arriving, an ID is added at most once more if and only if it is already recorded and at most one call in flight has yet to be turned away |
| Replacement.ClaimsShrink | internal/pipeline/pipeline.go:88-167 | Without new calls no step adds a claim on a case: a call that can still open it, or the case itself |
| Replacement.ReplacementIff | internal/cases/cases.go:110-137 | The calls in flight can replace a case if and only if there are at least two claims on its key, and then they can replace one an analyst has resolved |
| Replacement.ReplacedCaseIsBlank | internal/cases/cases.go:115-136 | The replacing case is open, undated and without notes |
| Replacement.DeliveriesCanLoseVerdict | internal/pipeline/pipeline.go:88-167 | From every state, two deliveries of a transaction not yet recorded lead to one in which a verdict can be lost |
| Replacement.EverReplacedIff | internal/pipeline/pipeline.go:88-167 | With any new calls arriving, a case can be replaced if and only if there are two claims on its key or its transaction is not recorded |
| Ensemble.SumVotes | internal/detector/detector.go:449-466 | The loop sums the weighted log-odds and the weights and lists the positions that did not abstain; a weighted vote that is not a number spoils the sum |
| Ensemble.OddsOfVote | internal/detector/detector.go:417-436 | A vote s counts as odds o with o (1 - s) = s, a millionth at least from 0 and from 1; an abstention as one to nine |
| Ensemble.FiredAtIff | internal/detector/detector.go:449-466 | The positions named are exactly those with a positive weight whose vote is neither zero nor below, in order |
| Ensemble.NoWeightNoScore | internal/detector/detector.go:468-480 | Without a positive weight the score is 0 |
| Ensemble.Score | internal/detector/detector.go:441-491 | The logistic of the weighted mean of log-odds with its severity, and no number exactly when a weighted vote is none |
| Ensemble.WeightedLogitIsLogProduct | internal/detector/detector.go:449-466 | With weights in hundredths the accumulated sum is a hundredth of the logarithm of the product of odds to their weights |
| Ensemble.LogisticCrosses | internal/detector/detector.go:469-472 | The logistic reaches a level exactly where its argument reaches the level's log-odds |
| Ensemble.ExactTest | internal/detector/detector.go:449-480 | The combined score is at least (at most) a level if and only if the product of weighted odds is at least (at most) the level's odds to the total weight |
| EnsembleFacts.CombinedBetweenVotes | internal/detector/detector.go:441-480 | The combined score lies between any bounds on the votes with weight themselves, an abstention reading as one tenth |
| EnsembleFacts.AgreedVoteIsAnswer | internal/detector/detector.go:441-480 | A single vote with weight, or equal votes, is the combined score |
| EnsembleFacts.AllAbstainIsOneTenth | internal/detector/detector.go:456-460 | With nobody firing the score is exactly 0.1 |
| EnsembleFacts.CombinedMonotone | internal/detector/detector.go:441-480 | Raising any votes never lowers the combined score |
| EnsembleFacts.OneVoteDecides | internal/detector/detector.go:449-466 | Changing one weighted vote does not lower the score if and only if it does not lower that vote's probability |
| EnsembleFacts.LargerVoteScoresHigher | internal/detector/detector.go:449-466 | Of two votes in the same place the larger gives the larger score, and only it |
| EnsembleFacts.FiringHelpsIff | internal/detector/detector.go:417-436 | Replacing an abstention by a firing does not lower the score if and only if the firing is at least 0.1 |
| EnsembleFacts.WeightsAreTheSources | internal/detector/detector.go:406 | The seven weights in hundredths total 100 and are the program's decimals |
| EnsembleFacts.SeverityIsExact | internal/models/models.go:52-68 | Severity and flag of the ensemble equal integer-power comparisons of the odds product with 1, (7/3)^100 and (17/3)^100 |
| EnsembleFacts.ProductionBounds | internal/detector/detector.go:395-408 | With scores the detectors produce the ensemble stays within 0.1 and 1 - 10^-6 |
| EnsembleFacts.FiringNeverLowers | internal/detector/detector.go:441-466 | With scores the detectors produce one more firing never lowers the ensemble |
| LoneDetector.LoneTest | internal/detector/detector.go:449-466 | A lone firing reaches a level exactly when its weighted odds reach 9 to the abstaining weight times the level |
| LoneDetector.ZScoreAloneFlagsIff | internal/detector/detector.go:150-153 | The z-score detector alone flags if and only if its odds are at least 6561 |
| LoneDetector.IqrAloneFlagsIff | internal/detector/detector.go:233-248 | The fence detector alone flags if and only if the 17th power of its odds is at least 9^83 |
| LoneDetector.IqrCutRange | internal/detector/detector.go:233-248 | It flags alone from odds of 9^5, as at saturation, and not up to 9^4 |
| LoneDetector.OnlyAmountDetectorsFlagAlone | internal/detector/detector.go:395-408 | None of the other five detectors can flag on its own, whatever it says |
| LoneDetector.NobodyIsCriticalAlone | internal/detector/detector.go:395-408 | No single detector takes the ensemble to critical, for any score |
| LoneDetector.LoneVerdict | internal/detector/detector.go:441-491 | The same as verdicts: never critical, low for the five, and the exact cuts of the two amount detectors |
| Statistics.StdDev | internal/detector/detector.go:129-133 | Defined exactly from two values on, and nonnegative |
| Statistics.MeanBetween | internal/detector/detector.go:131 | The mean lies between any bounds of the values |
| Statistics.MeanTimesCount | internal/detector/detector.go:131 | As many times the mean as there are values is their sum |
| Statistics.DeviationFromSums | internal/detector/detector.go:132 | n (n - 1) times the squared deviation is n times the sum of the squares less the square of the sum |
| Statistics.NoSpreadIff | internal/detector/detector.go:132-140 | The sample deviation is zero if and only if all values are equal |
| Statistics.QuantileMonotone | internal/storage/storage.go:267-269 | Quantiles of a sorted sample grow with the level, so Q1 is at most Q3 |
| Statistics.QuantileEnds | internal/storage/storage.go:267-269 | The extreme levels give the extreme values and every quantile lies between them |
| Statistics.QuartileByCount | internal/detector/detector.go:216-217 | The k-quarter quantile lies, with k n = 4 j + r, r quarters of the way from the j-th value to the next |
| Statistics.BlendEnds | internal/detector/detector.go:124-135 | A new user is judged by the population alone, one with five amounts by their own statistics alone, in between by something in between |
| Statistics.BlendIsShared | internal/detector/detector.go:124-135 | Of n < 5 amounts five times the blend is n times the user's figure plus 5 - n times the population's; from five on it is the user's |
| Statistics.AmountsOfCategory | internal/detector/detector.go:500-508 | The amounts of one category in history order |
| Statistics.AmountsInOrder | internal/detector/detector.go:500-508 | The amounts are those at the positions of the category, in rising order |
| AmountDetectors.Blended | internal/detector/detector.go:124-135 | The blended baseline is defined unless there is exactly one amount |
| AmountDetectors.BlendedIsShared | internal/detector/detector.go:124-135 | Mean and deviation are the population's for a new user and otherwise shared by n of five and the rest |
| AmountDetectors.ZScore | internal/detector/detector.go:105-161 | No answer exactly for one amount and a spread population; otherwise 0 or within (0.5, 1] |
| AmountDetectors.ZScoreValue | internal/detector/detector.go:117-153 | Silent below five amounts without population spread; otherwise 0 up to three blended deviations, 1 from 5.5, and a fifth per deviation from 0.5 between |
| AmountDetectors.ZScoreFiresIff | internal/detector/detector.go:137-145 | Fires if and only if there is spread and the amount exceeds the blended mean by more than three blended deviations |
| AmountDetectors.ZScoreMonotone | internal/detector/detector.go:142-153 | A larger amount never scores lower |
| AmountDetectors.FromZMonotone | internal/detector/detector.go:143-153 | Monotone in z and saturated exactly from 5.5 deviations |
| AmountDetectors.UserQuartiles | internal/detector/detector.go:212-218 | The user's first quartile is at most the third |
| AmountDetectors.BlendedQuartiles | internal/detector/detector.go:219-221 | Blending keeps Q1 at most Q3 |
| AmountDetectors.QuartilesAreShared | internal/detector/detector.go:207-220 | Both quartiles are the population's for a new user and otherwise shared by n of five and the rest |
| AmountDetectors.FencesEnclose | internal/detector/detector.go:229-230 | Lower fence, Q1, Q3, upper fence come in this order, so the two branches exclude each other |
| AmountDetectors.FenceScoreShape | internal/detector/detector.go:232-269 | Fires exactly outside the fences, is monotone outwards on both sides, is 1 exactly from two widths past the upper fence, and below the lower one reaches its cap 0.9 exactly from three and a third widths |
| AmountDetectors.IqrRange | internal/detector/detector.go:192-270 | For every history and population the score is 0 or within (0.4, 1] |
| AmountDetectors.IqrScore | internal/detector/detector.go:192-270 | The straight-line body computes the fence score of the blended quartiles |
| AmountDetectors.IqrValue | internal/detector/detector.go:202-269 | Silent below five amounts without population quartiles; otherwise 0 within the fences, a quarter per width above from 0.5 up to 1, fifteen hundredths per width below from 0.4 up to 0.9 |
| Population.SomeOrder | internal/storage/storage.go:225 | The user map has a visiting order, so results about all orders are not empty |
| Population.BaselinesIgnoreOrder | internal/storage/storage.go:218-274 | Mean, deviation and quartiles are the same for all visiting orders |
| Population.StatsFromSums | internal/storage/storage.go:218-241 | Mean and deviation by the plain sums of amounts and squares, zeros below two amounts |
| Population.QuartilesByCount | internal/storage/storage.go:250-274 | The quartiles by position in the sorted amounts, zeros below four |
| Population.GatheredCountsPlaces | internal/storage/storage.go:224-231 | Every amount is gathered once for each history entry of the category that holds it, over all users |
| Population.Gather | internal/storage/storage.go:224-231 | The walk, in whatever order it goes, collects the multiset of amounts that every order collects |
| Population.GlobalCategoryStats | internal/storage/storage.go:218-241 | Whatever order was taken, the answer is that of every order, and the deviation is nonnegative |
| Population.GlobalCategoryQuartiles | internal/storage/storage.go:250-274 | Whatever order was taken, the answer is that of every order, and Q1 is at most Q3 |
| Velocity.Score | internal/detector/detector.go:307-345 | The score of the number of transactions in the five-minute window, 0 or within [0.6, 1] |
| Velocity.FromCountShape | internal/detector/detector.go:324-335 | Fires exactly above four, saturates exactly at nine, never falls |
| Velocity.ScoreOfRecent | internal/detector/detector.go:312-335 | With n transactions in the five minutes up to now, ends included: 0 up to four, (n + 1) / 10 up to nine, then 1 |
| Velocity.CountedIsSuffix | internal/detector/detector.go:314-322 | In a chronological log the counted entries are exactly the last ones |
| Velocity.TruncationCapsCount | internal/storage/storage.go:132-141 | Keeping the last n entries of a chronological log caps the count at n and changes nothing else |
| Velocity.TruncationHarmlessIff | internal/storage/storage.go:132-141 | Truncation leaves every velocity score unchanged if and only if at least nine entries are kept |
| Velocity.StoreLosesNothing | internal/detector/detector.go:307-345 | The score on the stored history equals the score on everything ever recorded for the user |
| Signals.DeviceScore | internal/detector/device.go:45-89 | Abstains exactly without fingerprint, without history or for a device seen twice; 0.4 exactly for a new device; otherwise 0.3 |
| Signals.UsesAreCounted | internal/detector/device.go:52-60 | The uses counted are the history entries with that fingerprint |
| Signals.DeviceByUses | internal/detector/device.go:60-89 | Never used 0.4, once 0.3, otherwise 0 |
| Signals.CountCountries | internal/detector/geo.go:264-270 | Every nonempty country with its exact number of visits |
| Signals.VisitsAreCounted | internal/detector/geo.go:264-270 | The visits counted are the history entries with that country |
| Signals.ModalCountry | internal/detector/geo.go:264-280 | For every walk over the map the result is a most visited country, or empty when there is none |
| Signals.ModalIsUnique | internal/detector/geo.go:271-279 | Without a tie the home country does not depend on the walk |
| Signals.RampRange | internal/detector/geo.go:241-250 | The ramp is monotone, 0 or within [0.5, 1], and 1 exactly from 8000 km |
| Signals.RampByDistance | internal/detector/geo.go:241-250 | 0 below 2000 km, 1 from 8000 km, and between them 0.5 plus a half over the 6000 km |
| Signals.GeoScore | internal/detector/geo.go:226-260 | The ramp over the distance from a modal country when abroad, otherwise 0 |
| Signals.RegistryRange | internal/detector/merchant.go:37-48 | Every registry entry scores within [0.7, 0.98] |
| Signals.MerchantScore | internal/detector/merchant.go:66-83 | Abstains exactly when no entry matches; otherwise the score of a matching entry, whatever order the registry is walked in |
| Behavioral.BuildMatrix | internal/detector/behavioral.go:49-60 | Every cell counts its dated transactions, and the cells total all dated transactions |
| Behavioral.CellIsHourOfWeek | internal/detector/behavioral.go:49-60 | The cells are the hours of the week in order, Go's zero time being Monday 00:00 |
| Behavioral.ProfileCounts | internal/detector/behavioral.go:105-110 | Each hour sum is the number of dated transactions of that hour of the day |
| Behavioral.WindowIsSixHours | internal/detector/behavioral.go:113-117 | The window sums six consecutive hours around the clock |
| Behavioral.SumHours | internal/detector/behavioral.go:105-110 | Hour sums over the seven days |
| Behavioral.FindQuietestHour | internal/detector/behavioral.go:104-124 | The leftmost start whose circular window has the least activity |
| Behavioral.QuietestIsUnique | internal/detector/behavioral.go:111-123 | There is only one such start |
| Behavioral.IsInWindow | internal/detector/behavioral.go:127-134 | True exactly when the hour is fewer than the window's hours after its start, modulo 24 |
| Behavioral.HourSumsConserve | internal/detector/behavioral.go:105-110 | Summing by hour of day loses nothing of the matrix |
| Behavioral.WindowsCoverEvenly | internal/detector/behavioral.go:113-117 | Over all 24 starts the window sums total the window size times all activity |
| Behavioral.QuietWindowBelowAverage | internal/detector/behavioral.go:104-124 | 24 times the quiet window's activity is at most its size times all activity |
| Behavioral.Score | internal/detector/behavioral.go:41-100 | Zero below five transactions; otherwise decided by whether the cell is new and the hour quiet, for the history's own profile |
| Behavioral.ScoreTells | internal/detector/behavioral.go:62-100 | 0.5 exactly for a new hour of the week in the quiet window, 0.35 for a new one outside, 0.3 for a known one inside, 0 otherwise |
| Scoring.ZScoreVote | internal/detector/detector.go:105-161 | The detector's value for every order in which the population may be visited |
| Scoring.IqrVote | internal/detector/detector.go:192-270 | The detector's value for every order in which the population may be visited, in the range the ensemble relies on |
| Scoring.PatternVotes | internal/detector/detector.go:396-408 | The other five detectors' verdicts on the stored history, each in its range |
| Scoring.OwnAmountsInOrder | internal/detector/detector.go:107-112 | The amounts judged are those of the user's own history in the transaction's category, in order |
| Scoring.CastVotes | internal/detector/detector.go:449-454 | Seven votes in ensemble order, each its own detector's verdict on the store, only the first possibly not a number |
| Scoring.ScoreTransaction | internal/detector/detector.go:441-491 | The score combines those seven verdicts, and the severity is the one it calls for |
| Scoring.NoAnswerIff | internal/detector/detector.go:124-142 | The ensemble has no number if and only if the user has one earlier amount in the category and the population deviation is not zero |
| Scoring.AnswerIsExact | internal/detector/detector.go:468-488 | Otherwise the score lies in [0.1, 1) and its severity is the one of the integer-power comparison; without a number the severity is low |
| Scoring.FirstPurchaseIsLone | internal/storage/storage.go:87-108 | Once a user's first purchase in a category is added, it is the user's one amount there |
| Scoring.TwoBuyersHaveNoAnswer | internal/detector/detector.go:124-142 | A concrete store of two purchases on which the ensemble has no number |
| Scoring.AmountVerdictsAreUnique | internal/detector/detector.go:105-270 | Store and transaction determine both amount verdicts |
| Calibration.Sigmoid | internal/ml/ml.go:91-99 | A value in [0, 1], strictly inside between the guards |
| Calibration.LogisticCalibrator.constructor | internal/ml/ml.go:42-46 | Starts at slope 1 and offset 0 |
| Calibration.LogisticCalibrator.Fit | internal/ml/ml.go:42-62 | Whatever they were before, the new coefficients are the descent from (1, 0); after at least one iteration they are not numbers exactly when there is no pair or a score is not a number |
| Calibration.LogisticCalibrator.Calibrate | internal/ml/ml.go:65-69 | No number exactly when score or coefficients are none; otherwise in [0, 1], with odds against it equal to the exponential of the negated argument between the guards, and strictly inside for coefficients within 50 of (1, 0) |
| Calibration.Gradient | internal/ml/ml.go:48-55 | Both gradient sums over the pairs |
| Calibration.GradientOutcome | internal/ml/ml.go:48-55 | Both sums are numbers exactly when coefficients and scores all are, and then those of the real gradient; zero without pairs |
| Calibration.OutcomeStep | internal/ml/ml.go:47-59 | One iteration takes what is stored after i iterations to what is stored after i + 1, the division by zero pairs included |
| Calibration.DescentIsBounded | internal/ml/ml.go:56-58 | One iteration moves each coefficient by at most the learning rate |
| Calibration.FitIsBounded | internal/ml/ml.go:42-62 | After n iterations slope and offset are within n times the rate of (1, 0) |
| Calibration.GuardsAreUnreachable | internal/ml/ml.go:91-99 | With a reach of 50 no argument exceeds 101 in magnitude: the 700 guards are never met and the probability is strictly inside (0, 1) |
| Calibration.RankingKeptIff | internal/ml/ml.go:65-69 | Calibration keeps the order of two raw scores if and only if the slope is positive |
| Calibration.FitIgnoresOrder | internal/ml/ml.go:42-62 | The fit is the same for every ordering of the pairs |
| Calibration.OutcomeIgnoresOrder | internal/ml/ml.go:42-62 | So is what is stored when scores may not be numbers |
| Calibration.ProperIff | internal/ml/ml.go:42-99 | With scores from the unit interval and a reach of 50, every raw score gets a probability strictly inside (0, 1) if and only if there was a pair and every score was a number; otherwise none gets one until the model is fitted anew |
| Calibration.OneClassPullsOneWay | internal/ml/ml.go:47-59 | Pairs of one class move both coefficients in one direction at every iteration |
| Calibration.OneClassModelIsOneSided | internal/ml/ml.go:42-69 | Trained on frauds only, the sigmoid's argument is never below the raw score; trained on clean pairs only, never above |
| Calibration.GradientIsResidual | internal/ml/ml.go:48-55 | The gradient is what the model predicts minus what was observed, plain and score-weighted |
| Calibration.StepLength | internal/ml/ml.go:56-58 | One step moves slope and offset by the rate times the mean surplus of predicted over observed, weighted by the scores for the slope |
| Calibration.CalibratedOdds | internal/ml/ml.go:65-100 | p exp(-(a raw + b)) = 1 - p within 700 either side, 0 and 1 beyond |
| Calibration.RestsIffCalibrated | internal/ml/ml.go:48-58 | The descent leaves the coefficients alone if and only if predicted and observed totals agree, plain and score-weighted |
| RestingPoints.RestsAloneIff | internal/ml/ml.go:48-58 | A resting point of the descent is the only one if and only if two pairs of different scores lie where the sigmoid is not cut off; otherwise tilted models rest as well |
| Training.Retrain | internal/training/training.go:103-189 | Nothing changes without labelled cases; otherwise logged and live coefficients are both what the fit on the labelled pairs stores, numbers or not, and the counts sum to their number |
| Training.PairsInOrder | internal/training/training.go:111-131 | One pair for each confirmed or cleared case in listed order: the score of the rebuilt transaction, fraud exactly when confirmed |
| Training.RebuiltKeepsTheRest | internal/training/training.go:116-124 | The rebuilt transaction lacks time and device and nothing else |
| Training.ModelAfterSteps | internal/training/training.go:151-164 | The model is five hundred steps at rate 0.1 away from slope 1 and offset 0 |
| Training.TallyCells | internal/training/training.go:133-143 | Each confusion cell is the number of pairs with its label and its answer at 0.5 |
| Training.RetrainIgnoresOrder | internal/training/training.go:106-164 | The model does not depend on the order the case map was listed in |
| LiveTraining.RetrainedModelIsProperIff | internal/training/training.go:111-163 | On the live ensemble the retrained model gives proper probabilities if and only if no labelled case is its user's only amount in a category with spread; otherwise it gives none until a later retraining without one |
| LiveTraining.LabelledFirstPurchaseMutes | internal/training/training.go:111-163 | A labelled case on a first purchase that the pipeline has recorded, in a category with spread, leaves a model without numbers |
| LiveTraining.TwoBuyersMute | internal/training/training.go:111-163 | A concrete store and case for which it does |
| Training.RebuiltSignals | internal/training/training.go:115-127 | The rebuilt transaction fires velocity if and only if more than four entries are undated or just before year 1, falls on Monday 00:00, and has a silent device vote |
| Training.TallyFollowsVerdicts | internal/training/training.go:111-143 | The confusion rows total the confirmed and the cleared cases, whatever the scorer says |
| Metrics.F1ClosedForm | internal/api/seed.go:382-390 | F1 equals 2TP / (2TP + FP + FN), also when it is 0 |
| Metrics.F1BetweenPrecisionAndRecall | internal/api/seed.go:382-390 | F1 lies between precision and recall and is positive exactly when a fraud was caught |
| Metrics.RatesAreShares | internal/api/seed.go:379-393 | Recall is the flagged share of the frauds, precision the fraudulent share of the flagged, the third the flagged share of the normals, 0 of nothing |
| Evaluation.Replay | internal/api/seed.go:357-377 | Scores each transaction on the store of its predecessors, counts it, then seeds it; the four counts sum to the number replayed |
| Evaluation.TallyCells | internal/api/seed.go:357-373 | Each cell is the number of transactions with its label that the scorer, on their predecessors, did or did not put at 0.5 or more |
| Evaluation.Summarise | internal/api/seed.go:379-393 | All derived figures, zero where a denominator is |
| Evaluation.Evaluate | internal/api/seed.go:353-395 | Final store, counts and metrics of the replay |
| Evaluation.NoLeakage | internal/api/seed.go:374-376 | On an initially empty store transaction i sees exactly the last hundred of its user's transactions before i, and never itself when IDs differ |
| Evaluation.TallyIsCausal | internal/api/seed.go:345-378 | Later data cannot change an earlier count |
| Evaluation.TotalsAreTheLabels | internal/api/seed.go:363-380 | The fraud and normal totals are those of the labels for every scorer and store |
| Evaluation.BolderScorerFlagsMore | internal/api/seed.go:358-372 | A scorer that never says less catches no fewer frauds and raises no fewer false alarms |
| Prng.Generator.constructor | internal/ml/ml.go:218 | Starts at the seed |
| Prng.Generator.Next | internal/ml/ml.go:220-223 | The affine step modulo 2^64, returned and stored |
| Prng.StepWraps | internal/ml/ml.go:220-223 | A draw differs from the affine image with the two 64-bit constants by whole multiples of 2^64 |
| Prng.FirstDraws | internal/ml/ml.go:218-223 | The first three words drawn from seed 42 |
| Prng.Generator.Float64 | internal/ml/ml.go:225-227 | Draws once and returns the top 53 bits as a fraction in [0, 1) |
| Prng.UnitIsFraction | internal/ml/ml.go:225-227 | The fraction is the word over 2^64, cut to 53 bits |
| Prng.Generator.Intn | internal/ml/ml.go:229-234 | In [0, n) after one draw; 0 without drawing for a bound that is not positive |
| Prng.ClosedForm | internal/ml/ml.go:220-223 | The state after n draws in closed form modulo 2^64 |
| Prng.LowBitsPeriod | internal/ml/ml.go:220-223 | The low k bits return exactly after the multiples of 2^k draws |
| Prng.FullPeriod | internal/ml/ml.go:220-223 | A state recurs after n draws if and only if 2^64 divides n |
| Prng.DistinctWithinPeriod | internal/ml/ml.go:220-223 | The first 2^64 states are pairwise distinct |
| Prng.JumpIsOddMultiple | internal/ml/ml.go:220-223 | 2^k draws move the state by an odd multiple of 2^k |
| Prng.EveryWordIsReached | internal/ml/ml.go:220-223 | From any seed every 64-bit word is drawn within one period |
| Prng.ParityCountsDraws | internal/ml/ml.go:220-223 | The lowest bit alternates with every draw |
| IsolationForest.ColumnRange | internal/ml/ml.go:160-169 | Smallest and largest value of a column, from the sentinels on |
| IsolationForest.Partition | internal/ml/ml.go:175-182 | The rows below the cut and the others, each in order |
| IsolationForest.Draw | internal/ml/ml.go:158-173 | The feature, its range and the cut that the next one or two draws call for |
| IsolationForest.BuildTree | internal/ml/ml.go:154-194 | The tree its draws call for, leaving the shared generator exactly after those draws |
| IsolationForest.BuildChild | internal/ml/ml.go:185-192 | An empty side leaves no child and draws nothing |
| IsolationForest.PathIsAddressLength | internal/ml/ml.go:196-210 | The path length is the starting depth plus the number of turns taken |
| IsolationForest.CellsAreReached | internal/ml/ml.go:154-210 | The rows a leaf was built from are exactly the training rows the lookup sends there, and its height is their path length |
| IsolationForest.CellsPartitionRows | internal/ml/ml.go:175-192 | The leaves partition the training rows, with multiplicity |
| IsolationForest.TrainingRowsReachLeaves | internal/ml/ml.go:196-210 | A training row never falls off a missing child, and its path length is its leaf's height |
| IsolationForest.PathIsBounded | internal/ml/ml.go:196-210 | No query travels beyond the depth limit |
| IsolationForest.CellsAreSettled | internal/ml/ml.go:155-172 | The builder stops only at the limit, at a lone row or at a constant column |
| IsolationForest.CutSides | internal/ml/ml.go:160-182 | On finite data the right side is never empty, and the left side is empty exactly when the drawn fraction is 0 |
| IsolationForest.CutInProportion | internal/ml/ml.go:160-176 | Feature and cut of a node by its two draws: the cut divides the column's range in the proportion drawn |
| ForestFeatures.DrawCount | internal/ml/ml.go:154-194 | A tree uses exactly two draws per split and one per constant column met |
| ForestFeatures.LogFollowsTree | internal/ml/ml.go:154-194 | The log of splits, with the constant columns met before each, lists exactly the splits of the tree in build order |
| ForestFeatures.TreeLaw | internal/ml/ml.go:158-173 | On any two-feature rows, a split made after c constant columns uses feature (seed + 1 + c) mod 2 |
| ForestFeatures.ForestLaw | internal/ml/ml.go:125-136 | The same over all trees of a forest in order |
| ForestFeatures.OneFeatureIff | internal/ml/ml.go:125-136 | The forest splits on the seed's feature alone if and only if every split comes after an even number of constant columns |
| ForestFeatures.NoConstantsOneFeature | internal/ml/ml.go:170-172 | In particular when no constant column is met |
| IsolationForest.NewIsolationForest | internal/ml/ml.go:125-136 | The trees that the draws from seed 42 call for, none without data |
| IsolationForest.ForestDraws | internal/ml/ml.go:125-136 | The words the forest's generator hands out first |
| IsolationForest.Score | internal/ml/ml.go:140-152 | Two to the negated, normalised mean path, 0 without trees |
| IsolationForest.ExponentOfMean | internal/ml/ml.go:147-151 | The exponent is minus the mean path over 5.04 |
| IsolationForest.TotalPathCountsTurns | internal/ml/ml.go:144-148 | The total path is the number of turns the query takes in all trees |
| IsolationForest.ShorterPathsScoreHigher | internal/ml/ml.go:138-152 | A query scores higher than another if and only if its total path is shorter |
| IsolationForest.ForestPathsAreBounded | internal/ml/ml.go:125-152 | In no tree of a forest does a query travel beyond the depth limit |
| ForestFeatures.ForestIgnoresAmountIff | internal/ml/ml.go:125-136 | With seed 42 no split is on the amount if and only if every split comes after an even number of constant columns, and then queries at one hour get one total path whatever their amounts |
| ForestFeatures.DistinctRowsWasteNothing | internal/ml/ml.go:154-194 | Rows with pairwise different values of the selected feature never meet a constant column |
| ForestFeatures.DistinctHoursHideAmounts | internal/ml/ml.go:125-136 | Trained on pairwise different hours, the forest scores every amount alike at a given hour |
| RateLimit.RateLimiter.constructor | internal/middleware/ratelimit.go:92-95 | A new bucket is full |
| RateLimit.RateLimiter.Allow | internal/middleware/ratelimit.go:71 | Refills up to the burst, then takes one token if there is one |
| RateLimit.RateLimiterStore.constructor | internal/middleware/ratelimit.go:56-63 | Starts without buckets |
| RateLimit.RateLimiterStore.Get | internal/middleware/ratelimit.go:85-102 | Finds or creates the bucket of one IP and marks it seen; no other bucket changes |
| RateLimit.RateLimiterStore.Serve | internal/middleware/ratelimit.go:68-80 | Decision and new buckets of one request |
| RateLimit.RateLimiterStore.Handle | internal/middleware/ratelimit.go:56-80 | A limit that is not positive lets everything through and keeps no buckets |
| RateLimit.RateLimiterStore.EvictIdle | internal/middleware/ratelimit.go:108-122 | Removes exactly the buckets idle longer than five minutes |
| RateLimit.IdleTimeAllowed | internal/middleware/ratelimit.go:47-49 | A bucket idle for exactly five minutes stays as it is, a longer idle one goes |
| RateLimit.SimilarStep | internal/middleware/ratelimit.go:68-122 | Every event keeps the two limiters equal but for buckets idle for a second, which are full |
| RateLimit.EvictionIsUnobservable | internal/middleware/ratelimit.go:104-122 | On every timed trace the evicting limiter gives the answers of one that never forgets |
| RateLimit.EvictionUnobservableIff | internal/middleware/ratelimit.go:47-49 | For each rate, that holds of an idle cutoff if and only if it is at least one second |
| RateLimit.WindowBound | internal/middleware/ratelimit.go:1-12 | In any window of length T at most rate + rate * T requests of one IP pass the evicting limiter |
| RateLimit.RetryAfterOneSecond | internal/middleware/ratelimit.go:71-78 | After any history, the next request of an IP a second or more later is let through |
| RateLimit.BurstSpendsTokens | internal/middleware/ratelimit.go:71 | Of simultaneous requests exactly the first floor(tokens) pass |
| RateLimit.RefillPaysFor | internal/middleware/ratelimit.go:92-95 | Of simultaneous requests those pass that the tokens left and rate per second since pay for, up to the burst |
| RateLimit.FreshBurst | internal/middleware/ratelimit.go:92-95 | For a new IP these are the first floor(rate) |
| RateLimitRaces.AloneIsServe | internal/middleware/ratelimit.go:68-102 | Uninterrupted, the separate steps of a request (load, touch or store, take) answer and leave the buckets as the atomic request does |
| RateLimitRaces.InvStep | internal/middleware/ratelimit.go:85-122 | Every step of a request or of the walk keeps: one live bucket per IP, a deleted bucket stood for the idle time less a delay, who holds it read the clock before its deletion, and buckets of one IP follow each other |
| RateLimitRaces.BucketBound | internal/middleware/ratelimit.go:71 | In every interleaving one bucket lets at most rate + rate * T requests through in a window of length T |
| RateLimitRaces.RacyWindowBound | internal/middleware/ratelimit.go:1-12 | In every interleaving in which no request takes longer than a delay d, a window of length T up to the idle time less 2d lets at most 2 * rate + rate * (T + d) requests of one IP through |
| RateLimitExtremes.TwoBurstsPass | internal/middleware/ratelimit.go:114-118 | Without any delay, 2 * rate requests of one IP can pass at one instant, so the further burst of the bound is reached |
| RateLimitExtremes.SlowRequestsPass | internal/middleware/ratelimit.go:68-102 | If requests may be held up n times as long as the idle time and a second, n requests of one IP can pass at one instant, whatever the rate |
| Backends.UserKeyInjective | internal/storage/redis.go:62 | Different users never share a list |
| Backends.RedisStore.constructor | internal/storage/redis.go:55 | A fresh instance has no lists |
| Backends.RedisStore.Push | internal/storage/redis.go:72-75 | Push and trim leave the last hundred of old plus new in that user's list |
| Backends.RedisStore.GetUserHistory | internal/storage/redis.go:106-123 | Decodes the whole list in order, and fails exactly when some payload does not decode |
| Backends.RedisHoldsSuffix | internal/storage/redis.go:66-102 | After any run the list encodes the last hundred entries of the user's log |
| Backends.ReverseInPlace | internal/storage/postgres.go:167-170 | Swapping inwards reverses the slice |
| Backends.PostgresStore.constructor | internal/storage/postgres.go:60-74 | A fresh table is empty |
| Backends.PostgresStore.Add | internal/storage/postgres.go:96-138 | Fails without effect exactly on a key conflict; otherwise inserts and deletes the user's rows the subquery did not return |
| Backends.PostgresStore.Seed | internal/storage/postgres.go:141-146 | Inserts unless the key exists, and never trims |
| Backends.PostgresStore.GetUserHistory | internal/storage/postgres.go:150-172 | The engine's answer reversed |
| Backends.SomeAnswer | internal/storage/postgres.go:150-153 | Every table has an answer to the history query |
| Backends.SomeAnswers | internal/storage/postgres.go:131-135 | So every run has answers for its trimming subqueries, and the results about them are not empty |
| Backends.AnswerIsReversedTail | internal/storage/postgres.go:150-172 | Every answer the engine may give is the last hundred of the log, newest first |
| Backends.PostgresHoldsTail | internal/storage/postgres.go:96-146 | After every run the table holds only logged rows of the user and all of the last hundred |
| Backends.BackendsAgree | internal/storage/interface.go:50-53 | After one run with distinct IDs and increasing timestamps all three backends answer the last hundred entries, oldest first |

## Left out

- HTTP routing, JSON binding, authentication, Kafka transport, notifiers, metrics and tracing: input and output without an algorithm of their own; step 9 of `Process` (the webhook) is part of that.
- Floating-point rounding and infinities: `real` arithmetic; not-a-number enters only through the sample deviation of one value and through zero over zero in `Fit`, and amounts, weights of rules and distances are real numbers.
- Ensemble.Score: leaves out the aggregated reasons, and takes the abstention log-odds as exactly ln(1/9), of which the program's constant is a decimal approximation; `ln` and `exp` are parameters known by their laws, and so are `exp`, `exp2` and the square root elsewhere, with only the laws named in the contracts.
- Statistics.StdDev: gonum is not part of the repository; mean, n - 1 deviation and linear-interpolation quantiles are written out from their definitions.
- RateLimit.RateLimiter.Allow: golang.org/x/time/rate is not part of the repository; a bucket of `rate` tokens refilled at `rate` per second stands for it, with time as a real parameter.
- RateLimit.RateLimiterStore.Serve: looking up the bucket, marking it seen and taking a token are one step here; `RateLimitRaces` models them as separate steps, with every interleaving.
- RateLimit.RateLimiterStore.EvictIdle: the walk is one step here; `RateLimitRaces` separates the comparison of each entry from its deletion.
- RateLimitRaces.RacyWindowBound: taking a token, which `rate.Limiter` does under its own lock, is one step that reads the clock itself; a time read before that lock is not modelled.
- Cases.Manager.Resolve: hooks run in goroutines; the model logs which hook fires for which case and not what a hook does, and leaves out note ID, note time and updated time.
- Cases.Manager.Assign: leaves out the updated time of the case.
- Cases.Manager.AddNote: leaves out note ID, note time and the updated time of the case.
- Cases.Manager.Create: reasons, detector names and the created and updated times of a case are left out; a case carries its transaction whole, of which the program copies all but time and device.
- Cases `Get` and `List` are plain reads; `Training.Retrain` receives the listed cases in any order.
- Pipeline.Pipeline.Process: the ensemble is a function of the store, the transaction and the walk the call happens to take over Go's maps; store, rules, calibrator and case manager are all present; a nil one skips its step. A failing `Add` cannot happen with the in-memory store and is not modelled.
- Concurrency.SoloIsProcess: rules and scorer are arbitrary in each scoring step, so a reload or a retrain between two steps needs no step of its own.
- Severity strings other than the four and the empty one, which nothing in the service produces.
- Rules.Engine.Reload: what makes a file unreadable is a parameter; case folding and substring search are parameters, also for merchants.
- Signals.GeoScore: the country table and the great-circle formula are a parameter; its results hold for every distance function.
- Signals.MerchantScore: `RegisterMerchant` is left out because the firing ranges rest on the static registry.
- Behavioral.Score: weekday and hour are computed from nanoseconds since Go's zero time in UTC.
- Backends.PostgresStore.Add: the counter updates of the same database transaction are left out.
- Backends.RedisStore.Push: connection, marshalling errors and the counters are left out, as are the stats reads of both databases; JSON is an encode/decode pair that round-trips.
- Backends.BackendsAgree: needs distinct IDs and strictly increasing timestamps per user; the TIMESTAMPTZ column keeps microseconds, so the result is about timestamps of whole microseconds; with equal timestamps Postgres may order and trim differently, and with a repeated ID it refuses the row.
- Neither database keeps the set of seen IDs in the modelled operations, so the identity results are about the in-memory store.
- Evaluation.Evaluate: the generated dataset is sorted before it arrives; `NoLeakage` speaks of positions and needs no timestamps. `main.go` later reuses the filled store, which is outside `Evaluate`.
- Stats and user counts of the store are plain reads of the counters.
- Configuration parsing, `buildCalibrationPairs`, synthetic data generation, reason strings, latency fields and wall-clock times.
