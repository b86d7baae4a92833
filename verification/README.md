# A verified model of the measurement loop

The repository measures whether a change to an agent harness is better than the baseline it started from.
This project models the stateful parts of that loop in Dafny and proves what they are for: that a replayed
episode is worth a live one, that the promotion criterion decides what it says it decides, that a training
session never loses a solved task, that requests are fitted and retried within bounds, and that the
schedulers, the limiter, the certificates and the frozen network keep their books.

`dafny verify dfyconfig.toml` checks the whole project. It was written for Dafny 4.11.

## How the project is laid out

| files | what they model |
|---|---|
| `EnvSteps`, `ReplayProtocol`, `ReplayProofs`, `ReplaySystem`, `ReplayQuarantine`, `ReplayDrift`, `ReplayMixing`, `ReplayEpisode`, `ReplayCache`, `ChainKeys` | the replay step cache: one attempt as a transducer, any number of them interleaved over one store, the episodes that run over it, and the class whose every access is a move of that system |
| `Records`, `Metrics`, `Criterion`, `PromotionOrder` | the promotion criterion, its metrics, and the relation it induces on runs |
| `CandidateCapture`, `TrainingSession` | capturing a candidate, the optimizer, the run store and the epoch loop |
| `ContextWindow`, `AgentTurn` | request fitting, calibration, and one turn of the agent |
| `Telemetry`, `EpisodeLoop`, `RetryEnvelope`, `TraceDedup` | one rollout: counters and labels, the episode, its retries, the trace on disk |
| `Overlap`, `Limiter` | overlapping runs and task admission |
| `Certification`, `NetFreeze` | certificates across epochs, and first-write-wins network responses |

A method that changes state is proved against functions of the old state; the theorems are lemmas about those
functions, or about every run of a state machine. Whatever the program does not decide itself -- the
environment, the model, the policy, the proposer, other processes, cancellation, time -- is arbitrary: a
nondeterministic choice inside a method, a relation, or a function parameter.

Results worth knowing before reading the code:

- **A replayed episode is the live one.** On a deterministic environment, whatever the schedule and the store do, an
  attempt driven by a policy that decides by what it has seen takes the actions and sees the observations of the
  live episode (`ReplayEpisode.ReplayedEpisodeIsTheLiveOne`) and is recorded as that is
  (`ReplayEpisode.ReplayedRecordIsTheLiveOne`).
- **Drift on a deterministic environment.** The replay cache compares a recorded result scrubbed once with a
  live one scrubbed twice. `ReplayDrift.DriftIffUnstable` gives the exact condition: some interleaving drifts
  if and only if some recordable observation changes its audit identity under a second scrub.
- **Promotion is asymmetric but can go round in a circle** (`PromotionOrder.JudgedCircle`), because the scope
  of a metric depends on both runs. `PromotionOrder.TransitiveIff` gives the exact condition: with the shipped
  metrics it is transitive over published runs if and only if any two of the sets of tasks they are scorable
  on are equal or disjoint.
- **A served episode is true step by step, and as a whole only on some environments.** Every served result is
  one the environment gave for its chain (`ReplaySystem.ReplayRefinesLive`). With the environment given by its
  runs, `ReplayMixing.ServesRunsIff` gives the exact condition: whatever is served is itself a run if and only
  if steps taken from recordable runs of one chain always make up a run. `ReplayMixing.ServedNoRun` is the
  input that fails.
- **A passing verify is not always a solved rollout**: if the policy raises while it observes the verdict, the
  rollout is a crash (`EpisodeLoop.ObservingCrashLosesTheSolve`, `EpisodeLoop.SolvedIff`).
- **"Exact solved-set tie".** The comment at src/trainer/loss.py:218 describes the last branch of the
  comparison as a tie. It is also reached when the only lost tasks were untrusted
  (`PromotionOrder.TieBranchWithoutTie`); `Criterion.FinalReportAgrees` shows why no wrong selection follows.
- **`active.remove` compares by value.** `Overlap.RemovalIff` says exactly when it removes the right set, and
  `Overlap.RunOverlapping` when it does not: two tails clash exactly when a run leaves unreported just the tasks
  that an enclosing run has open. Then the outer run's set goes (`Overlap.ClashRemovesTheOuter`), and its own
  removal may be a `ValueError` (`Overlap.FinishedOuterIsNotFound`); but no clash keeps a run from being launched.
- **A missing chain file passes for an empty chain** when certificates are inherited
  (`Certification.MissingChainScenario`); `Certification.MissingChainIff` says exactly when.
- **Network-cache keys.** Two scopes can share a key if and only if one of them is the other followed by a NUL
  and what reads as a GET or POST and its URL (`NetFreeze.ScopesShareIff`).

Assumptions: JSON is lossless on the actions of the keys at hand and SHA-256 does not collide on the texts hashed for
them (stated as hypotheses, or built into the representation of a key or hash); the JSON of a scope determines it;
git histories are trees of commits; sleeps last at least as long as asked; real numbers stand for floats.

## Model

| member | source | states |
|---|---|---|
| ReplayProofs.NextKeepsInv | src/plugins/replay/step_cache.py:86-201 | every reply an attempt can get keeps its invariant: what was served, what the env executed and how they agree |
| EnvSteps.HashesCompare | src/rollout/certification.py:64-79 | two audit hashes are equal if and only if both streams are canonically equal, the live one scrubbed once more, and the results agree in every other field |
| ReplayProtocol.NotRecordedIff | src/plugins/replay/step_cache.py:217-230 | a run step is not recorded if and only if it starts a background process, was cut off by its command timeout, or came within a fifth of its timeout or, above fifty seconds, within ten seconds |
| ReplayProofs.NewActionRunsInChainState | src/plugins/replay/step_cache.py:86-102 | for any env and any store replies: when a new action runs live, the env has executed exactly the earlier actions, in order, once each, and every served result was reproduced: both streams canonically equal, the live one scrubbed once more, and every other field the same |
| ReplayProofs.ServingNeverTouchesTheEnv | src/plugins/replay/step_cache.py:131-147 | before the first live action nothing reaches the env |
| ReplayProofs.DriftNamesFirstMismatch | src/plugins/replay/step_cache.py:174-201 | a drift error names the first action whose re-execution does not show what was served; the env has executed exactly the actions up to it, and reproduced those before |
| ReplaySystem.ReplayRefinesLive | src/rollout/execution.py:60-76 | under any interleaving, with missed reads and dropped writes, every stored row is a true result of its chain and each delivered result is one the live executor could have returned for its action prefix |
| ReplaySystem.ReplayEqualsLive | src/plugins/replay/step_cache.py:86-172 | on an env that is deterministic modulo the scrub, an episode sees the same observations from replay as from live execution |
| ReplayMixing.ServesRunsIff | src/plugins/replay/step_cache.py:86-172 | with the environment given by its runs, under every schedule and with a store that is reliable or not: whatever an attempt is served is a run if and only if, for each chain, the k-th steps of recordable runs of its first k actions again make up a run |
| ReplayMixing.ServesMixture | src/plugins/caching/store.py:98-109 | any such mixture is served: as many attempts as there are steps miss together, each records the row that its own run is the first to reach, and one more attempt is served them all |
| ReplayMixing.EveryRowEndsARun | src/plugins/replay/step_cache.py:149-172 | under every schedule the env of each attempt is in one of its runs, and each row is the last result of a recordable run of its chain |
| ReplayMixing.ServedNoRun | src/plugins/caching/store.py:98-109 | the failing input: an environment that settles everything once, and a reachable attempt that is served heads and then tails |
| ReplayQuarantine.StepGrows | src/plugins/caching/store.py:98-109 | rows only appear; no step replaces or removes one |
| ReplayQuarantine.RecordedChainsArePrefixClosed | src/plugins/replay/step_cache.py:114-172 | with a reliable store recorded chains stay prefix-closed, a drift has blocked the key of its first mismatch, and the recorded result it quotes is still there |
| ReplayQuarantine.DroppedWriteBreaksClosure | src/plugins/caching/store.py:164-172 | with a dropped write a chain is on record whose prefix is not: prefix closure needs the reliable store |
| ReplayQuarantine.BlockedChainIsQuarantined | src/plugins/replay/step_cache.py:131-155 | once a chain is blocked, no attempt started later is served it or an extension of it, or records one |
| ReplayQuarantine.EndedIsFinal | src/plugins/replay/step_cache.py:186-200 | an attempt that has ended takes no further event: the rest of the schedule leaves it, its outputs and its env log as they are |
| ReplayDrift.StableNeverDrifts | src/plugins/replay/step_cache.py:181-188 | on a deterministic env a drift implies a recordable observation that a second scrub changes |
| ReplayDrift.UnstableDrifts | src/plugins/replay/step_cache.py:94-102 | such an observation makes some schedule drift, even on a reliable store |
| ReplayDrift.DriftIffUnstable | src/plugins/replay/step_cache.py:174-201 | the exact condition for drift on a deterministic env, both directions |
| ReplayEpisode.DrivenIsEpisode | src/rollout/episode.py:248-341 | on an env that is deterministic modulo the scrub, results the env may return for actions that a policy asks for by what it has seen are the beginning of one fixed episode |
| ReplayEpisode.OneEpisode | src/rollout/execution.py:60-76 | two complete episodes of one policy and scope have the same actions and the same observations |
| ReplayEpisode.ScheduleDriftsNot | src/plugins/replay/step_cache.py:174-201 | if every recordable observation is audit-stable, no attempt of any schedule is ever in any state of a drift |
| ReplayEpisode.ReplayedEpisodeIsTheLiveOne | src/rollout/execution.py:60-76 | under any interleaving, with missed reads and dropped writes: an attempt is a beginning of its policy's one episode; a complete one has exactly the actions and observations of the complete live episode; without an unstable recordable observation none drifts |
| ReplayEpisode.ReplayedRecordIsTheLiveOne | src/rollout/episode.py:419-505 | if the last step ended both the replayed and the live episode, their rollouts' results are equal |
| ChainKeys.DigestDeterminesChain | src/plugins/replay/step_cache.py:125-129 | equal digests mean equal scope and equal action list, for chains of any two lengths, if JSON is lossless on the actions of the two and the hash does not collide on the texts hashed for them |
| ChainKeys.KeyTextsAreFaithful | src/plugins/replay/step_cache.py:213-214 | under the same two conditions on the two keys at hand: result keys and live-only keys determine scope and chain, and never coincide |
| ReplayCaches.CacheStore.PutEntry | src/plugins/caching/store.py:98-109 | insert-or-ignore over whatever other attempts have written meanwhile: nothing else changes, a present row stays, an absent one becomes the value or, unless the store is reliable, is dropped; the write is the one the attempt has pending |
| ReplayCaches.CacheStore.PutBlocked | src/plugins/replay/step_cache.py:186-187 | the key of the mismatch, and only it, becomes live-only, or the write is dropped |
| ReplayCaches.CacheStore.Interfere | src/plugins/caching/store.py:87-109 | what other attempts do at an await is any number of their own protocol moves: rows only appear and this attempt is untouched |
| ReplayCaches.ReplayCache.Advance | src/plugins/replay/step_cache.py:125-129 | the chain grows by the action and the key is the chain's |
| ReplayCaches.ReplayCache.ServeReplay | src/plugins/replay/step_cache.py:131-140 | a served result is in the store under this key when the call returns; recording stops only for a key that is in the live-only rows; with a reliable store a miss means the key is blocked or has no row |
| ReplayCaches.ReplayCache.CatchUpOne | src/plugins/replay/step_cache.py:181-200 | one re-execution of the catch-up: the env has run the action; the catch-up goes on if and only if the result reproduces what was served -- both streams canonically equal, the live one scrubbed once more, and every other field the same; another failure than the env's names exactly this action and, with a reliable store, has left its key live-only |
| ReplayCaches.ReplayCache.Materialize | src/plugins/replay/step_cache.py:174-201 | the catch-up either ends with the whole prefix re-executed and nothing left to replay, or with the protocol's ending for its error |
| ReplayCaches.ReplayCache.GoLive | src/plugins/replay/step_cache.py:142-147 | idempotent; the first call catches up |
| ReplayCaches.ReplayCache.RecordRun | src/plugins/replay/step_cache.py:149-172 | recording goes on exactly if it was on and the step is not to be skipped; then the row of this key is this result unless there was one (or the write is dropped), and otherwise the store is untouched |
| ReplayCaches.ReplayCache.StepRun | src/plugins/replay/step_cache.py:86-102 | a run action returns the last output of the attempt for exactly this action; while serving, that output is the row of the chain in the store; an error is the protocol's ending |
| ReplayCaches.ReplayCache.PrepareSubmit | src/plugins/replay/step_cache.py:104-112 | a served verdict is the row of the chain in the store and ends the attempt; otherwise the env is at chain state for the live verdict |
| ReplayCaches.ReplayCache.StepVerify | src/plugins/replay/step_cache.py:114-123 | the live verdict is the attempt's last output and, on a recordable chain, the row of its key unless there was one (or the write is dropped); its two misuse errors change nothing |
| ReplayCaches.SubmittedEpisode | src/plugins/replay/step_cache.py:104-123 | an episode that submitted holds one output per action; if it went live, its env executed exactly its chain and agrees with every output |
| ReplayCaches.StoreKeepsItsPromises | src/plugins/replay/step_cache.py:86-201 | at any point of any program over these objects: rows and delivered results are results of the env; with a reliable store chains are prefix-closed and every drift has blocked the key of its first mismatch and quotes its recording |
| Metrics.CountInvalid | src/rollout/metrics.py:80-98 | the loop computes total minus valid over the scope, missing if nothing is published, and fails on a half-published pair, whatever the order of tasks |
| Metrics.CountSteps | src/rollout/metrics.py:111-122 | the loop sums the steps over the scope, or finds the metric unavailable |
| Metrics.CountProgress | src/env/swe.py:189-200 | the loop sums tests newly passing minus tests newly failing over contested tasks, what is not published counting as none |
| Metrics.ShippedMetricsAreSymmetric | src/env/swe.py:174-187 | every shipped metric reads both runs over one scope: exchanging the runs exchanges the readings |
| Metrics.ScopesIff | src/rollout/metrics.py:68-78 | each metric compares exactly the tasks that infrastructure broke in neither run, of those the unsolved or the solved ones |
| Metrics.BrokenRolloutsDoNotCount | src/env/swe.py:174-187 | whatever a broken rollout published and however it broke, in either run, no shipped metric reads anything else |
| Metrics.CompareMeans | src/rollout/metrics.py:28-47 | a verdict is for the strictly better value in the metric's direction; malformed input fails, a missing value makes the metric unavailable |
| Criterion.DyadicIsLexicographic | src/trainer/loss.py:236-254 | the dyadic sum has the sign of the first decisive verdict |
| Criterion.WinsTieIff | src/trainer/loss.py:221-254 | the candidate wins a tie if and only if some metric favours it and all before it are tied or unavailable |
| Criterion.StrictPareto.CompareRuns | src/trainer/loss.py:209-234 | the reason of a comparison in each of its cases, with the verdicts consulted |
| Criterion.StrictPareto.Consult | src/trainer/loss.py:221-234 | metrics are consulted in order up to the first decisive one, which decides |
| Criterion.StrictPareto.LossOf | src/trainer/loss.py:236-254 | infinite exactly on a regression; otherwise the count difference or the sign of the tie-break |
| Criterion.StrictPareto.Resolve | src/trainer/loss.py:143-172 | the loss under one resolution is negative exactly when that resolution selects |
| Criterion.ExtremesBracket | src/trainer/loss.py:143-195 | the two extreme resolutions bracket every other one |
| Criterion.SettlingIsGrading | src/rollout/records.py:35-38 | the resolutions are exactly the ways of grading, after all, the rollouts that crashed, were unscorable or timed out in their verify: one selects if and only if, with that grading, no task the baseline solved is lost and one is gained or the tie-break favours the candidate |
| Criterion.FinalReportAgrees | src/trainer/loss.py:110-122 | leaving untrusted regressions out of the report never turns a rejection into a selection |
| Criterion.StrictPareto.FinalLoss | src/trainer/loss.py:172-195 | the reported loss is negative exactly when the solved tasks select |
| Criterion.StrictPareto.Judge | src/trainer/loss.py:137-195 | a ValueError exactly when a metric rejects its input in a tie of the baseline with one of the two extreme resolutions; else unmeasurable exactly when the extremes (and so some two resolutions) select differently; else the sign is the verdict under every resolution, and negative means a proper superset or an equal set with a favourable first decisive metric; in terms of rollouts: a judged loss is negative if the candidate improves on the baseline however its crashed, unscorable and verify-timed-out rollouts would be graded, non-negative if it improves under no grading, and the run is unmeasurable only if that depends on the grading |
| Criterion.StrictPareto.Bracket | src/trainer/loss.py:143-170 | stops exactly for a rejected metric input or for extremes that select differently |
| PromotionOrder.SwappedTieBreak | src/rollout/metrics.py:28-47 | exchanging the runs flips the first decisive verdict and keeps its position |
| PromotionOrder.JudgeDecidesBeats | src/trainer/loss.py:137-195 | on a common panel, with or without untrusted tasks: the loss is negative exactly when the candidate beats the baseline and no metric rejects its input |
| PromotionOrder.BeatsUnderBothExtremes | src/trainer/loss.py:143-170 | a run that beats the baseline is selected under every settlement of its untrusted tasks |
| PromotionOrder.PromotionIsAsymmetric | src/trainer/loss.py:209-254 | if one run is selected over another, the other is never selected over it |
| PromotionOrder.JudgedCircle | src/rollout/metrics.py:69-98 | for any two different overlapping sets of scorable tasks: three runs of one panel scorable on them, and the judgements of the criterion with the shipped metrics on them, each of which selects its candidate over the next run |
| PromotionOrder.TieBreakByScores | src/env/swe.py:169-200 | between runs scorable on the same tasks the tie-break is the lexicographic order of three scores |
| PromotionOrder.TransitiveIff | src/trainer/loss.py:209-254 | over published runs scorable on the sets of a family, promotion is transitive if and only if any two of the sets are equal or disjoint |
| PromotionOrder.CircleOf | src/env/swe.py:189-200 | two different overlapping scorable sets admit a circle of three, with no metric rejecting its input |
| PromotionOrder.NoTieBreakWithoutScope | src/rollout/metrics.py:69-98 | runs without a common scorable task never win a tie |
| PromotionOrder.ShippedFailureIff | src/rollout/metrics.py:80-98 | the shipped metrics reject a pair of runs if and only if the tie-break is reached, progress is equal, and some task scored in both publishes one attempt count without the other |
| PromotionOrder.UnpublishedCircle | src/rollout/metrics.py:83-98 | a circle of runs with one scorable set, one of which does not publish its attempts: publishing is needed |
| PromotionOrder.TieBranchWithoutTie | src/trainer/loss.py:218-234 | a run pair that reaches the tie branch with different solved sets, and is rejected |
| CandidateCapture.Worktree.Capture | src/trainer/parameter.py:89-104 | the captured commit is a direct child of the base, pinned; path by path its tree has what a hidden path had in the index and what the worktree has of the others, except paths that are ignored and unknown to the index; refused exactly when that is the base's tree |
| CandidateCapture.Validate | src/trainer/parameter.py:107-139 | accepted exactly when a direct child changes the surface and leaves every path outside the patch paths as it was, in content or absence; a refusal names exactly the paths that it did not |
| CandidateCapture.ProposeAndCapture | src/trainer/parameter.py:89-139 | whatever the proposer did to worktree, index and history, a captured candidate is a direct child, and is accepted exactly on what was staged |
| TrainingSession.Parameter.MergeFfOnly | src/trainer/optim.py:14-30 | a fast-forward succeeds exactly between ancestor and descendant, and moves HEAD only forward |
| TrainingSession.Optimizer.Step | src/trainer/optim.py:14-38 | without a verdict it raises; otherwise HEAD and `applied` are the candidate exactly when the rule promotes |
| TrainingSession.NewestIsLast | src/rollout/store.py:132-145 | the lookup finds the last matching row of the index |
| TrainingSession.RunStore.LatestCompletedBaseline | src/rollout/store.py:132-145 | a completed, uncrashed baseline run of this commit and this identity, the newest on the index; none only if no row has all four |
| TrainingSession.RunStore.RecordFinalizedRun | src/rollout/store.py:147-190 | one record rewritten and one row appended; lookups change only for the recorded baseline |
| TrainingSession.Trainer.LoopBody | src/trainer/loss.py:43-59 | for any repetition of backward and step from a cleared state: what grad, applied and HEAD are afterwards, and when it raises |
| TrainingSession.Trainer.Conclude | src/trainer/trainer.py:344-396 | records nothing unless both calls were made; otherwise "promoted" exactly when the candidate was applied, and nothing stays pending |
| TrainingSession.Trainer.MeasureAndJudge | src/trainer/trainer.py:277-330 | two attempts; they give no loss and no error only if each failed or its run cannot be decided, and an error of the criterion only for a run a metric rejects; a wrong-run error comes only from a run of the wrong commit or panel; a loss comes with a decidable run of the right commit and panel, negative exactly when it beats the baseline; it is always the first attempt that is not to be retried that settles the epoch |
| TrainingSession.Trainer.RunEpoch | src/trainer/trainer.py:231-342 | whatever an abandoned epoch has left pending: one epoch is sound, it skips only for its proposal or because no attempt gave a decidable run; it aborts only if the first attempt that is not to be retried is of the wrong commit or panel or rejected by a metric; otherwise there is a verdict, and its ending is fixed by the calls the loop body makes, whether it leaves the loop, and the diagnosis; a concluded epoch leaves nothing pending |
| TrainingSession.Trainer.LoadBaseline | src/trainer/trainer.py:136-150 | a completed baseline of HEAD and of the panel's identity: the one on record, or else the measurement; none exactly when nothing is on record and the measurement failed or is of another panel or commit |
| TrainingSession.Trainer.Epochs | src/trainer/trainer.py:121-185 | the whole session is sound, every baseline a run of its epoch's HEAD, and each epoch is the one its script calls for, also on a trainer reused after an abandoned epoch; each promoted run is the next epoch's baseline, and no epoch starts after two consecutive skips; the scripts account for its ending: it stops early only after two skips, after a diagnosis that raised, or at an epoch whose script makes it fail, at the HEAD and baseline the trace leads to |
| TrainingSession.Trainer.GreedyPromotesIff | src/trainer/optim.py:26-38 | in every greedy session an epoch that concludes promotes if and only if its run beats the baseline; then HEAD is the run's commit and the run the next baseline |
| TrainingSession.SolvedTasksNeverShrink | src/trainer/trainer.py:136-184 | over a greedy session no task once solved by a baseline is lost |
| TrainingSession.HeadOnlyDescends | src/trainer/optim.py:14-30 | HEAD only moves to descendants of every earlier HEAD |
| ContextWindow.Window.Fit | src/policy/core.py:655-693 | in tokens of the request: without any fewer groups, head, turn messages and kept groups would exceed the budget; with those kept they fit it, unless trimming stopped at the floor; the note for the dropped ones precedes the kept, in order |
| ContextWindow.EveryTextCounts | src/policy/core.py:633-644 | the estimate of a message counts its content and the arguments and name of each call: a quarter of all their characters and eight, or the tokens of each and sixteen |
| ContextWindow.EstimateParts | src/policy/core.py:646-653 | a request's estimate is that of its tools and of each of its messages, wherever they stand |
| ContextWindow.FitStartIsLongest | src/policy/core.py:682-686 | the kept suffix is the longest that fits, or everything from the floor on |
| ContextWindow.HigherCalibrationDropsMore | src/policy/core.py:671-686 | a higher calibration never drops fewer groups, whatever the sign of the budget |
| ContextWindow.Window.CalibrateFromUsage | src/policy/core.py:695-702 | calibration follows reported usage, up and down, within [1, 4] |
| ContextWindow.Window.ShrinkForOverflow | src/policy/core.py:704-718 | tightens strictly, to 1.05 times the reported density or blindly by 1.3 but at most to 4, or reports that it cannot because it is there already |
| ContextWindow.OneOverflowIsEnough | src/policy/core.py:655-718 | a request fitted at the server's density with its margin, or at any tighter calibration, is accepted, unless trimming stopped at the floor or the note exceeds the margin |
| AgentTurn.NewestStepIsKept | src/policy/core.py:509-566 | no fit drops the newest executed step, or every step of a non-empty trajectory |
| AgentTurn.LlmAgent.Assemble | src/policy/core.py:537-566 | one group per step, and the floor at the newest executed step |
| AgentTurn.UsableIff | src/policy/core.py:752-765 | an answer is acted on if and only if it makes a call and every call is of an offered tool with valid arguments; then there is one action per call, in order |
| AgentTurn.RequestShape | src/policy/core.py:366-417 | what is sent: the head, a note for what is left out, the longest suffix of the steps that fits, in order, and the turn's own messages |
| AgentTurn.LlmAgent.CompleteFitted | src/policy/core.py:366-417 | at most four requests, each the fit at its calibration, calibrations strictly rising by the tightening in between; an overflow escapes only when retrims or tightening are used up |
| AgentTurn.OverflowsAtMostOnce | src/policy/core.py:382-417 | against a server with an exact density a fitted completion makes at most two requests, the second at the learnt density with its margin, and passes an overflow on only at the floor or with too big a note |
| AgentTurn.LlmAgent.Digest | src/policy/core.py:317-340 | what becomes of a completion in each case, with the cutoff counter and the thinking switch |
| AgentTurn.LlmAgent.Act | src/policy/core.py:283-349 | at most 4 * (maxOutputRetries + 1) requests; each attempt answers the one before, which could not be acted on and called for a repair; the turn acts if and only if its last answer makes calls that are all offered and valid, and then on each of them, in order; otherwise it leaves one failed step that counts its attempts and quotes the last error, or leaves the trajectory alone |
| AgentTurn.OffForGood | src/policy/core.py:286-288 | once a request was sent with thinking off, every later one of the rollout is |
| AgentTurn.LlmAgent.Observe | src/policy/core.py:253-263 | only steps that do not end the episode are remembered |
| Telemetry.LabelsIncrease | src/rollout/telemetry.py:96-134 | completion labels strictly increase lexicographically, wherever in the episode they arise |
| Telemetry.CountsBounded | src/rollout/telemetry.py:77-85 | valid first attempts, all first attempts and steps are in this order |
| Telemetry.RolloutTelemetry.OnCall | src/rollout/telemetry.py:96-134 | a completion or a rejected call takes the next ordinal of the step after the last |
| Telemetry.RolloutTelemetry.OnEmptyTurn | src/rollout/telemetry.py:136-139 | concludes a decision without actions |
| Telemetry.RolloutTelemetry.OnStep | src/rollout/telemetry.py:141-158 | the first step of a batch concludes its decision; every counter stays the count of the trace |
| EpisodeLoop.RunBatch | src/rollout/episode.py:230-321 | executes the requests, rendered, in order, until the batch, the step budget or the episode ends |
| EpisodeLoop.ObserveBatch | src/rollout/episode.py:326-336 | one trace row per executed step, consecutive, before the policy observes it |
| EpisodeLoop.TakeTurn | src/rollout/episode.py:240-336 | a batch is executed before any of it is observed, and the trace tells of exactly the chain |
| EpisodeLoop.Turn | src/rollout/episode.py:230-346 | what a turn comes to is fixed by its batch and by what was raised while it was executed or observed |
| EpisodeLoop.RunTaskLoop | src/rollout/episode.py:171-353 | terminates; steps taken are chain length plus empty turns, within the cap; only the last step ends the episode, and a verify always does; the outcome is the one the chain calls for; only drifts and defects escape; the executor is never misused and its completed calls are the chain |
| EpisodeLoop.VerifyOnlyLast | src/rollout/episode.py:248-321 | in every chain the loop builds, a verify or timed-out step occurs at most once and only last |
| EpisodeLoop.NoCallAfterFailure | src/rollout/episode.py:248-341 | the executor is not called again after a call that raised or was cut off, nor after a verdict, and is asked for a live verdict exactly when it has just announced one |
| EpisodeLoop.SolvedIff | src/rollout/episode.py:419-505 | solved exactly when cleanup succeeded, the loop returned a submit, and the last step is a verify, in time, with a passing verdict; crash exactly with an origin |
| EpisodeLoop.RecordedIff | src/rollout/episode.py:474-505 | the exact condition of each failure mode, of the reward and of a policy crash, in terms of the chain, how the loop ended and the cleanup; no record only for a verify without a verdict |
| EpisodeLoop.ObservingCrashLosesTheSolve | src/rollout/episode.py:326-336 | one batch that executes a passing verify: observed without trouble the rollout is solved, and if the policy raises while it observes it, the rollout is a crash of the policy |
| RetryEnvelope.RunAttempt | src/rollout/sampler.py:159-180 | only a replaying attempt can drift, and every result has an origin exactly when it is a crash |
| RetryEnvelope.RunWithRetries | src/rollout/sampler.py:146-283 | within three attempts, at most one drift and one slow-backend entry, each explained by its attempt; in the replay regime, where a task can be cached, every attempt replays up to the first drift and none after it; a slow-backend entry is for an attempt that hit its timeout while the model answered at least three calls slowly; the record is the last result, an environment crash after a drift being recorded as unscorable |
| TraceDedup.LosslessIff | src/rollout/telemetry.py:232-241 | a reader recovers every request if and only if no blob has a "sha" key and no two blobs share a digest |
| TraceDedup.OneFullEntryPerBlob | src/rollout/telemetry.py:216-241 | entry by entry: a blob is written in full exactly where it occurs first and as a reference everywhere else, and the first occurrences are as many as the distinct blobs |
| TraceDedup.EncodeAppend | src/rollout/telemetry.py:216-229 | two events are encoded one after the other as their concatenation is, also when one of them fails |
| TraceDedup.TraceWriter.Dedup | src/rollout/telemetry.py:232-241 | full at first sight, a reference afterwards, an error when a reference key is missing |
| TraceDedup.TraceWriter.Slim | src/rollout/telemetry.py:216-229 | an event is encoded in message order, then the tools, with the digests of earlier events |
| TraceDedup.TraceWriter.Append | src/rollout/telemetry.py:216-241 | event after event, the trace is the encoding of everything written so far, which is what LosslessIff speaks of |
| Overlap.OrderedIsPartition | scripts/evaluate.py:153-157 | the panel handed on is a permutation, and no conflicting task comes before one that is not |
| Overlap.OrderedIsStable | scripts/evaluate.py:153-157 | two tasks that both conflict, or both do not, stay in panel order |
| Overlap.ConflictsAreOpenTasks | scripts/evaluate.py:153-154 | conflicts are the unfinished tasks of the runs on the call stack |
| Overlap.RemovalIff | scripts/evaluate.py:193-194 | removing the ending run's set by value leaves the list standing for the remaining runs if and only if the set is empty or no enclosing run has an equal one |
| Overlap.ClashRemovesTheOuter | scripts/evaluate.py:193-194 | with two equal non-empty tails on the list the outer one is removed and the dead one stays |
| Overlap.FinishedOuterIsNotFound | scripts/evaluate.py:193-194 | an outer run that has finished is then not found: its removal is a ValueError |
| Overlap.TheyClash | scripts/evaluate.py:138-198 | two runs of one task, the inner failing without a report: neither raises, and they clash |
| Overlap.HeldOnStack | scripts/evaluate.py:147-175 | a set of tasks is a tail on the call stack, as `StackOf` gives its shape and `Ready` keeps it between two launches, if and only if it is what some launched run that nests had open when it launched the next |
| Overlap.FirstRaiseIsLaunched | scripts/evaluate.py:162-195 | if any run raises, one of the launched runs does |
| Overlap.LaunchesWhenIdle | scripts/evaluate.py:162-175 | a run launches the next one at its first report, the start or a finished task, after which fewer of its tasks are open than may run at once, and not before; a task that is not open ends it |
| Overlap.OpenUntilReported | scripts/evaluate.py:158-175 | a task of the panel is open until it is reported finished |
| Overlap.Launcher.Launch | scripts/evaluate.py:147-160 | the next run, its panel ordered by the tasks on the list, and its tail |
| Overlap.Launcher.Retire | scripts/evaluate.py:193-194 | the list keeps standing for the stack unless two tails clash; the removal cannot fail while the tail itself is on the list |
| Overlap.Launcher.TaskDone | scripts/evaluate.py:173-175 | a finished task leaves its run's tail and nothing else changes; an unknown task is an error |
| Overlap.Launcher.RunNext | scripts/evaluate.py:147-195 | runs launch in order, once each, never before the predecessor left room or ended, up to exactly the first that raises before it has launched the next; no clash changes that |
| Overlap.RunOverlapping | scripts/evaluate.py:138-198 | exactly the runs up to the first that raises without having launched the next are launched, each with a permutation of its panel; if none raises, two tails clash exactly when some run leaves unreported just the tasks an enclosing run has open; without a clash panels are ordered by what the enclosing runs have open, the list ends empty, and an exception escapes exactly when some run raises |
| Limiter.PermitsAreConserved | src/concurrency.py:21-49 | in every run, whatever is cancelled and whenever: free permits plus holders are the ceiling, and active tasks are counted and bounded |
| Limiter.AdmissionsPerWindow | src/concurrency.py:39-44 | any window holds at most floor(width / 5) + 1 admissions |
| Limiter.AdmittedPassedGate | src/concurrency.py:31-37 | in every run, a task is admitted only after it sampled the CPU below 85 percent or found nothing active |
| Limiter.CpuConcurrencyLimiter.Enter | src/concurrency.py:28-46 | the task is admitted, having come through the CPU gate with a reading that was taken, or holds nothing any more, while others interleave at every await |
| Limiter.CpuConcurrencyLimiter.SleepAndAdmit | src/concurrency.py:38-43 | admission comes no sooner than the interval after the one before |
| Limiter.CpuConcurrencyLimiter.GiveUp | src/concurrency.py:44-46 | an interrupted admission gives back permit and lock |
| Limiter.CpuConcurrencyLimiter.Exit | src/concurrency.py:47-49 | leaving gives back the permit |
| Certification.ReexecutionConfirms | src/rollout/certification.py:103-125 | a re-execution with the same result confirms a recorded row with any scrubber; a confirmed run row agrees with it up to the canonical form |
| Certification.ConfirmedIff | src/plugins/replay/audit.py:255-286 | a re-execution confirms a recorded run if and only if both streams are canonically equal after two scrubs on either side and every other field is the same; a verify, if reward and completed verdict are |
| Certification.Auditor.CompareAction | src/plugins/replay/audit.py:255-286 | one row is compared with what the environment returned, as its kind demands |
| Certification.Auditor.CheckTask | src/plugins/replay/audit.py:206-286 | deterministic means every row matched, forked means the first mismatch |
| Certification.Auditor.CertifyOne | src/plugins/replay/audit.py:172-201 | exactly no chain or a timed-out one is "no_chain"; any other verdict rests on an audit, and an empty chain passes it |
| Certification.Auditor.Inherit | src/plugins/replay/audit.py:53-74 | exactly the certificates with equal identity, equal chain digest and no timeout are taken over |
| Certification.Auditor.ExcludeNondeterministic | src/plugins/replay/audit.py:42-121 | certificates cover exactly the baseline's tasks and are sound, each inherited where it may be and settled by its own chain otherwise; certifying a certified baseline changes nothing and gives the same panel, unless that is empty; an uncertified one has no panel only if some task could neither be inherited nor settled before its audit was abandoned, or if its certificates exclude every task |
| Certification.DeterministicMeansAudited | src/plugins/replay/audit.py:53-88 | a deterministic certificate traces back to an audit under the same identity of exactly this run's actions, in which every row matched |
| Certification.Epochs | src/trainer/trainer.py:136-162 | over any sequence of baselines: every panel handed on is the deterministic part of a soundly certified baseline, the same whenever that baseline comes back, and first settled with the previous one to inherit from; no record changes; the session stops early only at a baseline whose tasks are all excluded or one of whose audits was abandoned |
| Certification.MissingChainIff | src/plugins/replay/audit.py:53-88 | a task without a chain file stays in the panel if and only if the previous baseline has the same identity and a deterministic certificate for it with the digest of no actions |
| Certification.MissingChainScenario | src/plugins/replay/audit.py:135-146 | the second run has no chain file, the first an empty one that passed its audit: however its certification settles, the task stays in the panel; without the first it is out |
| Certification.SelectJoins | src/plugins/replay/audit.py:91-97 | the panel is the baseline's tasks in order, without the excluded ones |
| NetFreeze.ScopesNeverShareKeys | src/env/netcache/mitm_https_cache.py:292-298 | equal keys mean equal scope, method and URL, if no scope or no method and URL contains a NUL |
| NetFreeze.SharedKey | src/env/netcache/mitm_https_cache.py:292-298 | with both, two scopes share a key |
| NetFreeze.ScopesShareIff | src/env/netcache/mitm_https_cache.py:292-298 | two scopes can share a key by a GET or POST if and only if one is the other followed by a NUL and what reads as a GET or POST and its URL |
| NetFreeze.HeadersOnlyForbid | src/env/netcache/mitm_https_cache.py:199-228 | response headers can forbid caching and never change the key |
| NetFreeze.CacheableIff | src/env/netcache/mitm_https_cache.py:199-228 | exactly a GET or POST without a range header can be cached, whose response is not encoded and varies with nothing but the encoding |
| NetFreeze.OneResource | src/env/netcache/mitm_https_cache.py:217-228 | equal cache URLs of one method mean one resource -- the same path and query, scheme and host up to case, a release asset's query aside -- and, of POSTs, one body digest, if the two URLs can be told apart as texts |
| NetFreeze.Rewrites | src/env/netcache/mitm_https_cache.py:258-303 | which headers are changed on the way to the server, to the client and to the cache, one by one; nothing else is |
| NetFreeze.MissAndHitAgree | src/env/netcache/mitm_https_cache.py:301-303 | a miss and its later hits see the same status, body and end-to-end headers |
| NetFreeze.Flow.Serve | src/env/netcache/mitm_https_cache.py:358-405 | the key asked for is that of the request's own URL also when it is rewritten to a mirror |
| NetFreeze.Flow.Receive | src/env/netcache/mitm_https_cache.py:407-445 | a response may be stored only under the key its flow asked for |
| NetFreeze.HttpsCacheAddon.Request | src/env/netcache/mitm_https_cache.py:339-405 | a hit is the frozen entry; the scope is the proxy's, else the request's, else the connection's; a flow without a scope touches nothing |
| NetFreeze.HttpsCacheAddon.Respond | src/env/netcache/mitm_https_cache.py:143-196 | an entry once visible never changes; a new one is the filtered response under the key asked for |
| NetFreeze.HttpsCacheAddon.HitsStayInScope | src/env/netcache/mitm_https_cache.py:104-140 | a hit was written by a flow of the same scope, method and cache URL, about the same resource and with the same body digest of a POST |

## Left out

- The regular expressions of the scrub and the shell lexing behind "starts a background process": both are arbitrary functions, so idempotence of the scrub is never assumed; where it matters it is the stated condition.
- Docker sessions, LLM transport, the SWE-bench grader and its memoisation, SQLite and git processes: an environment is a relation, a backend a function, a store a map, a history a tree.
- Configuration, terminal output, heartbeats and process supervision.
- Training sessions in the replay regime: `TrainingSession` is the eager regime; what certification adds to an epoch is in `Certification`.
- Loop bodies that call backward on a loss of an earlier epoch, and changes of the panel between epochs.
- Run ids are fresh numbers; records keep the facts the lookups and verdicts read, without timestamps, paths and texts.
- `mark_crashed` and `log_rollout`: single-record rewrites that no property here depends on.
- Reminder rules and action guards, both empty lists in the repository; the prompt texts and clipping, which are arbitrary functions of a step.
- Floating point: losses, calibrations, latencies and scores are real numbers. The dyadic weights are exact up to about a thousand metrics in the source.
- Deadlines: a call to the policy or the environment may time out at any moment, so the stall and task deadlines' arithmetic is not part of the model.
- The metrics dictionary of a finished rollout, with its duplicate-key error, and latency quantiles.
- TrainingSession.Trainer.MeasureAndJudge: the texts of the errors and the diagnosis artifacts are not modelled, because no decision reads them.
- Limiter.CpuConcurrencyLimiter.Enter: waits are finite; a task that would wait for ever counts as interrupted, because every property is about what has happened so far.
- NetFreeze.HttpsCacheAddon.Respond: one proxy process; a second process sharing the directory would be further flows of the same map, because the rename that publishes an entry is atomic.
- Overlap.RunOverlapping: the list of results and the failed flag are not specified, because they only collect what the runs return; after a clash no contract says which later removals fail, because by then every run is launched.
- ReplaySystem.ReplayRefinesLive: relates results one by one; for the results of one episode together see ReplayMixing.ServesRunsIff, which speaks of what is served, and ReplayProofs.NewActionRunsInChainState, which gives a live attempt one run of the environment that agrees with all its outputs up to the audit's canonical form.
- ReplayCaches.ReplayCache.StepRun: cancellation of a call at a store access is a move of module ReplaySystem but not of this method, because a cancelled attempt is never called again (EpisodeLoop.NoCallAfterFailure).
- ReplayEpisode.ReplayedRecordIsTheLiveOne: speaks of steps that returned in time and of a policy that is a function of what it has seen, because a deadline or a sampled answer may differ between any two runs; a policy that decides in batches is such a function.
- The network snapshot token and epoch counters of replay scopes; write_verify_artifacts on a served submit.
