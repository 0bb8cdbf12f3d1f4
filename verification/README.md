# Verified model of the EcomSRE evaluation protocols and audits

This project models the parts of the EcomSRE repository whose promises span many steps or many
functions, and proves them in Dafny 4.11. `dafny verify dfyconfig.toml` checks everything.

What is modelled, module by module:

- **LockChain, PrivateRoot, ChainProgress**: the append-only chain of seventeen create-once locks and state
  records of the cross-benchmark attribution, through the original lifecycle, the public-format
  repair and the two corrected lifecycles. `LockChain` is a step relation over any number of
  processes that may crash between any two file operations (a file is created, then filled, so a
  crash can leave it torn). `PrivateRoot` is the private root as an object, whose stage handlers
  are proved to be runs of that relation. `ChainProgress` says from which stores the chain can
  still be finished.
- **SmokeProtocol**: the provider smoke run with its sentinels, blockers, output and complete
  markers, one live attempt and two repair ordinals, as interleaved steps of any number of
  processes. `Campaign` is the file set as an object with the command as a method.
- **ManifestFreezer**: the v2.3.4 manifest freezer with its two repairs and the provider smoke that
  a repair answers and that resumes after it, over any sequence of invocations of both commands,
  each of which may stop after any file operation.
- **MakefileLines, MakefileRules, HeldOutReachability**: the Makefile check of the PR-F protocol:
  joining continuation lines, parsing rules, and the worklist search, each loop proved against a
  specification that mentions neither the loop nor its state.
- **AuditRow, MetricsRanking, Fusion, Frontier, FailureMechanism**: the multi-agent audit: the
  Metrics ranking, the replay of Fusion, the counterfactual frontiers and the failure mechanisms.
- **OptionFrontier, RobustnessFolds, OracleAudit, ReplayReport**: the architecture frontier, its
  leave-one-group-out folds, the oracle counts of the causal Agent audit that runs after them, and
  the two independent computations of one replay report.
- **Attribution, AttributionCounts**: the accounting over terminal records, which several loops
  count in different ways.
- **Tally, RouteInference, RateLimitCounts, GateCounts**: the offline provider diagnosis: which
  route a failed run was on, the HTTP 429 tables, and the gate tables.
- **SemanticProjection, ProjectedPayload, SbplLiteral**: the timing-erasing projection of a run
  report (as a function on JSON values, and as the program does it, in place on a deep copy of
  heap dictionaries), and the sandbox-profile string literal.
- **Counting, Wrappers**: counting over a sequence as a loop does it; optional values and results.

The fixed sizes of the source (number of cases, vector denominators) are parameters, so every
statement holds for any length. Scores and ratios are reals.

## What turned out not to hold

Each with an input and with the exact condition under which the code does what its name says.

- The F0 frontier does not always count what Fusion decided. On a free Specialist override of an
  Initial outside the two best services towards the second best, it books the best one instead:
  `Frontier.TheF0FrontierCanMiscount`. `Fusion.CountedIsReplayedExactly` is the condition on a row,
  `Frontier.F0CountsTheReplayExactly` the one on the totals.
- The last joined Makefile line, taken at the end of the file, may still end in a backslash:
  `MakefileLines.TheRestCanContinue`. `MakefileLines.SomeLineContinuesExactly` is the condition, a
  count of trailing backslashes over the physical lines.

Two functions fail on inputs that only a direct call gives them: the architecture decomposition
raises "did not reconcile" for records that the program's grouping rejects first
(`AttributionCounts.GroupThenDecompose`), and the oracle audit can hide damage under repeated case
keys, which the robustness folds reject first (`RobustnessFolds.FoldsThenAudit`).

## Model

| member | source | states |
|---|---|---|
| LockChain.StepKeepsInv | scripts/analysis/rca_crossbenchmark_attribution.py:148-162 | Every step of every process (create a lock, fill it, create a state record, fill it, start, crash) keeps the chain's invariant, only adds files, and changes no file that is wholly written |
| LockChain.RecordsAreForever | scripts/analysis/rca_crossbenchmark_attribution.py:148-162 | From any reachable world and under any schedule, no lock or state file is removed and none that was wholly written changes |
| LockChain.ChainHolds | scripts/analysis/rca_crossbenchmark_attribution.py:451-533 | After any schedule of any number of processes: a stage that has begun finds all earlier stages whole, each state record binds its existing lock by digest and timestamp, and every lock and state record carries the digest of its predecessor |
| LockChain.EarlierStagesAreWhole | scripts/analysis/rca_crossbenchmark_attribution.py:1749-1810 | If any file of stage j exists, the lock and the state record of every stage before j are wholly written |
| LockChain.AbandonedForever | scripts/analysis/rca_crossbenchmark_attribution.py:148-162 | A stage whose lock is there without a whole state record, and on which no process works, never completes under any schedule: a rerun's timestamp differs, so its lock is refused |
| ChainProgress.MissedForever | scripts/analysis/rca_crossbenchmark_attribution.py:2312-2422 | An analysis that stops after its first stage and before the lock of its second ends the chain: under any schedule the second stage and everything after it stay unbegun |
| ChainProgress.StuckForever | scripts/analysis/rca_crossbenchmark_attribution.py:148-162 | With no command running, a reachable store that cannot advance never gains another whole stage, whatever is run |
| ChainProgress.ChainCanBeFinished | scripts/analysis/rca_crossbenchmark_attribution.py:3728-3842 | From every other one some schedule writes all seventeen stages |
| ChainProgress.AdvancesExactly | scripts/analysis/rca_crossbenchmark_attribution.py:148-162 | The two cases are told apart by the files alone: the chain can go on if and only if the whole stages are a beginning of the chain, nothing else has begun, and the next stage is not the second of an analysis |
| LockChain.TipLockDeterminesLocks | scripts/analysis/rca_crossbenchmark_attribution.py:1661-1688 | With an injective digest, two runs that end in the same whole tip lock agree on every lock back to the input freeze, across the original, format-repair, v2 and v3 lifecycles |
| LockChain.TipStateDeterminesHistory | scripts/analysis/rca_crossbenchmark_attribution.py:519-533 | With an injective digest, two runs with the same whole tip state record agree on every lock and every state record up to it |
| LockChain.AdmittedFollows | scripts/analysis/rca_crossbenchmark_attribution.py:3316-3379 | Whatever a command's own chain checks let through finds the stage before it wholly written |
| PrivateRoot.AdmissionIsTheChain | scripts/analysis/rca_crossbenchmark_attribution.py:2312-2422 | In every reachable store the chain checks let a command write if and only if the preceding stage is whole (for `verify_public`, also stage 5 unbegun): checking the listed records is checking all of the chain |
| PrivateRoot.VerificationRepeatsExactly | scripts/analysis/rca_crossbenchmark_attribution.py:3122-3147 | A repeated `verify_public` passes its checks, and then has nothing to write, if and only if its own stage is whole and the format repair after it is whole or unbegun |
| PrivateRoot.PrivateRoot.WriteJsonCreateOnce | scripts/analysis/rca_crossbenchmark_attribution.py:148-162 | An existing file is left alone, and reused only if equal; a new one is created exclusively and then filled, and a crash between the two leaves it torn |
| PrivateRoot.PrivateRoot.WriteStage | scripts/analysis/rca_crossbenchmark_attribution.py:1749-1810 | Lock first, then state record; written exactly when the stage had no lock and the process lives through all four file operations; whenever it stops, the root is still one that some run of the step relation leads to |
| PrivateRoot.PrivateRoot.Invoke | scripts/analysis/rca_crossbenchmark_attribution.py:2312-2422 | A whole command: when it is refused, when it repeats a verification without writing, when its lock differs, when it dies and when it is done, exactly; what files it adds; and that it refines the step relation |
| PrivateRoot.WriteWholeChain | scripts/analysis/rca_crossbenchmark_attribution.py:3728-3842 | The commands of the three lifecycles in order, left alone, write all seventeen stages and nothing else: the invariant is not met by a chain that cannot advance |
| SmokeProtocol.StepKeepsInv | scripts/analysis/run_dta_v2341_provider_smoke.py:105-198 | Every step of every process (a test, the exclusive creation of a sentinel, the live run's end, a blocker, output or marker, a crash) keeps the protocol's invariant |
| SmokeProtocol.OneProcessPerOrdinal | scripts/analysis/run_dta_v2341_provider_smoke.py:166-198 | At most one process ever gets past the sentinel of a repair ordinal, however far apart in time the two are |
| SmokeProtocol.OneProcessAtATime | scripts/analysis/run_dta_v2341_provider_smoke.py:126-198 | At no moment of any run are two processes past their sentinels, even for different ordinals |
| SmokeProtocol.AtMostThreeLiveAttempts | scripts/analysis/run_dta_v2341_provider_smoke.py:126-198 | In any run of any number of processes the live attempts are exactly the sentinels on disk, and at most three |
| SmokeProtocol.ThreeAttemptsCanHappen | scripts/analysis/run_dta_v2341_provider_smoke.py:260-273 | The bound is reached: a run with two failed attempts and a completed third |
| SmokeProtocol.WhatTheFilesShow | scripts/analysis/run_dta_v2341_provider_smoke.py:126-198 | After any run: a repair sentinel implies the sentinel and blocker of every earlier attempt; a complete marker implies its sentinel and the output, by the same process; no attempt has both a blocker and a marker; the output is that of the one unblocked attempt |
| SmokeProtocol.FilesAreForever | scripts/analysis/run_dta_v2341_provider_smoke.py:59-88 | No file is removed or taken over by another process, so there is at most one output |
| SmokeProtocol.NoStartAfterOutput | scripts/analysis/run_dta_v2341_provider_smoke.py:126-146 | A process whose admission begins after the output exists never goes live, whatever the others do |
| SmokeProtocol.StrandedForever | scripts/analysis/run_dta_v2341_provider_smoke.py:166-198 | An attempt that dies between its sentinel and its blocker ends the campaign: no later process goes live and no output appears |
| SmokeProtocol.Refused | src/ecomsre/dta_v2/v23/provider_smoke_v2341.py:487-640 | The command's disjunctions and the evidence a repair verification reads together admit exactly: no output and no own files, and for a repair the sentinel and blocker of every earlier attempt |
| SmokeProtocol.Campaign.constructor | scripts/analysis/run_dta_v2341_provider_smoke.py:30-35 | A campaign starts without files |
| SmokeProtocol.Campaign.Execute | scripts/analysis/run_dta_v2341_provider_smoke.py:105-273 | One whole invocation: the exact condition to start, the exact files each ending leaves, and that the files always come from a run of the step relation |
| ManifestFreezer.RepairSavesFirst | scripts/analysis/freeze_dta_v234_manifest.py:73-178 | When a repair overwrites the manifest, the replaced bytes are already whole in its superseded file; any other invocation of the freezer or the smoke leaves an existing manifest as it was, wherever it dies |
| ManifestFreezer.KeptFilesNeverChange | scripts/analysis/freeze_dta_v234_manifest.py:86-167 | No invocation of either command changes a file other than the manifest and the smoke sentinel once it exists |
| ManifestFreezer.NoManifestIsLost | scripts/analysis/freeze_dta_v234_manifest.py:73-178 | Over any sequence of freezes, repairs and smokes, whatever the manifest once held it still holds or a superseded file does |
| ManifestFreezer.EachOrdinalOverwritesOnce | scripts/analysis/freeze_dta_v234_manifest.py:73-178 | Over any sequence of invocations, each ordinal overwrites at most once, with its three files there, and repair 2 only with repair 1's three files there |
| ManifestFreezer.RunKeepsCampaign | src/ecomsre/dta_v2/v23/evaluation_v234.py:1996-2031 | In every run each repair record holds the digest of the manifest it superseded, a repair on record that has not overwritten leaves that manifest in place, and a partial file of a resumed smoke is there only if its repair has overwritten |
| ManifestFreezer.RepairsOverwriteInOrder | scripts/analysis/freeze_dta_v234_manifest.py:73-178 | Over every run repair 2 overwrites only after repair 1 has overwritten, although the freezer itself asks only for repair 1's files: the smoke refuses to resume on the manifest that the repair was to replace |
| ManifestFreezer.FilesTellTheRepairs | src/ecomsre/dta_v2/v23/evaluation_v234.py:2006-2100 | The partial file of a smoke resumed after fix k shows that repairs 1 to k have overwritten the manifest, and so does a passing artifact with k real fixes |
| ManifestFreezer.BothRepairsCanHappen | src/ecomsre/dta_v2/v23/evaluation_v234.py:1985-2105 | If the digest tells the three manifests apart, some run fails, is repaired, fails again, is repaired again and passes with two real fixes |
| ManifestFreezer.ManifestRoot.Execute | scripts/analysis/freeze_dta_v234_manifest.py:73-212 | The in-place file writes of one invocation of either command, which may die anywhere, end in the store that the specification function gives |
| MakefileLines.JoinLines | scripts/ci/verify_dta_v21_pr_f_protocol.py:139-152 | The joining loop yields the logical lines of the file's one grouping |
| MakefileLines.GroupingExists | scripts/ci/verify_dta_v21_pr_f_protocol.py:139-152 | Every file can be cut, in order, into closed groups and an open rest |
| MakefileLines.GroupingIsUnique | scripts/ci/verify_dta_v21_pr_f_protocol.py:139-152 | In one way only: every physical line belongs to exactly one logical line |
| MakefileLines.OnlyTheRestMayContinue | scripts/ci/verify_dta_v21_pr_f_protocol.py:139-152 | No logical line emitted inside the loop ends in a backslash after right-stripping; there is one line for each group and one for a non-empty rest |
| MakefileLines.TheRestCanContinue | scripts/ci/verify_dta_v21_pr_f_protocol.py:149-152 | The line emitted at the end of the file can still end in a backslash: a file of one line with two |
| MakefileLines.ContinuingLinesExactly | scripts/ci/verify_dta_v21_pr_f_protocol.py:139-152 | A logical line continues if and only if it is the last and the balance of trailing backslashes over the physical lines is at least two |
| MakefileLines.SomeLineContinuesExactly | scripts/ci/verify_dta_v21_pr_f_protocol.py:139-152 | Some logical line of a file continues if and only if that balance is at least two |
| MakefileRules.ParseRules | scripts/ci/verify_dta_v21_pr_f_protocol.py:153-169 | The parsed targets, prerequisites and recipes are exactly those the lines define: a target has the union of its headers' prerequisites and, in file order, the tab lines under every header that names it |
| MakefileRules.LiveTargetsAreGoverning | scripts/ci/verify_dta_v21_pr_f_protocol.py:153-169 | The loop's pending targets are those of the last header with no ending line since; blanks and comments do not end a rule |
| MakefileRules.RecipeLineGoesToItsRule | scripts/ci/verify_dta_v21_pr_f_protocol.py:164-169 | A tab line is appended to the recipes of exactly the targets on its governing header, once for each time the header names them |
| MakefileRules.UndefinedOwnsNothing | scripts/ci/verify_dta_v21_pr_f_protocol.py:164-169 | A target no header names owns no recipe line |
| HeldOutReachability.SearchFrom | scripts/ci/verify_dta_v21_pr_f_protocol.py:179-202 | The worklist search from one root terminates and finds something if and only if a path of parsed prerequisites leads from the root to a forbidden name (defined or not) or a forbidden recipe |
| HeldOutReachability.ExploredIsClosed | scripts/ci/verify_dta_v21_pr_f_protocol.py:179-202 | A path out of a fully explored set ends inside it or at an undefined name that is not forbidden |
| HeldOutReachability.VerifyTargets | scripts/ci/verify_dta_v21_pr_f_protocol.py:139-202 | The whole check on a file: it raises for a missing target exactly when no root is defined, and for reachability exactly when some root reaches something forbidden in the rules the joined lines define |
| HeldOutReachability.RulesAreDetermined | scripts/ci/verify_dta_v21_pr_f_protocol.py:153-202 | A file determines its rules, so the verdict does not depend on the order in which sets are visited |
| HeldOutReachability.UndefinedPrerequisiteCounts | scripts/ci/verify_dta_v21_pr_f_protocol.py:189-197 | A forbidden prerequisite condemns its rule even when no rule defines it |
| MetricsRanking.ServiceRanking | scripts/analysis/rcaeval_multiagent_communication_audit.py:2103-2114 | The loop returns the first six places where a service is named for the first time, with the scores they have there |
| MetricsRanking.RankingIsDistinct | scripts/analysis/rcaeval_multiagent_communication_audit.py:2103-2114 | At most six services, none twice, and all of them when they are fewer than six |
| MetricsRanking.RankingDescends | scripts/analysis/rcaeval_multiagent_communication_audit.py:2103-2114 | Candidates listed best first give a ranking listed best first |
| MetricsRanking.MarginIsAFraction | scripts/analysis/rcaeval_multiagent_communication_audit.py:2117-2122 | For non-negative descending scores the normalised margin lies between 0 and 1 |
| MetricsRanking.AlternativeIsFirstOrSecond | scripts/analysis/rcaeval_multiagent_communication_audit.py:2125-2139 | The alternative differs from the Initial and is the best service, unless that is the Initial: then it is the second; it carries its rank and score, the margin, and the Initial's rank or none |
| MetricsRanking.RulesAreNested | scripts/analysis/rcaeval_multiagent_communication_audit.py:1272-1289 | M2 and M3 override only where M1 does, and M0 nowhere |
| MetricsRanking.M3Exactly | scripts/analysis/rcaeval_multiagent_communication_audit.py:1272-1289 | M3 fires exactly when the ranking is non-empty, the margin is at least 0.25 and the Initial is outside the two best services |
| MetricsRanking.BothM3sAgree | src/ecomsre_rca_unified/frontier.py:93-100 | The audit's M3 and the architecture frontier's M3, written independently, agree |
| Fusion.OverridesExactly | scripts/analysis/rcaeval_multiagent_communication_audit.py:1041-1178 | When the replay overrides, exactly, and to which service, on each of the three routes |
| Fusion.OverridesAreGrounded | scripts/analysis/rcaeval_multiagent_communication_audit.py:1041-1178 | Every override has an unstable Initial, a non-direct route, an alternative, and a target other than the Initial that lies in the Metrics ranking; every pairwise-authorised one is also an F1 override |
| Fusion.PairwiseOverridesMeetTheRules | scripts/analysis/rcaeval_multiagent_communication_audit.py:1003-1038 | An override off the free Specialist path satisfies F1, satisfies F2 exactly when the Metrics rule M2 fires, and satisfies F3 when both sources were asked |
| Fusion.ReasonTellsThePath | scripts/analysis/rcaeval_multiagent_communication_audit.py:1041-1178 | The reason of a decision identifies whether it overrides, on which route and from which output; a kept Initial is the final root |
| Fusion.UnhandledExactly | scripts/analysis/rcaeval_multiagent_communication_audit.py:1041-1178 | The "authorizing pairwise output was not handled" assertion fires exactly for a preference outside the three legal ones that passes every other test; for a legal one it is dead |
| Fusion.CountedIsReplayedExactly | scripts/analysis/rcaeval_multiagent_communication_audit.py:1181-1228 | The root the F0 frontier counts is the one the replay decides if and only if the row is not a free Specialist override, with the Initial outside the top two, towards rank 2 |
| Frontier.FrontierCounts | scripts/analysis/rcaeval_multiagent_communication_audit.py:1181-1218 | The counting loop returns the number of rows of each kind under the decision map |
| Frontier.FrontierReconciles | scripts/analysis/rcaeval_multiagent_communication_audit.py:1181-1218 | For every row set and decision map: final = initial + rescue - damage, overrides = correct + wrong |
| Frontier.RankedAlternativesDiffer | scripts/analysis/rcaeval_multiagent_communication_audit.py:2125-2139 | Rows whose alternative comes from their ranking never propose the Initial |
| Frontier.RescuesAreCorrectOverrides | scripts/analysis/rcaeval_multiagent_communication_audit.py:1181-1218 | On such rows, and whenever alternatives differ from the Initial, rescue = correct overrides and damage is at most the wrong ones |
| Frontier.Decide | scripts/analysis/rcaeval_multiagent_communication_audit.py:1221-1240 | The decision map of a rule has exactly the keys of the rows, and the last row of a key decides |
| Frontier.UniqueKeysDecide | scripts/analysis/rcaeval_multiagent_communication_audit.py:1221-1240 | With unique keys each row's decision is its own |
| Frontier.F0CountsTheReplayExactly | scripts/analysis/rcaeval_multiagent_communication_audit.py:1221-1228 | The F0 total misses the diverging rows whose second-best service is the true root and adds those whose best one is; so it agrees with the replay if and only if there are as many of each, and the overrides always agree |
| Frontier.F0CountsTheReplay | scripts/analysis/rcaeval_multiagent_communication_audit.py:1221-1228 | If no row diverges, the F0 counts are those taken from the replay's own final roots |
| Frontier.TheF0FrontierCanMiscount | scripts/analysis/rcaeval_multiagent_communication_audit.py:1196-1206 | A row on which Fusion finds the true root and the frontier books a wrong override |
| Frontier.MetricsFrontier | scripts/analysis/rcaeval_multiagent_communication_audit.py:1292-1351 | The loop over a Metrics rule returns root and pair counts, for each rule |
| Frontier.PairsReconcile | scripts/analysis/rcaeval_multiagent_communication_audit.py:1292-1351 | Root and pair identities hold at once for every decision map; rescued pairs are the rescued roots with a right indicator, and so are the damaged ones but for right pairs chosen without an alternative of their own |
| Frontier.UniqueKeysStrandNoPair | scripts/analysis/rcaeval_multiagent_communication_audit.py:1292-1351 | With unique keys there are none of those: no pair moves without its root |
| Frontier.SubsetMovesLess | scripts/analysis/rcaeval_multiagent_communication_audit.py:1181-1218 | For any rows, a rule that overrides a subset of what another does rescues no more and damages no more |
| Frontier.FusionMovesLessThanF1 | scripts/analysis/rcaeval_multiagent_communication_audit.py:1221-1240 | Off the free Specialist path the F0 frontier overrides, rescues and damages no more than the F1 frontier |
| Frontier.NarrowerRulesMoveLess | scripts/analysis/rcaeval_multiagent_communication_audit.py:1272-1351 | M2 and M3 rescue no more and damage no more than M1 |
| FailureMechanism.ClassifyNeverRaises | scripts/analysis/rcaeval_multiagent_communication_audit.py:570-740 | Every row gets a mechanism: the retrieval test shields the sufficiency function's raise, which fires exactly when the true root is not ranked |
| FailureMechanism.FusionBlameOnPairwiseRows | scripts/analysis/rcaeval_multiagent_communication_audit.py:667-740 | On pairwise rows "correctly rejected" is unreachable, and "overconstrained" is returned exactly when a called source could compare and F1 would have taken the true root that the row missed |
| FailureMechanism.NoBlameWithoutPairwise | scripts/analysis/rcaeval_multiagent_communication_audit.py:667-740 | Without a pairwise output "overconstrained" is unreachable |
| FailureMechanism.BlamedRowIsAnF1Rescue | scripts/analysis/rcaeval_multiagent_communication_audit.py:1003-1038 | Every row blamed on Fusion is a rescue and a correct override of the F1 frontier. If it stores its replayed root, the F0 frontier counts it right exactly when the replay overrides, which takes the free Specialist path; for a ranked row, exactly when it diverges |
| FailureMechanism.BlameIsBoundedByF1 | scripts/analysis/rcaeval_multiagent_communication_audit.py:667-740 | So the blamed rows are no more than the rescues that the F1 frontier reports |
| OptionFrontier.FirstChoiceIsFirst | src/ecomsre_rca_unified/frontier.py:154-183 | The causal choice is eligible, exists when any candidate is, and no eligible candidate precedes it in the sort order |
| OptionFrontier.SelectionIgnoresListing | src/ecomsre_rca_unified/frontier.py:154-183 | The choice does not depend on the order in which candidates are listed |
| OptionFrontier.OptionsAreNested | src/ecomsre_rca_unified/frontier.py:192-296 | Each deterministic option overrides a subset of the one before, to the same entity |
| OptionFrontier.AggregateReconciles | src/ecomsre_rca_unified/frontier.py:299-322 | For every option final = initial + rescue - damage, overrides = correct + wrong, only overrides rescue or damage, and A0 changes nothing |
| OptionFrontier.ServicesAndPairsFollowOverrides | src/ecomsre_rca_unified/frontier.py:299-322 | The right services change by at most one for each override, and where the cases' pair flags hold, pairs are rescued and damaged no more than roots |
| OptionFrontier.GuardsMoveLess | src/ecomsre_rca_unified/frontier.py:192-322 | Each guard added to M3 rescues no more and damages no more; A5 aggregates as A3 |
| OracleAudit.OracleCounts | scripts/analysis/rca_crossbenchmark_attribution.py:1447-1482 | The two loops return the eligible choices by key and the oracle's rescue and damage counts |
| OracleAudit.EligibleByKey | scripts/analysis/rca_crossbenchmark_attribution.py:1447-1482 | With unique keys a case is eligible by key exactly when the Agent is called on it, with its own choice |
| OracleAudit.AgentAndGuardAreDisjoint | scripts/analysis/rca_crossbenchmark_attribution.py:1447-1482 | A case the Agent is called on is one A5 leaves alone |
| OracleAudit.OracleDamageExactly | scripts/analysis/rca_crossbenchmark_attribution.py:1447-1482 | For every list of cases the oracle's damage is A5's less the damaged cases whose key has a choice that is a true root, equal if and only if there is none; its rescue is A5's plus the wrong cases that a filed choice puts right |
| OracleAudit.HiddenDamageRepeatsAKey | scripts/analysis/rca_crossbenchmark_attribution.py:1447-1482 | Damage is hidden only by another case with the same key, on which the Agent is called and whose choice is a true root of the damaged one |
| OracleAudit.OracleAddsOnlyRescues | scripts/analysis/rca_crossbenchmark_attribution.py:1447-1482 | With unique keys the oracle's damage is A5's own, and its rescue is A5's plus the called wrong cases whose choice is a true root |
| OracleAudit.CalledCasesWereWrong | scripts/analysis/rca_crossbenchmark_attribution.py:1447-1482 | When outcome flags match the cases, the rescues the Agent adds are exactly the called cases whose choice is a true root |
| RobustnessFolds.SizeShowsRepeats | src/ecomsre_rca_unified/frontier.py:337-340 | The size of the dictionary by key is that of the list if and only if no key repeats |
| RobustnessFolds.GroupedRobustness | src/ecomsre_rca_unified/frontier.py:325-359 | Raises if and only if some case key repeats; otherwise one fold for each option, axis and group in sorted order, each counting the cases outside its group by their own outcomes |
| RobustnessFolds.FoldsConserve | src/ecomsre_rca_unified/frontier.py:341-358 | Over an axis the denominators, rescues and damages of an option's folds total those of its aggregate once for each group but one |
| RobustnessFolds.FoldsThenAudit | scripts/analysis/rca_crossbenchmark_attribution.py:2096-2127 | The folds and then the audit, as both analyses run them: whenever the audit is reached its damage is A5's own and its rescue is A5's plus the called wrong cases whose choice is a true root; it is reached exactly when no key repeats |
| ReplayReport.DatasetSummary | scripts/analysis/rca_crossbenchmark_attribution.py:2616-2631 | The summary of a fixture's pairs counts initial, final, rescue and damage |
| ReplayReport.SummaryIsLegal | scripts/analysis/rca_crossbenchmark_attribution.py:2616-2631 | Every rate of a summary has a legal numerator, and final = initial + rescue - damage |
| ReplayReport.Replay | scripts/analysis/rca_crossbenchmark_attribution.py:2794-2868 | `replay` succeeds exactly when the vectors have the frozen length and every case matches its record; then its report is that of the executed pairs |
| ReplayReport.CanonicalReplay | scripts/analysis/rca_crossbenchmark_attribution.py:2938-3027 | The recomputation from private vectors succeeds exactly when every vector pair matches; then its report is that of the recorded pairs |
| ReplayReport.ReportsAgree | scripts/analysis/rca_crossbenchmark_attribution.py:2794-3027 | Whenever `replay` accepts, the two reports are equal |
| ReplayReport.AcceptedVectorsMoveNothing | scripts/analysis/rca_crossbenchmark_attribution.py:2938-3027 | Accepted vectors give every fixture equal initial and final counts, zero rescue and zero damage |
| ReplayReport.AcceptanceOfWrittenVectors | scripts/analysis/rca_crossbenchmark_attribution.py:2794-3027 | On the vectors the analysis writes, the exact condition under which each of the two accepts a case |
| ReplayReport.WrittenVectorsReplay | src/ecomsre_rca_unified/runtime.py:60-76 | From analysis to verification: the written vectors are accepted by both, reproduce one report, and show no change in any fixture |
| Attribution.RecordsByCase | scripts/analysis/rcaeval_re2_v1_attribution.py:275-285 | Raises exactly when some case lacks a record of some arm or has two; otherwise groups every record under its case and arm |
| Attribution.ArmCountIsCaseCount | scripts/analysis/rcaeval_re2_v1_attribution.py:275-285 | Counting an arm's records, by any property, is counting cases by that property of the arm's record |
| AttributionCounts.LookupIsOwnScore | scripts/analysis/rcaeval_re2_v1_attribution.py:288-298 | Without duplicate runs the scored lookup gives each record its own score |
| AttributionCounts.Decompose | scripts/analysis/rcaeval_re2_v1_attribution.py:301-362 | Which of its two errors the decomposition raises, exactly: an illegal ratio of any arm first, then an arm with another number of records than Single; otherwise every arm's totals, four rates and differences from Single |
| AttributionCounts.ReconcilesExactly | scripts/analysis/rcaeval_re2_v1_attribution.py:301-362 | An arm passes the reconcile test if and only if its number of records is Single's; with one record for each case and arm it always does |
| AttributionCounts.NotReconciledCanHappen | scripts/analysis/rcaeval_re2_v1_attribution.py:301-362 | Records without duplicate runs and with legal ratios on which a direct call raises the error |
| AttributionCounts.GroupThenDecompose | scripts/analysis/rcaeval_re2_v1_attribution.py:1813-1829 | Grouping first and then decomposing, as the program does: after a successful grouping the reconcile error is unreachable, and an illegal ratio is raised exactly when some arm completed no run |
| AttributionCounts.RatesAreOrdered | scripts/analysis/rcaeval_re2_v1_attribution.py:301-362 | Pair accuracy is at most root accuracy, which is at most the completed-only accuracy and the reliability ceiling; the ceiling is one exactly when no completed run is wrong |
| AttributionCounts.GapThreeWays | scripts/analysis/rcaeval_re2_v1_attribution.py:301-423 | The gap to Single is excess failures plus excess completed-wrong, and also pairwise losses less pairwise wins |
| AttributionCounts.CompletedWrongIsCounted | scripts/analysis/rcaeval_re2_v1_attribution.py:301-362 | The subtracted failure and completed-wrong totals are those runs counted one by one |
| AttributionCounts.PairwiseOutcomes | scripts/analysis/rcaeval_re2_v1_attribution.py:365-423 | The loop returns the eight cells, the four simplified counts and the same-source degradations, all as numbers of cases |
| AttributionCounts.DegradationIsCompletedWrong | scripts/analysis/rcaeval_re2_v1_attribution.py:365-423 | The cases lost by Fixed are same-source degradations or failures of Fixed; the first are at most its completed-wrong runs, the second at most its failures |
| AttributionCounts.EightCellsCover | scripts/analysis/rcaeval_re2_v1_attribution.py:365-423 | The eight cells sum to the number of cases |
| AttributionCounts.CellsMarginalise | scripts/analysis/rcaeval_re2_v1_attribution.py:365-423 | Summing the cells over the arm left out gives each simplified count |
| AttributionCounts.RightRunsAreRightCases | scripts/analysis/rcaeval_re2_v1_attribution.py:301-423 | The decomposition, which counts records, and the pairwise loop, which counts cases, see the same right runs |
| AttributionCounts.CaseRows | scripts/analysis/rcaeval_re2_v1_attribution.py:526-618 | Three rows for each case in order, each with its arm's outcome, covering sources and attributed cause |
| AttributionCounts.CausesRefineTheDecomposition | scripts/analysis/rcaeval_re2_v1_attribution.py:534-618 | For each arm the rows' causes refine the decomposition: correct rows are its right runs, terminal failures its failures, the three other causes its completed-wrong runs; routing is blamed on Dynamic only and fusion never on it |
| AttributionCounts.FixedToolCoverage | scripts/analysis/rcaeval_re2_v1_attribution.py:670-705 | The Fixed part of the tool-coverage table raises exactly when no Fixed run completed wrong; otherwise its counts are those over the case rows and its two rates sum to one |
| AttributionCounts.FixedTablesAgree | scripts/analysis/rcaeval_re2_v1_attribution.py:670-705 | The completed-wrong and failure counts of the tool-coverage table are those of the decomposition |
| AttributionCounts.FixedCausesAddUp | scripts/analysis/rcaeval_re2_v1_attribution.py:534-705 | Wrong = failed + completed wrong; the runs absent from every source are those the rows blame on coverage; absent + multiple is at most completed wrong |
| AttributionCounts.Confusion | scripts/analysis/rcaeval_re2_v1_attribution.py:833-849 | Each entry of the confusion matrix counts the cases with that true and that predicted indicator |
| AttributionCounts.ConfusionRowSums | scripts/analysis/rcaeval_re2_v1_attribution.py:833-849 | Each row, with the column for no diagnosis, sums to its indicator's number of cases |
| RouteInference.InferredExactly | src/ecomsre_rcaeval_adaptive/runner.py:369-440 | On the operations that any run of the runner leaves, the reader raises if and only if the run failed before its first operation; on all others it names a route exactly when it is the only one that explains them, gives the true reason otherwise, and names the role of the last operation |
| RouteInference.StopsSpelledOut | src/ecomsre_rcaeval_adaptive/runner.py:369-440 | The eight ways a run can stop, one of them before any operation, with the routes that allow each |
| RouteInference.RaisedExactly | scripts/analysis/rcaeval_adaptive_v1_offline_diagnosis.py:131-176 | On any sequence: when the reader raises, and which operations a named route presupposes |
| RouteInference.OrderIsNotRead | scripts/analysis/rcaeval_adaptive_v1_offline_diagnosis.py:155-176 | The reader looks at which operations occur, not at their order: a sequence no run can leave gets a route |
| RouteInference.RolesAgree | scripts/analysis/rcaeval_adaptive_v1_offline_diagnosis.py:274-281 | The role read from an operation's type and index is the runner's, and for the last operation also the reader's |
| RateLimitCounts.ReadableExactly | src/ecomsre_rcaeval_adaptive/runner.py:626-637 | A terminal of the runner can be read if and only if it completed or persisted some operation |
| RateLimitCounts.RateLimitTables | scripts/analysis/rcaeval_adaptive_v1_offline_diagnosis.py:374-420 | The nested loops fail exactly when case identifiers repeat, a context cannot be read or an attempt with a 429 names no operation with a role; otherwise every table tallies the hits, or the hits that open an episode |
| RateLimitCounts.TotalsAgree | scripts/analysis/rcaeval_adaptive_v1_offline_diagnosis.py:383-420 | Role total = hour total = first + retry attempts; episode-role total = route total = number of distinct (run, operation) pairs, which is at most the attempts |
| RateLimitCounts.EpisodesArePairs | scripts/analysis/rcaeval_adaptive_v1_offline_diagnosis.py:383-420 | With distinct run identifiers both episode totals are the number of pairs of a run and an operation that met a 429, read straight from the sidecars |
| RateLimitCounts.RolesBoundEpisodes | scripts/analysis/rcaeval_adaptive_v1_offline_diagnosis.py:383-420 | In every role the episodes are at most the attempts |
| GateCounts.GateTables | scripts/analysis/rcaeval_adaptive_v1_offline_diagnosis.py:446-515 | Each entry of the comparison, gate, unavailable and provenance tables counts its cases, each table's total is known, and the proxy list pairs each known route with the reference's correctness |
| GateCounts.GateReconciles | scripts/analysis/rcaeval_adaptive_v1_offline_diagnosis.py:446-515 | Known + unavailable = provenance total = cases; the proxy list and the known total are persisted + inferred; the four correctness cells sum to same + different = completed cases |
| GateCounts.InitialAgainstReference | scripts/analysis/rcaeval_adaptive_v1_offline_diagnosis.py:475-485 | Over completed cases the Initial's hits exceed the reference's by its lone hits less its lone misses |
| GateCounts.KnownRoutesBoundTheTruth | scripts/analysis/rcaeval_adaptive_v1_offline_diagnosis.py:446-515 | If the contexts could be read and every stopped run followed the runner, the known count of a route never exceeds the true one, which exceeds it by at most the unavailable total |
| Tally.TotalIsLength | scripts/analysis/rcaeval_adaptive_v1_offline_diagnosis.py:383-420 | Whatever the key, a counter that a loop fills by one totals the number of additions |
| SemanticProjection.ProjectedExactly | eval/phase1/run.py:513-561 | The projection succeeds exactly on reports whose two record lists are lists of objects with null or object responses |
| SemanticProjection.ProjectIsIdempotent | eval/phase1/run.py:513-561 | A second projection succeeds and changes nothing |
| SemanticProjection.ReportAt | eval/phase1/run.py:513-561 | At every path the projection shows what the report does, except where the path enters a timing field of the report, a model record, its response or a tool record: there it shows nothing |
| SemanticProjection.EqualProjectionsExactly | eval/phase1/run.py:513-561 | Two reports have equal projections if and only if they agree at every path that enters none of those timing fields |
| ProjectedPayload.Copy | eval/phase1/run.py:517 | The deep copy consists of new dictionaries only and stands for the same JSON value |
| ProjectedPayload.PopModelRecords | eval/phase1/run.py:524-546 | The in-place loop over the model records stops with the error of the first bad record; otherwise every record and response has lost its timing fields and nothing else has changed |
| ProjectedPayload.ProjectPayload | eval/phase1/run.py:513-561 | The copy-and-pop program returns the value-level projection of the payload or its error, and leaves every dictionary of the payload as it was |
| SbplLiteral.TwoPassesAreOne | eval/phase1/run.py:340-341 | The two successive replacements equal a single-pass escape |
| SbplLiteral.LiteralReadsBack | eval/phase1/run.py:340-341 | Reading a literal back recovers the string and stops right after its closing quote, whatever follows: the only unescaped quotes are the delimiters |
| SbplLiteral.LiteralIsInjective | eval/phase1/run.py:340-341 | Distinct strings give distinct literals, and none is a proper prefix of another |
| SbplLiteral.OrderOfReplacementsMatters | eval/phase1/run.py:340-341 | In the other order the string is not recovered |

## Left out

- Subprocesses, git, sandbox profiles, file modes, symlink and permission checks, and the provider transports: only "exists", "create exclusively", "fill" and "read" of a file are kept.
- SHA-256: a function parameter, assumed injective only in the two lemmas that say so.
- Clocks: a timestamp is a number that differs from one invocation and one stage to the next.
- JSON encoding and Pydantic validation: records are values, and a file with other content is "torn".
- The commands' checks of inputs, outputs, archives and working-tree state: in `LockChain` they can only stop a command before it writes, and in `SmokeProtocol.Campaign.Execute` and `ManifestFreezer` (frozen inputs, bindings, audit, preflight, outcome of the roles) they are flags.
- The chain checks of one attribution command are one atomic step; its file operations are separate steps. Those of the smoke command are a step each.
- The manifest freezer and its smoke are modelled for invocations one after the other, not for concurrent ones; a repair record is a file that the freezer wrote, at any path.
- The two regular expressions of the Makefile check are parameters; `str.splitlines` is taken as done, so the check starts from the physical lines.
- The audit's rows are the completed ones; the filter before each frontier is not part of this model.
- Floating-point rounding: scores, ratios and margins are reals.
- `ProjectedPayload.Copy`: does not model dictionaries shared inside the payload (a decoded JSON text has none); it copies such a dictionary once for each place.
- `AttributionCounts.CaseRows`: does not carry the descriptive fields of a row (citations, tokens, latency, ranks).
- The remaining counters of the offline diagnosis (recovered 429s, dispositions, waits, Specialist hypotheses): single sums over one list.
- `_select_robust_metrics`, the gate simulation and its bins, the metric aggregation of the phase 1 evaluation, `_decision_section` and the frozen-scope digest: short sums and selections that add no harder property.
- Message contracts, trace opportunities, architecture matrices, report rendering, fixed tables and the public-payload scanners.
