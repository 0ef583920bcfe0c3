# Research pipeline: models and proofs

A Dafny model of the decision and state logic in the research pipeline scripts: how the factor library is clustered, how
training windows are separated, how a research trace becomes joint bundles, how failed hypotheses stay in their
families, how point-in-time lookups read the past, and how operators recover a blocked research cycle side by side.
Floats are exact reals, NaN is an option, and a digest is the value itself.  `dafny verify dfyconfig.toml` checks the
whole project.

| area | modules |
|---|---|
| shared | `Values`, `SortedLists` |
| factor clustering | `UnionFind`, `CompleteLinkage`, `FactorClusters`, `ClusterAssignments`, `RankCorrelation`, `DailyAccumulation`, `ResumablePipeline`, `ClusterLibrary` |
| session windows | `SessionWindows`, `ModelRefit` |
| trace replay and arm coverage | `FinQuantTrace`, `ArmLauncher` |
| multiplicity | `RankedFamilies`, `Multiplicity`, `HolmAdjustment`, `HypothesisFamilies`, `FactorBatchFamilies`, `TrialFamily`, `LongShort` |
| validation grids | `ValidationGrid`, `CellScheduler`, `ModelBatch`, `PathBlanking` |
| point-in-time lookups | `CrossSections`, `FactorHistory` |
| operator transactions | `OperatorSteps`, `OperatorTransactions`, `OperatorRuns`, `OperatorProgress`, `OperatorDeadlocks`, `OperatorStaleWrites` |

The scripts that update state in place are methods over arrays, classes or loop variables; each is tied to a
specification, and the lemmas are about that specification.  Concurrent operators are a state machine over their
statements.

Eight promises turned out not to hold of the code as it stands.  Each has a concrete witness and its exact condition:

- The runner accepts a research run whose labels have horizon -1 and no purge, which leaks
  (`SessionWindows.AcceptedLeakExists`); accepted contracts isolate exactly when they purge and embargo at least one
  session (`SessionWindows.IsolationExactly`), and early stopping stays inside the validation window exactly when the
  purge is not negative (`SessionWindows.FitsExactly`).  Outside the runner,
  src/quant_platform/research_window.py:133-135 only issues positive horizons, and for those isolation always holds
  (`SessionWindows.OrdinaryContractsIsolate`).
- The runner skips its embargo check when the test start is no session, and the last validation label of a research run
  can then read into the test window (`SessionWindows.TestStartBetweenSessions`), exactly when it reaches the first
  session of that window (`SessionWindows.TestIsolationExactly`); live runs are always isolated
  (`SessionWindows.LiveRunsAreIsolated`).
- Complete accepted coverage can end without a bundle (`FinQuantTrace.TwoModelArtifactsRaise`), exactly when no accepted
  model round holds a single artifact (`FinQuantTrace.OutcomeErrors`).
- Two clusters can share an identifier (`ClusterAssignments.SeparatorInNameCollides`), exactly when two disjoint groups
  of names are joined to the same string (`ClusterAssignments.IdsGovernedExactly`), which needs a name with ":"
  (`ClusterAssignments.ColonFreeIsUnambiguous`).
- An incumbent whose verification raises an error with an empty text counts as one without an error, so its candidate
  keeps free ablation trials next to a forced incumbent trial (`TrialFamily.SilentFailureExists`,
  `TrialFamily.SilentSplits`); trials are all free or all forced exactly for the other candidates
  (`TrialFamily.AllOrNothing`).  The finalization at scripts/evaluate_quant_bundle.py:541-634 later fails such a
  candidate, but does not force its ablation trials.
- In a factor batch a failed evaluation drops out of its family and can lower the q-value of its siblings
  (`FactorBatchFamilies.SiblingFailureLowersQ`), exactly when the survivors declare less than the size the family had
  (`FactorBatchFamilies.FailureKeepsSize`, `FactorBatchFamilies.FailureNeverHelps`,
  `FactorBatchFamilies.UncoveredFailureHelps`).
- A revalidation locks its horizon before its event key, an ordinary creation of an event the other way round
  (src/quant_platform/autopilot.py:896-914), so they can wait for each other in pairs and rings
  (`OperatorDeadlocks.DeadlockCanArise`, `OperatorDeadlocks.RingCanArise`) until one is aborted
  (`OperatorDeadlocks.HeldForever`).  A revalidation can go on, and everybody can finish, exactly when there is no set
  of transactions each of which needs a lock that another of them holds (`OperatorDeadlocks.LocksEventExactly`,
  `OperatorDeadlocks.AllFinishExactly`).
- A patch writes a state that it read in an earlier transaction (src/quant_platform/autopilot.py:1073-1087).  A patch
  that read an existing event before a revalidation took it up can erase the import mark, and a second successor of the
  source can then commit (`OperatorStaleWrites.StalePatchLosesImport`,
  `OperatorStaleWrites.PatchedSourceIsImportedTwice`).  A write allows that exactly when neither the written state nor
  another cycle names the source, and only a successor that existed before can lose the name
  (`OperatorStaleWrites.StaleWriteDecides`).  Recoveries and added successors are safe from any such write
  (`OperatorRuns.OneRecoveryPerCycle`, `OperatorRuns.OneImportPerSource`).

## Model

| member | source | states |
|---|---|---|
| UnionFind.HalvingKeepsRoots | scripts/cluster_factor_library.py:324-328 | Moving a vertex to its grandparent, as the walk of `find` does, changes the root of no vertex |
| UnionFind.LinkingMovesRoot | scripts/cluster_factor_library.py:330-333 | Hanging the larger root below the smaller one keeps parents at or below their index and sends exactly the members of the larger root to the smaller |
| UnionFind.Find | scripts/cluster_factor_library.py:324-328 | Terminates, returns the root of the start, and rewrites the parents without changing any root |
| UnionFind.Union | scripts/cluster_factor_library.py:330-333 | The two trees share the smaller of their roots afterwards, and every other vertex keeps its root |
| UnionFind.ClosedForestRepresents | scripts/cluster_factor_library.py:335-339 | Once every edge is closed, two vertices have the same root exactly when a chain of edges joins them, and each root is the smallest vertex of its component |
| UnionFind.RootsDependOnlyOnTheGraph | scripts/cluster_factor_library.py:335-342 | Any two forests that represent the same graph have the same roots: the scan order leaves no trace |
| UnionFind.MergeEdges | scripts/cluster_factor_library.py:335-339 | Merging the edges in any order ends with a forest that represents the graph |
| FactorClusters.NearDuplicateForest | scripts/cluster_factor_library.py:322-339 | After the double loop two definitions have the same root exactly when a chain of finite similarities at or above the near-duplicate threshold joins them |
| FactorClusters.GroupComponents | scripts/cluster_factor_library.py:340-345 | The components come in the order of their smallest member, each lists exactly the definitions under its root in increasing order, and the grouping walks change no root |
| FactorClusters.ListedOnce | scripts/cluster_factor_library.py:340-345 | Every definition has exactly one place in the components |
| FactorClusters.CrossDistance | scripts/cluster_factor_library.py:355-358 | One minus the least finite cross similarity, or one when no cross pair is finite |
| FactorClusters.ComponentDistances | scripts/cluster_factor_library.py:349-360 | A symmetric matrix holding the cross distance of every two components |
| CompleteLinkage.ClosestPair | scripts/cluster_factor_library.py:361-365 | A pair of clusters whose complete-linkage distance is least, or none when one cluster is left |
| CompleteLinkage.NextStage | scripts/cluster_factor_library.py:361-365 | Merging a closest pair extends the hierarchy, and its height is at least the last one |
| CompleteLinkage.Linkage | scripts/cluster_factor_library.py:361-365 | A full hierarchy from single components to one cluster: every stage merges a closest pair of clusters of the stage before, and heights never fall |
| CompleteLinkage.Cut | scripts/cluster_factor_library.py:366-370 | Inside a flat cluster all distances are at most the cut, any two flat clusters hold a pair beyond it, and the labels are the stage between the merges up to the cut and those beyond |
| CompleteLinkage.HierarchyIsDetermined | scripts/cluster_factor_library.py:361-365 | With distinct distances there is one hierarchy, whatever the order in which pairs are scanned |
| CompleteLinkage.FlatClustersAreDetermined | scripts/cluster_factor_library.py:361-370 | With distinct distances two runs end with the same flat clusters |
| FactorClusters.CutIsGoverned | scripts/cluster_factor_library.py:343-370 | Cutting at one minus the cluster threshold gives a governed clustering, for every symmetric similarity and positive threshold |
| FactorClusters.ClusterLabels | scripts/cluster_factor_library.py:322-370 | Near-duplicate chains stay together; two components in one cluster are comparable and have no finite cross similarity below the threshold; no two clusters could be merged without breaking that |
| FactorClusters.DirectSimilarityInsideCluster | scripts/cluster_factor_library.py:311-317 | Inside a cluster a finite direct similarity between different components reaches the cluster threshold: no chaining through a third factor |
| FactorClusters.RelabelledGoverned | scripts/cluster_factor_library.py:371-379 | The guarantee depends on the partition alone, so it survives the renaming of labels to identifiers |
| ClusterAssignments.JoinInjective | scripts/cluster_factor_library.py:375-378 | Joining names with ":" is injective on lists of names without ":" |
| ClusterAssignments.IdsFollowLabels | scripts/cluster_factor_library.py:371-378 | Unless two disjoint groups of names are joined to the same string, two definitions get the same identifier exactly when they have the same label |
| ClusterAssignments.IdsGovernedExactly | scripts/cluster_factor_library.py:371-379 | Identifiers are a governed clustering for every similarity exactly when no two disjoint groups of names are joined to the same string |
| ClusterAssignments.AmbiguousNamesCollide | scripts/cluster_factor_library.py:371-378 | Otherwise a similarity exists for which every governed clustering gives two different clusters one identifier |
| ClusterAssignments.SeparatorInNameCollides | scripts/cluster_factor_library.py:375-378 | With names "a", "a:b" and "b" every governed clustering of one similarity keeps "a:b" apart and gives it the identifier of the other two |
| ClusterAssignments.ColonFreeIsUnambiguous | scripts/cluster_factor_library.py:375-378 | Distinct names without ":" never have two such groups |
| ClusterAssignments.GovernedClusterAssignments | scripts/cluster_factor_library.py:304-379 | Fails exactly on a wrong shape or no definitions; otherwise every name is assigned, and unless two disjoint groups of names are joined alike the identifiers are a governed clustering |
| RankCorrelation.RanksFollowValues | scripts/cluster_factor_library.py:203-207 | Average ranks order the observed rows exactly as their values do, ties included |
| RankCorrelation.RanksSeeOnlyOrder | scripts/cluster_factor_library.py:203-207 | Strictly increasing rescalings of a column leave its ranks unchanged |
| RankCorrelation.RanksReversed | scripts/cluster_factor_library.py:203-207 | Ranking the other way round mirrors every rank, so ties take neither their first nor their last place |
| RankCorrelation.RanksAddUp | scripts/cluster_factor_library.py:203-207 | The ranks of n observed rows add up to 1 + 2 + ... + n, ties or not |
| RankCorrelation.MaskedSums | scripts/cluster_factor_library.py:208-214 | The masked products are the count, sums, square sums and cross sum over the rows both columns observe |
| RankCorrelation.MaskedFormulaIsDirect | scripts/cluster_factor_library.py:215-217 | The masked covariance and variances are the textbook sums of products of deviations over the common rows |
| RankCorrelation.CauchySchwarz | scripts/cluster_factor_library.py:215-220 | The square of a sum of products is at most the product of the two sums of squares |
| RankCorrelation.CovarianceBound | scripts/cluster_factor_library.py:215-220 | Covariance squared is at most left variance times right variance, both nonnegative |
| RankCorrelation.TransposedTerms | scripts/cluster_factor_library.py:210-217 | Transposing swaps left and right variance and keeps count and covariance |
| RankCorrelation.CorrelationIsPearson | scripts/cluster_factor_library.py:218-229 | An entry is finite exactly for enough common rows and positive variances; it is then the Pearson quotient, lies in [-1, 1], and is symmetric, so averaging and clipping change nothing |
| RankCorrelation.SelfCorrelation | scripts/cluster_factor_library.py:218-229 | A factor correlates with itself at one or not at all |
| DailyAccumulation.OffsetsIncrease | scripts/cluster_factor_library.py:82-94 | Date offsets strictly increase, so no date slice is empty |
| DailyAccumulation.SliceOf | scripts/cluster_factor_library.py:82-94 | Every row lies in a slice |
| DailyAccumulation.SliceOfIsUnique | scripts/cluster_factor_library.py:82-94 | No row lies in two slices |
| DailyAccumulation.SlicesAreDates | scripts/cluster_factor_library.py:82-94 | On sorted rows two rows share a slice exactly when they share a date |
| DailyAccumulation.SliceIsDate | scripts/cluster_factor_library.py:82-94 | On sorted rows a slice of any column is what grouping by its date gives |
| DailyAccumulation.DayEntryExactly | scripts/cluster_factor_library.py:270-276 | A day counts for two factors exactly when at least twenty instruments have both ranks and both vary over them, and then with the Pearson coefficient of the two rank columns |
| DailyAccumulation.DayEntryFacts | scripts/cluster_factor_library.py:270-276 | A daily entry is symmetric in the two factors and has absolute value at most one |
| DailyAccumulation.TotalsBounded | scripts/cluster_factor_library.py:269-276 | Totals are symmetric, and the absolute sum never exceeds the eligible days, which never exceed the dates processed |
| DailyAccumulation.DaysAreEligible | scripts/cluster_factor_library.py:269-276 | The day count is the number of dates that count |
| DailyAccumulation.SumBetween | scripts/cluster_factor_library.py:269-276 | The total lies between as many times the least and as many times the greatest daily absolute correlation |
| DailyAccumulation.AddDay | scripts/cluster_factor_library.py:269-276 | Adding one date turns the exact totals of d dates into the exact totals of d + 1 dates |
| DailyAccumulation.AssembleSimilarity | scripts/cluster_factor_library.py:423-436 | Symmetric, one on the diagonal, and the mean over eligible days wherever there are enough of them |
| DailyAccumulation.SimilaritiesInUnit | scripts/cluster_factor_library.py:423-436 | Every mean similarity lies in [0, 1] |
| DailyAccumulation.CrossDistanceInUnit | scripts/cluster_factor_library.py:355-360 | Every linkage distance lies in [0, 1] |
| ResumablePipeline.OutputDirectory.BuildMatrix | scripts/cluster_factor_library.py:123-187 | Whether it finishes or is killed at any durable write, rows below `next_factor` are complete and none is lost; it fails exactly on inconsistent tables, and takes no more writes than the missing rows need |
| ResumablePipeline.OutputDirectory.Correlate | scripts/cluster_factor_library.py:242-301 | The durable checkpoint is always the exact prefix sum up to `next_date`, for any checkpoint interval and kill; it never falls back, and only the dates behind it are processed |
| ResumablePipeline.OutputDirectory.Launch | scripts/cluster_factor_library.py:406-421 | One launch of both stages keeps the directory valid and loses nothing that was done; it is not killed when it lives longer than what is left takes, and when it finishes it returns the exact totals |
| ResumablePipeline.RestartUntilDone | scripts/cluster_factor_library.py:123-301 | From an empty directory any sequence of killed launches and a last complete one ends with the complete matrix and the exact totals |
| ResumablePipeline.HistoriesAgree | scripts/cluster_factor_library.py:123-301 | Two histories of kills and restarts over one materialization end with equal totals |
| ClusterLibrary.SimilarityIsDetermined | scripts/cluster_factor_library.py:413-436 | The similarity matrix and totals are a function of the materialization |
| ClusterLibrary.SimilarityInUnit | scripts/cluster_factor_library.py:423-436 | All similarities that reach the clustering lie in [0, 1] |
| ClusterLibrary.SlicesByDate | scripts/cluster_factor_library.py:82-94 | With tables sorted by date, what a factor contributes to one day are the values of its own rows of that date, in order |
| ClusterLibrary.SimilarityIsMean | scripts/cluster_factor_library.py:423-436 | A similarity is known exactly with at least sixty eligible dates, and that many times it is the total of the daily absolute correlations |
| ClusterLibrary.SimilarityBetween | scripts/cluster_factor_library.py:434-436 | A similarity lies between the least and the greatest daily absolute correlation over the eligible dates; days of one value give that value |
| ClusterLibrary.TwinsAreSimilar | scripts/cluster_factor_library.py:423-436 | Two factors that order the instruments alike on at least sixty eligible dates have similarity one |
| ClusterLibrary.ClusterFactorLibrary | scripts/cluster_factor_library.py:382-436 | End to end: fails exactly on bad thresholds, bad interval, fewer than two factors or inconsistent tables; otherwise, whatever was killed on the way, the identifiers of unambiguous names are governed by the exact mean correlations |
| SessionWindows.AcceptedContract | scripts/model_sandbox_runner.py:327-382 | Every accepted label contract, legacy or horizon, prices from one to h + 1 sessions ahead and isolates by at least h + 1 |
| SessionWindows.ContractAcceptedExactly | scripts/model_sandbox_runner.py:327-382 | A manifest is accepted exactly without a contract, with the untouched legacy one, or with an intact horizon contract that agrees with its window; the contract used is the one written down |
| SessionWindows.ContractRefusedTruly | scripts/model_sandbox_runner.py:327-382 | Every refusal of a contract names something that is wrong with the manifest |
| SessionWindows.WindowsAcceptedExactly | scripts/model_sandbox_runner.py:519-550 | Windows are accepted exactly when their boundaries are sessions, the gaps cover purge and embargo, and early stopping keeps a session |
| SessionWindows.WindowsRefusedTruly | scripts/model_sandbox_runner.py:519-550 | Every refusal of windows names a boundary that is no session or a gap that is too short |
| SessionWindows.RunAcceptedExactly | scripts/model_sandbox_runner.py:497-582 | A run is accepted exactly when contract and windows are, a live one predicts one sealed date, and a research one keeps its cadence, opens the test only once allowed, and ends before a known boundary |
| SessionWindows.RunRefusedTruly | scripts/model_sandbox_runner.py:497-582 | Every refusal of a run names something it asks for wrongly |
| SessionWindows.FitsExactly | scripts/model_sandbox_runner.py:539-544 | The model is trained on exactly the sessions of the training window, and stopped early on exactly the validated sessions that have `purge` further ones up to the validation end; the latter holds exactly for a nonnegative purge |
| SessionWindows.NoLeak | scripts/model_sandbox_runner.py:519-550 | For an accepted contract that isolates by at least one session: no training label reads a price at or after the validation start, no early-stopping label one after the validation end, and no label up to the validation end reaches the test start |
| SessionWindows.OrdinaryContractsIsolate | scripts/model_sandbox_runner.py:519-550 | The same for the legacy contract and for every nonnegative horizon |
| SessionWindows.UnpurgedLeak | scripts/model_sandbox_runner.py:535-538 | A contract without purge passes the checks on some calendar and leaks |
| SessionWindows.UnembargoedLeak | scripts/model_sandbox_runner.py:545-550 | A contract without embargo passes the checks on some calendar and leaks |
| SessionWindows.IsolationExactly | scripts/model_sandbox_runner.py:373-379 | For accepted contracts, isolation on every calendar holds exactly for a purge and an embargo of at least one session |
| SessionWindows.AcceptedLeakExists | scripts/model_sandbox_runner.py:360-582 | A research run with label horizon -1 passes every check under each active profile, on windows whose test start is a session, although its label reads the first validation price |
| SessionWindows.TestIsolationExactly | scripts/model_sandbox_runner.py:497-582 | For an accepted run with an embargo no label up to the validation end reaches a session of the test window, exactly when the label of the validation end ends before the first of them; when the test start is a session that always holds |
| SessionWindows.LiveRunsAreIsolated | scripts/model_sandbox_runner.py:557-568 | Live inference and retraining predict one date, which no label up to the validation end reaches |
| SessionWindows.TestStartBetweenSessions | scripts/model_sandbox_runner.py:497-582 | A research run with labels of one session passes every check with a test start between two sessions, and the label of the validation end reads into the test window |
| ModelRefit.TrainingLaysOut | scripts/run_model_refit.py:57-104 | Whenever training windows resolve, the prediction length is one, the test day is the signal day, and exactly the purge and embargo sessions of the policy separate the windows |
| ModelRefit.RetrainsExactly | scripts/run_model_refit.py:365-398 | The script accepts a retraining exactly under its own policy and on a session that ends a history of the required length |
| ModelRefit.TrainingRefusedTruly | scripts/run_model_refit.py:57-104 | Under positive windows a training day is refused only because the signal is no session, the history is short, or the policy does not predict exactly one session, and the error tells which |
| ModelRefit.RetrainingPredictsOneDay | scripts/run_model_refit.py:365-398 | Every accepted retraining predicts exactly one session, the signal date, on windows of the policy lengths and gaps |
| ModelRefit.PredictionLengthExactly | scripts/run_model_refit.py:76-103 | Of the training calendar alone, which `main` calls with one policy only: under any policy with positive windows it predicts exactly one session for every calendar exactly when the required length is positive |
| ModelRefit.InferenceAcceptedExactly | scripts/run_model_refit.py:107-155 | The daily re-check accepts exactly the sessions on which the frozen windows still have the lengths of the policy and at least its gaps; it keeps them and predicts the signal date |
| ModelRefit.InferenceRefusedTruly | scripts/run_model_refit.py:107-155 | Every refusal of the daily re-check names a boundary that is no past session, or the length or gap that changed |
| ModelRefit.FrozenWindowsStayAccepted | scripts/run_model_refit.py:107-155 | The frozen windows pass the daily re-check on the training day and on every later session of every extension of the calendar |
| ModelRefit.RunnerAgrees | scripts/model_sandbox_runner.py:529-550 | Whatever the daily re-check accepts, the runner accepts too, when the policy gaps cover the label and validation is longer than the purge |
| ModelRefit.FrozenModelNeverLeaks | scripts/run_model_refit.py:57-155 | A model frozen on a training day leaks no label on that day or any later session, on either side |
| ModelRefit.RefreshNeverLeaks | scripts/run_model_refit.py:365-462 | After one accepted retraining the script and the runner it calls accept the daily inference on every later session, and no label leaks for any contract no longer than the legacy one |
| ModelRefit.PlatformPolicyFits | src/quant_platform/model_research_governance.py:49-58 | The policy of the platform meets the conditions for the legacy contract |
| FinQuantTrace.SnapshotsAreExecutable | scripts/rdagent_bridge.py:709-775 | A snapshot has one artifact per task and no blank code, in its own and in its based artifacts |
| FinQuantTrace.SnapshotExactly | scripts/rdagent_bridge.py:709-775 | A snapshot exists exactly for typed tasks of one kind, each with code of that kind in its own workspace, and readable features; artifact k then has the name and payload of task k and the source of workspace k |
| FinQuantTrace.BasedListExactly | scripts/rdagent_bridge.py:750-768 | The based list holds exactly the typed tasks with code of the earlier experiments of equal lengths, in order, each with its own source |
| FinQuantTrace.BlankStripsToNothing | scripts/rdagent_bridge.py:731-732 | Code is blank exactly when stripping white space from both ends leaves nothing |
| FinQuantTrace.LoopsWithExactly | scripts/rdagent_bridge.py:849-865 | A coverage list holds exactly the loops of the rounds so marked |
| FinQuantTrace.CoverRound | scripts/rdagent_bridge.py:844-865 | One round enters its loop into the lists of its arm, and is refused exactly for an unsupported action or a disagreeing snapshot |
| FinQuantTrace.ArmCoverage | scripts/rdagent_bridge.py:829-887 | Coverage is refused exactly when some round is, and otherwise lists the marked rounds of both arms |
| FinQuantTrace.MaterializeBundles | scripts/rdagent_bridge.py:934-1052 | The loop computes the replay of the trace |
| FinQuantTrace.BundlesOfPrefix | scripts/rdagent_bridge.py:938-1052 | The bundles of a prefix of the rounds are a prefix of the bundles |
| FinQuantTrace.ReplayHoldsLatest | scripts/rdagent_bridge.py:946-963 | The replay holds the latest accepted version of every factor and of the model, and based artifacts only where nothing was accepted |
| FinQuantTrace.BundleOrigin | scripts/rdagent_bridge.py:966-1051 | Every bundle was emitted by an accepted round with its loop and holds the state of that moment |
| FinQuantTrace.BundleHoldsLatest | scripts/rdagent_bridge.py:973-1051 | A bundle holds, once each, the latest accepted version of every factor and the model up to its own loop |
| FinQuantTrace.EmitsExactly | scripts/rdagent_bridge.py:966-1009 | A round emits one bundle exactly when it contributes and both arms have contributed by then |
| FinQuantTrace.EmptyExactly | scripts/rdagent_bridge.py:966-1052 | There is no bundle exactly when some arm never contributed |
| FinQuantTrace.OutcomeErrors | scripts/rdagent_bridge.py:895-905 | The "escaped" error never occurs; the "no joint proposal" error occurs exactly when coverage is complete although no accepted model round holds a single artifact |
| FinQuantTrace.OutcomeExactly | scripts/rdagent_bridge.py:895-905 | The outcome is ready exactly when both arms contributed, incomplete in acceptance when both were tried but not both succeeded, and incomplete in attempts when some arm was never tried |
| FinQuantTrace.CompleteCoverageYieldsBundles | scripts/rdagent_bridge.py:890-921 | With one artifact per accepted model round, complete coverage is the same as having bundles, and the completing and every later accepted round emits one |
| FinQuantTrace.TwoModelArtifactsRaise | scripts/rdagent_bridge.py:959-961 | Two artifacts in the accepted model round make the "no joint proposal" error reachable |
| ArmLauncher.NextMissingArm | scripts/run_rdagent_module.py:140-143 | Factor exactly when it was never attempted, else model exactly when that was not, else none |
| ArmLauncher.Controller.Record | scripts/run_rdagent_module.py:175-181 | Adds the arm to the attempted ones and passes it on, or refuses an unsupported one |
| ArmLauncher.Controller.Decide | scripts/run_rdagent_module.py:183-196 | Always makes the official draw, and replaces it exactly while an arm was never attempted, by the factor arm before the model arm |
| ArmLauncher.RunArms | scripts/run_rdagent_module.py:146-211 | Whatever actions the language model echoes, the run holds its texts under the host choice of arms: factor, model, then the official draws; every draw is made, every arm is recorded, and the first unsupported draw ends the run |
| ArmLauncher.EchoedTraceMissesAnArm | scripts/run_rdagent_module.py:198-206 | Had the echoes been kept, a language model that always echoes factor would leave the model arm unattempted in every trace without results |
| ArmLauncher.RunCoversBothArms | scripts/rdagent_bridge.py:844-881 | The exported coverage of any run of at least two iterations is accepted and reports both arms attempted |
| ArmLauncher.LaunchAndExport | scripts/run_rdagent_module.py:146-211 | Every trace of at least two iterations of a run has attempted coverage of both arms |
| RankedFamilies.ArgSort | src/quant_platform/statistical_validation.py:66-67 | A permutation that puts the values in ascending order, ties in any way |
| RankedFamilies.CountedPositions | src/quant_platform/statistical_validation.py:66-68 | In sorted order the values up to a bound occupy exactly the first positions, as many as there are |
| RankedFamilies.SuffixMinima | src/quant_platform/statistical_validation.py:69-69 | Each entry is the least value from its position on |
| RankedFamilies.PrefixMaxima | src/quant_platform/statistical_validation.py:84-86 | Each entry is the greatest value up to its position |
| Multiplicity.SuffixMinimumIsStepUp | src/quant_platform/statistical_validation.py:66-69 | The running minimum equals the least, over all members from a value up, of that member times the family size over the number of members up to it, wherever ties were put |
| Multiplicity.StepUpBounds | src/quant_platform/statistical_validation.py:68-71 | Every q-value lies between its own p-value and one |
| Multiplicity.StepUpMonotone | src/quant_platform/statistical_validation.py:68-71 | q-values are monotone in p-values and unique |
| Multiplicity.StepUpDecides | src/quant_platform/statistical_validation.py:61-73 | A q-value is at most alpha exactly for the hypotheses the 1995 step-up procedure rejects at level alpha |
| Multiplicity.StepUpPadding | scripts/evaluate_factor_sota_increment.py:678-690 | Adding ones to a family never lowers the q-value of a member |
| Multiplicity.StepUpDominated | src/quant_platform/statistical_validation.py:61-73 | Raising p-values, in any order, never lowers a q-value |
| Multiplicity.BenjaminiHochberg | src/quant_platform/statistical_validation.py:61-73 | Fails exactly on a value outside [0, 1]; otherwise every position gets its step-up value |
| HolmAdjustment.PrefixMaximumIsStepDown | src/quant_platform/statistical_validation.py:81-86 | The running maximum equals the greatest, over all members up to a value, of that member times the number of members not below it |
| HolmAdjustment.StepDownDecides | src/quant_platform/statistical_validation.py:76-91 | An adjusted value is at most alpha exactly for the hypotheses the Holm procedure rejects at level alpha |
| HolmAdjustment.StepDownAbove | src/quant_platform/statistical_validation.py:84-90 | An adjusted value is never below its own p-value |
| HolmAdjustment.StepDownMonotone | src/quant_platform/statistical_validation.py:84-90 | Adjusted values are monotone in p-values and unique |
| HolmAdjustment.StepDownPadding | src/quant_platform/statistical_validation.py:76-91 | Adding ones to a family never lowers an adjusted value |
| HolmAdjustment.StepDownRaised | src/quant_platform/statistical_validation.py:76-91 | Raising p-values never lowers an adjusted value |
| HolmAdjustment.HolmBonferroni | src/quant_platform/statistical_validation.py:76-91 | Fails exactly on a value outside [0, 1]; otherwise every position gets its clipped step-down value |
| HypothesisFamilies.EveryCandidateIsTried | scripts/evaluate_factor_sota_increment.py:596-666 | Early trials and attempts together hold every candidate once |
| HypothesisFamilies.Classify | scripts/evaluate_factor_sota_increment.py:596-666 | The loop separates preflight rejections, failures and attempts |
| HypothesisFamilies.FamiliesKeepTheirSize | scripts/evaluate_factor_sota_increment.py:667-690 | Whatever fails, both families hold exactly the declared number of hypotheses, and every candidate has exactly one trial |
| HypothesisFamilies.EvaluatedOnOwnValues | scripts/evaluate_factor_sota_increment.py:640-781 | An evaluated candidate enters each family with its own p-value for it, gets the step-up value of that, and is accepted exactly when it is selected and admitted on its own q-values |
| HypothesisFamilies.EarlyOnesEnd | scripts/evaluate_factor_sota_increment.py:596-666 | A candidate that is turned down before evaluation ends rejected, and every other one that is not evaluated failed |
| HypothesisFamilies.FamilyEntries | scripts/evaluate_factor_sota_increment.py:667-690 | Behind the evaluated hypotheses come the failed ones at one, the earlier ones with their p-values, and the unknown earlier ones at one |
| HypothesisFamilies.FailingNeverHelps | scripts/evaluate_factor_sota_increment.py:667-690 | A hypothesis that fails instead of being evaluated never lowers the q-value of another |
| HypothesisFamilies.DroppingNeverRaises | scripts/evaluate_factor_sota_increment.py:667-690 | Dropping the failed hypotheses would never raise a surviving q-value |
| HypothesisFamilies.Select | scripts/evaluate_factor_sota_increment.py:691-781 | The admitted candidate with the least worse q-value, then largest improvement, then first identifier is selected, and nobody exactly when nobody is admitted |
| HypothesisFamilies.SelectedIsBest | scripts/evaluate_factor_sota_increment.py:691-781 | Nobody admitted has a smaller worse q-value than the selected one, with the same q-value a larger improvement, or with the same of both an earlier identifier |
| HypothesisFamilies.EvaluateFamily | scripts/evaluate_factor_sota_increment.py:576-790 | Fails with the first objection in order, or returns q-values that are step-up values of the padded families and the final trial statuses |
| HypothesisFamilies.AtMostOneAccepted | scripts/evaluate_factor_sota_increment.py:778-790 | With distinct identifiers at most one trial is accepted, it is the selected one, and none is left undecided |
| HypothesisFamilies.SelectedIsAccepted | scripts/evaluate_factor_sota_increment.py:778-790 | A selected candidate does have an accepted trial |
| FactorBatchFamilies.FamilySize | scripts/evaluate_factor_batch.py:438-448 | A family holds as many hypotheses as were declared, or as were measured when those are more |
| FactorBatchFamilies.FailureKeepsSize | scripts/evaluate_factor_batch.py:430-448 | When an evaluation fails its family never grows, and keeps its size exactly when the survivors declare at least the size it had |
| FactorBatchFamilies.FailureNeverHelps | scripts/evaluate_factor_batch.py:430-453 | In that case the failure never lowers the q-value of another evaluation |
| FactorBatchFamilies.UncoveredFailureHelps | scripts/evaluate_factor_batch.py:430-453 | In every other case with survivors it lowers them for equal p-values next to a failed one of p-value one |
| FactorBatchFamilies.SiblingFailureLowersQ | scripts/evaluate_factor_batch.py:438-449 | Two candidates that declare one hypothesis each, or one and three: the failure of the second turns 0.06, or 0.09, into 0.03 |
| FactorBatchFamilies.AssignQValues | scripts/evaluate_factor_batch.py:430-453 | Every grouped evaluation receives the step-up value of its own padded family, and nothing else is written |
| LongShort.LongsAboveShorts | scripts/evaluate_factor_sota_increment.py:137-139 | Every instrument held long has a higher prediction than every one held short |
| LongShort.Balanced | scripts/evaluate_factor_sota_increment.py:142-144 | Weights sum to zero and their absolute values to two |
| LongShort.TurnoverIsADistance | scripts/evaluate_factor_sota_increment.py:147-158 | Turnover is nonnegative, symmetric, zero only between equal books, and satisfies the triangle inequality |
| LongShort.TurnoverBounds | scripts/evaluate_factor_sota_increment.py:147-158 | Turnover between traded books is at most two, and from an empty book exactly one |
| LongShort.GrossIsSpread | scripts/evaluate_factor_sota_increment.py:145-146 | The gross return is the mean label of the long side minus that of the short side |
| LongShort.DailyLongShortNet | scripts/evaluate_factor_sota_increment.py:123-164 | Fails under thirty cohorts; otherwise the entries are the traded dates in order, each pays its spread less the cost rate times what is traded against the book held before, and the total pays the total spread less the cost rate times the total turnover |
| LongShort.RatesOnlyCharge | scripts/evaluate_factor_sota_increment.py:160-160 | A higher cost rate pays on no date, and without costs every date pays its spread |
| LongShort.TurnoverIsBounded | scripts/evaluate_factor_sota_increment.py:147-160 | Over a whole history the total turnover is between one and twice the number of trades minus one |
| LongShort.SeriesSeesOnlyOrder | scripts/evaluate_factor_sota_increment.py:137-160 | Any daily increasing rescaling of the predictions leaves the whole series unchanged |
| LongShort.SideSizes | scripts/evaluate_factor_sota_increment.py:137-141 | Without ties the short side holds a fifth of the cohort rounded down and the long side one more, so cohorts of ten or more always trade |
| SortedLists.ListedOnce | scripts/evaluate_quant_bundle.py:1819-1819 | A set has only one ascending listing |
| TrialFamily.NotRejectedIsVerified | scripts/evaluate_quant_bundle.py:1793-1809 | A candidate without an incumbent error has a verified incumbent, its own or that of another candidate, unless its verification failed with an empty text |
| TrialFamily.NothingVerified | scripts/evaluate_quant_bundle.py:1793-1815 | The family is refused exactly when no named incumbent could be verified |
| TrialFamily.AssembleCandidate | scripts/evaluate_quant_bundle.py:1838-1959 | The four trials of a candidate, their forcing and its final status |
| TrialFamily.AssembleFamily | scripts/evaluate_quant_bundle.py:1780-1959 | The loops assemble the family, or fail exactly when no incumbent is verified |
| TrialFamily.FamilyShape | scripts/evaluate_quant_bundle.py:1819-1959 | One trial per distinct incumbent and four per candidate, named by identity alone |
| TrialFamily.JudgedByOwnReturns | scripts/evaluate_quant_bundle.py:1838-1959 | A free ablation trial carries the returns of that candidate for that ablation, and a free trial against the incumbent what the joint bundle earned on top of the verified incumbent on every common day, at least forty of them; other series are its own evidence or flat |
| TrialFamily.IncumbentJudgedByOwnReturns | scripts/evaluate_quant_bundle.py:1819-1836 | An incumbent trial carries the verified returns of that incumbent, or is forced and flat |
| TrialFamily.VerifiedFrom | scripts/evaluate_quant_bundle.py:1793-1809 | The returns of a verified incumbent are those of the first candidate whose verification gave any |
| TrialFamily.IncumbentsWithTrial | scripts/evaluate_quant_bundle.py:1819-1836 | The incumbents with a trial are exactly those that some candidate names, each once |
| TrialFamily.NamesIgnoreFailures | scripts/evaluate_quant_bundle.py:1819-1959 | Whichever candidates and incumbents fail, the family has the same trial names in the same order |
| TrialFamily.NamesAreDistinct | src/quant_platform/model_research_governance.py:213-218 | No two trials share a name, so the multiple-testing step never refuses them |
| TrialFamily.AllOrNothing | scripts/evaluate_quant_bundle.py:1838-1948 | The four trials of a candidate are all free when it has passed and all forced to one when it has not, exactly for candidates whose incumbent did not fail silently |
| TrialFamily.SilentSplits | scripts/evaluate_quant_bundle.py:1791-1948 | A silent failure leaves a candidate passed with its ablation trials free and only the trial against the incumbent forced |
| TrialFamily.SilentFailureExists | scripts/evaluate_quant_bundle.py:1808-1842 | Two candidates, one verified and one failing with an empty text, reach that case |
| TrialFamily.PassedIncumbentIsFree | scripts/evaluate_quant_bundle.py:1793-1836 | Unless it failed silently, the incumbent of a passed candidate was verified and its trial is free |
| TrialFamily.IncumbentForcedExactly | scripts/evaluate_quant_bundle.py:1819-1836 | An incumbent trial is forced exactly when nothing verified it |
| TrialFamily.ForcedIsNeverEligible | src/quant_platform/model_research_governance.py:235-267 | A forced trial has adjusted value one and is never eligible |
| TrialFamily.ForcingNeverHelpsOthers | src/quant_platform/model_research_governance.py:235-267 | Forcing more trials of the same family never lowers the adjusted value of a free one |
| ValidationGrid.RunAblation | scripts/evaluate_quant_bundle.py:1368-1469 | The nested loops visit the cells in order up to the first that does not pass, execute all of them but the reused one, and report blocked, failed or inconsistent accordingly |
| ValidationGrid.RunValidationGrid | scripts/evaluate_quant_bundle.py:1472-1487 | The grid is the screen followed by the ablations in order, cut at the first that is blocked or raises |
| ValidationGrid.NothingAfterAStop | scripts/evaluate_quant_bundle.py:1312-1487 | Whatever happens the first joint cell comes first, and no cell is executed after one that did not pass |
| ValidationGrid.PassesExactly | scripts/evaluate_quant_bundle.py:1644-1750 | A candidate passes exactly when every cell of every ablation passes in one and the same environment |
| ValidationGrid.EachCellOnce | scripts/evaluate_quant_bundle.py:1312-1487 | In a passing evaluation the first joint cell is executed once and every other cell once per listing of its profile |
| ValidationGrid.VerdictFollowsLastCell | scripts/evaluate_quant_bundle.py:1644-1778 | The verdict follows the last executed cell: a passed one passes and a blocked one blocks validation exactly when all executed cells ran in one environment, and fail the candidate otherwise; a blocked first cell blocks screening, an unsupported baseline blocks except at the first cell, and any other error fails the candidate |
| CellScheduler.Launch | src/quant_platform/model_cell_execution.py:336-372 | Everything running together fits the budget, exclusive cells run alone, no waiting cell would still fit beside the running ones, and if anything is pending something runs |
| CellScheduler.RunMany | src/quant_platform/model_cell_execution.py:317-420 | Receipts come back in call order, every call is launched once, the budget is never exceeded, and prompt processes finish within as many rounds as calls |
| ModelBatch.Aligned | scripts/evaluate_model_batch.py:503-508 | The next outcome taken from the iterator belongs to the cell at hand, whatever failed before |
| ModelBatch.Consume | scripts/evaluate_model_batch.py:497-573 | Every cell of the grid is recorded with its own outcome, and the first blocked and first failed cells are kept |
| ModelBatch.EvaluateCandidate | scripts/evaluate_model_batch.py:384-601 | Screen, grid and verdict together |
| ModelBatch.VerdictMeaning | scripts/evaluate_model_batch.py:574-601 | Blocked exactly when some cell hit a resource limit, failed exactly when none did but some cell broke, passed in an environment exactly when every cell completed there |
| PathBlanking.ComparesBlanked | scripts/evaluate_quant_bundle.py:66-88 | The comparison holds exactly when the two trees are equal after blanking the values under allowed keys |
| PathBlanking.IsAnEquivalence | scripts/evaluate_quant_bundle.py:66-88 | It is reflexive, symmetric and transitive |
| PathBlanking.AllowingMoreKeys | scripts/evaluate_quant_bundle.py:66-88 | Allowing more keys never makes equal trees differ |
| PathBlanking.PlainEquality | scripts/evaluate_quant_bundle.py:66-88 | Without allowed keys it is plain equality |
| PathBlanking.BlankingComposes | scripts/evaluate_quant_bundle.py:66-88 | Blanking with two key sets in turn blanks what either allows |
| CrossSections.SortThenCut | scripts/run_multifactor_backtest.py:863-864 | Sorting a panel and cutting it at a date commute |
| CrossSections.NoFuture | scripts/run_multifactor_backtest.py:856-869 | Panels that agree on the rows up to the query time give the same answer or failure |
| CrossSections.NoDataExactly | scripts/run_multifactor_backtest.py:865-866 | A query for a known column fails exactly when nothing has been observed yet |
| CrossSections.SectionMeaning | scripts/run_multifactor_backtest.py:867-869 | An answer holds, by instrument, the column value of exactly the rows of the latest date at or before the query |
| CrossSections.PreparedCrossSections.constructor | scripts/run_multifactor_backtest.py:879-888 | The prepared index holds the sorted rows and their distinct dates |
| CrossSections.PreparedCrossSections.Lookup | scripts/run_multifactor_backtest.py:890-908 | The prepared lookup answers every query as the naive one does, failures included |
| FactorHistory.NoFuture | scripts/run_multifactor_backtest.py:930-941 | The answer is unique, and two histories that agree up to the query give the same one |
| FactorHistory.SurvivesMissingQuotes | scripts/run_multifactor_backtest.py:912-917 | A known factor survives any stretch without a usable observation |
| FactorHistory.LastKnownMeans | scripts/run_multifactor_backtest.py:905-941 | A known factor is a finite positive number that was observed for the instrument up to the query with no finite positive one after it, and it is missing exactly if there was none |
| FactorHistory.Prepare | scripts/run_multifactor_backtest.py:919-931 | Refuses unknown times first and duplicate observations next; otherwise every row of the table knows the last usable factor of every instrument |
| FactorHistory.PreparedFactorHistory.Lookup | scripts/run_multifactor_backtest.py:933-941 | Each instrument gets the factor of its latest finite positive observation at or before the query, or missing |
| OperatorRuns.StartsWell | scripts/recover_fin_quant_result.py:171-178 | A database without marks and audit events and with distinct event keys, before any operator or creator, satisfies the invariant |
| OperatorTransactions.StepKeeps | scripts/recover_fin_quant_result.py:171-241 | Every statement of every operator and creator, every abort and every write of the platform keeps locks exclusive, verified rows unchanged, locked event keys unbound, and what recorded plans left in the cycles they wrote: branch, registered candidates, event key, and marks that name no other plan |
| OperatorTransactions.RunKeeps | scripts/revalidate_fin_quant_result.py:175-271 | The invariant holds after any interleaving of any number of operators, plans and creations of research events |
| OperatorTransactions.CommitKeeps | scripts/revalidate_fin_quant_result.py:206-271 | A commit, whether it recovers a cycle, adds a successor or takes up an existing event, keeps the invariant, and its plan was never recorded before |
| OperatorRuns.OneRecoveryPerCycle | scripts/recover_fin_quant_result.py:119-131 | At most one recovery is ever recorded for a cycle, also when the platform overwrites the mark with an older state: the candidates it registered refuse a second one |
| OperatorRuns.GuardStep | scripts/revalidate_fin_quant_result.py:164-166 | While some cycle names the source in its state, no step verifies or records a revalidation of the source |
| OperatorRuns.OneImportPerSource | scripts/revalidate_fin_quant_result.py:164-166 | At most one revalidation that adds its successor is ever recorded for a source whatever the platform writes, and at most one of any kind while the platform keeps import marks |
| OperatorRuns.OnePlanPerCycle | scripts/recover_fin_quant_result.py:174-178 | Both together: for a cycle at most one recovery, and for a source at most one revalidation while import marks are kept |
| OperatorRuns.OneSuccessorPerSource | scripts/revalidate_fin_quant_result.py:164-166 | While the platform keeps import marks, at most one cycle names a source in its state, new or reused |
| OperatorRuns.OneCyclePerKey | src/quant_platform/autopilot.py:896-934 | No event key is ever given to two cycles, whether revalidations or ordinary creations bring it |
| OperatorRuns.AtMostOneCommit | scripts/revalidate_fin_quant_result.py:175-271 | However many operators run, at most one transaction commits per recovered cycle, and per revalidated source while import marks are kept |
| OperatorRuns.OnlyCommitsWrite | scripts/recover_fin_quant_result.py:256-276 | However many checks, losers, aborts and replays a run holds, it leaves the database as it was unless an executing transaction commits or the platform writes |
| OperatorRuns.CommitWritesOneCycle | scripts/revalidate_fin_quant_result.py:206-249 | A commit stores its receipt and writes one cycle: the recovered one, or a successor that bears the event of the plan, new or an unfinished one without a joint branch created under the same request |
| OperatorRuns.WritesWhatThePlanSays | scripts/revalidate_fin_quant_result.py:206-249 | What a session writes for its plan: a recovery reactivates its cycle with its mark, new evidence and registered candidates and keeps the rest; a successor has the horizon of the source and the event of the plan, is active, joined and registered, and names its source |
| OperatorRuns.CreatesExactly | src/quant_platform/autopilot.py:896-935 | An ordinary creation that holds its key and finds the horizon unlocked adds its event exactly when no activity owns the horizon and the identifier is free |
| OperatorRuns.SchedulesExactly | src/quant_platform/autopilot.py:764-820 | A scheduled cycle that does not exist yet is added exactly when the horizon is unlocked, no research event is active or paused before its end on it, and the identifier is free |
| OperatorRuns.VerifiesExactly | scripts/recover_fin_quant_result.py:187-188 | Under its locks a session verifies its plan exactly when evidence, horizon and release are those of the plan, the activity is still in the reviewed state and nobody went on with it; otherwise it fails |
| OperatorRuns.CommitsAsReviewed | scripts/recover_fin_quant_result.py:187-241 | In every run a plan that commits finds, right before the commit, the evidence, horizon and state it was reviewed for, under the release it was reviewed for |
| OperatorRuns.RecordedPlansOnlyReplay | scripts/recover_fin_quant_result.py:174-178 | Once a plan is recorded, no later transaction of it does anything but hand back the stored receipt |
| OperatorRuns.ReceiptsPersist | scripts/recover_fin_quant_result.py:231-237 | A stored receipt never changes |
| OperatorRuns.RunSettles | scripts/revalidate_fin_quant_result.py:264-271 | Sessions that committed or replayed hold the stored receipt of their plan, and no plan is committed twice |
| OperatorProgress.SecondReadingAgrees | src/quant_platform/autopilot.py:896-934 | Under the locks a verified plan is refused exactly when another cycle mentions the recovered one, or for a revalidation when its key is bound to another request or to a finished, closed or already joined activity, or is unbound while an activity owns the horizon or the identifier is taken |
| OperatorProgress.UncontestedPlanCommits | scripts/recover_fin_quant_result.py:171-276 | A valid plan that nothing of this refuses and nobody contests commits when executed, with exactly its receipt and one cycle written, and is rolled back without a trace when checked |
| OperatorDeadlocks.LocksEventExactly | src/quant_platform/autopilot.py:896-914 | A verified revalidation can lock its event by statements alone, without anybody being aborted, exactly when it is in no set of transactions each of which needs a lock that another of them holds |
| OperatorDeadlocks.AllFinishExactly | scripts/revalidate_fin_quant_result.py:183-271 | All operators and creations can finish by statements alone exactly when no such set exists |
| OperatorDeadlocks.NoDeadlock | scripts/revalidate_fin_quant_result.py:183-212 | In particular all can finish unless an ordinary creation holds the event key that a revalidation is about to lock and waits for a horizon itself |
| OperatorDeadlocks.DeadlockStaysForever | src/quant_platform/autopilot.py:896-914 | No statement of anybody ends such a set |
| OperatorDeadlocks.HeldForever | src/quant_platform/autopilot.py:896-914 | When its sessions have verified, its members stay where they are whatever operators, creators and the platform do, until one of them is aborted |
| OperatorDeadlocks.DeadlockCanArise | src/quant_platform/autopilot.py:896-914 | Every revalidation that could commit under an unused key can be driven there by one ordinary creation with its key on its horizon |
| OperatorDeadlocks.RingCanArise | src/quant_platform/autopilot.py:896-914 | Two revalidations on different horizons and two creations can wait in a ring in which no session and creation are deadlocked on their own |
| OperatorStaleWrites.FurtherSuccessorExactly | scripts/revalidate_fin_quant_result.py:164-166 | With no transaction under way, a further revalidation of an evaluated source can be committed exactly when no cycle names the source in its state |
| OperatorStaleWrites.StaleWriteDecides | src/quant_platform/autopilot.py:1025-1071 | After any write of the platform to a successor a further one can be committed exactly when neither the written state nor another cycle names the source, and a written state without the name means that the successor existed before; while import marks were kept no other cycle does |
| OperatorStaleWrites.StalePatchLosesImport | src/quant_platform/autopilot.py:1073-1087 | Whenever a revalidation takes up an existing event, a patch that read the event before and writes it after the commit is possible, loses the import mark, and lets a further successor be committed |
| OperatorStaleWrites.PatchedSourceIsImportedTwice | src/quant_platform/autopilot.py:1073-1087 | From a database with one finished event and one created before, without any marks, two revalidations of the finished one can be recorded |

## Left out

- Floating-point rounding, the 32-bit width of `eligible_days`, and the platform's float32 factor storage: arithmetic is exact.
- SciPy's tie-breaking and optimal leaf ordering: the hierarchy merges any closest pair, and the guarantees hold for all of them.
- Sorting `base_components` by names: names are assumed sorted already, as `main` sorts them, so the components come in index order.
- Digests and hashes: injective, hence the value itself; twenty hexadecimal digits of SHA-256 are not modelled.
- ClusterLibrary.ClusterFactorLibrary: equal identifiers from two runs are not stated, because SciPy's choice among tied linkage distances is left open; without ties the hierarchy and its cut are unique (CompleteLinkage.FlatClustersAreDetermined).
- Paths, file formats, memory maps, atomic renames and HDF/Parquet content: a durable file is a field that a kill may leave torn while it is being created.
- Crash and resume across different materializations in one output directory, and hand-deleted files.
- Qlib, pandas, model fitting, backtests, bootstrap p-values, PBO and market data: arbitrary values.
- Calendars: session dates are numbers; every no-leak statement assumes a strictly increasing calendar, as the trading calendar is.
- HypothesisFamilies.EvaluateFamily: the increment validation is an arbitrary predicate, and the parallel list of rejection reasons mirrors the trials.
- TrialFamily.AssembleFamily: candidates have distinct identifiers and trial names are structured values; a candidate identifier "incumbent" whose joined trial name equals another trial's text is not modelled.
- TrialFamily.ForcingNeverHelpsOthers: trials that stay free keep their p-value; the inner join of return dates that could change it is not part of this model.
- ValidationGrid.RunValidationGrid: executing a cell is a function of the cell, so repeating one gives the same outcome; evidence digests and resource fields are not modelled.
- CellScheduler.RunMany: a process is its exit round and its receipt; cancellation, progress files and container cleanup are not modelled.
- ModelBatch.EvaluateCandidate: the unverified intermediate artifacts of a cell and the evidence record are not modelled.
- PathBlanking.ComparesBlanked: Python's equality of 1, 1.0 and True is not modelled; atoms are equal when they are written alike.
- CrossSections.PreparedCrossSections.Lookup: panels have valid dates; the fallback for missing dates repeats the naive expression.
- CrossSections.NoFuture: partial date strings and time zones of the query are not modelled.
- FactorHistory.Prepare: instruments and dates are numbers.
- OperatorTransactions.StepKeeps: the locks on the several rows of one cycle are one lock, a plan covers the sealed inventory, jobs and preflight in one evidence value, the statements that write are one step, the candidates, jobs and tournament that are registered inside the transaction (src/quant_platform/worker.py:4824-5140) are the one flag `registered`, and a registration that fails is an abort; planning without --check or --execute only reads.
- OperatorSteps.Step: the rest of the platform moves only rows nobody has locked, keeps the horizon, the event, the joint branch and the registered candidates of a cycle, and writes marks that the cycle bore at some time since it exists; scripts/recover_fin_quant_handoff.py, which locks in the order of a revalidation, and the database's own deadlock detection, which would abort one of two stuck transactions, are not part of this model.
- OperatorRuns.OneImportPerSource: for all revalidations it needs the platform to keep import marks, because a stale patch of a reused event can lose one (OperatorStaleWrites.StalePatchLosesImport); for those that add their successor it needs nothing.
- OperatorRuns.OnePlanPerCycle: for revalidations it needs the platform to keep import marks, for the same reason.
- OperatorRuns.OneSuccessorPerSource: for revalidations it needs the platform to keep import marks, for the same reason.
- OperatorRuns.AtMostOneCommit: for revalidations it needs the platform to keep import marks, for the same reason.
- LongShort.DailyLongShortNet: one row per instrument and date, predictions and labels present, as the caller drops incomplete rows.
- Argument parsing, manifest comparisons, receipts and JSON reports of the `main` functions, and the backup, restore, release and drill scripts: plumbing or one-branch checks.
- scripts/materialize_factor_library.py, scripts/benchmark_model_prepared_data.py, scripts/run_rdagent_scenario.py and scripts/v17_recovery_oneshot_controller.py: they repeat the same patterns in an easier form.
