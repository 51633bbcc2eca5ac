# Models and proofs for the tree engine and its tools

Dafny models of the parts of the repository that hold loops, state and protocols, with proofs of
what they are for. `dafny verify dfyconfig.toml` checks the whole project.

| part | modules | repository |
|---|---|---|
| path-copying tree edits against whole-tree substitution | `TreeRewrite`, `TreeEdits` | benchmarks/bench_suite.py |
| piece-table buffer against the byte splice | `SourceBuffer` | src/tree_engine/core/buffer.py |
| a batch of local edits against one simultaneous splice | `BatchEdits` | benchmarks/bench_suite.py |
| recoverable multi-file transaction under crashes | `FileTxn`, `FileTxnHistories` | src/tree_engine/storage/file_txn.py |
| benchmark gate: findings, relational laws, baseline store | `Gate`, `GateLaws`, `GateRuns`, `GateMeaning`, `GateReports` | benchmarks/gate.py |
| reported figures and nearest-rank percentile | `Percentile` | benchmarks/bench_suite.py |
| corpus generators | `JsonCorpus`, `JsonCorpusLaws`, `PythonCorpus`, `Decimal` | benchmarks/bench_suite.py |
| comparison mode: verdicts, and callers and workers in any interleaving | `Comparison`, `ComparisonRuns`, `ComparisonCaller`, `ComparisonVerdicts` | adapter/comparison.py, adapter/mcp_adapter.py |
| daemon manager over a process table | `Daemon` | ai_editor/cli/cst_compose_crn53pzy.py |
| YAML value quoter | `YamlFixer`, `YamlFixerLaws`, `YamlFixerScope`, `YamlFixerBlocks`, `YamlFixerGrammar`, `YamlFixerMeaning` | _patch_open_command.py |
| plan ranking and prompt embedding | `PlanOrder`, `PromptEmbed`, `PromptPatterns` | scripts/plan_rebuild_chains.py |
| shutdown handlers | `Shutdown` | ai_editor/main_cleanup.py |
| shared: sequence facts, sorting, white space, results | `SeqLaws`, `Sorting`, `PyText`, `Wrappers` | |

## How the models are built

* A tree node is a value with an identity number; "distinct" means that no two positions of a tree
  hold the same number. The reference for an edit is a substitution that visits every node, and the
  fast form, which rebuilds one chain of ancestors, is proved equal to it. The same pattern recurs:
  the piece table refines a byte splice, the batch refines one simultaneous splice, and each loop
  that the source writes as a loop is a method proved against a function that the laws are about.
* Protocols are state machines. `ComparisonRuns` has one caller and any number of workers,
  `Shutdown` any number of handlers on any threads, any of which a signal may unwind, `FileTxn` a
  crash between any two file system calls, in publications and recoveries alike, and `Daemon` a
  process table in which kills may fail and processes end and appear between commands, below any
  parent and in any group. Theorems speak of every reachable state or of every history.
* Times are real numbers, and a ratio with a zero denominator is an explicit infinity.
* What the system decides (draws of the random source, who survives a signal, pids, what the legacy
  side returns) is a parameter, and the theorems hold for all of it.

## Where the code does not do what it says

Each of these is stated as a lemma; the models follow the code.

* `recover` is documented as safe and idempotent (file_txn.py:317-323, and "every target ends up
  back at its pre-transaction state" at lines 50-53). It is not once a rollback has itself been
  interrupted: an entry whose backup has already been renamed back looks published to the next
  recovery, which then fails on the missing backup, and so does every later one. The stuck states
  are characterised exactly (`StuckUnder`, `RecoverySafe`). A publication can become unrecoverable
  exactly when a file other than its last existed before (`SticksWhen`), so a document and its tree
  file can, when the first existed: both are then old (`PairNeverMixed`), but every later open
  raises (`SticksForGood`). It can be left half done for good exactly when it replaces a file, then
  changes another, then publishes a third (`HalfDoneWhen`). The first recovery is always right
  (`FirstRecovery`), and a recovery that ends always has the outcome that was decided where the
  publication was cut short (`OutcomeDecided`).
* The report of a recovery that follows an interrupted one may say that the transaction was rolled
  forward while every target is old (file_txn.py:342-344, `FalseReportHappens`). It is true exactly
  when the publication had made its last rename before it was cut short, or changes nothing
  (`ReportTrueWhen`); that of the first recovery always is (`FirstReportTrue`).
* The gate's rule that a zero baseline counts as infinitely slower makes a run regress against
  itself when two corpora of a timed scenario, and four fifths of all, report a zero median and a
  zero p95 (`DegenerateWhen`), even one whose own checks pass (`InstantRunFails`). Without such a
  scenario a recorded run passes exactly when its own checks do (`RecordThenRecheck`).
* A divergence between a null field and an absent one has an empty key list
  (mcp_adapter.py:103-106); `DivergenceKeys` says exactly when the list is empty. The registered
  runners never get there (`ShapesHaveNoNulls`).
* `wait` (comparison.py:337-342) never returns again once a worker was torn down by an exception
  that is not an `Exception`, and such a comparison leaves no record (`TornNeverDrained`,
  `TearHappens`).
* The comparison mode is meant to leave the caller's answer alone (comparison.py:321-335). After
  `close` the executor refuses the comparison of a sampled call, and its error takes the place of
  the answer (`RunAfterClose`); `ComparisonMode.Run` states exactly when the caller gets what the
  primary side gave.
* Embedding and extracting (plan_rebuild_chains.py:20-40, 210-215) undo each other except for empty
  content and for content that holds the closing fence; `RoundTrip` is the exact condition.
* The shutdown line is meant to be written once and the workers to be stopped once. Neither ever
  happens twice (`OnceOnly`), but the exit that ends a signal handler unwinds the handlers it
  interrupted on its thread, flags set and work undone (`LineLostHappens`, `StopLostHappens`). Each
  happens exactly once if and only if nothing arrives on the thread that is doing it
  (`ExactlyOnceWhen`, `OnceWhenStill`).
* The shutdown handlers share one lock that is not reentrant (main_cleanup.py:76-99). On separate
  threads they never get stuck (`SeparateThreadsNeverStuck`); a signal that arrives on the thread
  that holds the lock deadlocks it (`SelfInterruptionDeadlocks`). The shutdown line may also come
  after the workers were stopped, by another handler (`StopBeforeLine`, `StopBeforeLineHappens`).
* Stopping a daemon signals the process that the pidfile names, whatever it is by now
  (`StalePidfileKills`); `StoppedExactly` says exactly who is killed.
* Starting reports a daemon that runs unless the new process dies while it is still seen as alive,
  as an unreaped child is; then the code is 0 and the pidfile stays (`StartCodeTrue`,
  `StartEffect`).
* The generators are announced as yielding exactly `lines` lines; they yield three when fewer are
  asked for (`GeneratedText`, `PythonSource`).
* The YAML quoter says that it skips booleans, null and numbers: it does so exactly when no inline
  comment follows them (`TypedValueKept`, `TypedDestroyedHere`). It says that it skips block
  scalars: it recognises headers without chomping or indentation indicators only (`HeaderWhen`).
  Behind `|-` or `>2` the lines of the scalar are rewritten like any others (`BodyRewrittenHere`),
  and a header with an indicator and a comment becomes a quoted string (`HeaderDestroyedHere`).
  `BlockKeptWhen` is the exact condition for a block scalar to survive.

## Model

| member | source | states |
|---|---|---|
| `TreeRewrite.PathRebuildIsSubst` | benchmarks/bench_suite.py:146-159 | For every tree with distinct nodes whose fields share nodes with the children, every node and every chain from the root to its parent: the root that the path rebuild returns is what substituting in the whole tree gives, for replacing and for dropping |
| `TreeRewrite.InsertRebuildIsSubst` | benchmarks/bench_suite.py:140-159 | The same for inserting before a node by rebuilding its parent and the chain above the parent |
| `TreeRewrite.RebuildUpIsSubst` | benchmarks/bench_suite.py:154-159 | The induction behind both: it holds for a target any depth below the node at which the rebuild stands |
| `TreeRewrite.ParentStep` | benchmarks/bench_suite.py:140-152 | One rebuilt parent: given what the substitution makes of the changed child, rewriting the children and every field around it is what the substitution makes of the parent |
| `TreeRewrite.FieldsStep` | benchmarks/bench_suite.py:146-150 | Fields change as the children do: a single node, a tuple that holds the changed child, and a tuple that does not |
| `TreeRewrite.Untouched` | benchmarks/bench_suite.py:146-152 | A subtree without the target is the very same tree afterwards |
| `TreeRewrite.PreorderSegment` | benchmarks/bench_suite.py:140-159 | The preorder of the edited tree is the old one with exactly the contiguous segment that starts at the target replaced, removed or preceded |
| `TreeRewrite.SharingKept` | benchmarks/bench_suite.py:146-152 | After an edit the fields of every node still mention its direct children only |
| `TreeRewrite.DistinctKept` | benchmarks/bench_suite.py:146-159 | With a fragment of new nodes the edited tree has distinct nodes again, so edits can follow one another |
| `TreeRewrite.OwnerUnique` | benchmarks/bench_suite.py:142-152 | In such a tree an identity belongs to one child only, so comparing identities finds the one child |
| `TreeEdits.RebuildPath` | benchmarks/bench_suite.py:154-159 | The loop from the innermost ancestor outwards: it touches one node more than the chain has, and its root is the whole-tree substitution |
| `TreeEdits.ApplyToTree` | benchmarks/bench_suite.py:179-197 | The tree half of applying a plan: the new root, and as affected nodes those touched plus those of the fragment |
| `TreeEdits.PlanChain` | benchmarks/bench_suite.py:161-177 | For all six kinds the chain of the plan runs from the root to the parent of the node it edits, also where it is extended through the body or the name |
| `TreeEdits.PlanAims` | benchmarks/bench_suite.py:161-194 | Where a plan aims: at the intended node with the intended change, or for an insertion at the parent around it |
| `TreeEdits.PlanMeaning` | benchmarks/bench_suite.py:161-197 | For all six kinds: applying the plan makes exactly the intended change of the whole tree, and only dropping the root leaves none |
| `TreeEdits.PlanRoot` | benchmarks/bench_suite.py:154-197 | A plan leaves no root exactly when it deletes a node without ancestors |
| `TreeEdits.PlanMadeWhen` | benchmarks/bench_suite.py:161-177 | Exactly when a plan can be made: of a located target; to insert, below a parent; of a body with statements; of a name where there is one |
| `SourceBuffer.SplicedPieces` | src/tree_engine/core/buffer.py:165-222 | Replacing the overlapping pieces by both remainders and one piece for the replacement renders to the byte splice of what was rendered before |
| `SourceBuffer.LocatedOverlaps` | src/tree_engine/core/buffer.py:165-205 | The located pieces are the ones that overlap the range, and no others |
| `SourceBuffer.EditedCount` | src/tree_engine/core/buffer.py:145-160 | An edit adds at most two pieces: only the two at its ends are split |
| `SourceBuffer.RenderGrown` | src/tree_engine/core/buffer.py:207-222 | Appending to the added store changes nothing that pieces stand for |
| `SourceBuffer.LeftMeaning` | src/tree_engine/core/buffer.py:176-196 | The pieces before the edit and the left remainder are the bytes before the edit |
| `SourceBuffer.RightMeaning` | src/tree_engine/core/buffer.py:176-205 | The right remainder and the pieces after the edit are the bytes after the edit |
| `SourceBuffer.SourceBuffer.constructor` | src/tree_engine/core/buffer.py:104-111 | A new buffer holds the source |
| `SourceBuffer.SourceBuffer.Locate` | src/tree_engine/core/buffer.py:165-205 | The scan finds the overlapping pieces and both remainders, also at a boundary and in an empty buffer |
| `SourceBuffer.SourceBuffer.ApplyEdit` | src/tree_engine/core/buffer.py:133-231 | A range outside the buffer is refused and nothing changes; otherwise the contents are the byte splice, the incremental length included |
| `SourceBuffer.SourceBuffer.Serialize` | src/tree_engine/core/buffer.py:235-258 | Writing the pieces out one by one gives the contents |
| `BatchEdits.InTurnIsAtOnce` | benchmarks/bench_suite.py:206-221 | Disjoint edits applied one after another in descending order with their original offsets give the simultaneous splice of the original source; no offset falls outside the buffer |
| `BatchEdits.InTurnLength` | benchmarks/bench_suite.py:179-184 | The length changes by the sum of the differences between payloads and ranges |
| `BatchEdits.ChosenCount` | benchmarks/bench_suite.py:209-211 | The batch has eight operations when there are eight targets or more, and one for each target otherwise |
| `BatchEdits.StridedAt` | benchmarks/bench_suite.py:209-210 | The stride takes the targets at its multiples |
| `BatchEdits.ChosenAre` | benchmarks/bench_suite.py:209-211 | Which targets are chosen: the first eight at multiples of an eighth of their number, and the first eight of fewer than sixteen |
| `BatchEdits.PlannedWhen` | benchmarks/bench_suite.py:212-213 | Kinds take turns; the batch can be planned exactly when every second of four targets has a parent and every fourth a name |
| `BatchEdits.ChosenDescending` | benchmarks/bench_suite.py:209-211 | Every target chosen lies entirely to the left of the ones before it, and is one of the targets |
| `BatchEdits.PlanBytes` | benchmarks/bench_suite.py:161-184 | What each kind writes into the buffer, said of the bytes: the fragment over the target, or directly before its first byte, or nothing over it; the statement over the last line of the body; the new name over the name; for an attribute nothing |
| `BatchEdits.PlanCost` | benchmarks/bench_suite.py:154-197 | What each kind costs: the nodes from the change to the root and those of the fragment, and the bytes written |
| `BatchEdits.BatchStaircase` | benchmarks/bench_suite.py:206-213 | For targets with pairwise disjoint ranges the planned edits form a descending staircase inside the source |
| `BatchEdits.RunBatch` | benchmarks/bench_suite.py:215-220 | The loop over the plans: refused exactly when some range falls outside what the edits before it left; otherwise the bytes the edits leave one after another, the affected nodes and the changed bytes |
| `BatchEdits.CaseBatch` | benchmarks/bench_suite.py:206-221 | The whole case, for targets with pairwise disjoint ranges: the serialised bytes are the source with the bytes of each chosen target rewritten as its turn says, in the order replace, insert, delete, rename from the last target to the first, and everything between kept; the affected nodes are those of all plans; nothing is refused |
| `FileTxn.PublishSafe` | src/tree_engine/storage/file_txn.py:282-314 | Every crash point of a publication, between any two calls, is a good state and no call fails; completed, the disk is exactly the new one: every target holds what was staged, nothing staged, journalled or backed up is left, and other backups are untouched |
| `FileTxn.RecoverySafe` | src/tree_engine/storage/file_txn.py:317-351 | One recovery from any good state: it raises exactly in the stuck states and then changes nothing; otherwise it ends with all targets old or all new and, if there was a journal, with no backup left; every crash point of it is a good state and no other call fails |
| `FileTxn.AllOrNothing` | src/tree_engine/storage/file_txn.py:282-351 | Over every history of a publication cut anywhere and any number of recoveries cut anywhere: the last recovery raises exactly when stuck, and otherwise leaves all targets old or all new |
| `FileTxn.ReaderSeesOldOrNew` | src/tree_engine/storage/file_txn.py:36-40 | A reader at any instant of a publication and of the recoveries after it sees a target as it was or as staged, whole; one that existed is never absent |
| `FileTxn.FirstRecovery` | src/tree_engine/storage/file_txn.py:36-53 | The first recovery after an interrupted publication never raises; it goes forward exactly when every rename had been made, and back otherwise |
| `FileTxn.RollbackSafe` | src/tree_engine/storage/file_txn.py:258-279 | Rolling back goes through good states, and raises exactly when an entry that existed before was already rolled back by an earlier recovery |
| `FileTxn.StuckUnder` | src/tree_engine/storage/file_txn.py:258-279 | Which interrupted rollbacks are stuck: an undone entry that had existed, and another entry that still waits |
| `FileTxn.PairNeverMixed` | src/tree_engine/storage/file_txn.py:317-351 | With at most two targets, as when a document and its tree file are saved, even a stuck transaction has every target old |
| `FileTxnHistories.SticksWhen` | src/tree_engine/storage/file_txn.py:258-323 | Some history leaves a publication unrecoverable exactly when a file other than its last existed before; a document that existed, published with its tree file, is such a case |
| `FileTxnHistories.SticksForGood` | src/tree_engine/storage/file_txn.py:317-323 | From then on every later recovery raises and changes nothing |
| `FileTxnHistories.InterruptedRecoverySticks` | src/tree_engine/storage/file_txn.py:258-323 | Recovery is not idempotent once interrupted: for every entry that existed before and every entry from it on that is not the last there is a crash point and a cut after which the targets between the two are new, all others old, and every later recovery raises and changes nothing |
| `FileTxnHistories.HalfDoneWhen` | src/tree_engine/storage/file_txn.py:258-323 | Some history leaves a publication stuck with a target that is not back at its old content exactly when it replaces a file, then changes another, then publishes a third, in this order |
| `FileTxnHistories.OutcomeDecided` | src/tree_engine/storage/file_txn.py:282-351 | The whole disk after any recovery that ends, whatever recoveries were cut short before it, is decided where the publication was cut: with the journal there, the exact new disk when no staged copy was left and the exact old one when one was, backups gone; without it, the disk as it was but for staged copies |
| `FileTxnHistories.WithoutJournal` | src/tree_engine/storage/file_txn.py:303-314 | A publication cut without a journal has not touched a target or a backup, or is over |
| `FileTxnHistories.ReportTrueWhen` | src/tree_engine/storage/file_txn.py:335-351 | Over every history, what the report of a recovery that ends is worth: an action is reported exactly when a journal was taken away; rolled back is always true; rolled forward is true exactly when no staged copy was left where the publication was cut, every rename being made, or when it changes nothing |
| `FileTxnHistories.FirstReportTrue` | src/tree_engine/storage/file_txn.py:335-351 | The report of the first recovery after a publication is always true |
| `FileTxnHistories.FalseReportHappens` | src/tree_engine/storage/file_txn.py:335-351 | Every publication has a history whose next recovery reports a roll-forward while every target is old |
| `Gate.StructuralFindings` | benchmarks/gate.py:170-204 | The loop gives, in order of the keys, the findings of every measurement |
| `Gate.FormatFindings` | benchmarks/gate.py:214-247 | The inner loop gives the growth findings of one scenario, format by format |
| `Gate.ScalingFindings` | benchmarks/gate.py:214-247 | The loops give the growth findings of every scenario and format in order |
| `Gate.ScenarioPoints` | benchmarks/gate.py:259-281 | The points of a scenario, how many there are, and how many are hot on median and p95 and beyond the noise |
| `Gate.ScenarioFindings` | benchmarks/gate.py:259-291 | The points of one scenario and, if it has any, the finding over all of them |
| `Gate.TimingFindings` | benchmarks/gate.py:250-292 | The loop gives the findings of every timed scenario |
| `GateLaws.ClockIndependence` | benchmarks/gate.py:170-204 | Runs and baselines that differ in times only give the same structural findings in the same order |
| `GateLaws.SpeedIndependence` | benchmarks/gate.py:214-247 | Multiplying all times of a run by a positive constant changes no growth finding |
| `GateLaws.TimingFailsWhen` | benchmarks/gate.py:284-292 | The time half fails exactly when some timed scenario has regressed |
| `GateLaws.TimingMonotone` | benchmarks/gate.py:250-292 | Slower medians or p95s, or a lower tolerance, never turn a failing time half into a passing one; zero baselines and zero spreads included |
| `GateLaws.SelfHot` | benchmarks/gate.py:265-273 | Against itself a point is hot exactly when its median and its p95 are both zero |
| `GateLaws.SelfComparison` | benchmarks/gate.py:170-292 | A run against itself as baseline: the structural half fails exactly when its own checks do, the time half exactly when a timed scenario reports zero times often enough |
| `GateLaws.HotMonotone` | benchmarks/gate.py:265-273 | A hot point stays hot when it gets slower or the tolerance gets lower |
| `GateMeaning.StructuralFailsWhen` | benchmarks/gate.py:170-204 | The structural half fails exactly when some measurement has no counters, or is an edit that raises a marker, touches more than a twentieth of the nodes, or has grown by two nodes and a quarter since the baseline |
| `GateMeaning.ScalingFailsWhen` | benchmarks/gate.py:214-247 | The growth checks fail exactly when, for some scenario and format, the largest document takes too much more than the smallest of another size |
| `GateMeaning.SeriesIs` | benchmarks/gate.py:207-211 | The series of a scenario and format holds its measurements, from the smallest document to the largest |
| `GateMeaning.HotMeaning` | benchmarks/gate.py:265-273 | Against positive times a point is hot exactly when median and p95 both exceed the tolerance and both exceed twice the spread within the two runs |
| `GateMeaning.PointMeaning` | benchmarks/gate.py:265-283 | What a point reports: hot, beyond the tolerance but within the noise, or fine, and both ratios to the baseline |
| `GateReports.StructuralReports` | benchmarks/gate.py:170-204 | The structural findings are these and no others, in the order of the keys: a failure without counters; for an edit its markers, the part of the document it touched against a twentieth, and its counter against the baseline |
| `GateReports.GrowthReports` | benchmarks/gate.py:214-247 | There is a growth finding for every scenario and format with documents of different sizes and no other, with the ratio, the limit and the verdict |
| `GateReports.TimingReports` | benchmarks/gate.py:250-292 | There is a point for every measurement of the four timed scenarios that the baseline knows, one verdict for each of them with points, and nothing else |
| `GateMeaning.RegressionWhen` | benchmarks/gate.py:259-286 | A timed scenario has regressed exactly when two corpora of the run at least, and four fifths of those the baseline knows, are hot, in whatever order the run lists them |
| `GateMeaning.DegenerateWhen` | benchmarks/gate.py:265-286 | A run regresses against itself through a timed scenario in which two corpora at least, and four fifths of all, report a zero median and a zero p95 |
| `GateMeaning.InstantRunFails` | benchmarks/gate.py:250-401 | Such a run, of one document in each of two formats: its own checks pass, and recorded as the baseline and gated again it fails at every tolerance |
| `GateMeaning.VerdictMeaning` | benchmarks/gate.py:358-401 | A call passes exactly when its branch has a baseline of its profile and none of the three halves fails against it; otherwise the status says which; it returns the findings of the halves that could be made |
| `GateMeaning.RecordingGoverns` | benchmarks/gate.py:358-401 | A recorded run governs its branch until the next recording there: every later call on it passes exactly when its profile is the recorded one and none of the three halves fails against the recorded measurements |
| `GateMeaning.AcceptedWhen` | benchmarks/gate.py:358-360 | A decision is accepted exactly when it is not blank |
| `GateMeaning.BaselineRecorded` | benchmarks/gate.py:295-309 | What a recording writes down: the profile, the decision without white space around it, the decision it supersedes, and the measurements under their keys and nothing else |
| `GateRuns.BenchmarkGate.RunGate` | benchmarks/gate.py:337-401 | The single entry point against one step of the store: what is returned, and what is recorded |
| `GateRuns.RecordThenRecheck` | benchmarks/gate.py:295-401 | A run recorded as the baseline and gated again, after any calls that do not record on its branch, passes exactly when its own checks pass and no timed scenario is degenerate |
| `GateRuns.PositiveRecheck` | benchmarks/gate.py:295-401 | With positive medians it passes exactly when its own checks do |
| `GateRuns.BaselineKept` | benchmarks/gate.py:378-382 | Calls that do not record on a branch leave its baseline alone |
| `GateRuns.StoreFromRecords` | benchmarks/gate.py:378-382 | What the store holds for a branch was recorded there, with that profile |
| `GateRuns.PassNeedsDecision` | benchmarks/gate.py:358-401 | From an empty store no call passes unless a baseline was recorded for its branch and profile with a decision that is not blank |
| `GateRuns.MismatchFails` | benchmarks/gate.py:370-377 | A baseline of another profile is a failure |
| `Percentile.P95IndexBounds` | benchmarks/bench_suite.py:276 | The index computed by the negated floor division is in range, is the nearest rank, and is the last one exactly below 20 samples |
| `Percentile.NearestRank` | benchmarks/bench_suite.py:272-279 | At least 95 in 100 samples are at most the reported value, and fewer than 95 in 100 are below it |
| `Percentile.MedianMiddle` | benchmarks/bench_suite.py:274 | The median is the middle sample of an odd number and halfway between the two middle ones of an even number |
| `Percentile.RankUnique` | benchmarks/bench_suite.py:274 | Each rank among the samples has one value, so the median has |
| `Percentile.MedianHalves` | benchmarks/bench_suite.py:274 | At least half of the samples are at most the median and at most half are below it |
| `Percentile.SpreadIs` | benchmarks/bench_suite.py:279 | The relative spread is the range in units of the median, and zero for a zero median |
| `Percentile.FiguresInOrder` | benchmarks/bench_suite.py:272-279 | Minimum, median, p95 and maximum are in order, bound all samples, and p95 is a sample; below 20 samples it is the maximum |
| `Percentile.StatsNonNegative` | benchmarks/bench_suite.py:272-279 | Non-negative samples give non-negative figures and spread, which the gate relies on |
| `Percentile.StatsScaled` | benchmarks/bench_suite.py:272-279 | All samples multiplied by a constant give every figure multiplied by it, and the same relative spread |
| `Comparison.DivergenceKeys` | adapter/mcp_adapter.py:100-106 | None exactly for equal mappings; otherwise the keys are sorted, each once, and exactly the fields whose values differ; the list is empty exactly when dropping the null fields makes the two mappings equal |
| `Comparison.NullFieldHasNoKeys` | adapter/mcp_adapter.py:100-106 | A field that is null on one side and absent on the other diverges without a key |
| `ComparisonVerdicts.UncomparableWhen` | adapter/comparison.py:378-390 | A comparison cannot be made exactly of a command without a runner or normal form, or when the runner declines; then nothing is kept of the old side and a declining runner gives the reason |
| `ComparisonVerdicts.VerdictWhen` | adapter/comparison.py:160-174 | For everything either side of a sampled call may do: agreement exactly when both load, find the same number of matches with the same kinds and names each as often, come to the same verdict on the bytes, or fail with the same error; the record names the call and holds both sides, and a difference exactly when there is one |
| `ComparisonVerdicts.LogTotals` | adapter/comparison.py:225-242 | After a wait that returned the log holds as many agreements, divergences and comparisons that could not be made as the sampled calls and the outcomes of their legacy sides give |
| `Comparison.VerdictMeaning` | adapter/comparison.py:372-399 | When a registered runner answers or raises, a divergence has keys in order, and success on one side only always diverges |
| `Comparison.ShapesHaveNoNulls` | adapter/comparison.py:103-137 | What the registered runners return has no null field and no error field |
| `Comparison.ShapeIgnoresOrder` | adapter/comparison.py:132-137 | Two search results have the same shape exactly when they have the same kinds and names, each as often |
| `ComparisonRuns.SampledCount` | adapter/comparison.py:288-292 | After n calls of an enabled command, whatever else was called in between, ceil(n / max(sample_every, 1)) were sampled; of a disabled one none |
| `ComparisonRuns.Conservation` | adapter/comparison.py:321-399 | In every reachable state the scheduled comparisons are the sampled calls made before the mode was closed, and as many as the records, the jobs not executed and the torn workers together |
| `ComparisonRuns.WaitDrains` | adapter/comparison.py:337-342 | When an untimed wait returns, the log has exactly one record for each scheduled comparison, the comparison of that job |
| `ComparisonRuns.WaitReturnsWhen` | adapter/comparison.py:337-342 | A wait can return exactly when every comparison is done and no worker was torn down |
| `ComparisonRuns.TornNeverDrained` | adapter/comparison.py:337-346 | Once a worker was torn down no wait ever returns, and the mode can never be closed |
| `ComparisonRuns.TearHappens` | adapter/comparison.py:337-342 | For every command that is compared a run in which its worker is torn down, after which a wait raises |
| `ComparisonRuns.SingleWorkerLog` | adapter/comparison.py:305-320 | With the default single worker the drained log is in the order of the calls, whatever the interleaving |
| `ComparisonCaller.ComparisonMode.Run` | adapter/comparison.py:321-335 | Running a command is one step of the protocol; the caller gets the answer or the exception of the primary side exactly when the mode is open, the call is not sampled, or the primary was torn down; a sampled call after closing gets the error of the executor instead |
| `ComparisonCaller.ComparisonMode.NextOccurrence` | adapter/comparison.py:354-357 | Calls are counted for each command on its own, from 0 |
| `ComparisonCaller.ComparisonMode.Schedule` | adapter/comparison.py:367-370 | The comparison is submitted and its future remembered, exactly when the executor has not been shut down |
| `ComparisonCaller.ComparisonMode.Wait` | adapter/comparison.py:337-342 | The loop over the futures in their order: it raises exactly when it meets one that was torn down, and then all stay pending; otherwise none is left |
| `ComparisonCaller.ComparisonMode.Close` | adapter/comparison.py:344-346 | The executor is shut down exactly when the wait before it did not raise |
| `ComparisonCaller.RunAfterClose` | adapter/comparison.py:321-346 | For every command that is compared, running it on a mode that was opened and closed gives the error of the executor, not the answer |
| `ComparisonRuns.RunInv` | adapter/comparison.py:321-399 | What every step of callers and workers keeps: each job is queued, running, done or torn, and logged at most once |
| `Daemon.RootFilter` | ai_editor/cli/cst_compose_crn53pzy.py:343-434 | Discovery keeps exactly the matching processes whose parent does not match; every matching process hangs below a kept one by matching ancestors; nothing is kept only when nothing matches |
| `Daemon.OneServer` | ai_editor/cli/cst_compose_crn53pzy.py:566-692 | Over every sequence of start, stop and restart, failing kills, exits, and processes that appear by themselves below any parent and in any group: a start spawns only when no process matches, a restart only when none survived the stop |
| `Daemon.OneGroupKept` | ai_editor/cli/cst_compose_crn53pzy.py:566-692 | As long as daemons are started through the manager only, and their workers stay in their group, all daemons are in one process group |
| `Daemon.TwoDaemons` | ai_editor/cli/cst_compose_crn53pzy.py:633-639 | Two independent daemons in two process groups are such a state: start refuses, and stop ends both |
| `Daemon.StartGood` | ai_editor/cli/cst_compose_crn53pzy.py:615-677 | Starting spawns exactly when no process matches |
| `Daemon.StartEffect` | ai_editor/cli/cst_compose_crn53pzy.py:615-677 | With nothing running a process is spawned and is then the only daemon and the one in the pidfile, or it dies at once and leaves no pidfile, or it dies unseen; a single root is put in the pidfile; several are an error that changes nothing |
| `Daemon.StartCodeTrue` | ai_editor/cli/cst_compose_crn53pzy.py:235-286 | The exit code of start is 0 exactly when one daemon is then running, unless nothing matched and the new process dies unseen |
| `Daemon.DaemonsRise` | ai_editor/cli/cst_compose_crn53pzy.py:398-434 | Discovery lists every root once, in increasing order |
| `Daemon.OnlyRoot` | ai_editor/cli/cst_compose_crn53pzy.py:421-434 | A single root process is the one daemon listed, however many workers match |
| `Daemon.StopIs` | ai_editor/cli/cst_compose_crn53pzy.py:566-612 | All that stopping does: the processes that are killed end, their children go to INIT, every other process is as it was, the pidfile is gone and the code is 0 |
| `Daemon.StopEffect` | ai_editor/cli/cst_compose_crn53pzy.py:566-612 | The daemons left after stopping are exactly those that survive their signals or are out of reach of them; with workers in the group of their daemon, exactly the survivors, however many daemons there were |
| `Daemon.StoppedExactly` | ai_editor/cli/cst_compose_crn53pzy.py:289-340 | A process of any kind is killed by stopping if and only if it does not survive a signal and shares the group of a root daemon or of the live process that the pidfile names |
| `Daemon.StalePidfileKills` | ai_editor/cli/cst_compose_crn53pzy.py:566-582 | The pidfile is trusted: stopping may kill a process that is no daemon |
| `Daemon.RestartEffect` | ai_editor/cli/cst_compose_crn53pzy.py:680-692 | Restarting spawns exactly when no daemon is left by stopping; a new one that stays is then the only daemon |
| `Daemon.Manager.CmdStop` | ai_editor/cli/cst_compose_crn53pzy.py:566-612 | The loop over the process groups, and the pidfile, against the specification of stopping |
| `Daemon.Manager.CmdStart` | ai_editor/cli/cst_compose_crn53pzy.py:615-677 | Starting against its specification: exit code, process table and pidfile |
| `Daemon.Manager.CmdRestart` | ai_editor/cli/cst_compose_crn53pzy.py:680-692 | Stopping, then starting, on the same state |
| `YamlFixer.FixYamlStringValues` | _patch_open_command.py:13-99 | The loop over the lines with its block-scalar state, against the function of the text that the laws are about |
| `YamlFixer.SplitIsLines` | _patch_open_command.py:34 | Splitting gives lines, each with its own break, that join to the text |
| `YamlFixer.SplitJoin` | _patch_open_command.py:34-99 | Lines that are joined split again into the same lines |
| `YamlFixerLaws.Idempotent` | _patch_open_command.py:13-99 | A second pass over the output changes nothing, for every text |
| `YamlFixerLaws.StepAgain` | _patch_open_command.py:42-97 | Scanning an output line moves the block-scalar state as the input line did, and keeps the line |
| `YamlFixerLaws.FixLinesIsLines` | _patch_open_command.py:42-99 | The output lines split again as they are: every rewritten line is one line with the head of the line it replaces |
| `YamlFixerLaws.EscapeRoundTrip` | _patch_open_command.py:95-97 | Reading an escaped value as a double-quoted scalar stops at the closing quote that was written and gives the value, exactly when it has no control characters |
| `YamlFixerLaws.QuotedLineReadsBack` | _patch_open_command.py:60-97 | Every rewritten line keeps its indentation and key, and reads back as the value part with the comment behind it |
| `YamlFixerScope.NothingLeftToQuote` | _patch_open_command.py:60-97 | Outside block scalars every key line of the output has a value that is kept on purpose, or holds neither a colon followed by a space nor an inline comment |
| `YamlFixerScope.ColonValueQuoted` | _patch_open_command.py:60-97 | A bare value whose value part holds a colon followed by a space is always quoted |
| `YamlFixerScope.BlockScalarKept` | _patch_open_command.py:38-58 | A recognised block scalar comes out as it went in, whatever its lines look like |
| `YamlFixerMeaning.FixerMeaning` | _patch_open_command.py:13-99 | What the fixer does to any text, said of the text alone: it is split into lines; a line in the block scalar of a header above it is kept; any other line is rewritten exactly when it needs quotes |
| `YamlFixerMeaning.UnchangedWhen` | _patch_open_command.py:42-97 | Lines come out as they went in exactly when each lies in a block scalar or needs no quotes: is no key line, is a header, or has a value that is quoted, a flow collection, a keyword, a number, or without remark and colon with space |
| `YamlFixerMeaning.LineTreated` | _patch_open_command.py:53-97 | A rewritten line has the same indentation and key, the value up to its first remark escaped between double quotes, and the remark behind two spaces |
| `YamlFixerMeaning.WrappedKept` | _patch_open_command.py:67-72 | A line whose value starts with a single or double quote, a brace or a bracket is never touched, wherever it stands |
| `YamlFixerGrammar.BreaksAre` | _patch_open_command.py:34 | Where lines end: the ten characters that split a text into lines |
| `YamlFixerGrammar.WhiteSpaceIs` | _patch_open_command.py:43 | What counts as white space, character by character |
| `YamlFixerGrammar.KeyWhen` | _patch_open_command.py:60 | A key line is white space, word characters, a colon and the rest |
| `YamlFixerGrammar.HeaderIs` | _patch_open_command.py:53 | A header is a bar or angle bracket after any white space, with nothing but a comment behind it |
| `YamlFixerGrammar.SplitWhen` | _patch_open_command.py:82-89 | The value part is the text before the first white space, hash and white space |
| `YamlFixerGrammar.KeywordWhen` | _patch_open_command.py:73-75 | The eight keywords in any mixture of small and capital letters |
| `YamlFixerGrammar.NumberWhen` | _patch_open_command.py:76-78 | The scan for numbers accepts exactly a sign or none, digits with a fraction or either alone, and an exponent or none |
| `YamlFixerBlocks.HeaderWhen` | _patch_open_command.py:53-97 | A value that starts with a bar or an angle bracket is recognised as a header exactly when it has no chomping or indentation indicator; one that is not is itself put in quotes exactly when it has an inline comment or a colon and space |
| `YamlFixerBlocks.BlockKeptWhen` | _patch_open_command.py:38-97 | A block scalar, header and body, comes out as it went in exactly when its header is recognised, or its header has no inline comment and no colon and space and every line of the body would be kept outside a block scalar |
| `YamlFixerBlocks.HeaderDestroyed` | _patch_open_command.py:53-97 | A header with an indicator and a comment is itself turned into a quoted string |
| `YamlFixerBlocks.BodyRewritten` | _patch_open_command.py:53-97 | Below a header with an indicator a line that looks like a key with a value that holds a colon and space is rewritten |
| `YamlFixerBlocks.TypedDestroyed` | _patch_open_command.py:65-97 | A keyword or number with a comment behind it comes back as a string |
| `YamlFixerScope.TypedValueKept` | _patch_open_command.py:65-97 | A keyword or number is kept exactly when no inline comment follows; with one it becomes a string |
| `PlanOrder.Ranker.Visit` | scripts/plan_rebuild_chains.py:121-129 | The memoised visit ends on every graph, cyclic or with unknown ids; without cycles the rank is the length of the longest dependency chain; on any graph a rank is at most the number of ids ranked, zero exactly without dependencies, and a group being ranked counts as zero |
| `PlanOrder.Ranker.RankAll` | scripts/plan_rebuild_chains.py:131-133 | Every group is ranked |
| `PlanOrder.PathClosesCycle` | scripts/plan_rebuild_chains.py:124-125 | Meeting an id that is still being ranked closes a cycle |
| `PlanOrder.LongestStep` | scripts/plan_rebuild_chains.py:127 | The longest chain is one more than the longest among the dependencies, in whatever order they are visited |
| `PlanOrder.LongestUnique` | scripts/plan_rebuild_chains.py:127 | There is one longest length, so the rank does not depend on the order of iteration |
| `PlanOrder.ReplayOrder` | scripts/plan_rebuild_chains.py:142-163 | In the sorted steps none comes before a step of a group that its group depends on, directly or not; none is lost |
| `PlanOrder.CollectSteps` | scripts/plan_rebuild_chains.py:112-163 | The replay order, on every graph: by rank; in a rank by group number, then task number, then priority, then id as strings compare; nothing lost; without cycles no step comes before a step of a group its own depends on |
| `PlanOrder.UnrankedLast` | scripts/plan_rebuild_chains.py:153-155 | A step whose group has no rank comes behind all ranked ones while fewer than 999 ids are ranked |
| `PlanOrder.NoRankingOnCycle` | scripts/plan_rebuild_chains.py:112-133 | On a graph with a cycle no ranking whatever can put every dependency first |
| `PromptEmbed.RoundTrip` | scripts/plan_rebuild_chains.py:20-40 | What is extracted from an embedded prompt is the normalised content exactly when the content is not empty and free of three backticks, or of four in Markdown; both fence forms, every tail in which the first pattern finds nothing |
| `PromptEmbed.TailWithoutHeader` | scripts/plan_rebuild_chains.py:27-40 | A tail without another header is such a tail |
| `PromptEmbed.ShortHasNoLong` | scripts/plan_rebuild_chains.py:28-34 | The first pattern finds nothing in a prompt with the short fence |
| `PromptEmbed.FindFence` | scripts/plan_rebuild_chains.py:28-40 | The closing fence is the first one found exactly when the body has none |
| `PromptEmbed.EmbeddedBody` | scripts/plan_rebuild_chains.py:210-215 | The body that is embedded, and what normalising gives for it |
| `PromptPatterns.EmbedWrites` | scripts/plan_rebuild_chains.py:210-215 | What is written for a file: a header line that names it, a fence with its tag, the content without newlines at its end, and the fence again; four ticks exactly for Markdown that holds three |
| `PromptPatterns.ExtractWhen` | scripts/plan_rebuild_chains.py:27-40 | What is extracted from any prompt: the leftmost match of the first pattern, else of the second, with one newline at the end, and nothing when neither matches anywhere |
| `PromptPatterns.NormalizeWhen` | scripts/plan_rebuild_chains.py:20-24 | A text that is not empty ends in exactly one newline afterwards, and loses nothing else |
| `PromptPatterns.HeaderWhen` | scripts/plan_rebuild_chains.py:29-35 | A header line is the fixed text, anything, and a colon at the end of the line |
| `PromptPatterns.LongWhen` | scripts/plan_rebuild_chains.py:28-34 | Where the first pattern matches: a header line that ends in a colon, four ticks tagged md or markdown, and the text up to the first four ticks |
| `PromptPatterns.ShortWhen` | scripts/plan_rebuild_chains.py:35-40 | Where the second pattern matches: such a header line, three ticks with anything behind them, and the text up to the first three ticks |
| `PromptEmbed.NormalizeTwice` | scripts/plan_rebuild_chains.py:20-24 | Normalising twice is normalising once, for every text |
| `Shutdown.OnceOnly` | ai_editor/main_cleanup.py:84-156 | In every interleaving of any number of handlers the line is written at most once, the workers are stopped at most once, and the cleanup flag is set only after the log flag |
| `Shutdown.ExactlyOnceWhen` | ai_editor/main_cleanup.py:84-156 | When all handlers are done the line has been written exactly once if and only if none arrived on the thread that was writing it, and the workers were stopped exactly once if and only if none arrived on the thread that was stopping them |
| `Shutdown.SeparateThreadsOnce` | ai_editor/main_cleanup.py:84-156 | Handlers on separate threads do each exactly once |
| `Shutdown.LineLostHappens` | ai_editor/main_cleanup.py:149-153 | A run in which the exit of a second signal handler unwinds the first and the line is never written |
| `Shutdown.StopLostHappens` | ai_editor/main_cleanup.py:149-153 | A run in which stopping the workers is given up and nobody tries again |
| `Shutdown.StopBeforeLine` | ai_editor/main_cleanup.py:84-147 | Workers can be stopped without the line written only by another handler than the one that set the log flag, which is still about to write the line or was unwound there |
| `Shutdown.StopBeforeLineHappens` | ai_editor/main_cleanup.py:84-147 | An interleaving of two handlers in which that happens |
| `Shutdown.Progress` | ai_editor/main_cleanup.py:84-147 | Some handler can always go on, unless the holder of the lock was interrupted on its own thread |
| `Shutdown.HandlersFinish` | ai_editor/main_cleanup.py:84-156 | Unless it was, whatever runs after the last arrival takes six moves a handler at most, and stops exactly when all handlers are done |
| `Shutdown.AllFinish` | ai_editor/main_cleanup.py:84-156 | And there is a way for all of them to get done |
| `Shutdown.OnceWhenStill` | ai_editor/main_cleanup.py:84-156 | When nothing can go on after the last arrival, each of the two has happened exactly once if and only if none arrived on the thread that was doing it; that all are done is not assumed |
| `Shutdown.SelfInterruptionDeadlocks` | ai_editor/main_cleanup.py:76-156 | Interrupted on its own thread inside the lock, a handler never finishes, nor does the one that interrupted it |
| `Shutdown.SelfInterruptionHappens` | ai_editor/main_cleanup.py:84-156 | A run that reaches such a state |
| `Shutdown.SeparateThreadsNeverStuck` | ai_editor/main_cleanup.py:84-156 | Handlers on separate threads can always go on |
| `JsonCorpus.JsonSource` | benchmarks/bench_suite.py:85-94 | The loops give the text of the request: as many whole entries as fit, each with its own draws, then pads, then the tail |
| `JsonCorpusLaws.ItemsShape` | benchmarks/bench_suite.py:86-93 | The items of a request fill it but for the two braces, are numbered apart, and end in the one tail |
| `JsonCorpusLaws.GeneratedObject` | benchmarks/bench_suite.py:85-94 | The text has the lines counted and is one JSON object by the grammar of RFC 8259, its member names pairwise distinct |
| `JsonCorpusLaws.GeneratedText` | benchmarks/bench_suite.py:85-94 | For every request and all draws: exactly the lines asked for, three at least, and one object of the items of the request with distinct names |
| `JsonCorpusLaws.GeneratedValues` | benchmarks/bench_suite.py:85-94 | What the object holds: an entry for every five lines with the id drawn, three tags and whether it is enabled, a pad for each line left, and the tail, each naming its line |
| `PythonCorpus.PythonSource` | benchmarks/bench_suite.py:72-83 | Exactly the lines asked for, three at least: the header, as many whole blocks of 22 lines as fit, and filler for less than a block; no two lines declare classes, or methods, of the same name |
| `PythonCorpus.LinesLaidOut` | benchmarks/bench_suite.py:72-83 | What stands on which line: header, then blocks of a class, its attribute and four methods of five lines in their order, every name with the number of the line its block starts at, then filler numbered by its lines |
| `PythonCorpus.Indentation` | benchmarks/bench_suite.py:72-80 | A class stands at the margin, what it holds is indented by four, and what its methods hold by eight |
| `PythonCorpus.TextNames` | benchmarks/bench_suite.py:75-80 | Of the generated lines, those that declare classes declare different names, and so do those that declare methods |
| `PythonCorpus.TextLines` | benchmarks/bench_suite.py:83 | The text has one newline for each line |
| `Decimal.DecReads` | benchmarks/bench_suite.py:76-80 | A number is written in decimal digits that stand for it, without a zero in front |
| `Decimal.DecInjective` | benchmarks/bench_suite.py:76-80 | Different numbers are written differently, which keeps generated names apart |
| `Sorting.SortSorted` | benchmarks/gate.py:173-176 | The model of the sort: its result is in order |
| `Sorting.SortContents` | benchmarks/gate.py:173-176 | Its result has the same elements, each as often |
| `Sorting.SortStable` | benchmarks/gate.py:207-211 | Elements that compare as equal keep their order |
| `Sorting.StringLeWhen` | benchmarks/gate.py:173-176 | Strings compare as in a dictionary, by the first character in which they differ |
| `Sorting.SortPairwise` | benchmarks/gate.py:207-211 | Sorting related lists by an order that respects the relation keeps the elements paired up, ties included |
| `Sorting.SortedUnique` | adapter/comparison.py:132-137 | By a total order the same elements sort to one list only |

## Left out

- Object identity is a number on values. A rebuilt node keeps the number of the node it was rebuilt
  from, and sharing in memory between the old and the new tree is not modelled.
- Structural markers of an edit, instrumentation counters and the timing loop of the benchmark
  suite.
- Parsing of fragments (LibCST), queries, selectors, the tree codec and the format plugins; a
  fragment is a given tree.
- BatchEdits.CaseBatch: the three plan texts are given, in ASCII, and all statements hold for any;
  the fragment tree is given too.
- Buffer listeners and edit notifications; they do not change the buffer.
- TreeEdits.PlanMeaning: names without a node, ranges that are missing and similar targets on which
  the original raises are one case, without the kind of exception.
- FileTxn.PublishSafe: each file system call is one atomic step in program order. Reordering by the
  disk at power loss, short writes, a partly written staged copy, and names that collide with the
  `.tmp` and `.bak` siblings are not modelled, nor is the staged copy of the journal itself; the
  checks that refuse an empty list or repeated targets are left out.
- Reports, messages and detail strings, JSON reading and writing, schema checks, and the choice of
  the version branch from the project file; keys of growth findings leave out the two line counts.
- GateLaws.SpeedIndependence: for runs in which every document has a node and the instrumentation is
  on for all measurements or none; for others the original raises.
- Rounding of floating point numbers; figures are real numbers, and mean and deviation are left out.
- ComparisonRuns.WaitDrains: the caller is one thread and waits without a timeout; reading the
  totals while workers still run, and an exception of the normaliser other than `NotComparable`, are
  left out.
- ComparisonCaller.ComparisonMode.Wait: every future is done by the time the wait reaches it, since
  the original blocks there.
- The texts of reasons, parameters and approved divergences on a comparison record.
- Daemon.OneServer: discovery is exact and commands do not overlap; reading the process list and
  resolving configuration paths, grace periods, missing permissions and errors on writing the
  pidfile are left out, and so is the status command.
- YamlFixer.FixYamlStringValues: letters and digits beyond ASCII are two given character classes.
  The function is modelled as lines 13-99 of the script spell it. They stand in a string literal
  that is not raw, so in the text that the script inserts the escapes of lines 95-96 have collapsed
  and it is no longer Python; that text is not modelled.
- YamlFixerLaws.EscapeRoundTrip: the reader has no numeric escapes and no line folding, which an
  escaped value never needs.
- PromptEmbed.RoundTrip: the file suffix is given, and the path has no newline; the clean-up of
  prompt texts and the per-file appliers are left out.
- PlanOrder.CollectSteps: the plan files are given as read.
- PythonCorpus.PythonSource: that the text is a valid Python module is not stated.
- Shutdown.OnceOnly: grace periods, exceptions other than the exit of a signal handler, and how far
  the stopping of the workers had got when it was unwound.
- The other copies of the daemon manager, `cst_compose_lecf6aci.py`, `cst_compose_ohxdqp51.py` and
  `cst_compose_zjyy8w9c.py`: they differ from the modelled one in comments only.
- One-off patch, migration, Docker and documentation scripts: they replace fixed texts or call other
  programs.
- Feature flags, search time limits and the like: each is one look-up or one comparison, without
  state.
