# Verified models of Scry's stateful cores

Dafny models of five parts of the repository, with proofs about all their inputs and runs. Verify with
Dafny 4.11: `dafny verify dfyconfig.toml`.

1. **Anomaly rule evaluation** (`AnomalyModel`, `AnomalyRule`, `AnomalyRuns`, `AnomalyGrouped`). `Eval` runs on
   alert objects that are shared with the `Active` map and updated in place; both map loops pick keys in any
   order. The specification is a function on maps; `AnomalyRuns` and `AnomalyGrouped` prove the hold timer, the
   separation of firing records, for alert keys and for stored fingerprints, and the retention bound over runs.
2. **Workflow compiler** (`WorkflowModel`, `WorkflowCompiler`, `WorkflowCorrectness`, `WorkflowProperties`,
   `WorkflowParallel`, `WorkflowAdds`, `WorkflowStale`, `WorkflowLimits`, `WorkflowApproval`,
   `SecurityPolicy`). A step tree compiles to the combinators then, branch, parallel, foreach, dowhile and
   dountil, whose semantics is defined here; the compiled program is proved equal to a direct interpreter. The
   outside world is an oracle whose answers may depend on everything that happened before.
3. **Memory store and topology retrieval** (`TextChunks`, `MemoryChunks`, `MemoryModel`, `MemoryLinks`,
   `MemoryStore`, `MemoryRuns`, `MemoryScores`, `MemoryMaintenance`, `MemoryMaintenanceTheorem`,
   `MemoryMaintenanceStale`, `MemoryMaintenanceConflicts`, `DenseSimilarity`, `TraceTopology`, `TraceWalk`,
   `TracePaths`, `TracePathsTheorem`, `TracePathsExact`). Operations are atomic functions on the tables, and
   methods of a database object that change the tables statement by statement and are proved against them.
4. **WASM SQLite client** (`WasmSqlite`, `SqliteQueue`). One call on the heap, and all interleavings of
   concurrent calls as a step system over a promise chain, with file operations that may fail and crashes
   between any two steps. The SQL engine is a parameter.
5. **Span forest** (`SpanForestModel`, `SpanForest`, `SpanForestTheorem`, `SpanForestExamples`). Span
   objects are linked in place; the theorem counts how often every span occurs in the result.

## Where the code does not keep a plausible promise

Each of these is false of the code as it stands; the lemmas give the exact condition under which it holds and
an input on which it fails.

- Two firing records of one stored fingerprint are always separated by a resolved one. The history stores the
  fingerprint of the query's labels, while alerts are keyed by all labels: a rule label may be a template over the
  value, so that one series has several keys, or replace a label of the result, so that one key has several series.
  Condition, for results that list no set of labels twice: `AnomalyGrouped.GroupedSeparationIff`; with a positive
  hold duration it is much weaker than without. Runs: `AnomalyGrouped.StoredFiringsCanBeAdjacent`,
  `AnomalyGrouped.TakeOverFails`. For any results: `AnomalyRuns.StoredSeparationIff`. For keys it holds always
  (`AnomalyRuns.FiringsAreSeparated`).
- The result of a parallel branch survives the merge. From the second turn of a loop on, a later branch carries an
  old copy of it and wins. Conditions: `WorkflowStale.BranchResultSurvivesIff` for one key, and
  `WorkflowStale.ParallelOrderFreeIff` for the order of the branches; run: `WorkflowStale.SecondTurnLosesResults`.
- A foreach keeps the message and the results. Conditions: `WorkflowProperties.ForeachKeepsMessageIff` and
  `WorkflowProperties.ForeachKeepsResultIff`; with an empty array, its own or one inside its body, both are dropped
  (`WorkflowProperties.EmptyForeachErases`, `WorkflowProperties.InnerForeachErases`).
- Contents are stored once. An update may set the status forgotten without erasing; a later create of the same
  content then inserts a second row. Condition: `MemoryRuns.UniqueRuns`; run: `MemoryRuns.SoftForgettingDuplicates`.
- The chunk rows of a memory carry its confidence. A create that reinforces an indexed memory raises the one and not
  the other. Condition: `MemoryScores.GradedRuns`; run: `MemoryScores.ReinforcingOutgrows`.
- A create returns the memory it stored. It returns null when it reinforces a memory its caller may not read.
  Condition: `MemoryRuns.CreateReturns`; input: `MemoryRuns.ReinforcingIsHidden`.
- A memory that the first loop of maintenance archives ends archived, and an expired one with vitality 0. The pair
  loop decides on a stale snapshot, in which it is still online. Condition:
  `MemoryMaintenanceStale.AgedOutStaysArchivedIff`; inputs: `MemoryMaintenanceStale.ExpiredEndsSuspended` and
  `MemoryMaintenanceStale.ExpiredAbsorbs`, where `MemoryMaintenanceStale.AbsorbedByExpired` is archived for it.
- Spans with unique ids and at most one parent reference each occur exactly once in the forest. A surviving span
  that is not a root is listed once for every referenced trace id; spans on a reference cycle vanish. Condition:
  `SpanForestTheorem.ExactlyOnce`; inputs: `SpanForestExamples.TwoTracesOccurTwice`,
  `SpanForestExamples.NoTraceVanishes`, `SpanForestExamples.CycleVanishes`.
- A batch that fails leaves memory as it was. A read-mode batch is not rolled back, and a batch whose file cannot be
  replaced is committed by then. Condition: `WasmSqlite.FailedBatchKeepsMemoryIff`; inputs:
  `WasmSqlite.FailedReadBatchKeepsItsChange`, `WasmSqlite.FailedSaveKeepsItsChange`.
- The path search finds every path along which errors may have spread. It follows at most three edges of a service.
  Exactly what it finds: `TracePathsTheorem.FoundIff`; when that is everything: `TracePathsExact.FindsAllIff`; a
  graph whose heaviest path is missed: `TracePathsExact.HeaviestIsMissed`. If no service has more than three
  anomalous edges the returned paths are the heaviest of all (`TracePathsTheorem.FanOutBestAreHeaviest`).

The confidence of a suspicious new memory is capped at 35 but not clamped at 0. No route or tool of the repository
passes a negative confidence, and without one every run keeps all scores in 0 to 100 (`MemoryRuns.RunsStayInRange`);
only a direct call of the store with a negative confidence breaks it (`MemoryRuns.ScoresStayInRange`).

## Model

| member | source | states |
|---|---|---|
| AnomalyRule.Rule.Eval | ee/query-service/rules/anomaly.go:206-379 | for every order in which the maps are iterated: a failed evaluation (query error or duplicate label set) changes neither the alerts nor the history; a successful one leaves exactly the specified alerts and appends each specified record once, stamped with the new overall state and whether it changed |
| AnomalyRule.Rule.Build | ee/query-service/rules/anomaly.go:220-297 | one fresh alert object for each key, or an error exactly if two samples have the same key |
| AnomalyRule.Rule.Merge | ee/query-service/rules/anomaly.go:302-314 | the merge loop, in any order: alerts that are not inactive take over value, annotations and receivers in place, all others are replaced by the built object |
| AnomalyRule.Rule.Sweep | ee/query-service/rules/anomaly.go:316-365 | the sweep loop, deleting while iterating in any order, ends in one map and one multiset of records |
| AnomalyRule.Rule.State | ee/query-service/rules/anomaly.go:208-208 | the overall state is the highest state of any active alert |
| AnomalyRule.Rule.Hand | ee/query-service/rules/anomaly.go:367-376 | every record is handed on once, in order, with the overall state and the change flag |
| AnomalyRuns.FailuresDoNotMatter | ee/query-service/rules/anomaly.go:211-215 | leaving failing evaluations out of a run gives the same alerts |
| AnomalyRuns.EvalKey | ee/query-service/rules/anomaly.go:302-365 | what one evaluation does to one key depends only on the entry of that key and on its sample |
| AnomalyRuns.EvalRecordsKey | ee/query-service/rules/anomaly.go:319-365 | the records of one evaluation for one key: at most one, determined by the entry after the merge |
| AnomalyRuns.RunInvariant | ee/query-service/rules/anomaly.go:319-365 | after any valid run the pending and firing entries are exactly the keys of the last result, and an inactive entry is at most the retention period past its resolution |
| AnomalyRuns.FiringIsNotDropped | ee/query-service/rules/anomaly.go:327-332 | a firing alert is never deleted directly: the next evaluation keeps it firing or makes it inactive |
| AnomalyRuns.HoldTimer | ee/query-service/rules/anomaly.go:302-365 | closed form over a whole run: a key of the last result is active since the start of its unbroken presence streak, and firing exactly if the streak is at least as long as the hold duration, else pending |
| AnomalyRuns.StreakExists | ee/query-service/rules/anomaly.go:278-297 | every key of the last result has such a streak, so the closed form always applies |
| AnomalyRuns.FiresUntilResolved | ee/query-service/rules/anomaly.go:324-365 | an alert that fired stays firing, with the stored fingerprint it fired with, until an evaluation resolves it |
| AnomalyRuns.FiringsAreSeparated | ee/query-service/rules/anomaly.go:319-365 | two firing or no-data records of one alert key always have an inactive record of that key between them |
| AnomalyRuns.StoredFiringsAreSeparated | ee/query-service/rules/anomaly.go:333-363 | the same for the fingerprint stored in the history, over series of which no two share that fingerprint and differ in their key, whatever results list |
| AnomalyRuns.FiresOnTime | ee/query-service/rules/anomaly.go:319-365 | the evaluation in which a presence streak first reaches the hold duration makes a firing or no-data record |
| AnomalyRuns.SharedQueryFails | ee/query-service/rules/anomaly.go:333-363 | for every configuration and any two keys with one stored fingerprint there is a valid run that fires for it in two consecutive evaluations; for a positive hold duration some result of it lists both keys |
| AnomalyRuns.StoredSeparationIff | ee/query-service/rules/anomaly.go:333-363 | for every configuration and every set of series: all valid runs over them, also with results that list one set of labels twice, separate their stored firings if and only if no two of the series share a stored fingerprint and differ in their key |
| AnomalyGrouped.GroupedFiringsAreSeparated | ee/query-service/rules/anomaly.go:315-365 | with a positive hold duration and results that list no set of labels twice, stored firings are separated whatever the keys, as long as no key that shares a stored fingerprint with another key has a second one |
| AnomalyGrouped.TakeOverFails | ee/query-service/rules/anomaly.go:248-265 | otherwise, for any such keys, there is a run of four results in which a series takes over the key of a firing one and stored firings are not separated |
| AnomalyGrouped.GroupedSeparationIff | ee/query-service/rules/anomaly.go:239-363 | for every configuration and set of series: all runs of such results separate their stored firings if and only if no key that shares a stored fingerprint with another has a second one, for a positive hold duration, or no two keys share one, without |
| AnomalyGrouped.StoredFiringsCanBeAdjacent | ee/query-service/rules/anomaly.go:239-265 | a concrete run: a rule label that reads the value changes the key with the value, and one stored fingerprint fires in two consecutive evaluations |
| WorkflowCompiler.BuildSequence | agent-service/src/workflows/compiler.ts:330-388 | the compile loop produces the program of combinators that the compile function specifies |
| WorkflowCorrectness.CompileCorrect | agent-service/src/workflows/compiler.ts:330-388 | for every step tree, environment and start, the compiled combinator program makes the same run, event for event and outcome for outcome, as the direct recursive interpreter |
| WorkflowCorrectness.ExactlyOneArm | agent-service/src/workflows/compiler.ts:341-351 | a rule and its negation as branch guards: exactly one arm runs |
| WorkflowCorrectness.ConditionCorrect | agent-service/src/workflows/compiler.ts:341-352 | marker, branch and normalization together run the arm the rule selects and hand on its context |
| WorkflowCorrectness.ParallelCorrect | agent-service/src/workflows/compiler.ts:354-362 | the parallel node runs all branches from the same context and hands on the merge of their outputs |
| WorkflowCorrectness.ForeachTail | agent-service/src/workflows/compiler.ts:149-167 | taking the items, running the body on each and merging is what the interpreter does |
| WorkflowCorrectness.ForeachCorrect | agent-service/src/workflows/compiler.ts:367-372 | the compiled foreach, marker included, equals the interpreted one |
| WorkflowCorrectness.LoopCorrect | agent-service/src/workflows/compiler.ts:374-382 | both loop modes compile to do-first loops that equal the interpreter's bounded repetition |
| WorkflowCorrectness.TurnsCorrect | agent-service/src/workflows/compiler.ts:374-380 | the count of completed body runs in the loop test is the remaining budget of the interpreter, for while and until |
| WorkflowProperties.HistoryGrows | agent-service/src/workflows/compiler.ts:187-326 | a run only appends events |
| WorkflowProperties.LoopTurns | agent-service/src/workflows/compiler.ts:374-381 | a while or until step runs its body at least once and at most maxIterations times, one run after the other, and stops at the first decisive rule value, the bound, or a body run that does not finish |
| WorkflowProperties.ForeachRuns | agent-service/src/workflows/compiler.ts:149-167 | a foreach that finishes ran its body, in order and once each, on the first maxIterations items, and hands on the merge |
| WorkflowProperties.Preserves | agent-service/src/workflows/compiler.ts:87-104 | in a run where no foreach array was empty, every step tree keeps the message and every result key it does not write |
| WorkflowProperties.MergeKeeps | agent-service/src/workflows/compiler.ts:87-104 | merging contexts that all keep something keeps it |
| WorkflowProperties.EmptyForeachErases | agent-service/src/workflows/compiler.ts:98-98 | a foreach over an empty array hands on the empty context: message and results are lost |
| WorkflowProperties.ForeachKeepsMessageIff | agent-service/src/workflows/compiler.ts:149-167 | a foreach that finishes keeps the message if and only if its array is not empty and its body keeps the message on the first item |
| WorkflowProperties.ForeachKeepsResultIff | agent-service/src/workflows/compiler.ts:149-167 | it keeps a result if and only if the last item run that still holds the key holds the old value |
| WorkflowProperties.InnerForeachErases | agent-service/src/workflows/compiler.ts:149-167 | a foreach over one item whose body is a foreach over an empty array hands on the empty context |
| WorkflowParallel.WritesFromIds | agent-service/src/workflows/compiler.ts:157-164 | every key a step list writes belongs to one of its step ids |
| WorkflowParallel.BranchesApart | agent-service/src/server.ts:1051-1056 | branches of a definition with unique ids write disjoint keys |
| WorkflowParallel.AssignIsUnion | agent-service/src/workflows/compiler.ts:102-102 | assigning maps that agree on common keys yields their union |
| WorkflowParallel.ParallelOrderFree | agent-service/src/workflows/compiler.ts:87-104 | if no key the branches may write is in the incoming results, merging the branch outputs in any order gives the same map: the incoming one and every branch's additions |
| WorkflowAdds.InterpretAdds | agent-service/src/workflows/compiler.ts:87-104 | in every run that finishes, results outside the keys a step tree writes are those from before or gone |
| WorkflowStale.BranchResultSurvivesIff | agent-service/src/workflows/compiler.ts:87-104 | for a finished parallel step with unique ids and a key that branch i wrote: the merge holds that branch's value if and only if no later branch still holds the key or its old value is the same |
| WorkflowStale.OrderFreeIff | agent-service/src/workflows/compiler.ts:87-104 | every order of contexts merges to the same map if and only if no two of them hold different values for a key |
| WorkflowStale.ParallelKeepsFreshIff | agent-service/src/workflows/compiler.ts:87-104 | where no foreach array was empty: the branch's value survives if and only if the branch is the last, the key was not there before, or its old value is the same |
| WorkflowStale.ParallelOrderFreeIff | agent-service/src/workflows/compiler.ts:87-104 | every order of the outputs merges to the same map if and only if no branch changed the value of a key that another branch still holds |
| WorkflowStale.SecondTurnLosesResults | agent-service/src/workflows/compiler.ts:354-382 | a compiled while loop around two tool calls in parallel, run twice: the second answer of the first tool is lost, that of the second is kept |
| WorkflowLimits.Inspection.Visit | agent-service/src/server.ts:1004-1023 | the recursive visit adds exactly the count, depth and ids of the visited list |
| WorkflowLimits.Accepts | agent-service/src/server.ts:1051-1056 | the validator accepts exactly the definitions with at most 100 steps, at most 5 levels and unique ids |
| WorkflowLimits.DistinctSize | agent-service/src/server.ts:1055-1055 | a list has no repetition exactly if its set has its length |
| WorkflowLimits.LeafBound | agent-service/src/workflows/compiler.ts:364-383 | a run of N steps at depth d with loop bounds at most 50 enters at most N * 50^(d-1) leaf steps |
| WorkflowLimits.AcceptedRunsAreBounded | agent-service/src/server.ts:987-1056 | whatever the validator accepts enters at most 100 * 50^4 leaf steps when compiled and run |
| WorkflowApproval.InterpretAppend | agent-service/src/workflows/compiler.ts:340-386 | running a list is running its front and, if that finishes, its back from there |
| WorkflowApproval.ApprovalGate | agent-service/src/workflows/compiler.ts:196-235 | in a compiled list, what follows an approval step runs only right after that step was resumed with approval, and otherwise the run ends at the approval |
| WorkflowApproval.ReadThree | agent-service/src/workflows/compiler.ts:51-60 | reading a dotted path of three plain segments descends three times |
| WorkflowApproval.GateReads | agent-service/src/workflows/compiler.ts:259-273 | the gate's rule path finds the decision that the security step stored |
| WorkflowApproval.SecurityThenGate | agent-service/src/db.ts:408-424 | after the security step the gate takes its approval branch |
| WorkflowApproval.SecurityLoopNeedsApproval | agent-service/src/db.ts:408-424 | the built-in security workflow, for every message and whatever the outside world answers: a dangerous message fails at once; the operation and verification steps run only after security check, request and approval, in that order |
| SecurityPolicy.AuditLog.EvaluateInputSecurity | agent-service/src/security/policy-engine.ts:16-99 | the verdict, and exactly the four audit events of an evaluation in order |
| WasmSqlite.RunAllSplits | agent-service/src/database/wasm-sqlite.ts:95-95 | running a list of statements is running its front and then its back |
| WasmSqlite.FailedBatchKeepsMemoryIff | agent-service/src/database/wasm-sqlite.ts:86-115 | for every batch and every outcome of the file operations: a batch that fails leaves memory unchanged if and only if it is in write mode and failed before its commit, or the statements that ran changed nothing |
| WasmSqlite.FailedReadBatchKeepsItsChange | agent-service/src/database/wasm-sqlite.ts:86-115 | an insert followed by a malformed statement: in read mode the batch fails and memory keeps the row, in write mode it is rolled back |
| WasmSqlite.FailedSaveKeepsItsChange | agent-service/src/database/wasm-sqlite.ts:96-112 | a write-mode batch whose rename fails reports an error and memory keeps its change |
| WasmSqlite.Client.Persist | agent-service/src/database/wasm-sqlite.ts:70-75 | the file is replaced by the image in memory if all three file operations succeed, and keeps its old content otherwise |
| WasmSqlite.Client.ExecuteCall | agent-service/src/database/wasm-sqlite.ts:77-84 | memory, reply and file after one statement, for every way the file operations end |
| WasmSqlite.Client.BatchCall | agent-service/src/database/wasm-sqlite.ts:86-115 | memory, reply and file after a batch, and no transaction left open |
| SqliteQueue.RunsKeepInvariant | agent-service/src/database/wasm-sqlite.ts:44-54 | every reachable state of concurrent callers satisfies the invariant: the promise chain, the phase of the running call, the replies given, and which serial prefix the file holds |
| SqliteQueue.SomeCallCanStep | agent-service/src/database/wasm-sqlite.ts:44-54 | no deadlock: while any call is not released, some call already made can take a step |
| SqliteQueue.CallsAreShort | agent-service/src/database/wasm-sqlite.ts:44-115 | a call takes at most six steps besides its statements, whatever the other calls do and however the file operations end |
| SqliteQueue.MutualExclusion | agent-service/src/database/wasm-sqlite.ts:44-54 | at most one operation is in progress, and operations start in call order |
| SqliteQueue.RepliesAreSerial | agent-service/src/database/wasm-sqlite.ts:77-115 | every settled call got the reply of the serial run of the calls before it, or a file system error |
| SqliteQueue.MemoryIsSerial | agent-service/src/database/wasm-sqlite.ts:44-115 | when all calls are released, memory is the image of the serial run and no transaction is open |
| SqliteQueue.CrashSafety | agent-service/src/database/wasm-sqlite.ts:70-75 | at every reachable state, hence at every crash, the file holds the image of a serial prefix that includes every acknowledged write |
| SpanForest.SpanToTree | frontend/src/utils/spanToTree.ts:52-148 | the linked objects and the two lists are a result of the value model for some visiting order of the keys |
| SpanForest.Fill | frontend/src/utils/spanToTree.ts:82-104 | the map after the first loop: one object for each id, the last span winning |
| SpanForest.Link | frontend/src/utils/spanToTree.ts:106-116 | the linking loop over a snapshot of the entries, with placeholders created on the way, equals the fold over the visited keys, and collects all referenced trace ids |
| SpanForest.DeleteProcessed | frontend/src/utils/spanToTree.ts:117-121 | exactly the processed keys are deleted, in any order |
| SpanForest.Place | frontend/src/utils/spanToTree.ts:123-142 | the two lists are filled as the placement function says |
| SpanForestTheorem.LinkingLinks | frontend/src/utils/spanToTree.ts:106-116 | after linking, the children of a node are exactly the visited spans that name it, each once, and placeholders are exactly the missing parents |
| SpanForestTheorem.Occurrences | frontend/src/utils/spanToTree.ts:106-142 | in the subtree of c, v occurs exactly as often as c is among v's ancestors |
| SpanForestTheorem.PlacedCounts | frontend/src/utils/spanToTree.ts:125-142 | a surviving node is listed once if it is a root and once for every referenced trace id otherwise |
| SpanForestTheorem.OneListEach | frontend/src/utils/spanToTree.ts:125-142 | with one trace id every survivor is in exactly one of the two lists |
| SpanForestTheorem.EveryNodeCounted | frontend/src/utils/spanToTree.ts:52-148 | for unique ids and one parent each: a node whose chain of parents ends occurs as often as its root is listed; a node on or below a cycle does not occur at all |
| SpanForestTheorem.ChainsAreShort | frontend/src/utils/spanToTree.ts:106-116 | acyclic parent chains are shorter than the number of nodes |
| SpanForestTheorem.ExactlyOnce | frontend/src/utils/spanToTree.ts:52-148 | with acyclic references a span or placeholder occurs exactly once if and only if its chain ends in a root or exactly one trace id is referenced |
| SpanForestExamples.TwoTracesOccurTwice | frontend/src/utils/spanToTree.ts:117-142 | with two referenced trace ids a span below a missing parent, and the placeholder of that parent, occur twice, for every order of the keys |
| SpanForestExamples.NoTraceVanishes | frontend/src/utils/spanToTree.ts:117-142 | a single span without references occurs in neither list |
| SpanForestExamples.CycleVanishes | frontend/src/utils/spanToTree.ts:106-142 | two spans that name each other as parent occur in neither list |
| SpanForestTheorem.SpansAreNodes | frontend/src/utils/spanToTree.ts:82-104 | every input span is a node of the result |
| TextChunks.SplitText | agent-service/src/memory/index.ts:179-209 | the chunk loop computes the chunks of the recursive definition |
| TextChunks.CutParagraphs | agent-service/src/memory/index.ts:184-193 | the pieces: paragraphs, or their sentences, or slices of them, in order |
| TextChunks.ChunksAreAPacking | agent-service/src/memory/index.ts:194-208 | the chunks are a greedy packing of the pieces: every piece in order, in exactly one chunk or cut on its own, joined by blank lines, and no closed chunk could have taken the next piece |
| TextChunks.PiecesNotEmpty | agent-service/src/memory/index.ts:180-193 | no piece of a text is empty |
| TextChunks.ChunksFit | agent-service/src/memory/index.ts:179-209 | every chunk is non-empty and at most maxLength long |
| TextChunks.ChunksAreTheText | agent-service/src/memory/index.ts:179-209 | up to white space, the chunks of any text concatenate to the text |
| MemoryChunks.BuildChunks | agent-service/src/memory/index.ts:211-258 | the nested loops with early return compute the index of the reference definition |
| MemoryChunks.IndexIsSound | agent-service/src/memory/index.ts:233-255 | an index is numbered from 0, has pairwise different contents of 1 to 1800 code units, titles of at most 240, and at most 80 entries |
| MemoryChunks.IndexIsComplete | agent-service/src/memory/index.ts:233-257 | below the limit a text is indexed if and only if it is a chunk of some section |
| DenseSimilarity.BuildVector | agent-service/src/memory/index.ts:129-142 | the accumulation loop counts, in each of the 256 buckets, the signed features that hash to it |
| DenseSimilarity.Similarity | agent-service/src/memory/index.ts:144-157 | the three sums of the loop give the clamped cosine |
| DenseSimilarity.CauchySchwarz | agent-service/src/memory/index.ts:150-154 | the squared dot product is at most the product of the squared norms, for all vectors |
| DenseSimilarity.CosineRange | agent-service/src/memory/index.ts:144-157 | the similarity lies in [0,1] and is symmetric |
| DenseSimilarity.CosineOfItself | agent-service/src/memory/index.ts:144-157 | a non-zero vector has similarity 1 with itself, a zero one 0 |
| TraceTopology.Add | agent-service/src/memory/index.ts:355-367 | one observation: ignored, a new edge, or merged into the edge of its pair |
| TraceWalk.Walker.Walk | agent-service/src/memory/index.ts:303-312 | the recursive walk hands its visitor the objects of the specification |
| TraceWalk.WalkIsTour | agent-service/src/memory/index.ts:303-312 | the walk visits, in document order and each once, exactly the objects that at most nine steps lead to, through the first 1000 items of an array and the first 300 values of an object |
| TraceWalk.ObjectString | agent-service/src/memory/index.ts:292-301 | the first key, with dots followed, that holds a string that is not blank |
| TraceWalk.NumericValue | agent-service/src/memory/index.ts:327-334 | the first key that holds a number, or zero |
| TraceWalk.CollectSpans | agent-service/src/memory/index.ts:338-353 | the span map of the objects found, a later object of an id replacing an earlier one |
| TraceWalk.ExtractTraceEdges | agent-service/src/memory/index.ts:336-381 | from the JSON value on: the edges are the fold of the observations of all spans, in some order, and then of all objects |
| TraceWalk.EdgeIff | agent-service/src/memory/index.ts:336-381 | there is an edge from one service to another if and only if the pair is usable and either some span is below a span of the first service and belongs to the second, each as the last object of its id describes it, or some object names the pair |
| TraceTopology.ExtractionIsUnique | agent-service/src/memory/index.ts:368-380 | the order of the span map does not matter: a value has only one set of extracted edges |
| TraceTopology.FoldIsWeightedMean | agent-service/src/memory/index.ts:354-367 | the fold has one edge for each observed pair and no self-loop; calls are the sum of the observed calls, the rate their call-weighted mean of clamped rates, within [0,1] |
| TraceTopology.FoldOrderFree | agent-service/src/memory/index.ts:354-380 | the order of observations does not matter |
| TraceTopology.TopologyTable.Observe | agent-service/src/memory/index.ts:712-733 | the upserts of one trace update the table edge by edge: counts, mean rate, confidence, trace and time |
| TraceTopology.TableIsBatchMean | agent-service/src/memory/index.ts:712-733 | after any sequence of traces a row exists exactly for the observed edges and holds the number, the mean and the failure count of all observed rates, at most as many failures as observations, and ten times the number as confidence, at most 100 |
| TraceTopology.TableNamesLastTrace | agent-service/src/memory/index.ts:723-731 | a row names the last trace in which its edge was observed, and its time |
| TracePaths.PathSearch.Visit | agent-service/src/memory/index.ts:744-755 | the recursive walk appends exactly the found paths of the search function |
| TracePaths.EnumeratePaths | agent-service/src/memory/index.ts:735-758 | the best three found paths by descending weight |
| TracePaths.SortSorts | agent-service/src/memory/index.ts:740-740 | sorting yields a descending permutation |
| TracePathsTheorem.VisitsOnce | agent-service/src/memory/index.ts:749-749 | a found path visits no service twice |
| TracePathsTheorem.WalkSound | agent-service/src/memory/index.ts:744-755 | everything the search finds is a simple path along anomalous edges that is stuck or of full length, and each of its edges is among the three best ways on at its place |
| TracePathsTheorem.WalkComplete | agent-service/src/memory/index.ts:744-755 | from any point of such a path the search finds it, if every edge from there on is among the three best ways on at its place |
| TracePathsTheorem.FoundIff | agent-service/src/memory/index.ts:744-755 | exactly what the search finds: the simple paths that are stuck or of full length and all of whose edges are among the three best ways on at their place |
| TracePathsTheorem.NarrowComplete | agent-service/src/memory/index.ts:744-755 | these are all such paths, if no simple path of fewer than six services has more than three ways on |
| TracePathsTheorem.BestAreReportable | agent-service/src/memory/index.ts:735-758 | every returned path is a simple path of two to six services from the symptom along edges with rate at least 0.1 |
| TracePathsTheorem.BestAreHeaviest | agent-service/src/memory/index.ts:756-757 | every path that the search finds is returned or no heavier than the three that are |
| TracePathsTheorem.NarrowBestAreHeaviest | agent-service/src/memory/index.ts:744-757 | where no simple path of fewer than six services has more than three ways on, the returned paths are the heaviest of all simple paths that are stuck or of full length |
| TracePathsTheorem.FanOutBestAreHeaviest | agent-service/src/memory/index.ts:744-757 | the same if no service has more than three anomalous out-edges |
| TracePathsExact.CutIsMissed | agent-service/src/memory/index.ts:744-755 | with one edge for each pair of services a path that goes on along a candidate behind the first three is not found |
| TracePathsExact.FindsAllIff | agent-service/src/memory/index.ts:744-755 | with one edge for each pair, as one evidence item gives: the search finds every reportable path if and only if no simple path of fewer than six services has more than three ways on |
| TracePathsExact.HeaviestIsMissed | agent-service/src/memory/index.ts:754-757 | for every growing log1p a graph with four ways from the symptom in which a path is missed that is heavier than all that are returned |
| MemoryStore.Database.PersistChunks | agent-service/src/memory/index.ts:260-280 | the old index is deleted and the new one inserted row by row, with the memory's confidence |
| MemoryStore.Database.HydrateMemories | agent-service/src/memory/index.ts:432-473 | exactly the missing indexes of rows that are not forgotten are built |
| MemoryStore.Database.GetMemory | agent-service/src/memory/index.ts:475-491 | a memory is returned exactly if it is of the caller's organization and visible to the caller or an administrator, and is indexed then |
| MemoryStore.Database.CreateMemory | agent-service/src/memory/index.ts:576-654 | refusal, reinforcement of the newest live row of that content, or insertion: the tables, sources, relations and audit events afterwards, and the result |
| MemoryLinks.FirstSourceCounts | agent-service/src/memory/index.ts:521-530 | the first source with a memory, type, id and relation gives the row, if there was none |
| MemoryLinks.OtherSourcesStay | agent-service/src/memory/index.ts:521-530 | no other source row comes, goes or changes |
| MemoryLinks.LinksOfOther | agent-service/src/memory/index.ts:543-574 | each of the 300 newest other memories gets the relation of its kind, if it is of any and had none |
| MemoryLinks.LinksElsewhere | agent-service/src/memory/index.ts:543-574 | no other relation comes, goes or changes |
| MemoryLinks.NoEqualContent | agent-service/src/memory/index.ts:557-557 | the test for an equal content hash never decides: such a memory would have been reinforced |
| MemoryStore.Database.UpdateMemory | agent-service/src/memory/index.ts:656-692 | the tables after an update, the confidence of the chunks included, with null and refusal |
| MemoryStore.Database.ForgetMemory | agent-service/src/memory/index.ts:694-710 | the tables and the audit event after a forget, with null and refusal |
| MemoryStore.Database.RetrieveMemories | agent-service/src/memory/index.ts:874-885 | listing indexes the candidates, and each chosen one is touched once |
| MemoryRuns.EveryStepKeeps | agent-service/src/memory/index.ts:576-710 | every operation but an inserting create keeps the set of rows; of each row it keeps the texts and keeps or builds the index, or it erases row and index as a whole |
| MemoryRuns.RunsStayTidy | agent-service/src/memory/index.ts:432-473 | over any run the stored chunks of every row are absent or equal, in order, title and content, to what the builder makes of that row |
| MemoryRuns.ForgottenForGood | agent-service/src/memory/index.ts:694-710 | after a forget that succeeds, title, summary, content, tags, keywords, service and chunks stay erased in every later state, even if the status is set again |
| MemoryRuns.UniqueStep | agent-service/src/memory/index.ts:607-624 | one operation stores a content twice if and only if it is a create whose content is held only by forgotten rows |
| MemoryRuns.UniqueRuns | agent-service/src/memory/index.ts:607-654 | a run keeps at most one row for an organization and content hash throughout if and only if no create in it is of that kind |
| MemoryRuns.HardForgettingIsUnique | agent-service/src/memory/index.ts:607-710 | that holds for every run in which no operation sets the status forgotten without erasing |
| MemoryRuns.SoftForgettingDuplicates | agent-service/src/server.ts:661-672 | a three-step run through the update route that stores any given content twice |
| MemoryRuns.OtherOrganizationsStay | agent-service/src/memory/index.ts:475-512 | no operation changes a memory, or the index of a memory, of another organization |
| MemoryRuns.OrganizationsAreApart | agent-service/src/memory/index.ts:475-512 | over any run in which only other organizations act a memory and its index stay as they are |
| MemoryRuns.ScoresStayInRange | agent-service/src/memory/index.ts:602-613 | every operation on a store with scores in 0 to 100 keeps them there if and only if it is not an insert of a suspicious memory with negative confidence |
| MemoryRuns.RunsStayInRange | agent-service/src/memory/index.ts:576-710 | over any run whose creates pass no negative confidence, as the routes and tools do, all scores stay in 0 to 100 |
| MemoryScores.GradedStep | agent-service/src/memory/index.ts:614-680 | an operation leaves the chunk rows of every memory with its confidence if and only if it is not a create that raises the confidence of an indexed memory |
| MemoryScores.GradedRuns | agent-service/src/memory/index.ts:614-680 | a run does so throughout if and only if it has no such create |
| MemoryScores.ReinforcingOutgrows | agent-service/src/memory/index.ts:614-624 | a concrete run of two creates of one content that leaves the chunk rows behind |
| MemoryRuns.CreateReturns | agent-service/src/memory/index.ts:614-624 | an insert returns the new memory to its author; a reinforcement returns null if and only if its author may not read the reinforced memory |
| MemoryRuns.ReinforcingIsHidden | agent-service/src/memory/index.ts:607-624 | a create of a personal memory whose content another user of the organization holds reinforces that row and returns null |
| MemoryMaintenance.MaintainMemories | agent-service/src/memory/index.ts:984-1056 | both loops, statement by statement, end in the tables, the conflict relations, the report and the closing audit event of the specification, for every listing the database may answer |
| MemoryMaintenance.AgeMemory | agent-service/src/memory/index.ts:991-1011 | the first loop's body: expiry, decay and archiving of one row |
| MemoryMaintenance.ComparePair | agent-service/src/memory/index.ts:1014-1050 | the second loop's body: merge, conflict or nothing, decided on the snapshot and written to the current rows and to the relations |
| MemoryMaintenanceTheorem.ScannedInOrder | agent-service/src/memory/index.ts:505-514 | the scanned rows are distinct and keep the order of the listing |
| MemoryMaintenanceTheorem.OnlineRowsSettle | agent-service/src/memory/index.ts:1013-1050 | the final row of every online memory in closed form over the snapshot: its pointer, how often it was reinforced and to what vitality, and the status the last deciding pair leaves |
| MemoryMaintenanceTheorem.OnePointer | agent-service/src/memory/index.ts:1019-1033 | the note of a merged memory names the last earlier memory it merges with; a memory that merges with none keeps its note |
| MemoryMaintenanceTheorem.PointersEnd | agent-service/src/memory/index.ts:1014-1033 | pointers go to strictly earlier memories that rank at least as high, and following them ends in a memory never merged |
| MemoryMaintenanceTheorem.PinnedIsKept | agent-service/src/memory/index.ts:993-1000 | a pinned memory keeps its status, and its vitality is not lowered |
| MemoryMaintenanceTheorem.VerifiedLeavesByExpiry | agent-service/src/memory/index.ts:993-1000 | a verified memory goes offline if and only if it is scanned and expired, and ends archived then |
| MemoryMaintenanceTheorem.StaysOnlineIff | agent-service/src/memory/index.ts:991-1050 | an online memory stays online, with its status, if and only if it neither expires nor fades nor is merged nor loses a conflict |
| MemoryMaintenanceStale.AgedOutStaysArchivedIff | agent-service/src/memory/index.ts:991-1050 | a memory that the first loop archives ends archived if and only if it loses no conflict against a later memory and the last earlier one that takes it offline, if any, absorbs it; an expired one keeps vitality 0 if and only if nothing is merged into it |
| MemoryMaintenanceStale.ExpiredEndsSuspended | agent-service/src/memory/index.ts:1034-1049 | an expired memory that contradicts a more trusted one ends suspended |
| MemoryMaintenanceStale.ExpiredAbsorbs | agent-service/src/memory/index.ts:1019-1033 | an expired memory absorbs another and ends archived with vitality 5 |
| MemoryMaintenanceStale.AbsorbedByExpired | agent-service/src/memory/index.ts:1019-1033 | and the absorbed memory, which is not expired, is archived with a pointer to it |
| MemoryMaintenanceTheorem.RowsAreOnlyMetered | agent-service/src/memory/index.ts:984-1056 | of every row only note, counters, vitality, status and times may change; forgotten rows stay, nothing comes online, vitality stays in 0 to 100 |
| MemoryMaintenanceTheorem.OtherRowsStay | agent-service/src/memory/index.ts:505-517 | rows outside the snapshot are untouched |
| MemoryMaintenanceTheorem.TablesKeepRows | agent-service/src/memory/index.ts:984-990 | no row comes or goes, and the only change to the chunk table is the indexing of the listed memories |
| MemoryMaintenanceTheorem.ReportCountsActions | agent-service/src/memory/index.ts:988-1050 | merged equals reinforced, and merged, archived and expired are the numbers of such action rows appended |
| MemoryMaintenanceConflicts.ConflictsAreRecorded | agent-service/src/memory/index.ts:1034-1041 | every pair of the snapshot keeps the relation row it had, or gets one with its score if and only if it conflicts; no other row comes, goes or changes |
| MemoryMaintenanceConflicts.ReportCountsConflicts | agent-service/src/memory/index.ts:1034-1049 | the report counts the distinct conflicting pairs of the snapshot |

## Left out

- The HTTP routes, authentication, the model and tool calls of workflow steps, and event streams: they enter as answers of an oracle or not at all.
- Template expansion, query building, label hashing and rule options of the anomaly rule: samples arrive with their keys, fingerprints and annotations.
- `RecordRuleStateHistory` and its restart handling, the JSON of labels, Go's zero time inside arithmetic and the saturation of durations.
- The run record of a workflow (`updateWorkflowRunRecord`) and the resume of a denied approval: the record keeps its suspended step after a denial.
- Concurrency of foreach and parallel: items and branches run in one canonical event order, which the properties of their outputs do not depend on.
- Retries: a retried step counts as one activation of its leaf, so the leaf bound is retries aside.
- Prototype keys, surrogate pairs and the number formats of JSON in workflow values and paths.
- Transaction control statements inside a batch, `close()`, and binding of statement arguments.
- Floating point: all scores and rates are real numbers, so NaN, infinities and rounding are not modelled.
- NFKC normalization, `memoryTokens`, keyword extraction, injection and contradiction word lists, secret redaction and JSON sanitizing: parameters.
- The half-life power and `log1p`: parameters.
- Interleavings inside one memory operation, and the physical deletion of sample memories.
- Ranking of retrieved memories: any choice among the listed ones is allowed.
- SpanForestTheorem.ExactlyOnce: for at most one parent reference per span and unique ids, because otherwise a span is pushed to several parents or replaced.
- TracePathsExact.FindsAllIff: for at most one edge for each pair of services; several evidence items may repeat a pair, and then the condition is sufficient (TracePathsTheorem.NarrowComplete) and TracePathsTheorem.FoundIff is exact for each path.
- Duplicate branch ids of a parallel step.
- `extractServiceNames` and the choice of a symptom service; JSON numbers are real, and trimming, `Number(...)` of other values and the pattern for failures are parameters of the extraction.
- MemoryStore.Database.CreateMemory: the answers of its two queries and the new id are inputs, constrained to what the database and the id generator may return; the risk score and details of audit events, the ids of relation rows, rationale texts, and differences between the clock readings of one call.
- MemoryMaintenance.MaintainMemories: the same details of relation rows and audit events, and the second clock reading in the report.
- Chunk type, token count and keywords of a chunk: no modelled property depends on them.
- WorkflowParallel.ParallelOrderFree: only for keys that are absent before; WorkflowStale.OrderFreeIff and WorkflowStale.ParallelOrderFreeIff are exact for all.
- WorkflowStale.ParallelKeepsFreshIff: where a foreach array was empty, WorkflowStale.BranchResultSurvivesIff is exact; both assume the unique step ids the validator demands.
- TracePathsTheorem.BestAreHeaviest: only for paths whose edges are among the three best ways on, since the search follows no others (TracePathsTheorem.FoundIff, TracePathsExact.HeaviestIsMissed).
- AnomalyRuns.SharedQueryFails: for a positive hold duration its run has a result that lists one set of labels twice; AnomalyGrouped.GroupedSeparationIff is about results that do not.
- AnomalyRuns.StoredSeparationIff: its failing runs for a positive hold duration are of that kind.
