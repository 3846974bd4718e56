# Incident investigation: verified models

The repository investigates production incidents: it collects bounded log samples, scores
deterministic root-cause candidates, lets a language model ask for more evidence under budgets, puts
the interpretation before human reviewers, and checkpoints every step in MySQL. This project models
the parts of it that decide something, and proves what they promise for every input, every run or
every reachable state. `dafny verify dfyconfig.toml` checks all of it.

| Part | Files | Main results |
|---|---|---|
| Checkpointer on three shared tables | `Checkpoint*.dfy` | A put reads back, at once and after any interleaving of later calls, exactly under stated conditions, which the puts of the graph library meet; rows never change; replays store nothing; task writes keep the longer of two agreeing sequences and read back in issue order |
| Log sampler and query planner | `LogRows.dfy`, `EvenSpacing.dfy`, `LogSampler.dfy`, `Sampler*.dfy`, `Query*.dfy` | The sample has exactly the allowed size, both boundary rows and an even spread of what each phase may add; the query plan is known request by request, spends its budget exactly, and truncation drops nothing |
| Counting and streaming evaluation | `PairCounting.dfy`, `MapSums.dfy`, `BinaryHeap.dfy`, `LowestHash.dfy`, `TraceBuckets.dfy`, `StratifiedCases.dfy` | Pair counts equal the quadratic definition; bounded heaps and truncated buckets equal sort-and-take; round-robin selection is exact and balanced |
| Investigation loop and workflow | `InvestigationLoop.dfy`, `ToolBudget.dfy`, `Workflow*.dfy` | Publication is gated by both reviews in every run; the number of evidence rounds has an exact bound in the number of rejections, the settings and the model requests of the incident |
| Candidate scoring | `Candidate*.dfy`, `Signal*.dfy` | Merging represents every event class and is idempotent; string-typed evidence is never refused; the assessment abstains exactly when the evidence is not enough, which is when the loop goes on |
| Model calls | `ModelBudget.dfy`, `ModelCalls.dfy`, `ModelCallRuns.dfy`, `ModelOverruns.dfy` | No request while the circuit is open; the circuit opens only after all attempts fail and stays shut for its full period; every request is authorised against all that was charged before it, so budgets hold exactly when the last report fits |
| Record accounting | `Record*.dfy` | Every record is usable, quarantined or duplicate, the counters agree with each other, and assessing usable rows again changes nothing exactly under a stated condition |

`Basics.dfy`, `Options.dfy` and `Ordering.dfy` hold the small functions, the optional value and the stable sort all parts share.

## How the code is read

Code that updates state in place is imperative here: the checkpointer is a class over a shared
`Database`, the circuit and the usage entries are objects, the streaming algorithms are loops over
the heaps, buckets and dictionaries they fill. Each such method is proved equal to a function of its
inputs or of the old state, and the promises are lemmas about that function. Outside calls are
oracles: a log source answers each request with arbitrary rows, the provider answers each attempt
with an arbitrary outcome at an arbitrary time, graph nodes may do anything to the state they are not
shown to leave alone.

Arbitrary functions, assumed nothing of unless a lemma says so: serialisation (assumed faithful where
snapshots are read back), signal detection, event shapes and the high-signal test of a log row,
hashing, redaction, JSON encoding of a record, time parsing, printing of non-string values, prices.

## Where the code and its description differ

- `reinvestigate_feedback` (graph/nodes/reinvestigate_feedback.py:20-29) does not keep the consumed
  rounds: it keeps only the four limits, so every review rejection grants a full set of rounds. Two
  things hold it back. A round is followed by another only when a tool delivered a new record, so there
  must be room for one (tools enabled, at least one call, and the smallest result with a record below
  the byte budget). And a correlation that leaves a trace makes two model requests at least, one that
  asks for the tool and one that ends `_run_with_tools`, which are charged to the ledger of the incident
  and never given back (graph/nodes/semantic_correlate.py:352-477, 577-581). With cap = max_rounds if
  there is room and 1 otherwise, the best bound on `semantic_correlate` is
  `(rejections + 1) + min((rejections + 1) * (cap - 1), max_requests / 2)` (`RoundsAreBounded`,
  `BoundIsAttained`, `ExactBound`). A bound of `rejections + max_rounds` holds exactly without
  rejections, with a single round, without room, or with fewer than `2 * max_rounds` requests
  (`RejectionsShareRoundsExactlyWhen`).
- A correlation need not make any request: the circuit is shared by all incidents of a process, and a
  prompt can be too long for the tokens left (clients/openai_client.py:53-100). Neither lasts: the
  circuit closes again, and the next prompt can be shorter. So a budget of rounds can be closed at no
  cost in requests.
- A record a tool found can be integrated again in every round: incident logs are kept with normalized
  labels, and `_key` compares them with the labels of the source
  (graph/nodes/integrate_targeted_evidence.py:66-81, 180-189). A repeated search is served from the
  cache and uses up nothing, so one search is enough for all rounds of a budget.
- `interpret_incident` starts a tool session (graph/nodes/interpret_incident.py:226-400), but the loop
  has always stopped after a round by then, and a stopped loop refuses every tool call
  (utils/tool_budget.py:197-206): `InterpretingUsesNothing`. It makes no model request either when the
  assessment asks for more evidence, for then it abstains.
- `_time_slices` rounds the slice width to whole microseconds, half to even, and multiplies it, so the
  last slice can start after the end of the window. Slices of every window are in order exactly when
  at most four are asked for, which is what `query_logs` does: `SlicesInOrderExactly`.
- `MySQLSaver.list` checks its limit after it yields, so a limit below one yields one row;
  it keeps its limit exactly when that is positive, or zero with nothing to yield:
  `LimitHoldsExactlyWhen`.
- `_select_lowest_hash` reads `heap[0]` of an empty heap when `per_label` is below one and there is a
  row; `SelectLowestHash` returns nothing in exactly that case.
- A `put` that leaves a changed channel out of `new_versions` loses its value
  (`UncoveredChannelIsLost`), and one that leaves out a channel without a value and without a row can be
  given one by a later put (`FillerSpoils`). Both conditions are exact: `ReadsBackExactlyWhen`,
  `ReadsBackForeverExactlyWhen`. The graph library names each channel or repeats its parent's, which
  meets them: `SnapshotsRebuild`.
- A response without usage is charged its reserved tokens but no cost, although prices are configured
  (utils/model_usage.py:164-184): `MissingUsageIsFree`.
- `authorize_model_call` reserves for the prompt only (clients/openai_client.py:80-85), while both model
  nodes also send tool definitions, so a provider can report more input than was reserved and a limit
  can be passed: `OverreportPassesLimit`. It is passed exactly when the last report exceeds what the
  limits had left, and by no more than that report exceeds its reservation: `BudgetsHold`,
  `OverrunIsOneEntry`.
- A negative retry setting opens the circuit without any request; the bounds of `CallBounds` are
  stated with `AtLeastZero` for that reason.
- Assessing usable records again is not always the identity. It is exactly when redaction leaves each
  emitted row alone, stamping has emptied no required field, and the time is read again from the same
  field as the same time (`ReassessedExactlyWhenRepeatable`). Fields kept apart from the six stamped ones
  are enough (`ReassessmentIsIdentity`, and the three callers keep them apart). It fails for a time in
  `event_time` not written canonically (`RewrittenTimeIsUnstable`) and for a required field the
  assessment empties (`EmptiedFieldIsUnstable`).

## Model

| member | source | states |
|---|---|---|
| `CheckpointSaver.MySQLSaver.Put` | graph/checkpointer.py:440-495 | One call is one transaction: it succeeds and stores the checkpoint and its blobs, or meets a conflicting row and leaves the database as it was |
| `CheckpointSaver.MySQLSaver.PutWrites` | graph/checkpointer.py:497-542 | The same for a task's writes, with reserved channels at their fixed indexes |
| `CheckpointSaver.MySQLSaver.DeleteThread` | graph/checkpointer.py:577-588 | The three tables without the rows of the thread |
| `CheckpointSaver.MySQLSaver.LoadValues` | graph/checkpointer.py:329-341 | The channel values decoded from the blobs of the given versions, empty and missing blobs left out |
| `CheckpointSaver.MySQLSaver.SelectPending` | graph/checkpointer.py:359-371 | The pending writes of a checkpoint, by task and write index |
| `CheckpointSaver.MySQLSaver.TupleFromRow` | graph/checkpointer.py:359-386 | The whole snapshot of a stored checkpoint |
| `CheckpointSaver.MySQLSaver.GetTuple` | graph/checkpointer.py:388-406 | With a nonempty id the checkpoint of exactly that thread, namespace and id; without one the stored checkpoint of the namespace whose id no other exceeds; none exactly when there is no such row |
| `CheckpointSaver.MySQLSaver.List` | graph/checkpointer.py:408-438 | The snapshots that pass the metadata filter, newest first, cut at the limit as the code cuts it, and no more than the limit exactly when it is positive or there is nothing to yield |
| `CheckpointSaver.MySQLSaver.Fetch` | graph/checkpointer.py:408-430 | Exactly the stored checkpoints the query matches, in descending id order |
| `CheckpointSaver.LimitHoldsExactlyWhen` | graph/checkpointer.py:431-438 | No more rows than the limit are yielded exactly when it is positive, or zero with nothing to yield |
| `CheckpointSaver.KeptMeans` | graph/checkpointer.py:408-438 | Without a limit list yields, once each and in descending id order, exactly the stored checkpoints with the given thread, namespace, id, an id below before, and every metadata entry of the filter |
| `CheckpointRuns.RowsNeverChange` | graph/checkpointer.py:343-357 | Over any interleaving of calls no row of an undeleted thread changes or disappears |
| `CheckpointRuns.DeleteRemovesExactlyTheThread` | graph/checkpointer.py:577-588 | A delete removes every row of its thread and no other |
| `CheckpointRuns.PutReplay` | graph/checkpointer.py:463-495 | Repeating a successful put at any later time succeeds and changes nothing |
| `CheckpointRuns.PutWritesReplay` | graph/checkpointer.py:521-542 | The same for a successful put_writes |
| `CheckpointRuns.PutBacksItself` | graph/checkpointer.py:440-495 | After a put that covers or inherits each channel, every version of the new checkpoint has the blob of its value |
| `CheckpointRuns.JournalBacked` | graph/checkpointer.py:329-341 | The inductive invariant over the three tables: after every disciplined run the blobs back what each stored checkpoint was put with |
| `CheckpointSnapshots.ReadsBackExactlyWhen` | graph/checkpointer.py:440-495 | A successful put reads back at once exactly when every value has a version and each versioned channel is named at its version or already loads the same value or absence |
| `CheckpointSnapshots.ReadsBackForeverExactlyWhen` | graph/checkpointer.py:329-341 | It reads back after every possible continuation exactly when, moreover, each channel not named has a stored row |
| `CheckpointSnapshots.SnapshotsRebuild` | graph/checkpointer.py:359-386 | A checkpoint whose put and unchanged ancestors named or repeated every channel reads back with exactly its values, metadata and parent, whatever any other calls do, until its thread is deleted |
| `CheckpointSnapshots.DisciplinedIsGrounded` | graph/checkpointer.py:440-495 | If every put of a run covers its channels or inherits them from its stored parent, then each put and its unchanged ancestors named or repeated every channel |
| `CheckpointSnapshots.JournalReadsBack` | graph/checkpointer.py:329-386 | After such a run exactly the journalled checkpoints are stored, and each reads back as what it was last put with |
| `CheckpointSnapshots.PutThenGet` | graph/checkpointer.py:388-495 | The configuration a successful put returns leads back to that checkpoint, except for an empty id beside other checkpoints; its content, metadata and parent come back as put, and its values exactly when the request was readable |
| `CheckpointSnapshots.ReachableSnapshots` | graph/checkpointer.py:359-386 | In every reachable database each checkpoint goes back to an undeleted put, and reads back as that put when it was so grounded |
| `CheckpointRuns.StoredWasPut` | graph/checkpointer.py:440-495 | Conversely, every stored checkpoint was put by some call that no later delete undid |
| `CheckpointWrites.PutWritesExact` | graph/checkpointer.py:497-542 | With negative reserved indexes, put_writes succeeds exactly when stored and new writes agree on their common prefix, and then stores the longer of the two and touches no other task |
| `CheckpointWrites.WritesAreContiguous` | graph/checkpointer.py:503-525 | After any run a task's writes are stored under 0, 1, 2, ... without a gap |
| `CheckpointWrites.PendingInIssueOrder` | graph/checkpointer.py:359-371 | Pending writes of a task read back in the order they were issued |
| `CheckpointWrites.WritesRoundTrip` | graph/checkpointer.py:359-371 | The pending writes of a task after a successful call are the longer of the stored and the new sequence, in order, and the new ones decode to what was written |
| `CheckpointWrites.PutWritesFiles` | graph/checkpointer.py:497-542 | Whatever indexes are reserved, a successful call files each write at its reserved non-negative index or its position, and changes no other row |
| `CheckpointWrites.PendingMeans` | graph/checkpointer.py:359-371 | Pending writes are all rows of the checkpoint, by task id and then by index, with their decoded values |
| `LogRows.SortUnique` | clients/loki_client.py:162-171 | One row per key, sorted by timestamp |
| `LogRows.KeysMean` | clients/loki_client.py:150-159 | Two rows are one log exactly when timestamp text, message and labels agree, a missing timestamp reading None |
| `LogRows.EarlierMeans` | clients/loki_client.py:166-171 | Rows are ordered by timestamp text, those without a timestamp first |
| `Ordering.TextLeMeans` | clients/loki_client.py:166-171 | Texts are compared at the first character where they differ, and a prefix comes first |
| `LogRows.SortedUniqueFacts` | clients/loki_client.py:162-171 | Distinct keys, all keys kept, rows from the input, ascending timestamps |
| `LogRows.SortedUniqueKeepsOrder` | clients/loki_client.py:162-171 | Rows of one timestamp stay in the order in which their keys first occurred |
| `LogRows.LastRowWins` | clients/loki_client.py:163-165 | Of rows with the same key the last one is kept |
| `EvenSpacing.SpotGap` | clients/loki_client.py:181-188 | Half-to-even rounding gives distinct neighbouring indexes at most the rounded-up spacing apart |
| `EvenSpacing.SpotEnds` | clients/loki_client.py:181-188 | The first and the last index are both ends of the rows |
| `EvenSpacing.RoundTies` | clients/loki_client.py:181-192 | A position half-way between two rows goes to the even one |
| `EvenSpacing.SpreadShape` | clients/loki_client.py:174-192 | The even sample is a subsequence of the right size with both ends and bounded gaps |
| `EvenSpacing.SampleEvenly` | clients/loki_client.py:174-192 | Exactly min(limit, distinct keys) rows with distinct keys, read at ascending spots of the sorted rows, both ends included and neighbours no further apart than the rounded-up spacing |
| `EvenSpacing.EvenSampleFacts` | clients/loki_client.py:174-192 | Size, distinct keys and origin of an even sample of any rows and limit |
| `SamplerMethods.AddUnder` | clients/loki_client.py:205-213 | Adds unseen keys until the limit is reached |
| `SamplerMethods.FileRows` | clients/loki_client.py:248-275 | Buckets of rows by tag, in order of first occurrence |
| `LogSampler.OrderedByText` | clients/loki_client.py:228-246 | Buckets are visited in the order of the texts of their keys, those of one text in order of first occurrence |
| `SamplerMethods.CollectEnds` | clients/loki_client.py:277-287 | First and last row of every bucket, buckets in key order |
| `SamplerMethods.CollectHeads` | clients/loki_client.py:309-315 | First row of every bucket, buckets in key order |
| `SamplerMethods.Sample` | clients/loki_client.py:195-346 | The five phases in order, each over the selection the earlier ones left |
| `SamplerTheorems.Phases` | clients/loki_client.py:215-326 | Each phase only extends the selection, by no more than its own share of the limit |
| `SamplerTheorems.FillIsExact` | clients/loki_client.py:328-343 | The time fill always uses up the remaining slots |
| `SamplerTheorems.SampleExact` | clients/loki_client.py:195-346 | Exactly min(limit, distinct keys) rows, all from the input, keys distinct, sorted, with the first and for a limit of two or more the last row |
| `SamplerTheorems.ShapesFit` | clients/loki_client.py:303-326 | The first row of every shape is kept whenever the shapes fit the room the earlier phases leave at worst |
| `SamplerTheorems.ShapeCoverage` | clients/loki_client.py:303-326 | From a limit of 24, up to a third of the limit distinct shapes are all represented |
| `SamplerTheorems.SignalCoverage` | clients/loki_client.py:218-246 | When the distinct signals fit their quarter, a row is kept if no earlier row, or no later one, carries one of its signals |
| `SamplerTheorems.HighSignalCoverage` | clients/loki_client.py:248-298 | When the distinct shapes of high-signal rows fit their third, the first and the last high-signal row of each of these shapes are kept |
| `SamplerSpreads.SampleBySteps` | clients/loki_client.py:195-346 | The sample is the boundary rows, then an even spread of the ends of every signal, of the high-signal ends of every shape, of the first row of every shape, and of all rows left, each step within its part of the limit: a quarter or two rows, a third or one, a third or four, and all places left |
| `QueryPlanner.SlicesAreContiguous` | clients/loki_client.py:349-363 | Slices start and end with the window and meet at the seams |
| `QueryPlanner.SlicesInOrderExactly` | clients/loki_client.py:349-363 | Slices of every window run forwards exactly when at most four are asked for |
| `QueryPlanner.SlicesCover` | clients/loki_client.py:349-363 | Slices in order cover the window and nothing outside |
| `QueryPlanner.QuotasShare` | clients/loki_client.py:366-375 | Quotas sum to the total and differ by at most one |
| `QueryPlans.SlicesAreEven` | clients/loki_client.py:349-363 | All slices but the last are as wide as an even share of the window, rounded to whole microseconds, half to even |
| `QueryPlans.PlanByKind` | clients/loki_client.py:533-617 | Three quarters of the limit, at least one row, are asked for without the filter and the rest with it, forwards over slices of the window, every slice once there is a row for each |
| `QueryPlans.PlanLayout` | clients/loki_client.py:533-617 | The plan for three rows or more, request by request: each slice forwards and backwards with the larger half first, then the filtered requests, with even shares that put the larger ones first |
| `QueryPlans.SmallPlan` | clients/loki_client.py:533-617 | For less than three rows one unfiltered request for a row, and a filtered one for the second |
| `QueryPlanner.PlanConserves` | clients/loki_client.py:533-617 | The requests of a plan ask for exactly the bounded limit together, each for at least one row, over ordered slices, a quarter rounded up of it for high signals |
| `QueryPlanner.EverySliceIsAsked` | clients/loki_client.py:540-587 | Every slice of the window is queried from its start and, from a general budget of two, from its end |
| `QueryPlanner.NothingIsDropped` | clients/loki_client.py:619-633 | When range queries honour their limits the final cut removes no row and every key answered is in the result |
| `QueryPlanner.AnswersAreKept` | clients/loki_client.py:619-633 | Then the result has exactly the keys of all answers, the backfill included, distinct and sorted |
| `QueryPlanner.GatheredMeans` | clients/loki_client.py:540-633 | The rows gathered are the answers one after the other, in the order of the requests |
| `QueryPlanner.TakeMeans` | clients/loki_client.py:631-633 | The final cut keeps the first rows, or with a negative limit drops as many from the end |
| `QueryPlanner.Query` | clients/loki_client.py:515-633 | Issues the plan in order, then, exactly when distinct rows are missing, one unfiltered backward request over the whole window for as many; returns the cut result |
| `PairCounting.CountRows` | evaluation/grouping_quality.py:109-118 | The three nested counters of the rows |
| `PairCounting.PairReport` | evaluation/grouping_quality.py:124-135 | The three pair counts returned for the rows |
| `PairCounting.PairTotals` | evaluation/grouping_quality.py:124-133 | The three totals are the numbers of row pairs sharing case and group and label, case and group, case and label |
| `PairCounting.ErrorPairs` | evaluation/grouping_quality.py:134-135 | Both error counts are numbers of pairs, so never negative |
| `PairCounting.NoCollisions` | evaluation/grouping_quality.py:156-160 | No false-positive pair exactly when no group collides |
| `PairCounting.NoFragments` | evaluation/grouping_quality.py:148-155 | No false-negative pair exactly when no label is fragmented |
| `PairCounting.DominantRowsExact` | evaluation/grouping_quality.py:142-147 | The dominant rows are all rows exactly when no group collides |
| `BinaryHeap.Push` | evaluation/distributed_log_datasets.py:125-126 | Pushing keeps the heap order and adds exactly the item |
| `BinaryHeap.Replace` | evaluation/distributed_log_datasets.py:127-128 | Replacing keeps the heap order and exchanges exactly the root |
| `BinaryHeap.RootIsLeast` | evaluation/distributed_log_datasets.py:127-128 | The root of a heap is least among its items |
| `LowestHash.Offer` | evaluation/distributed_log_datasets.py:123-128 | Offering one more item keeps a label's heap the top of all items offered |
| `LowestHash.SortAndTakeIsTop` | evaluation/distributed_log_datasets.py:114-133 | Sorting and taking gives a top selection |
| `LowestHash.TopIsUnique` | evaluation/distributed_log_datasets.py:114-133 | There is only one top selection of a size, so heap and sort agree |
| `LowestHash.SelectLowestHash` | evaluation/distributed_log_datasets.py:114-133 | Each label keeps exactly its min(per_label, n) rows greatest under (-score, identifier); an error exactly when per_label is below one and there is a row |
| `LowestHash.LowestAreChosen` | evaluation/distributed_log_datasets.py:114-133 | No row left out scores lower than a chosen one of its label; of equal scores the greater identifier stays |
| `LowestHash.ChosenCount` | evaluation/distributed_log_datasets.py:114-133 | Of each label min(per_label, n) identifiers are chosen |
| `LowestHash.OrderDoesNotMatter` | evaluation/distributed_log_datasets.py:114-133 | The selection does not depend on the order of the rows |
| `TraceBuckets.Selection.Insert` | evaluation/hdfs_v1_dataset.py:124-133 | Appends, sorts and truncates the bucket of one truth and no other |
| `TraceBuckets.InsertIntoPrefix` | evaluation/hdfs_v1_dataset.py:128-133 | Inserting into a kept prefix and cutting again equals cutting the insertion into the whole |
| `TraceBuckets.StreamIsSortAndCut` | evaluation/hdfs_v1_dataset.py:124-133 | After any stream a bucket holds the first `limit` of the stable sort of everything inserted for its truth |
| `TraceBuckets.BucketMeans` | evaluation/hdfs_v1_dataset.py:124-133 | A bucket holds the traces with the lowest keys, ascending, as many as the limit allows; of equal keys those inserted first |
| `TraceBuckets.ArrivalsMean` | evaluation/hdfs_v1_dataset.py:124-127 | The traces inserted for a truth are those of the stream with that truth, in order |
| `TraceBuckets.BucketsOpened` | evaluation/hdfs_v1_dataset.py:125-127 | A truth has a bucket exactly when something was inserted for it |
| `StratifiedCases.SelectStratified` | evaluation/hadoop_llm.py:136-217 | Exactly the clamped number of cases: whole rounds, a started round, then the sorted remainder only when every named outcome is used up |
| `StratifiedCases.StratifiedMeans` | evaluation/hadoop_llm.py:160-217 | Distinct labelled cases, a sorted prefix of every named bucket, and other outcomes only after all named ones |
| `StratifiedCases.LowestAreSelected` | evaluation/hadoop_llm.py:160-217 | Selected cases of the four named outcomes precede those left out by workload and identifier, and filled-in ones by outcome, workload and identifier |
| `StratifiedCases.RoundRobin` | evaluation/hadoop_llm.py:169-194 | The rounds take first places before second ones, and within a round the outcomes in their fixed order |
| `StratifiedCases.Balanced` | evaluation/hadoop_llm.py:169-194 | No named outcome lags another by more than one case unless its bucket is used up, and not at all behind a later one |
| `InvestigationLoop.InitializePreserves` | utils/investigation_loop.py:38-88 | Filling in a filled-in loop changes nothing and gives back no consumed limit |
| `InvestigationLoop.FeedbackResets` | graph/nodes/reinvestigate_feedback.py:15-29 | Reviewer feedback keeps the limits and gives back everything consumed |
| `InvestigationLoop.CompleteRound` | utils/investigation_loop.py:153-283 | The new loop record, and one more revision, numbered and linked, that records the decision |
| `InvestigationLoop.ContinuesExactlyWhen` | utils/investigation_loop.py:195-235 | Another round follows exactly when time, bytes, rounds and remote units are left, a question is open, a source works and evidence was added |
| `InvestigationLoop.StopsExactlyWhen` | utils/investigation_loop.py:195-235 | Each stop reason is recorded exactly when its cause applies and none before it does |
| `InvestigationLoop.InitializeMeans` | utils/investigation_loop.py:38-88 | Present limits and consumption are kept, missing limits take their defaults |
| `InvestigationLoop.RoundsRunOut` | utils/investigation_loop.py:195-235 | Each continue decision leaves fewer rounds but at least one |
| `WorkflowRuns.RunPlaced` | graph/workflow.py:231-378 | Every state of every run is in a known phase: collecting, investigating, or a given step of the closing path |
| `WorkflowRuns.PublishIsGated` | graph/workflow.py:339-378 | Publication follows an approving human review and an approving publish review, with no interpretation after the former |
| `WorkflowRuns.DeepRcaIsFinal` | graph/workflow.py:344-378 | Once deep_rca ran, only drafting and publishing follow |
| `WorkflowRuns.JoinWaitsForAll` | graph/workflow.py:226-262 | The deferred join runs once, after all three collectors, and the first fifteen supersteps run the nodes in this order |
| `WorkflowRuns.RoundsAreBounded` | graph/workflow.py:323-357 | In every run semantic_correlate runs at most rejections + 1 times, plus once more for every round reviews hand out and every two model requests of the incident, whichever runs short; without room for new evidence at most rejections + 1 times |
| `WorkflowRuns.IntegrateEffect` | graph/nodes/integrate_targeted_evidence.py:102-323 | Integration counts one round, and continues only with a round and bytes left and a record from some trace |
| `WorkflowRuns.SemanticCharges` | graph/nodes/semantic_correlate.py:352-581 | A correlation charges the incident within its request limit, and leaves traces with records only after two requests at least |
| `WorkflowRuns.InterpretingUsesNothing` | graph/nodes/interpret_incident.py:233-585 | In every run interpreting uses up no bytes, remote units or rounds: only the time, notes of refused tool calls, and model requests within their limit are added |
| `WorkflowModes.ModesPersist` | utils/llm_context.py:87-121 | In every run none, two or five remote units are allotted, a failed source always asks for more evidence, and without units the assessment stays conclusive and a correlation changes nothing |
| `WorkflowModes.ConclusiveRunsCorrelateOnce` | graph/nodes/semantic_correlate.py:496-525 | Without remote units semantic_correlate runs at most rejections + 1 times, whatever the settings |
| `WorkflowTightness.BoundIsAttained` | graph/workflow.py:323-357 | For all settings and every number of rejections some run attains the bound, with evidence the tools can deliver and requests the budget authorises |
| `WorkflowTightness.ExactBound` | graph/workflow.py:323-357 | A number bounds the correlations of all runs with k rejections exactly from that bound on, which is (k + 1) * max_rounds exactly when max_rounds is one or there is room and the requests last for every round |
| `WorkflowTightness.RejectionsShareRoundsExactlyWhen` | graph/nodes/reinvestigate_feedback.py:20-29 | k + max_rounds bounds the correlations exactly when k is zero, max_rounds is one, there is no room, or the requests are fewer than two for every round |
| `ToolBudget.ToolSession.Run` | utils/tool_budget.py:172-288 | One tool call: refused, answered from the cache at no cost, answered and charged, or cut off with the byte budget used up, and noted in the history while it has fewer than twenty entries |
| `ToolBudget.CallMeans` | utils/tool_budget.py:172-288 | A connector is asked exactly for a permitted, timely, uncached, affordable call in scope; that alone spends remote units and bytes, and each call leaves one note while there is room |
| `ToolBudget.SessionKeepsBudgets` | utils/tool_budget.py:172-288 | A session overdraws no budget, gives nothing back, keeps the loop's limits, round and decision, bounds its cache and its history, and keeps the history written so far |
| `ToolBudget.StoppedLoopRefuses` | utils/tool_budget.py:197-206 | A loop that has stopped after a round refuses every call and uses up nothing; only the time and notes of the refusals change |
| `ToolBudget.SessionPays` | utils/tool_budget.py:214-263 | Whatever carries records, fresh or cached, has used up at least the bytes of the smallest such result |
| `CandidateContract.FinalizeCandidates` | utils/candidate_contract.py:80-129 | All candidates are accepted or none, exactly by their own contents; accepted ones are ranked 1, 2, 3, ... in order, labelled by score, with evidence and weaknesses in their places |
| `CandidateContract.AcceptableIsValid` | utils/candidate_contract.py:14-77 | The contract accepts exactly the acceptable candidates, whatever their rank |
| `CandidateScoring.MergedKeys` | utils/candidate_scoring.py:344-372 | Merging leaves distinct event keys in order of first occurrence |
| `CandidateScoring.MergeRepresents` | utils/candidate_scoring.py:344-372 | Each merged candidate has the identity of the first, the best score, every evidence, reason and weakness of its class and nothing else, and the supporting categories of the class |
| `CandidateFacts.MergedLists` | utils/candidate_scoring.py:344-372 | Evidence, reasons and weaknesses of a merged candidate are those of its class, once each and in the order collected; verification and impact are those of the first |
| `CandidateFacts.EventKeyMeans` | utils/candidate_scoring.py:344-350 | Candidates are merged by their event ids, and without any by category and identifier |
| `CandidateScoring.MergeIdempotent` | utils/candidate_scoring.py:344-372 | Merging twice is merging once |
| `CandidateScoring.MergeSameEvent` | utils/candidate_scoring.py:344-372 | The dictionary loop computes the merge |
| `CandidateScoring.RankedDescend` | utils/candidate_scoring.py:421-437 | After stable sorting and capping scores never increase, one candidate per event key |
| `CandidateScoring.RankMeans` | utils/candidate_scoring.py:421-437 | Each ranked candidate is the merged one at its place of the sorted list with the notes added; its score and confidence are the merged score, at most 100, and at most 60 when a source failed |
| `CandidateScoring.RankKeepsOrder` | utils/candidate_scoring.py:421-437 | Of two merged candidates the earlier one ranks higher unless the later one scored better, even where the cap makes them tie |
| `CandidateScoring.RankAcceptable` | utils/candidate_scoring.py:421-439 | Ranking sound candidates gives only acceptable ones |
| `SignalCandidates.CollectSignals` | utils/candidate_scoring.py:75-219 | The dictionary of categories and its closing pass compute the signal candidates |
| `SignalCandidates.SignalMeans` | utils/candidate_scoring.py:75-219 | Each candidate has the best points of its category, 78 exactly for an adverse unrecovered observation, and at most twelve distinct ids and evidence lines of that category, all of them when fewer |
| `SignalCandidates.FamiliesMean` | utils/candidate_scoring.py:25-72 | Which family and status is promoted to which category |
| `SignalCandidates.PointsRange` | utils/candidate_scoring.py:95-112 | 78 points exactly for an adverse unrecovered observation, 68 exactly for an unrecovered full disk without one, 60 otherwise |
| `SignalFacts.SignalLists` | utils/candidate_scoring.py:113-219 | Each of the nine lists of a candidate holds the first twelve distinct values its category collected, in the order of the observations |
| `SignalFacts.OfCategoryMeans` | utils/candidate_scoring.py:75-90 | The observations of a category are all those promoted to it, in order |
| `SignalFacts.NamesMean` | utils/candidate_scoring.py:25-130 | Identifier and title of a candidate follow from its category |
| `SignalCandidates.OnePerCategory` | utils/candidate_scoring.py:75-219 | Categories never repeat, and a category has a candidate exactly when an eligible observation is promoted to it |
| `SignalCandidates.SignalsSound` | utils/candidate_scoring.py:75-219 | String-typed observations give candidates the contract accepts |
| `CandidateAssessment.DetectionSound` | utils/candidate_scoring.py:245-294 | A detection earns 82 points exactly for a critical one with every circumstance, 8 exactly for a low one with none, and is sound exactly when its event id is a string |
| `CandidateAssessment.DetectionPoints` | utils/candidate_scoring.py:245-280 | 35, 30, 18, 8 or 10 points by severity, and 12, 14, 16 and 5 for error level, a first occurrence in the quarter of an hour before the anchor, a deploy and two pods |
| `CandidateFacts.DetectionMeans` | utils/candidate_scoring.py:245-294 | Event id, title, category, reasons and evidence lines of a detection, each line for one circumstance |
| `CandidateFacts.FirstGroupMeans` | utils/candidate_scoring.py:245-250 | A detection is judged by the first group of its event, or an empty one |
| `CandidateAssessment.TrafficSound` | utils/candidate_scoring.py:297-312 | A traffic candidate earns 30 to 55 points and is sound |
| `CandidateFacts.TrafficMeans` | utils/candidate_scoring.py:297-312 | A traffic candidate exists exactly from a ratio of 1.5 on, with ten points for each multiple on top of fifteen, up to 55 |
| `CandidateAssessment.DependencySound` | utils/candidate_scoring.py:315-341 | A dependency candidate of string-typed groups is sound |
| `CandidateFacts.DependencyMeans` | utils/candidate_scoring.py:315-341 | The first group that names a dependency gives the candidate, and without one there is none |
| `CandidateFacts.UpstreamMeans` | utils/candidate_scoring.py:315-341 | It is worth 42 points and stands for the event of that group |
| `CandidateAssessment.ObservedCategories` | utils/candidate_scoring.py:445-477 | The observed categories number more than one exactly when two observations name rival categories |
| `CandidateAssessment.ScoreCandidates` | utils/candidate_scoring.py:395-521 | Fails exactly when a ranked candidate is not acceptable; otherwise abstains exactly when it recommends expansion, exactly when the evidence is not enough, with a reason for each cause and the best three candidates |
| `CandidateAssessment.PublishedScores` | utils/candidate_scoring.py:421-431 | Every candidate is published with the best score of its event, or with 60 if that is less and a source failed |
| `CandidateFacts.CandidatesMean` | utils/candidate_scoring.py:407-420 | Detections, promoted signals, dependency and traffic are collected in this order |
| `CandidateFacts.NotesMean` | utils/candidate_scoring.py:375-392 | Every candidate is told of missing sources, and of errors in the logs that the error rate does not show |
| `CandidateFacts.JoinMeans` | utils/candidate_scoring.py:432-435 | Failed sources are listed with a comma and a space between them |
| `CandidateAssessment.StringTypedIsAssessed` | utils/candidate_scoring.py:421-443 | String-typed evidence is never refused, and the gap at the top is never negative |
| `CandidateAssessment.StopsWithEnough` | utils/investigation_loop.py:195-231 | A round judged on the assessment stops with enough evidence exactly when time and bytes are left, a candidate exists, no source failed, the gap is absent or at least 15 and no categories compete |
| `ModelBudget.AuthorisedExactlyWhen` | utils/model_usage.py:308-342 | A call is authorised exactly when charging all it reserves keeps every limit and a currency limit has prices |
| `ModelBudget.StopMeans` | utils/model_usage.py:308-342 | The reason for a refusal is the first limit, in the order of the code, that the reservation would pass |
| `ModelBudget.EntriesCount` | utils/model_usage.py:101-228 | An answered request counts what was reported, a failed one what was reserved, a blocked one nothing |
| `ModelBudget.AuthorisedKeepsBudgets` | utils/model_usage.py:308-342 | An authorised call keeps all five limits whatever honest entry it leaves |
| `ModelBudget.EntriesAreHonest` | utils/model_usage.py:101-228 | Entries of failed calls, and of calls reporting no more than reserved, count no more than reserved |
| `ModelBudget.MissingUsageIsFree` | utils/model_usage.py:164-184 | A response without usage is charged tokens but no cost |
| `ModelCalls.TryOnce` | clients/openai_client.py:58-122 | One attempt: the deadline, the budget, the request, its usage entry and the reset of the circuit |
| `ModelCalls.Retry` | clients/openai_client.py:58-124 | The retry loop makes the requests and entries of the attempts in order |
| `ModelCalls.CreateResponse` | clients/openai_client.py:44-127 | The whole call: refused while the circuit is open, reset on an answer, opened when no attempt is left, otherwise untouched |
| `ModelCallRuns.CallBounds` | clients/openai_client.py:52-127 | At most retries + 1 requests, all failed but an answered last one, exactly that many when the provider failed; one entry per request and one per budget block |
| `ModelCallRuns.CallEnds` | clients/openai_client.py:57-127 | Every request of a call was in time and authorised on the entries before it, the call ends with the first attempt that is late, blocked or answered, and each entry is the reported usage or the reservation |
| `ModelCallRuns.TimeoutsRespectDeadline` | clients/openai_client.py:59-68 | A request is given the configured timeout, or what the deadline leaves if that is less, but not less than a millisecond |
| `ModelCallRuns.NoRequestWhileOpen` | clients/openai_client.py:53-55 | No request is made while the circuit is open |
| `ModelCallRuns.CircuitOpensOnlyAfterFailure` | clients/openai_client.py:110-127 | In every run an open circuit goes back to one call all of whose attempts failed |
| `ModelCallRuns.CircuitMeans` | clients/openai_client.py:40-127 | An answer or a reset closes the circuit, a call out of attempts opens it, nothing else changes it |
| `ModelCallRuns.BooksMean` | utils/model_usage.py:345-420 | A call adds its entries to those pending for its incident, settling moves them into the ledger, other incidents keep theirs |
| `ModelCallRuns.CoolsDown` | clients/openai_client.py:126-127 | After such a call no later call makes a request before the open period is over, unless the circuit is reset by hand |
| `ModelCallRuns.RequestsAreCounted` | utils/model_usage.py:284-323 | Over every run the requests made for an incident are exactly those counted, and never exceed the call limit |
| `ModelOverruns.EveryRequestWasAuthorised` | utils/model_usage.py:308-342 | Over every run, whatever the provider reports, each request was authorised against exactly what had been charged before it |
| `ModelOverruns.OverrunIsOneEntry` | utils/model_usage.py:308-342 | Before the last request all five limits held with its reservation, so a limit, the one on total tokens included, is passed by no more than that request reported beyond it |
| `ModelOverruns.BudgetsHold` | utils/model_usage.py:308-342 | Over every run all limits hold exactly when the last request reported no more than they had left, in particular under honest usage |
| `ModelOverruns.OneAnswerHoldsExactlyWhen` | clients/openai_client.py:79-111 | After one authorised and answered call the limits hold exactly when the reported usage fits them |
| `ModelOverruns.OverrunIsTight` | clients/openai_client.py:79-111 | Where a reservation fills a limit, the limit is passed by exactly what the report counts beyond the reservation |
| `ModelOverruns.EveryExcessIsReached` | clients/openai_client.py:79-111 | Without a currency limit and within the limit on total tokens, every limit on input tokens can be passed by every number of tokens |
| `ModelOverruns.OverreportPassesLimit` | clients/openai_client.py:80-85 | A report of a thousand input tokens for a reservation of ten passes a limit of a hundred |
| `RecordQuality.AssessRecords` | utils/data_quality.py:124-273 | The usable rows, every counter as the number of records it names, first and latest event time, and the freshness |
| `RecordLaws.ReportConserves` | utils/data_quality.py:124-246 | Input is usable plus quarantined plus duplicate; clock qualities cover the rest; missing and invalid counters agree with the clock qualities and explain the quarantine |
| `RecordFacts.CountersMean` | utils/data_quality.py:124-246 | Input, parse failures, missing fields and quarantine count exactly the records they name: all, not a record, incomplete, and those together with the untimely where quarantine is on |
| `RecordFacts.TimestampCountersMean` | utils/data_quality.py:140-200 | Records without a time, with an unusable one, and with an error value, each counted exactly |
| `RecordFacts.QualitiesMean` | utils/data_quality.py:185-214 | Each clock counter is the number of complete records whose time reads that way |
| `RecordFacts.FateMeans` | utils/data_quality.py:148-214 | Which records are emitted: those complete after redaction and, where quarantine is on, with a time within the tolerance |
| `RecordFacts.EmittedMean` | utils/data_quality.py:148-243 | The rows that reach the duplicate check are the stamped records that pass, in order |
| `RecordFacts.TimesMean` | utils/data_quality.py:205-214 | The bounds are taken over the plausible times of all complete records |
| `RecordFacts.RawTimeMeans` | utils/data_quality.py:172-184 | The time is read from the first time field that has a value |
| `RecordFacts.StampedMeans` | utils/data_quality.py:226-233 | What each of the six fields of an emitted row says, and that all others are kept |
| `RecordFacts.ConnectorDoesNotCount` | utils/data_quality.py:85-100 | Rows that differ only in connector metadata are duplicates |
| `RecordFacts.EverythingElseCounts` | utils/data_quality.py:85-100 | Where redaction is off and rows print differently, rows that differ in anything else are not |
| `RecordLaws.NormalizeMeans` | utils/evidence.py:18-66 | Each clock quality by an equivalence on the value: nothing, not a time, later than five minutes after receipt, with a zone, without one; an event time exactly for the last two |
| `RecordLaws.TimesAreNotFuture` | utils/data_quality.py:205-214 | No event time that enters the report's bounds lies past the tolerated future |
| `RecordLaws.UsableRows` | utils/data_quality.py:234-243 | Usable rows have distinct identities, stand for every emitted row and keep the order of first occurrence |
| `RecordLaws.ProvenanceIsKept` | utils/data_quality.py:226-233 | The six written fields determine the source field, original text, zone, quality and event time of a row |
| `RecordLaws.ReassessedExactlyWhenRepeatable` | utils/data_quality.py:148-243 | Assessing usable rows again returns them exactly when, for each, redaction leaves its own fields alone, its required fields are still filled, and its time is read from the same field as the same time |
| `RecordLaws.RewrittenTimeIsUnstable` | utils/data_quality.py:172-233 | A time read from event_time and not written canonically changes the second time: 2024-01-01T12:00:00+00:00 is written back with a Z |
| `RecordLaws.EmptiedFieldIsUnstable` | utils/data_quality.py:158-171 | A row whose required event_time the assessment empties is quarantined the second time |
| `RecordLaws.ReassessmentIsIdentity` | utils/data_quality.py:172-233 | With fields apart from the stamped ones and redaction that changes nothing twice, it always does |
| `RecordLaws.CanonicalTimesOnly` | utils/data_quality.py:172-233 | When the time is read from event_time, an emitted row is stable exactly when it was written canonically and stamping empties no required field |

## Left out

- `SpotGap`: the quotient `index * (n - 1) / (limit - 1)` is rounded exactly; the code rounds its nearest double.
- `TrafficSound`: the change ratio is a real number, so `int(ratio * 10)` is exact; NaN and infinities are not modelled.
- `BudgetsHold`: costs are exact reals and the price of a token count is an arbitrary function, so sums of doubles are not modelled.
- `NoRequestWhileOpen`: calls follow one another; a call already past its circuit check when another thread opens the circuit goes on.
- `CompleteRound`: the trace summary and candidate ranking stored in a revision, and the rounding of elapsed seconds to milliseconds, are left out.
- `List`: rows with the same id keep an arbitrary order, as the query leaves it open.
- `Put`: MySQL collations, column widths and connection failures are not modelled; a call is one serialisable transaction that is rolled back when it raises.
- `PublishIsGated`: the superstep semantics of the graph library, a deferred node waiting for all pending work, is taken from its documentation; node bodies are arbitrary.
- `PairReport`: precision, recall and F1 are rounded ratios and left out; a rounded 1.0 does not mean that there are no errors.
- `SemanticEffect`: a correlation that fails keeps the budget it started with; results and notes its session had put into the shared cache and history by then are not modelled, since the loop stops in that round and feedback clears both.
- `RoundsAreBounded`: the size of the smallest tool result with a usable record, and the number of model requests the budget of an incident authorises, are settings of the model, not numbers. The latter is the limit on calls, or fewer where the token and currency limits allow fewer even of the smallest requests, and none where no attempt is made; `RequestsAreCounted` is why no run passes it.
- `BoundIsAttained`: the requests of its runs are assumed small enough for all of them to be authorised, and other incidents may open the shared circuit; the deadline of an incident and the graph library's own limit on supersteps between two reviews are not modelled.
- `ScoreCandidates`: observed signals are an input; how `utils/signal_observations.py` builds them, observation ids and impact links of a candidate, the wording of evidence lines, and the full wording of verification texts are left out.
- `AssessRecords`: time bounds and freshness are whole microseconds; their ISO text and the rounding to milliseconds are left out.
- `SelectLowestHash`: the hash score is an arbitrary function of label and identifier.
- SQLiteSaver, SimulatedMySQLSaver and the asynchronous wrappers of the checkpointer: they rest on a library parent, and only the MySQL saver can be selected.
- The durable queue, leases and review store under `webhook/`.
- Regular expressions, redaction patterns, the signal catalogue, JSON and time parsing: arbitrary functions here.
- Transport to Loki, Prometheus, CloudWatch, GitHub, Slack, Jira and the model provider, beyond the outcomes and limits above.
- Rendering of reports and evidence packs, prompts, scripts and dataset file loading.
