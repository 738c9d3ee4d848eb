# Scheduler and bounded loops of the agent runtime: a verified model

This project models the decision core of the agent runtime and proves what it promises.
Every statement holds for all inputs, and, where the program talks to agents, sandboxes,
models or clocks, for everything these could answer.

- **Wave planner** (`Dependencies`, `WavePlan`, `PlanBounds`, `TaskGraph`, `Sorting`). The mutable
  task registry with its cycle check, and the greedy planner. The class `TaskGraph` is proved
  against the function `Plan`; about `Plan` the project proves that it is a lawful schedule, when
  it exists, that insertion order does not matter, and how long it is next to any other schedule:
  without a cap the shortest there is, with one at most twice the shortest.
- **Orchestrator** (`Orchestration`, `Conflicts`, `RunProperties`, `RunLedger`, `Orchestrator`,
  `RunOutcomes`).
  A run is a log of waves whose outcomes are arbitrary; `IsRun` says which wave may come next.
  The class `Orchestrator` is proved to produce exactly such logs and to hold, in every field,
  exactly what its log says. Safety, bounds and endings are then lemmas about all logs.
- **Wave engine and telemetry** (`WaveEngine`, `Telemetry`, `Concurrency`). The sweep line and the
  pairwise scan against pointwise definitions, and what the concurrency proof really shows.
- **Bounded loops** (`NoProgress`, `Bounds`, `CodingSteps`, `CodingLoop`, `CodingEscapes`,
  `RepairLoop`). One no-progress rule and the three forms implementing it, the budget controller,
  and the two loops that it drives. The coding loop is also a function of what clock, sandbox and
  decider answer (`CodingSteps.Play`); the class is proved equal to it, and the function decides
  exactly for which bounds an exhausted count can leave the loop as an exception.
- **Trace** (`Trace`). The hash chain for any hash with separator-free digests: the last hash pins
  the content, or two hashed texts with one hash are exhibited.
- **Versions and coverage** (`Versioning`, `Coverage`). A parser with its inverse, and a relation
  that is transposed, stored and transposed back.

`Results`, `Numbers` and `Text` hold shared vocabulary. `dafny verify dfyconfig.toml` checks it all.

## Reading the model

Instants are integer microseconds and an execution never finishes before it starts. Answers of
agents, and of the repair loop's clock, are chosen nondeterministically where the program reads
them; the coding loop takes its surroundings as a parameter (`World`) that answers, or raises,
depending on everything that has happened so far. `uuid` values and the hash function are
parameters. Exceptions are values: `Result`, `Option`, or a constructor of the exit type. Where
the text of a message matters only as a classification, a constructor stands for it. The
statements about runs are about something: whatever the agents answer, depending on anything that
happened before, a planned graph has exactly one complete run of these answers
(`RunProperties.EveryBehaviourHasItsRun`). A hash without collisions, under which the statements
about traces need no exception, exists (`Trace.IdealHashExists`). A run's past is kept in ghost
values (`log`, `rounds`, `observed`); no contract about a visible result speaks of them alone.

## Where the code and its description part

- The coding loop's documentation says every exhausted bound is reported, never hidden. A bound
  raised while a plan is executed leaves `run` as an exception. The clock can do that for every
  plan that is not empty (`CodingEscapes.SomeBoundEscapesExactlyWhen`). A counted bound can
  exactly when some round that can be reached has no iteration, no repair or not enough commands
  left (`CodingEscapes.CountEscapesExactlyWhen`, a condition on the bounds and the number of tests);
  the default bounds are safe for plans of exactly 20 and exactly 40 tests
  (`CodingEscapes.DefaultBoundsFit`). A first failing round never counts towards the no-progress
  rule.
- `prove_concurrency` is documented to compare at least two tasks. It differs from that exactly
  when some involved wave saw two at once and the only overlaps among the listed records are of a
  task with itself (`Concurrency.ProofOfTwoTasks`); for one task that is every True answer
  (`Concurrency.SingleTaskProof`). For waves run one after the other, each task once in a wave, the
  answers are the documented ones (`Concurrency.SequentialProofIsGenuine`). But a wave that leaves
  no measurements records those of an earlier wave again, even of an earlier run
  (`RunOutcomes.TelemetryIsOwnExactlyWhen`), and a wave that times out after a parallel one thereby
  makes the answer True for each single task of it that took time
  (`RunOutcomes.TimedOutWaveFakesConcurrency`). When the engine measures sequential waves, all
  answers about a run are the documented ones if and only if no wave records again what the run has
  recorded of a task that took time, or no recorded wave saw two at once
  (`RunOutcomes.RunAnswersAreGenuineExactlyWhen`).
- `TaskGraph.add` does not look at the dependencies of the new task. It closes a cycle exactly when
  one of them is the task's id or leads to it, through tasks that named the id in advance
  (`Dependencies.NewTaskCloses`). A task that names itself is the smallest case
  (`Dependencies.SelfReferenceMakesACycle`), two tasks that name each other the smallest without
  one (`Dependencies.MutualReferencesMakeACycle`).
- Contradictory results are said to be detected at COLLECTING. Of the results that make a claim only
  the first two of a wave are compared: what is reported is real, and a dispute is missed exactly
  when these two agree and a later one disagrees with both (`Conflicts.MissedExactlyWhen`). Waves of
  two hide nothing, three results can; results of different waves, a retry's and the ones beside
  it, are never compared (`RunOutcomes.NarrowRunsHideNoConflict`).
- A wave of the engine is COMPLETED when nobody failed, even if a task was cancelled from inside
  and answered nothing (`WaveEngine.StatusMeaning`).
- A stale answer cancels its task; a cancelled task settles its dependents' dependency and the
  run still ends COMPLETED (`RunOutcomes.StatusIsLastVerdict`).
- The empty graph is returned as completed while the phase is DISPATCHING and no next transition
  is recorded (`RunOutcomes.EmptyGraphStaysDispatching`).
- The repair loop sets `allow_continue` with the first iteration and never clears it; a blank
  `blocked_reason` with `allow_continue` false is possible when no iteration is allowed. The package
  builder raises out of the loop exactly when a first attempt is made on an empty claim id with
  evidence (`RepairLoop.RunRepairLoop`).
- The trace hash covers neither the kind nor the time of an entry (`Trace.KindAndTimeUnprotected`).
- The version pattern's `$` admits one trailing newline; the model keeps it
  (`Versioning.RecogniserIsRegex`, `Versioning.ParsePrinted`).
- Case names are cut at 200 characters when stored, and the round trip of a plan's coverage holds
  exactly for the cases whose names are not (`Coverage.RoundTrip`, `Coverage.TruncatedCase`).

## Model

| member | source | states |
|---|---|---|
| Dependencies.TrapHasCycle | packages/agent-runtime/src/smorx_runtime/graph.py:131-141 | a non-empty set in which every task depends on another of the set contains a dependency cycle |
| Dependencies.NewEdgeCloses | packages/agent-runtime/src/smorx_runtime/graph.py:73-88 | adding an edge to an acyclic graph keeps it acyclic if and only if the dependency does not already reach the task |
| Dependencies.NewTaskSound | packages/agent-runtime/src/smorx_runtime/graph.py:67-71 | registering a task keeps a graph acyclic and free of dangling dependencies if and only if its dependencies are registered already |
| Dependencies.NewTaskCloses | packages/agent-runtime/src/smorx_runtime/graph.py:67-71 | registering a task closes a cycle exactly when one of its dependencies already leads to its id |
| Dependencies.SelfReferenceMakesACycle | packages/agent-runtime/src/smorx_runtime/graph.py:67-71 | a task that names itself can be registered in any graph and is a cycle |
| Dependencies.MutualReferencesMakeACycle | packages/agent-runtime/src/smorx_runtime/graph.py:67-71 | two tasks that name each other can both be registered and form a cycle |
| TaskGraph.TaskGraph.constructor | packages/agent-runtime/src/smorx_runtime/graph.py:64-65 | a new registry is empty and sound |
| TaskGraph.TaskGraph.Add | packages/agent-runtime/src/smorx_runtime/graph.py:67-71 | a duplicate id is refused and changes nothing; otherwise the task is appended; soundness survives exactly when its dependencies were known, acyclicity exactly when none of them leads to it |
| TaskGraph.TaskGraph.AddDependency | packages/agent-runtime/src/smorx_runtime/graph.py:73-88 | unknown ids, known edges and closing edges are told apart by reachability; a refusal changes nothing; a sound graph stays sound |
| TaskGraph.TaskGraph.CreatesCycle | packages/agent-runtime/src/smorx_runtime/graph.py:167-184 | the stack search ends and answers true if and only if a dependency path leads from the dependency to the task |
| TaskGraph.TaskGraph.PushDependencies | packages/agent-runtime/src/smorx_runtime/graph.py:178-183 | the inner loop finds the task or pushes exactly the dependencies not seen before |
| TaskGraph.TaskGraph.ReadyTasks | packages/agent-runtime/src/smorx_runtime/graph.py:102-109 | exactly the uncompleted tasks whose every dependency is completed, once each and in insertion order |
| TaskGraph.TaskGraph.EmitSerialized | packages/agent-runtime/src/smorx_runtime/graph.py:146-151 | every ready SERIALIZED task gets a wave of its own and is marked scheduled |
| TaskGraph.TaskGraph.EmitPacked | packages/agent-runtime/src/smorx_runtime/graph.py:152-160 | the other ready tasks are cut into consecutive slices of the capacity and marked scheduled |
| TaskGraph.TaskGraph.Waves | packages/agent-runtime/src/smorx_runtime/graph.py:116-161 | the planning loop ends and returns the plan, or the error, that the function `Plan` describes |
| TaskGraph.SearchStep | packages/agent-runtime/src/smorx_runtime/graph.py:174-183 | one search step keeps "everything seen is reached and everything reached is seen or stacked" and makes progress |
| TaskGraph.NotReached | packages/agent-runtime/src/smorx_runtime/graph.py:184 | a dependency-closed set without the task proves that it cannot be reached |
| Sorting.SortOrderInsensitive | packages/agent-runtime/src/smorx_runtime/graph.py:142 | two orders of the same elements sort to the same sequence when keys tell elements apart |
| WavePlan.LevelIsLevel | packages/agent-runtime/src/smorx_runtime/graph.py:132-153 | one pass schedules either ready SERIALIZED tasks only or all that is ready |
| WavePlan.PlanIgnoresInsertionOrder | packages/agent-runtime/src/smorx_runtime/graph.py:135-147 | any two insertion orders of the same tasks give the identical plan or error |
| WavePlan.PlanIsSchedule | packages/agent-runtime/src/smorx_runtime/graph.py:116-161 | a plan runs every uncompleted task once, after its dependencies, within the cap, SERIALIZED tasks alone |
| PlanBounds.ScheduleByPosition | packages/agent-runtime/src/smorx_runtime/graph.py:116-161 | read by position: wave i is lawful with everything before it done, nothing runs twice, nothing is left |
| PlanBounds.StuckMeansCycleOrUnknown | packages/agent-runtime/src/smorx_runtime/graph.py:136-141 | when nothing is ready, the remaining tasks contain a cycle or a dependency that is neither registered nor completed |
| PlanBounds.PlanSucceedsExactlyWhen | packages/agent-runtime/src/smorx_runtime/graph.py:126-141 | planning succeeds if and only if the cap is positive and the open tasks are acyclic with every dependency open or completed; otherwise which error |
| PlanBounds.SoundGraphsArePlannable | packages/agent-runtime/src/smorx_runtime/graph.py:67-88 | a graph grown by checked operations never makes the planner stuck |
| PlanBounds.CappedPlanLength | packages/agent-runtime/src/smorx_runtime/graph.py:116-161 | p times the plan length is at most N + (p-1)S + (p-1)D for cap p, N open tasks, S of them SERIALIZED and longest chain D |
| PlanBounds.PlanWithinTwiceAnySchedule | packages/agent-runtime/src/smorx_runtime/graph.py:116-161 | the plan is at most (2 - 1/p) times as long as any lawful schedule of the same tasks under the same cap, and shorter still by 1 - 1/p waves per SERIALIZED task |
| PlanBounds.LevelsStayAhead | packages/agent-runtime/src/smorx_runtime/graph.py:116-161 | whatever any schedule has run after as many parallel waves, the greedy passes have run too: they need no more parallel levels than it needs parallel waves |
| PlanBounds.UncappedPlanIsShortest | packages/agent-runtime/src/smorx_runtime/graph.py:116-161 | without a cap no lawful schedule, under any cap, has fewer waves than the plan, SERIALIZED tasks included |
| PlanBounds.UncappedPlanLength | packages/agent-runtime/src/smorx_runtime/graph.py:116-161 | without a cap and without SERIALIZED tasks the plan is as long as the longest chain, the minimum any schedule needs |
| PlanBounds.ChainNeedsWaves | packages/agent-runtime/src/smorx_runtime/graph.py:116-161 | every lawful schedule has at least as many waves as any dependency chain has tasks |
| PlanBounds.RoomNeedsWaves | packages/agent-runtime/src/smorx_runtime/graph.py:116-161 | every lawful capped schedule has room for its tasks, with a whole wave for each SERIALIZED one |
| Orchestration.VerdictMeaning | packages/agent-runtime/src/smorx_runtime/orchestrator.py:571-649 | success is exactly an evidenced answer to this wave's assignment, stale exactly any other answer, mismatch exactly a current claim of success without evidence |
| Orchestration.NextIsLawful | packages/agent-runtime/src/smorx_runtime/orchestrator.py:291-306 | the next wave has distinct unsettled tasks with all dependencies settled, within the cap, SERIALIZED alone |
| Orchestration.TaskStep | packages/agent-runtime/src/smorx_runtime/orchestrator.py:345-413 | one wave keeps every task either unstarted, settled, or failed and queued with a run left |
| Orchestration.DependencyStaysSettled | packages/agent-runtime/src/smorx_runtime/orchestrator.py:291-306 | what a started task depends on stays settled in every later wave |
| Orchestration.OrderlyStep | packages/agent-runtime/src/smorx_runtime/orchestrator.py:291-431 | every step of a run keeps queue, task and dependency invariants together |
| Orchestration.RunIsOrderly | packages/agent-runtime/src/smorx_runtime/orchestrator.py:291-431 | they hold after every unblocked run |
| Conflicts.FindConflicts | packages/agent-runtime/src/smorx_runtime/orchestrator.py:660-694 | the grouping and comparing loops return the conflicts the specification lists, in the order in which claims are first made |
| Conflicts.EnterAnswer | packages/agent-runtime/src/smorx_runtime/orchestrator.py:665-666 | one result is appended under each of its claims, once, and new claims are added in order |
| Conflicts.ReportedConflictsAreReal | packages/agent-runtime/src/smorx_runtime/orchestrator.py:668-694 | a reported conflict has two results that make the claim and disagree, and names all tasks that make it |
| Conflicts.MissedExactlyWhen | packages/agent-runtime/src/smorx_runtime/orchestrator.py:668-678 | a dispute goes unreported if and only if the first two results agree and a later one disagrees with both |
| Conflicts.SmallWavesHideNothing | packages/agent-runtime/src/smorx_runtime/orchestrator.py:668-678 | at most two results: every dispute is reported; a single one: nothing is |
| Conflicts.ThirdAnswerIsIgnored | packages/agent-runtime/src/smorx_runtime/orchestrator.py:671-678 | a third result that contradicts two agreeing ones leaves no trace |
| Conflicts.AnswersAreCurrent | packages/agent-runtime/src/smorx_runtime/orchestrator.py:661-664 | the results compared are those that were not stale, failed ones included |
| RunProperties.EveryDispatchIsLawful | packages/agent-runtime/src/smorx_runtime/orchestrator.py:291-306 | at every dispatch of every run the wave is lawful; planned waves come in plan order and only when no follow-up waits |
| RunProperties.RunsBounded | packages/agent-runtime/src/smorx_runtime/orchestrator.py:378-413 | no task is dispatched more than R+2 times, R+1 without replacement, for retry limit R |
| RunProperties.WavesAreCounted | packages/agent-runtime/src/smorx_runtime/orchestrator.py:291-300 | the waves of a run are the planned ones plus one for each repeated dispatch |
| RunProperties.WavesBounded | packages/agent-runtime/src/smorx_runtime/orchestrator.py:291-431 | at most plan length + N(R+1) waves are executed, plan length + N R without replacement |
| RunProperties.OutcomeDecidesTheStep | packages/agent-runtime/src/smorx_runtime/orchestrator.py:411-431 | a run that is not over can go on with any outcome of its next wave, in exactly one way |
| RunProperties.EveryBehaviourHasItsRun | packages/agent-runtime/src/smorx_runtime/orchestrator.py:291-431 | for every behaviour of the agents a planned graph has a run that ends, and every run with these answers is an earlier stage of it |
| RunProperties.FinishedRunSettlesAll | packages/agent-runtime/src/smorx_runtime/orchestrator.py:428-431 | when nothing is due, the whole plan has run and every task succeeded or was cancelled |
| RunProperties.UnsettledRunsAllFailed | packages/agent-runtime/src/smorx_runtime/orchestrator.py:350-359 | every run of an unsettled task failed, so its signature history counts its runs |
| RunProperties.ExhaustedAfterLastRun | packages/agent-runtime/src/smorx_runtime/orchestrator.py:378-413 | a task is given up as exhausted exactly after its last allowed run, and never survives it |
| RunProperties.NoProgressNeedsRuns | packages/agent-runtime/src/smorx_runtime/orchestrator.py:350-377 | a no-progress block needs as many failed runs as the threshold, hence is impossible beyond the run limit |
| RunProperties.CompletedAreTheSucceeded | packages/agent-runtime/src/smorx_runtime/orchestrator.py:696-706 | after every run the completed list is duplicate-free, is exactly the succeeded tasks, and evidence is no shorter |
| RunProperties.SuccessIsEvidenced | packages/agent-runtime/src/smorx_runtime/orchestrator.py:596-649 | every success rests on an evidenced answer to the assignment of the wave that settled it |
| RunProperties.AssignmentIdInjective | packages/agent-runtime/src/smorx_runtime/orchestrator.py:485-486 | run, task and attempt number can be read back from an assignment id, whatever the task id contains |
| RunProperties.AnswersToOtherDispatchesAreStale | packages/agent-runtime/src/smorx_runtime/orchestrator.py:596-615 | unless a decorator rewrites assignment ids, an answer to any other dispatch of the run, an earlier attempt included, is stale |
| RunLedger.HistoryIsLegal | packages/agent-runtime/src/smorx_runtime/orchestrator.py:63-81 | the phase history after n waves is a legal walk from IDLE with n EXECUTING phases |
| RunLedger.HistoryGrows | packages/agent-runtime/src/smorx_runtime/orchestrator.py:440-448 | one more wave appends RECONCILING and DISPATCHING where needed, then EXECUTING and COLLECTING |
| RunLedger.PendingStep | packages/agent-runtime/src/smorx_runtime/orchestrator.py:712-714 | the pending list always is the unstarted rest of the plan, in order |
| RunLedger.WaveIsRecorded | packages/agent-runtime/src/smorx_runtime/orchestrator.py:455-652 | executing, collecting and reporting a wave extends every ledger field by exactly that wave |
| Orchestrator.Orchestrator.constructor | packages/agent-runtime/src/smorx_runtime/orchestrator.py:193-228 | a new orchestrator is idle with an empty ledger, and loop controls override the no-progress threshold |
| Orchestrator.Orchestrator.Transition | packages/agent-runtime/src/smorx_runtime/orchestrator.py:238-244 | a legal transition is entered and recorded; an illegal one is reported and changes nothing |
| Orchestrator.Orchestrator.EnsureDispatchReady | packages/agent-runtime/src/smorx_runtime/orchestrator.py:440-448 | COLLECTING and RECONCILING lead to DISPATCHING by the transitions they need; any other phase stays |
| Orchestrator.Orchestrator.IssueAssignments | packages/agent-runtime/src/smorx_runtime/orchestrator.py:463-509 | exactly the tasks of the wave are running on a fresh assignment naming run and attempt, each counted once more |
| Orchestrator.Orchestrator.ExecuteWave | packages/agent-runtime/src/smorx_runtime/orchestrator.py:455-537 | the same, in phase EXECUTING, with an arbitrary outcome; the engine's last measurements are recorded, its own or an earlier wave's |
| Orchestrator.Orchestrator.CollectResult | packages/agent-runtime/src/smorx_runtime/orchestrator.py:596-649 | staleness, status and evidence are judged in that order and recorded accordingly |
| Orchestrator.Orchestrator.CollectTask | packages/agent-runtime/src/smorx_runtime/orchestrator.py:571-649 | a task is dropped from pending and, if it is queued or running, gets the verdict of its wave |
| Orchestrator.Orchestrator.CollectWave | packages/agent-runtime/src/smorx_runtime/orchestrator.py:539-652 | every queued or running task of the wave gets its verdict, no other task changes, the failures returned are the failed ones, and the answers left are compared for conflicts |
| Orchestrator.Orchestrator.ReconcileTask | packages/agent-runtime/src/smorx_runtime/orchestrator.py:345-413 | a failure blocks the run if and only if its signatures show no progress or its runs are used up; otherwise replacement and counter agree with the log |
| Orchestrator.Orchestrator.Reconcile | packages/agent-runtime/src/smorx_runtime/orchestrator.py:345-413 | the failed tasks are staged in order, or the first one without remedy blocks |
| Orchestrator.Orchestrator.Summarize | packages/agent-runtime/src/smorx_runtime/orchestrator.py:318-336 | the wave summary lists its tasks and failures and is completed exactly when all succeeded |
| Orchestrator.Orchestrator.RunWave | packages/agent-runtime/src/smorx_runtime/orchestrator.py:301-423 | one turn appends one lawful step to the log, and goes on or names the blocking task |
| Orchestrator.Orchestrator.Enroll | packages/agent-runtime/src/smorx_runtime/orchestrator.py:270-275 | all planned tasks are pending in plan order and queued |
| Orchestrator.Orchestrator.Turn | packages/agent-runtime/src/smorx_runtime/orchestrator.py:291-426 | follow-ups go first, in order; queue and plan position stay those of the log |
| Orchestrator.Orchestrator.RunWaves | packages/agent-runtime/src/smorx_runtime/orchestrator.py:291-431 | the loop ends, blocked or with nothing left to do |
| Orchestrator.Orchestrator.Run | packages/agent-runtime/src/smorx_runtime/orchestrator.py:249-438 | a planning error is passed on; otherwise the run ends for every sequence of outcomes, its log is lawful, and its ledger, report and telemetry hold exactly the log |
| Orchestrator.CounterSteps | packages/agent-runtime/src/smorx_runtime/orchestrator.py:350-359 | the per-task counter reaches the threshold exactly when the last signatures of the task are equal |
| RunOutcomes.SummariesAreHonest | packages/agent-runtime/src/smorx_runtime/orchestrator.py:318-336 | summary k describes wave k and is completed exactly when each of its tasks succeeded |
| RunOutcomes.EveryRunIsBounded | packages/agent-runtime/src/smorx_runtime/orchestrator.py:249-438 | however a run ends, run counts and waves are bounded and the history is legal with one EXECUTING per summary |
| RunOutcomes.ReturnedRunIsComplete | packages/agent-runtime/src/smorx_runtime/orchestrator.py:428-438 | on return nothing is pending, queued, running or failed; completed is exactly the successes; evidence suffices |
| RunOutcomes.StatusIsLastVerdict | packages/agent-runtime/src/smorx_runtime/orchestrator.py:602-615 | each final status is the verdict of the task's last wave; cancelled means answered with a stale result |
| RunOutcomes.EmptyGraphStaysDispatching | packages/agent-runtime/src/smorx_runtime/orchestrator.py:291-298 | the empty graph, and only it, is returned in DISPATCHING without a next transition |
| RunOutcomes.BlockedRunHasCause | packages/agent-runtime/src/smorx_runtime/orchestrator.py:433-436 | a blocked run names a task whose failures show no progress or whose runs are used up; human review exactly for a mismatch |
| RunOutcomes.NarrowRunsHideNoConflict | packages/agent-runtime/src/smorx_runtime/orchestrator.py:651-694 | with a cap of two every dispute within a wave is reported; a follow-up wave reports no conflict |
| RunOutcomes.TelemetryIsOwnExactlyWhen | packages/agent-runtime/src/smorx_runtime/orchestrator.py:535-536 | the telemetry of a run is its own waves' measurements exactly when no wave without measurements follows one that has some |
| RunOutcomes.TimedOutWaveFakesConcurrency | packages/agent-runtime/src/smorx_runtime/orchestrator.py:520-536 | after any earlier waves, a wave that times out makes the concurrency proof True for each single lasting task of the parallel wave before it; without it the answer was False for a task run once |
| RunOutcomes.TelemetryIsInOrder | packages/agent-runtime/src/smorx_runtime/orchestrator.py:520-536 | repeats apart, the recorded telemetry keeps the order of the measurements; a lasting record is repeated exactly when a later wave of the run leaves none of its own |
| RunOutcomes.RunAnswersAreGenuineExactlyWhen | packages/agent-runtime/src/smorx_runtime/telemetry.py:71-91 | for a run measured honestly, the concurrency proof is the documented one for every choice of tasks if and only if no wave records again what the run has recorded of a lasting task, or no recorded wave saw two at once |
| WaveEngine.KeepBooks | packages/agent-runtime/src/smorx_runtime/waves.py:154-198 | answers become results, timeouts and exceptions failures, every task leaves one timing, timed-out and cancelled tasks are listed in the order they ended, nothing else is recorded |
| WaveEngine.RunWave | packages/agent-runtime/src/smorx_runtime/waves.py:118-231 | the books of the wave, its status and its telemetry figures together |
| WaveEngine.StatusMeaning | packages/agent-runtime/src/smorx_runtime/waves.py:62-74 | what COMPLETED, PARTIAL and FAILED say of the tasks, and when COMPLETED means that all answered |
| WaveEngine.CompletionOrderDoesNotMatter | packages/agent-runtime/src/smorx_runtime/waves.py:154-231 | results, failures, status and the multiset of timings do not depend on the order in which tasks finish |
| Telemetry.Sweep | packages/agent-runtime/src/smorx_runtime/waves.py:92-98 | the running maximum of the event loop |
| Telemetry.SweepIsHighWater | packages/agent-runtime/src/smorx_runtime/waves.py:88-98 | on sorted events that maximum is the largest number of tasks running at any instant |
| Telemetry.HighWater | packages/agent-runtime/src/smorx_runtime/waves.py:86-98 | the high-water mark, for touching and zero-length intervals too |
| Telemetry.MaxOverlap | packages/agent-runtime/src/smorx_runtime/waves.py:100-107 | the quadratic scan returns the largest pairwise overlap |
| Telemetry.Summarize | packages/agent-runtime/src/smorx_runtime/waves.py:77-108 | window, wall time, high-water mark and overlap, each by its own definition |
| Telemetry.WorkFitsInLanes | packages/agent-runtime/src/smorx_runtime/waves.py:77-108 | the sum of all durations is at most high-water mark times wall time |
| Telemetry.HighWaterMeansOverlap | packages/agent-runtime/src/smorx_runtime/telemetry.py:44-54 | two tasks ran at once if and only if the maximum overlap is positive |
| Telemetry.SummaryPermutes | packages/agent-runtime/src/smorx_runtime/waves.py:77-108 | permuting the timings changes none of the figures, and the figures are unique |
| Concurrency.ParallelismTelemetry.RecordWave | packages/agent-runtime/src/smorx_runtime/telemetry.py:63-65 | a wave is appended |
| Concurrency.ParallelismTelemetry.ProveConcurrency | packages/agent-runtime/src/smorx_runtime/telemetry.py:71-91 | True if and only if two relevant records overlap and some involved wave saw two at once |
| Concurrency.ProofOfTwoTasks | packages/agent-runtime/src/smorx_runtime/telemetry.py:71-91 | a genuine overlap of two tasks is always reported; the answer is the documented one except exactly when only self-overlaps exist and two were seen at once |
| Concurrency.SingleTaskProof | packages/agent-runtime/src/smorx_runtime/telemetry.py:71-91 | for one task the answer is True exactly when its own records overlap and a wave saw two at once |
| Concurrency.TwiceRecordedWave | packages/agent-runtime/src/smorx_runtime/orchestrator.py:535-536 | whatever was recorded before, recording a wave twice makes the answer True for each of its lasting tasks; recorded once it was False for a task run once |
| Concurrency.SequentialWavesProof | packages/agent-runtime/src/smorx_runtime/telemetry.py:71-91 | for measured waves run one after the other, True if and only if two listed records overlapped within one wave |
| Concurrency.SequentialProofIsGenuine | packages/agent-runtime/src/smorx_runtime/telemetry.py:71-91 | for waves run one after the other, each task once in a wave, the answer is the documented one for every choice of tasks |
| Concurrency.EveryAnswerIsGenuineExactlyWhen | packages/agent-runtime/src/smorx_runtime/telemetry.py:71-91 | where records may be repeated, all answers are the documented ones if and only if no lasting record is repeated or no wave saw two at once |
| Concurrency.UnrelatedTaskFakes | packages/agent-runtime/src/smorx_runtime/telemetry.py:71-91 | asking about a repeated task together with a task of an unrelated parallel wave can make the answer True though no two tasks overlapped |
| NoProgress.CounterImplementsRule | packages/agent-runtime/src/smorx_runtime/loop_controls.py:232-238 | the counter form hits exactly when the last threshold signatures are equal |
| NoProgress.WindowImplementsRule | packages/develop/src/smorx_develop/bounds.py:113-121 | the window form hits exactly when the last threshold signatures are equal |
| NoProgress.ResetDetectorMatchesWindow | packages/develop/src/smorx_develop/bounds.py:107-122 | the detector reset after each hit and the self-clearing window agree at every step of every sequence |
| NoProgress.FormsFireFirstTogether | packages/agent-runtime/src/smorx_runtime/orchestrator.py:350-359 | all forms hit for the first time at the same observation |
| NoProgress.NoProgressDetector.Make | packages/agent-runtime/src/smorx_runtime/loop_controls.py:221-226 | a threshold below two is refused |
| NoProgress.NoProgressDetector.Observe | packages/agent-runtime/src/smorx_runtime/loop_controls.py:232-238 | reports that the last threshold observations since the last reset are equal |
| NoProgress.NoProgressDetector.Reset | packages/agent-runtime/src/smorx_runtime/loop_controls.py:240-243 | forgets all observations |
| Bounds.LoopBoundsController.Check | packages/develop/src/smorx_develop/bounds.py:72-93 | no bound is raised exactly when all have room; otherwise the first one reached, in order |
| Bounds.LoopBoundsController.RecordIteration | packages/develop/src/smorx_develop/bounds.py:95-97 | one more iteration and nothing else |
| Bounds.LoopBoundsController.RecordCommand | packages/develop/src/smorx_develop/bounds.py:99-101 | one more command and nothing else |
| Bounds.LoopBoundsController.RecordRepair | packages/develop/src/smorx_develop/bounds.py:103-105 | one more repair and nothing else |
| Bounds.LoopBoundsController.RecordExecutionSignature | packages/develop/src/smorx_develop/bounds.py:107-122 | hits when the last threshold signatures since the previous hit are equal, and then forgets them |
| CodingLoop.CodingAgentLoop.ExecuteCommand | packages/develop/src/smorx_develop/agent.py:225-246 | one step of the plan: nothing runs without room under every bound; a command that raises is counted and leaves no record |
| CodingLoop.CodingAgentLoop.ExecutePlan | packages/develop/src/smorx_develop/agent.py:320-324 | the plan's tests run in order up to the first raised bound or exception |
| CodingLoop.ExecuteDoes | packages/develop/src/smorx_develop/agent.py:320-324 | what that leaves: a prefix of the tests recorded, each with room when it started, and the bound that cut it was exhausted at that moment |
| CodingLoop.CodingAgentLoop.Decide | packages/develop/src/smorx_develop/agent.py:267-318 | malformed directives are refused unrecorded; an unauthorized repair is recorded as denied |
| CodingLoop.CodingAgentLoop.Run | packages/develop/src/smorx_develop/agent.py:346-443 | the run its surroundings' answers lead to; without a PASS verdict nothing happens, otherwise every exit, exceptions included, is accounted for, within bounds and lawful |
| CodingLoop.CodingAgentLoop.RepairUntilDone | packages/develop/src/smorx_develop/agent.py:378-443 | the repair loop ends for all answers, as the steps say |
| CodingLoop.CodingAgentLoop.RepairRound | packages/develop/src/smorx_develop/agent.py:419-443 | one repair: mutate, run again, then pass, stall, go on, or let a bound or an exception escape |
| CodingLoop.PlayIsLawful | packages/develop/src/smorx_develop/agent.py:346-443 | every run past the barrier is lawful: records, counters and decisions add up, counts stay within bounds, success is decided by the last round, every other ending names its real cause |
| CodingLoop.AuthorizedRunIsNeverDenied | packages/develop/src/smorx_develop/agent.py:354-363 | a run past the barrier, which needs the authorization, never ends in a policy stop |
| CodingLoop.LastRepairEscapes | packages/develop/src/smorx_develop/agent.py:419-423 | a run that uses its last allowed repair returns no result: its edit fails or a bound escapes before any test judges it |
| CodingLoop.ExecutionsAreTestsTimesRounds | packages/develop/src/smorx_develop/agent.py:320-324 | executions are tests times completed rounds |
| CodingLoop.StopsLawfully | packages/develop/src/smorx_develop/agent.py:400-415 | a denied or stopping decision ends the loop and changes nothing else |
| CodingLoop.CutsLawfully | packages/develop/src/smorx_develop/agent.py:419-423 | a re-execution cut short leaves the repair applied, its round incomplete and no result |
| CodingLoop.PassesLawfully | packages/develop/src/smorx_develop/agent.py:424-433 | a passing round ends the loop with success |
| CodingLoop.StallsLawfully | packages/develop/src/smorx_develop/agent.py:435-443 | equal signatures end the loop as no progress, the first time they are equal |
| CodingLoop.RoundKeepsUnderway | packages/develop/src/smorx_develop/agent.py:419-435 | any other round keeps accounts, bounds and history consistent |
| CodingLoop.FailingEmpty | packages/develop/src/smorx_develop/agent.py:326-327 | no failing record means that all passed |
| CodingEscapes.OnlyTheClockEscapes | packages/develop/src/smorx_develop/agent.py:380-423 | if every reachable round fits its bounds, no counted bound escapes, whatever the answers |
| CodingEscapes.HeadEscapes | packages/develop/src/smorx_develop/agent.py:380-423 | a reachable round that does not fit is run into by an explicit world, and a counted bound escapes |
| CodingEscapes.CountEscapesExactlyWhen | packages/develop/src/smorx_develop/agent.py:380-423 | a counted bound can escape a fresh loop if and only if the plan is not empty and some reachable round lacks its iteration, repair or commands |
| CodingEscapes.SomeBoundEscapesExactlyWhen | packages/develop/src/smorx_develop/agent.py:368-423 | some bound can escape if and only if the plan is not empty |
| CodingEscapes.AmpleBoundsFit | packages/develop/src/smorx_develop/bounds.py:72-93 | bounds that leave every iteration its repair and its commands are safe |
| CodingEscapes.DefaultBoundsFit | packages/develop/src/smorx_develop/bounds.py:28-38 | the default bounds are safe for plans of exactly 20 and exactly 40 tests |
| RepairLoop.FindAffectedClaim | packages/delta/src/smorx_delta/repair_loop.py:95-133 | the first mentioned claim, deltas before alignments, that needs repair by its first delta or alignment |
| RepairLoop.AffectedIsUnique | packages/delta/src/smorx_delta/repair_loop.py:95-133 | there is only one such claim |
| RepairLoop.RunRepairLoop | packages/delta/src/smorx_delta/repair_loop.py:242-368 | exactly min(iterations, repairs, max(1, threshold)) iterations unless the clock stops it, candidates 2, 3, ..., continue exactly if any, the reason given is the real one, found at the last clock reading while the loop was still going, and the package builder raises exactly on an attempted empty claim with evidence |
| RepairLoop.ExitIsDetermined | packages/delta/src/smorx_delta/repair_loop.py:275-368 | the clock readings leave exactly one lawful result: iterations, permission and reason |
| RepairLoop.Attempts | packages/delta/src/smorx_delta/repair_loop.py:275-368 | the loop itself, for every clock |
| RepairLoop.OneMoreAttempt | packages/delta/src/smorx_delta/repair_loop.py:316-360 | an attempt extends the iterations by the next candidate, or ends the loop as no progress |
| RepairLoop.StopsBefore | packages/delta/src/smorx_delta/repair_loop.py:281-299 | an exhausted bound, nothing to repair and no evidence end the loop with that reason, which really holds |
| Trace.IdealHashExists | packages/develop/src/smorx_develop/trace.py:68-72 | a hash without collisions and separators exists |
| Trace.PreimageInjective | packages/develop/src/smorx_develop/trace.py:68-72 | the hashed text determines sequence number, previous hash and payload |
| Trace.VerifyTraceIntegrity | packages/develop/src/smorx_develop/trace.py:166-183 | accepts exactly the intact traces and otherwise reports the first broken entry |
| Trace.PrefixIntact | packages/develop/src/smorx_develop/trace.py:166-183 | every prefix of an intact trace is intact |
| Trace.SameTipSameContent | packages/develop/src/smorx_develop/trace.py:68-83 | intact traces with the same last hash have the same length and content at every position, or contain two different hashed texts with one hash |
| Trace.IdealTipPinsContent | packages/develop/src/smorx_develop/trace.py:68-83 | under a hash without collisions the last hash pins the whole content |
| Trace.PayloadTamperingBreaks | packages/develop/src/smorx_develop/trace.py:166-183 | changing one canonical payload alone breaks that entry's link and no other, if and only if the two texts do not collide |
| Trace.KindAndTimeUnprotected | packages/develop/src/smorx_develop/trace.py:68-83 | kinds and times can be changed at will without breaking it |
| Trace.Append | packages/develop/src/smorx_develop/trace.py:98-103 | an appended entry keeps the chain intact |
| Trace.BuildTrace | packages/develop/src/smorx_develop/trace.py:86-163 | every built trace is intact and holds the items in their order |
| Versioning.RecogniserIsRegex | packages/contracts/src/smorx_contracts/versioning.py:24-33 | the recogniser accepts exactly what the anchored pattern matches |
| Versioning.ParsePrinted | packages/contracts/src/smorx_contracts/versioning.py:36-41 | parsing the printed form of a triple returns the triple |
| Versioning.PrintedIsRelease | packages/contracts/src/smorx_contracts/versioning.py:36-59 | a printed triple is a valid version |
| Versioning.BumpsAreReleases | packages/contracts/src/smorx_contracts/versioning.py:44-59 | every bump of a valid version is valid and has the expected parts |
| Versioning.BumpsMoveForward | packages/contracts/src/smorx_contracts/versioning.py:44-59 | every bump is a strictly greater release |
| Versioning.BumpCompatibility | packages/contracts/src/smorx_contracts/versioning.py:62-71 | which bumps stay compatible with their original |
| Versioning.KeysAreInjective | packages/contracts/src/smorx_contracts/versioning.py:74-86 | identity and valid version can be read back from a key, even when the identity contains the separator |
| Coverage.CheckCase | packages/precode/src/smorx_precode/verification_plan.py:112-141 | a case is accepted exactly when it has none of the problems, and of several the first in the order of the checks is reported |
| Coverage.Validate | packages/precode/src/smorx_precode/verification_plan.py:108-149 | accepts exactly the well-formed fully covering plans and returns the exact transpose, keys in order of first mention; each error is returned exactly when it applies, with the first bad case or exactly the uncovered behaviors |
| Coverage.AddCase | packages/precode/src/smorx_precode/verification_plan.py:138-141 | recording a case extends the transpose by it |
| Coverage.RowReadsAs | packages/precode/src/smorx_precode/verification_plan.py:218-249 | a stored row is read back with the behaviors of the case whose full name it carries |
| Coverage.RoundTrip | packages/precode/src/smorx_precode/verification_plan.py:191-249 | a case is read back with its own behaviors if and only if its name has at most 200 characters |
| Coverage.TruncatedCase | packages/precode/src/smorx_precode/verification_plan.py:191-249 | a cut name loses the behaviors or takes over those of the case bearing the shortened name |

## Left out

- Scheduling of coroutines, real timeouts, cancellation points and clock readings: their outcomes are arbitrary values. The engine's refusal of an empty wave or a missing executor is not modelled; the orchestrator never sends either.
- Concurrency of tasks inside a wave: a wave is the list of its tasks' endings in completion order, and that order is proved irrelevant.
- The wave outcome that the orchestrator collects is any pair of maps, not only those the engine can produce.
- Orchestrator.Orchestrator.Run: the report has no decisions and no telemetry summary; the telemetry modelled is the list of recorded waves.
- RunLedger.WaveIsRecorded: decisions, active and completed agents are not in the ledger.
- Orchestrator.Orchestrator.constructor: timeouts taken over from loop controls are not modelled.
- `_extract_claims`: where a result names its claims, in its own list or under keys of its artifacts, is not modelled; a result comes with the list of them. The statements of stale and invalid answers are not modelled.
- The orchestrator's audit decisions, agent bookkeeping, wave and agent timeouts, capabilities, tools and task descriptions: recorded but never read by the control flow.
- Exceptions raised by an assignment decorator, an executor factory or a failure-signature function: they end a run without a report.
- `TaskGraph.remaining`, `tasks`, `dependencies_of`, `ParallelismTelemetry.summary`, `IterationBudget`: lookups and single comparisons.
- Rounding of seconds: durations and overlaps are exact integers; the program divides them into floating-point seconds.
- The text of results, summaries and stop reasons beyond what later code compares, and the diff, sandbox and checkpoint contents of the coding loop.
- `_derive_repair_text` and the persistence of repair packages; the findings a repair loop starts from do not change while it runs.
- JSON canonicalisation and SHA-256: canonical text and hash are parameters, the hash any function whose digests have no separator and are never the genesis marker. That collisions of the real hash are hard to find is not part of this model.
- Ordering and precedence of pre-release identifiers: the program never compares them, and a leading zero in them is accepted as it is there.
- Sessions, rows and transactions of the verification plan: rows are plain records read in insertion order.
- Certification, intent, barrier and hand-off code, HTTP applications and provider clients: the barrier enters the coding loop as a verdict and an authorization flag.
