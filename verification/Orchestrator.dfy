/** The orchestrator: a state machine that runs a plan wave by wave with bounded repair. */
module Orchestrator {
  import opened Concurrency
  import opened Conflicts
  import opened Dependencies
  import opened NoProgress
  import opened Orchestration
  import opened PlanBounds
  import opened Results
  import opened RunLedger
  import opened RunProperties
  import opened TaskGraph
  import opened WavePlan

  datatype InvalidTransition = InvalidTransition(current: Phase, attempted: Phase)

  datatype BlockKind = NO_PROGRESS_BLOCK | HUMAN_REVIEW_BLOCK | RETRIES_EXHAUSTED

  datatype Block = Block(task: Id, kind: BlockKind, mismatch: bool)

  datatype Report = Report(
    completed: bool, phases: seq<Phase>, summaries: seq<WaveSummary>, contradictions: seq<Contradiction>,
    failures: seq<Failure>, evidence: seq<Evidence>, nextTransition: string)

  // Planning may raise; a blocked run raises with its report.
  datatype Outcome = NotPlanned(error: GraphError) | Returned(report: Report) | OrchestrationBlocked(report: Report)

  // The two dictionaries of the no-progress rule, read as one counter per task.
  function CounterOf(last: map<Id, string>, consecutive: map<Id, nat>, id: Id): Counter<string> {
    Counter(if id in last then Some(last[id]) else None, if id in consecutive then consecutive[id] else 0)
  }

  ghost predicate CountersMatch(s: Setup, log: Log, last: map<Id, string>, consecutive: map<Id, nat>) {
    forall id :: CounterOf(last, consecutive, id) == CounterAfter(SignaturesIn(s, log, id))
  }

  // The orchestrator between two waves of a run that is still going.
  ghost predicate Between(s: Setup, log: Log, l: Ledger, last: map<Id, string>, consecutive: map<Id, nat>) {
    && GoodPlan(s) && IsRun(s, log) && Unblocked(s, log) && Orderly(s, log)
    && Recorded(s, log, l) && ReplacedMatches(s, log, l.replaced) && CountersMatch(s, log, last, consecutive)
    && IsHistory(l.history, |log|) && l.phase == Current(l.history)
  }

  ghost predicate JustBlocked(s: Setup, log: Log, b: Block) {
    && log != [] && Blocks(s, log, b.task)
    && b.mismatch == (Last(log).Verdict(b.task).failure.classification == "mismatch")
    && b.kind == (if RemedyFor(s, log, b.task) == NO_PROGRESS then NO_PROGRESS_BLOCK
                  else if b.mismatch then HUMAN_REVIEW_BLOCK else RETRIES_EXHAUSTED)
  }

  // Why a run stopped: the first task of the last wave whose failure allows no remedy.
  ghost predicate BlockedBy(s: Setup, log: Log, b: Block) {
    && JustBlocked(s, log, b)
    && exists k :: 0 <= k < |Last(log).wave| && Last(log).wave[k].id == b.task && UnblockedUpTo(s, log, k)
  }

  ghost predicate UnblockedUpTo(s: Setup, log: Log, k: nat)
    requires log != [] && k <= |Last(log).wave|
  {
    forall id :: id in Ids(Last(log).wave[..k]) ==> !Blocks(s, log, id)
  }

  class Orchestrator {
    const cap: int
    const retry: RetryPolicy
    // The run's state.
    var phase: Phase
    var history: seq<Phase>
    var pending: seq<Id>
    var completed: seq<Id>
    var statuses: map<Id, Status>
    var results: map<Id, AgentResult>
    var evidence: seq<Evidence>
    var failures: seq<Failure>
    var contradictions: seq<Contradiction>
    var nextTransition: string
    // Its bookkeeping.
    var runId: string
    var waveSeq: nat
    var summaries: seq<WaveSummary>
    var runCounts: map<Id, nat>
    var replaced: set<Id>
    var issued: map<Id, Assignment>
    // The telemetry of the run, and the measurements its engine made last. The engine
    // outlives the run and keeps them.
    var telemetry: seq<WaveRecord>
    var measured: Option<WaveRecord>

    ghost function Ledger(): Ledger
      reads this
    {
      RunLedger.Ledger(phase, history, pending, completed, statuses, results, evidence, failures, contradictions,
                       waveSeq, summaries, runCounts, replaced, issued)
    }

    // The telemetry is what the waves of the log left, `m` being the engine's measurements
    // before them.
    ghost predicate Telemetered(m: Option<WaveRecord>, log: Log)
      reads this`measured, this`telemetry
    {
      measured == MeasuredAfter(m, log) && telemetry == TelemetryBy(m, log)
    }

    // The phase has been reached from IDLE by legal transitions only.
    ghost predicate Valid()
      reads this
    {
      LegalHistory(history) && phase == Current(history)
    }

    // Loop controls, when there are any, set the no-progress threshold.
    constructor (cap: int, retry: RetryPolicy, loopThreshold: Option<int>)
      ensures Valid() && this.cap == cap
      ensures this.retry == if loopThreshold.Some? then retry.(noProgressThreshold := loopThreshold.value) else retry
      ensures phase == IDLE && history == [] && nextTransition == "" && IsBlank(Ledger()) && issued == map[]
      ensures telemetry == [] && measured == None
    {
      this.cap := cap;
      this.retry := if loopThreshold.Some? then retry.(noProgressThreshold := loopThreshold.value) else retry;
      phase, history, nextTransition := IDLE, [], "";
      runId, waveSeq := "", 0;
      pending, completed, statuses, results := [], [], map[], map[];
      evidence, failures, contradictions, summaries := [], [], [], [];
      runCounts, replaced, issued := map[], {}, map[];
      telemetry, measured := [], None;
    }

    method Transition(target: Phase) returns (r: Result<(), InvalidTransition>)
      requires Valid()
      modifies this`phase, this`history
      ensures Valid()
      ensures r == if Legal(old(phase), target) then Ok(()) else Err(InvalidTransition(old(phase), target))
      ensures r.Ok? ==> phase == target && history == old(history) + [target]
      ensures r.Err? ==> phase == old(phase) && history == old(history)
    {
      if target !in Successors(phase) {
        return Err(InvalidTransition(phase, target));
      }
      Append(history, target);
      phase := target;
      history := history + [target];
      r := Ok(());
    }

    // A transition of the run itself: always a legal one.
    method Enter(target: Phase)
      requires Valid() && Legal(phase, target)
      modifies this`phase, this`history
      ensures Valid() && phase == target && history == old(history) + [target]
    {
      var r := Transition(target);
      assert r.Ok?;
    }

    method EnsureDispatchReady()
      requires Valid()
      modifies this`phase, this`history
      ensures Valid()
      ensures phase == if old(phase) == COLLECTING || old(phase) == RECONCILING then DISPATCHING else old(phase)
      ensures old(phase) == COLLECTING ==> history == old(history) + [RECONCILING] + [DISPATCHING]
      ensures old(phase) == RECONCILING ==> history == old(history) + [DISPATCHING]
      ensures old(phase) != COLLECTING && old(phase) != RECONCILING ==> history == old(history)
    {
      if phase == COLLECTING {
        Enter(RECONCILING);
        Enter(DISPATCHING);
      } else if phase == RECONCILING {
        Enter(DISPATCHING);
      }
    }

    method IssueAssignment(task: TaskSpec, decorate: Assignment -> Assignment)
      modifies this`issued, this`statuses, this`runCounts
      ensures Ledger() == Issued(runId, decorate, old(Ledger()), task.id)
    {
      var runNo := if task.id in runCounts then runCounts[task.id] else 0;
      var agentId := if task.id in replaced then task.id + "-replacement1" else task.id + "-agent";
      var assignment := decorate(Assignment(AssignmentId(runId, task.id, runNo), task.id, waveSeq, agentId));
      issued := issued[task.id := assignment];
      statuses := statuses[task.id := RUNNING];
      runCounts := runCounts[task.id := runNo + 1];
    }

    method IssueAssignments(wave: Wave, decorate: Assignment -> Assignment)
      requires DistinctIds(wave)
      modifies this`waveSeq, this`issued, this`statuses, this`runCounts
      ensures Executed(runId, decorate, old(Ledger()), Ledger(), wave)
    {
      ghost var before := Ledger();
      waveSeq := waveSeq + 1;
      issued := map[];
      for i := 0 to |wave|
        invariant Executed(runId, decorate, before, Ledger(), wave[..i])
      {
        OneMorePrefix(wave, i);
        IssueStep(runId, decorate, before, Ledger(), wave[..i], wave[i]);
        IssueAssignment(wave[i], decorate);
      }
      assert wave[..|wave|] == wave;
    }

    // What comes back is arbitrary.
    method ExecuteWave(wave: Wave, decorate: Assignment -> Assignment) returns (output: WaveOutput)
      requires Valid() && phase == DISPATCHING && DistinctIds(wave)
      modifies this`phase, this`history, this`waveSeq, this`issued, this`statuses, this`runCounts,
               this`telemetry, this`measured
      ensures Measures(old(telemetry), old(measured), output, telemetry, measured)
      ensures Valid() && phase == EXECUTING && history == old(history) + [EXECUTING]
      ensures Executed(runId, decorate, old(Ledger()), Ledger(), wave)
    {
      hide Executed, LegalHistory;
      IssueAssignments(wave, decorate);
      ghost var issuedAll := Ledger();
      Enter(EXECUTING);
      ExecutionIgnoresPhase(runId, decorate, old(Ledger()), old(Ledger()), issuedAll, Ledger(), wave);
      output := *;
      if output.Output? { measured := Some(output.measured); }
      if measured.Some? { telemetry := telemetry + [measured.value]; }
    }

    method MarkFailed(id: Id, failure: Failure)
      modifies this`statuses, this`failures
      ensures statuses == old(statuses)[id := FAILURE] && failures == old(failures) + [failure]
    {
      statuses := statuses[id := FAILURE];
      failures := failures + [failure];
    }

    method MarkSucceeded(id: Id, result: AgentResult)
      modifies this`statuses, this`completed, this`results, this`evidence
      ensures statuses == old(statuses)[id := DONE] && completed == old(completed) + [id]
      ensures results == old(results)[id := result] && evidence == old(evidence) + EvidenceFor(result)
    {
      statuses := statuses[id := DONE];
      completed := completed + [id];
      results := results[id := result];
      if result.evidence != [] {
        evidence := evidence + result.evidence;
      } else {
        evidence := evidence + [Derived(result.taskId)];
      }
    }

    // An answer is checked for staleness first, then for its status, then for evidence.
    method CollectResult(id: Id, result: AgentResult) returns (failure: Option<Failure>)
      modifies this`statuses, this`failures, this`contradictions, this`completed, this`results, this`evidence
      ensures Ledger() == Judged(old(Ledger()), id, JudgeResult(result, issued, id))
      ensures failure == var v := JudgeResult(result, issued, id); if v.Failed? then Some(v.failure) else None
    {
      hide ValidateResult;
      if id !in issued || result.taskId != id || result.assignmentId != issued[id].id {
        contradictions := contradictions + [Mismatch("__stale_result__", id)];
        statuses := statuses[id := CANCELLED];
        return None;
      }
      if result.status != SUCCEEDED {
        var f := if result.failures != [] then result.failures[0] else Failure("failed", result.summary);
        failure := Some(f);
        MarkFailed(id, f);
        return;
      }
      var issues := ValidateResult(result);
      if issues != [] {
        contradictions := contradictions + [Mismatch("__validation__", id)];
        var f := Failure("mismatch", "result validation failed: " + issues[0]);
        failure := Some(f);
        MarkFailed(id, f);
        return;
      }
      MarkSucceeded(id, result);
      failure := None;
    }

    // Collecting one task of a wave; the failure is what the repair policy works on.
    method CollectTask(id: Id, output: WaveOutput) returns (failure: Option<Failure>)
      modifies this`pending, this`statuses, this`failures, this`contradictions, this`completed, this`results,
               this`evidence
      ensures Ledger() == if IsOpen(old(statuses), id) then CollectedTask(old(Ledger()), id, Judge(output, issued, id))
                          else Dropped(old(Ledger()), id)
      ensures failure == var v := Judge(output, issued, id);
        if IsOpen(old(statuses), id) && v.Failed? then Some(v.failure) else None
    {
      pending := Drop(pending, id);
      if id !in statuses || (statuses[id] != QUEUED && statuses[id] != RUNNING) { return None; }
      if output == TimedOut {
        failure := Some(TIMEOUT);
        MarkFailed(id, TIMEOUT);
        return;
      }
      if output.Crashed? || id !in output.results {
        var f := if output.Output? && id in output.failures then output.failures[id] else NO_RESULT;
        failure := Some(f);
        MarkFailed(id, f);
        return;
      }
      failure := CollectResult(id, output.results[id]);
    }

    // Tasks that are neither queued nor running are skipped.
    method JudgeWave(wave: Wave, output: WaveOutput, ghost e: Entry) returns (failuresByTask: map<Id, Failure>)
      requires DistinctIds(wave) && e.wave == wave && e.issued == issued && e.output == output
      modifies this`pending, this`statuses, this`failures, this`contradictions, this`completed, this`results,
               this`evidence
      ensures Collected(old(Ledger()), Ledger(), wave, Judgeable(old(statuses), wave), e)
      ensures FailuresMatch(e, Judgeable(old(statuses), wave), failuresByTask)
    {
      hide Collected, FailuresMatch, Judge, CollectedTask, IsOpen, Judgeable, Dropped;
      ghost var before := Ledger();
      failuresByTask := map[];
      NothingCollected(before, e);
      assert wave[..0] == [];
      for i := 0 to |wave|
        invariant issued == old(issued)
        invariant Collected(before, Ledger(), wave[..i], Judgeable(before.statuses, wave[..i]), e)
        invariant FailuresMatch(e, Judgeable(before.statuses, wave[..i]), failuresByTask)
      {
        var id := wave[i].id;
        OneMorePrefix(wave, i);
        CollectStep(before, Ledger(), wave[..i], e, wave[i]);
        FailuresStep(before.statuses, e, wave[..i], wave[i], failuresByTask);
        var failure := CollectTask(id, output);
        if failure.Some? {
          failuresByTask := failuresByTask[id := failure.value];
        }
      }
      assert wave[..|wave|] == wave;
    }

    // The answers of tasks that are not cancelled are compared claim by claim.
    method DetectConflicts(wave: Wave, output: WaveOutput)
      modifies this`contradictions
      ensures contradictions == old(contradictions) + ConflictsAmong(Answers(wave, output, statuses))
    {
      var answers: seq<Answer> := [];
      if output.Output? {
        for i := 0 to |wave|
          invariant answers == Answers(wave[..i], output, statuses) && contradictions == old(contradictions)
        {
          var id := wave[i].id;
          assert wave[..i + 1][..i] == wave[..i];
          if id in output.results && !(id in statuses && statuses[id] == CANCELLED) {
            answers := answers + [Answer(id, output.results[id])];
          }
        }
        assert wave[..|wave|] == wave;
      }
      var found := FindConflicts(answers);
      contradictions := contradictions + found;
    }

    method CollectWave(wave: Wave, output: WaveOutput, ghost e: Entry) returns (failuresByTask: map<Id, Failure>)
      requires DistinctIds(wave) && e.wave == wave && e.issued == issued && e.output == output
      modifies this`pending, this`statuses, this`failures, this`contradictions, this`completed, this`results,
               this`evidence
      ensures Compared(old(Ledger()), Ledger(), wave, Judgeable(old(statuses), wave), e)
      ensures FailuresMatch(e, Judgeable(old(statuses), wave), failuresByTask)
    {
      hide FailuresMatch, Judge, Judgeable;
      failuresByTask := JudgeWave(wave, output, e);
      DetectConflicts(wave, output);
    }

    // One failed task: no progress, a retry, the one replacement, or the end of the run.
    method ReconcileTask(id: Id, failure: Failure, last: map<Id, string>, consecutive: map<Id, nat>, ghost s: Setup,
                         ghost log: Log)
      returns (last': map<Id, string>, consecutive': map<Id, nat>, block: Option<Block>)
      requires log != [] && Last(log).Fails(id) && Last(log).Verdict(id).failure == failure && s.retry == retry
      requires TaskReconciled(s, Before(log), replaced, last, consecutive, id) && RunsOf(runCounts, id) == Runs(log, id)
      modifies this`replaced
      ensures Stepped(id, last, consecutive, last', consecutive')
      ensures forall other :: other != id ==> (other in replaced <==> other in old(replaced))
      ensures block.None? ==> !Blocks(s, log, id) && TaskReconciled(s, log, replaced, last', consecutive', id)
      ensures block.Some? ==> block.value.task == id && JustBlocked(s, log, block.value)
    {
      var signature := retry.signature(failure);
      var n := if id in consecutive then consecutive[id] else 0;
      n := if id in last && last[id] == signature then n + 1 else 1;
      last', consecutive' := last[id := signature], consecutive[id := n];
      block := None;
      CounterSteps(s, log, last, consecutive, id);
      RemedyIs(s, log, id);
      CounterMoves(last, consecutive, id, signature, n);
      hide SignaturesIn, ReplacedIn, Runs, CounterAfter, RemedyFor, Blocks, CounterOf, Observe, Stepped, Judge;
      if n >= retry.noProgressThreshold {
        block := Some(Block(id, NO_PROGRESS_BLOCK, failure.classification == "mismatch"));
        return;
      }
      var runs := if id in runCounts then runCounts[id] else 0;
      if runs <= retry.maxRetries {
        return;
      }
      if retry.allowReplacement && id !in replaced {
        replaced := replaced + {id};
        return;
      }
      var mismatch := failure.classification == "mismatch";
      block := Some(Block(id, if mismatch then HUMAN_REVIEW_BLOCK else RETRIES_EXHAUSTED, mismatch));
    }

    method Reconcile(wave: Wave, failuresByTask: map<Id, Failure>, last: map<Id, string>, consecutive: map<Id, nat>,
                     ghost s: Setup, ghost log: Log)
      returns (staged: seq<TaskSpec>, last': map<Id, string>, consecutive': map<Id, nat>, block: Option<Block>)
      requires log != [] && Last(log).wave == wave && DistinctIds(wave) &&
        FailuresMatch(Last(log), wave, failuresByTask)
      requires s.retry == retry
      requires forall id :: RunsOf(runCounts, id) == Runs(log, id)
      requires Reconciled(s, log, [], replaced, last, consecutive, [])
      modifies this`replaced
      ensures block.None? ==> Reconciled(s, log, wave, replaced, last', consecutive', staged)
      ensures block.Some? ==> BlockedBy(s, log, block.value)
    {
      hide SignaturesIn, ReplacedIn, Runs, CounterAfter, Blocks, TaskReconciled, Stepped, JustBlocked, Reconciled,
           BlockedBy;
      staged, last', consecutive', block := [], last, consecutive, None;
      assert wave[..0] == [];
      for i := 0 to |wave|
        invariant block.None? && Reconciled(s, log, wave[..i], replaced, last', consecutive', staged)
      {
        var task := wave[i];
        ghost var r0, l0, c0, s0 := replaced, last', consecutive', staged;
        OneMorePrefix(wave, i);
        NotYetReconciled(s, log, i, r0, l0, c0, s0);
        if task.id in failuresByTask {
          last', consecutive', block := ReconcileTask(task.id, failuresByTask[task.id], last', consecutive', s, log);
          if block.Some? {
            FirstBlock(s, log, i, r0, l0, c0, s0, block.value);
            return;
          }
          staged := staged + [task];
        } else {
          NothingStepped(task.id, last', consecutive');
        }
        ReconcileStep(s, log, wave[..i], task, r0, l0, c0, s0, replaced, last', consecutive');
      }
      assert wave[..|wave|] == wave;
    }

    static method Summarize(wave: Wave, statuses: map<Id, Status>, failuresByTask: map<Id, Failure>, n: nat,
                            ghost e: Entry)
      returns (summary: WaveSummary)
      requires e.wave == wave && FailuresMatch(e, wave, failuresByTask)
      requires forall t :: t in wave ==> t.id in statuses && statuses[t.id] == StatusAfter(e.Verdict(t.id))
      ensures summary == SummaryOf(n, e)
    {
      var failed: seq<Id>, cancelled: seq<Id>, described: seq<string> := [], [], [];
      for i := 0 to |wave|
        invariant described == Describe(FailuresIn(wave[..i], e))
        invariant failed == [] && cancelled == [] <==> AllAccepted(wave[..i], e)
      {
        var id := wave[i].id;
        assert wave[i] in wave && id in Ids(wave);
        OneMorePrefix(wave, i);
        SummaryStep(wave[..i], e, wave[i]);
        if id in failuresByTask {
          failed := failed + [id];
          described := described + [failuresByTask[id].classification + ": " + failuresByTask[id].summary];
        }
        if statuses[id] == CANCELLED { cancelled := cancelled + [id]; }
      }
      assert wave[..|wave|] == wave;
      summary := WaveSummary(n, failed == [] && cancelled == [], TaskIds(wave), described);
    }

    // Dispatch a wave and wait for what comes back.
    method DispatchWave(wave: Wave, decorate: Assignment -> Assignment) returns (output: WaveOutput)
      requires Valid() && phase in {DISPATCHING, COLLECTING} && DistinctIds(wave)
      modifies this`phase, this`history, this`waveSeq, this`issued, this`statuses, this`runCounts,
               this`telemetry, this`measured
      ensures Valid() && phase == COLLECTING
      ensures Measures(old(telemetry), old(measured), output, telemetry, measured)
      ensures history == Redispatched(old(history)) + [EXECUTING] + [COLLECTING]
      ensures Executed(runId, decorate, old(Ledger()), Ledger(), wave)
    {
      hide Executed, LegalHistory, Measures;
      EnsureDispatchReady();
      ghost var ready := Ledger();
      output := ExecuteWave(wave, decorate);
      ghost var running := Ledger();
      Enter(COLLECTING);
      ExecutionIgnoresPhase(runId, decorate, ready, old(Ledger()), running, Ledger(), wave);
    }

    // ... and collect it. `executed` is the ledger in between.
    method TakeWave(wave: Wave, decorate: Assignment -> Assignment, ghost waiting: seq<TaskSpec>)
      returns (failuresByTask: map<Id, Failure>, ghost executed: RunLedger.Ledger, ghost e: Entry)
      requires Valid() && phase in {DISPATCHING, COLLECTING} && DistinctIds(wave)
      modifies this`phase, this`history, this`waveSeq, this`issued, this`statuses, this`runCounts,
               this`pending, this`failures, this`contradictions, this`completed, this`results, this`evidence,
               this`telemetry, this`measured
      ensures Valid() && phase == COLLECTING
      ensures Measures(old(telemetry), old(measured), e.output, telemetry, measured)
      ensures history == Redispatched(old(history)) + [EXECUTING] + [COLLECTING]
      ensures Executed(runId, decorate, old(Ledger()), executed, wave) && Compared(executed, Ledger(), wave, wave, e)
      ensures e.wave == wave && e.waiting == waiting && e.issued == executed.issued
      ensures FailuresMatch(e, wave, failuresByTask)
    {
      hide Executed, Compared, FailuresMatch, LegalHistory, Judgeable, IsOpen, Measures, Redispatched;
      var output := DispatchWave(wave, decorate);
      executed := Ledger();
      e := Entry(wave, waiting, issued, output);
      WaveIsRunning(runId, decorate, old(Ledger()), executed, wave);
      failuresByTask := CollectWave(wave, output, e);
    }

    // ... and report it.
    method TakeAndReportWave(wave: Wave, decorate: Assignment -> Assignment, ghost waiting: seq<TaskSpec>)
      returns (failuresByTask: map<Id, Failure>, ghost executed: RunLedger.Ledger, ghost e: Entry)
      requires Valid() && phase in {DISPATCHING, COLLECTING} && DistinctIds(wave)
      modifies this`phase, this`history, this`waveSeq, this`issued, this`statuses, this`runCounts, this`summaries,
               this`pending, this`failures, this`contradictions, this`completed, this`results, this`evidence,
               this`telemetry, this`measured
      ensures Valid() && phase == COLLECTING
      ensures Measures(old(telemetry), old(measured), e.output, telemetry, measured)
      ensures history == Redispatched(old(history)) + [EXECUTING] + [COLLECTING]
      ensures Taken(runId, decorate, old(Ledger()), executed, Ledger(), e)
      ensures e.wave == wave && e.waiting == waiting && e.issued == executed.issued
      ensures FailuresMatch(e, wave, failuresByTask)
    {
      failuresByTask, executed, e := TakeWave(wave, decorate, waiting);
      ghost var collected := Ledger();
      WaveIsRunning(runId, decorate, old(Ledger()), executed, wave);
      WaveIsJudged(executed, collected, wave, e);
      var summary := Summarize(wave, statuses, failuresByTask, waveSeq, e);
      summaries := summaries + [summary];
      assert Compared(executed, Ledger().(summaries := collected.summaries), wave, wave, e);
    }

    // One turn of the run: take the wave that is due and reconcile its failures.
    method RunWave(wave: Wave, decorate: Assignment -> Assignment, last: map<Id, string>, consecutive: map<Id, nat>,
                   ghost s: Setup, ghost log: Log)
      returns (staged: seq<TaskSpec>, last': map<Id, string>, consecutive': map<Id, nat>, block: Option<Block>,
               ghost e: Entry)
      requires Valid() && Between(s, log, Ledger(), last, consecutive) && NextWave(s, log) == Some(wave)
      requires s.retry == retry && s.runId == runId && s.decorate == decorate
      modifies this`phase, this`history, this`waveSeq, this`issued, this`statuses, this`runCounts, this`summaries,
               this`pending, this`failures, this`contradictions, this`completed, this`results, this`evidence,
               this`replaced,
               this`telemetry, this`measured
      ensures Valid() && IsHistory(history, |log| + 1)
      ensures Measures(old(telemetry), old(measured), e.output, telemetry, measured)
      ensures IsStep(s, log, e) && e.wave == wave && Recorded(s, log + [e], Ledger())
      ensures block.None? ==> staged == FailedTasks(wave, e) && Between(s, log + [e], Ledger(), last', consecutive')
      ensures block.Some? ==> BlockedBy(s, log + [e], block.value)
    {
      hide Recorded, Orderly, IsRun, GoodPlan, Unblocked, ReplacedMatches, CountersMatch, IsStep, BlockedBy,
           Reconciled, Taken, Measures, IsHistory, FailuresMatch, FailedTasks, Runs, LegalHistory, Redispatched, Queue,
           NextWave, LastEqual, Count;
      WaveIsDue(s, log, wave);
      HistoryGrows(history, |log|);
      var failuresByTask;
      ghost var before, executed := Ledger(), Ledger();
      failuresByTask, executed, e := TakeAndReportWave(wave, decorate, Queue(log));
      ghost var log', l := log + [e], Ledger();
      TurnIsTaken(s, log, e, before, executed, l, last, consecutive);
      staged, last', consecutive', block := Reconcile(wave, failuresByTask, last, consecutive, s, log');
      TurnEnds(s, log, e, before, l, Ledger(), last, consecutive, last', consecutive', staged, block);
    }

    method ResetState()
      modifies this`phase, this`history, this`nextTransition, this`pending, this`completed, this`statuses, this`results,
               this`evidence, this`failures, this`contradictions
      ensures phase == IDLE && history == [] && nextTransition == ""
      ensures pending == [] && completed == [] && statuses == map[] && results == map[]
      ensures evidence == [] && failures == [] && contradictions == []
    {
      phase, history, nextTransition := IDLE, [], "";
      pending, completed, statuses, results := [], [], map[], map[];
      evidence, failures, contradictions := [], [], [];
    }

    method ResetBookkeeping(runId: string)
      modifies this`runId, this`waveSeq, this`summaries, this`runCounts, this`replaced, this`issued, this`telemetry
      ensures telemetry == []
      ensures this.runId == runId && waveSeq == 0 && summaries == [] && runCounts == map[] && replaced == {}
    {
      this.runId, waveSeq, summaries, telemetry := runId, 0, [], [];
      runCounts, replaced, issued := map[], {}, map[];
    }

    // Every planned task is queued.
    method Enroll(plan: seq<Wave>)
      requires pending == [] && statuses == map[]
      modifies this`pending, this`statuses
      ensures pending == Unstarted(plan, 0) && AllQueued(statuses, IdsUpTo(plan, |plan|))
    {
      for i := 0 to |plan|
        invariant pending + Unstarted(plan, i) == Unstarted(plan, 0)
        invariant AllQueued(statuses, IdsUpTo(plan, i))
      {
        ghost var before := pending;
        EnrollWave(plan[i]);
        Regroup(before, TaskIds(plan[i]), Unstarted(plan, i + 1));
      }
      assert pending + [] == pending;
    }

    method EnrollWave(wave: Wave)
      modifies this`pending, this`statuses
      ensures pending == old(pending) + TaskIds(wave)
      ensures forall ids :: old(AllQueued(statuses, ids)) ==> AllQueued(statuses, ids + Ids(wave))
    {
      for j := 0 to |wave|
        invariant pending == old(pending) + TaskIds(wave)[..j]
        invariant forall id :: id in statuses <==> id in old(statuses) || id in Ids(wave[..j])
        invariant forall id :: id in statuses ==>
          statuses[id] == QUEUED || (id in old(statuses) && statuses[id] == old(statuses)[id])
      {
        OneMorePrefix(wave, j);
        assert TaskIds(wave)[..j + 1] == TaskIds(wave)[..j] + [wave[j].id];
        pending := pending + [wave[j].id];
        statuses := statuses[wave[j].id := QUEUED];
      }
      assert wave[..|wave|] == wave && TaskIds(wave)[..|wave|] == TaskIds(wave);
    }

    // The phases before the first wave.
    method EnterDispatching()
      requires Valid() && phase == IDLE
      modifies this`phase, this`history
      ensures Valid() && phase == DISPATCHING
      ensures history == old(history) + [INSPECTING] + [PLANNING] + [DISPATCHING]
    {
      hide LegalHistory, Current;
      Enter(INSPECTING);
      Enter(PLANNING);
      Enter(DISPATCHING);
    }

    method Start(plan: seq<Wave>, ghost s: Setup)
      requires Valid() && phase == IDLE && history == []
      requires IsBlank(Ledger()) && Planned(s) && s.plan == plan
      modifies this`pending, this`statuses, this`phase, this`history
      ensures Valid() && Going(s, [], Ledger(), [], 0, map[], map[])
    {
      hide Planned, Going, AllQueued, Unstarted, IdsUpTo, LegalHistory, Runs, Count;
      Enroll(plan);
      EnterDispatching();
      NothingDone(s, Ledger());
    }

    // One pass of the loop of `run`: the head of the follow-up queue if there is one,
    // otherwise the next planned wave.
    method Turn(plan: seq<Wave>, decorate: Assignment -> Assignment, followUps: seq<TaskSpec>, waveIndex: nat,
                last: map<Id, string>, consecutive: map<Id, nat>, ghost s: Setup, ghost log: Log,
                ghost m: Option<WaveRecord>)
      returns (followUps': seq<TaskSpec>, waveIndex': nat, last': map<Id, string>, consecutive': map<Id, nat>,
               block: Option<Block>, ghost log': Log)
      requires Valid() && Going(s, log, Ledger(), followUps, waveIndex, last, consecutive)
      requires followUps != [] || waveIndex < |plan|
      requires s.plan == plan && s.retry == retry && s.runId == runId && s.decorate == decorate
      requires Telemetered(m, log)
      modifies this`phase, this`history, this`waveSeq, this`issued, this`statuses, this`runCounts, this`summaries,
               this`pending, this`failures, this`contradictions, this`completed, this`results, this`evidence,
               this`replaced,
               this`telemetry, this`measured
      ensures Valid() && phase == COLLECTING && |log'| == |log| + 1 <= WaveBudget(s)
      ensures Telemetered(m, log')
      ensures block.None? ==> Going(s, log', Ledger(), followUps', waveIndex', last', consecutive')
      ensures block.Some? ==> LoopEnded(s, log', Ledger(), "", block)
    {
      hide Recorded, Orderly, IsRun, GoodPlan, Unblocked, ReplacedMatches, CountersMatch, IsStep, BlockedBy, Planned,
           LegalHistory, IsHistory, Queue, PlannedCount, FailedTasks, WaveBudget, MeasuredAfter, TelemetryBy;
      followUps', waveIndex' := followUps, waveIndex;
      var wave: Wave;
      if followUps != [] {
        wave := [followUps[0]];
        followUps' := followUps[1..];
      } else {
        wave := plan[waveIndex];
        waveIndex' := waveIndex + 1;
      }
      var staged;
      ghost var e;
      staged, last', consecutive', block, e := RunWave(wave, decorate, last, consecutive, s, log);
      log' := log + [e];
      TelemetryExtends(m, log, e);
      LogGrows(s, log, e);
      QueueGrows(s, log, e);
      HistoryGrows(history, |log| + 1);
      followUps' := followUps' + staged;
    }

    method Complete(ghost s: Setup, ghost log: Log, ghost last: map<Id, string>, ghost consecutive: map<Id, nat>,
                    ghost followUps: seq<TaskSpec>, ghost waveIndex: nat)
      requires Valid() && phase == COLLECTING && Going(s, log, Ledger(), followUps, waveIndex, last, consecutive)
      requires log != [] && followUps == [] && waveIndex >= |s.plan|
      modifies this`phase, this`history, this`nextTransition
      ensures Valid() && LoopEnded(s, log, Ledger(), nextTransition, None)
    {
      hide LegalHistory, Going, LoopEnded;
      ghost var before := Ledger();
      Enter(COMPLETED);
      nextTransition := "COMPLETED";
      Completes(s, log, before, Ledger(), last, consecutive, followUps, waveIndex);
    }

    // The loop of `run`. A block is reported by the caller.
    method RunWaves(plan: seq<Wave>, decorate: Assignment -> Assignment, ghost s: Setup, ghost m: Option<WaveRecord>)
      returns (ghost log: Log, block: Option<Block>)
      requires Valid() && Going(s, [], Ledger(), [], 0, map[], map[]) && nextTransition == ""
      requires s.plan == plan && s.retry == retry && s.runId == runId && s.decorate == decorate
      requires Telemetered(m, [])
      modifies this`phase, this`history, this`waveSeq, this`issued, this`statuses, this`runCounts, this`summaries,
               this`pending, this`failures, this`contradictions, this`completed, this`results, this`evidence,
               this`replaced,
               this`telemetry, this`measured, this`nextTransition
      ensures Telemetered(m, log)
      ensures Valid() && LoopEnded(s, log, Ledger(), nextTransition, block)
      ensures block.Some? ==> phase == COLLECTING && nextTransition == ""
    {
      hide LegalHistory, WaveBudget, Going, LoopEnded, MeasuredAfter, TelemetryBy, Telemetered;
      var followUps: seq<TaskSpec>, waveIndex: nat := [], 0;
      var last: map<Id, string>, consecutive: map<Id, nat> := map[], map[];
      block := None;
      log := [];
      while true
        invariant Valid() && Going(s, log, Ledger(), followUps, waveIndex, last, consecutive)
        invariant block.None? && nextTransition == ""
        invariant Telemetered(m, log)
        invariant followUps == [] && waveIndex >= |plan| ==> log == []
        decreases WaveBudget(s) - |log|
      {
        if followUps == [] && waveIndex >= |plan| {
          NothingDue(s, log, Ledger(), followUps, waveIndex, last, consecutive, nextTransition);
          return;
        }
        followUps, waveIndex, last, consecutive, block, log :=
          Turn(plan, decorate, followUps, waveIndex, last, consecutive, s, log, m);
        if block.Some? {
          return;
        }
        if waveIndex >= |plan| && followUps == [] {
          Complete(s, log, last, consecutive, followUps, waveIndex);
          return;
        }
      }
    }

    function BuildReport(completed: bool): (r: Report)
      reads this
      ensures r == ReportOf(Ledger(), completed, nextTransition)
    {
      Report(completed, history, summaries, contradictions, failures, evidence, nextTransition)
    }

    method RunPlan(plan: seq<Wave>, decorate: Assignment -> Assignment, ghost s: Setup, ghost m: Option<WaveRecord>)
      returns (outcome: Outcome, ghost log: Log)
      requires Valid() && Going(s, [], Ledger(), [], 0, map[], map[]) && nextTransition == ""
      requires s.plan == plan && s.retry == retry && s.runId == runId && s.decorate == decorate
      requires Telemetered(m, [])
      modifies this`phase, this`history, this`waveSeq, this`issued, this`statuses, this`runCounts, this`summaries,
               this`pending, this`failures, this`contradictions, this`completed, this`results, this`evidence,
               this`replaced,
               this`telemetry, this`measured, this`nextTransition
      ensures Telemetered(m, log)
      ensures Valid() && Ended(s, log, Ledger(), nextTransition, outcome)
    {
      hide LoopEnded, LegalHistory, Going, Ended, MeasuredAfter, TelemetryBy;
      var block;
      log, block := RunWaves(plan, decorate, s, m);
      if block.None? {
        outcome := Returned(BuildReport(true));
        EndsReturned(s, log, Ledger(), nextTransition);
        return;
      }
      Stop(s, log, block.value);
      outcome := OrchestrationBlocked(BuildReport(false));
    }

    method Stop(ghost s: Setup, ghost log: Log, block: Block)
      requires Valid() && phase == COLLECTING && LoopEnded(s, log, Ledger(), "", Some(block))
      modifies this`phase, this`history, this`nextTransition
      ensures Valid()
      ensures Ended(s, log, Ledger(), nextTransition, OrchestrationBlocked(ReportOf(Ledger(), false, nextTransition)))
    {
      hide LoopEnded, LegalHistory, Ended;
      ghost var before := Ledger();
      nextTransition := if block.mismatch then "HUMAN_REVIEW" else "BLOCKED";
      Enter(Phase.BLOCKED);
      EndsBlocked(s, log, before, Ledger(), block, nextTransition);
    }

    // The run: whatever the agents answer, it ends, and it ends lawfully.
    method Run(graph: TaskGraph, decorate: Assignment -> Assignment, runId: string)
      returns (outcome: Outcome, ghost s: Setup, ghost log: Log)
      requires graph.Valid()
      modifies this
      ensures Valid()
      ensures s == SetupFor(graph.tasks, graph.order, cap, retry, runId, decorate)
      ensures match Plan(graph.tasks, graph.order, {}, Some(cap))
              case Err(error) => outcome == NotPlanned(error) && phase == IDLE
              case Ok(plan) => Planned(s) && Ended(s, log, Ledger(), nextTransition, outcome)
      ensures Telemetered(old(measured), log)
    {
      hide Going, Ended, Plan;
      ResetState();
      ResetBookkeeping(runId);
      s := SetupFor(graph.tasks, graph.order, cap, retry, runId, decorate);
      log := [];
      var planned := graph.Waves({}, Some(cap));
      if planned.Err? {
        outcome := NotPlanned(planned.error);
        return;
      }
      Start(planned.value, s);
      outcome, log := RunPlan(planned.value, decorate, s, measured);
    }
  }

  ghost function SetupFor(tasks: Tasks, order: seq<Id>, cap: int, retry: RetryPolicy, runId: string,
                          decorate: Assignment -> Assignment): Setup
    requires Keyed(tasks) && Enumerates(order, tasks)
  {
    var p := Plan(tasks, order, {}, Some(cap));
    Setup(tasks, order, if p.Ok? then p.value else [], cap, retry, runId, decorate)
  }

  // The run is still going, with these follow-ups queued and this wave of the plan next.
  ghost predicate Going(s: Setup, log: Log, l: RunLedger.Ledger, followUps: seq<TaskSpec>, waveIndex: nat,
                        last: map<Id, string>, consecutive: map<Id, nat>) {
    && Planned(s) && Between(s, log, l, last, consecutive)
    && followUps == Queue(log) && waveIndex == PlannedCount(log)
  }

  // The loop is over: a failure blocks the run, or nothing is left to do.
  ghost predicate LoopEnded(s: Setup, log: Log, l: RunLedger.Ledger, next: string, block: Option<Block>) {
    && IsRun(s, log) && Recorded(s, log, l)
    && match block
       case None => Finished(s, log, l.history, next)
       case Some(b) => BlockedBy(s, log, b) && IsHistory(l.history, |log|) && next == ""
  }

  lemma EndsReturned(s: Setup, log: Log, l: RunLedger.Ledger, next: string)
    requires LoopEnded(s, log, l, next, None)
    ensures Ended(s, log, l, next, Returned(ReportOf(l, true, next)))
  {}

  lemma EndsBlocked(s: Setup, log: Log, l: RunLedger.Ledger, l': RunLedger.Ledger, b: Block, next: string)
    requires LoopEnded(s, log, l, "", Some(b))
    requires l' == l.(phase := Phase.BLOCKED, history := l.history + [Phase.BLOCKED])
    requires next == if b.mismatch then "HUMAN_REVIEW" else "BLOCKED"
    ensures Ended(s, log, l', next, OrchestrationBlocked(ReportOf(l', false, next)))
  {
    HistoryCloses(l.history, |log|, Phase.BLOCKED);
    RecordIgnores(s, log, l, l');
  }

  lemma NothingDue(s: Setup, log: Log, l: RunLedger.Ledger, followUps: seq<TaskSpec>, waveIndex: nat,
                   last: map<Id, string>, consecutive: map<Id, nat>, next: string)
    requires Going(s, log, l, followUps, waveIndex, last, consecutive)
    requires followUps == [] && waveIndex >= |s.plan| && log == [] && next == ""
    ensures LoopEnded(s, log, l, next, None)
  {}

  lemma Completes(s: Setup, log: Log, l: RunLedger.Ledger, l': RunLedger.Ledger, last: map<Id, string>,
                  consecutive: map<Id, nat>, followUps: seq<TaskSpec>, waveIndex: nat)
    requires Going(s, log, l, followUps, waveIndex, last, consecutive) && log != []
    requires followUps == [] && waveIndex >= |s.plan|
    requires l' == l.(phase := COMPLETED, history := l.history + [COMPLETED])
    ensures LoopEnded(s, log, l', "COMPLETED", None)
  {
    HistoryCloses(l.history, |log|, COMPLETED);
    RecordIgnores(s, log, l, l');
  }

  // Nothing is left to do. Only a run that executed a wave says so in its phase.
  ghost predicate Finished(s: Setup, log: Log, history: seq<Phase>, next: string) {
    && Unblocked(s, log) && NextWave(s, log) == None
    && (if log == [] then IsHistory(history, 0) && next == ""
        else HistoryEnds(history, |log|, COMPLETED) && next == "COMPLETED")
  }

  ghost predicate HistoryEnds(h: seq<Phase>, n: nat, p: Phase) {
    h != [] && h[|h| - 1] == p && IsHistory(h[..|h| - 1], n)
  }

  function ReportOf(l: RunLedger.Ledger, completed: bool, next: string): Report {
    Report(completed, l.history, l.summaries, l.contradictions, l.failures, l.evidence, next)
  }

  // How a planned run can end: everything done, or stopped by a failure without remedy.
  ghost predicate Ended(s: Setup, log: Log, l: RunLedger.Ledger, next: string, o: Outcome) {
    && IsRun(s, log) && Recorded(s, log, l)
    && match o
       case NotPlanned(_) => false
       case Returned(r) => Finished(s, log, l.history, next) && r == ReportOf(l, true, next)
       case OrchestrationBlocked(r) =>
         && HistoryEnds(l.history, |log|, Phase.BLOCKED) && r == ReportOf(l, false, next)
         && exists b :: BlockedBy(s, log, b) && next == if b.mismatch then "HUMAN_REVIEW" else "BLOCKED"
  }

  function WaveBudget(s: Setup): nat { |s.plan| + (MaxRuns(s) - 1) * |s.tasks| }

  lemma LogGrows(s: Setup, log: Log, e: Entry)
    requires Planned(s) && IsRun(s, log) && IsStep(s, log, e)
    ensures IsRun(s, log + [e]) && |log| + 1 <= WaveBudget(s)
  {
    hide Planned, IsStep;
    assert Before(log + [e]) == log && Last(log + [e]) == e;
    assert IsRun(s, log + [e]);
    WavesBounded(s, log + [e]);
  }

  lemma QueueGrows(s: Setup, log: Log, e: Entry)
    requires IsStep(s, log, e)
    ensures Queue(log + [e]) == (if Queue(log) == [] then [] else Queue(log)[1..]) + FailedTasks(e.wave, e)
    ensures PlannedCount(log + [e]) == PlannedCount(log) + if Queue(log) == [] then 1 else 0
  {
    Unfold(s, log, e, "");
  }

  lemma HistoryCloses(h: seq<Phase>, n: nat, p: Phase)
    requires IsHistory(h, n)
    ensures HistoryEnds(h + [p], n, p)
  {
    assert (h + [p])[..|h + [p]| - 1] == h;
  }

  ghost predicate AllQueued(statuses: map<Id, Status>, ids: set<Id>) {
    && (forall id :: id in statuses <==> id in ids)
    && forall id :: id in statuses ==> statuses[id] == QUEUED
  }

  lemma Regroup(a: seq<Id>, b: seq<Id>, c: seq<Id>)
    ensures a + b + c == a + (b + c)
  {}

  ghost predicate IsBlank(l: RunLedger.Ledger) {
    && l.pending == [] && l.completed == [] && l.statuses == map[] && l.results == map[] && l.evidence == []
    && l.failures == [] && l.contradictions == [] && l.waveSeq == 0 && l.summaries == []
    && l.runCounts == map[] && l.replaced == {}
  }

  lemma NothingDone(s: Setup, l: Ledger)
    requires Planned(s) && l.phase == DISPATCHING && l.history == [] + [INSPECTING] + [PLANNING] + [DISPATCHING]
    requires IsBlank(l.(pending := [], statuses := map[])) && l.pending == Unstarted(s.plan, 0)
    requires AllQueued(l.statuses, IdsUpTo(s.plan, |s.plan|))
    ensures Going(s, [], l, [], 0, map[], map[])
  {
    PlannedIsGood(s);
    NothingStarted(s);
    forall id ensures TaskRecorded(s, [], l, id) {}
  }

  // A wave executed, collected and reported.
  ghost predicate Taken(runId: string, decorate: Assignment -> Assignment, before: RunLedger.Ledger,
                        executed: RunLedger.Ledger, after: RunLedger.Ledger, e: Entry) {
    && Executed(runId, decorate, before, executed, e.wave)
    && Compared(executed, after.(summaries := executed.summaries), e.wave, e.wave, e)
    && after.summaries == executed.summaries + [SummaryOf(after.waveSeq, e)]
  }

  lemma SummaryStep(w: Wave, e: Entry, t: TaskSpec)
    ensures Describe(FailuresIn(w + [t], e)) == Describe(FailuresIn(w, e))
      + match e.Verdict(t.id) case Failed(f, _) => [f.classification + ": " + f.summary] case _ => []
    ensures AllAccepted(w + [t], e) <==> AllAccepted(w, e) && e.Verdict(t.id).Accepted?
  {
    ListsExtend(w, e, t);
    DescribeAdds(FailuresIn(w, e), e.Verdict(t.id));
    assert forall u :: u in w + [t] <==> u in w || u == t;
  }

  lemma DescribeAdds(fs: seq<Failure>, v: Verdict)
    ensures Describe(fs + if v.Failed? then [v.failure] else [])
      == Describe(fs) + match v case Failed(f, _) => [f.classification + ": " + f.summary] case _ => []
  {}

  // Replacement and counter of one task agree with the log.
  ghost predicate TaskReconciled(s: Setup, log: Log, replaced: set<Id>, last: map<Id, string>,
                                 consecutive: map<Id, nat>, id: Id) {
    && (id in replaced <==> ReplacedIn(s, log, id))
    && CounterOf(last, consecutive, id) == CounterAfter(SignaturesIn(s, log, id))
  }

  // Halfway through a wave: the tasks seen so far are up to date with it, the others with
  // the waves before.
  ghost predicate TaskAt(s: Setup, log: Log, w: Wave, replaced: set<Id>, last: map<Id, string>,
                         consecutive: map<Id, nat>, id: Id)
    requires log != []
  {
    TaskReconciled(s, if id in Ids(w) then log else Before(log), replaced, last, consecutive, id)
  }

  ghost predicate Reconciled(s: Setup, log: Log, w: Wave, replaced: set<Id>, last: map<Id, string>,
                             consecutive: map<Id, nat>, staged: seq<TaskSpec>)
    requires log != []
  {
    && staged == FailedTasks(w, Last(log))
    && (forall id :: id in Ids(w) ==> !Blocks(s, log, id))
    && forall id :: TaskAt(s, log, w, replaced, last, consecutive, id)
  }

  ghost predicate Stepped(id: Id, last: map<Id, string>, consecutive: map<Id, nat>, last': map<Id, string>,
                          consecutive': map<Id, nat>) {
    forall other :: other != id ==> CounterOf(last', consecutive', other) == CounterOf(last, consecutive, other)
  }

  lemma CounterMoves(last: map<Id, string>, consecutive: map<Id, nat>, id: Id, signature: string, n: nat)
    requires n == Observe(CounterOf(last, consecutive, id), signature).count
    ensures CounterOf(last[id := signature], consecutive[id := n], id)
       == Observe(CounterOf(last, consecutive, id), signature)
    ensures Stepped(id, last, consecutive, last[id := signature], consecutive[id := n])
  {}

  lemma NothingStepped(id: Id, last: map<Id, string>, consecutive: map<Id, nat>)
    ensures Stepped(id, last, consecutive, last, consecutive)
  {}

  lemma CounterSteps(s: Setup, log: Log, last: map<Id, string>, consecutive: map<Id, nat>, id: Id)
    requires log != [] && Last(log).Fails(id)
    requires CounterOf(last, consecutive, id) == CounterAfter(SignaturesIn(s, Before(log), id))
    ensures var c := Observe(CounterOf(last, consecutive, id), s.retry.signature(Last(log).Verdict(id).failure));
      && c == CounterAfter(SignaturesIn(s, log, id))
      && (c.count >= s.retry.noProgressThreshold <==> RemedyFor(s, log, id) == NO_PROGRESS)
  {
    var h := SignaturesIn(s, log, id);
    assert h[..|h| - 1] == SignaturesIn(s, Before(log), id);
    CounterImplementsRule(h, s.retry.noProgressThreshold);
  }

  // What the remedy for a failure means for the block and for the replacement.
  lemma RemedyIs(s: Setup, log: Log, id: Id)
    requires log != [] && Last(log).Fails(id)
    ensures Blocks(s, log, id) <==> RemedyFor(s, log, id) == NO_PROGRESS || RemedyFor(s, log, id) == EXHAUSTED
    ensures RemedyFor(s, log, id) != NO_PROGRESS ==>
      RemedyFor(s, log, id) == if Runs(log, id) <= s.retry.maxRetries then RETRY
                               else if s.retry.allowReplacement && !ReplacedIn(s, Before(log), id) then REPLACE
                               else EXHAUSTED
    ensures ReplacedIn(s, log, id) <==> ReplacedIn(s, Before(log), id) || Runs(log, id) > s.retry.maxRetries
  {}

  // A task that did not fail in the last wave has nothing to reconcile.
  lemma QuietTask(s: Setup, log: Log, replaced: set<Id>, last: map<Id, string>, consecutive: map<Id, nat>, id: Id)
    requires log != [] && !Last(log).Fails(id)
    ensures TaskReconciled(s, Before(log), replaced, last, consecutive, id)
        <==> TaskReconciled(s, log, replaced, last, consecutive, id)
  {
    assert SignaturesIn(s, Before(log), id) + [] == SignaturesIn(s, Before(log), id);
  }

  lemma NotYetReconciled(s: Setup, log: Log, i: nat, replaced: set<Id>, last: map<Id, string>,
                         consecutive: map<Id, nat>, staged: seq<TaskSpec>)
    requires log != [] && i < |Last(log).wave| && DistinctIds(Last(log).wave)
    requires Reconciled(s, log, Last(log).wave[..i], replaced, last, consecutive, staged)
    ensures TaskReconciled(s, Before(log), replaced, last, consecutive, Last(log).wave[i].id)
  {
    var w := Last(log).wave;
    OneMorePrefix(w, i);
    assert TaskAt(s, log, w[..i], replaced, last, consecutive, w[i].id);
  }

  lemma FirstBlock(s: Setup, log: Log, i: nat, replaced: set<Id>, last: map<Id, string>, consecutive: map<Id, nat>,
                   staged: seq<TaskSpec>, b: Block)
    requires log != [] && i < |Last(log).wave| && b.task == Last(log).wave[i].id && JustBlocked(s, log, b)
    requires Reconciled(s, log, Last(log).wave[..i], replaced, last, consecutive, staged)
    ensures BlockedBy(s, log, b)
  {
    assert UnblockedUpTo(s, log, i);
  }

  // Before and after one task of the wave.
  lemma ReconcileStep(s: Setup, log: Log, w: Wave, t: TaskSpec, r0: set<Id>, l0: map<Id, string>, c0: map<Id, nat>,
                      staged: seq<TaskSpec>, r1: set<Id>, l1: map<Id, string>, c1: map<Id, nat>)
    requires log != [] && DistinctIds(w + [t]) && t.id in Ids(Last(log).wave)
    requires Reconciled(s, log, w, r0, l0, c0, staged)
    requires Stepped(t.id, l0, c0, l1, c1) && forall other :: other != t.id ==> (other in r1 <==> other in r0)
    requires if Last(log).Fails(t.id) then !Blocks(s, log, t.id) && TaskReconciled(s, log, r1, l1, c1, t.id)
             else l1 == l0 && c1 == c0 && r1 == r0
    ensures Last(log).Fails(t.id) ==> Reconciled(s, log, w + [t], r1, l1, c1, staged + [t])
    ensures !Last(log).Fails(t.id) ==> Reconciled(s, log, w + [t], r1, l1, c1, staged)
  {
    OneMore(w, t);
    ListsExtend(w, Last(log), t);
    forall id ensures TaskAt(s, log, w + [t], r1, l1, c1, id) {
      assert TaskAt(s, log, w, r0, l0, c0, id);
      if id == t.id && !Last(log).Fails(id) { QuietTask(s, log, r0, l0, c0, id); }
    }
  }

  lemma WaveIsRunning(runId: string, decorate: Assignment -> Assignment, b: Ledger, a: Ledger, w: Wave)
    requires Executed(runId, decorate, b, a, w)
    ensures forall t :: t in w ==> t.id in a.statuses && a.statuses[t.id] == RUNNING
    ensures Judgeable(a.statuses, w) == w
  {
    forall t | t in w ensures t.id in a.statuses && a.statuses[t.id] == RUNNING {
      assert t.id in Ids(w) && TaskExecuted(runId, decorate, b, a, w, t.id);
    }
    JudgeableAre(a.statuses, w);
  }

  lemma WaveIsDue(s: Setup, log: Log, w: Wave)
    requires GoodPlan(s) && Orderly(s, log) && NextWave(s, log) == Some(w)
    ensures DistinctIds(w)
  {
    NextIsLawful(s, log);
  }

  lemma WaveIsTaken(s: Setup, log: Log, e: Entry, l0: Ledger, l1: Ledger, l3: Ledger)
    requires GoodPlan(s) && Orderly(s, log) && Unblocked(s, log) && NextWave(s, log) == Some(e.wave)
    requires e.waiting == Queue(log) && e.issued == l1.issued
    requires Recorded(s, log, l0) && ReplacedMatches(s, log, l0.replaced)
    requires Taken(s.runId, s.decorate, l0, l1, l3, e)
    ensures IsStep(s, log, e) && l3.replaced == l0.replaced && Recorded(s, log + [e], l3)
  {
    IssuedAsDue(s, log, l0, l1, e.wave);
    WaveIsRecorded(s, log, e, l0, l1, l3.(summaries := l1.summaries), l3);
  }

  lemma WaveIsJudged(b: Ledger, a: Ledger, w: Wave, e: Entry)
    requires Compared(b, a, w, w, e) && forall t :: t in w ==> t.id in b.statuses
    ensures forall t :: t in w ==> t.id in a.statuses && a.statuses[t.id] == StatusAfter(e.Verdict(t.id))
  {
    var c := a.(contradictions := b.contradictions + MismatchesIn(w, e));
    forall t | t in w ensures t.id in a.statuses && a.statuses[t.id] == StatusAfter(e.Verdict(t.id)) {
      assert t.id in Ids(w) && TaskCollected(b, c, w, e, t.id);
    }
  }

  lemma ReadyToReconcile(s: Setup, log: Log, e: Entry, l: Ledger, last: map<Id, string>, consecutive: map<Id, nat>)
    requires ReplacedMatches(s, log, l.replaced) && CountersMatch(s, log, last, consecutive)
    requires Recorded(s, log + [e], l) && GoodPlan(s) && Orderly(s, log) && IsStep(s, log, e)
    ensures Last(log + [e]) == e && DistinctIds(e.wave)
    ensures forall id :: RunsOf(l.runCounts, id) == Runs(log + [e], id)
    ensures Reconciled(s, log + [e], [], l.replaced, last, consecutive, [])
  {
    NextIsLawful(s, log);
    assert Before(log + [e]) == log;
    forall id ensures RunsOf(l.runCounts, id) == Runs(log + [e], id) { assert TaskRecorded(s, log + [e], l, id); }
  }

  lemma RecordIgnores(s: Setup, log: Log, l: Ledger, l': Ledger)
    requires Recorded(s, log, l)
    requires l' == l.(replaced := l'.replaced, phase := l'.phase, history := l'.history)
    ensures Recorded(s, log, l')
  {
    forall id ensures TaskRecorded(s, log, l', id) { assert TaskRecorded(s, log, l, id); }
  }

  lemma AllReconciled(s: Setup, log: Log, w: Wave, replaced: set<Id>, last: map<Id, string>,
                      consecutive: map<Id, nat>, staged: seq<TaskSpec>)
    requires log != [] && w == Last(log).wave && Reconciled(s, log, w, replaced, last, consecutive, staged)
    ensures Unblocked(s, log) && ReplacedMatches(s, log, replaced) && CountersMatch(s, log, last, consecutive)
  {
    forall id
      ensures id in replaced <==> ReplacedIn(s, log, id)
      ensures CounterOf(last, consecutive, id) == CounterAfter(SignaturesIn(s, log, id))
    {
      assert TaskAt(s, log, w, replaced, last, consecutive, id);
      if id !in Ids(w) { QuietTask(s, log, replaced, last, consecutive, id); }
    }
  }

  lemma StillGoing(s: Setup, log: Log, e: Entry, l: Ledger, last: map<Id, string>, consecutive: map<Id, nat>,
                   staged: seq<TaskSpec>)
    requires GoodPlan(s) && IsRun(s, log) && Orderly(s, log) && IsStep(s, log, e)
    requires Reconciled(s, log + [e], e.wave, l.replaced, last, consecutive, staged)
    requires Recorded(s, log + [e], l) && IsHistory(l.history, |log| + 1) && l.phase == Current(l.history)
    ensures Between(s, log + [e], l, last, consecutive)
  {
    AllReconciled(s, log + [e], e.wave, l.replaced, last, consecutive, staged);
    OrderlyStep(s, log, e);
  }

  lemma TurnIsTaken(s: Setup, log: Log, e: Entry, l0: Ledger, l1: Ledger, l: Ledger, last: map<Id, string>,
                    consecutive: map<Id, nat>)
    requires Between(s, log, l0, last, consecutive) && NextWave(s, log) == Some(e.wave)
    requires e.waiting == Queue(log) && e.issued == l1.issued && Taken(s.runId, s.decorate, l0, l1, l, e)
    ensures IsStep(s, log, e) && Recorded(s, log + [e], l)
    ensures Last(log + [e]) == e && DistinctIds(e.wave)
    ensures forall id :: RunsOf(l.runCounts, id) == Runs(log + [e], id)
    ensures Reconciled(s, log + [e], [], l.replaced, last, consecutive, [])
  {
    WaveIsTaken(s, log, e, l0, l1, l);
    ReadyToReconcile(s, log, e, l, last, consecutive);
  }

  lemma TurnEnds(s: Setup, log: Log, e: Entry, l0: Ledger, l: Ledger, l': Ledger, last: map<Id, string>,
                 consecutive: map<Id, nat>, last': map<Id, string>, consecutive': map<Id, nat>, staged: seq<TaskSpec>,
                 block: Option<Block>)
    requires Between(s, log, l0, last, consecutive) && IsStep(s, log, e)
    requires Recorded(s, log + [e], l) && l' == l.(replaced := l'.replaced)
    requires IsHistory(l'.history, |log| + 1) && l'.phase == Current(l'.history)
    requires block.None? ==> Reconciled(s, log + [e], e.wave, l'.replaced, last', consecutive', staged)
    ensures Recorded(s, log + [e], l')
    ensures block.None? ==> staged == FailedTasks(e.wave, e) && Between(s, log + [e], l', last', consecutive')
  {
    RecordIgnores(s, log + [e], l, l');
    assert Last(log + [e]) == e;
    if block.None? { StillGoing(s, log, e, l', last', consecutive', staged); }
  }

  lemma OneMorePrefix(w: Wave, i: nat)
    requires i < |w|
    ensures w[..i + 1] == w[..i] + [w[i]]
    ensures Ids(w[..i + 1]) == Ids(w[..i]) + {w[i].id}
    ensures DistinctIds(w) ==> DistinctIds(w[..i + 1]) && w[i].id !in Ids(w[..i])
  {
    OneMore(w[..i], w[i]);
  }

  lemma NothingCollected(b: RunLedger.Ledger, e: Entry)
    ensures Judgeable(b.statuses, []) == [] && Collected(b, b, [], [], e) && FailuresMatch(e, [], map[])
  {
    forall id ensures TaskCollected(b, b, [], e, id) {}
  }

  lemma FailuresStep(statuses: map<Id, Status>, e: Entry, w: Wave, t: TaskSpec, m: map<Id, Failure>)
    requires FailuresMatch(e, Judgeable(statuses, w), m)
    ensures FailuresMatch(e, Judgeable(statuses, w + [t]),
                          if IsOpen(statuses, t.id) && e.Verdict(t.id).Failed? then m[t.id := e.Verdict(t.id).failure]
                          else m)
  {
    hide Judge, IsOpen, Judgeable;
    var v := Judgeable(statuses, w);
    JudgeableGrows(statuses, w, t);
    OneMore(v, t);
  }

  lemma JudgeableGrows(statuses: map<Id, Status>, w: Wave, t: TaskSpec)
    ensures Judgeable(statuses, w + [t])
         == if IsOpen(statuses, t.id) then Judgeable(statuses, w) + [t] else Judgeable(statuses, w)
  {
    hide IsOpen;
    OneMore(w, t);
  }

  // What a wave adds to the telemetry.
  predicate Measures(before: seq<WaveRecord>, m: Option<WaveRecord>, output: WaveOutput, after: seq<WaveRecord>,
                     m': Option<WaveRecord>) {
    m' == NextMeasured(m, output) && after == before + AsList(m')
  }

  ghost predicate FailuresMatch(e: Entry, w: Wave, failuresByTask: map<Id, Failure>) {
    && (forall id :: id in failuresByTask <==> id in Ids(w) && e.Verdict(id).Failed?)
    && forall id :: id in failuresByTask ==> failuresByTask[id] == e.Verdict(id).failure
  }
}
