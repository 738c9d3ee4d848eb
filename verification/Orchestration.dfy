/** A run of the orchestrator as a log of waves. What the agents answer is arbitrary; which
    wave comes next, what is retried and when the run stops follows from the log. */
module Orchestration {
  import opened Concurrency
  import opened Dependencies
  import opened NoProgress
  import opened Numbers
  import opened PlanBounds
  import opened Results
  import opened Text
  import opened WavePlan

  datatype Failure = Failure(classification: string, summary: string)

  datatype ResultStatus = SUCCEEDED | FAILED | BLOCKED

  datatype Evidence = Supplied(reference: string) | Derived(taskId: Id)

  // Times in integer microseconds. The claims are all that the result refers to, by its own
  // list and in its artifacts.
  datatype AgentResult = AgentResult(
    assignmentId: string, taskId: Id, status: ResultStatus, startedAt: int, finishedAt: int,
    claims: seq<string>, artifacts: map<string, string>,
    evidence: seq<Evidence>, failures: seq<Failure>, executionReferences: seq<string>,
    confidence: real, summary: string)

  datatype Assignment = Assignment(id: string, taskId: Id, wave: nat, agentId: string)

  // The engine may overrun the wave's budget, raise, or answer for any tasks it likes and
  // leave its measurements.
  datatype WaveOutput =
    | TimedOut
    | Crashed
    | Output(results: map<Id, AgentResult>, failures: map<Id, Failure>, measured: WaveRecord)

  datatype RetryPolicy = RetryPolicy(
    maxRetries: int, allowReplacement: bool, noProgressThreshold: int, signature: Failure -> string)

  // --- One result -------------------------------------------------------------------

  function ValidateResult(r: AgentResult): seq<string> {
    (match r.status
     case SUCCEEDED =>
       (if r.evidence == [] && r.executionReferences == [] then ["SUCCEEDED without evidence"] else [])
       + (if r.failures != [] then ["SUCCEEDED with failures"] else [])
     case FAILED => if r.failures == [] then ["FAILED without failure record"] else []
     case BLOCKED => [])
    + (if 0.0 <= r.confidence <= 1.0 then [] else ["confidence out of range"])
    + (if r.finishedAt < r.startedAt then ["finished_at before started_at"] else [])
  }

  // "No evidence, no success."
  ghost predicate IsEvidencedSuccess(r: AgentResult) {
    && r.status == SUCCEEDED && r.failures == []
    && (r.evidence != [] || r.executionReferences != [])
    && 0.0 <= r.confidence <= 1.0 && r.startedAt <= r.finishedAt
  }

  datatype Verdict = Accepted(result: AgentResult) | Failed(failure: Failure, mismatch: bool) | Stale

  const TIMEOUT := Failure("timeout", "wave exceeded per-agent timeout budget")
  const NO_RESULT := Failure("no_result", "no result produced for task")

  // Staleness is looked at first, then the status, then the evidence.
  function JudgeResult(r: AgentResult, issued: map<Id, Assignment>, id: Id): Verdict {
    if id !in issued || r.taskId != id || r.assignmentId != issued[id].id then Stale
    else if r.status != SUCCEEDED then
      Failed(if r.failures != [] then r.failures[0] else Failure("failed", r.summary), false)
    else
      var issues := ValidateResult(r);
      if issues != [] then Failed(Failure("mismatch", "result validation failed: " + issues[0]), true)
      else Accepted(r)
  }

  // What collecting a wave makes of one of its tasks.
  function Judge(out: WaveOutput, issued: map<Id, Assignment>, id: Id): Verdict {
    match out
    case TimedOut => Failed(TIMEOUT, false)
    case Crashed => Failed(NO_RESULT, false)
    case Output(results, failures, _) =>
      if id in results then JudgeResult(results[id], issued, id)
      else Failed(if id in failures then failures[id] else NO_RESULT, false)
  }

  // The answer is to the assignment issued for this task in this wave.
  ghost predicate IsCurrent(r: AgentResult, issued: map<Id, Assignment>, id: Id) {
    id in issued && r.taskId == id && r.assignmentId == issued[id].id
  }

  // What each verdict means: a success is a current, evidenced answer; a stale answer is
  // any other wave's or task's, whatever it claims; a mismatch is a current claim of
  // success without the evidence for it.
  lemma VerdictMeaning(out: WaveOutput, issued: map<Id, Assignment>, id: Id)
    ensures var v, answered := Judge(out, issued, id), out.Output? && id in out.results;
      && (v.Accepted? <==> answered && IsCurrent(out.results[id], issued, id) && IsEvidencedSuccess(out.results[id]))
      && (v.Accepted? ==> v.result == out.results[id])
      && (v.Stale? <==> answered && !IsCurrent(out.results[id], issued, id))
      && (v.Failed? && v.mismatch <==>
            answered && IsCurrent(out.results[id], issued, id)
            && out.results[id].status == SUCCEEDED && !IsEvidencedSuccess(out.results[id]))
  {}

  // --- The log -------------------------------------------------------------------------

  // One executed wave: the follow-ups that were waiting when it was chosen, the
  // assignments issued and what came back.
  datatype Entry = Entry(wave: Wave, waiting: seq<TaskSpec>, issued: map<Id, Assignment>, output: WaveOutput) {
    function Verdict(id: Id): Verdict { Judge(output, issued, id) }

    predicate Planned() { waiting == [] }

    predicate Fails(id: Id) { id in Ids(wave) && Verdict(id).Failed? }
  }

  type Log = seq<Entry>

  datatype Setup = Setup(
    tasks: Tasks, order: seq<Id>, plan: seq<Wave>, cap: int, retry: RetryPolicy, runId: string,
    decorate: Assignment -> Assignment)

  // `plan` is a plan of the whole graph.
  ghost predicate Planned(s: Setup) {
    && Keyed(s.tasks) && Enumerates(s.order, s.tasks)
    && Plan(s.tasks, s.order, {}, Some(s.cap)) == Ok(s.plan)
  }

  datatype Status = QUEUED | RUNNING | DONE | FAILURE | CANCELLED

  function StatusAfter(v: Verdict): Status {
    match v case Accepted(_) => DONE case Failed(_, _) => FAILURE case Stale => CANCELLED
  }

  predicate Settled(st: Status) { st == DONE || st == CANCELLED }

  function Last(log: Log): Entry requires log != [] { log[|log| - 1] }

  function Before(log: Log): Log requires log != [] { log[..|log| - 1] }

  // A task's status is the verdict of the last wave it took part in.
  function StatusIn(log: Log, id: Id): Status {
    if log == [] then QUEUED
    else if id in Ids(Last(log).wave) then StatusAfter(Last(log).Verdict(id))
    else StatusIn(Before(log), id)
  }

  function Runs(log: Log, id: Id): nat {
    if log == [] then 0 else Runs(Before(log), id) + if id in Ids(Last(log).wave) then 1 else 0
  }

  function PlannedCount(log: Log): nat {
    if log == [] then 0 else PlannedCount(Before(log)) + if Last(log).Planned() then 1 else 0
  }

  // The signatures of a task's failures, in order.
  function SignaturesIn(s: Setup, log: Log, id: Id): seq<string> {
    if log == [] then []
    else
      SignaturesIn(s, Before(log), id)
      + if Last(log).Fails(id) then [s.retry.signature(Last(log).Verdict(id).failure)] else []
  }

  function FailedTasks(w: Wave, e: Entry): seq<TaskSpec> {
    if w == [] then []
    else
      var t := w[|w| - 1];
      FailedTasks(w[..|w| - 1], e) + if e.Verdict(t.id).Failed? then [t] else []
  }

  // The follow-up queue: first in, first out.
  function Queue(log: Log): seq<TaskSpec> {
    if log == [] then []
    else
      var e := Last(log);
      (if e.Planned() then [] else e.waiting[1..]) + FailedTasks(e.wave, e)
  }

  function NextWave(s: Setup, log: Log): Option<Wave> {
    if Queue(log) != [] then Some([Queue(log)[0]])
    else if PlannedCount(log) < |s.plan| then Some(s.plan[PlannedCount(log)])
    else None
  }

  // A task gets a replacement agent once it has failed beyond its retries.
  predicate ReplacedIn(s: Setup, log: Log, id: Id) {
    log != [] && (ReplacedIn(s, Before(log), id) || (Last(log).Fails(id) && Runs(log, id) > s.retry.maxRetries))
  }

  datatype Remedy = RETRY | REPLACE | NO_PROGRESS | EXHAUSTED

  // What follows a failure in the last wave.
  ghost function RemedyFor(s: Setup, log: Log, id: Id): Remedy
    requires log != []
  {
    if LastEqual(SignaturesIn(s, log, id), AtLeastOne(s.retry.noProgressThreshold)) then NO_PROGRESS
    else if Runs(log, id) <= s.retry.maxRetries then RETRY
    else if s.retry.allowReplacement && !ReplacedIn(s, Before(log), id) then REPLACE
    else EXHAUSTED
  }

  ghost predicate Blocks(s: Setup, log: Log, id: Id)
    requires log != []
  {
    Last(log).Fails(id) && (RemedyFor(s, log, id) == NO_PROGRESS || RemedyFor(s, log, id) == EXHAUSTED)
  }

  ghost predicate Unblocked(s: Setup, log: Log) {
    log == [] || forall id :: id in Ids(Last(log).wave) ==> !Blocks(s, log, id)
  }

  function AssignmentFor(s: Setup, log: Log, id: Id): Assignment {
    Assignment(
      AssignmentId(s.runId, id, Runs(log, id)), id, |log| + 1,
      if ReplacedIn(s, log, id) then id + "-replacement1" else id + "-agent")
  }

  function AssignmentId(runId: string, id: Id, run: nat): string { runId + ":" + id + ":" + NatToString(run) }

  ghost predicate IssuedFor(s: Setup, log: Log, w: Wave, issued: map<Id, Assignment>) {
    && (forall id :: id in issued <==> id in Ids(w))
    && forall id :: id in issued ==> issued[id] == s.decorate(AssignmentFor(s, log, id))
  }

  // One more wave: the one due, with the queue as it stands and fresh assignments.
  ghost predicate IsStep(s: Setup, log: Log, e: Entry) {
    && Unblocked(s, log) && NextWave(s, log) == Some(e.wave)
    && e.waiting == Queue(log) && IssuedFor(s, log, e.wave, e.issued)
  }

  ghost predicate IsRun(s: Setup, log: Log) {
    log == [] || (IsRun(s, Before(log)) && IsStep(s, Before(log), Last(log)))
  }

  lemma SplitLast(log: Log)
    requires log != []
    ensures Before(log) + [Last(log)] == log
  {}

  // --- What holds between two waves ------------------------------------------------

  function Retries(s: Setup): nat { Max(0, s.retry.maxRetries) }

  function Limit(s: Setup, replaced: bool): nat { Retries(s) + 1 + if replaced then 1 else 0 }

  ghost predicate Started(s: Setup, log: Log, id: Id) {
    PlannedCount(log) <= |s.plan| && id in IdsUpTo(s.plan, PlannedCount(log))
  }

  // A started task is settled, or has failed and waits with a run left.
  ghost predicate TaskFits(s: Setup, started: bool, waits: bool, runs: nat, st: Status, replaced: bool) {
    if started then
      && 1 <= runs <= Limit(s, replaced)
      && (replaced ==> s.retry.allowReplacement && runs > s.retry.maxRetries)
      && (if waits then st == FAILURE && runs < Limit(s, replaced) else Settled(st))
    else
      runs == 0 && st == QUEUED && !replaced && !waits
  }

  ghost predicate Waits(log: Log, id: Id) { id in Ids(Queue(log)) }

  ghost predicate TaskOk(s: Setup, log: Log, id: Id) {
    TaskFits(s, Started(s, log, id), Waits(log, id), Runs(log, id), StatusIn(log, id), ReplacedIn(s, log, id))
  }

  ghost predicate QueueOk(s: Setup, log: Log) {
    && DistinctIds(Queue(log))
    && forall t :: t in Queue(log) ==> t.id in s.tasks && s.tasks[t.id] == t && Started(s, log, t.id)
  }

  ghost predicate DependenciesSettled(s: Setup, log: Log) {
    forall id, d :: Started(s, log, id) && DependsOn(s.tasks, id, d) ==> Settled(StatusIn(log, d))
  }

  ghost predicate Orderly(s: Setup, log: Log) {
    && PlannedCount(log) <= |s.plan| && QueueOk(s, log)
    && (forall id :: TaskOk(s, log, id))
    && DependenciesSettled(s, log)
  }

  lemma Unfold(s: Setup, log: Log, e: Entry, id: Id)
    ensures Before(log + [e]) == log && Last(log + [e]) == e
    ensures StatusIn(log + [e], id) == if id in Ids(e.wave) then StatusAfter(e.Verdict(id)) else StatusIn(log, id)
    ensures Runs(log + [e], id) == Runs(log, id) + if id in Ids(e.wave) then 1 else 0
    ensures PlannedCount(log + [e]) == PlannedCount(log) + if e.Planned() then 1 else 0
    ensures ReplacedIn(s, log + [e], id)
        <==> ReplacedIn(s, log, id) || (e.Fails(id) && Runs(log + [e], id) > s.retry.maxRetries)
    ensures Queue(log + [e]) == (if e.Planned() then [] else e.waiting[1..]) + FailedTasks(e.wave, e)
  {
    assert Before(log + [e]) == log;
  }

  lemma {:induction false} FailedTasksAre(w: Wave, e: Entry)
    ensures forall t :: t in FailedTasks(w, e) <==> t in w && e.Verdict(t.id).Failed?
    ensures DistinctIds(w) ==> DistinctIds(FailedTasks(w, e))
  {
    if w != [] {
      var v, t := w[..|w| - 1], w[|w| - 1];
      FailedTasksAre(v, e);
      assert w == v + [t];
      if DistinctIds(w) {
        DistinctParts(v, [t]);
        forall u | u in FailedTasks(v, e) ensures u.id != t.id {
          assert u.id in Ids(v) && t.id in Ids([t]);
        }
      }
    }
  }

  // The wave that comes next is lawful to start: distinct tasks, none of them settled,
  // every dependency settled, within the cap, SERIALIZED tasks alone.
  ghost predicate LawfulDispatch(s: Setup, log: Log, w: Wave) {
    && w != [] && DistinctIds(w) && |w| <= s.cap
    && (|w| > 1 ==> forall t :: t in w ==> !IsSerialized(t))
    && (forall t :: t in w ==> t.id in s.tasks && s.tasks[t.id] == t && !Settled(StatusIn(log, t.id)))
    && forall t, d :: t in w && d in t.dependsOn ==> Settled(StatusIn(log, d))
  }

  // What a run uses of its plan: wave by wave it is lawful, and it covers the graph.
  ghost predicate WaveFits(s: Setup, i: nat) {
    i < |s.plan| ==>
      LawfulWave(s.tasks, s.tasks.Keys - IdsUpTo(s.plan, i), IdsUpTo(s.plan, i), Some(s.cap), s.plan[i])
  }

  ghost predicate GoodPlan(s: Setup) {
    && Keyed(s.tasks) && s.cap >= 1
    && IdsUpTo(s.plan, |s.plan|) == s.tasks.Keys
    && forall i: nat :: WaveFits(s, i)
  }

  lemma PlannedIsGood(s: Setup)
    requires Planned(s)
    ensures GoodPlan(s)
  {
    PlanIsSchedule(s.tasks, s.order, {}, Some(s.cap));
    assert s.tasks.Keys - {} == s.tasks.Keys;
    ScheduleByPosition(s.tasks, s.tasks.Keys, {}, Some(s.cap), s.plan, |s.plan|);
    forall i: nat ensures WaveFits(s, i) {
      if i < |s.plan| {
        assert {} + IdsUpTo(s.plan, i) == IdsUpTo(s.plan, i);
        ScheduleByPosition(s.tasks, s.tasks.Keys, {}, Some(s.cap), s.plan, i);
      }
    }
  }

  lemma NextIsLawful(s: Setup, log: Log)
    requires GoodPlan(s) && Orderly(s, log) && NextWave(s, log).Some?
    ensures LawfulDispatch(s, log, NextWave(s, log).value)
  {
    var w := NextWave(s, log).value;
    var i := PlannedCount(log);
    if Queue(log) == [] {
      assert WaveFits(s, i);
      forall t | t in w ensures !Settled(StatusIn(log, t.id)) {
        assert TaskOk(s, log, t.id);
      }
      forall t, d | t in w && d in t.dependsOn ensures Settled(StatusIn(log, d)) {
        assert TaskOk(s, log, d);
      }
    } else {
      var t := Queue(log)[0];
      assert t in Queue(log) && t.id in Ids(Queue(log));
      assert TaskOk(s, log, t.id);
      forall d | d in t.dependsOn ensures Settled(StatusIn(log, d)) {
        assert DependsOn(s.tasks, t.id, d);
      }
    }
  }

  lemma OneMoreWave(plan: seq<Wave>, n: nat, id: Id)
    requires n < |plan|
    ensures id in IdsUpTo(plan, n + 1) <==> id in IdsUpTo(plan, n) || id in Ids(plan[n])
  {}

  lemma StartedAfter(s: Setup, log: Log, e: Entry, id: Id)
    requires IsStep(s, log, e)
    ensures PlannedCount(log + [e]) == PlannedCount(log) + if e.Planned() then 1 else 0
    ensures PlannedCount(log) <= |s.plan| ==> PlannedCount(log + [e]) <= |s.plan|
    ensures Started(s, log + [e], id) <==>
      Started(s, log, id) || (e.Planned() && PlannedCount(log) <= |s.plan| && id in Ids(e.wave))
  {
    Unfold(s, log, e, id);
    if e.Planned() { OneMoreWave(s.plan, PlannedCount(log), id); }
    hide Unblocked, IssuedFor, IdsUpTo, PlannedCount, Queue, StatusIn, Runs, ReplacedIn;
  }

  lemma WaitsAfter(s: Setup, log: Log, e: Entry, id: Id)
    requires IsStep(s, log, e) && QueueOk(s, log)
    ensures id in Ids(e.wave) ==> (Waits(log + [e], id) <==> e.Fails(id))
    ensures id !in Ids(e.wave) ==> (Waits(log + [e], id) <==> Waits(log, id))
  {
    Unfold(s, log, e, id);
    FailedTasksAre(e.wave, e);
    var q, f := Queue(log), FailedTasks(e.wave, e);
    assert id in Ids(f) <==> e.Fails(id);
    if q == [] {
      assert [] + f == f;
    } else {
      assert q == [q[0]] + q[1..];
      DistinctParts([q[0]], q[1..]);
      DistinctParts(q[1..], f);
      assert Ids([q[0]]) == {q[0].id};
    }
  }

  // One step, seen from one task: only a task of the wave changes, by its verdict.
  lemma TaskStep(s: Setup, log: Log, e: Entry, id: Id)
    requires GoodPlan(s) && Orderly(s, log) && IsStep(s, log, e) && Unblocked(s, log + [e])
    ensures TaskOk(s, log + [e], id)
  {
    Unfold(s, log, e, id);
    StartedAfter(s, log, e, id);
    WaitsAfter(s, log, e, id);
    if id in Ids(e.wave) { InWave(s, log, e, id); }
    assert TaskOk(s, log, id);
    if e.Fails(id) {
      assert !Blocks(s, log + [e], id);
      Remedied(s, log, e, id);
    }
  }

  // The tasks of a wave start with it, or wait at the head of the queue.
  lemma InWave(s: Setup, log: Log, e: Entry, id: Id)
    requires GoodPlan(s) && QueueOk(s, log) && PlannedCount(log) <= |s.plan| && IsStep(s, log, e) && id in Ids(e.wave)
    ensures e.Planned() ==> !Started(s, log, id)
    ensures !e.Planned() ==> Waits(log, id) && Started(s, log, id)
  {
    if e.Planned() {
      assert WaveFits(s, PlannedCount(log));
    } else {
      assert Queue(log)[0] in Queue(log);
    }
  }

  // A failure that does not block leaves a run: a retry, or the one replacement.
  lemma Remedied(s: Setup, log: Log, e: Entry, id: Id)
    requires e.Fails(id) && !Blocks(s, log + [e], id)
    ensures Runs(log + [e], id) <= s.retry.maxRetries || (s.retry.allowReplacement && !ReplacedIn(s, log, id))
  {
    Unfold(s, log, e, id);
  }

  lemma PlannedKeepsQueue(s: Setup, log: Log, e: Entry)
    requires GoodPlan(s) && Orderly(s, log) && IsStep(s, log, e) && Queue(log) == []
    ensures QueueOk(s, log + [e]) && PlannedCount(log + [e]) <= |s.plan|
  {
    Unfold(s, log, e, "");
    NextIsLawful(s, log);
    FailedTasksAre(e.wave, e);
    forall t | t in e.wave ensures Started(s, log + [e], t.id) { StartedAfter(s, log, e, t.id); }
  }

  // The head of a queue leaves it, or goes to its end.
  lemma HeadMoves(q: seq<TaskSpec>, f: seq<TaskSpec>)
    requires q != [] && DistinctIds(q) && (f == [] || f == [q[0]])
    ensures DistinctIds(q[1..] + f) && forall t :: t in q[1..] + f ==> t in q
  {
    var r := q[1..] + f;
    forall i, j | 0 <= i < j < |r| ensures r[i].id != r[j].id {
      assert r[i] == q[i + 1];
      assert r[j] == if j < |q| - 1 then q[j + 1] else q[0];
    }
  }

  lemma OneFailedTask(t: TaskSpec, e: Entry)
    ensures FailedTasks([t], e) == [] || FailedTasks([t], e) == [t]
  {
    assert [t][..0] == [] && FailedTasks([], e) == [];
  }

  lemma FollowUpKeepsQueue(s: Setup, log: Log, e: Entry)
    requires QueueOk(s, log) && PlannedCount(log) <= |s.plan| && IsStep(s, log, e) && Queue(log) != []
    ensures QueueOk(s, log + [e]) && PlannedCount(log + [e]) <= |s.plan|
  {
    var q := Queue(log);
    Unfold(s, log, e, "");
    OneFailedTask(q[0], e);
    var f := FailedTasks(e.wave, e);
    HeadMoves(q, f);
    assert Queue(log + [e]) == q[1..] + f;
    hide Queue, FailedTasks, DistinctIds, IdsUpTo, PlannedCount, Runs, StatusIn, ReplacedIn;
    forall t | t in q[1..] + f ensures t.id in s.tasks && s.tasks[t.id] == t && Started(s, log + [e], t.id) {
      assert t in q;
    }
  }

  // Whatever a started task depends on is settled and takes no part in any later wave.
  lemma DependencyStaysSettled(s: Setup, log: Log, e: Entry, id: Id, d: Id)
    requires LawfulDispatch(s, log, e.wave) && DependenciesSettled(s, log)
    requires Started(s, log, id) || id in Ids(e.wave)
    requires DependsOn(s.tasks, id, d)
    ensures Settled(StatusIn(log + [e], d))
  {
    Unfold(s, log, e, d);
    if !Started(s, log, id) {
      var t :| t in e.wave && t.id == id;
      assert d in t.dependsOn;
    }
    assert Settled(StatusIn(log, d));
  }

  lemma StepKeepsDependencies(s: Setup, log: Log, e: Entry)
    requires GoodPlan(s) && Orderly(s, log) && IsStep(s, log, e)
    ensures DependenciesSettled(s, log + [e])
  {
    NextIsLawful(s, log);
    forall id ensures Started(s, log + [e], id) ==> Started(s, log, id) || id in Ids(e.wave) {
      StartedAfter(s, log, e, id);
    }
    forall id, d | Started(s, log + [e], id) && DependsOn(s.tasks, id, d) ensures Settled(StatusIn(log + [e], d)) {
      DependencyStaysSettled(s, log, e, id, d);
    }
  }

  lemma OrderlyStep(s: Setup, log: Log, e: Entry)
    requires GoodPlan(s) && Orderly(s, log) && IsStep(s, log, e) && Unblocked(s, log + [e])
    ensures Orderly(s, log + [e])
  {
    if Queue(log) == [] { PlannedKeepsQueue(s, log, e); } else { FollowUpKeepsQueue(s, log, e); }
    StepKeepsDependencies(s, log, e);
    forall id ensures TaskOk(s, log + [e], id) { TaskStep(s, log, e, id); }
  }

  lemma NothingStarted(s: Setup)
    ensures Orderly(s, [])
  {
    assert forall id :: !Started(s, [], id);
    forall id ensures TaskOk(s, [], id) {}
  }

  lemma {:induction false} RunIsOrderly(s: Setup, log: Log)
    requires GoodPlan(s) && IsRun(s, log) && Unblocked(s, log)
    ensures Orderly(s, log)
    decreases |log|
  {
    if log == [] {
      NothingStarted(s);
    } else {
      SplitLast(log);
      RunIsOrderly(s, Before(log));
      OrderlyStep(s, Before(log), Last(log));
    }
  }
}
