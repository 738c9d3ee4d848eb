/** What every run of the orchestrator guarantees, whatever the agents answer. */
module RunProperties {
  import opened Dependencies
  import opened NoProgress
  import opened Orchestration
  import opened PlanBounds
  import opened Results
  import opened Text
  import opened WavePlan

  lemma {:induction false} RunPrefix(s: Setup, log: Log, k: nat)
    requires IsRun(s, log) && k <= |log|
    ensures IsRun(s, log[..k])
    ensures k < |log| ==> IsStep(s, log[..k], log[k])
    decreases |log|
  {
    hide IsStep;
    if k == |log| {
      assert log[..k] == log;
    } else if k < |log| - 1 {
      RunPrefix(s, Before(log), k);
      assert Before(log)[..k] == log[..k];
    }
  }

  // --- Dispatch ---------------------------------------------------------------------

  // At every dispatch of every run: all dependencies are settled, nothing settled runs
  // again, no wave exceeds the cap, a SERIALIZED task is alone - on retries too - and a
  // planned wave starts, in plan order, only when no follow-up is waiting.
  lemma EveryDispatchIsLawful(s: Setup, log: Log, k: nat)
    requires Planned(s) && IsRun(s, log) && k < |log|
    ensures LawfulDispatch(s, log[..k], log[k].wave)
    ensures if Queue(log[..k]) != [] then log[k].wave == [Queue(log[..k])[0]]
            else PlannedCount(log[..k]) < |s.plan| && log[k].wave == s.plan[PlannedCount(log[..k])]
  {
    RunPrefix(s, log, k);
    PlannedIsGood(s);
    RunIsOrderly(s, log[..k]);
    NextIsLawful(s, log[..k]);
  }

  // --- How much a run can do ----------------------------------------------------------

  function MaxRuns(s: Setup): nat { Limit(s, s.retry.allowReplacement) }

  lemma OrderlyBefore(s: Setup, log: Log)
    requires Planned(s) && IsRun(s, log) && log != []
    ensures GoodPlan(s) && Orderly(s, Before(log)) && IsStep(s, Before(log), Last(log))
  {
    PlannedIsGood(s);
    RunIsOrderly(s, Before(log));
  }

  // With retry limit R >= 0 a task is dispatched at most R + 2 times, R + 1 without
  // replacement.
  lemma RunsBounded(s: Setup, log: Log, id: Id)
    requires Planned(s) && IsRun(s, log)
    ensures Runs(log, id) <= MaxRuns(s)
  {
    if log != [] {
      OrderlyBefore(s, log);
      assert TaskOk(s, Before(log), id);
      if id in Ids(Last(log).wave) { InWave(s, Before(log), Last(log), id); }
    }
  }

  // Dispatches beyond each task's first.
  function Repeats(log: Log, ids: seq<Id>): nat {
    if ids == [] then 0
    else Repeats(log, ids[..|ids| - 1]) + var n := Runs(log, ids[|ids| - 1]); if n > 1 then n - 1 else 0
  }

  lemma {:induction false} RepeatsUnchanged(log: Log, e: Entry, ids: seq<Id>)
    requires forall id :: id in ids && id in Ids(e.wave) ==> Runs(log, id) == 0
    ensures Repeats(log + [e], ids) == Repeats(log, ids)
  {
    assert Before(log + [e]) == log;
    if ids != [] { RepeatsUnchanged(log, e, ids[..|ids| - 1]); }
  }

  lemma {:induction false} RepeatsPlusOne(log: Log, e: Entry, ids: seq<Id>, id: Id)
    requires forall i, j :: 0 <= i < j < |ids| ==> ids[i] != ids[j]
    requires id in ids && Ids(e.wave) == {id} && Runs(log, id) >= 1
    ensures Repeats(log + [e], ids) == Repeats(log, ids) + 1
  {
    assert Before(log + [e]) == log;
    var front := ids[..|ids| - 1];
    if ids[|ids| - 1] == id {
      RepeatsUnchanged(log, e, front);
    } else {
      RepeatsPlusOne(log, e, front, id);
    }
  }

  lemma {:induction false} RepeatsBounded(log: Log, ids: seq<Id>, most: nat)
    requires forall id :: id in ids ==> Runs(log, id) <= most + 1
    ensures Repeats(log, ids) <= Room(most, |ids|)
  {
    if ids != [] { RepeatsBounded(log, ids[..|ids| - 1], most); }
  }

  lemma RepeatsStep(s: Setup, log: Log, e: Entry)
    requires GoodPlan(s) && Enumerates(s.order, s.tasks) && Orderly(s, log) && IsStep(s, log, e)
    ensures Repeats(log + [e], s.order) == Repeats(log, s.order) + if e.Planned() then 0 else 1
  {
    if e.Planned() {
      forall id | id in Ids(e.wave) ensures Runs(log, id) == 0 {
        InWave(s, log, e, id);
        assert TaskOk(s, log, id);
      }
      RepeatsUnchanged(log, e, s.order);
    } else {
      var id := e.waiting[0].id;
      assert e.waiting[0] in Queue(log) && id in Ids(e.wave);
      assert TaskOk(s, log, id);
      RepeatsPlusOne(log, e, s.order, id);
    }
  }

  // Every wave is planned or repeats one task.
  lemma {:induction false} WavesAreCounted(s: Setup, log: Log)
    requires Planned(s) && IsRun(s, log)
    ensures |log| == PlannedCount(log) + Repeats(log, s.order)
    ensures PlannedCount(log) <= |s.plan|
    decreases |log|
  {
    if log == [] {
      RepeatsBounded([], s.order, 0);
      RoomIsProduct(0, |s.order|);
    } else {
      WavesAreCounted(s, Before(log));
      OrderlyBefore(s, log);
      SplitLast(log);
      RepeatsStep(s, Before(log), Last(log));
    }
  }

  lemma {:induction false} OrderCounts(order: seq<Id>, keys: set<Id>)
    requires forall i, j :: 0 <= i < j < |order| ==> order[i] != order[j]
    requires forall k :: k in keys <==> k in order
    ensures |keys| == |order|
    decreases |order|
  {
    if order == [] {
      assert keys == {};
    } else {
      var last := order[|order| - 1];
      OrderCounts(order[..|order| - 1], keys - {last});
    }
  }

  lemma RepeatsInTotal(s: Setup, log: Log)
    requires Planned(s) && IsRun(s, log)
    ensures Repeats(log, s.order) <= (MaxRuns(s) - 1) * |s.tasks|
  {
    var most := MaxRuns(s) - 1;
    forall id | id in s.order ensures Runs(log, id) <= most + 1 { RunsBounded(s, log, id); }
    RepeatsBounded(log, s.order, most);
    OrderCounts(s.order, s.tasks.Keys);
    RoomIsProduct(most, |s.order|);
  }

  // A run of N tasks executes at most |plan| + N * (R + 1) waves, and one fewer per task
  // when replacement is off: every run ends.
  lemma WavesBounded(s: Setup, log: Log)
    requires Planned(s) && IsRun(s, log)
    ensures |log| <= |s.plan| + (MaxRuns(s) - 1) * |s.tasks|
  {
    WavesAreCounted(s, log);
    RepeatsInTotal(s, log);
  }

  // --- Every behaviour of the agents has its run -----------------------------------------

  ghost predicate Over(s: Setup, log: Log) { !Unblocked(s, log) || NextWave(s, log) == None }

  // What comes back from a wave may depend on everything before it in any way.
  ghost predicate Follows(answers: Log -> WaveOutput, log: Log) {
    forall k :: 0 <= k < |log| ==> log[k].output == answers(log[..k])
  }

  // A run that is not over goes on in one way for each outcome of its next wave.
  lemma OutcomeDecidesTheStep(s: Setup, log: Log, out: WaveOutput) returns (e: Entry)
    requires Unblocked(s, log) && NextWave(s, log).Some?
    ensures IsStep(s, log, e) && e.output == out
    ensures forall f :: IsStep(s, log, f) && f.output == out ==> f == e
  {
    hide Unblocked, NextWave, Queue, AssignmentFor;
    var w := NextWave(s, log).value;
    var issued := map id | id in Ids(w) :: s.decorate(AssignmentFor(s, log, id));
    e := Entry(w, Queue(log), issued, out);
    forall f | IsStep(s, log, f) && f.output == out ensures f == e {
      assert f.issued == issued;
    }
  }

  lemma StepOf(s: Setup, answers: Log -> WaveOutput, log: Log, n: nat)
    requires IsRun(s, log) && Follows(answers, log) && n < |log|
    ensures IsStep(s, log[..n], log[n]) && log[n].output == answers(log[..n])
    ensures Unblocked(s, log[..n]) && NextWave(s, log[..n]).Some?
    ensures log[..n + 1] == log[..n] + [log[n]]
  {
    hide IsRun, Unblocked, NextWave;
    RunPrefix(s, log, n);
  }

  lemma {:induction false} SameAnswersSameRun(s: Setup, answers: Log -> WaveOutput, a: Log, b: Log, k: nat)
    requires IsRun(s, a) && Follows(answers, a) && IsRun(s, b) && Follows(answers, b) && k <= |a| && k <= |b|
    ensures a[..k] == b[..k]
  {
    hide IsStep, IsRun, Follows, Unblocked, NextWave;
    if k > 0 {
      var n := k - 1;
      SameAnswersSameRun(s, answers, a, b, n);
      StepOf(s, answers, a, n);
      StepOf(s, answers, b, n);
      var e := OutcomeDecidesTheStep(s, a[..n], answers(a[..n]));
      assert a[n] == e == b[n];
    }
  }

  lemma RunExtends(s: Setup, answers: Log -> WaveOutput, log: Log, e: Entry)
    requires IsRun(s, log) && IsStep(s, log, e) && Follows(answers, log) && e.output == answers(log)
    ensures IsRun(s, log + [e]) && Follows(answers, log + [e])
  {
    hide IsStep;
    var more := log + [e];
    assert Before(more) == log;
    assert forall k :: 0 <= k < |log| ==> more[k] == log[k] && more[..k] == log[..k];
    assert more[..|log|] == log;
  }

  lemma RunContinues(s: Setup, answers: Log -> WaveOutput, log: Log) returns (run: Log)
    requires Planned(s) && IsRun(s, log) && Follows(answers, log)
    ensures IsRun(s, run) && Follows(answers, run) && Over(s, run)
    decreases |s.plan| + (MaxRuns(s) - 1) * |s.tasks| - |log|
  {
    hide Planned, IsRun, IsStep, Follows, Unblocked, NextWave;
    run := log;
    if !Over(s, log) {
      var e := OutcomeDecidesTheStep(s, log, answers(log));
      RunExtends(s, answers, log, e);
      WavesBounded(s, log + [e]);
      run := RunContinues(s, answers, log + [e]);
    }
  }

  // Whatever the agents answer, and whatever it depends on, there is a run of these answers
  // that ends, and there is only one: any other is an earlier stage of it.
  lemma EveryBehaviourHasItsRun(s: Setup, answers: Log -> WaveOutput) returns (run: Log)
    requires Planned(s)
    ensures IsRun(s, run) && Follows(answers, run) && Over(s, run)
    ensures forall log :: IsRun(s, log) && Follows(answers, log) ==> |log| <= |run| && log == run[..|log|]
  {
    run := RunContinues(s, answers, []);
    forall log | IsRun(s, log) && Follows(answers, log) ensures |log| <= |run| && log == run[..|log|] {
      if |log| > |run| {
        SameAnswersSameRun(s, answers, run, log, |run|);
        assert log[..|run|] == run;
        RunPrefix(s, log, |run|);
        assert false;
      } else {
        SameAnswersSameRun(s, answers, log, run, |log|);
        assert log[..|log|] == log;
      }
    }
  }

  // --- How a run ends ------------------------------------------------------------------

  // When nothing is left to do every wave of the plan has run and every task has succeeded
  // or been cancelled by a stale result; none is queued, running or failed.
  lemma FinishedRunSettlesAll(s: Setup, log: Log)
    requires Planned(s) && IsRun(s, log) && Unblocked(s, log) && NextWave(s, log) == None
    ensures forall id :: id in s.tasks ==> Settled(StatusIn(log, id))
    ensures PlannedCount(log) == |s.plan| && Queue(log) == []
  {
    PlannedIsGood(s);
    RunIsOrderly(s, log);
    forall id | id in s.tasks ensures Settled(StatusIn(log, id)) {
      assert TaskOk(s, log, id);
    }
  }

  lemma {:induction false} UnsettledRunsAllFailed(s: Setup, log: Log, id: Id)
    requires Planned(s) && IsRun(s, log) && !Settled(StatusIn(log, id))
    ensures |SignaturesIn(s, log, id)| == Runs(log, id)
    decreases |log|
  {
    if log != [] {
      if id in Ids(Last(log).wave) {
        OrderlyBefore(s, log);
        NextIsLawful(s, Before(log));
      }
      UnsettledRunsAllFailed(s, Before(log), id);
    }
  }

  lemma RunsBeforeFailure(s: Setup, log: Log, e: Entry, id: Id)
    requires GoodPlan(s) && Orderly(s, log) && IsStep(s, log, e) && e.Fails(id)
    ensures Runs(log + [e], id) <= Limit(s, ReplacedIn(s, log, id))
    ensures ReplacedIn(s, log, id) ==>
      s.retry.allowReplacement && Runs(log + [e], id) > 1 && Runs(log + [e], id) > s.retry.maxRetries + 1
  {
    Unfold(s, log, e, id);
    InWave(s, log, e, id);
    assert TaskOk(s, log, id);
  }

  lemma RemedyFromRuns(s: Setup, log: Log, id: Id)
    requires log != [] && Last(log).Fails(id)
    requires var replaced := ReplacedIn(s, Before(log), id);
      && Runs(log, id) <= Limit(s, replaced)
      && (replaced ==> s.retry.allowReplacement && Runs(log, id) > 1 && Runs(log, id) > s.retry.maxRetries + 1)
    requires Runs(log, id) >= 1
    ensures RemedyFor(s, log, id) == EXHAUSTED ==> Runs(log, id) == MaxRuns(s)
    ensures Runs(log, id) == MaxRuns(s) ==> Blocks(s, log, id)
  {}

  // A task is given up as exhausted exactly after its last allowed run, never earlier.
  lemma ExhaustedAfterLastRun(s: Setup, log: Log, id: Id)
    requires Planned(s) && IsRun(s, log) && log != [] && Last(log).Fails(id)
    ensures RemedyFor(s, log, id) == EXHAUSTED ==> Runs(log, id) == MaxRuns(s)
    ensures Runs(log, id) == MaxRuns(s) ==> Blocks(s, log, id)
  {
    OrderlyBefore(s, log);
    SplitLast(log);
    RunsBeforeFailure(s, Before(log), Last(log), id);
    RemedyFromRuns(s, log, id);
  }

  // The no-progress block needs `threshold` runs of the task, all failed: it is out of
  // reach when the threshold exceeds the allowed runs.
  lemma NoProgressNeedsRuns(s: Setup, log: Log, id: Id)
    requires Planned(s) && IsRun(s, log) && log != [] && Last(log).Fails(id)
    ensures RemedyFor(s, log, id) == NO_PROGRESS ==>
      AtLeastOne(s.retry.noProgressThreshold) <= Runs(log, id) <= MaxRuns(s)
    ensures |SignaturesIn(s, log, id)| == Runs(log, id)
  {
    UnsettledRunsAllFailed(s, log, id);
    RunsBounded(s, log, id);
  }

  // --- What is recorded -----------------------------------------------------------------

  function AcceptedIn(w: Wave, e: Entry): seq<Id> {
    if w == [] then []
    else AcceptedIn(w[..|w| - 1], e) + if e.Verdict(w[|w| - 1].id).Accepted? then [w[|w| - 1].id] else []
  }

  function EvidenceFor(r: AgentResult): seq<Evidence> {
    if r.evidence != [] then r.evidence else [Derived(r.taskId)]
  }

  function EvidenceIn(w: Wave, e: Entry): seq<Evidence> {
    if w == [] then []
    else
      var v := e.Verdict(w[|w| - 1].id);
      EvidenceIn(w[..|w| - 1], e) + if v.Accepted? then EvidenceFor(v.result) else []
  }

  function CompletedBy(log: Log): seq<Id> {
    if log == [] then [] else CompletedBy(Before(log)) + AcceptedIn(Last(log).wave, Last(log))
  }

  function EvidenceBy(log: Log): seq<Evidence> {
    if log == [] then [] else EvidenceBy(Before(log)) + EvidenceIn(Last(log).wave, Last(log))
  }

  lemma {:induction false} AcceptedAre(w: Wave, e: Entry)
    ensures forall id :: id in AcceptedIn(w, e) <==> id in Ids(w) && e.Verdict(id).Accepted?
    ensures DistinctIds(w) ==> Distinct(AcceptedIn(w, e))
    ensures |EvidenceIn(w, e)| >= |AcceptedIn(w, e)|
  {
    hide Judge, Distinct, DistinctIds;
    if w == [] {
      NoneDistinct();
    } else {
      var v, t := w[..|w| - 1], w[|w| - 1];
      AcceptedAre(v, e);
      assert w == v + [t];
      DistinctParts(v, [t]);
      assert Ids([t]) == {t.id};
      if DistinctIds(w) && e.Verdict(t.id).Accepted? {
        OneMoreDistinct(AcceptedIn(v, e), t.id);
      } else {
        assert AcceptedIn(v, e) + [] == AcceptedIn(v, e);
      }
    }
  }

  lemma NoneDistinct()
    ensures Distinct([])
  {}

  lemma OneMoreDistinct(ids: seq<Id>, id: Id)
    requires Distinct(ids) && id !in ids
    ensures Distinct(ids + [id])
  {}

  ghost predicate Distinct(ids: seq<Id>) { forall i, j :: 0 <= i < j < |ids| ==> ids[i] != ids[j] }

  lemma DistinctJoin(a: seq<Id>, b: seq<Id>)
    requires Distinct(a) && Distinct(b) && forall x :: x in a ==> x !in b
    ensures Distinct(a + b)
  {
    var c := a + b;
    forall i, j | 0 <= i < j < |c| ensures c[i] != c[j] {
      if i < |a| <= j { assert c[i] in a && c[j] in b; }
    }
  }

  ghost predicate CompletedMatches(log: Log) {
    && Distinct(CompletedBy(log))
    && (forall id :: id in CompletedBy(log) <==> StatusIn(log, id) == DONE)
    && |EvidenceBy(log)| >= |CompletedBy(log)|
  }

  lemma CompletedStep(s: Setup, log: Log, e: Entry)
    requires LawfulDispatch(s, log, e.wave) && CompletedMatches(log)
    ensures CompletedMatches(log + [e])
  {
    var a := AcceptedIn(e.wave, e);
    AcceptedAre(e.wave, e);
    assert Before(log + [e]) == log;
    forall id | id in Ids(e.wave) ensures id !in CompletedBy(log) {
      assert !Settled(StatusIn(log, id));
    }
    DistinctJoin(CompletedBy(log), a);
    forall id ensures id in CompletedBy(log + [e]) <==> StatusIn(log + [e], id) == DONE {
      Unfold(s, log, e, id);
    }
  }

  // The completed list names every succeeded task once and nothing else, and there is at
  // least as much evidence as success.
  lemma {:induction false} CompletedAreTheSucceeded(s: Setup, log: Log)
    requires Planned(s) && IsRun(s, log)
    ensures CompletedMatches(log)
    decreases |log|
  {
    if log != [] {
      CompletedAreTheSucceeded(s, Before(log));
      OrderlyBefore(s, log);
      NextIsLawful(s, Before(log));
      CompletedStep(s, Before(log), Last(log));
      SplitLast(log);
    }
  }

  // The wave in which a task last took part.
  function LastWave(log: Log, id: Id): Option<Entry> {
    if log == [] then None
    else if id in Ids(Last(log).wave) then Some(Last(log)) else LastWave(Before(log), id)
  }

  // A success rests on evidence that answers the assignment issued for the task in the
  // very wave that settled it.
  lemma {:induction false} SuccessIsEvidenced(log: Log, id: Id)
    requires StatusIn(log, id) == DONE
    ensures LastWave(log, id).Some?
    ensures var e := LastWave(log, id).value;
      && e.Verdict(id).Accepted? && id in e.issued && IsEvidencedSuccess(e.Verdict(id).result)
      && e.Verdict(id).result.taskId == id && e.Verdict(id).result.assignmentId == e.issued[id].id
    decreases |log|
  {
    if id in Ids(Last(log).wave) {
      VerdictMeaning(Last(log).output, Last(log).issued, id);
    } else {
      SuccessIsEvidenced(Before(log), id);
    }
  }

  // --- Stale answers ---------------------------------------------------------------------

  lemma AssignmentIdInjective(runId: string, a: Id, m: nat, b: Id, n: nat)
    requires AssignmentId(runId, a, m) == AssignmentId(runId, b, n)
    ensures a == b && m == n
  {
    var x, y := runId + ":" + a, runId + ":" + b;
    PrintIsNumeral(m);
    PrintIsNumeral(n);
    assert AssignmentId(runId, a, m) == x + [':'] + NatToString(m);
    assert AssignmentId(runId, b, n) == y + [':'] + NatToString(n);
    LastSplitUnique(x, NatToString(m), y, NatToString(n), ':');
    assert x[|runId| + 1..] == a && y[|runId| + 1..] == b;
    PrintInjective(m, n);
  }

  lemma {:induction false} RunsGrow(log: Log, j: nat, k: nat, id: Id)
    requires j < k <= |log| && id in Ids(log[j].wave)
    ensures Runs(log[..j], id) < Runs(log[..k], id)
  {
    assert Before(log[..k]) == log[..k - 1];
    assert Last(log[..k]) == log[k - 1];
    if j < k - 1 { RunsGrow(log, j, k - 1, id); }
  }

  lemma IssuedIds(s: Setup, log: Log, k: nat, id: Id)
    requires IsRun(s, log) && k < |log| && id in Ids(log[k].wave) && forall a :: s.decorate(a).id == a.id
    ensures id in log[k].issued && log[k].issued[id].id == AssignmentId(s.runId, id, Runs(log[..k], id))
  {
    RunPrefix(s, log, k);
    hide IsRun, Unblocked, NextWave, Queue, ReplacedIn, Runs;
    assert id in log[k].issued;
    assert log[k].issued[id] == s.decorate(AssignmentFor(s, log[..k], id));
  }

  // Assignment ids never repeat within a run unless a decorator rewrites them, so an answer
  // to any other dispatch - an earlier attempt at the same task included - is stale: it is
  // never a success and never a failure.
  lemma AnswersToOtherDispatchesAreStale(s: Setup, log: Log, k: nat, id: Id, j: nat, other: Id)
    requires IsRun(s, log) && j < |log| && k < |log| && (j, other) != (k, id)
    requires forall a :: s.decorate(a).id == a.id
    requires id in Ids(log[k].wave) && other in Ids(log[j].wave)
    requires log[k].output.Output? && id in log[k].output.results
    requires other in log[j].issued && log[k].output.results[id].assignmentId == log[j].issued[other].id
    ensures log[k].Verdict(id).Stale?
  {
    hide IsRun, Runs;
    IssuedIds(s, log, k, id);
    IssuedIds(s, log, j, other);
    if log[k].issued[id].id == log[j].issued[other].id {
      AssignmentIdInjective(s.runId, id, Runs(log[..k], id), other, Runs(log[..j], other));
      if j < k { RunsGrow(log, j, k, id); } else { RunsGrow(log, k, j, id); }
      assert false;
    }
  }
}
