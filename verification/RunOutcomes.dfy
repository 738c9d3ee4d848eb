/** What the orchestrator's ledger holds when a run is over. `Orchestrator.Run` ends in
    `Ended`; the lemmas say what that means for a caller. */
module RunOutcomes {
  import opened Concurrency
  import opened Conflicts
  import opened Dependencies
  import opened NoProgress
  import opened Orchestration
  import opened Orchestrator
  import opened Results
  import opened RunLedger
  import opened RunProperties
  import opened WavePlan

  lemma {:induction false} OneSummaryPerWave(log: Log)
    ensures |SummariesBy(log)| == |log|
  {
    if log != [] { OneSummaryPerWave(Before(log)); }
  }

  // A wave is reported completed exactly when each of its tasks succeeded.
  lemma {:induction false} SummariesAreHonest(log: Log, k: nat)
    requires k < |log|
    ensures |SummariesBy(log)| == |log|
    ensures var summary := SummariesBy(log)[k];
      && summary.wave == k + 1 && summary.tasks == TaskIds(log[k].wave)
      && (summary.completed <==> forall t :: t in log[k].wave ==> log[k].Verdict(t.id).Accepted?)
    decreases |log|
  {
    OneSummaryPerWave(Before(log));
    if k < |log| - 1 {
      SummariesAreHonest(Before(log), k);
      assert SummariesBy(log)[k] == SummariesBy(Before(log))[k];
    }
  }

  // However a run ends: no task ran too often, the waves are bounded, and the phases are a
  // legal walk with one EXECUTING per reported wave.
  lemma EveryRunIsBounded(s: Setup, log: Log, l: Ledger, next: string, o: Outcome)
    requires Planned(s) && Ended(s, log, l, next, o)
    ensures forall id :: RunsOf(l.runCounts, id) <= MaxRuns(s)
    ensures |l.summaries| == |log| <= WaveBudget(s)
    ensures LegalHistory(l.history) && Count(l.history, EXECUTING) == |l.summaries|
  {
    hide Planned, IsRun, Recorded, Finished, BlockedBy, IsHistory, HistoryEnds, LegalHistory, Count, MaxRuns;
    RecordedCounts(s, log, l);
    WavesBounded(s, log);
    EndedHistoryIsLegal(s, log, l, next, o);
  }

  lemma RecordedCounts(s: Setup, log: Log, l: Ledger)
    requires Planned(s) && IsRun(s, log) && Recorded(s, log, l)
    ensures |l.summaries| == |log| && forall id :: RunsOf(l.runCounts, id) <= MaxRuns(s)
  {
    hide Planned, IsRun, ContradictionsBy, FailuresBy, EvidenceBy, CompletedBy, Unstarted, StatusIn, LastWave;
    OneSummaryPerWave(log);
    forall id ensures RunsOf(l.runCounts, id) <= MaxRuns(s) {
      assert TaskRecorded(s, log, l, id);
      RunsBounded(s, log, id);
    }
  }

  lemma EndedHistoryIsLegal(s: Setup, log: Log, l: Ledger, next: string, o: Outcome)
    requires Ended(s, log, l, next, o)
    ensures LegalHistory(l.history) && Count(l.history, EXECUTING) == |log|
  {
    hide IsRun, Recorded, Unblocked, NextWave, JustBlocked, LegalHistory, IsHistory, HistoryEnds, Count;
    if o.Returned? && log == [] {
      HistoryIsLegal(l.history, 0);
    } else {
      if o.OrchestrationBlocked? { BlockedRunIsNotEmpty(s, log, l, next, o); }
      ClosedHistory(l.history, |log|, if o.Returned? then COMPLETED else Phase.BLOCKED);
    }
  }

  lemma ClosedHistory(h: seq<Phase>, n: nat, p: Phase)
    requires HistoryEnds(h, n, p) && (p == COMPLETED || p == Phase.BLOCKED) && n > 0
    ensures LegalHistory(h) && Count(h, EXECUTING) == n
  {
    var g := h[..|h| - 1];
    assert h == g + [p];
    HistoryIsLegal(g, n);
    HistoryGrows(g, n);
    Append(g, p);
  }

  // A run that returns has settled everything: nothing is pending, queued, running or
  // failed; the completed list is exactly the successes; no success lacks evidence.
  lemma ReturnedRunIsComplete(s: Setup, log: Log, l: Ledger, next: string, r: Report)
    requires Planned(s) && Ended(s, log, l, next, Returned(r))
    ensures forall id :: id in s.tasks ==> id in l.statuses && Settled(l.statuses[id])
    ensures l.pending == [] && Distinct(l.completed)
    ensures forall id :: id in l.completed <==> id in s.tasks && l.statuses[id] == DONE
    ensures |l.evidence| >= |l.completed|
  {
    hide IsRun, Planned, NextWave, Unblocked;
    FinishedRunSettlesAll(s, log);
    CompletedAreTheSucceeded(s, log);
    assert Unstarted(s.plan, |s.plan|) == [];
    forall id ensures id in s.tasks ==> id in l.statuses && l.statuses[id] == StatusIn(log, id) {
      assert TaskRecorded(s, log, l, id);
    }
    forall id | StatusIn(log, id) == DONE ensures id in s.tasks {
      assert TaskRecorded(s, log, l, id);
      SuccessIsPlanned(s, log, id);
    }
  }

  lemma {:induction false} SuccessIsPlanned(s: Setup, log: Log, id: Id)
    requires Planned(s) && IsRun(s, log) && StatusIn(log, id) != QUEUED
    ensures id in s.tasks
    decreases |log|
  {
    if id in Ids(Last(log).wave) {
      OrderlyBefore(s, log);
      NextIsLawful(s, Before(log));
      var t :| t in Last(log).wave && t.id == id;
    } else {
      SuccessIsPlanned(s, Before(log), id);
    }
  }

  // Each task's final status is the verdict of its last wave: a success answered the
  // assignment of that wave with evidence, a cancelled task was answered with a stale
  // result - and neither kept the run from completing.
  lemma {:induction false} StatusIsLastVerdict(log: Log, id: Id)
    ensures StatusIn(log, id) == match LastWave(log, id) case None => QUEUED case Some(e) => StatusAfter(e.Verdict(id))
    ensures StatusIn(log, id) == CANCELLED <==> LastWave(log, id).Some? && LastWave(log, id).value.Verdict(id).Stale?
    decreases |log|
  {
    if log != [] && id !in Ids(Last(log).wave) { StatusIsLastVerdict(Before(log), id); }
  }

  // The empty graph is returned as completed while the phase is still DISPATCHING and no
  // next transition has been recorded; no other run executes no wave.
  lemma EmptyGraphStaysDispatching(s: Setup, log: Log, l: Ledger, next: string, o: Outcome)
    requires Planned(s) && Ended(s, log, l, next, o)
    ensures s.tasks == map[] <==> log == []
    ensures s.tasks == map[] ==>
      o == Returned(ReportOf(l, true, "")) && Current(l.history) == DISPATCHING
      && l.history == [INSPECTING, PLANNING, DISPATCHING]
    ensures s.tasks != map[] && o.Returned? ==> Current(l.history) == COMPLETED && next == "COMPLETED"
  {
    PlannedIsGood(s);
    PlanCovers(s);
    EmptyRun(s, log);
    hide IsRun, Recorded, Planned, GoodPlan, Unblocked, WaveBudget, BlockedBy;
    if o.Returned? && log == [] {
      assert l.history == [INSPECTING, PLANNING, DISPATCHING];
    }
    if o.OrchestrationBlocked? { BlockedRunIsNotEmpty(s, log, l, next, o); }
  }

  lemma BlockedRunIsNotEmpty(s: Setup, log: Log, l: Ledger, next: string, o: Outcome)
    requires Ended(s, log, l, next, o) && o.OrchestrationBlocked?
    ensures log != []
  {}

  lemma EmptyRun(s: Setup, log: Log)
    requires Planned(s) && IsRun(s, log)
    ensures s.tasks == map[] ==> log == []
    ensures log == [] && NextWave(s, log) == None ==> s.plan == []
  {
    WavesBounded(s, log);
    PlannedIsGood(s);
    PlanCovers(s);
  }

  lemma PlanCovers(s: Setup)
    requires GoodPlan(s)
    ensures s.plan == [] <==> s.tasks == map[]
  {
    if s.plan == [] {
      assert s.tasks.Keys == {};
    } else {
      assert WaveFits(s, 0);
      var t := s.plan[0][0];
      assert t in s.plan[0] && t.id in s.tasks;
    }
  }

  // A blocked run names a task of its last wave that failed without remedy: its last
  // `threshold` failures carry one signature, or it has used its last allowed run.
  lemma BlockedRunHasCause(s: Setup, log: Log, l: Ledger, next: string, r: Report)
    requires Planned(s) && Ended(s, log, l, next, OrchestrationBlocked(r))
    ensures log != [] && exists id :: BlockingFailure(s, log, id, next)
    ensures Current(l.history) == Phase.BLOCKED
  {
    hide Planned, IsRun, Recorded, IsHistory;
    var b :| BlockedBy(s, log, b) && next == if b.mismatch then "HUMAN_REVIEW" else "BLOCKED";
    ExhaustedAfterLastRun(s, log, b.task);
    hide ReplacedIn, Runs, SignaturesIn;
    assert BlockingFailure(s, log, b.task, next);
  }

  ghost predicate BlockingFailure(s: Setup, log: Log, id: Id, next: string)
    requires log != []
  {
    && Last(log).Fails(id)
    && (LastEqual(SignaturesIn(s, log, id), AtLeastOne(s.retry.noProgressThreshold)) || Runs(log, id) == MaxRuns(s))
    && (next == "HUMAN_REVIEW" <==> Last(log).Verdict(id).failure.classification == "mismatch")
  }

  // --- Conflicts between results ---------------------------------------------------------

  lemma {:induction false} WaveIsInContradictions(log: Log, k: nat, x: Contradiction)
    requires k < |log| && x in ContradictionsIn(log[k].wave, log[k])
    ensures x in ContradictionsBy(log)
    decreases |log|
  {
    if k < |log| - 1 { WaveIsInContradictions(Before(log), k, x); }
  }

  lemma SmallWaveContradictions(e: Entry, c: string)
    ensures var answers := CurrentAnswers(e.wave, e);
      |e.wave| <= 2 && Disputed(answers, c) ==> ConflictOn(answers, c) in ContradictionsIn(e.wave, e)
    ensures |e.wave| <= 1 ==> ContradictionsIn(e.wave, e) == MismatchesIn(e.wave, e)
  {
    hide CurrentAnswers, ConflictsAmong, MismatchesIn, Disputed, Reported, ConflictOn;
    FewAnswers(e.wave, e);
    SmallWavesHideNothing(CurrentAnswers(e.wave, e), c);
    MissedExactlyWhen(CurrentAnswers(e.wave, e), c);
  }

  lemma WaveSizes(s: Setup, log: Log, k: nat)
    requires Planned(s) && IsRun(s, log) && k < |log|
    ensures |log[k].wave| <= s.cap && (!log[k].Planned() ==> |log[k].wave| == 1)
  {
    hide Planned, IsRun, Queue, PlannedCount, Unblocked, IssuedFor;
    EveryDispatchIsLawful(s, log, k);
    RunPrefix(s, log, k);
  }

  // With at most two tasks in parallel no dispute within a wave goes unreported, and a
  // follow-up never reports one: it is never compared with the results it replaces.
  lemma NarrowRunsHideNoConflict(s: Setup, log: Log, k: nat, c: string)
    requires Planned(s) && IsRun(s, log) && k < |log|
    ensures var e := log[k]; var answers := CurrentAnswers(e.wave, e);
      && (s.cap <= 2 && Disputed(answers, c) ==> ConflictOn(answers, c) in ContradictionsBy(log))
      && (!e.Planned() ==> ContradictionsIn(e.wave, e) == MismatchesIn(e.wave, e))
  {
    hide IsRun, Planned, Disputed, ContradictionsIn, ContradictionsBy, MismatchesIn, CurrentAnswers, ConflictOn;
    var e := log[k];
    WaveSizes(s, log, k);
    SmallWaveContradictions(e, c);
    var x := ConflictOn(CurrentAnswers(e.wave, e), c);
    if x in ContradictionsIn(e.wave, e) { WaveIsInContradictions(log, k, x); }
  }

  // --- Telemetry ------------------------------------------------------------------------

  // The measurements the waves of a run made themselves.
  function OwnMeasurements(log: Log): seq<WaveRecord> {
    if log == [] then [] else OwnMeasurements(Before(log)) + AsList(NextMeasured(None, Last(log).output))
  }

  // Wave k recorded its own measurements or nothing at all.
  predicate RecordsItself(m: Option<WaveRecord>, log: Log, k: nat)
    requires k < |log|
  {
    log[k].output.Output? || MeasuredAfter(m, log[..k]).None?
  }

  lemma {:induction false} TelemetryGap(m: Option<WaveRecord>, log: Log)
    ensures |OwnMeasurements(log)| <= |TelemetryBy(m, log)|
    ensures |OwnMeasurements(log)| == |TelemetryBy(m, log)| <==> forall k :: 0 <= k < |log| ==> RecordsItself(m, log, k)
    ensures |OwnMeasurements(log)| == |TelemetryBy(m, log)| ==> OwnMeasurements(log) == TelemetryBy(m, log)
    decreases |log|
  {
    if log != [] {
      var n := |log| - 1;
      TelemetryGap(m, Before(log));
      assert RecordsItself(m, log, n) <==> Last(log).output.Output? || MeasuredAfter(m, Before(log)).None?;
      assert forall k :: 0 <= k < n ==> log[..n][..k] == log[..k];
      assert forall k :: 0 <= k < n ==> (RecordsItself(m, log[..n], k) <==> RecordsItself(m, log, k));
    }
  }

  // The telemetry of a run consists of its own waves' measurements exactly when no wave
  // without measurements follows one that has some - in this run or, before its first
  // measurement, in an earlier run of the same orchestrator.
  lemma TelemetryIsOwnExactlyWhen(m: Option<WaveRecord>, log: Log)
    ensures TelemetryBy(m, log) == OwnMeasurements(log) <==> forall k :: 0 <= k < |log| ==> RecordsItself(m, log, k)
  {
    TelemetryGap(m, log);
  }

  // A wave that times out makes the concurrency proof answer True for every single lasting
  // task of the wave before it, whatever was recorded earlier; without it the answer was
  // False for a task that had run just once.
  lemma TimedOutWaveFakesConcurrency(m: Option<WaveRecord>, log: Log, measured: Entry, late: Entry, id: Id, i: nat)
    requires measured.output.Output? && late.output == TimedOut
    requires var w := measured.output.measured;
      && i < |w.timings| && w.timings[i].taskId == id && w.timings[i].started < w.timings[i].finished
      && w.highWater >= 2
    ensures Proves(TelemetryBy(m, log + [measured, late]), {id})
    ensures (forall w :: w in TelemetryBy(m, log) ==> !Involves(w, {id}))
            && (var ts := measured.output.measured.timings;
                forall j :: 0 <= j < |ts| && j != i ==> ts[j].taskId != id)
            ==> !Proves(TelemetryBy(m, log + [measured]), {id})
  {
    TelemetryExtends(m, log, measured);
    TelemetryExtends(m, log + [measured], late);
    assert log + [measured] + [late] == log + [measured, late];
    var before, w := TelemetryBy(m, log), measured.output.measured;
    TwiceRecordedWave(before, w, id, i);
    assert before + [w] + [w] == before + [w, w];
  }

  // Everything that measured anything: the engine before the run, then its waves.
  function AllMeasurements(m: Option<WaveRecord>, log: Log): seq<WaveRecord> {
    AsList(m) + OwnMeasurements(log)
  }

  // The engine runs its waves one after the other, each task once, and measures them.
  ghost predicate HonestEngine(m: Option<WaveRecord>, log: Log) {
    var all := AllMeasurements(m, log);
    Sequential(all) && Measured(all) && forall w :: w in all ==> OncePerTask(w.timings)
  }

  // Wave k leaves no measurements and records again what the wave before it recorded, in
  // which a task took time.
  predicate RepeatsAt(m: Option<WaveRecord>, log: Log, k: int) {
    && 1 <= k < |log| && !log[k].output.Output?
    && MeasuredAfter(m, log[..k]).Some? && Lasting(MeasuredAfter(m, log[..k]).value)
  }

  lemma NewestMeasurement(m: Option<WaveRecord>, log: Log)
    ensures var all := AllMeasurements(m, log);
      if all == [] then MeasuredAfter(m, log) == None else MeasuredAfter(m, log) == Some(all[|all| - 1])
    decreases |log|
  {
    if log != [] { NewestMeasurement(m, Before(log)); }
  }

  lemma FirstOnes(all: seq<WaveRecord>, n: nat)
    requires Sequential(all) && n <= |all|
    ensures Sequential(all[..n])
  {
    forall v, w | 0 <= v < w < n ensures Precedes(all[..n][v], all[..n][w]) { assert Precedes(all[v], all[w]); }
  }

  lemma LastInOrder(all: seq<WaveRecord>, x: WaveRecord)
    requires Sequential(all) && x in all
    ensures x == all[|all| - 1] || Precedes(x, all[|all| - 1])
    ensures x in all[..|all| - 1] ==> Precedes(x, all[|all| - 1])
  {
    if x in all[..|all| - 1] {
      var k :| 0 <= k < |all| - 1 && all[k] == x;
      assert Precedes(all[k], all[|all| - 1]);
    }
  }

  lemma OneMoreInOrder(ts: seq<WaveRecord>, w: WaveRecord)
    requires SequentialOrRepeated(ts) && forall x :: x in ts ==> x == w || Precedes(x, w)
    ensures SequentialOrRepeated(ts + [w])
    ensures RepeatsLasting(ts + [w]) <==> RepeatsLasting(ts) || (w in ts && Lasting(w))
  {
    hide Precedes, Lasting;
    var more := ts + [w];
    assert forall v :: 0 <= v < |ts| ==> more[v] == ts[v] && ts[v] in ts;
    if w in ts && Lasting(w) {
      var v :| 0 <= v < |ts| && ts[v] == w;
      assert more[v] == more[|ts|];
    }
    if RepeatsLasting(ts) {
      var v, u :| 0 <= v < u < |ts| && ts[v] == ts[u] && Lasting(ts[u]);
      assert more[v] == more[u];
    }
  }

  lemma TelemetryStep(m: Option<WaveRecord>, log: Log)
    requires log != []
    ensures var all, earlier := AllMeasurements(m, log), AllMeasurements(m, Before(log));
      && |earlier| <= |all| && earlier == all[..|earlier|]
      && (all == [] ==> TelemetryBy(m, log) == TelemetryBy(m, Before(log)))
      && (all == [] ==> !RepeatsAt(m, log, |log| - 1))
      && (all != [] ==> TelemetryBy(m, log) == TelemetryBy(m, Before(log)) + [all[|all| - 1]])
  {
    NewestMeasurement(m, Before(log));
    assert log[..|log| - 1] == Before(log);
    NewestMeasurement(m, log);
    MeasurementsGrow(m, log);
  }

  lemma NoTelemetry(m: Option<WaveRecord>)
    ensures SequentialOrRepeated(TelemetryBy(m, [])) && TelemetryBy(m, []) == []
    ensures !RepeatsLasting(TelemetryBy(m, [])) && forall k :: !RepeatsAt(m, [], k)
  {}

  // Repeats apart, the telemetry keeps the order of the measurements, and it repeats a
  // lasting record exactly when some wave of the run does.
  lemma {:induction false} TelemetryIsInOrder(m: Option<WaveRecord>, log: Log)
    requires Sequential(AllMeasurements(m, log))
    ensures SequentialOrRepeated(TelemetryBy(m, log))
    ensures forall w :: w in TelemetryBy(m, log) ==> w in AllMeasurements(m, log)
    ensures RepeatsLasting(TelemetryBy(m, log)) <==> exists k :: RepeatsAt(m, log, k)
    decreases |log|
  {
    hide MeasuredAfter, TelemetryBy, OwnMeasurements, AllMeasurements, Precedes, SequentialOrRepeated, RepeatsLasting,
         RepeatsAt, Sequential, Lasting;
    if log == [] {
      NoTelemetry(m);
    } else {
      var all, earlier, ts := AllMeasurements(m, log), AllMeasurements(m, Before(log)), TelemetryBy(m, Before(log));
      TelemetryStep(m, log);
      FirstOnes(all, |earlier|);
      TelemetryIsInOrder(m, Before(log));
      RepeatsBefore(m, log);
      if all != [] {
        var w := all[|all| - 1];
        forall x | x in ts ensures x == w || Precedes(x, w) { LastInOrder(all, x); }
        OneMoreInOrder(ts, w);
        LastRepeats(m, log);
      }
    }
  }

  lemma RepeatsBefore(m: Option<WaveRecord>, log: Log)
    requires log != []
    ensures (exists k :: RepeatsAt(m, log, k))
       <==> RepeatsAt(m, log, |log| - 1) || exists k :: RepeatsAt(m, Before(log), k)
  {
    hide Lasting, MeasuredAfter;
    forall k | 0 <= k < |log| - 1 ensures RepeatsAt(m, log, k) <==> RepeatsAt(m, Before(log), k) {
      assert Before(log)[..k] == log[..k];
    }
    if k :| RepeatsAt(m, Before(log), k) { assert RepeatsAt(m, log, k); }
    if k :| RepeatsAt(m, log, k) && k < |log| - 1 { assert RepeatsAt(m, Before(log), k); }
  }

  lemma MeasurementsGrow(m: Option<WaveRecord>, log: Log)
    requires log != []
    ensures var all, earlier := AllMeasurements(m, log), AllMeasurements(m, Before(log));
      if Last(log).output.Output? then all != [] && earlier == all[..|all| - 1] else all == earlier
  {
    var own := AsList(NextMeasured(None, Last(log).output));
    assert AllMeasurements(m, log) == AllMeasurements(m, Before(log)) + own;
  }

  lemma PrecedesItself(w: WaveRecord)
    requires Precedes(w, w)
    ensures !Lasting(w)
  {}

  // The last wave repeats a record exactly when what it records was recorded before.
  lemma LastRepeats(m: Option<WaveRecord>, log: Log)
    requires log != [] && AllMeasurements(m, log) != [] && Sequential(AllMeasurements(m, log))
    requires forall w :: w in TelemetryBy(m, Before(log)) ==> w in AllMeasurements(m, Before(log))
    ensures var all := AllMeasurements(m, log);
      RepeatsAt(m, log, |log| - 1) <==> all[|all| - 1] in TelemetryBy(m, Before(log)) && Lasting(all[|all| - 1])
  {
    hide Sequential, Precedes, Lasting, OwnMeasurements, AllMeasurements;
    var all, earlier, ts := AllMeasurements(m, log), AllMeasurements(m, Before(log)), TelemetryBy(m, Before(log));
    var w := all[|all| - 1];
    NewestMeasurement(m, log);
    MeasurementsGrow(m, log);
    assert log[..|log| - 1] == Before(log);
    if Last(log).output.Output? {
      if w in ts {
        LastInOrder(all, w);
        PrecedesItself(w);
      }
    } else if Before(log) != [] {
      assert ts[|ts| - 1] == w;
    }
  }

  // Of a run whose engine is honest, the concurrency proof gives the documented answer for
  // every choice of tasks if and only if no wave records again what the run has recorded of
  // a task that took time, or no recorded wave ever saw two at once.
  lemma RunAnswersAreGenuineExactlyWhen(m: Option<WaveRecord>, log: Log)
    requires HonestEngine(m, log)
    ensures var ts := TelemetryBy(m, log);
      (forall ids :: Proves(ts, ids) <==> TwoTasksOverlapped(ts, ids))
      <==> (forall k :: !RepeatsAt(m, log, k)) || forall w :: w in ts ==> w.highWater < 2
  {
    TelemetryIsInOrder(m, log);
    hide Proves, TwoTasksOverlapped, RepeatsAt, Sequential, TelemetryBy, OwnMeasurements;
    EveryAnswerIsGenuineExactlyWhen(TelemetryBy(m, log));
  }
}
