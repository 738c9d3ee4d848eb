/** The orchestrator's ledger as a value: its workflow phases and what it holds after
    each wave of a run. */
module RunLedger {
  import opened Concurrency
  import opened Conflicts
  import opened Dependencies
  import opened Orchestration
  import opened PlanBounds
  import opened Results
  import opened RunProperties
  import opened WavePlan

  // --- Workflow phases -------------------------------------------------------------

  datatype Phase =
    IDLE | INSPECTING | PLANNING | DISPATCHING | EXECUTING | COLLECTING | RECONCILING | COMPLETED | BLOCKED

  function Successors(p: Phase): set<Phase> {
    match p
    case IDLE => {INSPECTING}
    case INSPECTING => {PLANNING}
    case PLANNING => {DISPATCHING}
    case DISPATCHING => {EXECUTING}
    case EXECUTING => {COLLECTING}
    case COLLECTING => {RECONCILING, COMPLETED, Phase.BLOCKED}
    case RECONCILING => {DISPATCHING, COMPLETED, Phase.BLOCKED}
    case COMPLETED => {}
    case BLOCKED => {}
  }

  predicate Legal(from: Phase, to: Phase) { to in Successors(from) }

  function Current(h: seq<Phase>): Phase { if h == [] then IDLE else h[|h| - 1] }

  ghost predicate LegalHistory(h: seq<Phase>) {
    h == [] || (LegalHistory(h[..|h| - 1]) && Legal(Current(h[..|h| - 1]), h[|h| - 1]))
  }

  // The k-th phase entered: three to start with, then two for the first wave and four for
  // each later one.
  function PhaseAt(k: nat): Phase {
    if k == 0 then INSPECTING else if k == 1 then PLANNING else if k == 2 then DISPATCHING
    else if k % 4 == 3 then EXECUTING else if k % 4 == 0 then COLLECTING
    else if k % 4 == 1 then RECONCILING else DISPATCHING
  }

  // The phases entered by the end of the n-th wave.
  predicate IsHistory(h: seq<Phase>, n: nat) {
    |h| == (if n == 0 then 3 else 4 * n + 1) && forall k :: 0 <= k < |h| ==> h[k] == PhaseAt(k)
  }

  // Every wave but the first is dispatched again out of COLLECTING.
  function Redispatched(h: seq<Phase>): seq<Phase> {
    if Current(h) == DISPATCHING then h else h + [RECONCILING] + [DISPATCHING]
  }

  lemma HistoryGrows(h: seq<Phase>, n: nat)
    requires IsHistory(h, n)
    ensures Current(h) == if n == 0 then DISPATCHING else COLLECTING
    ensures IsHistory(Redispatched(h) + [EXECUTING] + [COLLECTING], n + 1)
  {
    var g := Redispatched(h) + [EXECUTING] + [COLLECTING];
    forall k | 0 <= k < |g| ensures g[k] == PhaseAt(k) {
      if k < |h| { assert g[k] == h[k]; }
    }
  }

  lemma Append(h: seq<Phase>, p: Phase)
    ensures LegalHistory(h + [p]) <==> LegalHistory(h) && Legal(Current(h), p)
    ensures Current(h + [p]) == p
    ensures Count(h + [p], EXECUTING) == Count(h, EXECUTING) + if p == EXECUTING then 1 else 0
  {
    assert (h + [p])[..|h + [p]| - 1] == h;
  }

  function Count(h: seq<Phase>, p: Phase): nat {
    if h == [] then 0 else Count(h[..|h| - 1], p) + if h[|h| - 1] == p then 1 else 0
  }

  lemma NextPhaseIsLegal(k: nat)
    ensures Legal(PhaseAt(k), PhaseAt(k + 1))
    ensures (k + 1) / 4 == k / 4 + if PhaseAt(k) == EXECUTING then 1 else 0
  {
    assert k % 4 == 0 || k % 4 == 1 || k % 4 == 2 || k % 4 == 3;
  }

  lemma {:induction false} WalkIsLegal(h: seq<Phase>)
    requires forall k :: 0 <= k < |h| ==> h[k] == PhaseAt(k)
    ensures LegalHistory(h) && Count(h, EXECUTING) == |h| / 4
    decreases |h|
  {
    if h != [] {
      var n := |h| - 1;
      WalkIsLegal(h[..n]);
      NextPhaseIsLegal(n);
      if n > 0 {
        NextPhaseIsLegal(n - 1);
        assert Current(h[..n]) == PhaseAt(n - 1);
      }
    }
  }

  // The history of a run is a legal walk from IDLE, with one EXECUTING for each wave.
  lemma HistoryIsLegal(h: seq<Phase>, n: nat)
    requires IsHistory(h, n)
    ensures LegalHistory(h) && Count(h, EXECUTING) == n
  {
    WalkIsLegal(h);
  }

  // --- The ledger -------------------------------------------------------------------

  datatype WaveSummary = WaveSummary(wave: nat, completed: bool, tasks: seq<Id>, failures: seq<string>)

  datatype Ledger = Ledger(
    phase: Phase, history: seq<Phase>, pending: seq<Id>, completed: seq<Id>, statuses: map<Id, Status>,
    results: map<Id, AgentResult>, evidence: seq<Evidence>, failures: seq<Failure>, contradictions: seq<Contradiction>,
    waveSeq: nat, summaries: seq<WaveSummary>, runCounts: map<Id, nat>, replaced: set<Id>,
    issued: map<Id, Assignment>)

  function RunsOf(counts: map<Id, nat>, id: Id): nat { if id in counts then counts[id] else 0 }

  function FailuresIn(w: Wave, e: Entry): seq<Failure> {
    if w == [] then []
    else
      var v := e.Verdict(w[|w| - 1].id);
      FailuresIn(w[..|w| - 1], e) + if v.Failed? then [v.failure] else []
  }

  function MismatchesIn(w: Wave, e: Entry): seq<Contradiction> {
    if w == [] then []
    else
      var id := w[|w| - 1].id;
      MismatchesIn(w[..|w| - 1], e)
      + match e.Verdict(id)
        case Stale => [Mismatch("__stale_result__", id)]
        case Failed(_, mismatch) => if mismatch then [Mismatch("__validation__", id)] else []
        case Accepted(_) => []
  }

  function FailuresBy(log: Log): seq<Failure> {
    if log == [] then [] else FailuresBy(Before(log)) + FailuresIn(Last(log).wave, Last(log))
  }

  // The contradictions of a wave: those found judging its results, then those found
  // comparing them.
  function ContradictionsIn(w: Wave, e: Entry): seq<Contradiction> {
    MismatchesIn(w, e) + ConflictsAmong(CurrentAnswers(w, e))
  }

  function ContradictionsBy(log: Log): seq<Contradiction> {
    if log == [] then [] else ContradictionsBy(Before(log)) + ContradictionsIn(Last(log).wave, Last(log))
  }

  function TaskIds(w: Wave): seq<Id> { seq(|w|, i requires 0 <= i < |w| => w[i].id) }

  function Describe(fs: seq<Failure>): seq<string> {
    seq(|fs|, i requires 0 <= i < |fs| => fs[i].classification + ": " + fs[i].summary)
  }

  // A wave is reported completed exactly when every one of its tasks succeeded.
  predicate AllAccepted(w: Wave, e: Entry) { forall t :: t in w ==> e.Verdict(t.id).Accepted? }

  function SummaryOf(n: nat, e: Entry): WaveSummary {
    WaveSummary(n, AllAccepted(e.wave, e), TaskIds(e.wave), Describe(FailuresIn(e.wave, e)))
  }

  function SummariesBy(log: Log): seq<WaveSummary> {
    if log == [] then [] else SummariesBy(Before(log)) + [SummaryOf(|log|, Last(log))]
  }

  function Unstarted(plan: seq<Wave>, n: nat): seq<Id>
    decreases |plan| - n
  {
    if n >= |plan| then [] else TaskIds(plan[n]) + Unstarted(plan, n + 1)
  }

  // `list.remove`, when the element is there.
  function Drop(ids: seq<Id>, id: Id): seq<Id> {
    if ids == [] then [] else if ids[0] == id then ids[1..] else [ids[0]] + Drop(ids[1..], id)
  }

  function DropAll(ids: seq<Id>, w: Wave): seq<Id> {
    if w == [] then ids else Drop(DropAll(ids, w[..|w| - 1]), w[|w| - 1].id)
  }

  // --- What one wave does to the ledger ------------------------------------------------

  ghost predicate TaskExecuted(runId: string, decorate: Assignment -> Assignment, b: Ledger, a: Ledger, w: Wave,
                               id: Id) {
    var runs, running := RunsOf(b.runCounts, id), id in Ids(w);
    && (id in a.statuses <==> id in b.statuses || running)
    && (id in a.statuses ==> a.statuses[id] == if running then RUNNING else b.statuses[id])
    && RunsOf(a.runCounts, id) == runs + (if running then 1 else 0)
    && (id in a.issued <==> running)
    && (running ==> a.issued[id] == decorate(Assignment(
          AssignmentId(runId, id, runs), id, b.waveSeq + 1,
          if id in b.replaced then id + "-replacement1" else id + "-agent")))
  }

  // `_execute_wave`: every task of the wave is running on a fresh assignment.
  ghost predicate Executed(runId: string, decorate: Assignment -> Assignment, b: Ledger, a: Ledger, w: Wave) {
    && a == b.(statuses := a.statuses, runCounts := a.runCounts, issued := a.issued, waveSeq := b.waveSeq + 1,
               phase := a.phase, history := a.history)
    && forall id :: TaskExecuted(runId, decorate, b, a, w, id)
  }

  ghost predicate TaskCollected(b: Ledger, a: Ledger, w: Wave, e: Entry, id: Id) {
    var judged := id in Ids(w);
    var accepted := judged && e.Verdict(id).Accepted?;
    && (id in a.statuses <==> id in b.statuses)
    && (id in a.statuses ==> a.statuses[id] == if judged then StatusAfter(e.Verdict(id)) else b.statuses[id])
    && (id in a.results <==> id in b.results || accepted)
    && (id in a.results ==> a.results[id] == if accepted then e.Verdict(id).result else b.results[id])
  }

  // `v` are the tasks of the wave `w` that are judged.
  ghost predicate ListsCollected(b: Ledger, a: Ledger, w: Wave, v: Wave, e: Entry) {
    a == b.(pending := DropAll(b.pending, w), statuses := a.statuses, results := a.results,
            completed := b.completed + AcceptedIn(v, e), evidence := b.evidence + EvidenceIn(v, e),
            failures := b.failures + FailuresIn(v, e), contradictions := b.contradictions + MismatchesIn(v, e))
  }

  // Every task that is judged gets its verdict, and only successes complete.
  ghost predicate Collected(b: Ledger, a: Ledger, w: Wave, v: Wave, e: Entry) {
    && ListsCollected(b, a, w, v, e)
    && forall id :: TaskCollected(b, a, v, e, id)
  }

  // `_collect_wave`: and then the results are compared.
  ghost predicate Compared(b: Ledger, a: Ledger, w: Wave, v: Wave, e: Entry) {
    var found := ConflictsAmong(Answers(w, e.output, a.statuses));
    && a.contradictions == b.contradictions + MismatchesIn(v, e) + found
    && Collected(b, a.(contradictions := b.contradictions + MismatchesIn(v, e)), w, v, e)
  }

  // Only queued and running tasks are judged; the others are just no longer pending.
  predicate IsOpen(statuses: map<Id, Status>, id: Id) {
    id in statuses && (statuses[id] == QUEUED || statuses[id] == RUNNING)
  }

  function Judgeable(statuses: map<Id, Status>, w: Wave): Wave {
    if w == [] then []
    else Judgeable(statuses, w[..|w| - 1]) + if IsOpen(statuses, w[|w| - 1].id) then [w[|w| - 1]] else []
  }

  lemma {:induction false} JudgeableAre(statuses: map<Id, Status>, w: Wave)
    ensures forall t :: t in Judgeable(statuses, w) ==> t in w
    ensures (forall t :: t in w ==> IsOpen(statuses, t.id)) ==> Judgeable(statuses, w) == w
  {
    hide IsOpen;
    if w != [] {
      JudgeableAre(statuses, w[..|w| - 1]);
      assert w == w[..|w| - 1] + [w[|w| - 1]];
    }
  }

  ghost predicate TaskRecorded(s: Setup, log: Log, l: Ledger, id: Id) {
    && (id in l.statuses <==> id in s.tasks)
    && (id in s.tasks ==> l.statuses[id] == StatusIn(log, id))
    && RunsOf(l.runCounts, id) == Runs(log, id)
    && (id in l.results <==> StatusIn(log, id) == DONE)
    && (id in l.results ==> LastWave(log, id).Some? && LastWave(log, id).value.Verdict(id) == Accepted(l.results[id]))
  }

  // The ledger holds exactly what the log says.
  ghost predicate Recorded(s: Setup, log: Log, l: Ledger) {
    && l.completed == CompletedBy(log) && l.evidence == EvidenceBy(log)
    && l.failures == FailuresBy(log) && l.contradictions == ContradictionsBy(log)
    && l.pending == Unstarted(s.plan, PlannedCount(log))
    && l.summaries == SummariesBy(log) && l.waveSeq == |log|
    && forall id :: TaskRecorded(s, log, l, id)
  }

  ghost predicate ReplacedMatches(s: Setup, log: Log, replaced: set<Id>) {
    forall id :: id in replaced <==> ReplacedIn(s, log, id)
  }

  predicate SameButPhase(l: Ledger, l': Ledger) { l' == l.(phase := l'.phase, history := l'.history) }

  lemma ExecutionIgnoresPhase(runId: string, decorate: Assignment -> Assignment, b: Ledger, b': Ledger, a: Ledger,
                              a': Ledger, w: Wave)
    requires Executed(runId, decorate, b, a, w) && SameButPhase(b, b') && SameButPhase(a, a')
    ensures Executed(runId, decorate, b', a', w)
  {
    forall id ensures TaskExecuted(runId, decorate, b', a', w, id) {
      assert TaskExecuted(runId, decorate, b, a, w, id);
    }
  }

  lemma IssuedAsDue(s: Setup, log: Log, b: Ledger, a: Ledger, w: Wave)
    requires Recorded(s, log, b) && ReplacedMatches(s, log, b.replaced) && Executed(s.runId, s.decorate, b, a, w)
    ensures IssuedFor(s, log, w, a.issued)
  {
    forall id | id in a.issued ensures a.issued[id] == s.decorate(AssignmentFor(s, log, id)) {
      assert TaskRecorded(s, log, b, id) && TaskExecuted(s.runId, s.decorate, b, a, w, id);
    }
    forall id ensures id in a.issued <==> id in Ids(w) { assert TaskExecuted(s.runId, s.decorate, b, a, w, id); }
  }

  lemma {:induction false} DropFromFront(w: Wave, k: nat, rest: seq<Id>)
    requires k <= |w|
    ensures DropAll(TaskIds(w) + rest, w[..k]) == TaskIds(w)[k..] + rest
  {
    if k > 0 {
      DropFromFront(w, k - 1, rest);
      assert w[..k][..k - 1] == w[..k - 1];
      var before := TaskIds(w)[k - 1..] + rest;
      assert before[0] == w[k - 1].id && before[1..] == TaskIds(w)[k..] + rest;
    }
  }

  lemma {:induction false} DropAbsent(ids: seq<Id>, id: Id)
    requires id !in ids
    ensures Drop(ids, id) == ids
  {
    if ids != [] { DropAbsent(ids[1..], id); }
  }

  lemma {:induction false} StartedOnce(s: Setup, m: nat, n: nat, id: Id)
    requires GoodPlan(s) && m <= n <= |s.plan| && id in IdsUpTo(s.plan, m)
    ensures id in IdsUpTo(s.plan, n)
    ensures n < |s.plan| ==> id !in Ids(s.plan[n])
    decreases n
  {
    if m < n { StartedOnce(s, m, n - 1, id); }
    assert WaveFits(s, n);
  }

  lemma TaskIdsAre(w: Wave, id: Id)
    ensures id in TaskIds(w) <==> id in Ids(w)
  {
    if id in Ids(w) {
      var t :| t in w && t.id == id;
      var i :| 0 <= i < |w| && w[i] == t;
      assert TaskIds(w)[i] == id;
    }
  }

  lemma {:induction false} StartedIsNotPending(s: Setup, m: nat, n: nat, id: Id)
    requires GoodPlan(s) && m <= n <= |s.plan| && id in IdsUpTo(s.plan, m)
    ensures id !in Unstarted(s.plan, n)
    decreases |s.plan| - n
  {
    if n < |s.plan| {
      StartedOnce(s, m, n, id);
      StartedIsNotPending(s, m, n + 1, id);
      TaskIdsAre(s.plan[n], id);
    }
  }

  // A planned wave leaves the pending list from the front; a follow-up is no longer in it.
  lemma PendingStep(s: Setup, log: Log, e: Entry)
    requires GoodPlan(s) && Orderly(s, log) && IsStep(s, log, e)
    ensures DropAll(Unstarted(s.plan, PlannedCount(log)), e.wave) == Unstarted(s.plan, PlannedCount(log + [e]))
  {
    var n := PlannedCount(log);
    if e.Planned() {
      assert PlannedCount(log + [e]) == n + 1 by { Unfold(s, log, e, ""); }
      DropFromFront(e.wave, |e.wave|, Unstarted(s.plan, n + 1));
      assert e.wave[..|e.wave|] == e.wave;
      assert TaskIds(e.wave)[|e.wave|..] + Unstarted(s.plan, n + 1) == Unstarted(s.plan, n + 1);
    } else {
      assert PlannedCount(log + [e]) == n by { Unfold(s, log, e, ""); }
      var t := e.wave[0];
      assert t in Queue(log) && t.id in Ids(e.wave);
      assert Started(s, log, t.id);
      StartedIsNotPending(s, n, n, t.id);
      DropAbsent(Unstarted(s.plan, n), t.id);
      assert e.wave[..0] == [];
    }
  }

  lemma LogsExtend(log: Log, e: Entry)
    ensures CompletedBy(log + [e]) == CompletedBy(log) + AcceptedIn(e.wave, e)
    ensures EvidenceBy(log + [e]) == EvidenceBy(log) + EvidenceIn(e.wave, e)
    ensures FailuresBy(log + [e]) == FailuresBy(log) + FailuresIn(e.wave, e)
    ensures ContradictionsBy(log + [e]) == ContradictionsBy(log) + ContradictionsIn(e.wave, e)
    ensures SummariesBy(log + [e]) == SummariesBy(log) + [SummaryOf(|log| + 1, e)]
  {
    assert Before(log + [e]) == log;
  }

  lemma TaskIsRecorded(s: Setup, log: Log, e: Entry, l0: Ledger, l1: Ledger, l2: Ledger, id: Id)
    requires id in Ids(e.wave) ==> id in s.tasks && !Settled(StatusIn(log, id))
    requires TaskRecorded(s, log, l0, id) && TaskExecuted(s.runId, s.decorate, l0, l1, e.wave, id)
    requires TaskCollected(l1, l2, e.wave, e, id)
    requires l1.results == l0.results && l2.runCounts == l1.runCounts
    ensures TaskRecorded(s, log + [e], l2, id)
  {
    Unfold(s, log, e, id);
  }

  lemma ComparedIsContradicted(e: Entry, b: Ledger, a: Ledger)
    requires Compared(b, a, e.wave, e.wave, e) && forall t :: t in e.wave ==> t.id in b.statuses
    ensures a.contradictions == b.contradictions + ContradictionsIn(e.wave, e)
    ensures forall id :: TaskCollected(b, a, e.wave, e, id)
  {
    hide Judge, ConflictsAmong, MismatchesIn;
    var c := a.(contradictions := b.contradictions + MismatchesIn(e.wave, e));
    forall id ensures TaskCollected(b, a, e.wave, e, id) { assert TaskCollected(b, c, e.wave, e, id); }
    forall t | t in e.wave ensures t.id in a.statuses && a.statuses[t.id] == StatusAfter(e.Verdict(t.id)) {
      assert t.id in Ids(e.wave) && TaskCollected(b, a, e.wave, e, t.id);
    }
    AnswersAreCurrent(e.wave, e, a.statuses);
  }

  // Executing and collecting the wave that is due, and reporting it, extends the record
  // by exactly that wave.
  lemma WaveIsRecorded(s: Setup, log: Log, e: Entry, l0: Ledger, l1: Ledger, l2: Ledger, l3: Ledger)
    requires GoodPlan(s) && Orderly(s, log) && IsStep(s, log, e)
    requires Recorded(s, log, l0) && Executed(s.runId, s.decorate, l0, l1, e.wave)
    requires Compared(l1, l2, e.wave, e.wave, e)
    requires l3 == l2.(summaries := l2.summaries + [SummaryOf(|log| + 1, e)])
    ensures Recorded(s, log + [e], l3)
  {
    PendingStep(s, log, e);
    NextIsLawful(s, log);
    LogsExtend(log, e);
    forall t | t in e.wave ensures t.id in l1.statuses {
      assert t.id in Ids(e.wave) && TaskExecuted(s.runId, s.decorate, l0, l1, e.wave, t.id);
    }
    ComparedIsContradicted(e, l1, l2);
    forall id ensures TaskRecorded(s, log + [e], l3, id) {
      TaskIsRecorded(s, log, e, l0, l1, l2, id);
    }
  }

  // --- Single steps of the wave loops ---------------------------------------------------

  function Issued(runId: string, decorate: Assignment -> Assignment, l: Ledger, id: Id): Ledger {
    var assignment := decorate(Assignment(
      AssignmentId(runId, id, RunsOf(l.runCounts, id)), id, l.waveSeq,
      if id in l.replaced then id + "-replacement1" else id + "-agent"));
    l.(issued := l.issued[id := assignment], statuses := l.statuses[id := RUNNING],
       runCounts := l.runCounts[id := RunsOf(l.runCounts, id) + 1])
  }

  lemma OneMore(w: Wave, t: TaskSpec)
    ensures Ids(w + [t]) == Ids(w) + {t.id}
    ensures (w + [t])[..|w|] == w && (w + [t])[|w|] == t
    ensures DistinctIds(w + [t]) ==> t.id !in Ids(w)
  {
    DistinctParts(w, [t]);
    assert Ids([t]) == {t.id};
  }

  lemma IssueStep(runId: string, decorate: Assignment -> Assignment, b: Ledger, m: Ledger, w: Wave, t: TaskSpec)
    requires Executed(runId, decorate, b, m, w) && DistinctIds(w + [t])
    ensures Executed(runId, decorate, b, Issued(runId, decorate, m, t.id), w + [t])
  {
    OneMore(w, t);
    var a := Issued(runId, decorate, m, t.id);
    forall id ensures TaskExecuted(runId, decorate, b, a, w + [t], id) {
      assert TaskExecuted(runId, decorate, b, m, w, id);
    }
  }

  // What a verdict does to the ledger.
  function Judged(l: Ledger, id: Id, v: Verdict): Ledger {
    var marked := l.(statuses := l.statuses[id := StatusAfter(v)]);
    match v
    case Accepted(r) =>
      marked.(completed := l.completed + [id], results := l.results[id := r], evidence := l.evidence + EvidenceFor(r))
    case Failed(f, mismatch) =>
      marked.(failures := l.failures + [f],
              contradictions := l.contradictions + if mismatch then [Mismatch("__validation__", id)] else [])
    case Stale => marked.(contradictions := l.contradictions + [Mismatch("__stale_result__", id)])
  }

  function Dropped(l: Ledger, id: Id): Ledger { l.(pending := Drop(l.pending, id)) }

  function CollectedTask(l: Ledger, id: Id, v: Verdict): Ledger { Judged(Dropped(l, id), id, v) }

  lemma TaskCollectStep(b: Ledger, m: Ledger, w: Wave, e: Entry, t: TaskSpec, id: Id)
    requires TaskCollected(b, m, w, e, id) && t.id !in Ids(w) && t.id in b.statuses && t.id in m.statuses
    ensures TaskCollected(b, CollectedTask(m, t.id, e.Verdict(t.id)), w + [t], e, id)
  {
    OneMore(w, t);
  }

  lemma ListsDropStep(b: Ledger, m: Ledger, w: Wave, v: Wave, e: Entry, t: TaskSpec)
    requires ListsCollected(b, m, w, v, e)
    ensures ListsCollected(b, Dropped(m, t.id), w + [t], v, e)
  {
    ListsExtend(w, e, t);
    hide AcceptedIn, EvidenceIn, FailuresIn, MismatchesIn, DropAll, Drop;
  }

  lemma ListsJudgeStep(b: Ledger, m: Ledger, w: Wave, v: Wave, e: Entry, t: TaskSpec, verdict: Verdict)
    requires ListsCollected(b, m, w, v, e) && verdict == e.Verdict(t.id)
    ensures ListsCollected(b, Judged(m, t.id, verdict), w, v + [t], e)
  {
    hide Judge;
    ListsExtend(v, e, t);
    hide AcceptedIn, EvidenceIn, FailuresIn, MismatchesIn, DropAll, Drop, EvidenceFor;
    var a := Judged(m, t.id, verdict);
    assert a.completed == b.completed + AcceptedIn(v + [t], e);
    assert a.evidence == b.evidence + EvidenceIn(v + [t], e);
    assert a.failures == b.failures + FailuresIn(v + [t], e);
    assert a.contradictions == b.contradictions + MismatchesIn(v + [t], e);
  }

  // One more task of the wave: judged if it is open.
  lemma CollectStep(b: Ledger, m: Ledger, w: Wave, e: Entry, t: TaskSpec)
    requires var v := Judgeable(b.statuses, w); Collected(b, m, w, v, e) && DistinctIds(w + [t])
    ensures IsOpen(m.statuses, t.id) <==> IsOpen(b.statuses, t.id)
    ensures var a := if IsOpen(b.statuses, t.id) then CollectedTask(m, t.id, e.Verdict(t.id)) else Dropped(m, t.id);
      Collected(b, a, w + [t], Judgeable(b.statuses, w + [t]), e)
  {
    hide ListsCollected;
    var v := Judgeable(b.statuses, w);
    OneMore(w, t);
    JudgeableAre(b.statuses, w);
    assert t.id !in Ids(v);
    ListsDropStep(b, m, w, v, e, t);
    ListsJudgeStep(b, Dropped(m, t.id), w + [t], v, e, t, e.Verdict(t.id));
    assert TaskCollected(b, m, v, e, t.id);
    if IsOpen(b.statuses, t.id) {
      assert Judgeable(b.statuses, w + [t]) == v + [t];
      forall id ensures TaskCollected(b, CollectedTask(m, t.id, e.Verdict(t.id)), v + [t], e, id) {
        TaskCollectStep(b, m, v, e, t, id);
      }
    } else {
      assert Judgeable(b.statuses, w + [t]) == v;
      forall id ensures TaskCollected(b, Dropped(m, t.id), v, e, id) { assert TaskCollected(b, m, v, e, id); }
    }
  }

  lemma ListsExtend(w: Wave, e: Entry, t: TaskSpec)
    ensures AcceptedIn(w + [t], e) == AcceptedIn(w, e) + if e.Verdict(t.id).Accepted? then [t.id] else []
    ensures EvidenceIn(w + [t], e)
         == EvidenceIn(w, e) + if e.Verdict(t.id).Accepted? then EvidenceFor(e.Verdict(t.id).result) else []
    ensures FailuresIn(w + [t], e)
         == FailuresIn(w, e) + if e.Verdict(t.id).Failed? then [e.Verdict(t.id).failure] else []
    ensures MismatchesIn(w + [t], e) == MismatchesIn(w, e)
      + match e.Verdict(t.id)
        case Stale => [Mismatch("__stale_result__", t.id)]
        case Failed(_, mismatch) => if mismatch then [Mismatch("__validation__", t.id)] else []
        case Accepted(_) => []
    ensures FailedTasks(w + [t], e) == FailedTasks(w, e) + if e.Verdict(t.id).Failed? then [t] else []
    ensures forall l: seq<Id> :: DropAll(l, w + [t]) == Drop(DropAll(l, w), t.id)
  {
    OneMore(w, t);
  }

  // --- Telemetry ----------------------------------------------------------------------------

  // What the engine measured last; `m` is what it had measured before the run. A wave that
  // times out or raises leaves no measurements of its own.
  function MeasuredAfter(m: Option<WaveRecord>, log: Log): Option<WaveRecord> {
    if log == [] then m else NextMeasured(MeasuredAfter(m, Before(log)), Last(log).output)
  }

  function NextMeasured(m: Option<WaveRecord>, output: WaveOutput): Option<WaveRecord> {
    if output.Output? then Some(output.measured) else m
  }

  function AsList(m: Option<WaveRecord>): seq<WaveRecord> { if m.Some? then [m.value] else [] }

  // Every wave records the engine's last measurements, whether they are its own or not.
  function TelemetryBy(m: Option<WaveRecord>, log: Log): seq<WaveRecord> {
    if log == [] then [] else TelemetryBy(m, Before(log)) + AsList(MeasuredAfter(m, log))
  }

  lemma TelemetryExtends(m: Option<WaveRecord>, log: Log, e: Entry)
    ensures MeasuredAfter(m, log + [e]) == NextMeasured(MeasuredAfter(m, log), e.output)
    ensures TelemetryBy(m, log + [e]) == TelemetryBy(m, log) + AsList(MeasuredAfter(m, log + [e]))
  {
    assert Before(log + [e]) == log;
  }
}
