/** The coding-agent loop step by step, as a function of what its surroundings answer. */
module CodingSteps {
  import opened Bounds
  import opened NoProgress
  import opened Results
  import opened Text

  datatype ExecutionRecord = ExecutionRecord(command: string, exitCode: int, timedOut: bool, failureCode: string) {
    predicate Passed() { exitCode == 0 && !timedOut }
  }

  type Signature = (seq<string>, seq<int>)

  datatype Action = REPAIR | STOP | OTHER(name: string)

  datatype Diagnosis = Diagnosis(observed: string, nextAction: string)

  datatype Mutation = Mutation(path: string, content: string, reason: string)

  datatype Directive = Directive(action: Action, diagnosis: Option<Diagnosis>, mutation: Option<Mutation>)

  datatype PolicyState = ALLOWED | DENIED_BY_POLICY

  datatype Decision = Decision(iteration: nat, directive: Directive, policy: PolicyState)

  datatype LoopError = UnknownAction | MissingDiagnosis | BlankDiagnosis

  datatype FinalState = CANDIDATE_PASSED | CANDIDATE_FAILED | BLOCKED

  datatype Termination = SUCCESS_EVIDENCED | BOUNDS_EXHAUSTED(bound: Bound) | NO_PROGRESS | POLICY_STOP | STOP_REQUESTED

  datatype LoopResult = LoopResult(
    finalState: FinalState, termination: Termination, iterations: nat, decisions: seq<Decision>,
    executions: seq<ExecutionRecord>, mutations: seq<Mutation>, checkpoints: seq<string>)

  // Whoever the loop calls may raise: the sandbox on a checkpoint, a command or an edit
  // (a command that cannot be split into words counts as one), and the decider.
  datatype Call = CHECKPOINT | COMMAND | DECIDER | EDIT

  // `run` ends by returning, by a bound raised while a plan is being executed, by a
  // malformed directive, or by an exception of a call; only the loop head turns a raised
  // bound into a result.
  datatype Exit =
    | Returned(result: LoopResult)
    | BoundEscaped(bound: Bound)
    | Refused(error: LoopError)
    | Raised(call: Call)

  type Round = seq<ExecutionRecord>

  predicate AllPassed(r: Round) { forall i :: 0 <= i < |r| ==> r[i].Passed() }

  function Failing(r: Round): Round {
    if r == [] then [] else (if r[0].Passed() then [] else [r[0]]) + Failing(r[1..])
  }

  function SignatureOf(failing: Round): Signature {
    (seq(|failing|, i requires 0 <= i < |failing| => failing[i].failureCode),
     seq(|failing|, i requires 0 <= i < |failing| => failing[i].exitCode))
  }

  lemma {:induction false} FailingEmpty(r: Round)
    ensures Failing(r) == [] <==> AllPassed(r)
  {
    if r != [] {
      FailingEmpty(r[1..]);
      if AllPassed(r) { assert forall i :: 0 <= i < |r[1..]| ==> r[1..][i] == r[i + 1]; }
      if AllPassed(r[1..]) && r[0].Passed() {
        forall i | 0 <= i < |r| ensures r[i].Passed() {
          if i > 0 { assert r[i] == r[1..][i - 1]; }
        }
      }
    }
  }

  predicate Diagnosed(d: Directive) {
    d.diagnosis.Some? && !Blank(d.diagnosis.value.observed) && !Blank(d.diagnosis.value.nextAction)
  }

  // --- One run, on values ---------------------------------------------------------

  // What the loop and its controller hold between two statements.
  datatype State = State(
    usage: Usage, recent: seq<Signature>, decisions: seq<Decision>, mutations: seq<Mutation>,
    checkpoints: seq<string>, records: seq<ExecutionRecord>)

  function Decided(s: State, d: Decision): State { s.(decisions := s.decisions + [d]) }

  function Repairing(s: State, d: Decision): State {
    s.(usage := s.usage.(repairs := s.usage.repairs + 1),
       mutations := s.mutations + (if d.directive.mutation.Some? then [d.directive.mutation.value] else []))
  }

  function Ran(s: State, round: Round): State {
    s.(usage := s.usage.(commands := s.usage.commands + |round|), records := s.records + round)
  }

  // `_result`: the record of everything so far.
  function ResultOf(s: State, final: FinalState, t: Termination): Exit {
    Returned(LoopResult(final, t, s.usage.iterations, s.decisions, s.records, s.mutations, s.checkpoints))
  }

  function Counted(s: State): State { s.(usage := s.usage.(iterations := s.usage.iterations + 1)) }

  function Commanded(s: State): State { s.(usage := s.usage.(commands := s.usage.commands + 1)) }

  function Recorded(s: State, r: ExecutionRecord): State { s.(records := s.records + [r]) }

  function Checkpointed(s: State): State { s.(checkpoints := s.checkpoints + ["pre-candidate"]) }

  // --- The surroundings ---------------------------------------------------------------

  datatype CommandResult = CommandResult(exitCode: int, timedOut: bool, failureCode: string)

  // Clock, sandbox and decider answer whatever they like, depending on all that has
  // happened so far. The loop never asks twice in one state, so nothing ties one answer to
  // another. `None` and `false` stand for an exception.
  datatype World = World(
    clock: State -> real, checkpoint: State -> bool, run: (State, string) -> Option<CommandResult>,
    decide: State -> Option<Directive>, edit: (State, Mutation) -> bool)

  // --- The steps ------------------------------------------------------------------------

  datatype Cut = Hit(bound: Bound) | Broken

  // `_execute_plan`: the tests in order, up to the first bound or exception.
  function Execute(b: LoopBounds, w: World, tests: seq<string>, s: State): (State, Option<Cut>) {
    if tests == [] then (s, None)
    else
      match Exhausted(b, s.usage, w.clock(s))
      case Some(bound) => (s, Some(Hit(bound)))
      case None =>
        match w.run(Commanded(s), tests[0])
        case None => (Commanded(s), Some(Broken))
        case Some(o) => Execute(b, w, tests[1..], Recorded(Commanded(s), RecordOf(tests[0], o)))
  }

  function RecordOf(command: string, o: CommandResult): ExecutionRecord {
    ExecutionRecord(command, o.exitCode, o.timedOut, o.failureCode)
  }

  function CutExit(cut: Cut): Exit {
    match cut case Hit(bound) => BoundEscaped(bound) case Broken => Raised(COMMAND)
  }

  function Refusal(d: Directive): Option<LoopError> {
    match d.action
    case STOP => None
    case OTHER(_) => Some(UnknownAction)
    case REPAIR =>
      if d.diagnosis.None? then Some(MissingDiagnosis)
      else if Diagnosed(d) then None else Some(BlankDiagnosis)
  }

  function DecisionOn(s: State, d: Directive, authorized: bool): Decision {
    Decision(s.usage.iterations, d, if d.action == REPAIR && !authorized then DENIED_BY_POLICY else ALLOWED)
  }

  datatype Progress = Ended(exit: Exit, state: State) | GoesOn(state: State)

  // The records of the round that led from one state to a later one.
  function NewRecords(s: State, t: State): Round {
    if |s.records| <= |t.records| then t.records[|s.records|..] else []
  }

  // Judging a completed round of a repair.
  function Judged(b: LoopBounds, s: State, t: State): (r: Progress)
    ensures r.GoesOn? ==> r.state.usage == Counted(t).usage
  {
    var c, failing := Counted(t), Failing(NewRecords(s, t));
    if failing == [] then Ended(ResultOf(c, CANDIDATE_PASSED, SUCCESS_EVIDENCED), c)
    else
      var recent := c.recent + [SignatureOf(failing)];
      if WindowFires(recent, b.noProgressThreshold) then
        var e := c.(recent := []);
        Ended(ResultOf(e, BLOCKED, NO_PROGRESS), e)
      else GoesOn(c.(recent := recent))
  }

  // An accepted repair: apply the mutation, run the tests again, judge them.
  function Repair(b: LoopBounds, w: World, tests: seq<string>, s: State, d: Decision): (r: Progress)
    ensures r.GoesOn? ==> r.state.usage.iterations == s.usage.iterations + 1
  {
    var counted := s.(usage := s.usage.(repairs := s.usage.repairs + 1));
    if d.directive.mutation.Some? && !w.edit(counted, d.directive.mutation.value) then Ended(Raised(EDIT), counted)
    else
      ExecuteKeepsIterations(b, w, tests, Repairing(s, d));
      var (t, cut) := Execute(b, w, tests, Repairing(s, d));
      match cut
      case Some(c) => Ended(CutExit(c), t)
      case None => Judged(b, Repairing(s, d), t)
  }

  lemma {:induction false} ExecuteKeepsIterations(b: LoopBounds, w: World, tests: seq<string>, s: State)
    ensures Execute(b, w, tests, s).0.usage.iterations == s.usage.iterations
    decreases |tests|
  {
    if tests != [] {
      var o := w.run(Commanded(s), tests[0]);
      if o.Some? { ExecuteKeepsIterations(b, w, tests[1..], Recorded(Commanded(s), RecordOf(tests[0], o.value))); }
    }
  }

  // One pass of the loop.
  function Turn(b: LoopBounds, w: World, tests: seq<string>, authorized: bool, s: State): (r: Progress)
    ensures r.GoesOn? ==> s.usage.iterations < b.maxIterations && r.state.usage.iterations == s.usage.iterations + 1
  {
    match Exhausted(b, s.usage, w.clock(s))
    case Some(bound) => Ended(ResultOf(s, BLOCKED, BOUNDS_EXHAUSTED(bound)), s)
    case None =>
      match w.decide(s)
      case None => Ended(Raised(DECIDER), s)
      case Some(directive) =>
        if Refusal(directive).Some? then Ended(Refused(Refusal(directive).value), s)
        else
          var d := DecisionOn(s, directive, authorized);
          var t := Decided(s, d);
          if d.policy == DENIED_BY_POLICY then Ended(ResultOf(t, BLOCKED, POLICY_STOP), t)
          else if directive.action == STOP then Ended(ResultOf(t, CANDIDATE_FAILED, STOP_REQUESTED), t)
          else Repair(b, w, tests, t, d)
  }

  function FromHead(b: LoopBounds, w: World, tests: seq<string>, authorized: bool, s: State): (Exit, State)
    decreases b.maxIterations - s.usage.iterations
  {
    match Turn(b, w, tests, authorized, s)
    case Ended(exit, t) => (exit, t)
    case GoesOn(t) => FromHead(b, w, tests, authorized, t)
  }

  // The first execution of the plan, before anything is decided.
  function Begin(b: LoopBounds, w: World, tests: seq<string>, s: State): Progress {
    if !w.checkpoint(s) then Ended(Raised(CHECKPOINT), s)
    else
      var (t, cut) := Execute(b, w, tests, Checkpointed(s));
      match cut
      case Some(c) => Ended(CutExit(c), t)
      case None =>
        var c := Counted(t);
        if Failing(NewRecords(s, t)) == [] then Ended(ResultOf(c, CANDIDATE_PASSED, SUCCESS_EVIDENCED), c)
        else GoesOn(c)
  }

  // The whole run.
  function Play(b: LoopBounds, w: World, tests: seq<string>, allowed: bool, authorized: bool, s: State): (Exit, State) {
    if !allowed then (ResultOf(s, BLOCKED, POLICY_STOP), s)
    else
      match Begin(b, w, tests, s)
      case Ended(exit, t) => (exit, t)
      case GoesOn(t) => FromHead(b, w, tests, authorized, t)
  }
}
