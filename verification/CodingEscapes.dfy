/** When a bound can leave the coding loop as an exception instead of becoming a result. */
module CodingEscapes {
  import opened Bounds
  import opened CodingSteps
  import opened NoProgress
  import opened Results
  import opened Text

  const FRESH := State(Usage(0, 0, 0), [], [], [], [], [])

  // Time does not run backwards from the start of the loop.
  ghost predicate ClockRuns(w: World) { forall s :: w.clock(s) >= 0.0 }

  // Round k + 1 can be reached: the loop head found room after k rounds, and the
  // no-progress rule did not have to end the loop before.
  predicate RoundPossible(b: LoopBounds, tests: nat, k: nat) {
    k == 0
    || (k < b.maxIterations && tests * k < b.maxCommands && (k == 1 || b.noProgressThreshold >= 2))
  }

  // ... and it has the repairs and the commands it needs.
  predicate RoundFits(b: LoopBounds, tests: nat, k: nat) {
    k < b.maxRepairAttempts && tests * k + tests <= b.maxCommands
  }

  // Every round that can be reached fits. With no time at all, only the clock matters.
  predicate BoundsFit(b: LoopBounds, tests: nat) {
    && 0 < b.maxIterations
    && (0 < b.maxRuntimeSeconds ==>
          forall k: nat :: k < b.maxIterations && RoundPossible(b, tests, k) ==> RoundFits(b, tests, k))
  }

  ghost predicate CountEscapes(b: LoopBounds, w: World, tests: seq<string>) {
    var exit := Play(b, w, tests, true, true, FRESH).0;
    exit.BoundEscaped? && exit.bound != MaxRuntime
  }

  // --- Bounds that fit ------------------------------------------------------------------

  // A round with room for all its commands is cut short by the clock or a failing call only.
  lemma {:induction false} ExecuteFits(b: LoopBounds, w: World, tests: seq<string>, s: State)
    requires s.usage.iterations < b.maxIterations && s.usage.repairs < b.maxRepairAttempts
    requires s.usage.commands + |tests| <= b.maxCommands
    ensures var (t, cut) := Execute(b, w, tests, s);
      && (cut.Some? && cut.value.Hit? ==> cut.value.bound == MaxRuntime)
      && (cut.None? ==> t.usage == s.usage.(commands := s.usage.commands + |tests|))
    decreases |tests|
  {
    if tests != [] && Exhausted(b, s.usage, w.clock(s)).None? {
      var o := w.run(Commanded(s), tests[0]);
      if o.Some? { ExecuteFits(b, w, tests[1..], Recorded(Commanded(s), RecordOf(tests[0], o.value))); }
    }
  }

  lemma OneEqualIsEnough<S>(h: seq<S>, threshold: int)
    requires h != [] && threshold <= 1
    ensures WindowFires(h, threshold)
  {
    WindowImplementsRule(h, threshold);
  }

  lemma TurnFits(b: LoopBounds, w: World, tests: seq<string>, s: State, k: nat)
    requires BoundsFit(b, |tests|) && ClockRuns(w) && k >= 1 && (k == 1 || b.noProgressThreshold >= 2)
    requires s.usage == Usage(k, |tests| * k, k - 1)
    ensures match Turn(b, w, tests, true, s)
      case Ended(exit, _) => exit.BoundEscaped? ==> exit.bound == MaxRuntime
      case GoesOn(t) => t.usage == Usage(k + 1, |tests| * (k + 1), k) && b.noProgressThreshold >= 2
  {
    var directive := w.decide(s);
    if Exhausted(b, s.usage, w.clock(s)).None? && directive.Some? {
      assert RoundPossible(b, |tests|, k);
      assert RoundFits(b, |tests|, k);
      var d := DecisionOn(s, directive.value, true);
      var r := Repairing(Decided(s, d), d);
      ExecuteFits(b, w, tests, r);
      var t := Execute(b, w, tests, r).0;
      OneRoundMore(|tests|, k);
      var failing := Failing(NewRecords(r, t));
      if b.noProgressThreshold <= 1 {
        OneEqualIsEnough(Counted(t).recent + [SignatureOf(failing)], b.noProgressThreshold);
      }
    }
  }

  lemma {:induction false} HeadFits(b: LoopBounds, w: World, tests: seq<string>, s: State, k: nat)
    requires BoundsFit(b, |tests|) && ClockRuns(w) && k >= 1 && (k == 1 || b.noProgressThreshold >= 2)
    requires s.usage == Usage(k, |tests| * k, k - 1)
    ensures var exit := FromHead(b, w, tests, true, s).0; exit.BoundEscaped? ==> exit.bound == MaxRuntime
    decreases b.maxIterations - k
  {
    TurnFits(b, w, tests, s, k);
    match Turn(b, w, tests, true, s)
    case Ended(_, _) =>
    case GoesOn(t) => HeadFits(b, w, tests, t, k + 1);
  }

  lemma BeginFits(b: LoopBounds, w: World, tests: seq<string>)
    requires BoundsFit(b, |tests|) && ClockRuns(w) && tests != []
    ensures match Begin(b, w, tests, FRESH)
      case Ended(exit, _) => exit.BoundEscaped? ==> exit.bound == MaxRuntime
      case GoesOn(t) => t.usage == Usage(1, |tests|, 0)
  {
    var s := Checkpointed(FRESH);
    assert |tests| * 0 == 0;
    if w.clock(s) < b.maxRuntimeSeconds as real {
      assert 0 < b.maxRuntimeSeconds;
      assert RoundPossible(b, |tests|, 0);
      assert RoundFits(b, |tests|, 0);
      ExecuteFits(b, w, tests, s);
      var (t, cut) := Execute(b, w, tests, s);
      assert cut.Some? && cut.value.Hit? ==> cut.value.bound == MaxRuntime;
      assert cut.Some? && w.checkpoint(FRESH) ==> Begin(b, w, tests, FRESH) == Ended(CutExit(cut.value), t);
    } else {
      assert Execute(b, w, tests, s) == (s, Some(Hit(MaxRuntime)));
    }
  }

  // If every reachable round fits, nothing but the clock escapes, whatever the answers.
  lemma OnlyTheClockEscapes(b: LoopBounds, w: World, tests: seq<string>)
    requires BoundsFit(b, |tests|) && ClockRuns(w) && tests != []
    ensures !CountEscapes(b, w, tests)
  {
    BeginFits(b, w, tests);
    var begin := Begin(b, w, tests, FRESH);
    if begin.GoesOn? { HeadFits(b, w, tests, begin.state, 1); }
  }

  // --- Bounds that do not fit -----------------------------------------------------------

  // A world in which no time passes, every command fails, each with an exit code of its
  // own, and the decider always asks for a repair.
  function Stubborn(): World {
    World((s: State) => 0.0, (s: State) => true,
          (s: State, command: string) => Some(CommandResult(s.usage.commands, false, "")),
          (s: State) => Some(Directive(REPAIR, Some(Diagnosis("failing", "repair")), None)),
          (s: State, m: Mutation) => true)
  }

  // Without room for all its commands, or for a repair, the round is cut short by a count.
  // With room it completes, and its first record fails with the next exit code.
  lemma {:induction false} ExecuteStubborn(b: LoopBounds, tests: seq<string>, s: State)
    requires s.usage.iterations < b.maxIterations && 0 < b.maxRuntimeSeconds
    ensures var (t, cut), fits := Execute(b, Stubborn(), tests, s), s.usage.commands + |tests| <= b.maxCommands;
      && (tests != [] && (!fits || s.usage.repairs >= b.maxRepairAttempts) ==>
            cut.Some? && cut.value.Hit? && cut.value.bound != MaxRuntime)
      && (fits && s.usage.repairs < b.maxRepairAttempts ==>
            && cut.None? && t.usage == s.usage.(commands := s.usage.commands + |tests|)
            && t.recent == s.recent && s.records <= t.records && |t.records| == |s.records| + |tests|
            && (tests != [] ==> t.records[|s.records|] == ExecutionRecord(tests[0], s.usage.commands + 1, false, "")))
    decreases |tests|
  {
    if tests != [] && Exhausted(b, s.usage, 0.0).None? {
      var r := RecordOf(tests[0], CommandResult(Commanded(s).usage.commands, false, ""));
      ExecuteStubborn(b, tests[1..], Recorded(Commanded(s), r));
    }
  }

  // The last signature seen belongs to an earlier round.
  ghost predicate OldSignatures(s: State) {
    s.recent != [] ==>
      var exits := s.recent[|s.recent| - 1].1; exits != [] && exits[0] <= s.usage.commands
  }

  lemma NewSignature(b: LoopBounds, s: State, t: State)
    requires OldSignatures(s) && t.recent == s.recent && b.noProgressThreshold >= 2
    requires |s.records| < |t.records| && t.records[|s.records|].exitCode == s.usage.commands + 1
    requires t.usage.commands > s.usage.commands
    ensures var r := Judged(b, s, t); r.GoesOn? && OldSignatures(r.state) && r.state.usage == Counted(t).usage
  {
    var records := NewRecords(s, t);
    assert records[0] == t.records[|s.records|] && !records[0].Passed();
    var signature := SignatureOf(Failing(records));
    assert Failing(records)[0] == records[0];
    var recent := t.recent + [signature];
    assert !LastEqual(recent, AtLeastOne(b.noProgressThreshold)) by {
      if |recent| >= 2 { assert recent[|recent| - 2] != recent[|recent| - 1]; }
    }
    WindowImplementsRule(recent, b.noProgressThreshold);
  }

  lemma StubbornTurn(b: LoopBounds, tests: seq<string>, s: State)
    requires HasRoom(b, s.usage) && 0 < b.maxRuntimeSeconds
    ensures var d := DecisionOn(s, Stubborn().decide(s).value, true);
      Turn(b, Stubborn(), tests, true, s) == Repair(b, Stubborn(), tests, Decided(s, d), d)
  {
    assert !IsSpace("failing"[0]) && !IsSpace("repair"[0]);
    assert Refusal(Stubborn().decide(s).value).None?;
  }

  // One round of it: cut short by a count where commands or repairs run out, otherwise
  // complete, failing and new.
  lemma StubbornRound(b: LoopBounds, tests: seq<string>, s: State, k: nat, commands: nat)
    requires tests != [] && 0 < b.maxRuntimeSeconds && k >= 1 && s.usage == Usage(k, commands, k - 1)
    requires HasRoom(b, s.usage) && OldSignatures(s)
    ensures var r, fits := Turn(b, Stubborn(), tests, true, s), commands + |tests| <= b.maxCommands;
      if fits && k < b.maxRepairAttempts then
        b.noProgressThreshold >= 2 ==>
          r.GoesOn? && r.state.usage == Usage(k + 1, commands + |tests|, k) && OldSignatures(r.state)
      else r.Ended? && r.exit.BoundEscaped? && r.exit.bound != MaxRuntime
  {
    var w := Stubborn();
    var d := DecisionOn(s, w.decide(s).value, true);
    var r := Repairing(Decided(s, d), d);
    ExecuteStubborn(b, tests, r);
    StubbornTurn(b, tests, s);
    hide Turn, Execute, DecisionOn, Refusal, Diagnosed, Judged, OldSignatures, Failing, SignatureOf;
    var (t, cut) := Execute(b, w, tests, r);
    if commands + |tests| <= b.maxCommands && k < b.maxRepairAttempts && b.noProgressThreshold >= 2 {
      NewSignature(b, r, t);
    }
  }

  // A reachable round that does not fit is run into, or an earlier one is.
  lemma {:induction false} HeadEscapes(b: LoopBounds, tests: seq<string>, s: State, k: nat, bad: nat)
    requires tests != [] && 0 < b.maxRuntimeSeconds && 1 <= k <= bad && k - 1 < b.maxRepairAttempts
    requires RoundPossible(b, |tests|, bad) && !RoundFits(b, |tests|, bad)
    requires s.usage == Usage(k, |tests| * k, k - 1) && OldSignatures(s)
    ensures var exit := FromHead(b, Stubborn(), tests, true, s).0; exit.BoundEscaped? && exit.bound != MaxRuntime
    decreases bad - k
  {
    hide Turn, Execute, OldSignatures;
    Monotone(|tests|, k, bad);
    OneRoundMore(|tests|, k);
    StubbornRound(b, tests, s, k, |tests| * k);
    if RoundFits(b, |tests|, k) {
      HeadEscapes(b, tests, Turn(b, Stubborn(), tests, true, s).state, k + 1, bad);
    }
  }

  lemma OneRoundMore(t: nat, k: nat)
    ensures t * (k + 1) == t * k + t
  {}

  lemma Monotone(t: nat, k: nat, n: nat)
    requires k <= n
    ensures t * k <= t * n
  {}

  lemma BeginEscapes(b: LoopBounds, tests: seq<string>)
    requires tests != [] && !BoundsFit(b, |tests|)
    ensures CountEscapes(b, Stubborn(), tests)
  {
    var s := Checkpointed(FRESH);
    var w := Stubborn();
    if b.maxIterations <= 0 {
      assert Execute(b, w, tests, s) == (s, Some(Hit(MaxIterations)));
    } else {
      var bad: nat :| bad < b.maxIterations && RoundPossible(b, |tests|, bad) && !RoundFits(b, |tests|, bad);
      ExecuteStubborn(b, tests, s);
      if RoundFits(b, |tests|, 0) {
        var t := Execute(b, w, tests, s).0;
        var records := NewRecords(FRESH, t);
        assert records[0] == t.records[0];
        assert Failing(records)[0] == records[0];
        HeadEscapes(b, tests, Counted(t), 1, bad);
      }
    }
  }

  lemma EmptyPlanPasses(b: LoopBounds, w: World)
    ensures !Play(b, w, [], true, true, FRESH).0.BoundEscaped?
  {
    assert Execute(b, w, [], Checkpointed(FRESH)) == (Checkpointed(FRESH), None);
  }

  // No counted bound leaves a fresh loop as an exception exactly when there is nothing to
  // run or every reachable round fits.
  lemma CountEscapesExactlyWhen(b: LoopBounds, tests: seq<string>)
    ensures tests == [] || BoundsFit(b, |tests|) <==> forall w :: ClockRuns(w) ==> !CountEscapes(b, w, tests)
  {
    if tests == [] {
      forall w ensures !CountEscapes(b, w, tests) { EmptyPlanPasses(b, w); }
    } else if BoundsFit(b, |tests|) {
      forall w | ClockRuns(w) ensures !CountEscapes(b, w, tests) { OnlyTheClockEscapes(b, w, tests); }
    } else {
      BeginEscapes(b, tests);
    }
  }

  // --- The clock ----------------------------------------------------------------------------

  ghost predicate Escapes(b: LoopBounds, w: World, tests: seq<string>) {
    Play(b, w, tests, true, true, FRESH).0.BoundEscaped?
  }

  function Slow(b: LoopBounds): World {
    Stubborn().(clock := (s: State) => if b.maxRuntimeSeconds < 0 then 0.0 else b.maxRuntimeSeconds as real)
  }

  // The clock can run out inside any plan, so only the empty plan is safe from every
  // escape: the promise that exhaustion is always reported fails for all others.
  lemma SomeBoundEscapesExactlyWhen(b: LoopBounds, tests: seq<string>)
    ensures tests != [] <==> exists w :: ClockRuns(w) && Escapes(b, w, tests)
  {
    if tests != [] {
      var w, s := Slow(b), Checkpointed(FRESH);
      assert Execute(b, w, tests, s).1.Some?;
      assert ClockRuns(w) && Escapes(b, w, tests);
    } else {
      forall w ensures !Escapes(b, w, tests) { EmptyPlanPasses(b, w); }
    }
  }

  // --- What to choose ---------------------------------------------------------------------

  // Bounds that leave every iteration its repair and its commands fit.
  lemma AmpleBoundsFit(b: LoopBounds, tests: nat)
    requires 0 < b.maxIterations <= b.maxRepairAttempts && tests * b.maxIterations <= b.maxCommands
    ensures BoundsFit(b, tests)
  {
    forall k: nat | k < b.maxIterations && RoundPossible(b, tests, k) ensures RoundFits(b, tests, k) {
      Monotone(tests, k + 1, b.maxIterations);
      assert tests * (k + 1) == tests * k + tests;
    }
  }

  const DEFAULT_BOUNDS := LoopBounds(5, 600, 40, 3, 2)

  // The default bounds fit plans of exactly 20 and exactly 40 tests.
  lemma DefaultBoundsFit(tests: nat)
    requires tests > 0
    ensures BoundsFit(DEFAULT_BOUNDS, tests) <==> tests == 20 || tests == 40
  {
    var b := DEFAULT_BOUNDS;
    assert tests * 0 == 0 && tests * 1 == tests && tests * 2 == tests + tests && tests * 3 == tests + tests + tests;
    assert RoundPossible(b, tests, 0) && RoundPossible(b, tests, 1) == (tests < 40);
    assert RoundPossible(b, tests, 2) == (2 * tests < 40) && RoundPossible(b, tests, 3) == (3 * tests < 40);
    assert RoundFits(b, tests, 0) == (tests <= 40) && RoundFits(b, tests, 1) == (2 * tests <= 40);
    assert RoundFits(b, tests, 2) == (3 * tests <= 40) && !RoundFits(b, tests, 3);
    if tests == 20 || tests == 40 {
      forall k: nat | k < b.maxIterations && RoundPossible(b, tests, k) ensures RoundFits(b, tests, k) {
        if k >= 2 { Monotone(tests, 2, k); }
      }
    }
  }
}
