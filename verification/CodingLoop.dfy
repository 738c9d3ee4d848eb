/** The coding-agent loop, and what every run of it guarantees whatever the clock, the
    sandbox and the decider answer. */
module CodingLoop {
  import opened Bounds
  import opened CodingSteps
  import opened NoProgress
  import opened Numbers
  import opened Results
  import opened Text

  function Flatten(rounds: seq<Round>): seq<ExecutionRecord> {
    if rounds == [] then [] else Flatten(rounds[..|rounds| - 1]) + rounds[|rounds| - 1]
  }

  // The mutations that accepted repair decisions carry, in order.
  function Applied(ds: seq<Decision>): seq<Mutation> {
    if ds == [] then []
    else
      var d := ds[|ds| - 1];
      Applied(ds[..|ds| - 1])
      + (if AcceptedRepair(d) && d.directive.mutation.Some? then [d.directive.mutation.value] else [])
  }

  predicate AcceptedRepair(d: Decision) { d.directive.action == REPAIR && d.policy == ALLOWED }

  function RepairCount(ds: seq<Decision>): nat {
    if ds == [] then 0 else RepairCount(ds[..|ds| - 1]) + (if AcceptedRepair(ds[|ds| - 1]) then 1 else 0)
  }

  function Signatures(rounds: seq<Round>): seq<Signature> {
    seq(|rounds|, i requires 0 <= i < |rounds| => SignatureOf(Failing(rounds[i])))
  }

  // Everything recorded is accounted for by the completed rounds, the records of a round
  // that was cut short, and the decisions.
  ghost predicate Accounted(tests: seq<string>, s0: State, s: State, rounds: seq<Round>, partial: Round,
                            made: seq<Decision>) {
    && s.records == s0.records + Flatten(rounds) + partial
    && s.usage.commands == s0.usage.commands + |Flatten(rounds)| + |partial|
    && s.usage.iterations == s0.usage.iterations + |rounds|
    && s.usage.repairs == s0.usage.repairs + RepairCount(made)
    && s.decisions == s0.decisions + made && s.mutations == s0.mutations + Applied(made)
    && s.checkpoints == s0.checkpoints + ["pre-candidate"]
    && forall i :: 0 <= i < |rounds| ==> RunsTests(rounds[i], tests)
  }

  // Counters never pass their limits, and every completed round had room for one more
  // repair: rounds number at most the repair limit, although the first repairs nothing.
  ghost predicate WithinBounds(b: LoopBounds, s0: State, s: State, rounds: nat) {
    && s.usage.iterations <= Max(s0.usage.iterations, b.maxIterations)
    && s.usage.commands <= Max(s0.usage.commands, b.maxCommands)
    && s.usage.repairs <= Max(s0.usage.repairs, b.maxRepairAttempts)
    && (rounds > 0 ==> s0.usage.repairs + rounds <= b.maxRepairAttempts)
  }

  ghost predicate NoProgressYet(b: LoopBounds, s0: State, s: State, rounds: seq<Round>) {
    && s.recent == s0.recent + Signatures(rounds)
    && (rounds != [] ==> !LastEqual(s.recent, AtLeastOne(b.noProgressThreshold)))
  }

  // At the head of the loop: every round so far failed, and all but the first followed an
  // authorized repair.
  ghost predicate Underway(b: LoopBounds, tests: seq<string>, authorized: bool, s0: State, s: State,
                           rounds: seq<Round>, made: seq<Decision>) {
    && rounds != [] && Accounted(tests, s0, s, rounds, [], made)
    && (forall i :: 0 <= i < |rounds| ==> !AllPassed(rounds[i]))
    && (forall i :: 0 <= i < |made| ==> made[i].directive.action == REPAIR && made[i].policy == ALLOWED && authorized)
    && s.usage.repairs == s0.usage.repairs + |rounds| - 1 && |made| == |rounds| - 1
    && (|tests| > 0 ==> WithinBounds(b, s0, s, |rounds|) && s.usage.repairs < b.maxRepairAttempts)
    && NoProgressYet(b, s0, s, rounds[1..])
  }

  // The loop head had room for the last repair.
  ghost predicate HeadHadRoom(b: LoopBounds, s: State, partial: Round) {
    && s.usage.iterations < b.maxIterations && s.usage.repairs <= b.maxRepairAttempts
    && s.usage.commands - |partial| < b.maxCommands
  }

  // The state had the call that raised succeeded without leaving anything else behind.
  function Mended(s: State, exit: Exit, made: seq<Decision>): State {
    match exit
    case Raised(CHECKPOINT) => Checkpointed(s)
    case Raised(COMMAND) => s.(usage := s.usage.(commands := Max(0, s.usage.commands - 1)))
    case Raised(EDIT) =>
      if made != [] && made[|made| - 1].directive.mutation.Some? then
        s.(mutations := s.mutations + [made[|made| - 1].directive.mutation.value])
      else s
    case _ => s
  }

  // What a run that passed the barrier guarantees, whichever way it ends.
  ghost predicate LawfulRun(b: LoopBounds, w: World, tests: seq<string>, authorized: bool, s0: State, s: State,
                            exit: Exit, rounds: seq<Round>, partial: Round, made: seq<Decision>) {
    && Accounted(tests, s0, Mended(s, exit, made), rounds, partial, made)
    && (|tests| > 0 ==> WithinBounds(b, s0, s, |rounds|))
    // Only the last round can have passed.
    && (forall i :: 0 <= i < |rounds| - 1 ==> !AllPassed(rounds[i]))
    // Only repairs ask for authorization, and only the last decision can be anything else.
    && (forall i :: 0 <= i < |made| ==>
          (made[i].policy == DENIED_BY_POLICY <==> made[i].directive.action == REPAIR && !authorized))
    && (forall i :: 0 <= i < |made| - 1 ==> made[i].directive.action == REPAIR)
    && match exit
       case Returned(r) =>
         && rounds != [] && partial == []
         && exit == ResultOf(s, r.finalState, r.termination)
         && LawfulResult(b, w, tests, authorized, s0, s, r, rounds, made)
       case BoundEscaped(bound) =>
         && Exhausted(b, s.usage, w.clock(s)) == Some(bound)
         && LawfulCut(b, tests, s, rounds, partial, made)
       case Refused(_) => HasRoom(b, s.usage) && LawfulPause(rounds, partial, made)
       case Raised(DECIDER) => HasRoom(b, s.usage) && LawfulPause(rounds, partial, made)
       case Raised(CHECKPOINT) => s == s0 && rounds == [] && partial == [] && made == []
       case Raised(COMMAND) =>
         && s.usage.commands > 0 && HasRoom(b, Mended(s, exit, made).usage)
         && LawfulCut(b, tests, Mended(s, exit, made), rounds, partial, made)
       case Raised(EDIT) =>
         && rounds != [] && made != [] && made[|made| - 1].directive.mutation.Some?
         && LawfulCut(b, tests, s, rounds, partial, made) && partial == []
  }

  // The re-execution after the last decision was cut short.
  ghost predicate LawfulCut(b: LoopBounds, tests: seq<string>, s: State, rounds: seq<Round>, partial: Round,
                            made: seq<Decision>) {
    && (|partial| < |tests| || (partial == [] && rounds != []))
    && (partial != [] ==> s.usage.repairs < b.maxRepairAttempts && s.usage.commands <= b.maxCommands)
    && (rounds != [] ==> !AllPassed(rounds[|rounds| - 1]) && HeadHadRoom(b, s, partial))
    && |made| == |rounds|
  }

  // The last round failed and nothing has been decided on it.
  ghost predicate LawfulPause(rounds: seq<Round>, partial: Round, made: seq<Decision>) {
    && rounds != [] && partial == [] && !AllPassed(rounds[|rounds| - 1]) && |made| == |rounds| - 1
  }

  // Success is decided by the records of the last round; every other way to stop names its
  // cause. A result is only ever returned while a repair is still left.
  ghost predicate LawfulResult(b: LoopBounds, w: World, tests: seq<string>, authorized: bool, s0: State, s: State,
                               r: LoopResult, rounds: seq<Round>, made: seq<Decision>)
    requires rounds != []
  {
    var last := rounds[|rounds| - 1];
    && (|tests| > 0 ==> s.usage.repairs < b.maxRepairAttempts)
    && (r.finalState == CANDIDATE_PASSED <==> AllPassed(last))
    && match r.termination
       case SUCCESS_EVIDENCED => r.finalState == CANDIDATE_PASSED && |made| == |rounds| - 1
       case BOUNDS_EXHAUSTED(bound) =>
         && r.finalState == BLOCKED && |made| == |rounds| - 1
         && Exhausted(b, s.usage, w.clock(s)) == Some(bound)
         && NoProgressYet(b, s0, s, rounds[1..])
       case NO_PROGRESS =>
         && r.finalState == BLOCKED && |made| == |rounds| - 1 > 0
         && LastEqual(s0.recent + Signatures(rounds[1..]), AtLeastOne(b.noProgressThreshold))
         && NoProgressYet(b, s0, s.(recent := s0.recent + Signatures(rounds[1..|rounds| - 1])), rounds[1..|rounds| - 1])
       case POLICY_STOP =>
         r.finalState == BLOCKED && !authorized && |made| == |rounds| && made[|made| - 1].policy == DENIED_BY_POLICY
       case STOP_REQUESTED =>
         r.finalState == CANDIDATE_FAILED && |made| == |rounds| && made[|made| - 1].directive.action == STOP
         && NoProgressYet(b, s0, s, rounds[1..])
  }

  // Executions are tests times completed rounds, plus what a cut-short round recorded.
  lemma {:induction false} ExecutionsAreTestsTimesRounds(tests: seq<string>, rounds: seq<Round>)
    requires forall i :: 0 <= i < |rounds| ==> RunsTests(rounds[i], tests)
    ensures |Flatten(rounds)| == |tests| * |rounds|
    decreases |rounds|
  {
    if rounds != [] {
      ExecutionsAreTestsTimesRounds(tests, rounds[..|rounds| - 1]);
      assert |tests| * |rounds| == |tests| * (|rounds| - 1) + |tests|;
    }
  }

  lemma DecisionAdds(made: seq<Decision>, d: Decision)
    ensures Applied(made + [d]) == Applied(made)
      + (if AcceptedRepair(d) && d.directive.mutation.Some? then [d.directive.mutation.value] else [])
    ensures RepairCount(made + [d]) == RepairCount(made) + if AcceptedRepair(d) then 1 else 0
  {
    assert (made + [d])[..|made + [d]| - 1] == made;
  }

  lemma RoundAdds(rounds: seq<Round>, round: Round)
    ensures Flatten(rounds + [round]) == Flatten(rounds) + round
    ensures rounds != [] ==>
      Signatures((rounds + [round])[1..]) == Signatures(rounds[1..]) + [SignatureOf(Failing(round))]
  {
    assert (rounds + [round])[..|rounds + [round]| - 1] == rounds;
    if rounds != [] { assert (rounds + [round])[1..] == rounds[1..] + [round]; }
  }

  lemma SignatureAdds(s0: State, s: State, rounds: seq<Round>, round: Round, recent: seq<Signature>)
    requires rounds != [] && s.recent == s0.recent + Signatures(rounds[1..])
    requires recent == s.recent + [SignatureOf(Failing(round))]
    ensures recent == s0.recent + Signatures((rounds + [round])[1..])
  {
    RoundAdds(rounds, round);
  }

  // Using the last allowed repair never leads to a result: its round cannot start, so
  // unless the edit itself fails a bound escapes, and none of the tests has judged it.
  lemma LastRepairEscapes(b: LoopBounds, w: World, tests: seq<string>, authorized: bool, s0: State, s: State,
                          exit: Exit, rounds: seq<Round>, partial: Round, made: seq<Decision>)
    requires LawfulRun(b, w, tests, authorized, s0, s, exit, rounds, partial, made) && |tests| > 0
    requires s0.usage.repairs < b.maxRepairAttempts <= s0.usage.repairs + RepairCount(made)
    ensures partial == [] && s.usage.repairs == b.maxRepairAttempts
    ensures exit == BoundEscaped(MaxRepairs) || exit == BoundEscaped(MaxRuntime) || exit == Raised(EDIT)
  {}

  // Authorization is part of what lets a run pass the barrier, and then no decision is
  // ever denied.
  lemma AuthorizedRunIsNeverDenied(b: LoopBounds, w: World, tests: seq<string>, s0: State, s: State, exit: Exit,
                                   rounds: seq<Round>, partial: Round, made: seq<Decision>)
    requires LawfulRun(b, w, tests, true, s0, s, exit, rounds, partial, made)
    ensures forall i :: 0 <= i < |made| ==> made[i].policy == ALLOWED
    ensures exit.Returned? ==> exit.result.termination != POLICY_STOP
  {}

  // --- What the steps do --------------------------------------------------------------

  // The plan's tests run in order; each one run found room, and the cut is the first test
  // that did not, or whose command raised.
  lemma {:induction false} ExecuteDoes(b: LoopBounds, w: World, tests: seq<string>, s: State) returns (round: Round)
    ensures var (t, cut) := Execute(b, w, tests, s);
      && t == (if cut == Some(Broken) then Commanded(Ran(s, round)) else Ran(s, round))
      && NewRecords(s, t) == round
      && |round| <= |tests| && (forall i :: 0 <= i < |round| ==> round[i].command == tests[i])
      && (round != [] ==> HasRoom(b, s.usage) && s.usage.commands + |round| <= b.maxCommands)
      && (cut.None? <==> |round| == |tests|)
      && (cut == Some(Broken) ==> HasRoom(b, Ran(s, round).usage))
      && (cut.Some? && cut.value.Hit? ==> Exhausted(b, t.usage, w.clock(t)) == Some(cut.value.bound))
    decreases |tests|
  {
    round := [];
    assert s.records + [] == s.records;
    if tests != [] && Exhausted(b, s.usage, w.clock(s)).None? {
      var o := w.run(Commanded(s), tests[0]);
      if o.Some? {
        var r := RecordOf(tests[0], o.value);
        var rest := ExecuteDoes(b, w, tests[1..], Recorded(Commanded(s), r));
        round := [r] + rest;
        assert s.records + [r] + rest == s.records + round;
      }
    }
  }

  lemma StopsLawfully(b: LoopBounds, w: World, tests: seq<string>, authorized: bool, s0: State, s: State,
                      rounds: seq<Round>, made: seq<Decision>, d: Decision, final: FinalState, t: Termination)
    requires Underway(b, tests, authorized, s0, s, rounds, made)
    requires d.policy == if d.directive.action == REPAIR && !authorized then DENIED_BY_POLICY else ALLOWED
    requires (final == BLOCKED && t == POLICY_STOP && d.policy == DENIED_BY_POLICY)
          || (final == CANDIDATE_FAILED && t == STOP_REQUESTED && d.directive.action == STOP)
    ensures var s' := Decided(s, d);
      LawfulRun(b, w, tests, authorized, s0, s', ResultOf(s', final, t),
                rounds, [], made + [d])
  {
    StopAccounted(tests, s0, s, rounds, made, d);
    hide Accounted, Failing, SignatureOf, AllPassed, Exhausted, LastEqual, Signatures, RunsTests, HeadHadRoom;
  }

  lemma StopAccounted(tests: seq<string>, s0: State, s: State, rounds: seq<Round>, made: seq<Decision>, d: Decision)
    requires Accounted(tests, s0, s, rounds, [], made) && !AcceptedRepair(d)
    ensures Accounted(tests, s0, Decided(s, d), rounds, [], made + [d])
  {
    hide RunsTests;
    DecisionAdds(made, d);
    assert s.decisions + [d] == s0.decisions + (made + [d]);
    assert s.mutations == s0.mutations + Applied(made + [d]);
  }

  lemma PausesLawfully(b: LoopBounds, w: World, tests: seq<string>, authorized: bool, s0: State, s: State,
                       rounds: seq<Round>, made: seq<Decision>, exit: Exit)
    requires Underway(b, tests, authorized, s0, s, rounds, made)
    requires match exit
             case Refused(_) => HasRoom(b, s.usage)
             case Raised(DECIDER) => HasRoom(b, s.usage)
             case Returned(r) => exists bound ::
               Exhausted(b, s.usage, w.clock(s)) == Some(bound) && exit == ResultOf(s, BLOCKED, BOUNDS_EXHAUSTED(bound))
             case _ => false
    ensures LawfulRun(b, w, tests, authorized, s0, s, exit, rounds, [], made)
  {}

  // An accepted repair, and the records its round got as far as making.
  lemma RepairAccounted(tests: seq<string>, s0: State, s: State, rounds: seq<Round>, made: seq<Decision>, d: Decision,
                        round: Round)
    requires Accounted(tests, s0, s, rounds, [], made)
    requires d.directive.action == REPAIR && d.policy == ALLOWED
    ensures Accounted(tests, s0, Ran(Repairing(Decided(s, d), d), round), rounds, round, made + [d])
    ensures RunsTests(round, tests) ==>
      Accounted(tests, s0, Counted(Ran(Repairing(Decided(s, d), d), round)), rounds + [round], [], made + [d])
  {
    hide Flatten, Applied, RepairCount, RunsTests, Signatures;
    DecisionAdds(made, d);
    RoundAdds(rounds, round);
    assert s.decisions + [d] == s0.decisions + (made + [d]);
    var m := if d.directive.mutation.Some? then [d.directive.mutation.value] else [];
    assert s0.mutations + Applied(made) + m == s0.mutations + (Applied(made) + m);
    assert s0.records + Flatten(rounds) + [] + round == s0.records + Flatten(rounds) + round;
    assert s0.records + Flatten(rounds) + round == s0.records + (Flatten(rounds) + round) + [];
  }

  // The re-execution is cut short: the repair has been applied, its round is incomplete,
  // and no result is produced.
  lemma CutsLawfully(b: LoopBounds, w: World, tests: seq<string>, authorized: bool, s0: State, s: State,
                     rounds: seq<Round>, made: seq<Decision>, d: Decision, partial: Round, t: State, cut: Cut)
    requires Underway(b, tests, authorized, s0, s, rounds, made) && HasRoom(b, s.usage) && |partial| < |tests|
    requires d.directive.action == REPAIR && d.policy == ALLOWED && authorized
    requires var r := Repairing(Decided(s, d), d);
      && t == (if cut == Broken then Commanded(Ran(r, partial)) else Ran(r, partial))
      && (partial != [] ==> HasRoom(b, r.usage) && r.usage.commands + |partial| <= b.maxCommands)
      && (cut == Broken ==> HasRoom(b, Ran(r, partial).usage))
      && (cut.Hit? ==> Exhausted(b, t.usage, w.clock(t)) == Some(cut.bound))
    ensures LawfulRun(b, w, tests, authorized, s0, t, CutExit(cut), rounds, partial, made + [d])
  {
    RepairAccounted(tests, s0, s, rounds, made, d, partial);
    assert Mended(t, CutExit(cut), made + [d]) == Ran(Repairing(Decided(s, d), d), partial);
  }

  // The sandbox refuses the edit: the repair is counted, and nothing else has happened.
  lemma EditFailsLawfully(b: LoopBounds, w: World, tests: seq<string>, authorized: bool, s0: State, s: State,
                          rounds: seq<Round>, made: seq<Decision>, d: Decision, t: State)
    requires Underway(b, tests, authorized, s0, s, rounds, made) && HasRoom(b, s.usage)
    requires d.directive.action == REPAIR && d.policy == ALLOWED && authorized && d.directive.mutation.Some?
    requires t == Decided(s, d).(usage := s.usage.(repairs := s.usage.repairs + 1))
    ensures LawfulRun(b, w, tests, authorized, s0, t, Raised(EDIT), rounds, [], made + [d])
  {
    RepairAccounted(tests, s0, s, rounds, made, d, []);
    var r := Repairing(Decided(s, d), d);
    assert r.records + [] == r.records;
    assert Mended(t, Raised(EDIT), made + [d]) == Ran(r, []);
  }

  lemma RoundWithinBounds(b: LoopBounds, tests: seq<string>, s0: State, s: State, rounds: seq<Round>, d: Decision,
                          round: Round)
    requires |tests| > 0 && |round| == |tests| && WithinBounds(b, s0, s, |rounds|) && HasRoom(b, Repairing(s, d).usage)
    requires s.usage.repairs == s0.usage.repairs + |rounds| - 1
    requires s.usage.commands + |round| <= b.maxCommands
    ensures WithinBounds(b, s0, Counted(Ran(Repairing(Decided(s, d), d), round)), |rounds| + 1)
    ensures s.usage.repairs + 1 < b.maxRepairAttempts
  {}

  lemma RoundKeepsUnderway(b: LoopBounds, tests: seq<string>, authorized: bool, s0: State, s: State,
                           rounds: seq<Round>, made: seq<Decision>, d: Decision, round: Round, recent: seq<Signature>)
    requires Underway(b, tests, authorized, s0, s, rounds, made)
    requires d.directive.action == REPAIR && d.policy == ALLOWED && authorized
    requires RunsTests(round, tests) && !AllPassed(round)
    requires |tests| > 0 ==> HasRoom(b, Repairing(s, d).usage) && s.usage.commands + |round| <= b.maxCommands
    requires recent == s.recent + [SignatureOf(Failing(round))] && !LastEqual(recent, AtLeastOne(b.noProgressThreshold))
    ensures Underway(b, tests, authorized, s0, Counted(Ran(Repairing(Decided(s, d), d), round)).(recent := recent),
                     rounds + [round], made + [d])
  {
    hide Failing, SignatureOf, AllPassed, Exhausted;
    RepairAccounted(tests, s0, s, rounds, made, d, round);
    SignatureAdds(s0, s, rounds, round, recent);
    if |tests| > 0 { RoundWithinBounds(b, tests, s0, s, rounds, d, round); }
    hide LastEqual, Signatures, RunsTests, Flatten, Applied, RepairCount;
  }

  lemma PassesLawfully(b: LoopBounds, w: World, tests: seq<string>, authorized: bool, s0: State, s: State,
                       rounds: seq<Round>, made: seq<Decision>, d: Decision, round: Round)
    requires Underway(b, tests, authorized, s0, s, rounds, made)
    requires d.directive.action == REPAIR && d.policy == ALLOWED && authorized
    requires RunsTests(round, tests) && AllPassed(round)
    requires |tests| > 0 ==> HasRoom(b, Repairing(s, d).usage) && s.usage.commands + |round| <= b.maxCommands
    ensures var s' := Counted(Ran(Repairing(Decided(s, d), d), round));
      LawfulRun(b, w, tests, authorized, s0, s', ResultOf(s', CANDIDATE_PASSED, SUCCESS_EVIDENCED),
                rounds + [round], [], made + [d])
  {
    hide Failing, SignatureOf, AllPassed, Exhausted;
    RepairAccounted(tests, s0, s, rounds, made, d, round);
    if |tests| > 0 { RoundWithinBounds(b, tests, s0, s, rounds, d, round); }
  }

  // The signatures of the repaired rounds are equal for the first time.
  lemma StallSignatures(b: LoopBounds, s0: State, s: State, t: State, rounds: seq<Round>, round: Round)
    requires rounds != [] && NoProgressYet(b, s0, s, rounds[1..])
    requires LastEqual(s.recent + [SignatureOf(Failing(round))], AtLeastOne(b.noProgressThreshold))
    ensures var all := rounds + [round];
      && LastEqual(s0.recent + Signatures(all[1..]), AtLeastOne(b.noProgressThreshold))
      && NoProgressYet(b, s0, t.(recent := s0.recent + Signatures(all[1..|all| - 1])), all[1..|all| - 1])
  {
    SignatureAdds(s0, s, rounds, round, s.recent + [SignatureOf(Failing(round))]);
    MiddleRounds(rounds, round);
    hide Signatures, LastEqual, Failing, SignatureOf;
  }

  lemma StallsLawfully(b: LoopBounds, w: World, tests: seq<string>, authorized: bool, s0: State, s: State,
                       rounds: seq<Round>, made: seq<Decision>, d: Decision, round: Round)
    requires Underway(b, tests, authorized, s0, s, rounds, made)
    requires d.directive.action == REPAIR && d.policy == ALLOWED && authorized
    requires RunsTests(round, tests) && !AllPassed(round)
    requires |tests| > 0 ==> HasRoom(b, Repairing(s, d).usage) && s.usage.commands + |round| <= b.maxCommands
    requires LastEqual(s.recent + [SignatureOf(Failing(round))], AtLeastOne(b.noProgressThreshold))
    ensures var s' := Counted(Ran(Repairing(Decided(s, d), d), round)).(recent := []);
      LawfulRun(b, w, tests, authorized, s0, s', ResultOf(s', BLOCKED, NO_PROGRESS),
                rounds + [round], [], made + [d])
  {
    hide Failing, SignatureOf, AllPassed, Exhausted, NoProgressYet, LastEqual, Signatures;
    var t := Counted(Ran(Repairing(Decided(s, d), d), round)).(recent := []);
    RepairAccounted(tests, s0, s, rounds, made, d, round);
    StallSignatures(b, s0, s, t, rounds, round);
    if |tests| > 0 { RoundWithinBounds(b, tests, s0, s, rounds, d, round); }
    MiddleRounds(rounds, round);
    assert Mended(t, ResultOf(t, BLOCKED, NO_PROGRESS), made + [d]) == t;
    hide WithinBounds;
  }

  lemma MiddleRounds(rounds: seq<Round>, round: Round)
    requires rounds != []
    ensures var all := rounds + [round]; all[1..|all| - 1] == rounds[1..] && all[|all| - 1] == round
    ensures forall i :: 0 <= i < |rounds| ==> (rounds + [round])[i] == rounds[i]
  {}

  // The first round: nothing has been decided yet.
  lemma FirstRound(tests: seq<string>, s0: State, s: State, round: Round)
    requires s == Ran(Checkpointed(s0), round)
    ensures Accounted(tests, s0, s, [], round, [])
    ensures RunsTests(round, tests) ==> Accounted(tests, s0, Counted(s), [round], [], [])
  {
    RoundAdds([], round);
    assert [] + [round] == [round] && Flatten([]) == [] && [] + round == round;
  }

  lemma FirstCutLawfully(b: LoopBounds, w: World, tests: seq<string>, authorized: bool, s0: State, partial: Round,
                         t: State, cut: Cut)
    requires |partial| < |tests|
    requires var s := Ran(Checkpointed(s0), partial);
      && t == (if cut == Broken then Commanded(s) else s)
      && (partial != [] ==> HasRoom(b, s0.usage) && s.usage.commands <= b.maxCommands)
      && (cut == Broken ==> HasRoom(b, s.usage))
      && (cut.Hit? ==> Exhausted(b, t.usage, w.clock(t)) == Some(cut.bound))
    ensures LawfulRun(b, w, tests, authorized, s0, t, CutExit(cut), [], partial, [])
  {
    FirstRound(tests, s0, Ran(Checkpointed(s0), partial), partial);
    assert Mended(t, CutExit(cut), []) == Ran(Checkpointed(s0), partial);
  }

  lemma FirstRoundLawfully(b: LoopBounds, w: World, tests: seq<string>, authorized: bool, s0: State, s: State,
                           round: Round)
    requires s == Counted(Ran(Checkpointed(s0), round)) && RunsTests(round, tests)
    requires round != [] ==> HasRoom(b, s0.usage) && s.usage.commands <= b.maxCommands
    ensures AllPassed(round) ==>
      LawfulRun(b, w, tests, authorized, s0, s, ResultOf(s, CANDIDATE_PASSED, SUCCESS_EVIDENCED), [round], [], [])
    ensures !AllPassed(round) ==> Underway(b, tests, authorized, s0, s, [round], [])
  {
    FirstRound(tests, s0, Ran(Checkpointed(s0), round), round);
    assert Signatures([round][1..]) == [];
  }

  lemma NoCheckpointLawfully(b: LoopBounds, w: World, tests: seq<string>, authorized: bool, s0: State)
    ensures LawfulRun(b, w, tests, authorized, s0, s0, Raised(CHECKPOINT), [], [], [])
  {
    assert s0.records + [] + [] == s0.records && s0.mutations + [] == s0.mutations && s0.decisions + [] == s0.decisions;
  }

  // --- The run as a whole -----------------------------------------------------------------

  // An accepted repair ends lawfully or leads to the next pass.
  lemma RepairIsLawful(b: LoopBounds, w: World, tests: seq<string>, authorized: bool, s0: State, s: State,
                       before: seq<Round>, madeBefore: seq<Decision>, d: Decision)
    returns (rounds: seq<Round>, partial: Round, made: seq<Decision>)
    requires Underway(b, tests, authorized, s0, s, before, madeBefore) && HasRoom(b, s.usage)
    requires d.directive.action == REPAIR && d.policy == ALLOWED && authorized
    ensures match Repair(b, w, tests, Decided(s, d), d)
      case Ended(exit, t) => LawfulRun(b, w, tests, authorized, s0, t, exit, rounds, partial, made)
      case GoesOn(t) => Underway(b, tests, authorized, s0, t, rounds, made)
  {
    hide LawfulRun, Underway;
    rounds, partial, made := before, [], madeBefore + [d];
    var r := Repairing(Decided(s, d), d);
    var counted := Decided(s, d).(usage := s.usage.(repairs := s.usage.repairs + 1));
    if d.directive.mutation.Some? && !w.edit(counted, d.directive.mutation.value) {
      EditFailsLawfully(b, w, tests, authorized, s0, s, before, madeBefore, d, counted);
      return;
    }
    var round := ExecuteDoes(b, w, tests, r);
    var (t, cut) := Execute(b, w, tests, r);
    if cut.Some? {
      partial := round;
      CutsLawfully(b, w, tests, authorized, s0, s, before, madeBefore, d, round, t, cut.value);
      return;
    }
    rounds := before + [round];
    FailingEmpty(round);
    var recent := s.recent + [SignatureOf(Failing(round))];
    WindowImplementsRule(recent, b.noProgressThreshold);
    if Failing(round) == [] {
      PassesLawfully(b, w, tests, authorized, s0, s, before, madeBefore, d, round);
    } else if WindowFires(recent, b.noProgressThreshold) {
      StallsLawfully(b, w, tests, authorized, s0, s, before, madeBefore, d, round);
    } else {
      RoundKeepsUnderway(b, tests, authorized, s0, s, before, madeBefore, d, round, recent);
    }
  }

  lemma TurnIsLawful(b: LoopBounds, w: World, tests: seq<string>, authorized: bool, s0: State, s: State,
                     before: seq<Round>, madeBefore: seq<Decision>)
    returns (rounds: seq<Round>, partial: Round, made: seq<Decision>)
    requires Underway(b, tests, authorized, s0, s, before, madeBefore)
    ensures match Turn(b, w, tests, authorized, s)
      case Ended(exit, t) => LawfulRun(b, w, tests, authorized, s0, t, exit, rounds, partial, made)
      case GoesOn(t) => Underway(b, tests, authorized, s0, t, rounds, made)
  {
    hide LawfulRun, Underway, Repair;
    rounds, partial, made := before, [], madeBefore;
    var exhausted := Exhausted(b, s.usage, w.clock(s));
    if exhausted.Some? {
      PausesLawfully(b, w, tests, authorized, s0, s, before, made,
                     ResultOf(s, BLOCKED, BOUNDS_EXHAUSTED(exhausted.value)));
      return;
    }
    var directive := w.decide(s);
    if directive.None? {
      PausesLawfully(b, w, tests, authorized, s0, s, before, made, Raised(DECIDER));
      return;
    }
    var refusal := Refusal(directive.value);
    if refusal.Some? {
      PausesLawfully(b, w, tests, authorized, s0, s, before, made, Refused(refusal.value));
      return;
    }
    var d := DecisionOn(s, directive.value, authorized);
    if d.policy == DENIED_BY_POLICY {
      StopsLawfully(b, w, tests, authorized, s0, s, before, made, d, BLOCKED, POLICY_STOP);
      made := made + [d];
    } else if directive.value.action == STOP {
      StopsLawfully(b, w, tests, authorized, s0, s, before, made, d, CANDIDATE_FAILED, STOP_REQUESTED);
      made := made + [d];
    } else {
      rounds, partial, made := RepairIsLawful(b, w, tests, authorized, s0, s, before, made, d);
    }
  }

  lemma {:induction false} HeadIsLawful(b: LoopBounds, w: World, tests: seq<string>, authorized: bool, s0: State,
                                        s: State, before: seq<Round>, madeBefore: seq<Decision>)
    returns (rounds: seq<Round>, partial: Round, made: seq<Decision>)
    requires Underway(b, tests, authorized, s0, s, before, madeBefore)
    ensures var (exit, t) := FromHead(b, w, tests, authorized, s);
      LawfulRun(b, w, tests, authorized, s0, t, exit, rounds, partial, made)
    decreases b.maxIterations - s.usage.iterations
  {
    hide LawfulRun, Underway, Turn;
    rounds, partial, made := TurnIsLawful(b, w, tests, authorized, s0, s, before, madeBefore);
    var turn := Turn(b, w, tests, authorized, s);
    if turn.GoesOn? {
      rounds, partial, made := HeadIsLawful(b, w, tests, authorized, s0, turn.state, rounds, made);
    }
  }

  // Every run that passed the barrier is lawful: `rounds` are its completed rounds,
  // `partial` what a round cut short still recorded, `made` its decisions.
  lemma PlayIsLawful(b: LoopBounds, w: World, tests: seq<string>, authorized: bool, s0: State)
    returns (rounds: seq<Round>, partial: Round, made: seq<Decision>)
    ensures var (exit, t) := Play(b, w, tests, true, authorized, s0);
      LawfulRun(b, w, tests, authorized, s0, t, exit, rounds, partial, made)
  {
    hide LawfulRun, Underway, FromHead;
    rounds, partial, made := [], [], [];
    if !w.checkpoint(s0) {
      NoCheckpointLawfully(b, w, tests, authorized, s0);
      return;
    }
    var round := ExecuteDoes(b, w, tests, Checkpointed(s0));
    var (t, cut) := Execute(b, w, tests, Checkpointed(s0));
    if cut.Some? {
      partial := round;
      FirstCutLawfully(b, w, tests, authorized, s0, round, t, cut.value);
      return;
    }
    rounds := [round];
    FailingEmpty(round);
    FirstRoundLawfully(b, w, tests, authorized, s0, Counted(t), round);
    if Failing(round) != [] {
      rounds, partial, made := HeadIsLawful(b, w, tests, authorized, s0, Counted(t), [round], []);
    }
  }

  // --- The loop object ----------------------------------------------------------------------

  class CodingAgentLoop {
    const bounds: LoopBoundsController<Signature>
    var decisions: seq<Decision>
    var mutations: seq<Mutation>
    var checkpoints: seq<string>
    var records: seq<ExecutionRecord>

    constructor (limits: LoopBounds)
      ensures fresh(bounds) && bounds.bounds == limits
      ensures Snapshot() == State(Usage(0, 0, 0), [], [], [], [], [])
    {
      bounds := new LoopBoundsController<Signature>(limits);
      decisions, mutations, checkpoints, records := [], [], [], [];
    }

    function Snapshot(): State
      reads this, bounds
    {
      State(bounds.usage, bounds.recentSignatures, decisions, mutations, checkpoints, records)
    }

    // One command: nothing runs unless every bound has room.
    method ExecuteCommand(command: string, w: World) returns (cut: Option<Cut>)
      modifies this`records, bounds`usage
      ensures (Snapshot(), cut) == Execute(bounds.bounds, w, [command], old(Snapshot()))
    {
      var exhausted := bounds.Check(w.clock(Snapshot()));
      if exhausted.Some? { return Some(Hit(exhausted.value)); }
      bounds.RecordCommand();
      var result := w.run(Snapshot(), command);
      if result.None? { return Some(Broken); }
      records := records + [RecordOf(command, result.value)];
      cut := None;
    }

    // One round of the plan's tests, cut short by the first bound or exception.
    method ExecutePlan(tests: seq<string>, w: World) returns (cut: Option<Cut>)
      modifies this`records, bounds`usage
      ensures (Snapshot(), cut) == Execute(bounds.bounds, w, tests, old(Snapshot()))
    {
      cut := None;
      for i := 0 to |tests|
        invariant cut.None?
        invariant Execute(bounds.bounds, w, tests[i..], Snapshot()) == Execute(bounds.bounds, w, tests, old(Snapshot()))
      {
        ghost var s := Snapshot();
        NextTest(bounds.bounds, w, tests[i..], s);
        assert tests[i..][0] == tests[i] && tests[i..][1..] == tests[i + 1..];
        cut := ExecuteCommand(tests[i], w);
        if cut.Some? { return; }
      }
    }

    // The policy gate: an unauthorized repair is recorded but never carried out.
    method Decide(directive: Directive, authorized: bool) returns (error: Option<LoopError>, decision: Decision)
      modifies this`decisions
      ensures decision == DecisionOn(old(Snapshot()), directive, authorized) && error == Refusal(directive)
      ensures decisions == if error.None? then old(decisions) + [decision] else old(decisions)
      ensures error.None? <==> directive.action == STOP || (directive.action == REPAIR && Diagnosed(directive))
      ensures error == Some(UnknownAction) <==> directive.action.OTHER?
    {
      decision := Decision(bounds.usage.iterations, directive, ALLOWED);
      if directive.action == REPAIR && !authorized { decision := decision.(policy := DENIED_BY_POLICY); }
      if directive.action.OTHER? { return Some(UnknownAction), decision; }
      if directive.action == REPAIR {
        if directive.diagnosis.None? { return Some(MissingDiagnosis), decision; }
        if Blank(directive.diagnosis.value.observed) || Blank(directive.diagnosis.value.nextAction) {
          return Some(BlankDiagnosis), decision;
        }
      }
      decisions := decisions + [decision];
      error := None;
    }

    method Result(finalState: FinalState, termination: Termination) returns (r: Exit)
      ensures r == ResultOf(Snapshot(), finalState, termination)
    {
      r := Returned(LoopResult(finalState, termination, bounds.usage.iterations,
              decisions, records, mutations, checkpoints));
    }

    // The whole run: exactly the steps its surroundings' answers lead to, and lawful
    // whatever they are.
    method Run(tests: seq<string>, allowed: bool, authorized: bool, w: World)
      returns (exit: Exit, ghost rounds: seq<Round>, ghost partial: Round, ghost made: seq<Decision>)
      modifies this, bounds
      ensures (exit, Snapshot()) == Play(bounds.bounds, w, tests, allowed, authorized, old(Snapshot()))
      // Without a PASS verdict nothing happens at all.
      ensures !allowed ==> Snapshot() == old(Snapshot()) && exit == ResultOf(Snapshot(), BLOCKED, POLICY_STOP)
      ensures allowed ==>
        LawfulRun(bounds.bounds, w, tests, authorized, old(Snapshot()), Snapshot(), exit, rounds, partial, made)
    {
      hide LawfulRun, FromHead;
      rounds, partial, made := PlayIsLawful(bounds.bounds, w, tests, authorized, Snapshot());
      if !allowed {
        exit := Result(BLOCKED, POLICY_STOP);
        return;
      }
      if !w.checkpoint(Snapshot()) { return Raised(CHECKPOINT), rounds, partial, made; }
      var before := |records|;
      checkpoints := checkpoints + ["pre-candidate"];
      var cut := ExecutePlan(tests, w);
      if cut.Some? { return CutExit(cut.value), rounds, partial, made; }
      ghost var t := Snapshot();
      RecordsGrow(bounds.bounds, w, tests, Checkpointed(old(Snapshot())));
      var _ := bounds.RecordIteration();
      assert Snapshot() == Counted(t);
      if Failing(records[before..]) == [] {
        exit := Result(CANDIDATE_PASSED, SUCCESS_EVIDENCED);
        return;
      }
      exit := RepairUntilDone(tests, authorized, w);
    }

    // The loop proper, entered after a first failing round.
    method RepairUntilDone(tests: seq<string>, authorized: bool, w: World) returns (exit: Exit)
      modifies this, bounds
      ensures (exit, Snapshot()) == FromHead(bounds.bounds, w, tests, authorized, old(Snapshot()))
    {
      hide Turn;
      while true
        invariant FromHead(bounds.bounds, w, tests, authorized, Snapshot())
               == FromHead(bounds.bounds, w, tests, authorized, old(Snapshot()))
        decreases bounds.bounds.maxIterations - bounds.usage.iterations
      {
        ghost var s := Snapshot();
        var goOn;
        exit, goOn := TakeTurn(tests, authorized, w);
        if !goOn { return; }
      }
    }

    // One pass of the loop: check the bounds, ask the decider, act on the decision.
    method TakeTurn(tests: seq<string>, authorized: bool, w: World) returns (exit: Exit, goOn: bool)
      modifies this, bounds
      ensures Turn(bounds.bounds, w, tests, authorized, old(Snapshot())) == Now(goOn, exit, Snapshot())
    {
      hide Repair;
      goOn := false;
      var exhausted := bounds.Check(w.clock(Snapshot()));
      if exhausted.Some? {
        exit := Result(BLOCKED, BOUNDS_EXHAUSTED(exhausted.value));
        return;
      }
      var directive := w.decide(Snapshot());
      if directive.None? { return Raised(DECIDER), false; }
      var error, decision := Decide(directive.value, authorized);
      if error.Some? { return Refused(error.value), false; }
      if decision.policy == DENIED_BY_POLICY {
        exit := Result(BLOCKED, POLICY_STOP);
      } else if directive.value.action == STOP {
        exit := Result(CANDIDATE_FAILED, STOP_REQUESTED);
      } else {
        exit, goOn := RepairRound(tests, w, decision);
      }
    }

    // The repair path of one turn: mutate, re-execute, judge the new records.
    method RepairRound(tests: seq<string>, w: World, decision: Decision) returns (exit: Exit, goOn: bool)
      modifies this, bounds
      ensures Repair(bounds.bounds, w, tests, old(Snapshot()), decision) == Now(goOn, exit, Snapshot())
    {
      goOn := false;
      bounds.RecordRepair();
      if decision.directive.mutation.Some? {
        if !w.edit(Snapshot(), decision.directive.mutation.value) { return Raised(EDIT), false; }
        mutations := mutations + [decision.directive.mutation.value];
      }
      var before := |records|;
      ghost var r := Snapshot();
      assert r == Repairing(old(Snapshot()), decision);
      var cut := ExecutePlan(tests, w);
      if cut.Some? { return CutExit(cut.value), false; }
      ghost var t := Snapshot();
      RecordsGrow(bounds.bounds, w, tests, r);
      var _ := bounds.RecordIteration();
      assert Snapshot() == Counted(t);
      var failing := Failing(records[before..]);
      if failing == [] {
        exit := Result(CANDIDATE_PASSED, SUCCESS_EVIDENCED);
        return;
      }
      WindowImplementsRule(bounds.recentSignatures + [SignatureOf(failing)], bounds.bounds.noProgressThreshold);
      var noProgress := bounds.RecordExecutionSignature(SignatureOf(failing));
      exit := Result(BLOCKED, NO_PROGRESS);
      goOn := !noProgress;
    }
  }

  function Now(goOn: bool, exit: Exit, s: State): Progress { if goOn then GoesOn(s) else Ended(exit, s) }

  lemma NextTest(b: LoopBounds, w: World, tests: seq<string>, s: State)
    requires tests != []
    ensures var (t, cut) := Execute(b, w, [tests[0]], s);
      Execute(b, w, tests, s) == if cut.Some? then (t, cut) else Execute(b, w, tests[1..], t)
  {
    if Exhausted(b, s.usage, w.clock(s)).None? {
      var o := w.run(Commanded(s), tests[0]);
      if o.Some? {
        var r := Recorded(Commanded(s), RecordOf(tests[0], o.value));
        assert [tests[0]][1..] == [];
        assert Execute(b, w, [], r) == (r, None);
      }
    }
  }

  lemma RecordsGrow(b: LoopBounds, w: World, tests: seq<string>, s: State)
    ensures var t := Execute(b, w, tests, s).0;
      |s.records| <= |t.records| && NewRecords(s, t) == t.records[|s.records|..]
  {
    var _ := ExecuteDoes(b, w, tests, s);
  }

  predicate RunsTests(round: Round, tests: seq<string>) {
    |round| == |tests| && forall i :: 0 <= i < |round| ==> round[i].command == tests[i]
  }
}
