/** Comparing the results of one wave: which claims several of them make, and which of these
    claims are reported as conflicts. */
module Conflicts {
  import opened Orchestration
  import opened Text
  import opened WavePlan
  import opened Dependencies

  // A result that was considered, and the task it was given for.
  datatype Answer = Answer(task: Id, result: AgentResult)

  datatype Contradiction =
    | Mismatch(claim: string, task: Id)
    | Conflict(claim: string, tasks: seq<Id>, statements: seq<string>)

  // The answers that make a claim, in the order they are looked at.
  function Claiming(answers: seq<Answer>, c: string): seq<Answer> {
    if answers == [] then []
    else
      var a := answers[|answers| - 1];
      Claiming(answers[..|answers| - 1], c) + if c in a.result.claims then [a] else []
  }

  function AllClaims(answers: seq<Answer>): seq<string> {
    if answers == [] then []
    else AllClaims(answers[..|answers| - 1]) + FirstMentions(answers[|answers| - 1].result.claims)
  }

  // Both succeeded or both did not, with the same artifacts.
  predicate Agree(a: Answer, b: Answer) {
    (a.result.status == SUCCEEDED <==> b.result.status == SUCCEEDED) && a.result.artifacts == b.result.artifacts
  }

  function Tasks(group: seq<Answer>): seq<Id> { seq(|group|, i requires 0 <= i < |group| => group[i].task) }

  function Summaries(group: seq<Answer>): seq<string> {
    seq(|group|, i requires 0 <= i < |group| => group[i].result.summary)
  }

  function Spoken(texts: seq<string>): seq<string> {
    if texts == [] then [] else (if texts[0] != "" then [texts[0]] else []) + Spoken(texts[1..])
  }

  // Empty summaries are left out, unless there is no other.
  function Statements(group: seq<Answer>): seq<string> {
    if Spoken(Summaries(group)) != [] then Spoken(Summaries(group)) else Summaries(group)
  }

  // Only the first two answers are compared.
  predicate Reported(answers: seq<Answer>, c: string) {
    var group := Claiming(answers, c);
    |group| >= 2 && !Agree(group[0], group[1])
  }

  function ConflictOn(answers: seq<Answer>, c: string): Contradiction {
    Conflict(c, Tasks(Claiming(answers, c)), Statements(Claiming(answers, c)))
  }

  function ConflictsOn(answers: seq<Answer>, claims: seq<string>): seq<Contradiction> {
    if claims == [] then []
    else
      var c := claims[|claims| - 1];
      ConflictsOn(answers, claims[..|claims| - 1]) + if Reported(answers, c) then [ConflictOn(answers, c)] else []
  }

  // What is reported, in the order in which the claims are first made.
  function ConflictsAmong(answers: seq<Answer>): seq<Contradiction> {
    ConflictsOn(answers, FirstMentions(AllClaims(answers)))
  }

  // --- Finding them ------------------------------------------------------------------------

  ghost predicate Grouped(groups: map<string, seq<Answer>>, keys: seq<string>, answers: seq<Answer>) {
    && keys == FirstMentions(AllClaims(answers))
    && (forall c :: c in groups <==> c in keys)
    && forall c :: c in groups ==> groups[c] == Claiming(answers, c)
  }

  // In between: an answer has been entered under some of its claims.
  ghost predicate Entered(groups: map<string, seq<Answer>>, keys: seq<string>, before: seq<Answer>, a: Answer,
                          claims: seq<string>) {
    && keys == FirstMentions(AllClaims(before) + claims)
    && (forall c :: c in groups <==> c in keys)
    && forall c :: c in groups ==> groups[c] == Claiming(before, c) + if c in claims then [a] else []
  }

  lemma {:induction false} ClaimedSomewhere(answers: seq<Answer>, c: string)
    ensures c in AllClaims(answers) <==> Claiming(answers, c) != []
  {
    if answers != [] {
      ClaimedSomewhere(answers[..|answers| - 1], c);
      FirstMentionsAre(answers[|answers| - 1].result.claims);
    }
  }

  lemma OneMoreClaim(groups: map<string, seq<Answer>>, keys: seq<string>, before: seq<Answer>, a: Answer,
                     claims: seq<string>, c: string)
    requires Entered(groups, keys, before, a, claims) && c !in claims
    ensures Entered(groups[c := (if c in groups then groups[c] else []) + [a]],
                    if c in groups then keys else keys + [c], before, a, claims + [c])
  {
    hide FirstMentions, AllClaims, Claiming;
    var all := AllClaims(before) + claims;
    assert AllClaims(before) + (claims + [c]) == all + [c];
    FirstMentionsGrow(all, c);
    FirstMentionsAre(all);
    ClaimedSomewhere(before, c);
    var group := (if c in groups then groups[c] else []) + [a];
    assert group == Claiming(before, c) + [a];
    var more := groups[c := group];
    forall x | x in more ensures more[x] == Claiming(before, x) + if x in claims + [c] then [a] else [] {
      assert x in claims + [c] <==> x in claims || x == c;
    }
  }

  lemma NothingEntered(groups: map<string, seq<Answer>>, keys: seq<string>, before: seq<Answer>, a: Answer)
    requires Grouped(groups, keys, before)
    ensures Entered(groups, keys, before, a, [])
  {
    hide FirstMentions, AllClaims, Claiming;
    assert AllClaims(before) + [] == AllClaims(before);
  }

  lemma AllEntered(groups: map<string, seq<Answer>>, keys: seq<string>, before: seq<Answer>, a: Answer)
    requires Entered(groups, keys, before, a, FirstMentions(a.result.claims))
    ensures Grouped(groups, keys, before + [a])
  {
    hide FirstMentions, AllClaims, Claiming;
    FirstMentionsAre(a.result.claims);
    OneMoreAnswer(before, a);
  }

  lemma OneMoreAnswer(before: seq<Answer>, a: Answer)
    ensures AllClaims(before + [a]) == AllClaims(before) + FirstMentions(a.result.claims)
    ensures forall c :: Claiming(before + [a], c) == Claiming(before, c) + if c in a.result.claims then [a] else []
  {
    hide FirstMentions;
    assert (before + [a])[..|before|] == before;
  }

  // The inner loop: one answer under each of its claims.
  method EnterAnswer(groups: map<string, seq<Answer>>, keys: seq<string>, ghost before: seq<Answer>, a: Answer)
    returns (groups': map<string, seq<Answer>>, keys': seq<string>)
    requires Grouped(groups, keys, before)
    ensures Grouped(groups', keys', before + [a])
  {
    hide Entered, Grouped, FirstMentions;
    groups', keys' := groups, keys;
    var claims := FirstMentions(a.result.claims);
    FirstMentionsAre(a.result.claims);
    NothingEntered(groups, keys, before, a);
    assert claims[..0] == [];
    for k := 0 to |claims|
      invariant Entered(groups', keys', before, a, claims[..k])
    {
      var c := claims[k];
      OneMoreClaim(groups', keys', before, a, claims[..k], c);
      assert claims[..k + 1] == claims[..k] + [c];
      if c !in groups' { keys' := keys' + [c]; }
      groups' := groups'[c := (if c in groups' then groups'[c] else []) + [a]];
    }
    assert claims[..|claims|] == claims;
    AllEntered(groups', keys', before, a);
  }

  method FindConflicts(answers: seq<Answer>) returns (found: seq<Contradiction>)
    ensures found == ConflictsAmong(answers)
  {
    hide Claiming, AllClaims, FirstMentions;
    var keys: seq<string>, groups: map<string, seq<Answer>> := [], map[];
    NoGroups();
    assert answers[..0] == [];
    for i := 0 to |answers|
      invariant Grouped(groups, keys, answers[..i])
    {
      groups, keys := EnterAnswer(groups, keys, answers[..i], answers[i]);
      assert answers[..i + 1] == answers[..i] + [answers[i]];
    }
    assert answers[..|answers|] == answers;
    found := [];
    for k := 0 to |keys|
      invariant found == ConflictsOn(answers, keys[..k])
    {
      var group := groups[keys[k]];
      assert keys[..k + 1][..k] == keys[..k];
      if |group| >= 2 && !Agree(group[0], group[1]) {
        found := found + [Conflict(keys[k], Tasks(group), Statements(group))];
      }
    }
    assert keys[..|keys|] == keys;
  }

  lemma NoGroups()
    ensures Grouped(map[], [], [])
  {}

  // --- What is reported, and what is missed ------------------------------------------------------

  ghost predicate Disputed(answers: seq<Answer>, c: string) {
    var group := Claiming(answers, c);
    exists i, j :: 0 <= i < j < |group| && !Agree(group[i], group[j])
  }

  lemma {:induction false} ConflictsOnAre(answers: seq<Answer>, claims: seq<string>)
    ensures forall x ::
      x in ConflictsOn(answers, claims) <==>
        x.Conflict? && x.claim in claims && Reported(answers, x.claim) && x == ConflictOn(answers, x.claim)
  {
    hide Reported, Claiming;
    if claims != [] {
      var rest, c := claims[..|claims| - 1], claims[|claims| - 1];
      ConflictsOnAre(answers, rest);
      assert forall x :: x in claims <==> x in rest || x == c;
    }
  }

  // The answers to a claim are those of the considered tasks that make it, once each and
  // in order.
  lemma {:induction false} ClaimingAre(answers: seq<Answer>, c: string)
    ensures forall a :: a in Claiming(answers, c) <==> a in answers && c in a.result.claims
    ensures |Claiming(answers, c)| <= |answers|
  {
    if answers != [] {
      var rest := answers[..|answers| - 1];
      ClaimingAre(rest, c);
      assert forall a :: a in answers <==> a in rest || a == answers[|answers| - 1];
    }
  }

  // Every reported conflict is one: two answers make the claim and disagree. It names all
  // tasks whose answers make it.
  lemma ReportedConflictsAreReal(answers: seq<Answer>, x: Contradiction)
    requires x in ConflictsAmong(answers)
    ensures x.Conflict? && Disputed(answers, x.claim)
    ensures exists a, b :: a in answers && b in answers && x.claim in a.result.claims && x.claim in b.result.claims
                           && !Agree(a, b)
    ensures x.tasks == Tasks(Claiming(answers, x.claim))
  {
    ConflictsOnAre(answers, FirstMentions(AllClaims(answers)));
    ClaimingAre(answers, x.claim);
    var group := Claiming(answers, x.claim);
    assert group[0] in group && group[1] in group;
  }

  // A disputed claim is missed exactly when its first two answers agree; the third or a
  // later one then disagrees with both.
  lemma MissedExactlyWhen(answers: seq<Answer>, c: string)
    ensures ConflictOn(answers, c) in ConflictsAmong(answers) <==> Reported(answers, c)
    ensures Disputed(answers, c) && !Reported(answers, c) <==>
      var group := Claiming(answers, c);
      |group| >= 3 && Agree(group[0], group[1])
      && exists k :: 2 <= k < |group| && !Agree(group[0], group[k]) && !Agree(group[1], group[k])
  {
    hide Claiming, AllClaims, FirstMentions, Tasks, Statements;
    var group := Claiming(answers, c);
    ConflictsOnAre(answers, FirstMentions(AllClaims(answers)));
    FirstMentionsAre(AllClaims(answers));
    ClaimedSomewhere(answers, c);
    if |group| >= 2 && Agree(group[0], group[1]) && Disputed(answers, c) {
      var i, j :| 0 <= i < j < |group| && !Agree(group[i], group[j]);
      assert !Agree(group[0], group[i]) || !Agree(group[0], group[j]);
    }
  }

  // So all conflicts are reported of a wave of at most two answers, and none of a single
  // one, ...
  lemma SmallWavesHideNothing(answers: seq<Answer>, c: string)
    ensures |answers| <= 2 ==> (Disputed(answers, c) <==> Reported(answers, c))
    ensures |answers| <= 1 ==> ConflictsAmong(answers) == []
  {
    MissedExactlyWhen(answers, c);
    ClaimingAre(answers, c);
    if |answers| <= 1 && ConflictsAmong(answers) != [] {
      var x := ConflictsAmong(answers)[0];
      ReportedConflictsAreReal(answers, x);
      ClaimingAre(answers, x.claim);
      assert false;
    }
  }

  lemma ThreeClaim(a: Answer, b: Answer, late: Answer, c: string)
    requires c in a.result.claims && c in b.result.claims && c in late.result.claims
    ensures Claiming([a, b, late], c) == [a, b, late]
  {
    assert [a, b, late][..2] == [a, b] && [a, b][..1] == [a] && [a][..0] == [];
    assert Claiming([a], c) == [a];
    assert Claiming([a, b], c) == [a, b];
  }

  // ... and three answers are enough to hide one.
  lemma ThirdAnswerIsIgnored(a: Answer, b: Answer, late: Answer, c: string)
    requires a.result.claims == [c] && b.result.claims == [c] && late.result.claims == [c]
    requires Agree(a, b) && !Agree(a, late)
    ensures Disputed([a, b, late], c) && ConflictsAmong([a, b, late]) == []
  {
    hide Claiming, AllClaims, FirstMentions, Agree;
    var answers := [a, b, late];
    ThreeClaim(a, b, late, c);
    assert !Agree(answers[0], answers[2]);
    if ConflictsAmong(answers) != [] {
      var x := ConflictsAmong(answers)[0];
      ReportedConflictsAreReal(answers, x);
      assert !Reported(answers, c);
      ConflictsOnAre(answers, FirstMentions(AllClaims(answers)));
      assert false;
    }
  }

  // --- The answers of a wave ------------------------------------------------------------------

  // What was answered by tasks that are not cancelled by now.
  function Answers(w: Wave, output: WaveOutput, statuses: map<Id, Status>): seq<Answer> {
    if w == [] || !output.Output? then []
    else
      var id := w[|w| - 1].id;
      Answers(w[..|w| - 1], output, statuses)
      + if id in output.results && !(id in statuses && statuses[id] == CANCELLED) then [Answer(id, output.results[id])]
        else []
  }

  // The answers that were not stale, whether they were accepted or not.
  function CurrentAnswers(w: Wave, e: Entry): seq<Answer> {
    if w == [] || !e.output.Output? then []
    else
      var id := w[|w| - 1].id;
      CurrentAnswers(w[..|w| - 1], e)
      + if id in e.output.results && !e.Verdict(id).Stale? then [Answer(id, e.output.results[id])] else []
  }

  // Once every task of the wave has its verdict, these are the same.
  lemma {:induction false} AnswersAreCurrent(w: Wave, e: Entry, statuses: map<Id, Status>)
    requires forall t :: t in w ==> t.id in statuses && statuses[t.id] == StatusAfter(e.Verdict(t.id))
    ensures Answers(w, e.output, statuses) == CurrentAnswers(w, e)
  {
    hide Judge;
    if w != [] { AnswersAreCurrent(w[..|w| - 1], e, statuses); }
  }

  lemma {:induction false} FewAnswers(w: Wave, e: Entry)
    ensures |CurrentAnswers(w, e)| <= |w|
  {
    if w != [] { FewAnswers(w[..|w| - 1], e); }
  }
}
