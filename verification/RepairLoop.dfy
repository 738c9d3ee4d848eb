/** The evidence-bound repair loop: which claim it repairs and how often it goes round. */
module RepairLoop {
  import opened Bounds
  import opened NoProgress
  import opened Numbers
  import opened Results

  type ClaimId = string

  datatype Assessment = SUPPORTING | CONTRADICTING | INSUFFICIENT | CONFLICTING

  // `authorized` has three values: unknown (None) is not a refusal.
  datatype Delta = Delta(claimId: ClaimId, authorized: Option<bool>, intentAlignment: string)

  datatype Alignment = Alignment(claimId: ClaimId, status: string)

  datatype Evidence = Evidence(claimId: ClaimId, evidenceId: string)

  datatype Findings = Findings(
    deltas: seq<Delta>, alignments: seq<Alignment>, claims: map<ClaimId, Assessment>, evidence: seq<Evidence>,
    observed: string)

  // --- The affected claim --------------------------------------------------------

  function FirstDelta(ds: seq<Delta>, c: ClaimId): Option<Delta> {
    if ds == [] then None else if ds[0].claimId == c then Some(ds[0]) else FirstDelta(ds[1..], c)
  }

  function FirstAlignment(xs: seq<Alignment>, c: ClaimId): Option<Alignment> {
    if xs == [] then None else if xs[0].claimId == c then Some(xs[0]) else FirstAlignment(xs[1..], c)
  }

  // Only the first delta and the first alignment of a claim are looked at.
  predicate NeedsRepair(f: Findings, c: ClaimId) {
    var d, a := FirstDelta(f.deltas, c), FirstAlignment(f.alignments, c);
    || (d.Some? && (d.value.authorized == Some(false) || d.value.intentAlignment == "PENDING"))
    || (a.Some? && a.value.status == "PENDING")
    || (c in f.claims && f.claims[c] == CONTRADICTING)
  }

  function DeltaClaims(ds: seq<Delta>): seq<ClaimId> { seq(|ds|, i requires 0 <= i < |ds| => ds[i].claimId) }

  function AlignmentClaims(xs: seq<Alignment>): seq<ClaimId> { seq(|xs|, i requires 0 <= i < |xs| => xs[i].claimId) }

  function MentionedClaims(f: Findings): seq<ClaimId> { DeltaClaims(f.deltas) + AlignmentClaims(f.alignments) }

  // The first mentioned claim that needs repair.
  ghost predicate IsAffected(f: Findings, r: Option<ClaimId>) {
    var m := MentionedClaims(f);
    match r
    case None => forall k :: 0 <= k < |m| ==> !NeedsRepair(f, m[k])
    case Some(c) =>
      NeedsRepair(f, c) && exists k :: 0 <= k < |m| && m[k] == c && forall j :: 0 <= j < k ==> !NeedsRepair(f, m[j])
  }

  // A list without repeats that mentions claims in the order of their first mention.
  ghost predicate FirstMentions(keys: seq<ClaimId>, m: seq<ClaimId>) {
    && (forall c :: c in m ==> c in keys)
    && forall k :: 0 <= k < |keys| ==> FirstMentionedAfter(keys, m, k)
  }

  ghost predicate FirstMentionedAfter(keys: seq<ClaimId>, m: seq<ClaimId>, k: nat)
    requires k < |keys|
  {
    exists i :: 0 <= i < |m| && m[i] == keys[k] && forall j :: 0 <= j < i ==> m[j] in keys[..k]
  }

  lemma MentionOneMore(keys: seq<ClaimId>, m: seq<ClaimId>, c: ClaimId)
    requires FirstMentions(keys, m)
    ensures c in keys ==> FirstMentions(keys, m + [c])
    ensures c !in keys ==> FirstMentions(keys + [c], m + [c])
  {
    var m' := m + [c];
    var keys' := if c in keys then keys else keys + [c];
    forall k | 0 <= k < |keys'| ensures FirstMentionedAfter(keys', m', k) {
      assert keys'[..k] == keys[..k];
      if k < |keys| {
        assert FirstMentionedAfter(keys, m, k);
        var i :| 0 <= i < |m| && m[i] == keys[k] && forall j :: 0 <= j < i ==> m[j] in keys[..k];
        assert m'[i] == keys'[k];
      } else {
        assert m'[|m|] == c == keys'[k] && keys[..k] == keys;
      }
    }
  }

  lemma AffectedByKeys(f: Findings, keys: seq<ClaimId>, k: nat)
    requires FirstMentions(keys, MentionedClaims(f)) && k <= |keys|
    requires forall j :: 0 <= j < k ==> !NeedsRepair(f, keys[j])
    requires k < |keys| ==> NeedsRepair(f, keys[k])
    ensures IsAffected(f, if k < |keys| then Some(keys[k]) else None)
  {
    var m := MentionedClaims(f);
    if k < |keys| {
      assert FirstMentionedAfter(keys, m, k);
      var i :| 0 <= i < |m| && m[i] == keys[k] && forall j :: 0 <= j < i ==> m[j] in keys[..k];
      assert forall j :: 0 <= j < i ==> !NeedsRepair(f, m[j]);
    } else {
      forall i | 0 <= i < |m| ensures !NeedsRepair(f, m[i]) {
        assert m[i] in keys;
      }
    }
  }

  lemma {:induction false} FirstDeltaAppends(ds: seq<Delta>, d: Delta, c: ClaimId)
    ensures FirstDelta(ds + [d], c)
         == if FirstDelta(ds, c).Some? then FirstDelta(ds, c) else if d.claimId == c then Some(d) else None
  {
    if ds != [] {
      assert (ds + [d])[1..] == ds[1..] + [d];
      FirstDeltaAppends(ds[1..], d, c);
    }
  }

  lemma {:induction false} FirstAlignmentAppends(xs: seq<Alignment>, a: Alignment, c: ClaimId)
    ensures FirstAlignment(xs + [a], c)
         == if FirstAlignment(xs, c).Some? then FirstAlignment(xs, c) else if a.claimId == c then Some(a) else None
  {
    if xs != [] {
      assert (xs + [a])[1..] == xs[1..] + [a];
      FirstAlignmentAppends(xs[1..], a, c);
    }
  }

  ghost predicate DeltaIndex(ds: seq<Delta>, m: map<ClaimId, Delta>) {
    forall c {:trigger FirstDelta(ds, c)} {:trigger c in m} :: FirstDelta(ds, c) == if c in m then Some(m[c]) else None
  }

  ghost predicate AlignmentIndex(xs: seq<Alignment>, m: map<ClaimId, Alignment>) {
    forall c {:trigger FirstAlignment(xs, c)} {:trigger c in m} ::
      FirstAlignment(xs, c) == if c in m then Some(m[c]) else None
  }

  // The first delta of every claim, and the claims in the order of their first delta.
  method IndexDeltas(ds: seq<Delta>) returns (byClaim: map<ClaimId, Delta>, keys: seq<ClaimId>)
    ensures DeltaIndex(ds, byClaim) && forall c :: c in keys <==> c in byClaim
    ensures FirstMentions(keys, DeltaClaims(ds))
  {
    byClaim, keys := map[], [];
    ghost var m := DeltaClaims(ds);
    for i := 0 to |ds|
      invariant FirstMentions(keys, m[..i]) && DeltaIndex(ds[..i], byClaim)
      invariant forall c :: c in keys <==> c in byClaim
    {
      MentionOneMore(keys, m[..i], ds[i].claimId);
      assert m[..i + 1] == m[..i] + [ds[i].claimId] && ds[..i + 1] == ds[..i] + [ds[i]];
      var next := if ds[i].claimId in byClaim then byClaim else byClaim[ds[i].claimId := ds[i]];
      forall c ensures FirstDelta(ds[..i + 1], c) == if c in next then Some(next[c]) else None {
        FirstDeltaAppends(ds[..i], ds[i], c);
      }
      if ds[i].claimId !in byClaim { keys := keys + [ds[i].claimId]; }
      byClaim := next;
    }
    assert ds[..|ds|] == ds && m[..|ds|] == m;
  }

  // The same for alignments, adding the claims that had no delta.
  method IndexAlignments(xs: seq<Alignment>, deltaKeys: seq<ClaimId>, ghost mentioned: seq<ClaimId>)
    returns (byClaim: map<ClaimId, Alignment>, keys: seq<ClaimId>)
    requires FirstMentions(deltaKeys, mentioned)
    ensures AlignmentIndex(xs, byClaim) && forall c :: c in keys <==> c in deltaKeys || c in byClaim
    ensures FirstMentions(keys, mentioned + AlignmentClaims(xs))
  {
    byClaim, keys := map[], deltaKeys;
    ghost var m := AlignmentClaims(xs);
    assert mentioned + m[..0] == mentioned;
    for i := 0 to |xs|
      invariant FirstMentions(keys, mentioned + m[..i]) && AlignmentIndex(xs[..i], byClaim)
      invariant forall c :: c in keys <==> c in deltaKeys || c in byClaim
    {
      MentionOneMore(keys, mentioned + m[..i], xs[i].claimId);
      assert mentioned + m[..i + 1] == mentioned + m[..i] + [xs[i].claimId] && xs[..i + 1] == xs[..i] + [xs[i]];
      var next := if xs[i].claimId in byClaim then byClaim else byClaim[xs[i].claimId := xs[i]];
      forall c ensures FirstAlignment(xs[..i + 1], c) == if c in next then Some(next[c]) else None {
        FirstAlignmentAppends(xs[..i], xs[i], c);
      }
      if xs[i].claimId !in keys { keys := keys + [xs[i].claimId]; }
      byClaim := next;
    }
    assert xs[..|xs|] == xs && m[..|xs|] == m;
  }

  method FindAffectedClaim(f: Findings) returns (r: Option<ClaimId>)
    ensures IsAffected(f, r)
  {
    var deltaByClaim, deltaKeys := IndexDeltas(f.deltas);
    var alignmentByClaim, keys := IndexAlignments(f.alignments, deltaKeys, DeltaClaims(f.deltas));
    for k := 0 to |keys|
      invariant forall j :: 0 <= j < k ==> !NeedsRepair(f, keys[j])
    {
      var c := keys[k];
      assert NeedsRepair(f, c) <==>
        || (c in deltaByClaim
            && (deltaByClaim[c].authorized == Some(false) || deltaByClaim[c].intentAlignment == "PENDING"))
        || (c in alignmentByClaim && alignmentByClaim[c].status == "PENDING")
        || (c in f.claims && f.claims[c] == CONTRADICTING);
      if || (c in deltaByClaim && deltaByClaim[c].authorized == Some(false))
         || (c in deltaByClaim && deltaByClaim[c].intentAlignment == "PENDING")
         || (c in alignmentByClaim && alignmentByClaim[c].status == "PENDING")
         || (c in f.claims && f.claims[c] == CONTRADICTING)
      {
        AffectedByKeys(f, keys, k);
        return Some(c);
      }
    }
    AffectedByKeys(f, keys, |keys|);
    r := None;
  }

  lemma AffectedIsUnique(f: Findings, a: Option<ClaimId>, b: Option<ClaimId>)
    requires IsAffected(f, a) && IsAffected(f, b)
    ensures a == b
  {
    var m := MentionedClaims(f);
    if a.Some? && b.Some? {
      var i :| 0 <= i < |m| && m[i] == a.value && forall j :: 0 <= j < i ==> !NeedsRepair(f, m[j]);
      var k :| 0 <= k < |m| && m[k] == b.value && forall j :: 0 <= j < k ==> !NeedsRepair(f, m[j]);
      assert i == k;
    }
  }

  function EvidenceIds(es: seq<Evidence>, c: ClaimId): seq<string> {
    if es == [] then []
    else (if es[0].claimId == c then [es[0].evidenceId] else []) + EvidenceIds(es[1..], c)
  }

  // --- The loop -----------------------------------------------------------------------

  datatype Outcome = PROCEED | NO_PROGRESS

  datatype Iteration = Iteration(
    number: nat, candidateIndex: nat, claim: ClaimId, evidenceIds: seq<string>, outcome: Outcome)

  datatype Reason =
    | NotRepairRequired
    | BoundExhausted(bound: Bound)
    | NothingToRepair
    | NoEvidence(claim: ClaimId)
    | NoProgressAt(number: nat)

  // An empty claim id makes the package builder raise, and the loop does not catch it.
  datatype Exit =
    | Finished(iterations: seq<Iteration>, allowContinue: bool, blockedReason: Option<Reason>)
    | PackageRefused

  function Least(a: int, b: int, c: int): nat { Max(0, Min(a, Min(b, c))) }

  // How far the loop can go on its counted bounds alone.
  function IterationCap(b: LoopBounds): nat {
    Least(b.maxIterations, b.maxRepairAttempts, AtLeastOne(b.noProgressThreshold))
  }

  // There is something to repair, with evidence and a usable claim id.
  predicate Productive(f: Findings, target: Option<ClaimId>) {
    target.Some? && EvidenceIds(f.evidence, target.value) != [] && target.value != ""
  }

  function NthIteration(c: ClaimId, evidenceIds: seq<string>, b: LoopBounds, k: nat): Iteration {
    Iteration(k + 1, k + 2, c, evidenceIds,
              if k + 1 == AtLeastOne(b.noProgressThreshold) then NO_PROGRESS else PROCEED)
  }

  // What a finished run looks like. `clock` lists the elapsed times the bound checks saw.
  ghost predicate LawfulRun(f: Findings, b: LoopBounds, target: Option<ClaimId>, r: Exit, clock: seq<real>)
    requires r.Finished?
  {
    var n := |r.iterations|;
    // Exactly as many iterations as the bounds allow, unless the clock stops it earlier.
    && (if Productive(f, target) && b.maxCommands > 0 then
          && n <= IterationCap(b)
          && n <= |clock| && (forall k :: 0 <= k < n ==> clock[k] < b.maxRuntimeSeconds as real)
          && (n < IterationCap(b) ==> n < |clock| && clock[n] >= b.maxRuntimeSeconds as real)
        else n == 0)
    // The candidates are numbered 2, 3, ...; only the last may report no progress.
    && (n > 0 ==> target.Some?)
    && (forall k :: 0 <= k < n ==>
          r.iterations[k] == NthIteration(target.value, EvidenceIds(f.evidence, target.value), b, k))
    && (r.allowContinue <==> n > 0)
    && Explained(f, r, b, target, clock)
  }

  predicate Refused(f: Findings, b: LoopBounds, target: Option<ClaimId>, clock: seq<real>) {
    target == Some("") && EvidenceIds(f.evidence, "") != [] && Attempted(b, clock, 0)
  }

  lemma FinishedMeansNotRefused(f: Findings, b: LoopBounds, target: Option<ClaimId>, r: Exit, clock: seq<real>)
    requires r.Finished? && LawfulRun(f, b, target, r, clock)
    ensures !Refused(f, b, target, clock)
  {}

  method RunRepairLoop(repairRequired: bool, f: Findings, bounds: LoopBounds)
    returns (r: Exit, ghost clock: seq<real>, ghost target: Option<ClaimId>)
    ensures !repairRequired ==> r == Finished([], false, Some(NotRepairRequired)) && clock == []
    ensures repairRequired ==> IsAffected(f, target)
    ensures repairRequired && r.Finished? ==> LawfulRun(f, bounds, target, r, clock)
    // The package builder raises exactly when the first attempt is made on the empty claim
    // id and there is evidence for it.
    ensures repairRequired ==> (r.PackageRefused? <==> Refused(f, bounds, target, clock))
    ensures !repairRequired ==> r.Finished?
  {
    clock, target := [], None;
    if !repairRequired {
      return Finished([], false, Some(NotRepairRequired)), clock, target;
    }
    var affected := FindAffectedClaim(f);
    target := affected;
    r, clock := Attempts(f, affected, bounds);
  }

  // After some attempts, with another one still possible.
  ghost predicate Underway(f: Findings, b: LoopBounds, target: Option<ClaimId>, iterations: seq<Iteration>,
                           clock: seq<real>) {
    var n := |iterations|;
    && |clock| == n < AtLeastOne(b.noProgressThreshold)
    && (n > 0 ==> Productive(f, target) && b.maxCommands > 0 && n <= b.maxIterations && n <= b.maxRepairAttempts)
    && (forall k :: 0 <= k < n ==> clock[k] < b.maxRuntimeSeconds as real)
    && forall k :: 0 <= k < n ==>
         iterations[k] == NthIteration(target.value, EvidenceIds(f.evidence, target.value), b, k)
  }

  // The three ways the loop ends: before an attempt, with the attempt that makes no
  // progress, and by running out of attempts.
  lemma StopsBefore(f: Findings, b: LoopBounds, target: Option<ClaimId>, iterations: seq<Iteration>, clock: seq<real>,
                    elapsed: real, reason: Reason)
    requires Underway(f, b, target, iterations, clock) && |iterations| < b.maxIterations
    requires match reason
             case BoundExhausted(bound) =>
               Exhausted(b, Usage(|iterations|, 0, |iterations|), elapsed) == Some(bound)
             case NothingToRepair => target.None? && Exhausted(b, Usage(|iterations|, 0, |iterations|), elapsed).None?
             case NoEvidence(c) =>
               target == Some(c) && EvidenceIds(f.evidence, c) == []
               && Exhausted(b, Usage(|iterations|, 0, |iterations|), elapsed).None?
             case _ => false
    ensures LawfulRun(f, b, target, Finished(iterations, iterations != [], Some(reason)), clock + [elapsed])
  {}

  lemma OneMoreAttempt(f: Findings, b: LoopBounds, target: Option<ClaimId>, iterations: seq<Iteration>,
                       clock: seq<real>, elapsed: real, stuck: bool)
    requires Underway(f, b, target, iterations, clock) && |iterations| < b.maxIterations && Productive(f, target)
    requires b.maxCommands > 0 && |iterations| < b.maxRepairAttempts && elapsed < b.maxRuntimeSeconds as real
    requires stuck <==> |iterations| + 1 >= AtLeastOne(b.noProgressThreshold)
    ensures var n := |iterations| + 1;
      var more := iterations + [Iteration(n, n + 1, target.value, EvidenceIds(f.evidence, target.value),
                                          if stuck then NO_PROGRESS else PROCEED)];
      if stuck then LawfulRun(f, b, target, Finished(more, true, Some(NoProgressAt(n))), clock + [elapsed])
      else Underway(f, b, target, more, clock + [elapsed])
  {}

  lemma RunsOut(f: Findings, b: LoopBounds, target: Option<ClaimId>, iterations: seq<Iteration>, clock: seq<real>)
    requires Underway(f, b, target, iterations, clock) && |iterations| + 1 > b.maxIterations
    ensures LawfulRun(f, b, target, Finished(iterations, iterations != [], None), clock)
  {}

  method Attempts(f: Findings, affected: Option<ClaimId>, bounds: LoopBounds) returns (r: Exit, ghost clock: seq<real>)
    ensures r.Finished? ==> LawfulRun(f, bounds, affected, r, clock)
    ensures r.PackageRefused? <==> Refused(f, bounds, affected, clock)
  {
    hide LawfulRun, Underway, EvidenceIds, Exhausted;
    clock := [];
    NotTried(f, bounds, affected);
    var controller := new LoopBoundsController<(ClaimId, nat, string)>(bounds);
    var iterations: seq<Iteration> := [];
    var allowContinue, blockedReason := false, None;
    var attempt := 1;
    while attempt <= bounds.maxIterations
      invariant attempt == |iterations| + 1 && blockedReason == None && (allowContinue <==> iterations != [])
      invariant Underway(f, bounds, affected, iterations, clock)
      invariant controller.usage == Usage(|iterations|, 0, |iterations|)
      invariant |controller.recentSignatures| == |iterations|
      invariant iterations != [] ==> affected.Some?
      invariant forall k :: 0 <= k < |iterations| ==>
        controller.recentSignatures[k] == (affected.value, |EvidenceIds(f.evidence, affected.value)|, f.observed)
    {
      var elapsed: real := *;
      var exhausted := controller.Check(elapsed);
      if exhausted.Some? {
        blockedReason := Some(BoundExhausted(exhausted.value));
        StopsBefore(f, bounds, affected, iterations, clock, elapsed, blockedReason.value);
        clock := clock + [elapsed];
        break;
      }
      if affected.None? {
        blockedReason := Some(NothingToRepair);
        StopsBefore(f, bounds, affected, iterations, clock, elapsed, blockedReason.value);
        clock := clock + [elapsed];
        break;
      }
      var evidenceIds := EvidenceIds(f.evidence, affected.value);
      if evidenceIds == [] {
        blockedReason := Some(NoEvidence(affected.value));
        StopsBefore(f, bounds, affected, iterations, clock, elapsed, blockedReason.value);
        clock := clock + [elapsed];
        break;
      }
      if affected.value == "" {
        clock := clock + [elapsed];
        FirstAttempt(f, bounds, affected, iterations, clock[..|clock| - 1]);
        return PackageRefused, clock;
      }
      controller.RecordRepair();
      var noProgress := controller.RecordExecutionSignature((affected.value, |evidenceIds|, f.observed));
      var number := controller.RecordIteration();
      OneMoreAttempt(f, bounds, affected, iterations, clock, elapsed, noProgress);
      clock := clock + [elapsed];
      iterations := iterations
        + [Iteration(number, number + 1, affected.value, evidenceIds, if noProgress then NO_PROGRESS else PROCEED)];
      allowContinue := true;
      if noProgress {
        blockedReason := Some(NoProgressAt(number));
        break;
      }
      attempt := attempt + 1;
    }
    if blockedReason == None { RunsOut(f, bounds, affected, iterations, clock); }
    r := Finished(iterations, allowContinue, blockedReason);
    FinishedMeansNotRefused(f, bounds, affected, r, clock);
  }

  // A claim that yields no package is never iterated on.
  lemma FirstAttempt(f: Findings, b: LoopBounds, target: Option<ClaimId>, iterations: seq<Iteration>, clock: seq<real>)
    requires Underway(f, b, target, iterations, clock) && !Productive(f, target)
    ensures iterations == [] && clock == []
  {}

  lemma NotTried(f: Findings, b: LoopBounds, target: Option<ClaimId>)
    ensures Underway(f, b, target, [], [])
  {}

  // The reported reason is the real one: the loop was still going when it was found, at the
  // last clock reading. No reason is reported exactly when the attempts ran out.
  ghost predicate Explained(f: Findings, r: Exit, b: LoopBounds, target: Option<ClaimId>, clock: seq<real>)
    requires r.Finished?
  {
    var n := |r.iterations|;
    match r.blockedReason
    case None => n == |clock| == Max(0, b.maxIterations) && n < AtLeastOne(b.noProgressThreshold)
    case Some(NoProgressAt(k)) => n == k == |clock| == AtLeastOne(b.noProgressThreshold)
    case Some(BoundExhausted(bound)) =>
      n < b.maxIterations && n < AtLeastOne(b.noProgressThreshold)
      && |clock| == n + 1 && Exhausted(b, Usage(n, 0, n), clock[n]) == Some(bound)
    case Some(NothingToRepair) => Attempted(b, clock, n) && n == 0 && target.None?
    case Some(NoEvidence(c)) =>
      Attempted(b, clock, n) && n == 0 && target == Some(c) && EvidenceIds(f.evidence, c) == []
    case Some(NotRepairRequired) => false
  }

  // The last clock reading left room for another attempt.
  predicate Attempted(b: LoopBounds, clock: seq<real>, n: nat) {
    |clock| == n + 1 && Exhausted(b, Usage(n, 0, n), clock[n]).None?
  }

  // What the clock read decides the whole result: iterations, permission and reason.
  lemma ExitIsDetermined(f: Findings, b: LoopBounds, target: Option<ClaimId>, r: Exit, q: Exit, clock: seq<real>)
    requires r.Finished? && q.Finished?
    requires LawfulRun(f, b, target, r, clock) && LawfulRun(f, b, target, q, clock)
    ensures r == q
  {
    assert |r.iterations| == |q.iterations|;
    assert r.iterations == q.iterations;
    assert r.blockedReason == q.blockedReason;
  }
}
