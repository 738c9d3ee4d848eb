/** The recorded telemetry and what `prove_concurrency` proves from it. */
module Concurrency {
  import opened Numbers
  import opened Telemetry

  datatype WaveRecord = WaveRecord(waveId: string, timings: seq<Timing>, highWater: nat)

  function Listed(ts: seq<Timing>, ids: set<string>): seq<Timing> {
    if ts == [] then []
    else (if ts[0].taskId in ids then [ts[0]] else []) + Listed(ts[1..], ids)
  }

  // The timings of the listed tasks over all recorded waves, in record order.
  function Relevant(waves: seq<WaveRecord>, ids: set<string>): seq<Timing> {
    if waves == [] then [] else Listed(waves[0].timings, ids) + Relevant(waves[1..], ids)
  }

  predicate Involves(w: WaveRecord, ids: set<string>) {
    exists t :: t in w.timings && t.taskId in ids
  }

  predicate SomePairOverlaps(ts: seq<Timing>) {
    exists i, j :: 0 <= i < j < |ts| && Overlap(ts[i], ts[j]) > 0
  }

  predicate SawTwoAtOnce(waves: seq<WaveRecord>, ids: set<string>) {
    exists w :: w in waves && Involves(w, ids) && w.highWater >= 2
  }

  predicate Proves(waves: seq<WaveRecord>, ids: set<string>) {
    SawTwoAtOnce(waves, ids) && SomePairOverlaps(Relevant(waves, ids))
  }

  class ParallelismTelemetry {
    var waves: seq<WaveRecord>

    constructor ()
      ensures waves == []
    {
      waves := [];
    }

    method RecordWave(wave: WaveRecord)
      modifies this
      ensures waves == old(waves) + [wave]
    {
      waves := waves + [wave];
    }

    method ProveConcurrency(ids: set<string>) returns (proved: bool)
      ensures proved <==> Proves(waves, ids)
    {
      hide Involves, Overlap;
      var involved: seq<WaveRecord> := [];
      var best := 0;
      var relevant: seq<Timing> := [];
      for i := 0 to |waves|
        invariant relevant == Relevant(waves[..i], ids)
        invariant BestInvolved(waves[..i], ids, involved, best)
      {
        OneMoreWave(waves[..i], waves[i], ids, involved, best);
        assert waves[..i + 1] == waves[..i] + [waves[i]];
        if Involves(waves[i], ids) {
          involved := involved + [waves[i]];
          relevant := relevant + Listed(waves[i].timings, ids);
          if waves[i].highWater > best { best := waves[i].highWater; }
        }
      }
      assert waves[..|waves|] == waves;
      if involved == [] || best < 2 { return false; }
      proved := AnyPairOverlaps(relevant);
    }
  }

  // The waves that involve the listed tasks, and the largest high-water mark among them.
  ghost predicate BestInvolved(waves: seq<WaveRecord>, ids: set<string>, involved: seq<WaveRecord>, best: nat) {
    && (forall w :: w in involved <==> w in waves && Involves(w, ids))
    && (forall w :: w in involved ==> w.highWater <= best)
    && (best > 0 ==> exists w :: w in involved && w.highWater == best)
  }

  lemma OneMoreWave(waves: seq<WaveRecord>, w: WaveRecord, ids: set<string>, involved: seq<WaveRecord>, best: nat)
    requires BestInvolved(waves, ids, involved, best)
    ensures Involves(w, ids) ==> BestInvolved(waves + [w], ids, involved + [w], Max(best, w.highWater))
    ensures !Involves(w, ids) ==> BestInvolved(waves + [w], ids, involved, best)
    ensures Relevant(waves + [w], ids)
         == Relevant(waves, ids) + if Involves(w, ids) then Listed(w.timings, ids) else []
  {
    RelevantJoins(waves, [w], ids);
    assert Relevant([w], ids) == Listed(w.timings, ids) + Relevant([], ids);
    NotInvolved(w, ids);
    hide Involves, Relevant, Listed;
    assert forall v :: v in waves + [w] <==> v in waves || v == w;
    assert forall v :: v in involved + [w] <==> v in involved || v == w;
  }

  lemma NotInvolved(w: WaveRecord, ids: set<string>)
    ensures !Involves(w, ids) ==> Listed(w.timings, ids) == []
  {
    ListedNone(w.timings, ids);
  }

  // The pairwise search.
  method AnyPairOverlaps(ts: seq<Timing>) returns (found: bool)
    ensures found <==> SomePairOverlaps(ts)
  {
    hide Overlap;
    for i := 0 to |ts|
      invariant forall a, b :: 0 <= a < i && a < b < |ts| ==> Overlap(ts[a], ts[b]) == 0
    {
      for j := i + 1 to |ts|
        invariant forall b :: i < b < j ==> Overlap(ts[i], ts[b]) == 0
      {
        if Overlap(ts[i], ts[j]) > 0 { return true; }
      }
    }
    found := false;
  }

  lemma {:induction false} RelevantJoins(a: seq<WaveRecord>, b: seq<WaveRecord>, ids: set<string>)
    ensures Relevant(a + b, ids) == Relevant(a, ids) + Relevant(b, ids)
  {
    if a == [] {
      assert a + b == b;
    } else {
      assert (a + b)[1..] == a[1..] + b;
      RelevantJoins(a[1..], b, ids);
    }
  }

  lemma {:induction false} ListedNone(ts: seq<Timing>, ids: set<string>)
    ensures forall t :: t in Listed(ts, ids) <==> t in ts && t.taskId in ids
    ensures (forall t :: t in ts ==> t.taskId !in ids) ==> Listed(ts, ids) == []
  {
    if ts != [] { ListedNone(ts[1..], ids); }
  }

  // --- When the proof is genuine -------------------------------------------------

  predicate DistinctTasksOverlap(ts: seq<Timing>) {
    exists i, j :: 0 <= i < j < |ts| && ts[i].taskId != ts[j].taskId && Overlap(ts[i], ts[j]) > 0
  }

  // No listed task has two records that overlap each other.
  predicate NoSelfOverlap(ts: seq<Timing>) {
    forall i, j :: 0 <= i < j < |ts| && ts[i].taskId == ts[j].taskId ==> Overlap(ts[i], ts[j]) == 0
  }

  // The documented reading: at least two of the listed tasks overlapped, and some wave they
  // were in saw two at once.
  predicate TwoTasksOverlapped(waves: seq<WaveRecord>, ids: set<string>) {
    SawTwoAtOnce(waves, ids) && DistinctTasksOverlap(Relevant(waves, ids))
  }

  // It is what is computed, except when two tasks were seen at once and the only overlaps
  // among the listed ones are of a task with itself.
  lemma ProofOfTwoTasks(waves: seq<WaveRecord>, ids: set<string>)
    ensures TwoTasksOverlapped(waves, ids) ==> Proves(waves, ids)
    ensures var ts := Relevant(waves, ids);
      (Proves(waves, ids) <==> TwoTasksOverlapped(waves, ids))
      <==> NoSelfOverlap(ts) || DistinctTasksOverlap(ts) || !SawTwoAtOnce(waves, ids)
  {}

  lemma {:induction false} RelevantIds(waves: seq<WaveRecord>, ids: set<string>)
    ensures forall t :: t in Relevant(waves, ids) ==> t.taskId in ids
  {
    if waves != [] {
      RelevantIds(waves[1..], ids);
      ListedNone(waves[0].timings, ids);
    }
  }

  // Asked about a single task, which can never overlap a second one, the answer is True
  // exactly when that task was recorded as overlapping itself and some involved wave
  // reached two at once.
  lemma SingleTaskProof(waves: seq<WaveRecord>, id: string)
    ensures !DistinctTasksOverlap(Relevant(waves, {id}))
    ensures Proves(waves, {id}) <==> SawTwoAtOnce(waves, {id}) && !NoSelfOverlap(Relevant(waves, {id}))
  {
    var ts := Relevant(waves, {id});
    RelevantIds(waves, {id});
    forall i | 0 <= i < |ts| ensures ts[i].taskId == id { assert ts[i] in ts; }
  }

  lemma {:induction false} OnlyListed(ts: seq<Timing>, id: string, i: nat)
    requires i < |ts| && ts[i].taskId == id
    requires forall j :: 0 <= j < |ts| && j != i ==> ts[j].taskId != id
    ensures Listed(ts, {id}) == [ts[i]]
  {
    if i == 0 {
      forall t | t in ts[1..] ensures t.taskId != id {
        var j :| 0 <= j < |ts[1..]| && ts[1..][j] == t;
        assert ts[j + 1] == t;
      }
      ListedNone(ts[1..], {id});
    } else {
      OnlyListed(ts[1..], id, i - 1);
    }
  }

  // --- Waves that ran one after the other ------------------------------------------

  ghost predicate Precedes(v: WaveRecord, w: WaveRecord) {
    forall t, u :: t in v.timings && u in w.timings ==> t.finished <= u.started
  }

  ghost predicate Sequential(waves: seq<WaveRecord>) {
    forall v, w :: 0 <= v < w < |waves| ==> Precedes(waves[v], waves[w])
  }

  ghost predicate Measured(waves: seq<WaveRecord>) {
    forall w :: w in waves ==> IsHighWater(w.timings, w.highWater)
  }

  // Which wave a listed timing comes from.
  lemma {:induction false} Origin(waves: seq<WaveRecord>, ids: set<string>, p: nat) returns (w: nat, i: nat)
    requires p < |Relevant(waves, ids)|
    ensures w < |waves| && i < |Listed(waves[w].timings, ids)|
    ensures Relevant(waves, ids)[p] == Listed(waves[w].timings, ids)[i]
  {
    var first := Listed(waves[0].timings, ids);
    if p < |first| {
      w, i := 0, p;
    } else {
      w, i := Origin(waves[1..], ids, p - |first|);
      w := w + 1;
    }
  }

  lemma {:induction false} Origins(waves: seq<WaveRecord>, ids: set<string>, p: nat, q: nat)
    returns (v: nat, i: nat, w: nat, j: nat)
    requires p < q < |Relevant(waves, ids)|
    ensures v <= w < |waves| && (v == w ==> i < j)
    ensures i < |Listed(waves[v].timings, ids)| && Relevant(waves, ids)[p] == Listed(waves[v].timings, ids)[i]
    ensures j < |Listed(waves[w].timings, ids)| && Relevant(waves, ids)[q] == Listed(waves[w].timings, ids)[j]
  {
    var first := Listed(waves[0].timings, ids);
    if p >= |first| {
      v, i, w, j := Origins(waves[1..], ids, p - |first|, q - |first|);
      v, w := v + 1, w + 1;
    } else {
      v, i := 0, p;
      if q < |first| {
        w, j := 0, q;
      } else {
        w, j := Origin(waves[1..], ids, q - |first|);
        w := w + 1;
      }
    }
  }

  lemma ListedTiming(w: WaveRecord, ids: set<string>, i: nat)
    requires i < |Listed(w.timings, ids)|
    ensures Listed(w.timings, ids)[i] in w.timings && Listed(w.timings, ids)[i].taskId in ids
  {
    ListedNone(w.timings, ids);
    assert Listed(w.timings, ids)[i] in Listed(w.timings, ids);
  }

  lemma OverlapIsInOneWave(waves: seq<WaveRecord>, ids: set<string>) returns (w: nat)
    requires Sequential(waves) && SomePairOverlaps(Relevant(waves, ids))
    ensures w < |waves| && SomePairOverlaps(Listed(waves[w].timings, ids))
  {
    var ts := Relevant(waves, ids);
    var p, q :| 0 <= p < q < |ts| && Overlap(ts[p], ts[q]) > 0;
    var v, i, u, j := Origins(waves, ids, p, q);
    ListedTiming(waves[v], ids, i);
    ListedTiming(waves[u], ids, j);
    w := v;
  }

  lemma {:induction false} ListedPair(ts: seq<Timing>, ids: set<string>)
    requires SomePairOverlaps(Listed(ts, ids))
    ensures SomePairOverlaps(ts)
  {
    hide Overlap;
    var l := Listed(ts, ids);
    var i, j :| 0 <= i < j < |l| && Overlap(l[i], l[j]) > 0;
    var tail := Listed(ts[1..], ids);
    if l[0] == ts[0] && |l| == 1 + |tail| && i == 0 {
      assert l[j] == tail[j - 1];
      ListedNone(ts[1..], ids);
      assert l[j] in ts[1..];
      var k :| 0 <= k < |ts[1..]| && ts[1..][k] == l[j];
      assert Overlap(ts[0], ts[k + 1]) > 0;
    } else {
      var d := |l| - |tail|;
      assert Overlap(tail[i - d], tail[j - d]) > 0;
      ListedPair(ts[1..], ids);
      var a, b :| 0 <= a < b < |ts[1..]| && Overlap(ts[1..][a], ts[1..][b]) > 0;
      assert Overlap(ts[a + 1], ts[b + 1]) > 0;
    }
  }

  lemma {:induction false} RelevantHolds(waves: seq<WaveRecord>, ids: set<string>, w: WaveRecord)
    requires w in waves && SomePairOverlaps(Listed(w.timings, ids))
    ensures SomePairOverlaps(Relevant(waves, ids))
  {
    var first, rest := Listed(waves[0].timings, ids), Relevant(waves[1..], ids);
    var ts := Relevant(waves, ids);
    if w == waves[0] {
      var i, j :| 0 <= i < j < |first| && Overlap(first[i], first[j]) > 0;
      assert Overlap(ts[i], ts[j]) > 0;
    } else {
      RelevantHolds(waves[1..], ids, w);
      var i, j :| 0 <= i < j < |rest| && Overlap(rest[i], rest[j]) > 0;
      assert Overlap(ts[|first| + i], ts[|first| + j]) > 0;
    }
  }

  lemma WaveProves(waves: seq<WaveRecord>, ids: set<string>, w: WaveRecord)
    requires Measured(waves) && w in waves && SomePairOverlaps(Listed(w.timings, ids))
    ensures Proves(waves, ids)
  {
    RelevantHolds(waves, ids, w);
    ListedPair(w.timings, ids);
    var i, j :| 0 <= i < j < |w.timings| && Overlap(w.timings[i], w.timings[j]) > 0;
    TwoActive(w.timings, i, j, Max(w.timings[i].started, w.timings[j].started));
    ListedNone(w.timings, ids);
    assert Listed(w.timings, ids)[0] in Listed(w.timings, ids);
    assert Involves(w, ids);
  }

  // For waves measured by the sweep and run one after the other, the proof holds exactly
  // when two records of listed tasks overlapped within one wave; the high-water test is
  // then implied.
  lemma SequentialWavesProof(waves: seq<WaveRecord>, ids: set<string>)
    requires Sequential(waves) && Measured(waves)
    ensures Proves(waves, ids) <==> exists w :: w in waves && SomePairOverlaps(Listed(w.timings, ids))
  {
    if Proves(waves, ids) {
      var w := OverlapIsInOneWave(waves, ids);
      assert waves[w] in waves;
    }
    if w :| w in waves && SomePairOverlaps(Listed(w.timings, ids)) {
      WaveProves(waves, ids, w);
    }
  }

  // --- When every answer is genuine ---------------------------------------------------

  // A wave runs a task once.
  predicate OncePerTask(ts: seq<Timing>) {
    forall i, j :: 0 <= i < j < |ts| ==> ts[i].taskId != ts[j].taskId
  }

  // One after the other, except that a record may be repeated.
  ghost predicate SequentialOrRepeated(waves: seq<WaveRecord>) {
    forall v, w :: 0 <= v < w < |waves| ==> waves[v] == waves[w] || Precedes(waves[v], waves[w])
  }

  predicate Lasting(w: WaveRecord) {
    exists t :: t in w.timings && t.started < t.finished
  }

  // Some record in which a task took time occurs twice.
  predicate RepeatsLasting(waves: seq<WaveRecord>) {
    exists v, w :: 0 <= v < w < |waves| && waves[v] == waves[w] && Lasting(waves[w])
  }

  lemma {:induction false} ListedOnce(ts: seq<Timing>, ids: set<string>)
    requires OncePerTask(ts)
    ensures OncePerTask(Listed(ts, ids))
  {
    if ts != [] {
      var rest := Listed(ts[1..], ids);
      ListedOnce(ts[1..], ids);
      ListedNone(ts[1..], ids);
      forall j | 0 <= j < |rest| ensures rest[j].taskId != ts[0].taskId { assert rest[j] in ts[1..]; }
    }
  }

  lemma NoOverlap(t: Timing, u: Timing)
    requires t.finished <= t.started || t.finished <= u.started
    ensures Overlap(t, u) == 0
  {}

  lemma NobodyOverlapsItself(waves: seq<WaveRecord>, ids: set<string>)
    requires SequentialOrRepeated(waves) && !RepeatsLasting(waves) && forall w :: w in waves ==> OncePerTask(w.timings)
    ensures NoSelfOverlap(Relevant(waves, ids))
  {
    hide Overlap;
    var ts := Relevant(waves, ids);
    forall p, q | 0 <= p < q < |ts| && ts[p].taskId == ts[q].taskId ensures Overlap(ts[p], ts[q]) == 0 {
      var v, i, w, j := Origins(waves, ids, p, q);
      ListedTiming(waves[v], ids, i);
      ListedTiming(waves[w], ids, j);
      ListedOnce(waves[v].timings, ids);
      assert v < w;
      if waves[v] == waves[w] {
        assert !Lasting(waves[w]);
      } else {
        assert Precedes(waves[v], waves[w]);
      }
      NoOverlap(ts[p], ts[q]);
    }
  }

  // For waves run one after the other, each task once in a wave, the answer is the
  // documented one, whatever tasks are asked about.
  lemma SequentialProofIsGenuine(waves: seq<WaveRecord>, ids: set<string>)
    requires Sequential(waves) && forall w :: w in waves ==> OncePerTask(w.timings)
    ensures Proves(waves, ids) <==> TwoTasksOverlapped(waves, ids)
  {
    NobodyOverlapsItself(waves, ids);
  }

  lemma RelevantHas(waves: seq<WaveRecord>, ids: set<string>, k: nat, t: Timing)
    requires k < |waves| && t in waves[k].timings && t.taskId in ids
    ensures t in Relevant(waves, ids)
  {
    assert waves == waves[..k] + waves[k..];
    RelevantJoins(waves[..k], waves[k..], ids);
    ListedNone(waves[k].timings, ids);
  }

  // A timing recorded twice overlaps itself.
  lemma RecordedTwice(waves: seq<WaveRecord>, ids: set<string>, v: nat, w: nat, t: Timing)
    requires v < w < |waves| && t in waves[v].timings && t in waves[w].timings
    requires t.taskId in ids && t.started < t.finished
    ensures SomePairOverlaps(Relevant(waves, ids))
  {
    var a, b := waves[..w], waves[w..];
    assert waves == a + b;
    RelevantJoins(a, b, ids);
    RelevantHas(a, ids, v, t);
    RelevantHas(b, ids, 0, t);
    InBothParts(Relevant(a, ids), Relevant(b, ids), t);
  }

  lemma InBothParts(x: seq<Timing>, y: seq<Timing>, t: Timing)
    requires t in x && t in y && t.started < t.finished
    ensures SomePairOverlaps(x + y)
  {
    var i :| 0 <= i < |x| && x[i] == t;
    var j :| 0 <= j < |y| && y[j] == t;
    assert (x + y)[i] == t && (x + y)[|x| + j] == t;
    assert Overlap((x + y)[i], (x + y)[|x| + j]) > 0;
  }

  lemma {:induction false} NotRelevant(waves: seq<WaveRecord>, id: string)
    requires forall w :: w in waves ==> !Involves(w, {id})
    ensures Relevant(waves, {id}) == []
  {
    if waves != [] {
      assert !Involves(waves[0], {id});
      ListedNone(waves[0].timings, {id});
      NotRelevant(waves[1..], id);
    }
  }

  // Recording one wave's telemetry twice, as happens when the next wave times out before
  // it produced telemetry of its own, makes the answer True for each of its lasting tasks,
  // whatever was recorded before; it was False when the task had run just once.
  lemma TwiceRecordedWave(waves: seq<WaveRecord>, w: WaveRecord, id: string, i: nat)
    requires i < |w.timings| && w.timings[i].taskId == id && w.timings[i].started < w.timings[i].finished
    requires w.highWater >= 2
    ensures Proves(waves + [w, w], {id})
    ensures (forall v :: v in waves ==> !Involves(v, {id}))
            && (forall j :: 0 <= j < |w.timings| && j != i ==> w.timings[j].taskId != id)
            ==> !Proves(waves + [w], {id})
  {
    var n, twice := |waves|, waves + [w, w];
    assert twice[n] == twice[n + 1] == w && w.timings[i] in w.timings;
    RecordedTwice(twice, {id}, n, n + 1, w.timings[i]);
    assert w in twice && Involves(w, {id});
    if && (forall v :: v in waves ==> !Involves(v, {id}))
       && (forall j :: 0 <= j < |w.timings| && j != i ==> w.timings[j].taskId != id)
    {
      RelevantJoins(waves, [w], {id});
      NotRelevant(waves, id);
      OnlyListed(w.timings, id, i);
      assert Relevant([w], {id}) == [w.timings[i]] + Relevant([], {id});
    }
  }

  lemma OverlapShows(ts: seq<Timing>, h: nat, t: Timing, u: Timing)
    requires IsHighWater(ts, h) && t in ts && u in ts && t.taskId != u.taskId && h < 2
    ensures Overlap(t, u) == 0
  {
    var i :| 0 <= i < |ts| && ts[i] == t;
    var j :| 0 <= j < |ts| && ts[j] == u;
    if Overlap(t, u) > 0 {
      TwoActive(ts, if i < j then i else j, if i < j then j else i, Max(t.started, u.started));
      assert false;
    }
  }

  // A task that was recorded twice and one of a wave that saw two at once, where no wave of
  // the former did: asked about both, the answer is True, and no two of them overlapped.
  lemma UnrelatedTaskFakes(waves: seq<WaveRecord>, x: string, y: string)
    requires SequentialOrRepeated(waves) && Measured(waves) && !SawTwoAtOnce(waves, {x})
    ensures !DistinctTasksOverlap(Relevant(waves, {x, y}))
  {
    hide Overlap, IsHighWater;
    var ids, ts := {x, y}, Relevant(waves, {x, y});
    forall p, q | 0 <= p < q < |ts| && ts[p].taskId != ts[q].taskId ensures Overlap(ts[p], ts[q]) == 0 {
      var v, i, w, j := Origins(waves, ids, p, q);
      ListedTiming(waves[v], ids, i);
      ListedTiming(waves[w], ids, j);
      assert Involves(waves[v], {x}) || Involves(waves[w], {x});
      if waves[v] == waves[w] {
        OverlapShows(waves[w].timings, waves[w].highWater, ts[p], ts[q]);
      } else {
        assert Precedes(waves[v], waves[w]);
        NoOverlap(ts[p], ts[q]);
      }
    }
  }

  lemma RepeatFakes(waves: seq<WaveRecord>) returns (ids: set<string>)
    requires SequentialOrRepeated(waves) && Measured(waves) && RepeatsLasting(waves)
    requires exists w :: w in waves && w.highWater >= 2
    ensures Proves(waves, ids) && !TwoTasksOverlapped(waves, ids)
  {
    hide Overlap, SequentialOrRepeated, DistinctTasksOverlap, SomePairOverlaps;
    var v, w :| 0 <= v < w < |waves| && waves[v] == waves[w] && Lasting(waves[w]);
    var t :| t in waves[w].timings && t.started < t.finished;
    if SawTwoAtOnce(waves, {t.taskId}) {
      ids := {t.taskId};
      RecordedTwice(waves, ids, v, w, t);
      SingleTaskProof(waves, t.taskId);
    } else {
      var u :| u in waves && u.highWater >= 2;
      var at :| Active(u.timings, at) == u.highWater;
      var i := FindActive(u.timings, at);
      ids := {t.taskId, u.timings[i].taskId};
      RecordedTwice(waves, ids, v, w, t);
      assert u.timings[i] in u.timings && Involves(u, ids);
      UnrelatedTaskFakes(waves, t.taskId, u.timings[i].taskId);
    }
  }

  // For measured waves run one after the other, some recorded more than once, the answer is
  // the documented one for every choice of tasks if and only if no record in which a task
  // took time is repeated, or no wave ever saw two at once.
  lemma EveryAnswerIsGenuineExactlyWhen(waves: seq<WaveRecord>)
    requires SequentialOrRepeated(waves) && Measured(waves) && forall w :: w in waves ==> OncePerTask(w.timings)
    ensures (forall ids :: Proves(waves, ids) <==> TwoTasksOverlapped(waves, ids))
       <==> !RepeatsLasting(waves) || forall w :: w in waves ==> w.highWater < 2
  {
    if !RepeatsLasting(waves) {
      forall ids ensures Proves(waves, ids) <==> TwoTasksOverlapped(waves, ids) {
        NobodyOverlapsItself(waves, ids);
      }
    } else if exists w :: w in waves && w.highWater >= 2 {
      var ids := RepeatFakes(waves);
    }
  }
}
