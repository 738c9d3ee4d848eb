/** Parallelism telemetry: the sweep line, the pairwise overlap and the concurrency proof.
    Instants are integer microseconds, the resolution of the timestamps. */
module Telemetry {
  import opened Numbers
  import opened Sorting

  datatype Timing = Timing(taskId: string, started: int, finished: int)

  ghost predicate WellTimed(ts: seq<Timing>) {
    forall i :: 0 <= i < |ts| ==> ts[i].started <= ts[i].finished
  }

  // --- Pointwise meaning ------------------------------------------------------

  predicate Covers(t: Timing, at: int) { t.started <= at < t.finished }

  // How many tasks are running at an instant.
  function Active(ts: seq<Timing>, at: int): nat {
    if ts == [] then 0 else (if Covers(ts[0], at) then 1 else 0) + Active(ts[1..], at)
  }

  // The largest number of tasks running at one instant.
  ghost predicate IsHighWater(ts: seq<Timing>, h: nat) {
    && (forall at :: Active(ts, at) <= h)
    && (h > 0 ==> exists at :: Active(ts, at) == h)
  }

  function Overlap(a: Timing, b: Timing): nat {
    Max(0, Min(a.finished, b.finished) - Max(a.started, b.started))
  }

  // The largest overlap of two different records.
  ghost predicate IsMaxOverlap(ts: seq<Timing>, m: nat) {
    && (forall i, j :: 0 <= i < j < |ts| ==> Overlap(ts[i], ts[j]) <= m)
    && (m > 0 ==> exists i, j :: 0 <= i < j < |ts| && Overlap(ts[i], ts[j]) == m)
  }

  ghost predicate IsWindow(ts: seq<Timing>, lo: int, hi: int) {
    && (forall t :: t in ts ==> lo <= t.started && t.finished <= hi)
    && (exists t :: t in ts && t.started == lo)
    && (exists t :: t in ts && t.finished == hi)
  }

  // --- The sweep line ---------------------------------------------------------

  datatype Event = Event(at: int, delta: int)

  predicate EventLe(a: Event, b: Event) { a.at < b.at || (a.at == b.at && a.delta <= b.delta) }

  function EventsOf(ts: seq<Timing>): seq<Event> {
    if ts == [] then []
    else [Event(ts[0].started, 1), Event(ts[0].finished, -1)] + EventsOf(ts[1..])
  }

  function DeltaSum(es: seq<Event>): int {
    if es == [] then 0 else es[0].delta + DeltaSum(es[1..])
  }

  // The sum of the deltas of the events up to and including an instant.
  function SumUpTo(es: seq<Event>, at: int): int {
    if es == [] then 0 else (if es[0].at <= at then es[0].delta else 0) + SumUpTo(es[1..], at)
  }

  ghost predicate UnitDeltas(es: seq<Event>) {
    forall e :: e in es ==> e.delta == 1 || e.delta == -1
  }

  lemma {:induction false} EventsSumToActive(ts: seq<Timing>, at: int)
    requires WellTimed(ts)
    ensures SumUpTo(EventsOf(ts), at) == Active(ts, at) && UnitDeltas(EventsOf(ts))
  {
    if ts != [] {
      EventsSumToActive(ts[1..], at);
      var es := EventsOf(ts);
      assert es[1..][1..] == EventsOf(ts[1..]);
      assert SumUpTo(es[1..], at) == (if es[1].at <= at then es[1].delta else 0) + SumUpTo(es[1..][1..], at);
    }
  }

  lemma {:induction false} SumSplits(a: seq<Event>, b: seq<Event>, at: int)
    ensures SumUpTo(a + b, at) == SumUpTo(a, at) + SumUpTo(b, at)
    ensures DeltaSum(a + b) == DeltaSum(a) + DeltaSum(b)
  {
    if a == [] {
      assert a + b == b;
    } else {
      assert (a + b)[1..] == a[1..] + b;
      SumSplits(a[1..], b, at);
    }
  }

  lemma {:induction false} SumUpToWithout(s: seq<Event>, i: nat, at: int)
    requires i < |s|
    ensures SumUpTo(s, at) == (if s[i].at <= at then s[i].delta else 0) + SumUpTo(s[..i] + s[i + 1..], at)
  {
    if i == 0 {
      assert s[..0] + s[1..] == s[1..];
    } else {
      SumUpToWithout(s[1..], i - 1, at);
      assert (s[..i] + s[i + 1..])[1..] == s[1..][..i - 1] + s[1..][i..];
    }
  }

  lemma {:induction false} SumPermutes(a: seq<Event>, b: seq<Event>, at: int)
    requires multiset(a) == multiset(b)
    ensures SumUpTo(a, at) == SumUpTo(b, at)
  {
    assert |multiset(a)| == |multiset(b)|;
    if a != [] {
      assert a[0] in multiset(b);
      var i := Without(b, a[0]);
      TailContents(a);
      SumPermutes(a[1..], b[..i] + b[i + 1..], at);
      SumUpToWithout(b, i, at);
    }
  }

  lemma {:induction false} AllBy(es: seq<Event>, at: int)
    requires forall i :: 0 <= i < |es| ==> es[i].at <= at
    ensures SumUpTo(es, at) == DeltaSum(es)
  {
    if es != [] { AllBy(es[1..], at); }
  }

  lemma {:induction false} NoneBy(es: seq<Event>, at: int)
    requires forall i :: 0 <= i < |es| ==> es[i].at > at
    ensures SumUpTo(es, at) == 0
  {
    if es != [] { NoneBy(es[1..], at); }
  }

  // Once every event of an instant has been read, the running count is the number of
  // tasks active at that instant.
  lemma PrefixAtInstant(es: seq<Event>, k: nat, at: int)
    requires k <= |es|
    requires forall i :: 0 <= i < k ==> es[i].at <= at
    requires forall i :: k <= i < |es| ==> es[i].at > at
    ensures DeltaSum(es[..k]) == SumUpTo(es, at)
  {
    assert es == es[..k] + es[k..];
    SumSplits(es[..k], es[k..], at);
    AllBy(es[..k], at);
    NoneBy(es[k..], at);
  }

  lemma CountUpTo(es: seq<Event>, at: int) returns (k: nat)
    requires SortedBy(es, EventLe)
    ensures k <= |es|
    ensures forall i :: 0 <= i < k ==> es[i].at <= at
    ensures forall i :: k <= i < |es| ==> es[i].at > at
  {
    k := 0;
    while k < |es| && es[k].at <= at
      invariant k <= |es| && forall i :: 0 <= i < k ==> es[i].at <= at
    {
      k := k + 1;
    }
    forall i | k <= i < |es| ensures es[i].at > at {
      if i > k { assert EventLe(es[k], es[i]); }
    }
  }

  lemma {:induction false} OnlyStartsAdd(es: seq<Event>, k: nat, n: nat)
    requires k <= n <= |es| && forall i :: k <= i < n ==> es[i].delta == 1
    ensures DeltaSum(es[..k]) <= DeltaSum(es[..n])
    decreases n
  {
    if k < n {
      OnlyStartsAdd(es, k, n - 1);
      assert es[..n] == es[..n - 1] + [es[n - 1]];
      SumSplits(es[..n - 1], [es[n - 1]], 0);
      assert DeltaSum([es[n - 1]]) == 1;
    }
  }

  // Finishes sort before starts, so no prefix of the sweep overshoots what is active at
  // some instant.
  lemma PrefixBelowActive(ts: seq<Timing>, es: seq<Event>, k: nat) returns (at: int)
    requires WellTimed(ts) && multiset(es) == multiset(EventsOf(ts)) && SortedBy(es, EventLe)
    requires 0 < k <= |es| && es[k - 1].delta == 1
    ensures DeltaSum(es[..k]) <= Active(ts, at)
  {
    at := es[k - 1].at;
    var n := CountUpTo(es, at);
    EventsSumToActive(ts, at);
    SumPermutes(es, EventsOf(ts), at);
    PrefixAtInstant(es, n, at);
    forall i | k <= i < n ensures es[i].delta == 1 {
      assert EventLe(es[k - 1], es[i]);
      assert es[i] in multiset(es);
      assert es[i] in EventsOf(ts);
    }
    OnlyStartsAdd(es, k, n);
  }

  lemma ActiveIsAPrefix(ts: seq<Timing>, es: seq<Event>, at: int) returns (k: nat)
    requires WellTimed(ts) && multiset(es) == multiset(EventsOf(ts)) && SortedBy(es, EventLe)
    ensures k <= |es| && DeltaSum(es[..k]) == Active(ts, at)
  {
    k := CountUpTo(es, at);
    EventsSumToActive(ts, at);
    SumPermutes(es, EventsOf(ts), at);
    PrefixAtInstant(es, k, at);
  }

  lemma EventLeIsTotal()
    ensures TotalPreorder(EventLe)
  {}

  datatype Summary = Summary(wall: int, highWater: nat, maxOverlap: nat, start: int, finish: int)

  // The sweep itself: the largest running count, reached right after a start.
  method Sweep(events: seq<Event>) returns (highWater: nat, ghost peak: nat)
    requires UnitDeltas(events)
    ensures forall n :: 0 <= n <= |events| ==> DeltaSum(events[..n]) <= highWater
    ensures highWater > 0 ==>
      0 < peak <= |events| && DeltaSum(events[..peak]) == highWater && events[peak - 1].delta == 1
  {
    var active := 0;
    highWater, peak := 0, 0;
    for k := 0 to |events|
      invariant active == DeltaSum(events[..k]) && active <= highWater
      invariant forall n :: 0 <= n <= k ==> DeltaSum(events[..n]) <= highWater
      invariant highWater > 0 ==> 0 < peak <= k && DeltaSum(events[..peak]) == highWater && events[peak - 1].delta == 1
    {
      NextPrefix(events, k);
      active := active + events[k].delta;
      assert events[k] in events;
      if active > highWater {
        highWater, peak := active, k + 1;
      }
    }
  }

  lemma NextPrefix(es: seq<Event>, k: nat)
    requires k < |es|
    ensures DeltaSum(es[..k + 1]) == DeltaSum(es[..k]) + es[k].delta
  {
    assert es[..k + 1] == es[..k] + [es[k]];
    SumSplits(es[..k], [es[k]], 0);
    assert DeltaSum([es[k]]) == es[k].delta + DeltaSum([es[k]][1..]);
  }

  // Sorting finishes before starts makes the sweep compute the pointwise maximum.
  lemma SweepIsHighWater(ts: seq<Timing>, es: seq<Event>, h: nat, peak: nat)
    requires WellTimed(ts) && multiset(es) == multiset(EventsOf(ts)) && SortedBy(es, EventLe)
    requires forall n :: 0 <= n <= |es| ==> DeltaSum(es[..n]) <= h
    requires h > 0 ==> 0 < peak <= |es| && DeltaSum(es[..peak]) == h && es[peak - 1].delta == 1
    ensures IsHighWater(ts, h)
  {
    forall at ensures Active(ts, at) <= h {
      var k := ActiveIsAPrefix(ts, es, at);
    }
    if h > 0 {
      var at := PrefixBelowActive(ts, es, peak);
    }
  }

  method HighWater(ts: seq<Timing>) returns (highWater: nat)
    requires WellTimed(ts)
    ensures IsHighWater(ts, highWater)
  {
    var events: seq<Event> := [];
    for i := 0 to |ts|
      invariant events == EventsOf(ts[..i])
    {
      EventsAppend(ts[..i], ts[i]);
      assert ts[..i + 1] == ts[..i] + [ts[i]];
      events := events + [Event(ts[i].started, 1), Event(ts[i].finished, -1)];
    }
    assert ts[..|ts|] == ts;
    EventsSumToActive(ts, 0);
    EventLeIsTotal();
    SortSorts(events, EventLe);
    var sorted := Sort(events, EventLe);
    forall e | e in sorted ensures e in events { assert e in multiset(sorted); }
    ghost var peak;
    highWater, peak := Sweep(sorted);
    SweepIsHighWater(ts, sorted, highWater, peak);
  }

  lemma {:induction false} EventsAppend(ts: seq<Timing>, t: Timing)
    ensures EventsOf(ts + [t]) == EventsOf(ts) + [Event(t.started, 1), Event(t.finished, -1)]
  {
    if ts == [] {
      assert EventsOf([]) == [] && ([] + [t])[1..] == [];
    } else {
      assert (ts + [t])[1..] == ts[1..] + [t];
      EventsAppend(ts[1..], t);
    }
  }

  method MaxOverlap(ts: seq<Timing>) returns (maxOverlap: nat)
    ensures IsMaxOverlap(ts, maxOverlap)
  {
    maxOverlap := 0;
    for i := 0 to |ts|
      invariant forall a, b :: 0 <= a < i && a < b < |ts| ==> Overlap(ts[a], ts[b]) <= maxOverlap
      invariant maxOverlap > 0 ==> exists a, b :: 0 <= a < b < |ts| && Overlap(ts[a], ts[b]) == maxOverlap
    {
      for j := i + 1 to |ts|
        invariant forall a, b :: 0 <= a < i && a < b < |ts| ==> Overlap(ts[a], ts[b]) <= maxOverlap
        invariant forall b :: i < b < j ==> Overlap(ts[i], ts[b]) <= maxOverlap
        invariant maxOverlap > 0 ==> exists a, b :: 0 <= a < b < |ts| && Overlap(ts[a], ts[b]) == maxOverlap
      {
        var overlap := Overlap(ts[i], ts[j]);
        if overlap > maxOverlap { maxOverlap := overlap; }
      }
    }
  }

  // `_summarize_timings`; without timings only the wave's own clock is left.
  method Summarize(ts: seq<Timing>, waveStarted: int, waveFinished: int) returns (s: Summary)
    requires WellTimed(ts)
    ensures IsHighWater(ts, s.highWater) && IsMaxOverlap(ts, s.maxOverlap)
    ensures s.wall == s.finish - s.start
    ensures if ts == [] then s.start == waveStarted && s.finish == waveFinished else IsWindow(ts, s.start, s.finish)
  {
    if ts == [] {
      assert forall at :: Active(ts, at) == 0;
      return Summary(waveFinished - waveStarted, 0, 0, waveStarted, waveFinished);
    }
    var lo, hi := ts[0].started, ts[0].finished;
    for i := 1 to |ts|
      invariant IsWindow(ts[..i], lo, hi)
    {
      assert ts[..i + 1] == ts[..i] + [ts[i]];
      lo, hi := Min(lo, ts[i].started), Max(hi, ts[i].finished);
    }
    assert ts[..|ts|] == ts;
    var highWater := HighWater(ts);
    var maxOverlap := MaxOverlap(ts);
    s := Summary(hi - lo, highWater, maxOverlap, lo, hi);
  }

  // --- What the three figures say about each other -------------------------------

  function TotalDuration(ts: seq<Timing>): int {
    if ts == [] then 0 else ts[0].finished - ts[0].started + TotalDuration(ts[1..])
  }

  // Task-time counted instant by instant over [lo, hi).
  function ActiveTime(ts: seq<Timing>, lo: int, hi: int): nat
    requires lo <= hi
    decreases hi - lo
  {
    if lo == hi then 0 else ActiveTime(ts, lo, hi - 1) + Active(ts, hi - 1)
  }

  function CoverTime(t: Timing, lo: int, hi: int): nat
    requires lo <= hi
    decreases hi - lo
  {
    if lo == hi then 0 else CoverTime(t, lo, hi - 1) + (if Covers(t, hi - 1) then 1 else 0)
  }

  lemma {:induction false} CoverTimeIsDuration(t: Timing, lo: int, hi: int)
    requires lo <= t.started <= t.finished && lo <= hi
    ensures CoverTime(t, lo, hi) == Max(0, Min(hi, t.finished) - t.started)
    decreases hi - lo
  {
    if lo < hi { CoverTimeIsDuration(t, lo, hi - 1); }
  }

  lemma {:induction false} ActiveTimeSplits(ts: seq<Timing>, lo: int, hi: int)
    requires lo <= hi && ts != []
    ensures ActiveTime(ts, lo, hi) == CoverTime(ts[0], lo, hi) + ActiveTime(ts[1..], lo, hi)
    decreases hi - lo
  {
    if lo < hi { ActiveTimeSplits(ts, lo, hi - 1); }
  }

  lemma {:induction false} IdleTime(lo: int, hi: int)
    requires lo <= hi
    ensures ActiveTime([], lo, hi) == 0
    decreases hi - lo
  {
    if lo < hi { IdleTime(lo, hi - 1); }
  }

  lemma {:induction false} DurationsAreActiveTime(ts: seq<Timing>, lo: int, hi: int)
    requires WellTimed(ts) && lo <= hi
    requires forall i :: 0 <= i < |ts| ==> lo <= ts[i].started && ts[i].finished <= hi
    ensures TotalDuration(ts) == ActiveTime(ts, lo, hi)
  {
    if ts == [] {
      IdleTime(lo, hi);
    } else {
      DurationsAreActiveTime(ts[1..], lo, hi);
      CoverTimeIsDuration(ts[0], lo, hi);
      ActiveTimeSplits(ts, lo, hi);
    }
  }

  lemma {:induction false} ActiveTimeBounded(ts: seq<Timing>, h: nat, lo: int, hi: int)
    requires lo <= hi && forall at :: Active(ts, at) <= h
    ensures ActiveTime(ts, lo, hi) <= h * (hi - lo)
    decreases hi - lo
  {
    if lo < hi {
      ActiveTimeBounded(ts, h, lo, hi - 1);
      assert h * (hi - lo) == h * (hi - 1 - lo) + h;
    }
  }

  // The work recorded fits into high-water lanes of the wall-clock window.
  lemma WorkFitsInLanes(ts: seq<Timing>, h: nat, lo: int, hi: int)
    requires WellTimed(ts) && IsHighWater(ts, h) && ts != [] && IsWindow(ts, lo, hi)
    ensures TotalDuration(ts) <= h * (hi - lo)
  {
    assert ts[0] in ts;
    DurationsAreActiveTime(ts, lo, hi);
    ActiveTimeBounded(ts, h, lo, hi);
  }

  lemma {:induction false} ActiveAtLeast(ts: seq<Timing>, i: nat, at: int)
    requires i < |ts| && Covers(ts[i], at)
    ensures Active(ts, at) >= 1
  {
    if i > 0 { ActiveAtLeast(ts[1..], i - 1, at); }
  }

  lemma {:induction false} TwoActive(ts: seq<Timing>, i: nat, j: nat, at: int)
    requires i < j < |ts| && Covers(ts[i], at) && Covers(ts[j], at)
    ensures Active(ts, at) >= 2
  {
    if i == 0 {
      ActiveAtLeast(ts[1..], j - 1, at);
    } else {
      TwoActive(ts[1..], i - 1, j - 1, at);
    }
  }

  lemma {:induction false} FindActive(ts: seq<Timing>, at: int) returns (i: nat)
    requires Active(ts, at) >= 1
    ensures i < |ts| && Covers(ts[i], at)
  {
    if Covers(ts[0], at) {
      i := 0;
    } else {
      i := FindActive(ts[1..], at);
      i := i + 1;
    }
  }

  lemma {:induction false} FindTwoActive(ts: seq<Timing>, at: int) returns (i: nat, j: nat)
    requires Active(ts, at) >= 2
    ensures i < j < |ts| && Covers(ts[i], at) && Covers(ts[j], at)
  {
    if Covers(ts[0], at) {
      i := 0;
      j := FindActive(ts[1..], at);
      j := j + 1;
    } else {
      i, j := FindTwoActive(ts[1..], at);
      i, j := i + 1, j + 1;
    }
  }

  // The two parallelism figures agree: two tasks ran at once exactly when some pair
  // overlapped for a positive time.
  lemma HighWaterMeansOverlap(ts: seq<Timing>, h: nat, m: nat)
    requires IsHighWater(ts, h) && IsMaxOverlap(ts, m)
    ensures h >= 2 <==> m > 0
  {
    if h >= 2 {
      var at :| Active(ts, at) == h;
      var i, j := FindTwoActive(ts, at);
      assert Overlap(ts[i], ts[j]) > 0;
    }
    if m > 0 {
      var i, j :| 0 <= i < j < |ts| && Overlap(ts[i], ts[j]) == m;
      TwoActive(ts, i, j, Max(ts[i].started, ts[j].started));
    }
  }

  // --- Completion order does not matter -------------------------------------------

  lemma {:induction false} ActiveWithout(s: seq<Timing>, i: nat, at: int)
    requires i < |s|
    ensures Active(s, at) == (if Covers(s[i], at) then 1 else 0) + Active(s[..i] + s[i + 1..], at)
  {
    if i == 0 {
      assert s[..0] + s[1..] == s[1..];
    } else {
      ActiveWithout(s[1..], i - 1, at);
      assert (s[..i] + s[i + 1..])[1..] == s[1..][..i - 1] + s[1..][i..];
    }
  }

  lemma {:induction false} ActivePermutes(a: seq<Timing>, b: seq<Timing>, at: int)
    requires multiset(a) == multiset(b)
    ensures Active(a, at) == Active(b, at)
  {
    assert |multiset(a)| == |multiset(b)|;
    if a != [] {
      assert a[0] in multiset(b);
      var i := Without(b, a[0]);
      TailContents(a);
      ActivePermutes(a[1..], b[..i] + b[i + 1..], at);
      ActiveWithout(b, i, at);
    }
  }

  // Without the one at j, the one at i is still there.
  lemma StillThere(a: seq<Timing>, i: nat, j: nat)
    requires i < j < |a|
    ensures a[i] in multiset(a) - multiset{a[j]}
  {
    var x, y := a[..j], a[j + 1..];
    assert a == x + [a[j]] + y;
    assert a[i] == x[i] && x[i] in multiset(x);
    assert multiset(a) - multiset{a[j]} == multiset(x) + multiset(y);
  }

  lemma PlacesInRest(b: seq<Timing>, k: nat, t: Timing) returns (p: nat)
    requires k < |b| && t in multiset(b[..k] + b[k + 1..])
    ensures p < |b| && p != k && b[p] == t
  {
    var rest := b[..k] + b[k + 1..];
    var r :| 0 <= r < |rest| && rest[r] == t;
    p := if r < k then r else r + 1;
  }

  lemma PairMoves(a: seq<Timing>, b: seq<Timing>, i: nat, j: nat) returns (p: nat, q: nat)
    requires multiset(a) == multiset(b) && i < j < |a|
    ensures p < q < |b| && Overlap(b[p], b[q]) == Overlap(a[i], a[j])
  {
    StillThere(a, i, j);
    assert a[j] in multiset(b);
    var k := Without(b, a[j]);
    var r := PlacesInRest(b, k, a[i]);
    OverlapIsSymmetric(b[r], b[k]);
    hide Overlap;
    p, q := if r < k then r else k, if r < k then k else r;
  }

  lemma OverlapIsSymmetric(t: Timing, u: Timing)
    ensures Overlap(t, u) == Overlap(u, t)
  {}

  lemma HighWaterPermutes(a: seq<Timing>, b: seq<Timing>, h: nat)
    requires multiset(a) == multiset(b) && IsHighWater(a, h)
    ensures IsHighWater(b, h)
  {
    forall at ensures Active(a, at) == Active(b, at) { ActivePermutes(a, b, at); }
  }

  lemma MaxOverlapPermutes(a: seq<Timing>, b: seq<Timing>, m: nat)
    requires multiset(a) == multiset(b) && IsMaxOverlap(a, m)
    ensures IsMaxOverlap(b, m)
  {
    forall i, j | 0 <= i < j < |b| ensures Overlap(b[i], b[j]) <= m {
      var p, q := PairMoves(b, a, i, j);
    }
    if m > 0 {
      var i, j :| 0 <= i < j < |a| && Overlap(a[i], a[j]) == m;
      var p, q := PairMoves(a, b, i, j);
    }
  }

  lemma WindowPermutes(a: seq<Timing>, b: seq<Timing>, lo: int, hi: int)
    requires multiset(a) == multiset(b) && a != [] && IsWindow(a, lo, hi)
    ensures IsWindow(b, lo, hi)
  {
    forall t ensures t in a <==> t in b { assert t in multiset(a) <==> t in multiset(b); }
  }

  // The order in which tasks happen to finish changes none of the figures.
  lemma SummaryPermutes(a: seq<Timing>, b: seq<Timing>, h: nat, m: nat, lo: int, hi: int)
    requires multiset(a) == multiset(b)
    requires IsHighWater(a, h) && IsMaxOverlap(a, m) && (a != [] ==> IsWindow(a, lo, hi))
    ensures IsHighWater(b, h) && IsMaxOverlap(b, m) && (a != [] ==> IsWindow(b, lo, hi))
    ensures forall h' :: IsHighWater(b, h') ==> h' == h
    ensures forall m' :: IsMaxOverlap(b, m') ==> m' == m
  {
    HighWaterPermutes(a, b, h);
    MaxOverlapPermutes(a, b, m);
    if a != [] { WindowPermutes(a, b, lo, hi); }
  }
}
