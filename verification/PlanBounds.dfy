/** When planning succeeds, and how long a plan is compared with any other schedule. */
module PlanBounds {
  import opened Dependencies
  import opened Results
  import opened WavePlan

  ghost predicate Inside(p: seq<Id>, s: set<Id>) { forall i :: 0 <= i < |p| ==> p[i] in s }

  // Every dependency of an open task is open too or already done.
  ghost predicate Resolvable(tasks: Tasks, open: set<Id>, done: set<Id>) {
    forall id, d :: id in open && DependsOn(tasks, id, d) ==> d in open || d in done
  }

  ghost predicate NoCycleInside(tasks: Tasks, open: set<Id>) {
    forall c :: IsCycle(tasks, c) ==> !Inside(c, open)
  }

  ghost predicate IsChain(tasks: Tasks, open: set<Id>, c: seq<Id>) { IsPath(tasks, c) && Inside(c, open) }

  // d is the number of tasks on the longest dependency chain among the open tasks.
  ghost predicate LongestChain(tasks: Tasks, open: set<Id>, d: nat) {
    && (forall c :: IsChain(tasks, open, c) ==> |c| <= d)
    && ((d == 0 && open == {}) || exists c :: IsChain(tasks, open, c) && |c| == d)
  }

  ghost function SerializedIds(tasks: Tasks, open: set<Id>): set<Id> {
    set id | id in open && id in tasks && IsSerialized(tasks[id])
  }

  // --- What lawfulness means, wave by wave --------------------------------------

  ghost function IdsUpTo(plan: seq<Wave>, n: nat): set<Id>
    requires n <= |plan|
  {
    if n == 0 then {} else IdsUpTo(plan, n - 1) + Ids(plan[n - 1])
  }

  lemma {:induction false} IdsUpToShift(plan: seq<Wave>, n: nat)
    requires 1 <= n <= |plan|
    ensures IdsUpTo(plan, n) == Ids(plan[0]) + IdsUpTo(plan[1..], n - 1)
  {
    if n > 1 { IdsUpToShift(plan, n - 1); }
  }

  // Read by position: at wave i the done set is the completed set plus all earlier waves;
  // nothing runs twice and at the end nothing is left.
  lemma {:induction false} ScheduleByPosition(tasks: Tasks, open: set<Id>, done: set<Id>, cap: Option<int>,
          plan: seq<Wave>, i: nat)
    requires IsSchedule(tasks, open, done, cap, plan) && i <= |plan|
    ensures i < |plan| ==> LawfulWave(tasks, open - IdsUpTo(plan, i), done + IdsUpTo(plan, i), cap, plan[i])
    ensures IsSchedule(tasks, open - IdsUpTo(plan, i), done + IdsUpTo(plan, i), cap, plan[i..])
    ensures IdsUpTo(plan, i) <= open
    ensures i == |plan| ==> IdsUpTo(plan, i) == open
    decreases |plan|
  {
    if i == 0 {
      assert open - {} == open && done + {} == done && plan[0..] == plan;
    } else {
      var w := plan[0];
      IdsUpToShift(plan, i);
      ScheduleByPosition(tasks, open - Ids(w), done + Ids(w), cap, plan[1..], i - 1);
      var rest := IdsUpTo(plan[1..], i - 1);
      assert open - Ids(w) - rest == open - IdsUpTo(plan, i);
      assert done + Ids(w) + rest == done + IdsUpTo(plan, i);
      assert plan[1..][i - 1..] == plan[i..];
      assert Ids(w) <= open;
    }
  }

  // --- Planning succeeds exactly on acyclic, resolvable graphs --------------------

  lemma {:induction false} ScheduleResolves(tasks: Tasks, open: set<Id>, done: set<Id>, cap: Option<int>,
                                            plan: seq<Wave>)
    requires IsSchedule(tasks, open, done, cap, plan)
    ensures open <= tasks.Keys && Resolvable(tasks, open, done)
    decreases |plan|
  {
    if plan != [] {
      var w := plan[0];
      ScheduleResolves(tasks, open - Ids(w), done + Ids(w), cap, plan[1..]);
      forall id, d | id in open && DependsOn(tasks, id, d) ensures d in open || d in done {
        if id in Ids(w) { assert Ready(tasks, done, id); }
      }
    }
  }

  lemma {:induction false} ScheduleHasNoCycle(tasks: Tasks, open: set<Id>, done: set<Id>, cap: Option<int>,
          plan: seq<Wave>, c: seq<Id>)
    requires IsSchedule(tasks, open, done, cap, plan) && open !! done
    requires IsCycle(tasks, c)
    ensures !Inside(c, open)
    decreases |plan|
  {
    if plan != [] && Inside(c, open) {
      var w := plan[0];
      forall i | 0 <= i < |c| ensures c[i] !in Ids(w) {
        var j := if i + 1 < |c| then i + 1 else 1;
        assert DependsOn(tasks, c[j - 1], c[j]) && c[j - 1] == c[i];
        assert c[j] !in done;
        assert !Ready(tasks, done, c[i]);
      }
      assert Inside(c, open - Ids(w));
      ScheduleHasNoCycle(tasks, open - Ids(w), done + Ids(w), cap, plan[1..], c);
      assert false;
    }
  }

  lemma {:induction false} StuckSetIsUnready(tasks: Tasks, open: set<Id>, done: set<Id>, levels: seq<seq<TaskSpec>>,
          stuck: set<Id>)
    requires IsLayering(tasks, open, done, levels, stuck)
    ensures stuck <= open
    ensures forall id :: id in stuck ==> !Ready(tasks, done + (open - stuck), id)
    decreases |levels|
  {
    if levels == [] {
      assert done + (open - stuck) == done;
    } else {
      var l := levels[0];
      StuckSetIsUnready(tasks, open - Ids(l), done + Ids(l), levels[1..], stuck);
      assert Ids(l) <= open;
      assert done + Ids(l) + (open - Ids(l) - stuck) == done + (open - stuck);
    }
  }

  // The stuck error is never spurious: among the tasks left over there is one with a
  // dependency nobody registered or completed, or a genuine cycle.
  lemma StuckMeansCycleOrUnknown(tasks: Tasks, order: seq<Id>, completed: set<Id>)
    requires Keyed(tasks) && Enumerates(order, tasks)
    ensures var stuck := Layering(tasks, order, tasks.Keys - completed, completed).stuck;
      stuck != {} ==>
        || (exists id, d :: id in stuck && DependsOn(tasks, id, d) && d !in tasks && d !in completed)
        || (exists c :: IsCycle(tasks, c) && Inside(c, stuck))
  {
    var open := tasks.Keys - completed;
    LayeringIsLayering(tasks, order, open, completed);
    var r := Layering(tasks, order, open, completed);
    var stuck := r.stuck;
    StuckSetIsUnready(tasks, open, completed, r.levels, stuck);
    if stuck != {} && !exists id, d :: id in stuck && DependsOn(tasks, id, d) && d !in tasks && d !in completed {
      forall id | id in stuck ensures DependsInside(tasks, stuck, id) {
        assert !Ready(tasks, completed + (open - stuck), id);
        var d :| d in tasks[id].dependsOn && d !in completed + (open - stuck);
        assert DependsOn(tasks, id, d);
        assert d in stuck;
      }
      var c := TrapHasCycle(tasks, stuck);
      assert IsCycle(tasks, c) && Inside(c, stuck);
    }
  }

  // `waves` returns a plan exactly when the cap is legal, every dependency of an
  // uncompleted task is registered or completed, and the uncompleted tasks are acyclic.
  lemma PlanSucceedsExactlyWhen(tasks: Tasks, order: seq<Id>, completed: set<Id>, cap: Option<int>)
    requires Keyed(tasks) && Enumerates(order, tasks)
    ensures var open, r := tasks.Keys - completed, Plan(tasks, order, completed, cap);
      && (r.Ok? <==> (cap.Some? ==> cap.value >= 1) && Resolvable(tasks, open, completed) && NoCycleInside(tasks, open))
      && (r.Err? ==> r.error == if cap.Some? && cap.value < 1 then BadParallelism(cap.value) else NoneReady)
  {
    var open := tasks.Keys - completed;
    var r := Plan(tasks, order, completed, cap);
    if r.Ok? {
      PlanIsSchedule(tasks, order, completed, cap);
      ScheduleResolves(tasks, open, completed, cap, r.value);
      forall c | IsCycle(tasks, c) ensures !Inside(c, open) {
        ScheduleHasNoCycle(tasks, open, completed, cap, r.value, c);
      }
    } else if !(cap.Some? && cap.value < 1) {
      StuckMeansCycleOrUnknown(tasks, order, completed);
      LayeringIsLayering(tasks, order, open, completed);
      var l := Layering(tasks, order, open, completed);
      StuckSetIsUnready(tasks, open, completed, l.levels, l.stuck);
      if c :| IsCycle(tasks, c) && Inside(c, l.stuck) {
        assert Inside(c, open);
      }
    }
  }

  // A sound registry can always be planned, whatever is already completed.
  lemma SoundGraphsArePlannable(tasks: Tasks, order: seq<Id>, completed: set<Id>, cap: Option<int>)
    requires Sound(tasks) && Enumerates(order, tasks) && (cap.Some? ==> cap.value >= 1)
    ensures Plan(tasks, order, completed, cap).Ok?
  {
    PlanSucceedsExactlyWhen(tasks, order, completed, cap);
  }

  // --- Counting -------------------------------------------------------------------

  lemma {:induction false} IdsCount(ts: seq<TaskSpec>)
    requires DistinctIds(ts)
    ensures |Ids(ts)| == |ts|
  {
    if ts != [] {
      assert ts == [ts[0]] + ts[1..];
      DistinctParts([ts[0]], ts[1..]);
      IdsCount(ts[1..]);
      assert Ids([ts[0]]) == {ts[0].id};
    }
  }

  ghost predicate OpenTasks(tasks: Tasks, open: set<Id>, ts: seq<TaskSpec>) {
    DistinctIds(ts) && forall t :: t in ts ==> t.id in open && t.id in tasks && tasks[t.id] == t
  }

  lemma RemoveSerialized(tasks: Tasks, open: set<Id>, ts: seq<TaskSpec>)
    requires OpenTasks(tasks, open, ts) && forall t :: t in ts ==> IsSerialized(t)
    ensures |open - Ids(ts)| == |open| - |ts|
    ensures |SerializedIds(tasks, open - Ids(ts))| == |SerializedIds(tasks, open)| - |ts|
  {
    IdsCount(ts);
    RemoveSubset(open, Ids(ts));
    RemoveSubset(SerializedIds(tasks, open), Ids(ts));
    assert SerializedIds(tasks, open - Ids(ts)) == SerializedIds(tasks, open) - Ids(ts);
  }

  lemma RemoveParallel(tasks: Tasks, open: set<Id>, ts: seq<TaskSpec>)
    requires OpenTasks(tasks, open, ts) && forall t :: t in ts ==> !IsSerialized(t)
    ensures |open - Ids(ts)| == |open| - |ts|
    ensures SerializedIds(tasks, open - Ids(ts)) == SerializedIds(tasks, open)
  {
    IdsCount(ts);
    RemoveSubset(open, Ids(ts));
  }

  lemma RemoveSubset(s: set<Id>, t: set<Id>)
    requires t <= s
    ensures |s - t| == |s| - |t|
  {}

  // `k` waves of room `p`: the product p * k spelt as repeated addition, which keeps the
  // counting below linear for the solver.
  ghost function Room(p: nat, k: nat): nat {
    if k == 0 then 0 else p + Room(p, k - 1)
  }

  lemma {:induction false} RoomIsProduct(p: nat, k: nat)
    ensures Room(p, k) == p * k
  {
    if k > 0 {
      RoomIsProduct(p, k - 1);
      assert p * k == p * (k - 1) + p;
    }
  }

  lemma {:induction false} RoomAdds(p: nat, a: nat, b: nat)
    ensures Room(p, a + b) == Room(p, a) + Room(p, b)
  {
    if a > 0 { RoomAdds(p, a - 1, b); }
  }

  lemma {:induction false} RoomOfOneLess(p: nat, k: nat)
    requires p >= 1
    ensures Room(p, k) == k + Room(p - 1, k)
  {
    if k > 0 { RoomOfOneLess(p, k - 1); }
  }

  lemma {:induction false} ChunkCount(s: seq<TaskSpec>, k: nat)
    requires k >= 1
    ensures Room(k, |Chunks(s, k)|) <= |s| + k - 1
    ensures k == 1 ==> |Chunks(s, k)| == |s|
    ensures s != [] && |s| <= k ==> |Chunks(s, k)| == 1
    decreases |s|
  {
    if s != [] && |s| > k { ChunkCount(s[k..], k); }
    assert Room(k, 1) == k + Room(k, 0);
  }

  ghost predicate NonEmpty(levels: seq<seq<TaskSpec>>) {
    forall i :: 0 <= i < |levels| ==> levels[i] != []
  }

  function ParallelLevels(levels: seq<seq<TaskSpec>>): nat
    requires NonEmpty(levels)
  {
    if levels == [] then 0
    else (if IsSerialized(levels[0][0]) then 0 else 1) + ParallelLevels(levels[1..])
  }

  ghost function Waste(tasks: Tasks, open: set<Id>, levels: seq<seq<TaskSpec>>): nat
    requires NonEmpty(levels)
  {
    |SerializedIds(tasks, open)| + ParallelLevels(levels)
  }

  lemma SerializedStep(p: nat, n: nat, m: nat, sum: nat, open: int, more: int, w: nat, waste: nat)
    requires p >= 1 && Room(p, m) <= open + Room(p - 1, w)
    requires sum == n + m && more == open + n && waste == n + w
    ensures Room(p, sum) <= more + Room(p - 1, waste)
  {
    RoomAdds(p, n, m);
    RoomAdds(p - 1, n, w);
    RoomOfOneLess(p, n);
  }

  lemma ParallelStep(p: nat, n: nat, m: nat, sum: nat, size: nat, open: int, more: int, w: nat, waste: nat)
    requires p >= 1 && Room(p, m) <= open + Room(p - 1, w) && Room(p, n) <= size + p - 1
    requires sum == n + m && more == open + size && waste == 1 + w
    ensures Room(p, sum) <= more + Room(p - 1, waste)
  {
    RoomAdds(p, n, m);
  }

  // One level more: a SERIALIZED level fills as many waves as it has tasks ...
  lemma SerializedLevel(tasks: Tasks, open: set<Id>, done: set<Id>, levels: seq<seq<TaskSpec>>, p: nat)
    requires levels != [] && p >= 1 && NonEmpty(levels) && IsLevel(tasks, open, done, levels[0])
    requires IsSerialized(levels[0][0])
    ensures NonEmpty(levels[1..])
    ensures |Pack(levels, Some(p))| == |levels[0]| + |Pack(levels[1..], Some(p))|
    ensures |open| == |levels[0]| + |open - Ids(levels[0])|
    ensures Waste(tasks, open, levels) == |levels[0]| + Waste(tasks, open - Ids(levels[0]), levels[1..])
  {
    var l := levels[0];
    assert l[0] in l;
    RemoveSerialized(tasks, open, l);
    ChunkCount(l, 1);
  }

  // ... and any other level loses at most p - 1 places.
  lemma ParallelLevel(tasks: Tasks, open: set<Id>, done: set<Id>, levels: seq<seq<TaskSpec>>, p: nat) returns (n: nat)
    requires levels != [] && p >= 1 && NonEmpty(levels) && IsLevel(tasks, open, done, levels[0])
    requires !IsSerialized(levels[0][0])
    ensures NonEmpty(levels[1..])
    ensures Room(p, n) <= |levels[0]| + p - 1
    ensures |Pack(levels, Some(p))| == n + |Pack(levels[1..], Some(p))|
    ensures |open| == |levels[0]| + |open - Ids(levels[0])|
    ensures Waste(tasks, open, levels) == 1 + Waste(tasks, open - Ids(levels[0]), levels[1..])
  {
    var l := levels[0];
    assert l[0] in l;
    RemoveParallel(tasks, open, l);
    ChunkCount(l, p);
    n := |Chunks(l, p)|;
  }

  // Only a parallel level wastes room, and it wastes less than one wave.
  lemma {:induction false} CappedLength(tasks: Tasks, open: set<Id>, done: set<Id>, levels: seq<seq<TaskSpec>>, p: nat)
    requires p >= 1 && IsLayering(tasks, open, done, levels, {}) && NonEmpty(levels)
    ensures Room(p, |Pack(levels, Some(p))|) <= |open| + Room(p - 1, Waste(tasks, open, levels))
    decreases |levels|
  {
    if levels != [] {
      CappedLength(tasks, open - Ids(levels[0]), done + Ids(levels[0]), levels[1..], p);
      var l, open' := levels[0], open - Ids(levels[0]);
      var m, w := |Pack(levels[1..], Some(p))|, Waste(tasks, open', levels[1..]);
      if IsSerialized(l[0]) {
        SerializedLevel(tasks, open, done, levels, p);
        SerializedStep(p, |l|, m, |Pack(levels, Some(p))|, |open'|, |open|, w, Waste(tasks, open, levels));
      } else {
        var n := ParallelLevel(tasks, open, done, levels, p);
        ParallelStep(p, n, m, |Pack(levels, Some(p))|, |l|, |open'|, |open|, w, Waste(tasks, open, levels));
      }
    }
  }

  lemma {:induction false} UncappedLength(tasks: Tasks, open: set<Id>, done: set<Id>, levels: seq<seq<TaskSpec>>)
    requires IsLayering(tasks, open, done, levels, {})
    requires NonEmpty(levels)
    ensures |Pack(levels, None)| == |SerializedIds(tasks, open)| + ParallelLevels(levels)
    decreases |levels|
  {
    if levels != [] {
      var l := levels[0];
      assert forall i :: 1 <= i < |levels| ==> levels[i] == levels[1..][i - 1];
      UncappedLength(tasks, open - Ids(l), done + Ids(l), levels[1..]);
      assert l[0] in l;
      ChunkCount(l, Width(l, None));
      if IsSerialized(l[0]) {
        RemoveSerialized(tasks, open, l);
      } else {
        RemoveParallel(tasks, open, l);
      }
    }
  }

  // Every parallel level has a task that waited for the level before it.
  lemma {:induction false} LevelsFollowAChain(tasks: Tasks, open: set<Id>, done: set<Id>, levels: seq<seq<TaskSpec>>)
    returns (c: seq<Id>)
    requires IsLayering(tasks, open, done, levels, {}) && Resolvable(tasks, open, done)
    requires open <= tasks.Keys
    requires NonEmpty(levels)
    ensures |c| == ParallelLevels(levels) && (c != [] ==> IsChain(tasks, open, c))
    decreases |levels|
  {
    if levels == [] {
      c := [];
    } else {
      var l := levels[0];
      assert forall i :: 1 <= i < |levels| ==> levels[i] == levels[1..][i - 1];
      forall id, d | id in open - Ids(l) && DependsOn(tasks, id, d)
        ensures d in open - Ids(l) || d in done + Ids(l)
      { assert d in open || d in done; }
      var rest := LevelsFollowAChain(tasks, open - Ids(l), done + Ids(l), levels[1..]);
      assert l[0] in l;
      if IsSerialized(l[0]) {
        c := rest;
      } else if rest == [] {
        c := [l[0].id];
      } else {
        var last := rest[|rest| - 1];
        assert last in open - Ids(l);
        assert !Ready(tasks, done, last);
        var d :| d in tasks[last].dependsOn && d !in done;
        assert DependsOn(tasks, last, d);
        PathExtends(tasks, rest, d);
        c := rest + [d];
      }
    }
  }

  // --- Lower bounds for any schedule ------------------------------------------------

  lemma {:induction false} ChainNeedsWaves(tasks: Tasks, open: set<Id>, done: set<Id>, cap: Option<int>,
                                           plan: seq<Wave>, c: seq<Id>)
    requires IsSchedule(tasks, open, done, cap, plan) && open !! done && IsChain(tasks, open, c)
    ensures |c| <= |plan|
    decreases |plan|
  {
    assert c[0] in open;
    var w := plan[0];
    if |c| > 1 {
      var d := c[..|c| - 1];
      PathSlice(tasks, c, 0, |c| - 1);
      forall i | 0 <= i < |d| ensures d[i] in open - Ids(w) {
        assert DependsOn(tasks, c[i], c[i + 1]) && c[i + 1] !in done;
        assert !Ready(tasks, done, c[i]);
      }
      ChainNeedsWaves(tasks, open - Ids(w), done + Ids(w), cap, plan[1..], d);
    }
  }

  lemma {:induction false} RoomNeedsWaves(tasks: Tasks, open: set<Id>, done: set<Id>, p: nat, plan: seq<Wave>)
    requires p >= 1 && IsSchedule(tasks, open, done, Some(p), plan)
    ensures |open| + Room(p - 1, |SerializedIds(tasks, open)|) <= Room(p, |plan|)
    decreases |plan|
  {
    if plan != [] {
      var w := plan[0];
      RoomNeedsWaves(tasks, open - Ids(w), done + Ids(w), p, plan[1..]);
      assert w[0] in w;
      if IsSerialized(w[0]) {
        assert |w| == 1 && w == [w[0]];
        RemoveSerialized(tasks, open, w);
        assert |SerializedIds(tasks, open)| == |SerializedIds(tasks, open - Ids(w))| + 1;
      } else {
        assert forall t :: t in w ==> !IsSerialized(t) by {
          if |w| == 1 { assert w == [w[0]]; }
        }
        RemoveParallel(tasks, open, w);
      }
    }
  }

  // --- Without a cap the greedy plan stays ahead of every schedule --------------------

  ghost function ParallelWaves(plan: seq<Wave>): nat {
    if plan == [] then 0
    else (if plan[0] != [] && IsSerialized(plan[0][0]) then 0 else 1) + ParallelWaves(plan[1..])
  }

  // A SERIALIZED task takes a wave of its own under any cap.
  lemma {:induction false} SerializedWavesAreCounted(tasks: Tasks, open: set<Id>, done: set<Id>, cap: Option<int>,
                                                     plan: seq<Wave>)
    requires IsSchedule(tasks, open, done, cap, plan)
    ensures |plan| == |SerializedIds(tasks, open)| + ParallelWaves(plan)
    decreases |plan|
  {
    if plan != [] {
      var w := plan[0];
      SerializedWavesAreCounted(tasks, open - Ids(w), done + Ids(w), cap, plan[1..]);
      assert w[0] in w;
      if IsSerialized(w[0]) {
        assert w == [w[0]];
        RemoveSerialized(tasks, open, w);
      } else {
        assert forall t :: t in w ==> !IsSerialized(t) by {
          if |w| == 1 { assert w == [w[0]]; }
        }
        RemoveParallel(tasks, open, w);
      }
    }
  }

  // Both work on the same tasks, and whatever the schedule has done the levels have too.
  ghost predicate IsAhead(open: set<Id>, done: set<Id>, otherOpen: set<Id>, otherDone: set<Id>) {
    open <= otherOpen && otherDone <= done && open !! done && open + done == otherOpen + otherDone
  }

  // What a schedule runs next has either been done by the levels already or belongs to a
  // parallel level that is next: then nothing SERIALIZED is ready.
  lemma StaysAhead(tasks: Tasks, open: set<Id>, done: set<Id>, l: seq<TaskSpec>, otherOpen: set<Id>,
                   otherDone: set<Id>, cap: Option<int>, w: Wave)
    requires IsLevel(tasks, open, done, l) && l != [] && !IsSerialized(l[0])
    requires IsAhead(open, done, otherOpen, otherDone) && LawfulWave(tasks, otherOpen, otherDone, cap, w)
    ensures Ids(w) <= done + Ids(l)
    ensures IsSerialized(w[0]) ==> Ids(w) <= done
  {
    assert l[0] in l;
    forall t | t in w ensures t.id in done + Ids(l) && (IsSerialized(t) ==> t.id in done) {
      assert Ready(tasks, done, t.id);
    }
    if IsSerialized(w[0]) { assert w == [w[0]]; }
  }

  lemma {:induction false} LevelsStayAhead(tasks: Tasks, open: set<Id>, done: set<Id>, levels: seq<seq<TaskSpec>>,
          otherOpen: set<Id>, otherDone: set<Id>, cap: Option<int>, plan: seq<Wave>)
    requires IsLayering(tasks, open, done, levels, {}) && NonEmpty(levels)
    requires IsSchedule(tasks, otherOpen, otherDone, cap, plan) && IsAhead(open, done, otherOpen, otherDone)
    ensures ParallelLevels(levels) <= ParallelWaves(plan)
    decreases |levels| + |plan|
  {
    if levels != [] {
      var l := levels[0];
      assert l[0] in l;
      if IsSerialized(l[0]) {
        LevelsStayAhead(tasks, open - Ids(l), done + Ids(l), levels[1..], otherOpen, otherDone, cap, plan);
      } else {
        assert l[0].id in otherOpen;
        var w := plan[0];
        StaysAhead(tasks, open, done, l, otherOpen, otherDone, cap, w);
        if IsSerialized(w[0]) {
          LevelsStayAhead(tasks, open, done, levels, otherOpen - Ids(w), otherDone + Ids(w), cap, plan[1..]);
        } else {
          LevelsStayAhead(tasks, open - Ids(l), done + Ids(l), levels[1..], otherOpen - Ids(w), otherDone + Ids(w),
                          cap, plan[1..]);
        }
      }
    }
  }

  // --- The bounds --------------------------------------------------------------------

  lemma PlanFollowsAChain(tasks: Tasks, order: seq<Id>, completed: set<Id>, cap: Option<int>, d: nat)
    requires Keyed(tasks) && Enumerates(order, tasks)
    requires Plan(tasks, order, completed, cap).Ok? && LongestChain(tasks, tasks.Keys - completed, d)
    ensures var l := Layering(tasks, order, tasks.Keys - completed, completed);
      && IsLayering(tasks, tasks.Keys - completed, completed, l.levels, {})
      && ParallelLevels(l.levels) <= d && Plan(tasks, order, completed, cap).value == Pack(l.levels, cap)
  {
    var open := tasks.Keys - completed;
    LayeringIsLayering(tasks, order, open, completed);
    PlanSucceedsExactlyWhen(tasks, order, completed, cap);
    var c := LevelsFollowAChain(tasks, open, completed, Layering(tasks, order, open, completed).levels);
  }

  lemma Monotone(p: nat, a: nat, b: nat)
    requires a <= b
    ensures Room(p, a) <= Room(p, b)
  {
    RoomAdds(p, a, b - a);
  }

  lemma BoundAsProduct(p: nat, n: nat, open: nat, s: nat, waste: nat, d: nat)
    requires p >= 1 && waste <= s + d && Room(p, n) <= open + Room(p - 1, waste)
    ensures p * n <= open + (p - 1) * s + (p - 1) * d
  {
    Monotone(p - 1, waste, s + d);
    RoomAdds(p - 1, s, d);
    RoomIsProduct(p, n);
    RoomIsProduct(p - 1, s);
    RoomIsProduct(p - 1, d);
  }

  lemma RatioInRoom(p: nat, n: nat, open: nat, s: nat, waste: nat, w: nat)
    requires p >= 1 && waste <= w && Room(p, n) <= open + Room(p - 1, waste)
    requires open + Room(p - 1, s) <= Room(p, w)
    ensures Room(p, n) + Room(p - 1, s) <= Room(p, w) + Room(p - 1, w)
  {
    Monotone(p - 1, waste, w);
  }

  lemma OddMultiple(p: int, w: int)
    ensures (2 * p - 1) * w == p * w + (p - 1) * w
  {}

  lemma RatioAsProduct(p: nat, n: nat, s: nat, w: nat)
    requires p >= 1 && Room(p, n) + Room(p - 1, s) <= Room(p, w) + Room(p - 1, w)
    ensures p * n + (p - 1) * s <= (2 * p - 1) * w
    ensures p * n <= (2 * p - 1) * w
  {
    hide Room;
    RoomIsProduct(p, n);
    RoomIsProduct(p - 1, s);
    RoomIsProduct(p, w);
    RoomIsProduct(p - 1, w);
    OddMultiple(p, w);
  }

  // Graham's bound: p*W <= N + (p-1)*S + (p-1)*D for N open tasks, S of them SERIALIZED, and
  // a longest dependency chain of D tasks.
  lemma CappedPlanLength(tasks: Tasks, order: seq<Id>, completed: set<Id>, p: nat, d: nat)
    requires Keyed(tasks) && Enumerates(order, tasks) && Plan(tasks, order, completed, Some(p)).Ok?
    requires LongestChain(tasks, tasks.Keys - completed, d)
    ensures var open := tasks.Keys - completed;
      p * |Plan(tasks, order, completed, Some(p)).value|
      <= |open| + (p - 1) * |SerializedIds(tasks, open)| + (p - 1) * d
  {
    PlanFollowsAChain(tasks, order, completed, Some(p), d);
    var open := tasks.Keys - completed;
    var levels := Layering(tasks, order, open, completed).levels;
    CappedLength(tasks, open, completed, levels, p);
    BoundAsProduct(p, |Plan(tasks, order, completed, Some(p)).value|, |open|,
                   |SerializedIds(tasks, open)|, Waste(tasks, open, levels), d);
  }

  lemma CappedPlanInRoom(tasks: Tasks, order: seq<Id>, completed: set<Id>, p: nat, other: seq<Wave>)
    requires Keyed(tasks) && Enumerates(order, tasks) && Plan(tasks, order, completed, Some(p)).Ok?
    requires IsSchedule(tasks, tasks.Keys - completed, completed, Some(p), other)
    ensures p >= 1
    ensures Room(p, |Plan(tasks, order, completed, Some(p)).value|)
          + Room(p - 1, |SerializedIds(tasks, tasks.Keys - completed)|)
         <= Room(p, |other|) + Room(p - 1, |other|)
  {
    hide Room;
    var open := tasks.Keys - completed;
    LayeringIsLayering(tasks, order, open, completed);
    var levels := Layering(tasks, order, open, completed).levels;
    LevelsStayAhead(tasks, open, completed, levels, open, completed, Some(p), other);
    SerializedWavesAreCounted(tasks, open, completed, Some(p), other);
    RoomNeedsWaves(tasks, open, completed, p, other);
    CappedLength(tasks, open, completed, levels, p);
    RatioInRoom(p, |Plan(tasks, order, completed, Some(p)).value|, |open|, |SerializedIds(tasks, open)|,
                Waste(tasks, open, levels), |other|);
  }

  // The greedy plan is within a factor 2 - 1/p of every lawful schedule of the same
  // tasks, and closer by 1 - 1/p waves for every SERIALIZED one.
  lemma PlanWithinTwiceAnySchedule(tasks: Tasks, order: seq<Id>, completed: set<Id>, p: nat, other: seq<Wave>)
    requires Keyed(tasks) && Enumerates(order, tasks) && Plan(tasks, order, completed, Some(p)).Ok?
    requires IsSchedule(tasks, tasks.Keys - completed, completed, Some(p), other)
    ensures var n, s := |Plan(tasks, order, completed, Some(p)).value|, |SerializedIds(tasks, tasks.Keys - completed)|;
      p * n + (p - 1) * s <= (2 * p - 1) * |other|
    ensures p * |Plan(tasks, order, completed, Some(p)).value| <= (2 * p - 1) * |other|
  {
    CappedPlanInRoom(tasks, order, completed, p, other);
    hide Plan, IsSchedule, SerializedIds, Enumerates, Keyed, Room;
    RatioAsProduct(p, |Plan(tasks, order, completed, Some(p)).value|,
                   |SerializedIds(tasks, tasks.Keys - completed)|, |other|);
  }

  // Without a cap the plan spends one wave per SERIALIZED task and at most one per step
  // of the longest chain; with no SERIALIZED task it is exactly the longest chain, which
  // no schedule under any cap can beat.
  lemma UncappedPlanLength(tasks: Tasks, order: seq<Id>, completed: set<Id>, d: nat)
    requires Keyed(tasks) && Enumerates(order, tasks) && Plan(tasks, order, completed, None).Ok?
    requires LongestChain(tasks, tasks.Keys - completed, d)
    ensures var open, w := tasks.Keys - completed, |Plan(tasks, order, completed, None).value|;
      && |SerializedIds(tasks, open)| <= w <= |SerializedIds(tasks, open)| + d
      && (SerializedIds(tasks, open) == {} ==> w == d)
      && forall cap, other :: IsSchedule(tasks, open, completed, cap, other) ==> d <= |other|
  {
    var open := tasks.Keys - completed;
    PlanFollowsAChain(tasks, order, completed, None, d);
    UncappedLength(tasks, open, completed, Layering(tasks, order, open, completed).levels);
    PlanIsSchedule(tasks, order, completed, None);
    forall cap, other | IsSchedule(tasks, open, completed, cap, other) ensures d <= |other| {
      LongestChainNeedsWaves(tasks, open, completed, cap, other, d);
    }
  }

  // Without a cap no lawful schedule of the same tasks, whatever its cap, needs fewer waves
  // than the plan, SERIALIZED tasks included.
  lemma UncappedPlanIsShortest(tasks: Tasks, order: seq<Id>, completed: set<Id>, cap: Option<int>, other: seq<Wave>)
    requires Keyed(tasks) && Enumerates(order, tasks) && Plan(tasks, order, completed, None).Ok?
    requires IsSchedule(tasks, tasks.Keys - completed, completed, cap, other)
    ensures |Plan(tasks, order, completed, None).value| <= |other|
  {
    var open := tasks.Keys - completed;
    LayeringIsLayering(tasks, order, open, completed);
    var levels := Layering(tasks, order, open, completed).levels;
    UncappedLength(tasks, open, completed, levels);
    LevelsStayAhead(tasks, open, completed, levels, open, completed, cap, other);
    SerializedWavesAreCounted(tasks, open, completed, cap, other);
  }

  lemma LongestChainNeedsWaves(tasks: Tasks, open: set<Id>, done: set<Id>, cap: Option<int>, plan: seq<Wave>, d: nat)
    requires IsSchedule(tasks, open, done, cap, plan) && open !! done && LongestChain(tasks, open, d)
    ensures d <= |plan|
  {
    if c :| IsChain(tasks, open, c) && |c| == d {
      ChainNeedsWaves(tasks, open, done, cap, plan, c);
    }
  }
}
