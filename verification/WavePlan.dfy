/** The greedy wave plan as a function of the graph, and what makes a schedule lawful. */
module WavePlan {
  import opened Dependencies
  import opened Results
  import opened Sorting
  import opened Text

  datatype GraphError =
    | DuplicateTask(id: Id)
    | UnknownTask(id: Id)
    | WouldCreateCycle(task: Id, dependency: Id)
    | BadParallelism(given: int)
    | NoneReady

  type Wave = seq<TaskSpec>

  // --- Definitions the planner is judged by -------------------------------

  function Ids(ts: seq<TaskSpec>): set<Id> { set t | t in ts :: t.id }

  ghost predicate DistinctIds(ts: seq<TaskSpec>) {
    forall i, j :: 0 <= i < j < |ts| ==> ts[i].id != ts[j].id
  }

  predicate Ready(tasks: Tasks, done: set<Id>, id: Id) {
    id in tasks && forall d :: d in tasks[id].dependsOn ==> d in done
  }

  predicate IsSerialized(t: TaskSpec) { t.kind == SERIALIZED }

  predicate FitsCap(n: nat, cap: Option<int>) { cap.Some? ==> n <= cap.value }

  // One wave that may start now: distinct open tasks with every dependency done; a
  // SERIALIZED task alone; no more tasks than the cap.
  ghost predicate LawfulWave(tasks: Tasks, open: set<Id>, done: set<Id>, cap: Option<int>, w: Wave) {
    && w != [] && DistinctIds(w) && FitsCap(|w|, cap)
    && (forall t :: t in w ==> t.id in open && Ready(tasks, done, t.id) && tasks[t.id] == t)
    && (|w| > 1 ==> forall t :: t in w ==> !IsSerialized(t))
  }

  // Any schedule at all that runs the open tasks wave by wave.
  ghost predicate IsSchedule(tasks: Tasks, open: set<Id>, done: set<Id>, cap: Option<int>, plan: seq<Wave>)
    decreases |plan|
  {
    if plan == [] then open == {}
    else
      && LawfulWave(tasks, open, done, cap, plan[0])
      && IsSchedule(tasks, open - Ids(plan[0]), done + Ids(plan[0]), cap, plan[1..])
  }

  // --- The planner ----------------------------------------------------------

  function KindRank(k: Kind): nat {
    match k case INDEPENDENT => 0 case DEPENDENT => 1 case RECONCILER => 2 case SERIALIZED => 3
  }

  predicate KeyLe(a: TaskSpec, b: TaskSpec) {
    KindRank(a.kind) < KindRank(b.kind) || (a.kind == b.kind && StrLe(a.id, b.id))
  }

  // An insertion order of the registry: every id once.
  ghost predicate Enumerates(order: seq<Id>, tasks: Tasks) {
    && (forall i, j :: 0 <= i < j < |order| ==> order[i] != order[j])
    && (forall k :: k in tasks <==> k in order)
  }

  function Candidates(tasks: Tasks, order: seq<Id>, open: set<Id>, done: set<Id>): seq<TaskSpec> {
    if order == [] then []
    else
      (if order[0] in open && Ready(tasks, done, order[0]) then [tasks[order[0]]] else [])
      + Candidates(tasks, order[1..], open, done)
  }

  function Select(ts: seq<TaskSpec>, serialized: bool): seq<TaskSpec> {
    if ts == [] then []
    else (if IsSerialized(ts[0]) == serialized then [ts[0]] else []) + Select(ts[1..], serialized)
  }

  // What one pass of the planning loop schedules: the ready SERIALIZED tasks if there
  // are any, otherwise everything that is ready.
  function Level(tasks: Tasks, order: seq<Id>, open: set<Id>, done: set<Id>): seq<TaskSpec> {
    var c := Sort(Candidates(tasks, order, open, done), KeyLe);
    if Select(c, true) != [] then Select(c, true) else Select(c, false)
  }

  function Chunks(s: seq<TaskSpec>, k: nat): seq<Wave>
    requires k >= 1
  {
    if s == [] then [] else if |s| <= k then [s] else [s[..k]] + Chunks(s[k..], k)
  }

  function Width(level: seq<TaskSpec>, cap: Option<int>): (k: nat)
    requires level != [] && (cap.Some? ==> cap.value >= 1)
    ensures k >= 1
  {
    if IsSerialized(level[0]) then 1 else if cap.Some? then cap.value else |level|
  }

  function Pack(levels: seq<seq<TaskSpec>>, cap: Option<int>): seq<Wave>
    requires cap.Some? ==> cap.value >= 1
    requires forall i :: 0 <= i < |levels| ==> levels[i] != []
  {
    if levels == [] then [] else Chunks(levels[0], Width(levels[0], cap)) + Pack(levels[1..], cap)
  }

  // The passes of the planning loop, and the tasks left over when nothing is ready.
  datatype Layers = Layers(levels: seq<seq<TaskSpec>>, stuck: set<Id>)

  function Layering(tasks: Tasks, order: seq<Id>, open: set<Id>, done: set<Id>): (r: Layers)
    requires Keyed(tasks) && Enumerates(order, tasks) && open <= tasks.Keys
    ensures forall i :: 0 <= i < |r.levels| ==> r.levels[i] != []
    decreases open
  {
    if open == {} then Layers([], {})
    else
      var l := Level(tasks, order, open, done);
      if l == [] then Layers([], open)
      else
        LevelIsLevel(tasks, order, open, done);
        assert l[0].id in Ids(l) && l[0].id in open;
        var r := Layering(tasks, order, open - Ids(l), done + Ids(l));
        Layers([l] + r.levels, r.stuck)
  }

  function Plan(tasks: Tasks, order: seq<Id>, completed: set<Id>, cap: Option<int>): Result<seq<Wave>, GraphError>
    requires Keyed(tasks) && Enumerates(order, tasks)
  {
    if cap.Some? && cap.value < 1 then Err(BadParallelism(cap.value))
    else
      var l := Layering(tasks, order, tasks.Keys - completed, completed);
      if l.stuck != {} then Err(NoneReady) else Ok(Pack(l.levels, cap))
  }

  // --- What a level is, independently of insertion order and sorting --------

  ghost predicate IsLevel(tasks: Tasks, open: set<Id>, done: set<Id>, l: seq<TaskSpec>) {
    && DistinctIds(l)
    && (forall t :: t in l ==> t.id in open && Ready(tasks, done, t.id) && tasks[t.id] == t)
    && (|| (l != [] && forall t :: t in l ==> IsSerialized(t))
        || ((forall t :: t in l ==> !IsSerialized(t))
            && (forall id :: id in open && Ready(tasks, done, id) ==> id in Ids(l))))
  }

  ghost predicate IsLayering(tasks: Tasks, open: set<Id>, done: set<Id>, levels: seq<seq<TaskSpec>>, stuck: set<Id>)
    decreases |levels|
  {
    if levels == [] then
      open == stuck && forall id :: id in open ==> !Ready(tasks, done, id)
    else
      && levels[0] != [] && IsLevel(tasks, open, done, levels[0])
      && IsLayering(tasks, open - Ids(levels[0]), done + Ids(levels[0]), levels[1..], stuck)
  }

  lemma KeyLeIsTotal()
    ensures TotalPreorder(KeyLe)
  {
    forall x, y ensures KeyLe(x, y) || KeyLe(y, x) { StrLeTotal(x.id, y.id); }
    forall x, y, z | KeyLe(x, y) && KeyLe(y, z) ensures KeyLe(x, z) {
      if x.kind == y.kind == z.kind { StrLeTransitive(x.id, y.id, z.id); }
    }
  }

  lemma {:induction false} CandidatesAre(tasks: Tasks, order: seq<Id>, open: set<Id>, done: set<Id>)
    requires Keyed(tasks)
    requires forall i, j :: 0 <= i < j < |order| ==> order[i] != order[j]
    ensures var c := Candidates(tasks, order, open, done);
      && DistinctIds(c)
      && forall t :: t in c <==> t.id in order && t.id in open && Ready(tasks, done, t.id) && tasks[t.id] == t
  {
    if order != [] {
      CandidatesAre(tasks, order[1..], open, done);
      assert order == [order[0]] + order[1..];
      var c, d := Candidates(tasks, order, open, done), Candidates(tasks, order[1..], open, done);
      assert forall t :: t in d ==> t.id in order[1..];
      assert order[0] !in order[1..];
    }
  }

  lemma DistinctParts(a: seq<TaskSpec>, b: seq<TaskSpec>)
    ensures Ids(a + b) == Ids(a) + Ids(b)
    ensures DistinctIds(a + b) ==> DistinctIds(a) && DistinctIds(b) && Ids(a) !! Ids(b)
  {
    var s := a + b;
    assert forall t :: t in s <==> t in a || t in b;
    if DistinctIds(s) {
      forall i, j | 0 <= i < |a| && 0 <= j < |b| ensures a[i].id != b[j].id {
        assert s[i] == a[i] && s[|a| + j] == b[j];
      }
      forall i, j | 0 <= i < j < |b| ensures b[i].id != b[j].id {
        assert s[|a| + i] == b[i] && s[|a| + j] == b[j];
      }
      forall i, j | 0 <= i < j < |a| ensures a[i].id != a[j].id {
        assert s[i] == a[i] && s[j] == a[j];
      }
    }
  }

  lemma {:induction false} SelectIs(ts: seq<TaskSpec>, serialized: bool)
    ensures forall t :: t in Select(ts, serialized) <==> t in ts && IsSerialized(t) == serialized
    ensures DistinctIds(ts) ==> DistinctIds(Select(ts, serialized))
  {
    if ts != [] {
      SelectIs(ts[1..], serialized);
      assert ts == [ts[0]] + ts[1..];
      if DistinctIds(ts) {
        DistinctParts([ts[0]], ts[1..]);
        forall t | t in Select(ts[1..], serialized) ensures t.id != ts[0].id {
          assert t.id in Ids(ts[1..]) && ts[0].id in Ids([ts[0]]);
        }
      }
    }
  }

  lemma {:induction false} DistinctCount(ts: seq<TaskSpec>, t: TaskSpec)
    ensures DistinctIds(ts) ==> multiset(ts)[t] == if t in ts then 1 else 0
  {
    if ts != [] {
      assert ts == [ts[0]] + ts[1..];
      DistinctCount(ts[1..], t);
    }
  }

  lemma CountsTwice(ts: seq<TaskSpec>, i: nat, j: nat)
    requires i < j < |ts| && ts[i] == ts[j]
    ensures multiset(ts)[ts[i]] >= 2
  {
    assert ts == ts[..j] + ts[j..];
    assert ts[i] in ts[..j] && ts[j] in ts[j..];
  }

  lemma CountDistinct(ts: seq<TaskSpec>)
    requires forall t :: multiset(ts)[t] <= 1
    requires forall t, u :: t in ts && u in ts && t.id == u.id ==> t == u
    ensures DistinctIds(ts)
  {
    forall i, j | 0 <= i < j < |ts| ensures ts[i].id != ts[j].id {
      assert ts[i] in ts && ts[j] in ts;
      if ts[i] == ts[j] {
        CountsTwice(ts, i, j);
        assert false;
      }
    }
  }

  // Sorting a duplicate-free list keeps it duplicate-free.
  lemma SortKeepsDistinct(c: seq<TaskSpec>)
    requires DistinctIds(c)
    ensures DistinctIds(Sort(c, KeyLe))
    ensures forall t :: t in Sort(c, KeyLe) <==> t in c
  {
    KeyLeIsTotal();
    SortSorts(c, KeyLe);
    var s := Sort(c, KeyLe);
    forall t ensures t in s <==> t in c { assert t in multiset(s) <==> t in multiset(c); }
    forall t ensures multiset(s)[t] <= 1 { DistinctCount(c, t); }
    CountDistinct(s);
  }

  lemma LevelIsLevel(tasks: Tasks, order: seq<Id>, open: set<Id>, done: set<Id>)
    requires Keyed(tasks) && Enumerates(order, tasks) && open <= tasks.Keys
    ensures IsLevel(tasks, open, done, Level(tasks, order, open, done))
  {
    var c := Candidates(tasks, order, open, done);
    CandidatesAre(tasks, order, open, done);
    SortKeepsDistinct(c);
    var s := Sort(c, KeyLe);
    SelectIs(s, true);
    SelectIs(s, false);
    var l := Level(tasks, order, open, done);
    if Select(s, true) == [] {
      forall id | id in open && Ready(tasks, done, id) ensures id in Ids(l) {
        assert tasks[id] in c && tasks[id] in s;
        assert tasks[id] !in Select(s, true);
        assert tasks[id] in l;
      }
    }
  }

  lemma {:induction false} LayeringIsLayering(tasks: Tasks, order: seq<Id>, open: set<Id>, done: set<Id>)
    requires Keyed(tasks) && Enumerates(order, tasks) && open <= tasks.Keys
    ensures var r := Layering(tasks, order, open, done); IsLayering(tasks, open, done, r.levels, r.stuck)
    decreases open
  {
    if open != {} {
      LevelIsLevel(tasks, order, open, done);
      var l := Level(tasks, order, open, done);
      if l != [] {
        assert l[0].id in Ids(l) && l[0].id in open;
        LayeringIsLayering(tasks, order, open - Ids(l), done + Ids(l));
        var r := Layering(tasks, order, open, done);
        assert r.levels[1..] == Layering(tasks, order, open - Ids(l), done + Ids(l)).levels;
      }
    }
  }

  // --- Insertion order does not matter ---------------------------------------

  lemma SameCandidates(tasks: Tasks, a: seq<Id>, b: seq<Id>, open: set<Id>, done: set<Id>)
    requires Keyed(tasks) && Enumerates(a, tasks) && Enumerates(b, tasks)
    ensures Sort(Candidates(tasks, a, open, done), KeyLe) == Sort(Candidates(tasks, b, open, done), KeyLe)
  {
    CandidatesAre(tasks, a, open, done);
    CandidatesAre(tasks, b, open, done);
    KeyLeIsTotal();
    var c, d := Candidates(tasks, a, open, done), Candidates(tasks, b, open, done);
    forall t ensures multiset(c)[t] == multiset(d)[t] {
      DistinctCount(c, t);
      DistinctCount(d, t);
      assert t in c <==> t in d;
    }
    forall x, y | x in c && y in c && KeyLe(x, y) && KeyLe(y, x) ensures x == y {
      StrLeAntisymmetric(x.id, y.id);
    }
    SortOrderInsensitive(c, d, KeyLe);
  }

  lemma {:induction false} SameLayering(tasks: Tasks, a: seq<Id>, b: seq<Id>, open: set<Id>, done: set<Id>)
    requires Keyed(tasks) && Enumerates(a, tasks) && Enumerates(b, tasks) && open <= tasks.Keys
    ensures Layering(tasks, a, open, done) == Layering(tasks, b, open, done)
    decreases open
  {
    SameCandidates(tasks, a, b, open, done);
    var l := Level(tasks, a, open, done);
    if open != {} && l != [] {
      LevelIsLevel(tasks, a, open, done);
      assert l[0].id in Ids(l) && l[0].id in open;
      SameLayering(tasks, a, b, open - Ids(l), done + Ids(l));
    }
  }

  // The plan is a function of the tasks and the completed set: two registries holding
  // the same tasks in different insertion orders give the identical plan.
  lemma PlanIgnoresInsertionOrder(tasks: Tasks, a: seq<Id>, b: seq<Id>, completed: set<Id>, cap: Option<int>)
    requires Keyed(tasks) && Enumerates(a, tasks) && Enumerates(b, tasks)
    ensures Plan(tasks, a, completed, cap) == Plan(tasks, b, completed, cap)
  {
    SameLayering(tasks, a, b, tasks.Keys - completed, completed);
  }

  // --- Every plan is a lawful schedule ----------------------------------------

  // After the first k of a batch of ready tasks, the others are still open and ready.
  lemma SplitReady(tasks: Tasks, open: set<Id>, done: set<Id>, l: seq<TaskSpec>, k: nat)
    requires k <= |l| && DistinctIds(l)
    requires forall t :: t in l ==> t.id in open && Ready(tasks, done, t.id)
    ensures var w, m := l[..k], l[k..];
      && DistinctIds(w) && DistinctIds(m)
      && open - Ids(l) == open - Ids(w) - Ids(m) && done + Ids(l) == done + Ids(w) + Ids(m)
      && forall t :: t in m ==> t.id in open - Ids(w) && Ready(tasks, done + Ids(w), t.id)
  {
    var w, m := l[..k], l[k..];
    assert l == w + m;
    DistinctParts(w, m);
    forall t | t in m ensures t.id in open - Ids(w) && Ready(tasks, done + Ids(w), t.id) {
      assert t in l;
      assert t.id in Ids(m);
    }
  }

  // Tasks that are open and ready together may share waves of k, or go alone.
  ghost predicate Batch(tasks: Tasks, open: set<Id>, done: set<Id>, l: seq<TaskSpec>, k: nat) {
    && DistinctIds(l)
    && (forall t :: t in l ==> t.id in open && Ready(tasks, done, t.id) && tasks[t.id] == t)
    && (k > 1 ==> forall t :: t in l ==> !IsSerialized(t))
  }

  lemma SplitBatch(tasks: Tasks, open: set<Id>, done: set<Id>, cap: Option<int>, l: seq<TaskSpec>, k: nat)
    requires 1 <= k <= |l| && FitsCap(k, cap) && Batch(tasks, open, done, l, k)
    ensures LawfulWave(tasks, open, done, cap, l[..k])
    ensures Batch(tasks, open - Ids(l[..k]), done + Ids(l[..k]), l[k..], k)
    ensures open - Ids(l) == open - Ids(l[..k]) - Ids(l[k..]) && done + Ids(l) == done + Ids(l[..k]) + Ids(l[k..])
  {
    SplitReady(tasks, open, done, l, k);
    assert forall t :: t in l[..k] || t in l[k..] ==> t in l;
  }

  lemma PrependWave(tasks: Tasks, open: set<Id>, done: set<Id>, cap: Option<int>, w: Wave, rest: seq<Wave>)
    requires LawfulWave(tasks, open, done, cap, w)
    requires IsSchedule(tasks, open - Ids(w), done + Ids(w), cap, rest)
    ensures IsSchedule(tasks, open, done, cap, [w] + rest)
  {
    assert ([w] + rest)[1..] == rest;
  }

  lemma {:induction false} ChunksAreWaves(tasks: Tasks, open: set<Id>, done: set<Id>, cap: Option<int>,
                                          l: seq<TaskSpec>, k: nat, rest: seq<Wave>)
    requires k >= 1 && FitsCap(k, cap) && Batch(tasks, open, done, l, k)
    requires IsSchedule(tasks, open - Ids(l), done + Ids(l), cap, rest)
    ensures IsSchedule(tasks, open, done, cap, Chunks(l, k) + rest)
    decreases |l|
  {
    if l == [] {
      assert open - Ids(l) == open && done + Ids(l) == done && Chunks(l, k) + rest == rest;
    } else if |l| <= k {
      PrependWave(tasks, open, done, cap, l, rest);
    } else {
      var w, m := l[..k], l[k..];
      SplitBatch(tasks, open, done, cap, l, k);
      ChunksAreWaves(tasks, open - Ids(w), done + Ids(w), cap, m, k, rest);
      PrependWave(tasks, open, done, cap, w, Chunks(m, k) + rest);
      ChunksUnfold(l, k, rest);
    }
  }

  lemma ChunksUnfold(l: seq<TaskSpec>, k: nat, rest: seq<Wave>)
    requires 1 <= k < |l|
    ensures Chunks(l, k) + rest == [l[..k]] + (Chunks(l[k..], k) + rest)
  {}

  lemma {:induction false} PackIsSchedule(tasks: Tasks, open: set<Id>, done: set<Id>, cap: Option<int>,
                                          levels: seq<seq<TaskSpec>>)
    requires cap.Some? ==> cap.value >= 1
    requires IsLayering(tasks, open, done, levels, {})
    ensures forall i :: 0 <= i < |levels| ==> levels[i] != []
    ensures IsSchedule(tasks, open, done, cap, Pack(levels, cap))
    decreases |levels|
  {
    if levels != [] {
      var l := levels[0];
      PackIsSchedule(tasks, open - Ids(l), done + Ids(l), cap, levels[1..]);
      assert forall i :: 1 <= i < |levels| ==> levels[i] == levels[1..][i - 1];
      assert l[0] in l;
      if IsSerialized(l[0]) || cap.Some? {
        ChunksAreWaves(tasks, open, done, cap, l, Width(l, cap), Pack(levels[1..], cap));
      } else {
        ChunksAreWaves(tasks, open, done, cap, l, |l|, Pack(levels[1..], cap));
      }
    }
  }

  // Every returned plan runs every uncompleted task once, after its dependencies,
  // within the cap and with SERIALIZED tasks alone.
  lemma PlanIsSchedule(tasks: Tasks, order: seq<Id>, completed: set<Id>, cap: Option<int>)
    requires Keyed(tasks) && Enumerates(order, tasks)
    ensures var r := Plan(tasks, order, completed, cap);
      r.Ok? ==> IsSchedule(tasks, tasks.Keys - completed, completed, cap, r.value)
  {
    if !(cap.Some? && cap.value < 1) {
      LayeringIsLayering(tasks, order, tasks.Keys - completed, completed);
      var l := Layering(tasks, order, tasks.Keys - completed, completed);
      if l.stuck == {} {
        PackIsSchedule(tasks, tasks.Keys - completed, completed, cap, l.levels);
      }
    }
  }
}
