/** The mutable task registry: `TaskGraph` of the agent runtime. */
module TaskGraph {
  import opened Dependencies
  import opened Results
  import opened WavePlan

  // Everything any registered task names as a dependency.
  ghost function Named(tasks: Tasks): set<Id> {
    set k, d | k in tasks && d in tasks[k].dependsOn :: d
  }

  class TaskGraph {
    // An insertion-ordered dictionary: `order` lists the keys of `tasks`.
    var order: seq<Id>
    var tasks: Tasks

    ghost predicate Valid()
      reads this
    {
      Keyed(tasks) && Enumerates(order, tasks)
    }

    constructor ()
      ensures Valid() && tasks == map[] && Sound(tasks)
    {
      order := [];
      tasks := map[];
      new;
      forall c ensures !IsCycle(tasks, c) {
        if |c| >= 2 { assert !DependsOn(tasks, c[1 - 1], c[1]); }
      }
    }

    method Add(task: TaskSpec) returns (r: Result<(), GraphError>)
      requires Valid()
      modifies this
      ensures Valid()
      ensures r == if task.id in old(tasks) then Err(DuplicateTask(task.id)) else Ok(())
      ensures r.Err? ==> tasks == old(tasks) && order == old(order)
      ensures r.Ok? ==> tasks == old(tasks)[task.id := task] && order == old(order) + [task.id]
      ensures old(Sound(tasks)) && r.Ok? ==> (Sound(tasks) <==> forall d :: d in task.dependsOn ==> d in old(tasks))
      ensures old(Acyclic(tasks)) && r.Ok? ==>
        (Acyclic(tasks) <==> forall d :: d in task.dependsOn ==> !Reaches(old(tasks), d, task.id))
    {
      if task.id in tasks {
        return Err(DuplicateTask(task.id));
      }
      if Sound(tasks) { NewTaskSound(tasks, task); }
      if Acyclic(tasks) { NewTaskCloses(tasks, task); }
      tasks := tasks[task.id := task];
      order := order + [task.id];
      r := Ok(());
    }

    // A refused edge changes nothing; an accepted one never closes a cycle, and is
    // refused for that reason only when it would.
    method AddDependency(taskId: Id, dependencyId: Id) returns (r: Result<(), GraphError>)
      requires Valid()
      modifies this`tasks
      ensures Valid()
      ensures taskId !in old(tasks) ==> r == Err(UnknownTask(taskId))
      ensures taskId in old(tasks) && dependencyId !in old(tasks) ==> r == Err(UnknownTask(dependencyId))
      ensures taskId in old(tasks) && dependencyId in old(tasks) ==>
                if dependencyId in old(tasks)[taskId].dependsOn then r == Ok(()) && tasks == old(tasks)
                else if Reaches(old(tasks), dependencyId, taskId) then r == Err(WouldCreateCycle(taskId, dependencyId))
                else r == Ok(()) && tasks == WithDependency(old(tasks), taskId, dependencyId)
      ensures r.Err? ==> tasks == old(tasks)
      ensures old(Sound(tasks)) ==> Sound(tasks)
    {
      if taskId !in tasks { return Err(UnknownTask(taskId)); }
      if dependencyId !in tasks { return Err(UnknownTask(dependencyId)); }
      var task := tasks[taskId];
      if dependencyId in task.dependsOn { return Ok(()); }
      var closes := CreatesCycle(taskId, dependencyId);
      if closes { return Err(WouldCreateCycle(taskId, dependencyId)); }
      if Sound(tasks) { NewEdgeCloses(tasks, taskId, dependencyId); }
      tasks := tasks[taskId := task.(dependsOn := task.dependsOn + [dependencyId])];
      r := Ok(());
    }

    // The stack search answers exactly "does the dependency already reach the task?".
    method CreatesCycle(taskId: Id, dependencyId: Id) returns (closes: bool)
      ensures closes <==> Reaches(tasks, dependencyId, taskId)
    {
      if taskId == dependencyId {
        ReachesSelf(tasks, taskId);
        return true;
      }
      ReachesSelf(tasks, dependencyId);
      var seen: set<Id> := {};
      var stack := [dependencyId];
      while stack != []
        invariant SearchInvariant(tasks, taskId, dependencyId, seen, stack)
        decreases |Named(tasks) - seen|, |stack|
      {
        var current := stack[|stack| - 1];
        stack := stack[..|stack| - 1];
        if current !in tasks { continue; }
        ghost var seenBefore, rest := seen, stack;
        var found;
        found, seen, stack := PushDependencies(tasks[current].dependsOn, taskId, seen, stack);
        if found {
          assert DependsOn(tasks, current, taskId);
          ReachesExtends(tasks, dependencyId, current, taskId);
          return true;
        }
        SearchStep(tasks, taskId, dependencyId, current, seenBefore, rest, seen, stack);
      }
      NotReached(tasks, taskId, dependencyId, seen + {dependencyId});
      closes := false;
    }

    // The search's inner loop: every dependency not seen yet goes on the stack.
    static method PushDependencies(deps: seq<Id>, taskId: Id, seen: set<Id>, stack: seq<Id>)
      returns (found: bool, seen': set<Id>, stack': seq<Id>)
      ensures found <==> taskId in deps
      ensures !found ==> seen' == seen + (set d | d in deps) && exists added :: Pushed(deps, seen, stack, stack', added)
    {
      seen', stack' := seen, stack;
      ghost var added: seq<Id> := [];
      for i := 0 to |deps|
        invariant taskId !in deps[..i]
        invariant seen' == seen + (set d | d in deps[..i])
        invariant Pushed(deps[..i], seen, stack, stack', added)
      {
        var dep := deps[i];
        assert deps[..i + 1] == deps[..i] + [dep];
        if dep == taskId { return true, seen', stack'; }
        if dep !in seen' {
          seen' := seen' + {dep};
          stack' := stack' + [dep];
          added := added + [dep];
        }
      }
      assert deps[..|deps|] == deps;
      assert Pushed(deps, seen, stack, stack', added);
      found := false;
    }

    // `ready`: exactly the uncompleted tasks whose every dependency is completed, once each
    // and in insertion order.
    function ReadyTasks(completed: set<Id>): (r: seq<TaskSpec>)
      requires Valid()
      reads this
      ensures forall t :: t in r <==> t.id !in completed && Ready(tasks, completed, t.id) && tasks[t.id] == t
      ensures DistinctIds(r) && InOrder(r, order)
    {
      CandidatesInOrder(tasks, order, tasks.Keys - completed, completed);
      CandidatesAre(tasks, order, tasks.Keys - completed, completed);
      Candidates(tasks, order, tasks.Keys - completed, completed)
    }

    // The planning loop's first inner loop: a wave of its own for every SERIALIZED task.
    static method EmitSerialized(serialized: seq<TaskSpec>, plan: seq<Wave>, unscheduled: set<Id>, done: set<Id>)
      returns (plan': seq<Wave>, unscheduled': set<Id>, done': set<Id>)
      ensures plan' == plan + Chunks(serialized, 1)
      ensures unscheduled' == unscheduled - Ids(serialized) && done' == done + Ids(serialized)
    {
      plan', unscheduled', done' := plan, unscheduled, done;
      for i := 0 to |serialized|
        invariant plan' + Chunks(serialized[i..], 1) == plan + Chunks(serialized, 1)
        invariant unscheduled' == unscheduled - Ids(serialized[..i]) && done' == done + Ids(serialized[..i])
      {
        var task := serialized[i];
        NextChunk(serialized, i, 1);
        plan' := plan' + [[task]];
        unscheduled' := unscheduled' - {task.id};
        done' := done' + {task.id};
        assert serialized[..i + 1] == serialized[..i] + [task];
      }
      assert serialized[..|serialized|] == serialized && serialized[|serialized|..] == [];
    }

    static method MarkScheduled(wave: Wave, unscheduled: set<Id>, done: set<Id>)
      returns (unscheduled': set<Id>, done': set<Id>)
      ensures unscheduled' == unscheduled - Ids(wave) && done' == done + Ids(wave)
    {
      unscheduled', done' := unscheduled, done;
      for i := 0 to |wave|
        invariant unscheduled' == unscheduled - Ids(wave[..i]) && done' == done + Ids(wave[..i])
      {
        unscheduled' := unscheduled' - {wave[i].id};
        done' := done' + {wave[i].id};
        assert wave[..i + 1] == wave[..i] + [wave[i]];
      }
      assert wave[..|wave|] == wave;
    }

    // Its second inner loop: slices of at most `capacity` tasks.
    static method EmitPacked(tasks: seq<TaskSpec>, capacity: nat, plan: seq<Wave>, unscheduled: set<Id>, done: set<Id>)
      returns (plan': seq<Wave>, unscheduled': set<Id>, done': set<Id>)
      requires capacity >= 1
      ensures plan' == plan + Chunks(tasks, capacity)
      ensures unscheduled' == unscheduled - Ids(tasks) && done' == done + Ids(tasks)
    {
      plan', unscheduled', done' := plan, unscheduled, done;
      var index := 0;
      while index < |tasks|
        invariant 0 <= index <= |tasks|
        invariant plan' + Chunks(tasks[index..], capacity) == plan + Chunks(tasks, capacity)
        invariant unscheduled' == unscheduled - Ids(tasks[..index]) && done' == done + Ids(tasks[..index])
      {
        var stop := if index + capacity < |tasks| then index + capacity else |tasks|;
        NextChunk(tasks, index, capacity);
        plan' := plan' + [tasks[index..stop]];
        unscheduled', done' := MarkScheduled(tasks[index..stop], unscheduled', done');
        assert tasks[..stop] == tasks[..index] + tasks[index..stop];
        index := stop;
      }
      assert tasks[..|tasks|] == tasks && tasks[|tasks|..] == [];
    }

    method Waves(completed: set<Id>, maxParallelism: Option<int>) returns (r: Result<seq<Wave>, GraphError>)
      requires Valid()
      ensures r == Plan(tasks, order, completed, maxParallelism)
    {
      if maxParallelism.Some? && maxParallelism.value < 1 {
        return Err(BadParallelism(maxParallelism.value));
      }
      hide Plan, Candidates, Sorting.Sort, Select;
      var done := completed;
      var unscheduled := tasks.Keys - done;
      var plan: seq<Wave> := [];
      while unscheduled != {}
        invariant unscheduled <= tasks.Keys
        invariant PlannedSoFar(tasks, order, completed, maxParallelism, unscheduled, done, plan)
        decreases unscheduled
      {
        var candidates := Candidates(tasks, order, unscheduled, done);
        if candidates == [] {
          NothingReady(tasks, order, completed, maxParallelism, unscheduled, done, plan);
          return Err(NoneReady);
        }
        candidates := Sorting.Sort(candidates, KeyLe);
        var serialized := Select(candidates, true);
        var nonSerialized := Select(candidates, false);
        SomeCandidates(tasks, order, unscheduled, done);
        ghost var open, before, planned := unscheduled, done, plan;
        plan, unscheduled, done := EmitSerialized(serialized, plan, unscheduled, done);
        if serialized != [] {
          NextLevel(tasks, order, completed, maxParallelism, open, before, planned, unscheduled, done, plan);
          continue;
        }
        assert Chunks(serialized, 1) == [] && plan == planned && unscheduled == open && done == before;
        var capacity := if maxParallelism == None then |nonSerialized| else maxParallelism.value;
        plan, unscheduled, done := EmitPacked(nonSerialized, capacity, plan, unscheduled, done);
        NextLevel(tasks, order, completed, maxParallelism, open, before, planned, unscheduled, done, plan);
      }
      AllScheduled(tasks, order, completed, maxParallelism, done, plan);
      r := Ok(plan);
    }
  }

  ghost predicate Precedes(order: seq<Id>, a: Id, b: Id) {
    forall p, q :: 0 <= p < |order| && 0 <= q < |order| && order[p] == a && order[q] == b ==> p < q
  }

  // Tasks are listed in the order in which their ids are.
  ghost predicate InOrder(ts: seq<TaskSpec>, order: seq<Id>) {
    forall i, j :: 0 <= i < j < |ts| ==> Precedes(order, ts[i].id, ts[j].id)
  }

  lemma PrecedesInFront(order: seq<Id>, id: Id, a: Id, b: Id)
    requires id !in order && b != id && (a == id || Precedes(order, a, b))
    ensures Precedes([id] + order, a, b)
  {
    var o := [id] + order;
    forall p, q | 0 <= p < |o| && 0 <= q < |o| && o[p] == a && o[q] == b ensures p < q {
      assert order[q - 1] == b;
      if p > 0 { assert order[p - 1] == a && a in order; }
    }
  }

  lemma OneMoreInFront(ts: seq<TaskSpec>, order: seq<Id>, head: seq<TaskSpec>, id: Id)
    requires InOrder(ts, order) && id !in order && (forall t :: t in ts ==> t.id in order)
    requires head == [] || (|head| == 1 && head[0].id == id)
    ensures InOrder(head + ts, [id] + order)
  {
    hide Precedes;
    var c, d := head + ts, |head|;
    forall i, j | 0 <= i < j < |c| ensures Precedes([id] + order, c[i].id, c[j].id) {
      assert c[j] == ts[j - d] && c[j].id in order;
      if i >= d { assert c[i] == ts[i - d]; }
      PrecedesInFront(order, id, c[i].id, c[j].id);
    }
  }

  lemma {:induction false} CandidatesInOrder(tasks: Tasks, order: seq<Id>, open: set<Id>, done: set<Id>)
    requires Keyed(tasks) && forall i, j :: 0 <= i < j < |order| ==> order[i] != order[j]
    ensures InOrder(Candidates(tasks, order, open, done), order)
  {
    hide InOrder;
    if order == [] {
      NothingInOrder();
    } else {
      var rest := Candidates(tasks, order[1..], open, done);
      CandidatesInOrder(tasks, order[1..], open, done);
      CandidatesAre(tasks, order[1..], open, done);
      var head := if order[0] in open && Ready(tasks, done, order[0]) then [tasks[order[0]]] else [];
      assert order[0] !in order[1..];
      OneMoreInFront(rest, order[1..], head, order[0]);
      assert order == [order[0]] + order[1..];
    }
  }

  lemma NothingInOrder()
    ensures InOrder([], [])
  {}

  // The waves emitted so far, followed by the plan for what is left, are the whole plan.
  ghost predicate PlannedSoFar(tasks: Tasks, order: seq<Id>, completed: set<Id>, cap: Option<int>, open: set<Id>,
                               done: set<Id>, plan: seq<Wave>)
    requires Keyed(tasks) && Enumerates(order, tasks) && open <= tasks.Keys && (cap.Some? ==> cap.value >= 1)
  {
    var all, left := Layering(tasks, order, tasks.Keys - completed, completed), Layering(tasks, order, open, done);
    left.stuck == all.stuck && plan + Pack(left.levels, cap) == Pack(all.levels, cap)
  }

  // What one call of the search's inner loop adds to the stack.
  ghost predicate Pushed(deps: seq<Id>, seen: set<Id>, stack: seq<Id>, stack': seq<Id>, added: seq<Id>) {
    stack' == stack + added && forall x :: x in added <==> x in deps && x !in seen
  }

  ghost predicate SearchInvariant(tasks: Tasks, taskId: Id, start: Id, seen: set<Id>, stack: seq<Id>) {
    && taskId !in seen && taskId != start && seen <= Named(tasks)
    && (forall x :: x in stack ==> (x in seen || x == start) && Reaches(tasks, start, x))
    && (forall x, d :: (x in seen || x == start) && x !in stack && DependsOn(tasks, x, d) ==> d in seen)
  }

  lemma SearchStep(tasks: Tasks, taskId: Id, start: Id, current: Id, seen: set<Id>, rest: seq<Id>, seen': set<Id>,
                   stack': seq<Id>)
    requires SearchInvariant(tasks, taskId, start, seen, rest + [current]) && current in tasks
    requires taskId !in tasks[current].dependsOn
    requires seen' == seen + (set d | d in tasks[current].dependsOn)
    requires exists added :: Pushed(tasks[current].dependsOn, seen, rest, stack', added)
    ensures SearchInvariant(tasks, taskId, start, seen', stack')
    ensures |Named(tasks) - seen'| < |Named(tasks) - seen| || (seen' == seen && stack' == rest)
  {
    var deps := tasks[current].dependsOn;
    var added :| Pushed(deps, seen, rest, stack', added);
    assert added == [] || added[0] in added;
    assert current in rest + [current];
    forall x | x in stack' ensures (x in seen' || x == start) && Reaches(tasks, start, x) {
      if x in added {
        assert DependsOn(tasks, current, x);
        ReachesExtends(tasks, start, current, x);
      } else {
        assert x in rest + [current];
      }
    }
    forall x, d | (x in seen' || x == start) && x !in stack' && DependsOn(tasks, x, d) ensures d in seen' {
      if x != current { assert x !in rest + [current]; }
    }
    assert seen' <= Named(tasks) by {
      forall d | d in deps ensures d in Named(tasks) { assert current in tasks && d in tasks[current].dependsOn; }
    }
    if seen' != seen {
      SmallerRest(Named(tasks), seen, seen');
    } else {
      assert forall x :: x !in added;
    }
  }

  lemma SmallerRest(all: set<Id>, small: set<Id>, large: set<Id>)
    requires small < large <= all
    ensures |all - large| < |all - small|
  {
    assert (all - small) - (large - small) == all - large;
    assert large - small != {};
  }

  lemma NotReached(tasks: Tasks, taskId: Id, dependencyId: Id, closed: set<Id>)
    requires taskId !in closed && dependencyId in closed
    requires forall x, d :: x in closed && DependsOn(tasks, x, d) ==> d in closed
    ensures !Reaches(tasks, dependencyId, taskId)
  {
    forall p | PathBetween(tasks, p, dependencyId, taskId) ensures false {
      ClosedSetKeepsPath(tasks, closed, p);
    }
  }

  lemma SomeCandidates(tasks: Tasks, order: seq<Id>, open: set<Id>, done: set<Id>)
    requires Keyed(tasks) && Enumerates(order, tasks) && open <= tasks.Keys
    requires Candidates(tasks, order, open, done) != []
    ensures Level(tasks, order, open, done) != []
    ensures Select(Sorting.Sort(Candidates(tasks, order, open, done), KeyLe), true) == []
            ==> Select(Sorting.Sort(Candidates(tasks, order, open, done), KeyLe), false) != []
    ensures IsSerialized(Level(tasks, order, open, done)[0])
            <==> Select(Sorting.Sort(Candidates(tasks, order, open, done), KeyLe), true) != []
  {
    var c := Candidates(tasks, order, open, done);
    CandidatesAre(tasks, order, open, done);
    SortKeepsDistinct(c);
    var s := Sorting.Sort(c, KeyLe);
    SelectIs(s, true);
    SelectIs(s, false);
    assert c[0] in s;
    assert c[0] in Select(s, IsSerialized(c[0]));
    assert Level(tasks, order, open, done)[0] in Level(tasks, order, open, done);
  }

  lemma NextChunk(s: seq<TaskSpec>, i: nat, k: nat)
    requires i < |s| && k >= 1
    ensures var j := if i + k < |s| then i + k else |s|;
      Chunks(s[i..], k) == [s[i..j]] + Chunks(s[j..], k)
  {
    if i + k < |s| {
      assert s[i..][..k] == s[i..i + k] && s[i..][k..] == s[i + k..];
    } else if i + k == |s| {
      assert s[i..] == s[i..|s|] && s[|s|..] == [];
    } else {
      assert s[i..] == s[i..|s|] && s[|s|..] == [];
    }
  }

  // One pass of the loop consumes one level of the specification.
  lemma NextLevel(tasks: Tasks, order: seq<Id>, completed: set<Id>, cap: Option<int>, open: set<Id>, done: set<Id>,
                  plan: seq<Wave>, open': set<Id>, done': set<Id>, plan': seq<Wave>)
    requires Keyed(tasks) && Enumerates(order, tasks) && open <= tasks.Keys
    requires cap.Some? ==> cap.value >= 1
    requires open != {} && Level(tasks, order, open, done) != []
    requires PlannedSoFar(tasks, order, completed, cap, open, done, plan)
    requires var l := Level(tasks, order, open, done);
      open' == open - Ids(l) && done' == done + Ids(l) && plan' == plan + Chunks(l, Width(l, cap))
    ensures open' < open && PlannedSoFar(tasks, order, completed, cap, open', done', plan')
  {
    var l := Level(tasks, order, open, done);
    LevelIsLevel(tasks, order, open, done);
    assert l[0].id in Ids(l) && l[0].id in open;
    var now, next := Layering(tasks, order, open, done), Layering(tasks, order, open', done');
    assert now.levels[1..] == next.levels;
    Reassociate(plan, Chunks(l, Width(l, cap)), Pack(next.levels, cap));
  }

  lemma NothingReady(tasks: Tasks, order: seq<Id>, completed: set<Id>, cap: Option<int>, open: set<Id>, done: set<Id>,
                     plan: seq<Wave>)
    requires Keyed(tasks) && Enumerates(order, tasks) && open <= tasks.Keys && open != {}
    requires cap.Some? ==> cap.value >= 1
    requires PlannedSoFar(tasks, order, completed, cap, open, done, plan) && Candidates(tasks, order, open, done) == []
    ensures Plan(tasks, order, completed, cap) == Err(NoneReady)
  {
    assert Layering(tasks, order, open, done) == Layers([], open);
  }

  lemma AllScheduled(tasks: Tasks, order: seq<Id>, completed: set<Id>, cap: Option<int>, done: set<Id>, plan: seq<Wave>)
    requires Keyed(tasks) && Enumerates(order, tasks) && (cap.Some? ==> cap.value >= 1)
    requires PlannedSoFar(tasks, order, completed, cap, {}, done, plan)
    ensures Plan(tasks, order, completed, cap) == Ok(plan)
  {
    assert Pack([], cap) == [] && plan + [] == plan;
  }

  lemma Reassociate(a: seq<Wave>, b: seq<Wave>, c: seq<Wave>)
    ensures a + (b + c) == a + b + c
  {}
}
