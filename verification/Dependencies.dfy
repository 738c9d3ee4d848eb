/** Task records, dependency paths and the meaning of "cycle". */
module Dependencies {

  type Id = string

  // Declared in the order of their wave priority.
  datatype Kind = INDEPENDENT | DEPENDENT | RECONCILER | SERIALIZED

  datatype TaskSpec = TaskSpec(id: Id, kind: Kind, dependsOn: seq<Id>)

  type Tasks = map<Id, TaskSpec>

  predicate Keyed(tasks: Tasks) { forall k :: k in tasks ==> tasks[k].id == k }

  predicate DependsOn(tasks: Tasks, a: Id, b: Id) { a in tasks && b in tasks[a].dependsOn }

  // p[0] depends on p[1], which depends on p[2], and so on.
  ghost predicate IsPath(tasks: Tasks, p: seq<Id>) {
    p != [] && forall i :: 0 < i < |p| ==> DependsOn(tasks, p[i - 1], p[i])
  }

  ghost predicate PathBetween(tasks: Tasks, p: seq<Id>, a: Id, b: Id) {
    IsPath(tasks, p) && p[0] == a && p[|p| - 1] == b
  }

  ghost predicate Reaches(tasks: Tasks, a: Id, b: Id) {
    exists p :: PathBetween(tasks, p, a, b)
  }

  ghost predicate IsCycle(tasks: Tasks, p: seq<Id>) {
    |p| >= 2 && IsPath(tasks, p) && p[0] == p[|p| - 1]
  }

  ghost predicate Acyclic(tasks: Tasks) { forall p :: !IsCycle(tasks, p) }

  ghost predicate Registered(tasks: Tasks) {
    forall k, d :: k in tasks && d in tasks[k].dependsOn ==> d in tasks
  }

  // What the planner needs of a graph: no cycle and no dangling dependency.
  ghost predicate Sound(tasks: Tasks) {
    Keyed(tasks) && Registered(tasks) && Acyclic(tasks)
  }

  lemma PathExtends(tasks: Tasks, p: seq<Id>, d: Id)
    requires IsPath(tasks, p) && DependsOn(tasks, p[|p| - 1], d)
    ensures IsPath(tasks, p + [d])
  {
    var q := p + [d];
    forall i | 0 < i < |q| ensures DependsOn(tasks, q[i - 1], q[i]) {
      if i < |p| { assert q[i - 1] == p[i - 1] && q[i] == p[i]; }
    }
  }

  lemma PathSlice(tasks: Tasks, p: seq<Id>, lo: nat, hi: nat)
    requires IsPath(tasks, p) && lo < hi <= |p|
    ensures IsPath(tasks, p[lo..hi])
  {
    var q := p[lo..hi];
    forall i | 0 < i < |q| ensures DependsOn(tasks, q[i - 1], q[i]) {
      assert q[i - 1] == p[lo + i - 1] && q[i] == p[lo + i];
    }
  }

  lemma ReachesExtends(tasks: Tasks, a: Id, b: Id, d: Id)
    requires Reaches(tasks, a, b) && DependsOn(tasks, b, d)
    ensures Reaches(tasks, a, d)
  {
    var p :| PathBetween(tasks, p, a, b);
    PathExtends(tasks, p, d);
    assert PathBetween(tasks, p + [d], a, d);
  }

  lemma ReachesSelf(tasks: Tasks, a: Id)
    ensures Reaches(tasks, a, a)
  {
    assert PathBetween(tasks, [a], a, a);
  }

  // A set closed under dependencies keeps every path that starts in it.
  lemma {:induction false} ClosedSetKeepsPath(tasks: Tasks, s: set<Id>, p: seq<Id>)
    requires IsPath(tasks, p) && p[0] in s
    requires forall x, d :: x in s && DependsOn(tasks, x, d) ==> d in s
    ensures p[|p| - 1] in s
    decreases |p|
  {
    if |p| > 1 {
      PathSlice(tasks, p, 0, |p| - 1);
      ClosedSetKeepsPath(tasks, s, p[..|p| - 1]);
      assert DependsOn(tasks, p[|p| - 2], p[|p| - 1]);
    }
  }

  lemma {:induction false} Pigeonhole(p: seq<Id>, s: set<Id>) returns (i: nat, j: nat)
    requires |p| > |s| && forall k :: 0 <= k < |p| ==> p[k] in s
    ensures i < j < |p| && p[i] == p[j]
    decreases |p|
  {
    var last := |p| - 1;
    if k :| 0 <= k < last && p[k] == p[last] {
      return k, last;
    }
    var q := p[..last];
    var t := s - {p[last]};
    assert |t| == |s| - 1;
    i, j := Pigeonhole(q, t);
  }

  ghost predicate DependsInside(tasks: Tasks, s: set<Id>, x: Id) {
    exists d :: d in s && DependsOn(tasks, x, d)
  }

  ghost predicate Trap(tasks: Tasks, s: set<Id>) {
    s != {} && forall x {:trigger DependsInside(tasks, s, x)} :: x in s ==> DependsInside(tasks, s, x)
  }

  lemma {:induction false} WalkInTrap(tasks: Tasks, s: set<Id>, n: nat) returns (p: seq<Id>)
    requires Trap(tasks, s)
    ensures |p| == n + 1 && IsPath(tasks, p) && forall k :: 0 <= k < |p| ==> p[k] in s
  {
    if n == 0 {
      var x :| x in s;
      p := [x];
    } else {
      var q := WalkInTrap(tasks, s, n - 1);
      assert DependsInside(tasks, s, q[|q| - 1]);
      var d :| d in s && DependsOn(tasks, q[|q| - 1], d);
      PathExtends(tasks, q, d);
      p := q + [d];
    }
  }

  // A non-empty set in which everything depends on something of the set holds a cycle.
  lemma TrapHasCycle(tasks: Tasks, s: set<Id>) returns (p: seq<Id>)
    requires Trap(tasks, s)
    ensures IsCycle(tasks, p) && forall k :: 0 <= k < |p| ==> p[k] in s
  {
    var w := WalkInTrap(tasks, s, |s|);
    var i, j := Pigeonhole(w, s);
    PathSlice(tasks, w, i, j + 1);
    p := w[i..j + 1];
  }

  // --- Graph changes -------------------------------------------------------

  function WithDependency(tasks: Tasks, a: Id, b: Id): Tasks
    requires a in tasks
  {
    tasks[a := tasks[a].(dependsOn := tasks[a].dependsOn + [b])]
  }

  lemma {:induction false} PathAvoidsNewEdge(tasks: Tasks, a: Id, b: Id, q: seq<Id>)
    requires a in tasks && IsPath(WithDependency(tasks, a, b), q)
    requires q[|q| - 1] == a
    ensures Reaches(tasks, q[0], a)
    decreases |q|
  {
    if q[0] == a {
      ReachesSelf(tasks, a);
    } else {
      var rest := q[1..];
      PathSlice(WithDependency(tasks, a, b), q, 1, |q|);
      PathAvoidsNewEdge(tasks, a, b, rest);
      var p :| PathBetween(tasks, p, rest[0], a);
      assert DependsOn(WithDependency(tasks, a, b), q[0], q[1]);
      assert DependsOn(tasks, q[0], q[1]);
      var r := [q[0]] + p;
      forall i | 0 < i < |r| ensures DependsOn(tasks, r[i - 1], r[i]) {
        if i > 1 { assert r[i - 1] == p[i - 2] && r[i] == p[i - 1]; }
      }
      assert PathBetween(tasks, r, q[0], a);
    }
  }

  lemma CycleWithoutEdge(tasks: Tasks, a: Id, b: Id, c: seq<Id>)
    requires a in tasks && IsCycle(WithDependency(tasks, a, b), c)
    requires forall i :: 0 < i < |c| ==> !(c[i - 1] == a && c[i] == b)
    ensures IsCycle(tasks, c)
  {
    forall i | 0 < i < |c| ensures DependsOn(tasks, c[i - 1], c[i]) {
      assert DependsOn(WithDependency(tasks, a, b), c[i - 1], c[i]);
    }
  }

  lemma NewCycleReaches(tasks: Tasks, a: Id, b: Id, c: seq<Id>)
    requires a in tasks && Acyclic(tasks) && IsCycle(WithDependency(tasks, a, b), c)
    ensures Reaches(tasks, b, a)
  {
    if i :| 0 < i < |c| && c[i - 1] == a && c[i] == b {
      RotateToEdge(WithDependency(tasks, a, b), c, i);
      PathAvoidsNewEdge(tasks, a, b, c[i..] + c[1..i]);
    } else {
      CycleWithoutEdge(tasks, a, b, c);
      assert false;
    }
  }

  // An edge a -> b closes a cycle exactly when b already reaches a.
  lemma NewEdgeCloses(tasks: Tasks, a: Id, b: Id)
    requires a in tasks && Acyclic(tasks)
    ensures Acyclic(WithDependency(tasks, a, b)) <==> !Reaches(tasks, b, a)
  {
    var after := WithDependency(tasks, a, b);
    if Reaches(tasks, b, a) {
      var p :| PathBetween(tasks, p, b, a);
      var c := [a] + p;
      forall i | 0 < i < |c| ensures DependsOn(after, c[i - 1], c[i]) {
        if i > 1 { assert DependsOn(tasks, p[i - 2], p[i - 1]); }
      }
      assert IsCycle(after, c);
    } else if !Acyclic(after) {
      var c :| IsCycle(after, c);
      NewCycleReaches(tasks, a, b, c);
    }
  }

  lemma RotateToEdge(tasks: Tasks, c: seq<Id>, i: nat)
    requires IsCycle(tasks, c) && 0 < i < |c|
    ensures var q := c[i..] + c[1..i]; PathBetween(tasks, q, c[i], c[i - 1])
  {
    var q := c[i..] + c[1..i];
    var n := |c| - i;
    forall k | 0 < k < |q| ensures DependsOn(tasks, q[k - 1], q[k]) {
      if k < n {
        assert q[k - 1] == c[i + k - 1] && q[k] == c[i + k];
      } else if k == n {
        assert q[k - 1] == c[|c| - 1] == c[0] && q[k] == c[1];
        assert DependsOn(tasks, c[0], c[1]);
      } else {
        assert q[k - 1] == c[k - n] && q[k] == c[k - n + 1];
        assert DependsOn(tasks, c[k - n], c[k - n + 1]);
      }
    }
  }

  lemma {:induction false} PathToNewTask(tasks: Tasks, t: TaskSpec, q: seq<Id>)
    requires t.id !in tasks && IsPath(tasks[t.id := t], q) && q[|q| - 1] == t.id
    ensures Reaches(tasks, q[0], t.id)
    decreases |q|
  {
    var after := tasks[t.id := t];
    if q[0] == t.id {
      ReachesSelf(tasks, t.id);
    } else {
      PathSlice(after, q, 1, |q|);
      PathToNewTask(tasks, t, q[1..]);
      var p :| PathBetween(tasks, p, q[1], t.id);
      assert DependsOn(after, q[0], q[1]);
      assert DependsOn(tasks, q[0], q[1]);
      ReachesFrom(tasks, q[0], p);
    }
  }

  lemma ReachesFrom(tasks: Tasks, a: Id, p: seq<Id>)
    requires IsPath(tasks, p) && DependsOn(tasks, a, p[0])
    ensures Reaches(tasks, a, p[|p| - 1])
  {
    var r := [a] + p;
    forall i | 0 < i < |r| ensures DependsOn(tasks, r[i - 1], r[i]) {
      if i > 1 { assert r[i - 1] == p[i - 2] && r[i] == p[i - 1]; }
    }
    assert PathBetween(tasks, r, a, p[|p| - 1]);
  }

  lemma NewTaskOnCycle(tasks: Tasks, t: TaskSpec, c: seq<Id>, i: nat)
    requires t.id !in tasks && IsCycle(tasks[t.id := t], c) && 0 < i < |c| && c[i - 1] == t.id
    ensures c[i] in t.dependsOn && Reaches(tasks, c[i], t.id)
  {
    var after := tasks[t.id := t];
    assert DependsOn(after, c[i - 1], c[i]);
    RotateToEdge(after, c, i);
    PathToNewTask(tasks, t, c[i..] + c[1..i]);
  }

  lemma NewTaskOffCycle(tasks: Tasks, t: TaskSpec, c: seq<Id>)
    requires t.id !in tasks && IsCycle(tasks[t.id := t], c) && t.id !in c[..|c| - 1]
    ensures IsCycle(tasks, c)
  {
    forall i | 0 < i < |c| ensures DependsOn(tasks, c[i - 1], c[i]) {
      assert DependsOn(tasks[t.id := t], c[i - 1], c[i]);
      assert c[..|c| - 1][i - 1] == c[i - 1];
    }
  }

  lemma ForwardReferenceCloses(tasks: Tasks, t: TaskSpec, d: Id)
    requires t.id !in tasks && d in t.dependsOn && Reaches(tasks, d, t.id)
    ensures !Acyclic(tasks[t.id := t])
  {
    var after := tasks[t.id := t];
    var p :| PathBetween(tasks, p, d, t.id);
    var c := [t.id] + p;
    forall i | 0 < i < |c| ensures DependsOn(after, c[i - 1], c[i]) {
      if i > 1 { assert DependsOn(tasks, p[i - 2], p[i - 1]); }
    }
    assert IsCycle(after, c);
  }

  // Registering a task closes a cycle exactly when one of its dependencies already leads
  // to its id: directly, or through tasks that named the id before it was registered.
  lemma NewTaskCloses(tasks: Tasks, t: TaskSpec)
    requires Acyclic(tasks) && t.id !in tasks
    ensures Acyclic(tasks[t.id := t]) <==> forall d :: d in t.dependsOn ==> !Reaches(tasks, d, t.id)
  {
    if d :| d in t.dependsOn && Reaches(tasks, d, t.id) { ForwardReferenceCloses(tasks, t, d); }
    if !Acyclic(tasks[t.id := t]) {
      var c :| IsCycle(tasks[t.id := t], c);
      if i :| 0 <= i < |c| - 1 && c[i] == t.id {
        NewTaskOnCycle(tasks, t, c, i + 1);
      } else {
        NewTaskOffCycle(tasks, t, c);
      }
    }
  }

  // A task that names itself can be registered in any graph, ...
  lemma SelfReferenceMakesACycle(tasks: Tasks, t: TaskSpec)
    requires t.id in t.dependsOn
    ensures !Acyclic(tasks[t.id := t])
  {
    assert DependsOn(tasks[t.id := t], t.id, t.id);
    assert IsCycle(tasks[t.id := t], [t.id, t.id]);
  }

  // ... and so can two tasks that name each other, neither of which names itself.
  lemma MutualReferencesMakeACycle(a: Id, b: Id, kind: Kind)
    requires a != b
    ensures var one: Tasks := map[a := TaskSpec(a, kind, [b])];
      Acyclic(one) && !Acyclic(one[b := TaskSpec(b, kind, [a])])
  {
    var one: Tasks := map[a := TaskSpec(a, kind, [b])];
    var two := one[b := TaskSpec(b, kind, [a])];
    forall c ensures !IsCycle(one, c) {
      if |c| > 2 && DependsOn(one, c[1 - 1], c[1]) { assert !DependsOn(one, c[2 - 1], c[2]); }
      if |c| == 2 { assert DependsOn(one, c[1 - 1], c[1]) ==> c[0] == a && c[1] == b; }
    }
    assert DependsOn(two, a, b) && DependsOn(two, b, a);
    assert IsCycle(two, [a, b, a]);
  }

  lemma CycleAvoidsNewTask(tasks: Tasks, t: TaskSpec, c: seq<Id>)
    requires Keyed(tasks) && Registered(tasks) && t.id !in tasks
    requires forall d :: d in t.dependsOn ==> d in tasks
    requires IsCycle(tasks[t.id := t], c)
    ensures IsCycle(tasks, c)
  {
    var after := tasks[t.id := t];
    forall i | 0 < i < |c| ensures c[i] in tasks {
      assert DependsOn(after, c[i - 1], c[i]);
    }
    assert c[0] == c[|c| - 1];
    forall i | 0 < i < |c| ensures DependsOn(tasks, c[i - 1], c[i]) {
      assert DependsOn(after, c[i - 1], c[i]);
      assert c[i - 1] in tasks;
    }
  }

  // Registering a task keeps a sound graph sound exactly when its dependencies are
  // already registered; `add` itself does not look.
  lemma NewTaskSound(tasks: Tasks, t: TaskSpec)
    requires Sound(tasks) && t.id !in tasks
    ensures Sound(tasks[t.id := t]) <==> forall d :: d in t.dependsOn ==> d in tasks
  {
    var after := tasks[t.id := t];
    if forall d :: d in t.dependsOn ==> d in tasks {
      if !Acyclic(after) {
        var c :| IsCycle(after, c);
        CycleAvoidsNewTask(tasks, t, c);
      }
    } else {
      var d :| d in t.dependsOn && d !in tasks;
      assert d in after[t.id].dependsOn;
      if d == t.id {
        assert DependsOn(after, d, d);
        assert IsCycle(after, [d, d]);
      } else {
        assert t.id in after && after[t.id] == t && d !in after;
        assert !(forall k, e :: k in after && e in after[k].dependsOn ==> e in after);
      }
    }
  }
}
