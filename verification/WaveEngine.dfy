/** The bookkeeping of one executed wave: tasks finish in any order, each in one of four
    ways, and the collected outcome does not depend on that order. */
module WaveEngine {
  import opened Concurrency
  import opened Sorting
  import opened Telemetry

  // How the execution of one task ended.
  datatype Ending<R> = Answered(result: R) | OutOfTime | Cancelled | Raised(error: string)

  datatype TaskEnd<R> = TaskEnd(task: string, started: int, finished: int, ending: Ending<R>)

  datatype EngineFailure = EngineFailure(id: string, classification: string, summary: string)

  datatype WaveStatus = COMPLETED | PARTIAL | FAILED | CANCELLED

  datatype Books<R> = Books(
    results: map<string, R>, failures: map<string, EngineFailure>, timings: seq<Timing>, incomplete: seq<string>)

  // A task never finishes before it starts, and each task ends once.
  ghost predicate IsExecution<R>(ends: seq<TaskEnd<R>>) {
    && (forall i :: 0 <= i < |ends| ==> ends[i].started <= ends[i].finished)
    && forall i, j :: 0 <= i < j < |ends| ==> ends[i].task != ends[j].task
  }

  function FailureOf<R>(e: TaskEnd<R>): EngineFailure
    requires e.ending.OutOfTime? || e.ending.Raised?
  {
    if e.ending.OutOfTime? then
      EngineFailure(e.task + ":timeout", "timeout", "task " + e.task + " exceeded its timeout")
    else EngineFailure(e.task + ":tool failure", "tool failure", e.ending.error)
  }

  function TimingOf<R>(e: TaskEnd<R>): Timing { Timing(e.task, e.started, e.finished) }

  function TimingsOf<R>(ends: seq<TaskEnd<R>>): seq<Timing> {
    seq(|ends|, i requires 0 <= i < |ends| => TimingOf(ends[i]))
  }

  predicate Fails<R>(e: TaskEnd<R>) { e.ending.OutOfTime? || e.ending.Raised? }

  predicate Incomplete<R>(e: TaskEnd<R>) { e.ending.OutOfTime? || e.ending.Cancelled? }

  // The tasks that ran out of time or were cancelled, in the order they ended.
  function IncompleteTasks<R>(ends: seq<TaskEnd<R>>): seq<string> {
    if ends == [] then []
    else
      var e := ends[|ends| - 1];
      IncompleteTasks(ends[..|ends| - 1]) + if Incomplete(e) then [e.task] else []
  }

  // An answer is a result, a timeout or an exception a failure, and a task cancelled from
  // inside is neither.
  ghost predicate EndKept<R>(e: TaskEnd<R>, b: Books<R>) {
    && (e.task in b.results <==> e.ending.Answered?)
    && (e.ending.Answered? ==> b.results[e.task] == e.ending.result)
    && (e.task in b.failures <==> Fails(e))
    && (Fails(e) ==> b.failures[e.task] == FailureOf(e))
    && (e.task in b.incomplete <==> Incomplete(e))
  }

  // Every task leaves a timing, and nothing is recorded of anything else.
  ghost predicate Kept<R>(ends: seq<TaskEnd<R>>, b: Books<R>) {
    && (forall e :: e in ends ==> EndKept(e, b))
    && (forall id :: id in b.results || id in b.failures || id in b.incomplete ==> Ended(ends, id))
    && b.timings == TimingsOf(ends) && b.incomplete == IncompleteTasks(ends)
  }

  ghost predicate Ended<R>(ends: seq<TaskEnd<R>>, id: string) { exists e :: e in ends && e.task == id }

  method KeepBooks<R>(ends: seq<TaskEnd<R>>) returns (b: Books<R>)
    requires IsExecution(ends)
    ensures Kept(ends, b)
  {
    b := Books(map[], map[], [], []);
    for i := 0 to |ends|
      invariant Kept(ends[..i], b)
    {
      var e := ends[i];
      assert ends[..i + 1] == ends[..i] + [e];
      NewTask(ends, i);
      var before := b;
      b := b.(timings := b.timings + [TimingOf(e)],
              incomplete := if Incomplete(e) then b.incomplete + [e.task] else b.incomplete);
      match e.ending {
        case Answered(result) => b := b.(results := b.results[e.task := result]);
        case OutOfTime => b := b.(failures := b.failures[e.task := FailureOf(e)]);
        case Raised(_) => b := b.(failures := b.failures[e.task := FailureOf(e)]);
        case Cancelled =>
      }
      OneMoreEnd(ends[..i], e, before, b);
    }
    assert ends[..|ends|] == ends;
  }

  lemma NewTask<R>(ends: seq<TaskEnd<R>>, i: nat)
    requires IsExecution(ends) && i < |ends|
    ensures !Ended(ends[..i], ends[i].task)
  {
    forall e | e in ends[..i] ensures e.task != ends[i].task {
      var k :| 0 <= k < i && ends[k] == e;
    }
  }

  lemma IncompleteGrows<R>(ends: seq<TaskEnd<R>>, e: TaskEnd<R>)
    ensures IncompleteTasks(ends + [e]) == IncompleteTasks(ends) + if Incomplete(e) then [e.task] else []
  {
    assert (ends + [e])[..|ends + [e]| - 1] == ends;
  }

  lemma OneMoreEnd<R>(ends: seq<TaskEnd<R>>, e: TaskEnd<R>, b: Books<R>, a: Books<R>)
    requires Kept(ends, b) && !Ended(ends, e.task)
    requires a == Books(
      if e.ending.Answered? then b.results[e.task := e.ending.result] else b.results,
      if Fails(e) then b.failures[e.task := FailureOf(e)] else b.failures,
      b.timings + [TimingOf(e)], if Incomplete(e) then b.incomplete + [e.task] else b.incomplete)
    ensures Kept(ends + [e], a)
  {
    IncompleteGrows(ends, e);
    hide IncompleteTasks, FailureOf;
    var more := ends + [e];
    assert forall x :: x in more <==> x in ends || x == e;
    forall x | x in more ensures EndKept(x, a) {
      if x in ends {
        assert EndKept(x, b) && x.task != e.task;
      }
    }
    forall id | id in a.results || id in a.failures || id in a.incomplete ensures Ended(more, id) {
      if id != e.task {
        assert Ended(ends, id);
        var x :| x in ends && x.task == id;
        assert x in more;
      } else {
        assert e in more;
      }
    }
  }

  // --- The wave's status --------------------------------------------------------------

  function DeriveStatus<R>(b: Books<R>, cancelled: bool): WaveStatus {
    if cancelled then CANCELLED
    else if |b.failures| == 0 then COMPLETED
    else if |b.results| > 0 then PARTIAL
    else FAILED
  }

  lemma SizeMeansSome<K, V>(m: map<K, V>)
    ensures |m| > 0 <==> exists k :: k in m
  {
    if |m| > 0 {
      assert m.Keys != {};
      var k :| k in m.Keys;
    }
  }

  // What the status says of the tasks when the wave itself was not cancelled. It does not
  // say that everybody answered: a task cancelled from inside counts as no failure.
  lemma StatusMeaning<R>(ends: seq<TaskEnd<R>>, b: Books<R>)
    requires Kept(ends, b)
    ensures DeriveStatus(b, false) == COMPLETED <==> forall e :: e in ends ==> !Fails(e)
    ensures DeriveStatus(b, false) == PARTIAL <==>
      (exists e :: e in ends && Fails(e)) && exists e :: e in ends && e.ending.Answered?
    ensures DeriveStatus(b, false) == FAILED <==>
      (exists e :: e in ends && Fails(e)) && forall e :: e in ends ==> !e.ending.Answered?
    ensures DeriveStatus(b, false) == COMPLETED ==>
      ((forall e :: e in ends ==> e.task in b.results) <==> forall e :: e in ends ==> !e.ending.Cancelled?)
  {
    SizeMeansSome(b.failures);
    SizeMeansSome(b.results);
    forall id | Ended(ends, id)
      ensures id in b.failures ==> exists e :: e in ends && Fails(e)
      ensures id in b.results ==> exists e :: e in ends && e.ending.Answered?
    {
      var e :| e in ends && e.task == id;
      assert EndKept(e, b);
    }
    forall e | e in ends
      ensures e.task in b.failures <==> Fails(e)
      ensures e.task in b.results <==> e.ending.Answered?
    {
      assert EndKept(e, b);
    }
  }

  // --- Completion order --------------------------------------------------------------------

  lemma TimingsSplit<R>(a: seq<TaskEnd<R>>, b: seq<TaskEnd<R>>)
    ensures TimingsOf(a + b) == TimingsOf(a) + TimingsOf(b)
  {}

  lemma {:induction false} TimingsPermute<R>(a: seq<TaskEnd<R>>, b: seq<TaskEnd<R>>)
    requires multiset(a) == multiset(b)
    ensures multiset(TimingsOf(a)) == multiset(TimingsOf(b))
    decreases |a|
  {
    if a == [] {
      assert |multiset(b)| == 0;
    } else {
      assert a[0] in multiset(b);
      var k := Without(b, a[0]);
      var x, y := b[..k], b[k + 1..];
      TailContents(a);
      TimingsPermute(a[1..], x + y);
      TimingsSplit(x, y);
      TimingsSplit(x, [a[0]]);
      TimingsSplit(x + [a[0]], y);
      TimingsSplit([a[0]], a[1..]);
      assert a == [a[0]] + a[1..];
    }
  }

  // Whatever order the tasks finish in, the outcome is the same: the same results, the
  // same failures, the same status, and timings that differ only in their order - so the
  // telemetry figures agree as well.
  lemma CompletionOrderDoesNotMatter<R>(ends: seq<TaskEnd<R>>, other: seq<TaskEnd<R>>, b: Books<R>, c: Books<R>,
                                        cancelled: bool)
    requires IsExecution(ends) && IsExecution(other) && multiset(ends) == multiset(other)
    requires Kept(ends, b) && Kept(other, c)
    ensures b.results == c.results && b.failures == c.failures
    ensures DeriveStatus(b, cancelled) == DeriveStatus(c, cancelled)
    ensures forall id :: id in b.incomplete <==> id in c.incomplete
    ensures multiset(b.timings) == multiset(c.timings)
  {
    hide IncompleteTasks, TimingsOf, EndKept;
    TimingsPermute(ends, other);
    forall e ensures e in ends <==> e in other { assert e in multiset(ends) <==> e in multiset(other); }
    SameBooks(ends, other, b, c);
    SameBooks(other, ends, c, b);
    hide Kept, IsExecution;
    assert b.results == c.results;
    assert b.failures == c.failures;
  }

  lemma SameBooks<R>(ends: seq<TaskEnd<R>>, other: seq<TaskEnd<R>>, b: Books<R>, c: Books<R>)
    requires Kept(ends, b) && Kept(other, c) && forall e :: e in ends ==> e in other
    ensures forall id :: id in b.results ==> id in c.results && c.results[id] == b.results[id]
    ensures forall id :: id in b.failures ==> id in c.failures && c.failures[id] == b.failures[id]
    ensures forall id :: id in b.incomplete ==> id in c.incomplete
  {
    hide IncompleteTasks, FailureOf, TimingsOf;
    forall id | Ended(ends, id)
      ensures id in b.results ==> id in c.results && c.results[id] == b.results[id]
      ensures id in b.failures ==> id in c.failures && c.failures[id] == b.failures[id]
      ensures id in b.incomplete ==> id in c.incomplete
    {
      var e :| e in ends && e.task == id;
      assert EndKept(e, b) && EndKept(e, c);
    }
  }

  // The whole of `run_wave` after its tasks have ended.
  method RunWave<R>(ends: seq<TaskEnd<R>>, cancelled: bool, waveStarted: int, waveFinished: int)
    returns (b: Books<R>, status: WaveStatus, summary: Summary)
    requires IsExecution(ends)
    ensures Kept(ends, b) && status == DeriveStatus(b, cancelled) && OncePerTask(b.timings)
    ensures IsHighWater(b.timings, summary.highWater) && IsMaxOverlap(b.timings, summary.maxOverlap)
    ensures summary.wall == summary.finish - summary.start
    ensures if ends == [] then summary.start == waveStarted && summary.finish == waveFinished
            else IsWindow(b.timings, summary.start, summary.finish)
  {
    b := KeepBooks(ends);
    status := DeriveStatus(b, cancelled);
    summary := Summarize(b.timings, waveStarted, waveFinished);
  }
}
