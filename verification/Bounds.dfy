/** The loop-bounds controller shared by the coding loop and the repair loop. */
module Bounds {
  import opened NoProgress
  import opened Results

  datatype LoopBounds = LoopBounds(
    maxIterations: int, maxRuntimeSeconds: int, maxCommands: int, maxRepairAttempts: int, noProgressThreshold: int)

  datatype Bound = MaxIterations | MaxRuntime | MaxCommands | MaxRepairs

  datatype Usage = Usage(iterations: nat, commands: nat, repairs: nat)

  predicate Reached(b: LoopBounds, u: Usage, elapsed: real, bound: Bound) {
    match bound
    case MaxIterations => u.iterations >= b.maxIterations
    case MaxRuntime => elapsed >= b.maxRuntimeSeconds as real
    case MaxCommands => u.commands >= b.maxCommands
    case MaxRepairs => u.repairs >= b.maxRepairAttempts
  }

  // Room is left under every counted bound.
  predicate HasRoom(b: LoopBounds, u: Usage) {
    u.iterations < b.maxIterations && u.commands < b.maxCommands && u.repairs < b.maxRepairAttempts
  }

  // Which bound a check raises; they are tried in this order.
  function Exhausted(b: LoopBounds, u: Usage, elapsed: real): (r: Option<Bound>)
    ensures r.None? <==> HasRoom(b, u) && !Reached(b, u, elapsed, MaxRuntime)
    ensures r.Some? ==> Reached(b, u, elapsed, r.value)
  {
    if Reached(b, u, elapsed, MaxIterations) then Some(MaxIterations)
    else if Reached(b, u, elapsed, MaxRuntime) then Some(MaxRuntime)
    else if Reached(b, u, elapsed, MaxCommands) then Some(MaxCommands)
    else if Reached(b, u, elapsed, MaxRepairs) then Some(MaxRepairs)
    else None
  }

  class LoopBoundsController<S(==)> {
    const bounds: LoopBounds
    var usage: Usage
    var recentSignatures: seq<S>

    constructor (bounds: LoopBounds)
      ensures this.bounds == bounds && usage == Usage(0, 0, 0) && recentSignatures == []
    {
      this.bounds := bounds;
      usage, recentSignatures := Usage(0, 0, 0), [];
    }

    // `check`: the bound that would be raised, at a given clock reading.
    method Check(elapsed: real) returns (exhausted: Option<Bound>)
      ensures exhausted == Exhausted(bounds, usage, elapsed)
      ensures exhausted.None? <==> HasRoom(bounds, usage) && !Reached(bounds, usage, elapsed, MaxRuntime)
      ensures exhausted.Some? ==> Reached(bounds, usage, elapsed, exhausted.value)
    {
      if usage.iterations >= bounds.maxIterations { return Some(MaxIterations); }
      if elapsed >= bounds.maxRuntimeSeconds as real { return Some(MaxRuntime); }
      if usage.commands >= bounds.maxCommands { return Some(MaxCommands); }
      if usage.repairs >= bounds.maxRepairAttempts { return Some(MaxRepairs); }
      exhausted := None;
    }

    method RecordIteration() returns (n: nat)
      modifies this`usage
      ensures usage == old(usage).(iterations := old(usage).iterations + 1) && n == usage.iterations
    {
      usage := usage.(iterations := usage.iterations + 1);
      n := usage.iterations;
    }

    method RecordCommand()
      modifies this`usage
      ensures usage == old(usage).(commands := old(usage).commands + 1)
    {
      usage := usage.(commands := usage.commands + 1);
    }

    method RecordRepair()
      modifies this`usage
      ensures usage == old(usage).(repairs := old(usage).repairs + 1)
    {
      usage := usage.(repairs := usage.repairs + 1);
    }

    // Hits when the last `noProgressThreshold` signatures since the previous hit are equal,
    // and then forgets them.
    method RecordExecutionSignature(signature: S) returns (noProgress: bool)
      modifies this`recentSignatures
      ensures noProgress <==> LastEqual(old(recentSignatures) + [signature], AtLeastOne(bounds.noProgressThreshold))
      ensures recentSignatures == if noProgress then [] else old(recentSignatures) + [signature]
    {
      recentSignatures := recentSignatures + [signature];
      WindowImplementsRule(recentSignatures, bounds.noProgressThreshold);
      var threshold := if bounds.noProgressThreshold > 1 then bounds.noProgressThreshold else 1;
      if |recentSignatures| >= threshold {
        var recent := recentSignatures[|recentSignatures| - threshold..];
        if |Elements(recent)| == 1 {
          recentSignatures := [];
          return true;
        }
      }
      noProgress := false;
    }
  }
}
