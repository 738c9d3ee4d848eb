/** The no-progress rule and the three forms in which the packages implement it. */
module NoProgress {
  import opened Results

  // --- The rule ------------------------------------------------------------------

  // The last n observations are all the same.
  ghost predicate LastEqual<S>(h: seq<S>, n: nat) {
    n <= |h| && forall i :: |h| - n <= i < |h| ==> h[i] == h[|h| - 1]
  }

  // How many equal observations the history ends with.
  function RunLength<S(==)>(h: seq<S>): nat {
    if h == [] then 0
    else if |h| >= 2 && h[|h| - 2] == h[|h| - 1] then 1 + RunLength(h[..|h| - 1])
    else 1
  }

  lemma {:induction false} RunLengthMeaning<S>(h: seq<S>, n: nat)
    requires n >= 1
    ensures RunLength(h) >= n <==> LastEqual(h, n)
    decreases |h|
  {
    if |h| >= 2 {
      var t := h[..|h| - 1];
      if h[|h| - 2] == h[|h| - 1] {
        if n >= 2 {
          RunLengthMeaning(t, n - 1);
          assert LastEqual(h, n) <==> LastEqual(t, n - 1) by {
            if LastEqual(h, n) { assert forall i :: |t| - (n - 1) <= i < |t| ==> t[i] == h[i]; }
            if LastEqual(t, n - 1) {
              forall i | |h| - n <= i < |h| ensures h[i] == h[|h| - 1] {
                if i < |t| { assert t[i] == h[i]; }
              }
            }
          }
        }
      }
    }
  }

  // --- Form 1: last signature and a counter (loop_controls.py) ---------------------

  datatype Counter<S> = Counter(last: Option<S>, count: nat)

  function Observe<S(==)>(c: Counter<S>, s: S): Counter<S> {
    if c.last == Some(s) then Counter(c.last, c.count + 1) else Counter(Some(s), 1)
  }

  function CounterAfter<S(==)>(h: seq<S>): Counter<S> {
    if h == [] then Counter(None, 0) else Observe(CounterAfter(h[..|h| - 1]), h[|h| - 1])
  }

  lemma {:induction false} CounterIsRunLength<S>(h: seq<S>)
    ensures CounterAfter(h) == Counter(if h == [] then None else Some(h[|h| - 1]), RunLength(h))
    decreases |h|
  {
    if h != [] { CounterIsRunLength(h[..|h| - 1]); }
  }

  // The counter reaches the threshold exactly when the rule holds.
  lemma CounterImplementsRule<S>(h: seq<S>, threshold: int)
    requires h != []
    ensures CounterAfter(h).count >= threshold <==> LastEqual(h, AtLeastOne(threshold))
  {
    CounterIsRunLength(h);
    RunLengthMeaning(h, AtLeastOne(threshold));
    assert RunLength(h) >= 1;
  }

  function AtLeastOne(threshold: int): nat { if threshold < 1 then 1 else threshold }

  // --- Form 2: a window that is cleared when it fires (bounds.py) -------------------

  function Elements<S(==)>(w: seq<S>): set<S> { set s | s in w }

  // Fires on the last `threshold` signatures being one and the same.
  predicate WindowFires<S(==)>(w: seq<S>, threshold: int) {
    var t := AtLeastOne(threshold);
    |w| >= t && |Elements(w[|w| - t..])| == 1
  }

  function WindowAfter<S(==)>(h: seq<S>, threshold: int): seq<S> {
    if h == [] then []
    else
      var w := WindowAfter(h[..|h| - 1], threshold) + [h[|h| - 1]];
      if WindowFires(w, threshold) then [] else w
  }

  predicate WindowFiresOn<S(==)>(h: seq<S>, threshold: int)
    requires h != []
  {
    WindowFires(WindowAfter(h[..|h| - 1], threshold) + [h[|h| - 1]], threshold)
  }

  lemma SingletonSet<S>(s: set<S>, x: S)
    requires x in s
    ensures |s| == 1 <==> forall y :: y in s ==> y == x
  {
    if forall y :: y in s ==> y == x {
      assert s == {x};
    }
    if |s| == 1 {
      assert |s - {x}| == 0;
      forall y | y in s ensures y == x { assert y in s - {x} || y == x; }
    }
  }

  lemma WindowImplementsRule<S>(w: seq<S>, threshold: int)
    ensures WindowFires(w, threshold) <==> LastEqual(w, AtLeastOne(threshold))
  {
    var t := AtLeastOne(threshold);
    if |w| >= t {
      var tail := w[|w| - t..];
      var seen := Elements(tail);
      assert tail[t - 1] in seen && w[|w| - 1] == tail[t - 1];
      SingletonSet(seen, w[|w| - 1]);
      if LastEqual(w, t) {
        forall y | y in seen ensures y == w[|w| - 1] {
          var i :| 0 <= i < |tail| && tail[i] == y;
        }
      }
      if forall y :: y in seen ==> y == w[|w| - 1] {
        forall i | |w| - t <= i < |w| ensures w[i] == w[|w| - 1] {
          assert tail[i - (|w| - t)] in seen;
        }
      }
    }
  }

  // --- The forms agree ------------------------------------------------------------------

  // A counter that is reset whenever it fires.
  function ResetCounterAfter<S(==)>(h: seq<S>, threshold: int): Counter<S> {
    if h == [] then Counter(None, 0)
    else
      var c := Observe(ResetCounterAfter(h[..|h| - 1], threshold), h[|h| - 1]);
      if c.count >= threshold then Counter(None, 0) else c
  }

  predicate ResetCounterFiresOn<S(==)>(h: seq<S>, threshold: int)
    requires h != []
  {
    Observe(ResetCounterAfter(h[..|h| - 1], threshold), h[|h| - 1]).count >= threshold
  }

  lemma {:induction false} ResetCounterIsCounterOfWindow<S>(h: seq<S>, threshold: int)
    ensures ResetCounterAfter(h, threshold) == CounterAfter(WindowAfter(h, threshold))
    ensures h != [] ==> (ResetCounterFiresOn(h, threshold) <==> WindowFiresOn(h, threshold))
    decreases |h|
  {
    if h != [] {
      var before, s := h[..|h| - 1], h[|h| - 1];
      ResetCounterIsCounterOfWindow(before, threshold);
      var w := WindowAfter(before, threshold) + [s];
      assert w[..|w| - 1] == WindowAfter(before, threshold);
      assert CounterAfter(w) == Observe(ResetCounterAfter(before, threshold), s);
      CounterImplementsRule(w, threshold);
      WindowImplementsRule(w, threshold);
    }
  }

  // Step by step, the detector that is reset after each hit and the window that clears
  // itself report the same hits on every sequence of signatures.
  lemma ResetDetectorMatchesWindow<S>(h: seq<S>, n: nat, threshold: int)
    requires 0 < n <= |h|
    ensures ResetCounterFiresOn(h[..n], threshold) <==> WindowFiresOn(h[..n], threshold)
  {
    ResetCounterIsCounterOfWindow(h[..n], threshold);
  }

  ghost predicate QuietBefore<S>(h: seq<S>, threshold: int) {
    forall n :: 0 < n < |h| ==> !LastEqual(h[..n], AtLeastOne(threshold))
  }

  lemma WindowUnfolds<S>(h: seq<S>, s: S, threshold: int)
    ensures WindowFiresOn(h + [s], threshold) <==> WindowFires(WindowAfter(h, threshold) + [s], threshold)
    ensures WindowAfter(h + [s], threshold)
         == if WindowFiresOn(h + [s], threshold) then [] else WindowAfter(h, threshold) + [s]
  {
    assert (h + [s])[..|h + [s]| - 1] == h;
  }

  lemma QuietStep<S>(h: seq<S>, s: S, threshold: int)
    requires WindowAfter(h, threshold) == h && !LastEqual(h + [s], AtLeastOne(threshold))
    ensures WindowAfter(h + [s], threshold) == h + [s]
  {
    WindowUnfolds(h, s, threshold);
    WindowImplementsRule(h + [s], threshold);
  }

  lemma {:induction false} QuietWindowKeepsAll<S>(h: seq<S>, n: nat, threshold: int)
    requires n < |h| && QuietBefore(h, threshold)
    ensures WindowAfter(h[..n], threshold) == h[..n]
  {
    if n > 0 {
      QuietWindowKeepsAll(h, n - 1, threshold);
      assert h[..n - 1] + [h[n - 1]] == h[..n];
      QuietStep(h[..n - 1], h[n - 1], threshold);
    }
  }

  // One more observation after a window that has kept everything.
  lemma FullWindowFires<S>(h: seq<S>, s: S, threshold: int)
    requires WindowAfter(h, threshold) == h
    ensures WindowFiresOn(h + [s], threshold) <==> LastEqual(h + [s], AtLeastOne(threshold))
  {
    WindowUnfolds(h, s, threshold);
    WindowImplementsRule(h + [s], threshold);
  }

  // All forms hit for the first time at the same observation: the first one at which the
  // last `threshold` signatures are equal.
  lemma FormsFireFirstTogether<S>(h: seq<S>, threshold: int)
    requires h != [] && QuietBefore(h, threshold)
    ensures CounterAfter(h).count >= threshold <==> LastEqual(h, AtLeastOne(threshold))
    ensures WindowFiresOn(h, threshold) <==> LastEqual(h, AtLeastOne(threshold))
    ensures ResetCounterFiresOn(h, threshold) <==> LastEqual(h, AtLeastOne(threshold))
  {
    hide *;
    CounterImplementsRule(h, threshold);
    ResetCounterIsCounterOfWindow(h, threshold);
    var front, s := h[..|h| - 1], h[|h| - 1];
    assert front + [s] == h;
    QuietWindowKeepsAll(h, |h| - 1, threshold);
    FullWindowFires(front, s, threshold);
  }

  // --- The detector object -----------------------------------------------------------------

  class NoProgressDetector<S(==)> {
    const threshold: nat
    var signature: Option<S>
    var consecutive: nat
    ghost var observed: seq<S>  // since construction or the last reset

    ghost predicate Valid()
      reads this
    {
      threshold >= 2 && Counter(signature, consecutive) == CounterAfter(observed)
    }

    constructor (threshold: nat)
      requires threshold >= 2
      ensures Valid() && this.threshold == threshold && observed == []
    {
      this.threshold := threshold;
      signature, consecutive, observed := None, 0, [];
    }

    // A threshold below two is refused: the exception is `None`.
    static method Make(threshold: int) returns (r: Option<NoProgressDetector<S>>)
      ensures r.None? <==> threshold < 2
      ensures r.Some? ==> fresh(r.value) && r.value.Valid() && r.value.threshold == threshold && r.value.observed == []
    {
      if threshold < 2 { return None; }
      var d := new NoProgressDetector<S>(threshold);
      r := Some(d);
    }

    method Observe(signature: S) returns (stuck: bool)
      requires Valid()
      modifies this
      ensures Valid() && observed == old(observed) + [signature]
      ensures stuck <==> LastEqual(observed, threshold)
    {
      if this.signature == Some(signature) {
        consecutive := consecutive + 1;
      } else {
        this.signature := Some(signature);
        consecutive := 1;
      }
      observed := observed + [signature];
      assert observed[..|observed| - 1] == old(observed);
      CounterImplementsRule(observed, threshold);
      stuck := consecutive >= threshold;
    }

    method Reset()
      requires Valid()
      modifies this
      ensures Valid() && observed == []
    {
      signature, consecutive, observed := None, 0, [];
    }
  }
}
