/** The hash-chained execution trace: building it, verifying it, and what its last hash pins
    down. The hash is a function parameter; where the last hash does not pin the content, two
    hashed texts with one hash are exhibited. */
module Trace {
  import opened Results
  import opened Text

  type Hash = string

  const GENESIS: Hash := "GENESIS"

  datatype Kind = TASK | DECISION | TOOL_INVOCATION | EXECUTION_RESULT | MUTATION

  datatype Entry<P> = Entry(sequence: int, kind: Kind, at: string, payload: P, previousHash: Hash, entryHash: Hash)

  // A hex digest: never the genesis marker, never a separator.
  ghost predicate IsDigest(sha: string -> Hash) {
    forall a {:trigger sha(a)} :: sha(a) != GENESIS && '|' !in sha(a)
  }

  // A digest without collisions.
  ghost predicate IdealHash(sha: string -> Hash) {
    IsDigest(sha) && forall a, b {:trigger sha(a), sha(b)} :: sha(a) == sha(b) ==> a == b
  }

  // An injective text without separators: such functions exist.
  function Escaped(a: string): string {
    if a == "" then "" else (if a[0] == '|' then "~p" else if a[0] == '~' then "~~" else [a[0]]) + Escaped(a[1..])
  }

  function MarkedText(a: string): Hash { "#" + Escaped(a) }

  lemma {:induction false} EscapedReadsBack(a: string, b: string)
    requires Escaped(a) == Escaped(b)
    ensures a == b
  {
    if a != "" && b != "" {
      var x, y := Escaped(a), Escaped(b);
      assert a[0] == b[0] by {
        assert x[0] == y[0];
        if x[0] == '~' { assert x[1] == y[1]; }
      }
      var n := if a[0] == '|' || a[0] == '~' then 2 else 1;
      assert x[n..] == Escaped(a[1..]) && y[n..] == Escaped(b[1..]);
      EscapedReadsBack(a[1..], b[1..]);
      assert a == [a[0]] + a[1..] && b == [b[0]] + b[1..];
    }
  }

  lemma {:induction false} EscapedHasNoSeparator(a: string)
    ensures '|' !in Escaped(a)
  {
    if a != "" { EscapedHasNoSeparator(a[1..]); }
  }

  lemma IdealHashExists()
    ensures IdealHash(MarkedText)
  {
    forall a, b | MarkedText(a) == MarkedText(b) ensures a == b {
      assert MarkedText(a)[1..] == Escaped(a) && MarkedText(b)[1..] == Escaped(b);
      EscapedReadsBack(a, b);
    }
    forall a ensures MarkedText(a) != GENESIS && '|' !in MarkedText(a) {
      EscapedHasNoSeparator(a);
      assert MarkedText(a)[0] == '#';
    }
  }

  // The text that is hashed. The entry's kind and time are not part of it.
  function Preimage(sequence: int, previous: Hash, canonical: string): string {
    IntToString(sequence) + ['|'] + (previous + ['|'] + canonical)
  }

  function HashPayload<P>(sha: string -> Hash, canon: P -> string, sequence: int, previous: Hash, payload: P): Hash {
    sha(Preimage(sequence, previous, canon(payload)))
  }

  // The separators make the hashed text readable in one way only.
  lemma PreimageInjective(s: int, p: Hash, c: string, s': int, p': Hash, c': string)
    requires '|' !in p && '|' !in p' && Preimage(s, p, c) == Preimage(s', p', c')
    ensures s == s' && p == p' && c == c'
  {
    IntPrintHasNoSeparator(s, '|');
    IntPrintHasNoSeparator(s', '|');
    FirstSplitUnique(IntToString(s), p + ['|'] + c, IntToString(s'), p' + ['|'] + c', '|');
    IntPrintInjective(s, s');
    FirstSplitUnique(p, c, p', c', '|');
  }

  // --- What an intact chain is ---------------------------------------------------

  // The last hash of a trace; the genesis marker if there is no entry yet.
  function Tip<P>(es: seq<Entry<P>>): Hash {
    if es == [] then GENESIS else es[|es| - 1].entryHash
  }

  ghost predicate Linked<P>(sha: string -> Hash, canon: P -> string, es: seq<Entry<P>>, i: nat)
    requires i < |es|
  {
    && es[i].entryHash == HashPayload(sha, canon, es[i].sequence, Tip(es[..i]), es[i].payload)
    && es[i].previousHash == Tip(es[..i])
  }

  ghost predicate Intact<P>(sha: string -> Hash, canon: P -> string, es: seq<Entry<P>>) {
    forall i {:trigger Linked(sha, canon, es, i)} :: 0 <= i < |es| ==> Linked(sha, canon, es, i)
  }

  // `verify_trace_integrity`: reports the first entry whose link is broken.
  method VerifyTraceIntegrity<P>(sha: string -> Hash, canon: P -> string, es: seq<Entry<P>>) returns (ok: bool, at: nat)
    ensures ok <==> Intact(sha, canon, es)
    ensures !ok ==> at < |es| && !Linked(sha, canon, es, at) && forall i :: 0 <= i < at ==> Linked(sha, canon, es, i)
  {
    hide HashPayload;
    var previous := GENESIS;
    for i := 0 to |es|
      invariant previous == Tip(es[..i])
      invariant forall k :: 0 <= k < i ==> Linked(sha, canon, es, k)
    {
      var expected := HashPayload(sha, canon, es[i].sequence, previous, es[i].payload);
      if es[i].entryHash != expected || es[i].previousHash != previous {
        assert !Linked(sha, canon, es, i);
        return false, i;
      }
      previous := es[i].entryHash;
      assert es[..i + 1][i] == es[i];
    }
    return true, |es|;
  }

  lemma PrefixLinks<P>(sha: string -> Hash, canon: P -> string, es: seq<Entry<P>>, n: nat, i: nat)
    requires i < n <= |es|
    ensures Linked(sha, canon, es[..n], i) <==> Linked(sha, canon, es, i)
  {
    assert es[..n][..i] == es[..i];
  }

  // Every prefix of an intact trace is intact, so dropping entries from the end is not
  // visible without knowing the last hash.
  lemma PrefixIntact<P>(sha: string -> Hash, canon: P -> string, es: seq<Entry<P>>, n: nat)
    requires Intact(sha, canon, es) && n <= |es|
    ensures Intact(sha, canon, es[..n])
  {
    forall i | 0 <= i < n ensures Linked(sha, canon, es[..n], i) {
      PrefixLinks(sha, canon, es, n, i);
      assert Linked(sha, canon, es, i);
    }
  }

  // --- The last hash pins the whole content -----------------------------------------

  ghost predicate SameContent<P>(canon: P -> string, a: seq<Entry<P>>, b: seq<Entry<P>>) {
    && |a| == |b|
    && forall i :: 0 <= i < |a| ==>
         && a[i].sequence == b[i].sequence && canon(a[i].payload) == canon(b[i].payload)
         && a[i].previousHash == b[i].previousHash && a[i].entryHash == b[i].entryHash
  }

  // The text that entry i commits to.
  function HashedText<P>(canon: P -> string, es: seq<Entry<P>>, i: nat): string
    requires i < |es|
  {
    Preimage(es[i].sequence, Tip(es[..i]), canon(es[i].payload))
  }

  // Two different hashed texts with one hash.
  ghost predicate Collide<P>(sha: string -> Hash, canon: P -> string, a: seq<Entry<P>>, i: int, b: seq<Entry<P>>,
                             j: int) {
    && 0 <= i < |a| && 0 <= j < |b|
    && HashedText(canon, a, i) != HashedText(canon, b, j)
    && sha(HashedText(canon, a, i)) == sha(HashedText(canon, b, j))
  }

  lemma TipHasNoSeparator<P>(sha: string -> Hash, canon: P -> string, es: seq<Entry<P>>)
    requires IsDigest(sha) && Intact(sha, canon, es)
    ensures '|' !in Tip(es) && (es != [] ==> Tip(es) != GENESIS)
  {
    if es != [] { assert Linked(sha, canon, es, |es| - 1); }
  }

  // Entries at the ends of two intact traces with the same last hash agree, or collide.
  lemma SameTipSameEnd<P>(sha: string -> Hash, canon: P -> string, a: seq<Entry<P>>, b: seq<Entry<P>>)
    requires IsDigest(sha) && Intact(sha, canon, a) && Intact(sha, canon, b) && Tip(a) == Tip(b) && a != [] && b != []
    ensures var n, m := |a| - 1, |b| - 1;
      || Collide(sha, canon, a, n, b, m)
      || (&& a[n].sequence == b[m].sequence && canon(a[n].payload) == canon(b[m].payload)
          && a[n].previousHash == b[m].previousHash && a[n].entryHash == b[m].entryHash
          && Tip(a[..n]) == Tip(b[..m]))
  {
    var n, m := |a| - 1, |b| - 1;
    PrefixIntact(sha, canon, a, n);
    PrefixIntact(sha, canon, b, m);
    TipHasNoSeparator(sha, canon, a[..n]);
    TipHasNoSeparator(sha, canon, b[..m]);
    assert Linked(sha, canon, a, n) && Linked(sha, canon, b, m);
    if HashedText(canon, a, n) == HashedText(canon, b, m) {
      PreimageInjective(a[n].sequence, Tip(a[..n]), canon(a[n].payload),
                        b[m].sequence, Tip(b[..m]), canon(b[m].payload));
    }
  }

  lemma CollisionInPrefixes<P>(sha: string -> Hash, canon: P -> string, a: seq<Entry<P>>, n: nat, b: seq<Entry<P>>,
                               m: nat, i: int, j: int)
    requires n <= |a| && m <= |b| && Collide(sha, canon, a[..n], i, b[..m], j)
    ensures Collide(sha, canon, a, i, b, j)
  {
    assert a[..n][..i] == a[..i] && b[..m][..j] == b[..j];
  }

  lemma ContentGrows<P>(canon: P -> string, a: seq<Entry<P>>, b: seq<Entry<P>>)
    requires a != [] && b != []
    requires var n, m := |a| - 1, |b| - 1;
      && SameContent(canon, a[..n], b[..m])
      && a[n].sequence == b[m].sequence && canon(a[n].payload) == canon(b[m].payload)
      && a[n].previousHash == b[m].previousHash && a[n].entryHash == b[m].entryHash
    ensures SameContent(canon, a, b)
  {
    var n := |a| - 1;
    forall i | 0 <= i < n
      ensures a[i].sequence == b[i].sequence && canon(a[i].payload) == canon(b[i].payload)
           && a[i].previousHash == b[i].previousHash && a[i].entryHash == b[i].entryHash
    {
      assert a[..n][i] == a[i] && b[..n][i] == b[i];
    }
  }

  // Two intact traces with the same last hash have the same length and the same sequence
  // number and canonical payload at every position, or contain a collision of the hash.
  // So reordering, inserting, dropping or editing entries cannot keep the last hash without
  // one.
  lemma {:induction false} SameTipSameContent<P>(sha: string -> Hash, canon: P -> string, a: seq<Entry<P>>,
          b: seq<Entry<P>>)
    requires IsDigest(sha) && Intact(sha, canon, a) && Intact(sha, canon, b) && Tip(a) == Tip(b)
    ensures SameContent(canon, a, b) || exists i, j :: Collide(sha, canon, a, i, b, j)
    decreases |a|
  {
    EmptyTogether(sha, canon, a, b);
    hide Intact, Collide, Linked, IsDigest, Tip;
    if a == [] {
    } else {
      var n, m := |a| - 1, |b| - 1;
      SameTipSameEnd(sha, canon, a, b);
      if !Collide(sha, canon, a, n, b, m) {
        PrefixIntact(sha, canon, a, n);
        PrefixIntact(sha, canon, b, m);
        SameTipSameContent(sha, canon, a[..n], b[..m]);
        if i, j :| Collide(sha, canon, a[..n], i, b[..m], j) {
          CollisionInPrefixes(sha, canon, a, n, b, m, i, j);
        } else {
          ContentGrows(canon, a, b);
        }
      }
    }
  }

  // Without collisions the last hash pins the content.
  lemma IdealTipPinsContent<P>(sha: string -> Hash, canon: P -> string, a: seq<Entry<P>>, b: seq<Entry<P>>)
    requires IdealHash(sha) && Intact(sha, canon, a) && Intact(sha, canon, b)
    ensures Tip(a) == Tip(b) ==> SameContent(canon, a, b)
  {
    if Tip(a) == Tip(b) { SameTipSameContent(sha, canon, a, b); }
  }

  lemma EmptyTogether<P>(sha: string -> Hash, canon: P -> string, a: seq<Entry<P>>, b: seq<Entry<P>>)
    requires IsDigest(sha) && Intact(sha, canon, a) && Intact(sha, canon, b) && Tip(a) == Tip(b)
    ensures a == [] <==> b == []
  {
    TipHasNoSeparator(sha, canon, a);
    TipHasNoSeparator(sha, canon, b);
  }

  function WithPayload<P>(es: seq<Entry<P>>, i: nat, p: P): seq<Entry<P>>
    requires i < |es|
  {
    es[i := es[i].(payload := p)]
  }

  // Changing what one payload says, and nothing else, breaks that entry's link and no
  // other, unless the new text collides with the old one.
  lemma PayloadTamperingBreaks<P>(sha: string -> Hash, canon: P -> string, es: seq<Entry<P>>, i: nat, forged: P)
    requires IsDigest(sha) && Intact(sha, canon, es) && i < |es| && canon(forged) != canon(es[i].payload)
    ensures var bad := WithPayload(es, i, forged);
      Intact(sha, canon, bad) <==> Collide(sha, canon, es, i, bad, i)
    ensures IdealHash(sha) ==> !Intact(sha, canon, WithPayload(es, i, forged))
    ensures forall k :: 0 <= k < |es| && k != i ==> Linked(sha, canon, WithPayload(es, i, forged), k)
  {
    var bad := WithPayload(es, i, forged);
    assert Linked(sha, canon, es, i);
    assert bad[..i] == es[..i];
    PrefixIntact(sha, canon, es, i);
    TipHasNoSeparator(sha, canon, es[..i]);
    if HashedText(canon, es, i) == HashedText(canon, bad, i) {
      PreimageInjective(es[i].sequence, Tip(es[..i]), canon(es[i].payload),
                        es[i].sequence, Tip(es[..i]), canon(forged));
      assert false;
    }
    forall k | 0 <= k < |es| && k != i ensures Linked(sha, canon, bad, k) {
      assert Linked(sha, canon, es, k);
      SameTip(es, bad, k);
    }
    assert Intact(sha, canon, bad) <==> Linked(sha, canon, bad, i);
  }

  lemma SameTip<P>(a: seq<Entry<P>>, b: seq<Entry<P>>, k: nat)
    requires |a| == |b| && k <= |a| && forall i :: 0 <= i < |a| ==> a[i].entryHash == b[i].entryHash
    ensures Tip(a[..k]) == Tip(b[..k])
  {}

  // The hash covers the payload only up to its canonical form, and neither kind nor time:
  // rewriting those leaves verification as it was.
  lemma KindAndTimeUnprotected<P>(sha: string -> Hash, canon: P -> string, es: seq<Entry<P>>, i: nat, kind: Kind,
                                  at: string)
    requires i < |es|
    ensures Intact(sha, canon, es[i := es[i].(kind := kind, at := at)]) <==> Intact(sha, canon, es)
  {
    var other := es[i := es[i].(kind := kind, at := at)];
    forall k | 0 <= k < |es| ensures Linked(sha, canon, other, k) <==> Linked(sha, canon, es, k) {
      SameTip(es, other, k);
    }
  }

  // --- Building a trace ------------------------------------------------------------------

  datatype Item<P> = Item(kind: Kind, payload: P)

  function Tagged<P>(kind: Kind, ps: seq<P>): seq<Item<P>> {
    seq(|ps|, i requires 0 <= i < |ps| => Item(kind, ps[i]))
  }

  // The entries record these items, numbered from one.
  ghost predicate Records<P>(es: seq<Entry<P>>, items: seq<Item<P>>) {
    |es| == |items| && forall i :: 0 <= i < |es| ==>
      es[i].sequence == i + 1 && es[i].kind == items[i].kind && es[i].payload == items[i].payload
  }

  method Append<P>(sha: string -> Hash, canon: P -> string, es: seq<Entry<P>>, previous: Hash, sequence: nat,
                   item: Item<P>, ghost items: seq<Item<P>>)
    returns (es': seq<Entry<P>>, previous': Hash, sequence': nat)
    requires Intact(sha, canon, es) && previous == Tip(es) && sequence == |es| && Records(es, items)
    ensures Intact(sha, canon, es') && previous' == Tip(es') && sequence' == |es'|
    ensures Records(es', items + [item])
  {
    sequence' := sequence + 1;
    var entry := Entry(sequence', item.kind, "", item.payload, previous, HashPayload(sha, canon, sequence', previous,
                       item.payload));
    es' := es + [entry];
    previous' := entry.entryHash;
    forall i | 0 <= i < |es'| ensures Linked(sha, canon, es', i) {
      if i < |es| {
        assert es'[..|es|] == es;
        PrefixLinks(sha, canon, es', |es|, i);
        assert Linked(sha, canon, es, i);
      } else {
        assert es'[..i] == es;
      }
    }
  }

  method AppendAll<P>(sha: string -> Hash, canon: P -> string, es: seq<Entry<P>>, previous: Hash, sequence: nat,
                      kind: Kind, ps: seq<P>, ghost items: seq<Item<P>>)
    returns (es': seq<Entry<P>>, previous': Hash, sequence': nat)
    requires Intact(sha, canon, es) && previous == Tip(es) && sequence == |es| && Records(es, items)
    ensures Intact(sha, canon, es') && previous' == Tip(es') && sequence' == |es'|
    ensures Records(es', items + Tagged(kind, ps))
  {
    es', previous', sequence' := es, previous, sequence;
    ghost var tagged := Tagged(kind, ps);
    assert items + tagged[..0] == items;
    for i := 0 to |ps|
      invariant Intact(sha, canon, es') && previous' == Tip(es') && sequence' == |es'|
      invariant Records(es', items + tagged[..i])
    {
      es', previous', sequence' :=
        Append(sha, canon, es', previous', sequence', Item(kind, ps[i]), items + tagged[..i]);
      assert items + tagged[..i + 1] == items + tagged[..i] + [Item(kind, ps[i])];
    }
    assert tagged[..|ps|] == tagged;
  }

  // What a run is recorded as, in this order.
  function TraceItems<P>(task: P, decisions: seq<P>, mutations: seq<P>, executions: seq<P>, loop: P,
                         candidate: Option<P>): seq<Item<P>> {
    [Item(TASK, task)] + Tagged(DECISION, decisions) + Tagged(MUTATION, mutations)
    + Tagged(EXECUTION_RESULT, executions)
    + [Item(TOOL_INVOCATION, loop)] + (if candidate.Some? then [Item(TOOL_INVOCATION, candidate.value)] else [])
  }

  method BuildTrace<P>(sha: string -> Hash, canon: P -> string, task: P, decisions: seq<P>, mutations: seq<P>,
                       executions: seq<P>, loop: P, candidate: Option<P>)
    returns (es: seq<Entry<P>>)
    ensures Intact(sha, canon, es)
    ensures Records(es, TraceItems(task, decisions, mutations, executions, loop, candidate))
  {
    var previous, sequence := GENESIS, 0;
    es := [];
    es, previous, sequence := Append(sha, canon, es, previous, sequence, Item(TASK, task), []);
    ghost var items := [Item(TASK, task)];
    assert [] + items == items;
    es, previous, sequence := AppendAll(sha, canon, es, previous, sequence, DECISION, decisions, items);
    items := items + Tagged(DECISION, decisions);
    es, previous, sequence := AppendAll(sha, canon, es, previous, sequence, MUTATION, mutations, items);
    items := items + Tagged(MUTATION, mutations);
    es, previous, sequence := AppendAll(sha, canon, es, previous, sequence, EXECUTION_RESULT, executions, items);
    items := items + Tagged(EXECUTION_RESULT, executions);
    es, previous, sequence := Append(sha, canon, es, previous, sequence, Item(TOOL_INVOCATION, loop), items);
    items := items + [Item(TOOL_INVOCATION, loop)];
    if candidate.Some? {
      es, previous, sequence :=
        Append(sha, canon, es, previous, sequence, Item(TOOL_INVOCATION, candidate.value), items);
    } else {
      assert items + [] == items;
    }
  }
}
