/** The verification plan's coverage: validating it, transposing it and reading it back. */
module Coverage {
  import opened Results
  import opened Text

  datatype CaseSpec = CaseSpec(name: string, kind: string, behaviors: seq<string>)

  datatype CaseProblem = BlankName | DuplicateName | UnknownKind | NoTarget | UnknownTarget

  datatype PlanError =
    | NoBehaviors
    | NoCases
    | BadCase(index: nat, problem: CaseProblem)
    | Uncovered(behaviors: set<string>)

  // An insertion-ordered dictionary from behaviors to case names.
  datatype CoverageMap = CoverageMap(keys: seq<string>, names: map<string, seq<string>>)

  const CASE_KINDS: set<string> := {
    "UNIT_TEST", "INTEGRATION_TEST", "REGRESSION_CHECK", "BEHAVIORAL_CHECK",
    "SECURITY_CHECK", "PERFORMANCE_CHECK", "RUNTIME_INVESTIGATION", "ADVERSARIAL_CASE" }

  // --- What a well-formed, fully covering plan is -------------------------------------

  // The order the checks on a case are made in.
  function Rank(p: CaseProblem): nat {
    match p case BlankName => 0 case DuplicateName => 1 case UnknownKind => 2 case NoTarget => 3 case UnknownTarget => 4
  }

  predicate HasProblem(affected: seq<string>, cases: seq<CaseSpec>, i: nat, p: CaseProblem)
    requires i < |cases|
  {
    var c := cases[i];
    match p
    case BlankName => Blank(c.name)
    case DuplicateName => exists j :: 0 <= j < i && cases[j].name == c.name
    case UnknownKind => c.kind !in CASE_KINDS
    case NoTarget => c.behaviors == []
    case UnknownTarget => exists b :: b in c.behaviors && b !in affected
  }

  // Of several problems the first in the order of the checks is reported.
  ghost predicate FirstProblem(affected: seq<string>, cases: seq<CaseSpec>, i: nat, p: CaseProblem) {
    i < |cases| && HasProblem(affected, cases, i, p)
    && forall q :: HasProblem(affected, cases, i, q) ==> Rank(p) <= Rank(q)
  }

  ghost predicate GoodCase(affected: seq<string>, cases: seq<CaseSpec>, i: nat)
    requires i < |cases|
  {
    forall p :: !HasProblem(affected, cases, i, p)
  }

  ghost predicate Covered(cases: seq<CaseSpec>, b: string) {
    exists i :: 0 <= i < |cases| && b in cases[i].behaviors
  }

  ghost predicate WellFormed(affected: seq<string>, cases: seq<CaseSpec>) {
    && affected != [] && cases != []
    && (forall i :: 0 <= i < |cases| ==> GoodCase(affected, cases, i))
    && forall b :: b in affected ==> Covered(cases, b)
  }

  // One column of the transpose: the case's name once for every mention of the behavior.
  function Mentions(c: CaseSpec, b: string): seq<string> {
    Repeat(c.name, Count(c.behaviors, b))
  }

  function Count(bs: seq<string>, b: string): (n: nat)
    ensures n > 0 <==> b in bs
  {
    if bs == [] then 0 else Count(bs[..|bs| - 1], b) + (if bs[|bs| - 1] == b then 1 else 0)
  }

  function Repeat(x: string, n: nat): (r: seq<string>)
    ensures |r| == n && forall y :: y in r <==> n > 0 && y == x
  {
    if n == 0 then [] else Repeat(x, n - 1) + [x]
  }

  function NamesFor(cases: seq<CaseSpec>, b: string): seq<string> {
    if cases == [] then [] else NamesFor(cases[..|cases| - 1], b) + Mentions(cases[|cases| - 1], b)
  }

  ghost predicate KeysAre(keys: seq<string>, affected: seq<string>) {
    && keys == FirstMentions(affected)
    && (forall b :: b in keys <==> b in affected)
    && forall i, j :: 0 <= i < j < |keys| ==> keys[i] != keys[j]
  }

  ghost predicate ColumnsAre(names: map<string, seq<string>>, affected: seq<string>, cases: seq<CaseSpec>) {
    && (forall b :: b in names <==> b in affected)
    && forall b :: b in affected ==> names[b] == NamesFor(cases, b)
  }

  // The coverage is the transposed case-to-behavior relation.
  ghost predicate IsTranspose(c: CoverageMap, affected: seq<string>, cases: seq<CaseSpec>) {
    KeysAre(c.keys, affected) && ColumnsAre(c.names, affected, cases)
  }

  ghost predicate Names(cases: seq<CaseSpec>, b: string, x: string, i: int) {
    0 <= i < |cases| && cases[i].name == x && b in cases[i].behaviors
  }

  lemma {:induction false} InNamesFor(cases: seq<CaseSpec>, b: string, x: string)
    ensures x in NamesFor(cases, b) <==> exists i :: Names(cases, b, x, i)
    decreases |cases|
  {
    if cases != [] {
      var n := |cases| - 1;
      InNamesFor(cases[..n], b, x);
      if i :| Names(cases, b, x, i) && i < n { assert Names(cases[..n], b, x, i); }
      if i :| Names(cases[..n], b, x, i) { assert Names(cases, b, x, i); }
      if cases[n].name == x && b in cases[n].behaviors { assert Names(cases, b, x, n); }
    }
  }

  // --- Validation -------------------------------------------------------------------------

  // The checks on one case, in the order they are made.
  method CheckCase(affected: seq<string>, cases: seq<CaseSpec>, i: nat, seen: set<string>)
    returns (problem: Result<(), PlanError>)
    requires i < |cases|
    requires forall x :: x in seen <==> exists j :: 0 <= j < i && cases[j].name == x
    ensures problem.Ok? <==> GoodCase(affected, cases, i)
    ensures problem.Err? ==> problem.error.BadCase? && problem.error.index == i
    ensures problem.Err? ==> FirstProblem(affected, cases, i, problem.error.problem)
  {
    var c := cases[i];
    if Blank(c.name) {
      assert HasProblem(affected, cases, i, BlankName);
      return Err(BadCase(i, BlankName));
    }
    if c.name in seen {
      assert HasProblem(affected, cases, i, DuplicateName);
      return Err(BadCase(i, DuplicateName));
    }
    if c.kind !in CASE_KINDS {
      assert HasProblem(affected, cases, i, UnknownKind);
      return Err(BadCase(i, UnknownKind));
    }
    var targets := set b | b in c.behaviors;
    assert c.behaviors == [] || c.behaviors[0] in targets;
    if targets == {} {
      assert HasProblem(affected, cases, i, NoTarget);
      return Err(BadCase(i, NoTarget));
    }
    var unknown := targets - set b | b in affected;
    if unknown != {} {
      var b :| b in unknown;
      assert HasProblem(affected, cases, i, UnknownTarget);
      return Err(BadCase(i, UnknownTarget));
    }
    assert c.behaviors != [];
    assert forall b :: b in c.behaviors && b !in affected ==> b in unknown;
    forall p ensures !HasProblem(affected, cases, i, p) {}
    problem := Ok(());
  }

  lemma OneMoreKey(keys: seq<string>, affected: seq<string>, b: string)
    requires KeysAre(keys, affected)
    ensures KeysAre(if b in affected then keys else keys + [b], affected + [b])
  {
    FirstMentionsGrow(affected, b);
  }

  lemma NoNames()
    ensures forall b :: NamesFor([], b) == []
  {}

  method EmptyCoverage(affected: seq<string>) returns (c: CoverageMap)
    ensures IsTranspose(c, affected, [])
  {
    hide KeysAre, FirstMentions, NamesFor;
    c := CoverageMap([], map[]);
    assert KeysAre([], []) by { NoKeys(); }
    assert affected[..0] == [];
    NoNames();
    for i := 0 to |affected|
      invariant IsTranspose(c, affected[..i], [])
    {
      var b := affected[i];
      assert affected[..i + 1] == affected[..i] + [b];
      OneMoreKey(c.keys, affected[..i], b);
      c := CoverageMap(if b in c.names then c.keys else c.keys + [b], c.names[b := []]);
    }
    assert affected[..|affected|] == affected;
  }

  lemma NoKeys()
    ensures KeysAre([], [])
  {}

  method Validate(affected: seq<string>, cases: seq<CaseSpec>) returns (r: Result<CoverageMap, PlanError>)
    ensures r.Ok? <==> WellFormed(affected, cases)
    ensures r.Ok? ==> IsTranspose(r.value, affected, cases)
    ensures r == Err(NoBehaviors) <==> affected == []
    ensures r == Err(NoCases) <==> affected != [] && cases == []
    ensures r.Err? && r.error.BadCase? <==>
      affected != [] && exists i :: 0 <= i < |cases| && !GoodCase(affected, cases, i)
    ensures r.Err? && r.error.BadCase? ==>
      FirstProblem(affected, cases, r.error.index, r.error.problem)
      && forall i :: 0 <= i < r.error.index ==> GoodCase(affected, cases, i)
    ensures r.Err? && r.error.Uncovered? ==> forall b :: b in r.error.behaviors <==> b in affected && !Covered(cases, b)
  {
    hide KeysAre, ColumnsAre, IsTranspose, HasProblem, GoodCase, Covered, FirstProblem;
    if affected == [] { return Err(NoBehaviors); }
    if cases == [] { return Err(NoCases); }
    var coverage := EmptyCoverage(affected);
    var seen: set<string> := {};
    assert cases[..0] == [];
    for i := 0 to |cases|
      invariant IsTranspose(coverage, affected, cases[..i])
      invariant forall x :: x in seen <==> exists j :: 0 <= j < i && cases[j].name == x
      invariant forall j :: 0 <= j < i ==> GoodCase(affected, cases, j)
    {
      var c := cases[i];
      var checked := CheckCase(affected, cases, i, seen);
      if checked.Err? { return Err(checked.error); }
      seen := seen + {c.name};
      TargetsAreKnown(affected, cases, i);
      coverage := AddCase(coverage, affected, cases[..i], c);
      assert cases[..i + 1] == cases[..i] + [c];
    }
    assert cases[..|cases|] == cases;
    var uncovered := set b | b in coverage.names && coverage.names[b] == [];
    EmptyColumns(coverage, affected, cases, uncovered);
    if uncovered != {} {
      var b :| b in uncovered;
      return Err(Uncovered(uncovered));
    }
    forall b | b in affected ensures Covered(cases, b) { assert b !in uncovered; }
    r := Ok(coverage);
  }

  lemma TargetsAreKnown(affected: seq<string>, cases: seq<CaseSpec>, i: nat)
    requires i < |cases| && GoodCase(affected, cases, i)
    ensures forall b :: b in cases[i].behaviors ==> b in affected
  {
    assert !HasProblem(affected, cases, i, UnknownTarget);
  }

  lemma EmptyColumns(c: CoverageMap, affected: seq<string>, cases: seq<CaseSpec>, empty: set<string>)
    requires IsTranspose(c, affected, cases) && empty == set b | b in c.names && c.names[b] == []
    ensures forall b :: b in empty <==> b in affected && !Covered(cases, b)
  {
    hide KeysAre, Covered, NamesFor;
    forall b ensures Covered(cases, b) <==> NamesFor(cases, b) != [] { CoveredMeansNamed(cases, b); }
  }

  lemma CoveredMeansNamed(cases: seq<CaseSpec>, b: string)
    ensures Covered(cases, b) <==> NamesFor(cases, b) != []
  {
    if Covered(cases, b) {
      var i :| 0 <= i < |cases| && b in cases[i].behaviors;
      InNamesFor(cases, b, cases[i].name);
      assert Names(cases, b, cases[i].name, i);
    }
    if NamesFor(cases, b) != [] {
      InNamesFor(cases, b, NamesFor(cases, b)[0]);
    }
  }

  // A column after the first k mentions of a case have been appended.
  function ColumnAfter(cases: seq<CaseSpec>, c: CaseSpec, k: nat, b: string): seq<string>
    requires k <= |c.behaviors|
  {
    NamesFor(cases, b) + Repeat(c.name, Count(c.behaviors[..k], b))
  }

  lemma ColumnGrows(cases: seq<CaseSpec>, c: CaseSpec, k: nat, b: string)
    requires k < |c.behaviors|
    ensures ColumnAfter(cases, c, k + 1, b)
         == ColumnAfter(cases, c, k, b) + if b == c.behaviors[k] then [c.name] else []
  {
    assert c.behaviors[..k + 1][..k] == c.behaviors[..k];
  }

  lemma ColumnComplete(cases: seq<CaseSpec>, c: CaseSpec, b: string)
    ensures ColumnAfter(cases, c, 0, b) == NamesFor(cases, b)
    ensures ColumnAfter(cases, c, |c.behaviors|, b) == NamesFor(cases + [c], b)
  {
    assert c.behaviors[..|c.behaviors|] == c.behaviors;
    assert (cases + [c])[..|cases + [c]| - 1] == cases;
  }

  // The case's name is appended to the column of every behavior it mentions, once for each
  // mention.
  method AddCase(coverage: CoverageMap, affected: seq<string>, ghost cases: seq<CaseSpec>, c: CaseSpec)
    returns (r: CoverageMap)
    requires IsTranspose(coverage, affected, cases) && forall b :: b in c.behaviors ==> b in affected
    ensures IsTranspose(r, affected, cases + [c])
  {
    hide KeysAre, NamesFor, ColumnAfter;
    var names := coverage.names;
    forall b ensures ColumnAfter(cases, c, 0, b) == NamesFor(cases, b) { ColumnComplete(cases, c, b); }
    for k := 0 to |c.behaviors|
      invariant forall b :: b in names <==> b in affected
      invariant forall b :: b in affected ==> names[b] == ColumnAfter(cases, c, k, b)
    {
      forall b
        ensures ColumnAfter(cases, c, k + 1, b)
             == ColumnAfter(cases, c, k, b) + if b == c.behaviors[k] then [c.name] else []
      {
        ColumnGrows(cases, c, k, b);
      }
      names := names[c.behaviors[k] := names[c.behaviors[k]] + [c.name]];
    }
    forall b ensures ColumnAfter(cases, c, |c.behaviors|, b) == NamesFor(cases + [c], b) {
      ColumnComplete(cases, c, b);
    }
    r := coverage.(names := names);
  }

  // --- Persisting and reading back -------------------------------------------------------------

  datatype Row = Row(name: string, kind: string)

  const NAME_LIMIT: nat := 200

  function Stored(c: CaseSpec): Row {
    Row(if |c.name| <= NAME_LIMIT then c.name else c.name[..NAME_LIMIT], c.kind)
  }

  function Select(keys: seq<string>, names: map<string, seq<string>>, x: string): seq<string>
    requires forall b :: b in keys ==> b in names
  {
    if keys == [] then []
    else (if x in names[keys[0]] then [keys[0]] else []) + Select(keys[1..], names, x)
  }

  // The case a stored row is read back as.
  function FromRow(row: Row, c: CoverageMap): CaseSpec
    requires forall b :: b in c.keys ==> b in c.names
  {
    CaseSpec(row.name, row.kind, Select(c.keys, c.names, row.name))
  }

  lemma {:induction false} SelectedBehaviors(keys: seq<string>, names: map<string, seq<string>>, x: string, b: string)
    requires forall k :: k in keys ==> k in names
    ensures b in Select(keys, names, x) <==> b in keys && x in names[b]
  {
    if keys != [] { SelectedBehaviors(keys[1..], names, x, b); }
  }

  ghost predicate SameCase(a: CaseSpec, b: CaseSpec) {
    a.name == b.name && a.kind == b.kind && forall x :: x in a.behaviors <==> x in b.behaviors
  }

  // What a row is read back as: the behaviors of the case whose full name it carries.
  lemma RowReadsAs(affected: seq<string>, cases: seq<CaseSpec>, c: CoverageMap, row: Row, b: string)
    requires WellFormed(affected, cases) && IsTranspose(c, affected, cases)
    ensures b in FromRow(row, c).behaviors <==> exists j :: Names(cases, b, row.name, j)
  {
    hide FirstMentions, NamesFor, Select, HasProblem;
    SelectedBehaviors(c.keys, c.names, row.name, b);
    InNamesFor(cases, b, row.name);
    if j :| Names(cases, b, row.name, j) {
      assert GoodCase(affected, cases, j);
      TargetsAreKnown(affected, cases, j);
      assert b in affected;
    }
  }

  lemma NamesAreDistinct(affected: seq<string>, cases: seq<CaseSpec>, i: int, j: int)
    requires WellFormed(affected, cases) && 0 <= i < |cases| && 0 <= j < |cases| && cases[i].name == cases[j].name
    ensures i == j
  {
    assert GoodCase(affected, cases, i) && !HasProblem(affected, cases, i, DuplicateName);
    assert GoodCase(affected, cases, j) && !HasProblem(affected, cases, j, DuplicateName);
  }

  // Transposing back gives every case its own behaviors, provided its name was short
  // enough to be stored whole; and only then.
  lemma RoundTrip(affected: seq<string>, cases: seq<CaseSpec>, c: CoverageMap, i: nat)
    requires WellFormed(affected, cases) && IsTranspose(c, affected, cases) && i < |cases|
    ensures SameCase(FromRow(Stored(cases[i]), c), cases[i]) <==> |cases[i].name| <= NAME_LIMIT
  {
    var row := Stored(cases[i]);
    if |cases[i].name| <= NAME_LIMIT {
      forall b ensures b in FromRow(row, c).behaviors <==> b in cases[i].behaviors {
        RowReadsAs(affected, cases, c, row, b);
        assert Names(cases, b, row.name, i) <==> b in cases[i].behaviors;
        if j :| Names(cases, b, row.name, j) {
          NamesAreDistinct(affected, cases, i, j);
        }
      }
    } else {
      assert |row.name| == NAME_LIMIT;
    }
  }

  ghost predicate TakesOver(cases: seq<CaseSpec>, i: nat, j: int, read: seq<string>) {
    && i < |cases| && 0 <= j < |cases| && j != i
    && |cases[i].name| > NAME_LIMIT && cases[j].name == cases[i].name[..NAME_LIMIT]
    && forall b :: b in read <==> b in cases[j].behaviors
  }

  // A case whose name was cut short loses its behaviors, or takes over those of another
  // case that happens to bear the shortened name.
  lemma TruncatedCase(affected: seq<string>, cases: seq<CaseSpec>, c: CoverageMap, i: nat)
    requires WellFormed(affected, cases) && IsTranspose(c, affected, cases)
    requires i < |cases| && |cases[i].name| > NAME_LIMIT
    ensures FromRow(Stored(cases[i]), c).behaviors == [] ||
      exists j :: TakesOver(cases, i, j, FromRow(Stored(cases[i]), c).behaviors)
  {
    var row := Stored(cases[i]);
    var read := FromRow(row, c).behaviors;
    if read != [] {
      RowReadsAs(affected, cases, c, row, read[0]);
      var j :| Names(cases, read[0], row.name, j);
      assert |cases[j].name| == NAME_LIMIT;
      forall b ensures b in read <==> b in cases[j].behaviors {
        RowReadsAs(affected, cases, c, row, b);
        assert Names(cases, b, row.name, j) <==> b in cases[j].behaviors;
        if k :| Names(cases, b, row.name, k) {
          NamesAreDistinct(affected, cases, j, k);
        }
      }
      assert TakesOver(cases, i, j, read);
    }
  }
}
