/** Semantic versions: recognising, reading, printing and bumping them. */
module Versioning {
  import opened Results
  import opened Text

  datatype Error = InvalidVersion | EmptyIdentity

  datatype Release = Release(major: nat, minor: nat, patch: nat)

  // --- Splitting --------------------------------------------------------------------

  function IndexOf(s: string, c: char): (i: nat)
    ensures i <= |s| && c !in s[..i] && (i < |s| ==> s[i] == c) && (i == |s| ==> c !in s)
  {
    if s == "" then 0 else if s[0] == c then 0 else
      var i := IndexOf(s[1..], c);
      assert s[..i + 1] == [s[0]] + s[1..][..i];
      assert s == [s[0]] + s[1..];
      i + 1
  }

  // `s.split(c, 1)[0]`
  function Head(s: string, c: char): string { s[..IndexOf(s, c)] }

  // What follows the first c.
  function Tail(s: string, c: char): string
    requires c in s
  {
    s[IndexOf(s, c) + 1..]
  }

  // `s.split(".")`
  function SplitDots(s: string): (parts: seq<string>)
    ensures parts != [] && forall i :: 0 <= i < |parts| ==> '.' !in parts[i]
    decreases |s|
  {
    if '.' in s then [Head(s, '.')] + SplitDots(Tail(s, '.')) else [s]
  }

  function Join(parts: seq<string>): string
    requires parts != []
  {
    if |parts| == 1 then parts[0] else parts[0] + ['.'] + Join(parts[1..])
  }

  lemma HeadOf(x: string, c: char, y: string)
    requires c !in x
    ensures Head(x, c) == x
    ensures c in x + [c] + y && Head(x + [c] + y, c) == x && Tail(x + [c] + y, c) == y
  {
    var s := x + [c] + y;
    assert s[|x|] == c;
    var i := IndexOf(s, c);
    assert s == s[..i] + [c] + s[i + 1..];
    FirstSplitUnique(x, y, s[..i], s[i + 1..], c);
  }

  // A text cut at the first c, and put together again.
  function CutFirst(s: string, c: char): (string, Option<string>) {
    (Head(s, c), if c in s then Some(Tail(s, c)) else None)
  }

  function Paste(x: string, c: char, y: Option<string>): string {
    if y.Some? then x + [c] + y.value else x
  }

  lemma CutPaste(x: string, c: char, y: Option<string>)
    requires c !in x
    ensures CutFirst(Paste(x, c, y), c) == (x, y)
  {
    HeadOf(x, c, if y.Some? then y.value else "");
  }

  lemma PasteCut(s: string, c: char)
    ensures Paste(CutFirst(s, c).0, c, CutFirst(s, c).1) == s
    ensures c !in CutFirst(s, c).0
  {}

  lemma {:induction false} SplitJoin(parts: seq<string>)
    requires parts != [] && forall i :: 0 <= i < |parts| ==> '.' !in parts[i]
    ensures SplitDots(Join(parts)) == parts
    decreases |parts|
  {
    if |parts| == 1 {
      assert parts == [parts[0]];
    } else {
      HeadOf(parts[0], '.', Join(parts[1..]));
      SplitJoin(parts[1..]);
      assert parts == [parts[0]] + parts[1..];
    }
  }

  lemma {:induction false} JoinSplit(s: string)
    ensures Join(SplitDots(s)) == s
    decreases |s|
  {
    if '.' in s {
      JoinSplit(Tail(s, '.'));
      var i := IndexOf(s, '.');
      assert s == s[..i] + ['.'] + s[i + 1..];
      assert SplitDots(s)[1..] == SplitDots(Tail(s, '.'));
    }
  }

  lemma {:induction false} JoinChars(parts: seq<string>, c: char)
    requires parts != [] && c != '.' && forall i :: 0 <= i < |parts| ==> c !in parts[i]
    ensures c !in Join(parts)
    decreases |parts|
  {
    if |parts| > 1 {
      forall i | 0 <= i < |parts[1..]| ensures c !in parts[1..][i] { assert parts[1..][i] == parts[i + 1]; }
      JoinChars(parts[1..], c);
    }
  }

  // --- The regular expression ---------------------------------------------------------

  predicate IsIdentChar(c: char) {
    '0' <= c <= '9' || 'A' <= c <= 'Z' || 'a' <= c <= 'z' || c == '-'
  }

  predicate IsIdentifier(s: string) { s != "" && forall i :: 0 <= i < |s| ==> IsIdentChar(s[i]) }

  // `[0-9A-Za-z-]+(\.[0-9A-Za-z-]+)*`
  ghost predicate DottedRegex(s: string) {
    exists ids: seq<string> :: ids != [] && (forall i :: 0 <= i < |ids| ==> IsIdentifier(ids[i])) && s == Join(ids)
  }

  ghost predicate IsCore(core: seq<string>) {
    |core| == 3 && forall i :: 0 <= i < 3 ==> IsNumeral(core[i])
  }

  ghost predicate OptionalDotted(part: Option<string>) { part.Some? ==> DottedRegex(part.value) }

  // The whole expression, with its groups: core, then `-` pre-release, then `+` build.
  ghost predicate Groups(s: string, core: seq<string>, pre: Option<string>, build: Option<string>) {
    && IsCore(core) && OptionalDotted(pre) && OptionalDotted(build)
    && s == Paste(Paste(Join(core), '-', pre), '+', build)
  }

  ghost predicate Matches(s: string) { exists core, pre, build :: Groups(s, core, pre, build) }

  // `$` also matches just before a final newline.
  function Chomp(s: string): string {
    if s != "" && s[|s| - 1] == '\n' then s[..|s| - 1] else s
  }

  ghost predicate RegexAccepts(s: string) { Matches(Chomp(s)) }

  // --- Recognising ------------------------------------------------------------------------

  predicate IsDotted(s: string) {
    var ids := SplitDots(s);
    forall i :: 0 <= i < |ids| ==> IsIdentifier(ids[i])
  }

  predicate IsPlainVersion(s: string) {
    var (main, build) := CutFirst(s, '+');
    var (core, pre) := CutFirst(main, '-');
    var parts := SplitDots(core);
    && (build.Some? ==> IsDotted(build.value)) && (pre.Some? ==> IsDotted(pre.value))
    && |parts| == 3 && IsNumeral(parts[0]) && IsNumeral(parts[1]) && IsNumeral(parts[2])
  }

  predicate ValidateVersion(s: string) { IsPlainVersion(Chomp(s)) }

  lemma IdentifierHasNo(s: string, c: char)
    requires IsIdentifier(s) && !IsIdentChar(c)
    ensures c !in s
  {}

  lemma DottedIsRegex(s: string)
    ensures IsDotted(s) <==> DottedRegex(s)
  {
    JoinSplit(s);
    if DottedRegex(s) {
      var ids: seq<string> :| ids != [] && (forall i :: 0 <= i < |ids| ==> IsIdentifier(ids[i])) && s == Join(ids);
      forall i | 0 <= i < |ids| ensures '.' !in ids[i] { IdentifierHasNo(ids[i], '.'); }
      SplitJoin(ids);
    }
  }

  lemma DottedHasNo(s: string, c: char)
    requires DottedRegex(s) && !IsIdentChar(c) && c != '.'
    ensures c !in s
  {
    var ids: seq<string> :| ids != [] && (forall i :: 0 <= i < |ids| ==> IsIdentifier(ids[i])) && s == Join(ids);
    forall i | 0 <= i < |ids| ensures c !in ids[i] { IdentifierHasNo(ids[i], c); }
    JoinChars(ids, c);
  }

  lemma MainHasNo(core: seq<string>, pre: Option<string>, c: char)
    requires IsCore(core) && OptionalDotted(pre) && !IsIdentChar(c) && c != '.'
    ensures c !in Paste(Join(core), '-', pre)
  {
    JoinChars(core, c);
    if pre.Some? { DottedHasNo(pre.value, c); }
  }

  lemma GroupsHaveNo(s: string, core: seq<string>, pre: Option<string>, build: Option<string>, c: char)
    requires Groups(s, core, pre, build) && !IsIdentChar(c) && c != '.' && c != '+'
    ensures c !in s
  {
    MainHasNo(core, pre, c);
    if build.Some? { DottedHasNo(build.value, c); }
  }

  // The groups of a matching text are where the splits look for them.
  lemma GroupsAreCuts(s: string, core: seq<string>, pre: Option<string>, build: Option<string>)
    requires Groups(s, core, pre, build)
    ensures CutFirst(s, '+') == (Paste(Join(core), '-', pre), build)
    ensures CutFirst(Paste(Join(core), '-', pre), '-') == (Join(core), pre)
    ensures SplitDots(Join(core)) == core
  {
    MainHasNo(core, pre, '+');
    JoinChars(core, '-');
    CutPaste(Paste(Join(core), '-', pre), '+', build);
    CutPaste(Join(core), '-', pre);
    SplitJoin(core);
  }

  lemma MatchIsPlain(s: string, core: seq<string>, pre: Option<string>, build: Option<string>)
    requires Groups(s, core, pre, build)
    ensures IsPlainVersion(s)
  {
    GroupsAreCuts(s, core, pre, build);
    if pre.Some? { DottedIsRegex(pre.value); }
    if build.Some? { DottedIsRegex(build.value); }
  }

  lemma PlainMatches(s: string)
    requires IsPlainVersion(s)
    ensures Matches(s)
  {
    var (main, build) := CutFirst(s, '+');
    var (core, pre) := CutFirst(main, '-');
    if build.Some? { DottedIsRegex(build.value); }
    if pre.Some? { DottedIsRegex(pre.value); }
    JoinSplit(core);
    PasteCut(s, '+');
    PasteCut(main, '-');
    assert Groups(s, SplitDots(core), pre, build);
  }

  // The recogniser accepts exactly what the regular expression accepts.
  lemma RecogniserIsRegex(s: string)
    ensures ValidateVersion(s) <==> RegexAccepts(s)
  {
    var t := Chomp(s);
    if core, pre, build :| Groups(t, core, pre, build) {
      MatchIsPlain(t, core, pre, build);
    }
    if IsPlainVersion(t) { PlainMatches(t); }
  }

  // --- Reading the release ------------------------------------------------------------------

  // `int(part)`: surrounding white space, here a final newline, is ignored.
  function PyInt(part: string): nat
    requires IsNumeral(Chomp(part))
  {
    StringToNat(Chomp(part))
  }

  function ReleaseParts(s: string): Result<Release, Error> {
    if !ValidateVersion(s) then Err(InvalidVersion)
    else
      CoreOfValid(s);
      var core := SplitDots(CoreText(s));
      Ok(Release(PyInt(core[0]), PyInt(core[1]), PyInt(core[2])))
  }

  // A final newline stays on the last part it follows.
  lemma HeadKeepsNewline(t: string, c: char)
    requires c != '\n'
    ensures Head(t + "\n", c) == if c in t then Head(t, c) else t + "\n"
  {
    if c in t {
      var i := IndexOf(t, c);
      assert t + "\n" == t[..i] + [c] + (t[i + 1..] + "\n");
      HeadOf(t[..i], c, t[i + 1..] + "\n");
    } else {
      HeadOf(t + "\n", c, "");
    }
  }

  lemma ChompNewline(t: string)
    ensures Chomp(t + "\n") == t
  {}

  lemma NumeralChomps(n: string)
    requires IsNumeral(n)
    ensures Chomp(n) == n && '.' !in n && '\n' !in n
  {}

  ghost predicate ReadsAs(parts: seq<string>, core: seq<string>)
    requires |core| == 3
  {
    |parts| == 3 && Chomp(parts[0]) == core[0] && Chomp(parts[1]) == core[1] && Chomp(parts[2]) == core[2]
  }

  lemma CoreReadsAsItself(core: seq<string>)
    requires IsCore(core)
    ensures ReadsAs(SplitDots(Join(core)), core)
  {
    SplitJoin(core);
    NumeralChomps(core[0]);
    NumeralChomps(core[1]);
    NumeralChomps(core[2]);
  }

  lemma CoreReadsWithNewline(core: seq<string>)
    requires IsCore(core)
    ensures ReadsAs(SplitDots(Join(core) + "\n"), core)
  {
    NumeralChomps(core[0]);
    NumeralChomps(core[1]);
    NumeralChomps(core[2]);
    var last := [core[0], core[1], core[2] + "\n"];
    assert core == [core[0], core[1], core[2]];
    JoinThree(core[0], core[1], core[2]);
    JoinThree(core[0], core[1], core[2] + "\n");
    assert Join(core) + "\n" == Join(last);
    SplitJoin(last);
    ChompNewline(core[2]);
  }

  // What stands before the first plus sign, and of that what stands before the first hyphen.
  function CoreText(s: string): string { Head(Head(s, '+'), '-') }

  lemma CoreTextWithNewline(t: string)
    ensures CoreText(t + "\n") == CoreText(t) || CoreText(t + "\n") == CoreText(t) + "\n"
  {
    HeadKeepsNewline(t, '+');
    if '+' !in t {
      HeadOf(t, '+', "");
      HeadKeepsNewline(t, '-');
      if '-' !in t { HeadOf(t, '-', ""); }
    }
  }

  lemma CoreTextPasted(core: string, pre: Option<string>, build: Option<string>)
    requires '-' !in core && '+' !in Paste(core, '-', pre)
    ensures CoreText(Paste(Paste(core, '-', pre), '+', build)) == core
  {
    CutPaste(Paste(core, '-', pre), '+', build);
    CutPaste(core, '-', pre);
  }

  lemma ChompCases(s: string)
    ensures s == Chomp(s) || s == Chomp(s) + "\n"
  {}

  lemma CoreTextOfMatch(s: string, core: seq<string>, pre: Option<string>, build: Option<string>)
    requires Groups(Chomp(s), core, pre, build)
    ensures CoreText(s) == Join(core) || CoreText(s) == Join(core) + "\n"
  {
    MainHasNo(core, pre, '+');
    JoinChars(core, '-');
    CoreTextPasted(Join(core), pre, build);
    CoreTextWithNewline(Chomp(s));
    ChompCases(s);
  }

  lemma CoreOfMatch(s: string, core: seq<string>, pre: Option<string>, build: Option<string>)
    requires Groups(Chomp(s), core, pre, build)
    ensures ReadsAs(SplitDots(CoreText(s)), core)
  {
    CoreTextOfMatch(s, core, pre, build);
    if CoreText(s) == Join(core) {
      CoreReadsAsItself(core);
    } else {
      CoreReadsWithNewline(core);
    }
  }

  lemma JoinThree(a: string, b: string, c: string)
    ensures Join([a, b, c]) == a + ['.'] + (b + ['.'] + c)
  {
    assert [a, b, c][1..] == [b, c] && [b, c][1..] == [c];
    assert Join([c]) == c;
    assert Join([b, c]) == b + ['.'] + c;
  }

  lemma CoreOfValid(s: string)
    requires ValidateVersion(s)
    ensures var core := SplitDots(CoreText(s));
      |core| == 3 && IsNumeral(Chomp(core[0])) && IsNumeral(Chomp(core[1])) && IsNumeral(Chomp(core[2]))
  {
    RecogniserIsRegex(s);
    var core, pre, build :| Groups(Chomp(s), core, pre, build);
    CoreOfMatch(s, core, pre, build);
  }

  // --- Printing and bumping ---------------------------------------------------------------

  function Print(r: Release): string {
    NatToString(r.major) + ['.'] + (NatToString(r.minor) + ['.'] + NatToString(r.patch))
  }

  // Reading a printed release, with or without a suffix and a final newline, gives it back.
  lemma ParsePrinted(r: Release, pre: Option<string>, build: Option<string>, newline: bool)
    requires OptionalDotted(pre) && OptionalDotted(build)
    ensures var s := Paste(Paste(Print(r), '-', pre), '+', build);
      var text := if newline then s + "\n" else s;
      ValidateVersion(text) && ReleaseParts(text) == Ok(r)
  {
    var core := [NatToString(r.major), NatToString(r.minor), NatToString(r.patch)];
    PrintIsNumeral(r.major);
    PrintIsNumeral(r.minor);
    PrintIsNumeral(r.patch);
    JoinThree(core[0], core[1], core[2]);
    var s := Paste(Paste(Print(r), '-', pre), '+', build);
    assert Groups(s, core, pre, build);
    GroupsHaveNo(s, core, pre, build, '\n');
    ChompNewline(s);
    var text := if newline then s + "\n" else s;
    assert Chomp(text) == s;
    PrintedParts(r, text, core, pre, build);
  }

  lemma PrintedParts(r: Release, text: string, core: seq<string>, pre: Option<string>, build: Option<string>)
    requires core == [NatToString(r.major), NatToString(r.minor), NatToString(r.patch)]
    requires Groups(Chomp(text), core, pre, build)
    ensures ValidateVersion(text) && ReleaseParts(text) == Ok(r)
  {
    MatchIsPlain(Chomp(text), core, pre, build);
    CoreOfMatch(text, core, pre, build);
    ParsePrint(r.major);
    ParsePrint(r.minor);
    ParsePrint(r.patch);
  }

  function BumpMajor(s: string): Result<string, Error> {
    match ReleaseParts(s)
    case Ok(r) => Ok(Print(Release(r.major + 1, 0, 0)))
    case Err(e) => Err(e)
  }

  function BumpMinor(s: string): Result<string, Error> {
    match ReleaseParts(s)
    case Ok(r) => Ok(Print(Release(r.major, r.minor + 1, 0)))
    case Err(e) => Err(e)
  }

  function BumpPatch(s: string): Result<string, Error> {
    match ReleaseParts(s)
    case Ok(r) => Ok(Print(Release(r.major, r.minor, r.patch + 1)))
    case Err(e) => Err(e)
  }

  predicate Before(a: Release, b: Release) {
    a.major < b.major || (a.major == b.major && (a.minor < b.minor || (a.minor == b.minor && a.patch < b.patch)))
  }

  lemma PrintedIsRelease(r: Release)
    ensures ValidateVersion(Print(r)) && ReleaseParts(Print(r)) == Ok(r)
  {
    ParsePrinted(r, None, None, false);
  }

  lemma BumpsAreReleases(s: string)
    requires ValidateVersion(s)
    ensures ReleaseParts(s).Ok? && BumpMajor(s).Ok? && BumpMinor(s).Ok? && BumpPatch(s).Ok?
    ensures var r := ReleaseParts(s).value;
      && ValidateVersion(BumpMajor(s).value) && ReleaseParts(BumpMajor(s).value) == Ok(Release(r.major + 1, 0, 0))
      && ValidateVersion(BumpMinor(s).value) && ReleaseParts(BumpMinor(s).value) == Ok(Release(r.major, r.minor + 1, 0))
      && ValidateVersion(BumpPatch(s).value)
      && ReleaseParts(BumpPatch(s).value) == Ok(Release(r.major, r.minor, r.patch + 1))
  {
    var r := ReleaseParts(s).value;
    PrintedIsRelease(Release(r.major + 1, 0, 0));
    PrintedIsRelease(Release(r.major, r.minor + 1, 0));
    PrintedIsRelease(Release(r.major, r.minor, r.patch + 1));
  }

  // Every bump of a valid version is a valid, strictly later release with the lower parts
  // reset, and no release lies between a version's own and that of its patch bump.
  lemma BumpsMoveForward(s: string)
    requires ValidateVersion(s)
    ensures ReleaseParts(s).Ok? && BumpMajor(s).Ok? && BumpMinor(s).Ok? && BumpPatch(s).Ok?
    ensures ReleaseParts(BumpMajor(s).value).Ok? && ReleaseParts(BumpMinor(s).value).Ok?
      && ReleaseParts(BumpPatch(s).value).Ok?
    ensures var r, major, minor, patch := ReleaseParts(s).value, ReleaseParts(BumpMajor(s).value).value,
                                          ReleaseParts(BumpMinor(s).value).value,
                                          ReleaseParts(BumpPatch(s).value).value;
      && Before(r, patch) && Before(patch, minor) && Before(minor, major)
      && (minor.patch == 0 && major.patch == 0 && major.minor == 0)
      && forall x :: Before(r, x) ==> x == patch || Before(patch, x)
  {
    BumpsAreReleases(s);
  }

  predicate IsCompatible(original: string, candidate: string) {
    ValidateVersion(original) && ValidateVersion(candidate)
    && ReleaseParts(original).value.major == ReleaseParts(candidate).value.major
  }

  // Minor and patch bumps stay compatible, a major bump never does.
  lemma BumpCompatibility(s: string)
    requires ValidateVersion(s)
    ensures BumpMajor(s).Ok? && BumpMinor(s).Ok? && BumpPatch(s).Ok?
    ensures IsCompatible(s, BumpMinor(s).value) && IsCompatible(s, BumpPatch(s).value)
      && !IsCompatible(s, BumpMajor(s).value)
  {
    BumpsAreReleases(s);
  }

  // --- Immutable keys --------------------------------------------------------------------------

  function ImmutableKey(identity: string, version: string): Result<string, Error> {
    if identity == "" then Err(EmptyIdentity)
    else if !ValidateVersion(version) then Err(InvalidVersion)
    else Ok(identity + ['@'] + version)
  }

  lemma ChompKeeps(s: string, c: char)
    requires c != '\n' && c !in Chomp(s)
    ensures c !in s
  {
    assert s == Chomp(s) || s == Chomp(s) + ['\n'];
  }

  lemma ValidHasNoAt(s: string)
    requires ValidateVersion(s)
    ensures '@' !in s
  {
    RecogniserIsRegex(s);
    var core, pre, build :| Groups(Chomp(s), core, pre, build);
    GroupsHaveNo(Chomp(s), core, pre, build, '@');
    ChompKeeps(s, '@');
  }

  // A key determines its identity and its version, even when the identity contains '@'.
  lemma KeysAreInjective(identity: string, version: string, identity': string, version': string)
    requires ImmutableKey(identity, version).Ok? && ImmutableKey(identity, version) == ImmutableKey(identity', version')
    ensures identity == identity' && version == version'
  {
    ValidHasNoAt(version);
    ValidHasNoAt(version');
    LastSplitUnique(identity, version, identity', version', '@');
  }
}
