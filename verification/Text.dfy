/** Strings as the runtime uses them: Python's ordering, decimal numerals and separators. */
module Text {

  // Python compares strings by code point, first difference first.
  predicate StrLe(a: string, b: string) {
    a == "" || (b != "" && (a[0] < b[0] || (a[0] == b[0] && StrLe(a[1..], b[1..]))))
  }

  lemma {:induction false} StrLeTotal(a: string, b: string)
    ensures StrLe(a, b) || StrLe(b, a)
  {
    if a != "" && b != "" { StrLeTotal(a[1..], b[1..]); }
  }

  lemma {:induction false} StrLeTransitive(a: string, b: string, c: string)
    requires StrLe(a, b) && StrLe(b, c)
    ensures StrLe(a, c)
  {
    if a != "" && a[0] == b[0] == c[0] { StrLeTransitive(a[1..], b[1..], c[1..]); }
  }

  lemma {:induction false} StrLeAntisymmetric(a: string, b: string)
    requires StrLe(a, b) && StrLe(b, a)
    ensures a == b
  {
    if a != "" {
      StrLeAntisymmetric(a[1..], b[1..]);
      assert a == [a[0]] + a[1..] && b == [b[0]] + b[1..];
    }
  }

  // The characters `str.strip` removes; it leaves nothing of a blank text.
  predicate IsSpace(c: char) {
    var n := c as int;
    9 <= n <= 13 || 28 <= n <= 32 || n == 133 || n == 160 || n == 5760 || 8192 <= n <= 8202
    || n == 8232 || n == 8233 || n == 8239 || n == 8287 || n == 12288
  }

  predicate Blank(s: string) { forall i :: 0 <= i < |s| ==> IsSpace(s[i]) }

  // Every text once, where it is first mentioned.
  function FirstMentions(texts: seq<string>): seq<string> {
    if texts == [] then []
    else
      var t := texts[|texts| - 1];
      FirstMentions(texts[..|texts| - 1]) + if t in texts[..|texts| - 1] then [] else [t]
  }

  lemma FirstMentionsGrow(texts: seq<string>, t: string)
    ensures FirstMentions(texts + [t]) == if t in texts then FirstMentions(texts) else FirstMentions(texts) + [t]
  {
    assert (texts + [t])[..|texts|] == texts;
  }

  lemma {:induction false} FirstMentionsAre(texts: seq<string>)
    ensures forall t :: t in FirstMentions(texts) <==> t in texts
    ensures forall i, j :: 0 <= i < j < |FirstMentions(texts)| ==> FirstMentions(texts)[i] != FirstMentions(texts)[j]
  {
    if texts != [] {
      var t := texts[|texts| - 1];
      FirstMentionsAre(texts[..|texts| - 1]);
      assert forall x :: x in texts <==> x in texts[..|texts| - 1] || x == t;
    }
  }

  predicate IsDigit(c: char) { '0' <= c <= '9' }

  predicate AllDigits(s: string) { forall i :: 0 <= i < |s| ==> IsDigit(s[i]) }

  // `0|[1-9][0-9]*`
  predicate IsNumeral(s: string) {
    s != "" && AllDigits(s) && (s[0] == '0' ==> |s| == 1)
  }

  function DigitChar(d: nat): char requires d < 10 { '0' + d as char }

  function DigitValue(c: char): (d: nat)
    requires IsDigit(c)
    ensures d < 10
  {
    (c - '0') as nat
  }

  function NatToString(n: nat): (s: string) {
    if n < 10 then [DigitChar(n)] else NatToString(n / 10) + [DigitChar(n % 10)]
  }

  // `int(text)` on a run of decimal digits.
  function StringToNat(s: string): nat
    requires AllDigits(s)
  {
    if s == "" then 0 else 10 * StringToNat(s[..|s| - 1]) + DigitValue(s[|s| - 1])
  }

  lemma {:induction false} PrintIsNumeral(n: nat)
    ensures IsNumeral(NatToString(n))
    ensures n > 0 ==> NatToString(n)[0] != '0'
  {
    if n >= 10 { PrintIsNumeral(n / 10); }
  }

  lemma {:induction false} ParsePrint(n: nat)
    ensures AllDigits(NatToString(n)) && StringToNat(NatToString(n)) == n
  {
    PrintIsNumeral(n);
    if n >= 10 {
      PrintIsNumeral(n / 10);
      ParsePrint(n / 10);
      var s := NatToString(n);
      assert s[..|s| - 1] == NatToString(n / 10);
    } else {
      assert NatToString(n)[..0] == "";
      assert StringToNat("") == 0;
    }
  }

  lemma PrintInjective(m: nat, n: nat)
    requires NatToString(m) == NatToString(n)
    ensures m == n
  {
    ParsePrint(m);
    ParsePrint(n);
  }

  function IntToString(n: int): string {
    if n < 0 then "-" + NatToString(-n) else NatToString(n)
  }

  lemma IntPrintInjective(m: int, n: int)
    requires IntToString(m) == IntToString(n)
    ensures m == n
  {
    PrintIsNumeral(if m < 0 then -m else m);
    PrintIsNumeral(if n < 0 then -n else n);
    assert IntToString(m)[0] == '-' <==> m < 0;
    assert IntToString(n)[0] == '-' <==> n < 0;
    if m < 0 {
      assert IntToString(m)[1..] == NatToString(-m) && IntToString(n)[1..] == NatToString(-n);
      PrintInjective(-m, -n);
    } else {
      PrintInjective(m, n);
    }
  }

  lemma IntPrintHasNoSeparator(n: int, c: char)
    requires !IsDigit(c) && c != '-'
    ensures c !in IntToString(n)
  {
    PrintIsNumeral(if n < 0 then -n else n);
  }

  // A separator absent from both heads splits a text in one way only.
  lemma FirstSplitUnique(a: string, b: string, c: string, d: string, sep: char)
    requires a + [sep] + b == c + [sep] + d && sep !in a && sep !in c
    ensures a == c && b == d
  {
    var s, t := a + [sep] + b, c + [sep] + d;
    assert s[|a|] == sep && t[|c|] == sep;
    assert forall i :: 0 <= i < |a| ==> s[i] == a[i];
    assert forall i :: 0 <= i < |c| ==> t[i] == c[i];
    assert |a| == |c|;
    assert a == s[..|a|] && c == t[..|c|];
    assert b == s[|a| + 1..] && d == t[|c| + 1..];
  }

  // A separator absent from both tails splits a text in one way only.
  lemma LastSplitUnique(a: string, b: string, c: string, d: string, sep: char)
    requires a + [sep] + b == c + [sep] + d && sep !in b && sep !in d
    ensures a == c && b == d
  {
    var s, t := a + [sep] + b, c + [sep] + d;
    assert s[|a|] == sep && t[|c|] == sep;
    assert forall i :: |a| < i < |s| ==> s[i] == b[i - |a| - 1];
    assert forall i :: |c| < i < |t| ==> t[i] == d[i - |c| - 1];
    assert |a| == |c|;
    assert a == s[..|a|] && c == t[..|c|];
    assert b == s[|a| + 1..] && d == t[|c| + 1..];
  }
}
