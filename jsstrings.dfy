/**
 * JavaScript strings as the reader's code sees them: sequences of UTF-16
 * code units. `length`, `charCodeAt`, `trim`, the regular-expression
 * classes `\s`, `\d`, `[a-zA-Z]` and ASCII lower-casing are defined here
 * once and shared by every other module.
 */
module JsStrings {

  /** One UTF-16 code unit, the element of a JavaScript string. */
  newtype CodeUnit = x: int | 0 <= x < 0x1_0000

  type JsString = seq<CodeUnit>

  const LF: CodeUnit := 0x0A
  const CR: CodeUnit := 0x0D
  const SPACE: CodeUnit := 0x20
  const HYPHEN: CodeUnit := 0x2D

  /** The code unit of a character of a source literal (all literals used are ASCII). */
  function Unit(c: char): CodeUnit
  {
    if (c as int) < 0x1_0000 then (c as int) as CodeUnit else 0xFFFD
  }

  /** A string literal of the source, as code units. */
  function Lit(s: string): (r: JsString)
    ensures |r| == |s|
  {
    seq(|s|, i requires 0 <= i < |s| => Unit(s[i]))
  }

  /** `\s`, and what `trim` removes: WhiteSpace and LineTerminator of ECMAScript. */
  predicate IsWhitespace(u: CodeUnit)
  {
    || u == 0x09 || u == 0x0A || u == 0x0B || u == 0x0C || u == 0x0D || u == 0x20
    || u == 0xA0 || u == 0x1680 || (0x2000 <= u <= 0x200A)
    || u == 0x2028 || u == 0x2029 || u == 0x202F || u == 0x205F || u == 0x3000 || u == 0xFEFF
  }

  /** `\d` (without the `u` flag): the ASCII digits. */
  predicate IsDigit(u: CodeUnit)
  {
    0x30 <= u <= 0x39
  }

  /** `[a-zA-Z]`. */
  predicate IsAsciiLetter(u: CodeUnit)
  {
    (0x41 <= u <= 0x5A) || (0x61 <= u <= 0x7A)
  }

  predicate IsBlank(s: JsString)
  {
    forall i :: 0 <= i < |s| ==> IsWhitespace(s[i])
  }

  /** `/[a-zA-Z]/.test(s)`. */
  predicate HasAsciiLetter(s: JsString)
  {
    exists i :: 0 <= i < |s| && IsAsciiLetter(s[i])
  }

  /** Neither end of `s` is whitespace: what `trim` guarantees. */
  predicate IsTrimmed(s: JsString)
  {
    |s| > 0 ==> !IsWhitespace(s[0]) && !IsWhitespace(s[|s| - 1])
  }

  /** Drops the leading whitespace of `s` (`trimStart`). */
  function TrimStart(s: JsString): (r: JsString)
    ensures |r| <= |s|
  {
    if |s| > 0 && IsWhitespace(s[0]) then TrimStart(s[1..]) else s
  }

  /** `trimStart` keeps a suffix and removes only whitespace, up to the first other unit. */
  lemma {:induction false} TrimStartFacts(s: JsString)
    ensures var r := TrimStart(s);
      && r == s[|s| - |r|..]
      && IsBlank(s[..|s| - |r|])
      && (|r| > 0 ==> !IsWhitespace(r[0]))
      && (r == [] <==> IsBlank(s))
    decreases |s|
  {
    if |s| > 0 && IsWhitespace(s[0]) {
      var r := TrimStart(s[1..]);
      TrimStartFacts(s[1..]);
      assert s[1..][|s| - 1 - |r|..] == s[|s| - |r|..];
      assert s[..|s| - |r|] == [s[0]] + s[1..][..|s| - 1 - |r|];
      if IsBlank(s[1..]) {
        assert forall i :: 1 <= i < |s| ==> s[i] == s[1..][i - 1];
      }
    }
  }

  /** Drops the trailing whitespace of `s` (`trimEnd`). */
  function TrimEnd(s: JsString): (r: JsString)
    ensures |r| <= |s|
  {
    if |s| > 0 && IsWhitespace(s[|s| - 1]) then TrimEnd(s[..|s| - 1]) else s
  }

  /** `trimEnd` keeps a prefix and removes only whitespace, back to the last other unit. */
  lemma {:induction false} TrimEndFacts(s: JsString)
    ensures var r := TrimEnd(s);
      && r == s[..|r|]
      && IsBlank(s[|r|..])
      && (|r| > 0 ==> !IsWhitespace(r[|r| - 1]))
      && (r == [] <==> IsBlank(s))
    decreases |s|
  {
    if |s| > 0 && IsWhitespace(s[|s| - 1]) {
      var r := TrimEnd(s[..|s| - 1]);
      TrimEndFacts(s[..|s| - 1]);
      assert s[..|s| - 1][..|r|] == s[..|r|];
      assert forall i :: |r| <= i < |s| - 1 ==> s[i] == s[..|s| - 1][i];
    }
  }

  /** `s.trim()`: the slice of `s` between its leading and trailing whitespace. */
  function Trim(s: JsString): (r: JsString)
    ensures IsTrimmed(r)
    ensures |r| <= |s|
    ensures r == [] <==> IsBlank(s)
  {
    TrimStartFacts(s);
    TrimEndFacts(TrimStart(s));
    TrimEnd(TrimStart(s))
  }

  /** `trim` removes units from both ends and keeps the rest in order. */
  lemma TrimSlice(s: JsString)
    ensures var a := |s| - |TrimStart(s)|;
      a + |Trim(s)| <= |s| && Trim(s) == s[a..a + |Trim(s)|]
  {
    TrimStartFacts(s);
    TrimEndFacts(TrimStart(s));
  }

  /** Every unit of `trim(s)` is a unit of `s`. */
  lemma TrimMembers(s: JsString)
    ensures forall i :: 0 <= i < |Trim(s)| ==> Trim(s)[i] in s
  {
    TrimSlice(s);
    var a := |s| - |TrimStart(s)|;
    assert forall i :: 0 <= i < |Trim(s)| ==> Trim(s)[i] == s[a + i];
  }

  /** A trimmed string is its own trim. */
  lemma TrimOfTrimmed(s: JsString)
    requires IsTrimmed(s)
    ensures Trim(s) == s
  {
  }

  /** `trim` is idempotent. */
  lemma TrimIdempotent(s: JsString)
    ensures Trim(Trim(s)) == Trim(s)
  {
    TrimOfTrimmed(Trim(s));
  }

  /** A string holding an ASCII letter does not trim to the empty string. */
  lemma LetterSurvivesTrim(s: JsString)
    requires HasAsciiLetter(s)
    ensures Trim(s) != []
  {
    var i :| 0 <= i < |s| && IsAsciiLetter(s[i]);
    assert !IsWhitespace(s[i]);
  }

  /** The ASCII lower-case of one code unit; every other unit is unchanged. */
  function LowerUnit(u: CodeUnit): (r: CodeUnit)
    ensures 0x41 <= u <= 0x5A ==> r == u + 0x20
    ensures !(0x41 <= u <= 0x5A) ==> r == u
  {
    if 0x41 <= u <= 0x5A then u + 0x20 else u
  }

  /** `toLowerCase`, restricted to the ASCII letters. */
  function ToLowerAscii(s: JsString): (r: JsString)
    ensures |r| == |s|
    ensures forall i :: 0 <= i < |s| ==> r[i] == LowerUnit(s[i])
  {
    seq(|s|, i requires 0 <= i < |s| => LowerUnit(s[i]))
  }

  /** Left-to-right concatenation of a list of strings. */
  function Concat(ss: seq<JsString>): JsString
  {
    if ss == [] then [] else Concat(ss[..|ss| - 1]) + ss[|ss| - 1]
  }

  lemma {:induction false} ConcatAppend(ss: seq<JsString>, tt: seq<JsString>)
    ensures Concat(ss + tt) == Concat(ss) + Concat(tt)
    decreases |tt|
  {
    if tt == [] {
      assert ss + tt == ss;
    } else {
      var tt0 := tt[..|tt| - 1];
      var last := tt[|tt| - 1];
      assert (ss + tt)[..|ss + tt| - 1] == ss + tt0;
      assert (ss + tt)[|ss + tt| - 1] == last;
      ConcatAppend(ss, tt0);
      assert Concat(ss + tt) == Concat(ss + tt0) + last;
      assert Concat(tt) == Concat(tt0) + last;
    }
  }

  /** `parts.join(sep)`. */
  function JoinWith(sep: JsString, parts: seq<JsString>): JsString
  {
    if |parts| == 0 then []
    else if |parts| == 1 then parts[0]
    else JoinWith(sep, parts[..|parts| - 1]) + sep + parts[|parts| - 1]
  }
}
