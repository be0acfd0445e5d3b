// The few Python `str` operations the scanner, the cache and the views rely
// on: strip(), lower(), startswith(), `in`, str(int), ":".join(...), split and
// the `a or b` fallback between optional texts.

module Text {
  import opened Wrappers

  /** Python's str.isspace() on the ASCII range: space, \t \n \v \f \r and the separators 0x1C-0x1F. */
  predicate IsSpace(c: char) {
    c == ' ' || ('\t' <= c <= '\r') || ('\U{1C}' <= c <= '\U{1F}')
  }

  function TrimStart(s: string): (r: string)
    ensures |r| <= |s| && r == s[|s| - |r|..]
    ensures r == [] || !IsSpace(r[0])
    ensures forall i :: 0 <= i < |s| - |r| ==> IsSpace(s[i])
  {
    if s != [] && IsSpace(s[0]) then TrimStart(s[1..]) else s
  }

  function TrimEnd(s: string): (r: string)
    ensures |r| <= |s| && r == s[..|r|]
    ensures r == [] || !IsSpace(r[|r| - 1])
    ensures forall i :: |r| <= i < |s| ==> IsSpace(s[i])
  {
    if s != [] && IsSpace(s[|s| - 1]) then TrimEnd(s[..|s| - 1]) else s
  }

  /** Python's s.strip(): no leading and no trailing whitespace is left. */
  function Strip(s: string): (r: string)
    ensures |r| <= |s|
    ensures r == [] || (!IsSpace(r[0]) && !IsSpace(r[|r| - 1]))
  {
    TrimEnd(TrimStart(s))
  }

  lemma StripIdempotent(s: string)
    ensures Strip(Strip(s)) == Strip(s)
  {
    var r := Strip(s);
    assert TrimStart(r) == r;
    assert TrimEnd(r) == r;
  }

  /** Text without edge whitespace is its own strip. */
  lemma StripUnchanged(s: string)
    requires s != [] && !IsSpace(s[0]) && !IsSpace(s[|s| - 1])
    ensures Strip(s) == s
  {
  }

  predicate IsBlank(s: string) {
    forall i :: 0 <= i < |s| ==> IsSpace(s[i])
  }

  lemma {:induction false} TrimStartPadding(pad: string, t: string)
    requires IsBlank(pad)
    ensures TrimStart(pad + t) == TrimStart(t)
  {
    if pad != [] {
      assert (pad + t)[0] == pad[0];
      assert (pad + t)[1..] == pad[1..] + t;
      TrimStartPadding(pad[1..], t);
    } else {
      assert pad + t == t;
    }
  }

  lemma {:induction false} TrimEndPadding(t: string, pad: string)
    requires IsBlank(pad)
    ensures TrimEnd(t + pad) == TrimEnd(t)
  {
    if pad != [] {
      var u := t + pad;
      assert IsSpace(u[|u| - 1]);
      assert u[..|u| - 1] == t + pad[..|pad| - 1];
      TrimEndPadding(t, pad[..|pad| - 1]);
    } else {
      assert t + pad == t;
    }
  }

  /** Whitespace around a text does not survive strip(). */
  lemma StripIgnoresPadding(pad1: string, t: string, pad2: string)
    requires IsBlank(pad1) && IsBlank(pad2)
    ensures Strip(pad1 + t + pad2) == Strip(t)
  {
    if IsBlank(t) {
      StripBlank(t);
      StripBlank(pad1 + t + pad2);
    } else {
      TrimStartPadding(pad1, t + pad2);
      assert pad1 + t + pad2 == pad1 + (t + pad2);
      var u := TrimStart(t);
      TrimStartKeepsTail(t, pad2);
      TrimEndPadding(u, pad2);
    }
  }

  lemma {:induction false} TrimStartKeepsTail(t: string, tail: string)
    requires TrimStart(t) != []
    ensures TrimStart(t + tail) == TrimStart(t) + tail
  {
    assert t != [] && (t + tail)[0] == t[0];
    if IsSpace(t[0]) {
      assert TrimStart(t) == TrimStart(t[1..]);
      assert (t + tail)[1..] == t[1..] + tail;
      TrimStartKeepsTail(t[1..], tail);
    } else {
      assert TrimStart(t) == t;
    }
  }

  /** A blank text strips to nothing. */
  lemma {:induction false} StripBlank(s: string)
    requires IsBlank(s)
    ensures Strip(s) == []
  {
    if s != [] {
      StripBlank(s[1..]);
    }
  }

  predicate IsUpper(c: char) { 'A' <= c <= 'Z' }

  predicate IsAsciiLetter(c: char) { 'A' <= c <= 'Z' || 'a' <= c <= 'z' }

  function LowerChar(c: char): (d: char)
    ensures !IsUpper(d)
    ensures !IsUpper(c) ==> d == c
    ensures IsAsciiLetter(c) <==> IsAsciiLetter(d)
  {
    if IsUpper(c) then (c as int + 32) as char else c
  }

  /** Python's s.lower() on ASCII letters; every other character is kept. */
  function Lower(s: string): (r: string)
    ensures |r| == |s|
    ensures forall i :: 0 <= i < |s| ==> r[i] == LowerChar(s[i])
  {
    if s == [] then [] else [LowerChar(s[0])] + Lower(s[1..])
  }

  lemma LowerIdempotent(s: string)
    ensures Lower(Lower(s)) == Lower(s)
  {
  }

  /** Text without capitals is its own lower-case form. */
  lemma LowerUnchanged(s: string)
    requires forall i :: 0 <= i < |s| ==> !IsUpper(s[i])
    ensures Lower(s) == s
  {
  }

  predicate StartsWith(s: string, prefix: string) {
    |prefix| <= |s| && s[..|prefix|] == prefix
  }

  /** Python's `sub in s` on strings. */
  predicate Contains(s: string, sub: string) {
    StartsWith(s, sub) || (s != [] && Contains(s[1..], sub))
  }

  /** Every occurrence of `from` replaced by `to`, like s.replace(from, to) on single characters. */
  function ReplaceChar(s: string, from: char, to: char): (r: string)
    ensures |r| == |s|
    ensures forall i :: 0 <= i < |s| ==> r[i] == (if s[i] == from then to else s[i])
  {
    if s == [] then [] else [if s[0] == from then to else s[0]] + ReplaceChar(s[1..], from, to)
  }

  predicate IsDigit(c: char) { '0' <= c <= '9' }

  predicate AllDigits(s: string) { forall i :: 0 <= i < |s| ==> IsDigit(s[i]) }

  function DigitChar(d: nat): (c: char)
    requires d < 10
    ensures IsDigit(c) && c as int - '0' as int == d
  {
    ('0' as int + d) as char
  }

  /** Python's str(n) for a non-negative integer: decimal digits, no leading zero. */
  function NatToString(n: nat): (r: string)
    ensures |r| >= 1 && AllDigits(r)
    ensures |r| > 1 ==> r[0] != '0'
  {
    if n < 10 then [DigitChar(n)] else NatToString(n / 10) + [DigitChar(n % 10)]
  }

  /** The value of a string of decimal digits (what int(s) gives for such a string). */
  function ParseDigits(s: string): int
  {
    if s == [] then 0 else 10 * ParseDigits(s[..|s| - 1]) + (s[|s| - 1] as int - '0' as int)
  }

  lemma {:induction false} ParseNatToString(n: nat)
    ensures ParseDigits(NatToString(n)) == n
  {
    if n >= 10 {
      ParseNatToString(n / 10);
      var s := NatToString(n);
      assert s[..|s| - 1] == NatToString(n / 10);
    }
  }

  lemma NatToStringInjective(a: nat, b: nat)
    requires NatToString(a) == NatToString(b)
    ensures a == b
  {
    ParseNatToString(a);
    ParseNatToString(b);
  }

  /**
   * The digits int() accepts in base 10: at least one digit, and each "_" stands
   * between two digits.
   */
  predicate DigitRun(s: string) {
    |s| >= 1 && IsDigit(s[0]) && forall i :: 0 <= i < |s| ==> DigitOrJoin(s, i)
  }

  predicate DigitOrJoin(s: string, i: nat)
    requires i < |s|
  {
    IsDigit(s[i]) || (s[i] == '_' && i + 1 < |s| && IsDigit(s[i + 1]))
  }

  function RemoveUnderscores(s: string): (r: string)
    ensures |r| <= |s|
  {
    if s == [] then [] else (if s[0] == '_' then [] else [s[0]]) + RemoveUnderscores(s[1..])
  }

  /** int() on text that is already stripped: an optional sign, then a run of digits. */
  function PyIntStripped(t: string): (r: Option<int>)
    ensures r.Some? ==> t != [] && (IsDigit(t[0]) || t[0] == '+' || t[0] == '-')
  {
    var signed := t != [] && (t[0] == '+' || t[0] == '-');
    var digits := if signed then t[1..] else t;
    if !DigitRun(digits) then None
    else
      var n := ParseDigits(RemoveUnderscores(digits));
      Some(if signed && t[0] == '-' then -n else n)
  }

  /**
   * Python's int(s) on a str: surrounding whitespace is ignored, then an optional sign
   * and a run of digits; None where int() raises ValueError, as on blank text.
   */
  function PyInt(s: string): (r: Option<int>)
    ensures r.Some? ==> Strip(s) != []
  {
    PyIntStripped(Strip(s))
  }

  /** A digit string has no underscores to remove. */
  lemma {:induction false} RemoveUnderscoresDigits(s: string)
    requires AllDigits(s)
    ensures RemoveUnderscores(s) == s
  {
    if s != [] {
      assert AllDigits(s[1..]) by {
        forall i | 0 <= i < |s[1..]| ensures IsDigit(s[1..][i]) { assert s[1..][i] == s[i + 1]; }
      }
      RemoveUnderscoresDigits(s[1..]);
    }
  }

  /** A non-empty digit string is a run of digits, and its own value. */
  lemma DigitsRead(d: string)
    requires d != [] && AllDigits(d)
    ensures DigitRun(d) && ParseDigits(RemoveUnderscores(d)) == ParseDigits(d)
  {
    RemoveUnderscoresDigits(d);
  }

  /** str(n) read back with int() gives n. */
  lemma PyIntOfString(n: nat)
    ensures PyInt(NatToString(n)) == Some(n)
  {
    var d := NatToString(n);
    StripUnchanged(d);
    DigitsRead(d);
    ParseNatToString(n);
    assert PyIntStripped(d) == Some(ParseDigits(d));
  }

  /** "-" + str(n) read back with int() gives -n. */
  lemma PyIntOfNegative(n: nat)
    ensures PyInt("-" + NatToString(n)) == Some(-(n as int))
  {
    var d := NatToString(n);
    var t := "-" + d;
    assert t[0] == '-' && t[1..] == d && t[|t| - 1] == d[|d| - 1];
    StripUnchanged(t);
    DigitsRead(d);
    ParseNatToString(n);
    assert PyIntStripped(t) == Some(-ParseDigits(d));
  }

  /** Whitespace around the number changes nothing. */
  lemma PyIntIgnoresPadding(pad1: string, t: string, pad2: string)
    requires IsBlank(pad1) && IsBlank(pad2)
    ensures PyInt(pad1 + t + pad2) == PyInt(t)
  {
    StripIgnoresPadding(pad1, t, pad2);
  }

  /** A character of `s` that is not whitespace survives strip(). */
  lemma StripKeepsInner(s: string, i: nat)
    requires i < |s| && !IsSpace(s[i])
    ensures s[i] in Strip(s)
  {
    var t := TrimStart(s);
    var j := i - (|s| - |t|);
    assert |s| - |t| <= i;
    assert t[j] == s[i];
    var u := TrimEnd(t);
    assert j < |u|;
    assert u[j] == t[j];
  }

  /**
   * int() raises on any text holding a character that is not whitespace, a digit,
   * a sign or "_": "abc", "1.5" and "10px" are refused.
   */
  lemma PyIntRejects(s: string, i: nat)
    requires i < |s| && !IsSpace(s[i]) && !IsDigit(s[i]) && s[i] !in {'+', '-', '_'}
    ensures PyInt(s) == None
  {
    StripKeepsInner(s, i);
    var t := Strip(s);
    var k :| 0 <= k < |t| && t[k] == s[i];
    var signed := t != [] && (t[0] == '+' || t[0] == '-');
    var digits := if signed then t[1..] else t;
    assert s[i] != '+' && s[i] != '-' && s[i] != '_';
    var m := if signed then k - 1 else k;
    assert 0 <= m < |digits| && digits[m] == s[i];
    NotDigitRun(digits, m);
    assert PyIntStripped(t) == None;
  }

  /** A character that is neither a digit nor "_" breaks a run of digits. */
  lemma NotDigitRun(d: string, m: nat)
    requires m < |d| && !IsDigit(d[m]) && d[m] != '_'
    ensures !DigitRun(d)
  {
    assert !DigitOrJoin(d, m);
  }

  /** sep.join(parts) */
  function Join(parts: seq<string>, sep: char): string
  {
    if |parts| == 0 then []
    else if |parts| == 1 then parts[0]
    else parts[0] + [sep] + Join(parts[1..], sep)
  }

  /** s.split(sep): the pieces between separators, empty pieces included. */
  function Split(s: string, sep: char): (r: seq<string>)
    ensures |r| >= 1
    ensures forall i :: 0 <= i < |r| ==> sep !in r[i]
  {
    if s == [] then [[]]
    else if s[0] == sep then [[]] + Split(s[1..], sep)
    else var t := Split(s[1..], sep); [[s[0]] + t[0]] + t[1..]
  }

  lemma {:induction false} SplitWithoutSep(p: string, sep: char)
    requires sep !in p
    ensures Split(p, sep) == [p]
  {
    if p != [] {
      assert sep !in p[1..];
      SplitWithoutSep(p[1..], sep);
      assert [p[0]] + p[1..] == p;
    }
  }

  lemma {:induction false} SplitAfterPiece(p: string, sep: char, rest: string)
    requires sep !in p
    ensures Split(p + [sep] + rest, sep) == [p] + Split(rest, sep)
  {
    if p == [] {
      assert p + [sep] + rest == [sep] + rest;
    } else {
      assert sep !in p[1..];
      SplitAfterPiece(p[1..], sep, rest);
      assert (p + [sep] + rest)[1..] == p[1..] + [sep] + rest;
      assert [p[0]] + p[1..] == p;
    }
  }

  /** Joining pieces that do not contain the separator and splitting again gives the pieces back. */
  lemma {:induction false} SplitJoin(parts: seq<string>, sep: char)
    requires |parts| >= 1
    requires forall i :: 0 <= i < |parts| ==> sep !in parts[i]
    ensures Split(Join(parts, sep), sep) == parts
  {
    if |parts| == 1 {
      SplitWithoutSep(parts[0], sep);
    } else {
      SplitJoin(parts[1..], sep);
      SplitAfterPiece(parts[0], sep, Join(parts[1..], sep));
    }
  }

  /** The separator-free pieces of s, splitting at every character of `seps` (re.split on a character class). */
  function SplitAny(s: string, seps: set<char>): (r: seq<string>)
    ensures |r| >= 1
    ensures forall i, j :: 0 <= i < |r| && 0 <= j < |r[i]| ==> r[i][j] in s && r[i][j] !in seps
  {
    if s == [] then [[]]
    else if s[0] in seps then [[]] + SplitAny(s[1..], seps)
    else var t := SplitAny(s[1..], seps); [[s[0]] + t[0]] + t[1..]
  }

  /** Python's `a or b` on optional text: an absent or empty value falls through. */
  function OrText(a: Option<string>, b: string): (r: string)
    ensures a.Some? && a.value != [] ==> r == a.value
    ensures a.None? || a.value == [] ==> r == b
  {
    if a.Some? && a.value != [] then a.value else b
  }

  /** A character that is not the separator and occurs in no piece does not occur in the joined text. */
  lemma {:induction false} JoinAvoids(parts: seq<string>, sep: char, c: char)
    requires c != sep
    requires forall i :: 0 <= i < |parts| ==> c !in parts[i]
    ensures c !in Join(parts, sep)
  {
    if |parts| > 1 {
      JoinAvoids(parts[1..], sep, c);
    }
  }

  /** Text with a non-blank character does not strip to nothing. */
  lemma StripNonBlank(s: string, i: nat)
    requires i < |s| && !IsSpace(s[i])
    ensures Strip(s) != []
  {
    var t := TrimStart(s);
    assert |s| - |t| <= i;
    assert t[i - (|s| - |t|)] == s[i];
  }
}
