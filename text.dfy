/**
 * String helpers standing for the JavaScript string operations the reporting layer uses:
 * character classes of its regular expressions, lower-casing, `includes`, `startsWith`,
 * number-to-decimal conversion, `padStart`, `substring`, `split(...)[0]`, `split(...).pop()`
 * and single-occurrence `replace`. Strings are sequences of Unicode scalar values.
 */
module Text {
  import opened Wrappers

  predicate IsAsciiLetter(c: char) { 'a' <= c <= 'z' || 'A' <= c <= 'Z' }
  predicate IsAsciiDigit(c: char) { '0' <= c <= '9' }
  predicate IsAsciiAlnum(c: char) { IsAsciiLetter(c) || IsAsciiDigit(c) }
  predicate IsLowerAlnum(c: char) { 'a' <= c <= 'z' || IsAsciiDigit(c) }

  /** `\w` of a JavaScript regular expression without the `u` flag. */
  predicate IsWordChar(c: char) { IsAsciiAlnum(c) || c == '_' }

  /** `\s` of a JavaScript regular expression: the ECMAScript WhiteSpace and LineTerminator characters. */
  predicate IsJsSpace(c: char) {
    || c == ' ' || c == '\t' || c == '\n' || c == '\r' || c == '\U{B}' || c == '\U{C}'
    || c == '\U{A0}' || c == '\U{1680}' || ('\U{2000}' <= c <= '\U{200A}')
    || c == '\U{2028}' || c == '\U{2029}' || c == '\U{202F}' || c == '\U{205F}'
    || c == '\U{3000}' || c == '\U{FEFF}'
  }

  predicate AllSpaces(s: string) { forall i :: 0 <= i < |s| ==> IsJsSpace(s[i]) }

  /** Lower-casing of one character, restricted to ASCII. */
  function LowerChar(c: char): char {
    if 'A' <= c <= 'Z' then (c as int + 32) as char else c
  }

  function Lower(s: string): (r: string)
    ensures |r| == |s|
    ensures forall i :: 0 <= i < |s| ==> r[i] == LowerChar(s[i])
  {
    if s == [] then [] else [LowerChar(s[0])] + Lower(s[1..])
  }

  predicate StartsWith(s: string, prefix: string) {
    |prefix| <= |s| && s[..|prefix|] == prefix
  }

  predicate EndsWith(s: string, suffix: string) {
    |suffix| <= |s| && s[|s| - |suffix|..] == suffix
  }

  predicate OccursAt(s: string, sub: string, i: nat) {
    i + |sub| <= |s| && s[i..i + |sub|] == sub
  }

  /** JavaScript `s.includes(sub)`. */
  predicate Contains(s: string, sub: string) {
    exists i: nat :: i <= |s| && OccursAt(s, sub, i)
  }

  /** JavaScript `s.indexOf(sub)` as an option: the first position where `sub` occurs. */
  function IndexOf(s: string, sub: string, from: nat): (r: Option<nat>)
    requires from <= |s|
    ensures r.Some? ==> from <= r.value && OccursAt(s, sub, r.value)
    ensures r.Some? ==> forall j: nat :: from <= j < r.value ==> !OccursAt(s, sub, j)
    ensures r.None? ==> forall j: nat :: from <= j ==> !OccursAt(s, sub, j)
    decreases |s| - from
  {
    if OccursAt(s, sub, from) then Some(from)
    else if from + |sub| >= |s| then
      assert forall j: nat :: from < j ==> !OccursAt(s, sub, j);
      None
    else IndexOf(s, sub, from + 1)
  }

  /** JavaScript `s.replace(pattern, replacement)` with a string pattern: only the first occurrence is replaced. */
  function ReplaceFirst(s: string, pattern: string, replacement: string): (r: string)
    ensures !Contains(s, pattern) ==> r == s
    ensures IndexOf(s, pattern, 0).Some? ==>
      var i := IndexOf(s, pattern, 0).value; r == s[..i] + replacement + s[i + |pattern|..]
    ensures forall c :: c in r ==> c in s || c in replacement
  {
    match IndexOf(s, pattern, 0)
    case None => s
    case Some(i) => s[..i] + replacement + s[i + |pattern|..]
  }

  function Repeat(c: char, n: nat): (r: string)
    ensures |r| == n && forall i :: 0 <= i < n ==> r[i] == c
  {
    if n == 0 then [] else [c] + Repeat(c, n - 1)
  }

  /** JavaScript `s.padStart(len, c)` with a one-character pad. */
  function PadStart(s: string, len: nat, c: char): (r: string)
    ensures |r| == if |s| >= len then |s| else len
    ensures EndsWith(r, s)
  {
    if |s| >= len then s else Repeat(c, len - |s|) + s
  }

  /** JavaScript `s.substring(0, n)`. */
  function Take(s: string, n: nat): (r: string)
    ensures StartsWith(s, r)
    ensures |r| == if |s| <= n then |s| else n
  {
    if |s| <= n then s else s[..n]
  }

  function DigitChar(d: nat): char
    requires d < 10
  {
    (48 + d) as char
  }

  /** The decimal text JavaScript produces for a non-negative integer (`String(n)`, `${n}`). */
  function NatToString(n: nat): (r: string)
    ensures |r| > 0 && forall i :: 0 <= i < |r| ==> IsAsciiDigit(r[i])
  {
    if n < 10 then [DigitChar(n)] else NatToString(n / 10) + [DigitChar(n % 10)]
  }

  /** The value of a string of decimal digits; the inverse of NatToString. */
  function DigitsValue(s: string): nat
    requires forall i :: 0 <= i < |s| ==> IsAsciiDigit(s[i])
  {
    if s == [] then 0
    else
      assert IsAsciiDigit(s[|s| - 1]);
      DigitsValue(s[..|s| - 1]) * 10 + (s[|s| - 1] as int - 48)
  }

  /** Decimal text round-trips: reading back what NatToString wrote gives the number. */
  lemma {:induction false} NatToStringRoundTrip(n: nat)
    ensures DigitsValue(NatToString(n)) == n
  {
    if n >= 10 {
      NatToStringRoundTrip(n / 10);
      var s := NatToString(n);
      assert s[..|s| - 1] == NatToString(n / 10);
    }
  }

  /** Distinct numbers are written differently. */
  lemma NatToStringInjective(a: nat, b: nat)
    requires NatToString(a) == NatToString(b)
    ensures a == b
  {
    NatToStringRoundTrip(a);
    NatToStringRoundTrip(b);
  }

  /** `parts.join(sep)`. */
  function Join(parts: seq<string>, sep: string): string {
    if |parts| == 0 then ""
    else if |parts| == 1 then parts[0]
    else parts[0] + sep + Join(parts[1..], sep)
  }

  /** A join starts with its first part and ends with its last. */
  lemma {:induction false} JoinEnds(parts: seq<string>, sep: string)
    requires |parts| > 0
    ensures StartsWith(Join(parts, sep), parts[0])
    ensures EndsWith(Join(parts, sep), parts[|parts| - 1])
  {
    if |parts| > 1 {
      JoinEnds(parts[1..], sep);
      assert parts[1..][|parts[1..]| - 1] == parts[|parts| - 1];
    }
  }

  /** After the last separator: a suffix without separators that follows one is what AfterLast returns. */
  lemma AfterLastOfSuffix(s: string, sep: char, x: string)
    requires EndsWith(s, [sep] + x) && sep !in x
    ensures AfterLast(s, sep) == x
  {
    var r := AfterLast(s, sep);
    assert s[|s| - |x| - 1] == sep by {
      assert s[|s| - |x| - 1..][0] == ([sep] + x)[0];
    }
    assert forall j :: |s| - |r| <= j < |s| ==> s[j] == r[j - (|s| - |r|)];
    assert forall j :: |s| - |x| <= j < |s| ==> s[j] == x[j - (|s| - |x|)];
    assert |r| == |x|;
    assert r == s[|s| - |r|..] && x == s[|s| - |x|..];
  }

  /** A pattern that starts with a character absent from `stem` occurs in `stem + pattern` first at its end. */
  lemma IndexOfAfterStem(stem: string, pattern: string)
    requires pattern != [] && pattern[0] !in stem
    ensures IndexOf(stem + pattern, pattern, 0) == Some(|stem|)
  {
    var s := stem + pattern;
    assert OccursAt(s, pattern, |stem|) by {
      assert s[|stem|..|stem| + |pattern|] == pattern;
    }
    forall v | 0 <= v < |stem| ensures !OccursAt(s, pattern, v) {
      OccursAtHead(s, pattern, v);
      assert s[v] == stem[v];
    }
  }

  /** An occurrence of a non-empty `sub` starts with `sub`'s first character. */
  lemma OccursAtHead(s: string, sub: string, v: nat)
    requires sub != []
    ensures OccursAt(s, sub, v) ==> v < |s| && s[v] == sub[0]
  {
    if OccursAt(s, sub, v) {
      assert s[v..v + |sub|][0] == s[v];
    }
  }

  /** `s.split(sep)[0]` for a one-character separator: everything before its first occurrence. */
  function BeforeFirst(s: string, sep: char): (r: string)
    ensures StartsWith(s, r)
    ensures sep !in r
    ensures |r| < |s| ==> s[|r|] == sep
  {
    if s == [] || s[0] == sep then [] else [s[0]] + BeforeFirst(s[1..], sep)
  }

  /** Before the first separator: a prefix without separators that precedes one is what BeforeFirst returns. */
  lemma BeforeFirstOfPrefix(s: string, sep: char, x: string)
    requires StartsWith(s, x + [sep]) && sep !in x
    ensures BeforeFirst(s, sep) == x
  {
    var r := BeforeFirst(s, sep);
    assert s[|x|] == sep by {
      assert s[..|x| + 1][|x|] == (x + [sep])[|x|];
    }
    assert forall j :: 0 <= j < |r| ==> s[j] == r[j];
    assert forall j :: 0 <= j < |x| ==> s[j] == x[j];
    assert |r| == |x|;
    assert r == s[..|r|] && x == s[..|x|];
  }

  /** `s.split(sep).pop()` for a one-character separator: everything after its last occurrence. */
  function AfterLast(s: string, sep: char): (r: string)
    ensures EndsWith(s, r)
    ensures sep !in r
    ensures |r| < |s| ==> s[|s| - |r| - 1] == sep
  {
    if s == [] || s[|s| - 1] == sep then [] else AfterLast(s[..|s| - 1], sep) + [s[|s| - 1]]
  }

  /**
   * `s.replace(/[^a-z0-9]/gi, '_').toLowerCase()`: every character outside [A-Za-z0-9]
   * becomes '_' and letters are lower-cased.
   */
  function UnderscoreSanitise(s: string): (r: string)
    ensures |r| == |s|
    ensures forall i :: 0 <= i < |s| ==> r[i] == (if IsAsciiAlnum(s[i]) then LowerChar(s[i]) else '_')
  {
    if s == [] then [] else [if IsAsciiAlnum(s[0]) then LowerChar(s[0]) else '_'] + UnderscoreSanitise(s[1..])
  }

  /** The sanitised name keeps the length and uses only [a-z0-9_]. */
  lemma UnderscoreSanitiseAlphabet(s: string)
    ensures |UnderscoreSanitise(s)| == |s|
    ensures forall i :: 0 <= i < |s| ==> IsLowerAlnum(UnderscoreSanitise(s)[i]) || UnderscoreSanitise(s)[i] == '_'
  {
  }
}
