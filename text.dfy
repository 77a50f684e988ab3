/** Character classes and string helpers with the meaning JavaScript gives them:
    `\s` and `String.prototype.trim` share one whitespace set, `.` stops at a line
    terminator, `\w` is ASCII, and the case mappings used on a tag are ASCII (a
    tag only ever holds `[A-Za-z0-9_-]`). */
module Text {

  /** A character matched by `\s` and removed by `trim`: the ECMAScript
      WhiteSpace (tab, vertical tab, form feed, the no-break spaces and the
      space separators) and LineTerminator code points. */
  predicate IsWs(c: char)
    ensures IsWs(c) ==> !IsWordChar(c) && c != '[' && c != ']'
  {
    || c == '\t' || c == '\n' || c == '\U{000B}' || c == '\U{000C}' || c == '\r' || c == ' '
    || c == '\U{00A0}' || c == '\U{1680}' || ('\U{2000}' <= c <= '\U{200A}')
    || c == '\U{2028}' || c == '\U{2029}' || c == '\U{202F}' || c == '\U{205F}'
    || c == '\U{3000}' || c == '\U{FEFF}'
  }

  /** A character that `.` does not match; each is also whitespace to `\s`,
      which is why `\s+` runs across line breaks. */
  predicate IsLineTerminator(c: char)
    ensures IsLineTerminator(c) ==> IsWs(c)
  {
    c == '\n' || c == '\r' || c == '\U{2028}' || c == '\U{2029}'
  }

  /** A character of the class `[\w-]`. */
  predicate IsWordChar(c: char)
    ensures IsWordChar(c) ==> c as int < 0x80 && c != ']' && c != '['
  {
    ('a' <= c <= 'z') || ('A' <= c <= 'Z') || ('0' <= c <= '9') || c == '_' || c == '-'
  }

  predicate AllWs(s: string) {
    forall i :: 0 <= i < |s| ==> IsWs(s[i])
  }

  predicate NoLineTerminator(s: string) {
    forall i :: 0 <= i < |s| ==> !IsLineTerminator(s[i])
  }

  /** A string the group `([\w-]+)` can capture. */
  predicate IsTag(s: string) {
    |s| > 0 && forall i :: 0 <= i < |s| ==> IsWordChar(s[i])
  }

  function LowerChar(c: char): (r: char)
    ensures !('A' <= r <= 'Z')
    ensures IsWordChar(r) == IsWordChar(c)
    ensures 'A' <= c <= 'Z' ==> r as int == c as int + 32
    ensures !('A' <= c <= 'Z') ==> r == c
  {
    if 'A' <= c <= 'Z' then (c as int - 'A' as int + 'a' as int) as char else c
  }

  function UpperChar(c: char): (r: char)
    ensures !('a' <= r <= 'z')
    ensures 'a' <= c <= 'z' ==> r as int == c as int - 32
    ensures !('a' <= c <= 'z') ==> r == c
  {
    if 'a' <= c <= 'z' then (c as int - 'a' as int + 'A' as int) as char else c
  }

  /** `toLowerCase`, exact on the ASCII strings it is applied to here. */
  function Lower(s: string): (r: string)
    ensures |r| == |s|
    ensures forall i :: 0 <= i < |s| ==> r[i] == LowerChar(s[i])
    ensures IsTag(r) == IsTag(s)
  {
    seq(|s|, i requires 0 <= i < |s| => LowerChar(s[i]))
  }

  /** `s.charAt(0).toUpperCase() + s.slice(1)`. */
  function UpperFirst(s: string): (r: string)
    ensures |r| == |s|
    ensures s != [] ==> r[0] == UpperChar(s[0]) && r[1..] == s[1..]
  {
    if s == [] then [] else [UpperChar(s[0])] + s[1..]
  }

  /** The length of the whitespace run at the start of `s` (what a greedy `\s*`
      takes there). */
  function LeadingWs(s: string): (n: nat)
    ensures n <= |s| && AllWs(s[..n])
    ensures n == |s| || !IsWs(s[n])
  {
    if s != [] && IsWs(s[0]) then 1 + LeadingWs(s[1..]) else 0
  }

  /** `trimStart`: the suffix of `s` left once its leading whitespace is gone. */
  function TrimStart(s: string): (r: string)
    ensures |r| <= |s| && AllWs(s[..|s| - |r|])
    ensures r == [] || !IsWs(r[0])
  {
    s[LeadingWs(s)..]
  }

  /** The length of the whitespace run at the end of `s`. */
  function TrailingWs(s: string): (n: nat)
    ensures n <= |s| && AllWs(s[|s| - n..])
    ensures n == |s| || !IsWs(s[|s| - n - 1])
  {
    if s != [] && IsWs(s[|s| - 1]) then 1 + TrailingWs(s[..|s| - 1]) else 0
  }

  /** `trimEnd`: the prefix of `s` left once its trailing whitespace is gone. */
  function TrimEnd(s: string): (r: string)
    ensures |r| <= |s| && AllWs(s[|r|..])
    ensures r == [] || !IsWs(r[|r| - 1])
  {
    s[..|s| - TrailingWs(s)]
  }

  /** `trim`: the infix of `s` between its leading and trailing whitespace. */
  function Trim(s: string): (r: string)
    ensures r == [] || (!IsWs(r[0]) && !IsWs(r[|r| - 1]))
    ensures r == [] <==> AllWs(s)
  {
    TrimEmptyIff(s);
    TrimEnd(TrimStart(s))
  }

  lemma TrimEmptyIff(s: string)
    ensures TrimEnd(TrimStart(s)) == [] <==> AllWs(s)
  {
    var t := TrimStart(s);
    var i := |s| - |t|;
    if TrimEnd(t) == [] {
      assert s == s[..i] + t;
    }
  }

  /** Trimming is exact: whitespace around a string with non-white ends is
      removed and the string itself is kept. */
  lemma {:induction false} TrimAround(a: string, m: string, b: string)
    requires AllWs(a) && AllWs(b)
    requires m == [] || (!IsWs(m[0]) && !IsWs(m[|m| - 1]))
    ensures Trim(a + m + b) == m
  {
    if m == [] {
      assert AllWs(a + m + b);
    } else {
      assert a + m + b == a + (m + b);
      TrimStartAround(a, m + b);
      TrimEndAround(m, b);
    }
  }

  lemma {:induction false} TrimStartAround(a: string, m: string)
    requires AllWs(a)
    requires m == [] || !IsWs(m[0])
    ensures TrimStart(a + m) == m
  {
    LeadingWsAround(a, m);
    assert (a + m)[|a|..] == m;
  }

  /** The whitespace run in front of a string that does not start with
      whitespace is exactly the whitespace put there. */
  lemma {:induction false} LeadingWsAround(a: string, m: string)
    requires AllWs(a)
    requires m == [] || !IsWs(m[0])
    ensures LeadingWs(a + m) == |a|
  {
    if a != [] {
      assert (a + m)[1..] == a[1..] + m;
      LeadingWsAround(a[1..], m);
    } else {
      assert a + m == m;
    }
  }

  lemma {:induction false} TrimEndAround(m: string, b: string)
    requires AllWs(b)
    requires m == [] || !IsWs(m[|m| - 1])
    ensures TrimEnd(m + b) == m
  {
    TrailingWsAround(m, b);
    assert (m + b)[..|m|] == m;
  }

  lemma {:induction false} TrailingWsAround(m: string, b: string)
    requires AllWs(b)
    requires m == [] || !IsWs(m[|m| - 1])
    ensures TrailingWs(m + b) == |b|
  {
    if b != [] {
      assert (m + b)[..|m + b| - 1] == m + b[..|b| - 1];
      TrailingWsAround(m, b[..|b| - 1]);
    } else {
      assert m + b == m;
    }
  }

  /** Trimming twice is trimming once. */
  lemma TrimIdempotent(s: string)
    ensures Trim(Trim(s)) == Trim(s)
  {
    var r := Trim(s);
    assert TrimStart(r) == r;
    assert TrimEnd(r) == r;
  }
}
