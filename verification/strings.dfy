/** The few JavaScript string operations the application relies on:
    `includes`, `startsWith`/`endsWith`, `toLowerCase`, `trim` and
    truthiness of strings. */
module Strings {

  /** JavaScript truthiness of a string: only the empty string is falsy. */
  predicate Truthy(s: string) {
    s != ""
  }

  predicate StartsWith(s: string, p: string) {
    |p| <= |s| && s[..|p|] == p
  }

  predicate EndsWith(s: string, p: string) {
    |p| <= |s| && s[|s| - |p|..] == p
  }

  /** `s` is exactly `a`, then `m`, then `z`: it starts with `a`, ends with
      `z`, and holds `m` unchanged between them. */
  predicate Frames(s: string, a: string, m: string, z: string) {
    && |s| == |a| + |m| + |z|
    && StartsWith(s, a) && EndsWith(s, z)
    && s[|a|..|a| + |m|] == m
  }

  /** A text framed by a prefix and a suffix starts with the one, ends with
      the other and holds the middle between them. */
  lemma Framed(a: string, m: string, z: string)
    ensures StartsWith(a + m + z, a) && EndsWith(a + m + z, z)
    ensures (a + m + z)[|a|..|a| + |m|] == m
    ensures Frames(a + m + z, a, m, z)
  {
    var s := a + m + z;
    assert s[..|a|] == a;
    assert s[|s| - |z|..] == z;
  }

  /** Whatever ends with `x + y` ends with `y`. */
  lemma EndsWithTail(s: string, x: string, y: string)
    requires EndsWith(s, x + y)
    ensures EndsWith(s, y)
  {
    assert s[|s| - |y|..] == s[|s| - |x + y|..][|x|..];
  }

  /** `p` occurs in `s` starting at offset `i`. */
  predicate OccursAt(s: string, p: string, i: int) {
    0 <= i <= |s| - |p| && s[i..i + |p|] == p
  }

  /** `s.includes(p)`: `p` occurs in `s` at some offset. */
  predicate Includes(s: string, p: string) {
    exists i | 0 <= i <= |s| - |p| :: OccursAt(s, p, i)
  }

  /** Every character of an included pattern occurs in the text, so one
      character of `p` that `s` lacks rules the inclusion out. */
  lemma NotIncludedByChar(s: string, p: string, c: char)
    requires c in p && c !in s
    ensures !Includes(s, p)
  {
    var k :| 0 <= k < |p| && p[k] == c;
    forall i | 0 <= i <= |s| - |p| ensures !OccursAt(s, p, i) {
      assert s[i..i + |p|][k] == s[i + k] != c;
    }
  }

  /** `toLowerCase` on one character, as far as it can produce an ASCII
      letter: `A`..`Z` and the KELVIN SIGN (U+212A, which lowers to `k`).
      Other characters are left as they are. */
  function LowerChar(c: char): char {
    if 'A' <= c <= 'Z' then (c as int + 32) as char
    else if c == '\U{212A}' then 'k'
    else c
  }

  function ToLower(s: string): (r: string)
    ensures |r| == |s|
    ensures forall i :: 0 <= i < |s| ==> r[i] == LowerChar(s[i])
  {
    seq(|s|, i requires 0 <= i < |s| => LowerChar(s[i]))
  }

  /** A lower-case letter is produced only by itself, its upper-case form
      and, for `k`, the KELVIN SIGN; a text without those lowers to a text
      without the letter. */
  lemma LowerCharAbsent(s: string, lower: char)
    requires 'a' <= lower <= 'z'
    requires lower !in s && (lower as int - 32) as char !in s
    requires lower == 'k' ==> '\U{212A}' !in s
    ensures lower !in ToLower(s)
  {
    forall i | 0 <= i < |s| ensures ToLower(s)[i] != lower {
      assert s[i] != lower && s[i] != (lower as int - 32) as char;
    }
  }

  /** `WhiteSpace` and `LineTerminator` of ECMAScript: what `trim` removes. */
  predicate IsWhitespace(c: char) {
    || c == '\t' || c == '\n' || c == '\U{000B}' || c == '\U{000C}' || c == '\r'
    || c == ' ' || c == '\U{00A0}' || c == '\U{1680}'
    || ('\U{2000}' <= c <= '\U{200A}')
    || c == '\U{2028}' || c == '\U{2029}' || c == '\U{202F}' || c == '\U{205F}'
    || c == '\U{3000}' || c == '\U{FEFF}'
  }

  predicate AllWhitespace(s: string) {
    forall k :: 0 <= k < |s| ==> IsWhitespace(s[k])
  }

  /** A text is all whitespace exactly when both of its pieces are. */
  lemma {:induction false} AllWhitespaceConcat(a: string, b: string)
    ensures AllWhitespace(a + b) <==> AllWhitespace(a) && AllWhitespace(b)
  {
    if AllWhitespace(a) && AllWhitespace(b) {
      forall k | 0 <= k < |a + b| ensures IsWhitespace((a + b)[k]) {
        if k < |a| { assert (a + b)[k] == a[k]; } else { assert (a + b)[k] == b[k - |a|]; }
      }
    }
    if AllWhitespace(a + b) {
      forall k | 0 <= k < |a| ensures IsWhitespace(a[k]) { assert (a + b)[k] == a[k]; }
      forall k | 0 <= k < |b| ensures IsWhitespace(b[k]) { assert (a + b)[|a| + k] == b[k]; }
    }
  }

  /** `trimStart`: the longest suffix of `s` that does not begin with whitespace. */
  function TrimStart(s: string): (r: string)
    ensures |r| <= |s| && r == s[|s| - |r|..]
    ensures AllWhitespace(s[..|s| - |r|])
    ensures r == [] || !IsWhitespace(r[0])
  {
    if |s| > 0 && IsWhitespace(s[0]) then
      var r := TrimStart(s[1..]);
      assert s[..|s| - |r|] == [s[0]] + s[1..][..|s| - 1 - |r|];
      AllWhitespaceConcat([s[0]], s[1..][..|s| - 1 - |r|]);
      r
    else s
  }

  /** `trimEnd`: the longest prefix of `s` that does not end with whitespace. */
  function TrimEnd(s: string): (r: string)
    ensures |r| <= |s| && r == s[..|r|]
    ensures AllWhitespace(s[|r|..])
    ensures r == [] || !IsWhitespace(r[|r| - 1])
  {
    if |s| > 0 && IsWhitespace(s[|s| - 1]) then
      var r := TrimEnd(s[..|s| - 1]);
      assert s[|r|..] == s[..|s| - 1][|r|..] + [s[|s| - 1]];
      AllWhitespaceConcat(s[..|s| - 1][|r|..], [s[|s| - 1]]);
      r
    else s
  }

  /** `trim`: `s` without leading and trailing whitespace. */
  function Trim(s: string): (r: string)
    ensures exists i | 0 <= i <= |s| - |r| :: s[i..i + |r|] == r && AllWhitespace(s[..i]) && AllWhitespace(s[i + |r|..])
    ensures r == [] || (!IsWhitespace(r[0]) && !IsWhitespace(r[|r| - 1]))
  {
    var t := TrimStart(s);
    var r := TrimEnd(t);
    var i := |s| - |t|;
    assert s[i..] == t;
    assert s[i..i + |r|] == r;
    assert s[i + |r|..] == t[|r|..];
    assert 0 <= i <= |s| - |r| && s[i..i + |r|] == r && AllWhitespace(s[..i]) && AllWhitespace(s[i + |r|..]);
    r
  }

  /** Dropping leading whitespace keeps a text all-whitespace or not. */
  lemma TrimStartWhitespaceIff(s: string)
    ensures AllWhitespace(TrimStart(s)) <==> AllWhitespace(s)
  {
    var t := TrimStart(s);
    assert s == s[..|s| - |t|] + t;
    AllWhitespaceConcat(s[..|s| - |t|], t);
  }

  /** `trimEnd` of a text that does not begin with whitespace is empty
      exactly when the text is all whitespace, which makes it empty too. */
  lemma TrimEndEmptyIff(t: string)
    requires t == [] || !IsWhitespace(t[0])
    ensures TrimEnd(t) == "" <==> AllWhitespace(t)
  {
    var r := TrimEnd(t);
    if r == "" {
      assert t[|r|..] == t;
    } else {
      assert r[0] == t[0];
    }
  }

  /** `trim` yields the empty string exactly for all-whitespace input. */
  lemma TrimEmptyIff(s: string)
    ensures Trim(s) == "" <==> AllWhitespace(s)
  {
    var t := TrimStart(s);
    assert Trim(s) == TrimEnd(t);
    TrimStartWhitespaceIff(s);
    TrimEndEmptyIff(t);
  }


}
