/** The JavaScript string operations the app relies on: `trim`, `length`,
    `toLowerCase` and `includes`. */
module Text {

  /** The characters `String.prototype.trim` removes: ECMAScript's WhiteSpace
      (tab, vertical tab, form feed, space, no-break space, byte-order mark and
      the other Unicode space separators) and LineTerminator code points. */
  predicate IsWhitespace(c: char) {
    || c == '\t' || c == '\U{B}' || c == '\U{C}' || c == ' ' || c == '\U{A0}' || c == '\U{FEFF}'
    || c == '\n' || c == '\r' || c == '\U{2028}' || c == '\U{2029}'
    || c == '\U{1680}' || ('\U{2000}' <= c <= '\U{200A}')
    || c == '\U{202F}' || c == '\U{205F}' || c == '\U{3000}'
  }

  predicate AllWhitespace(s: string) {
    forall i :: 0 <= i < |s| ==> IsWhitespace(s[i])
  }

  /** Drops the leading whitespace: what is removed is whitespace, and what is
      left does not start with whitespace. */
  function TrimStart(s: string): (r: string)
    ensures |r| <= |s| && r == s[|s| - |r|..]
    ensures AllWhitespace(s[..|s| - |r|])
    ensures r == [] || !IsWhitespace(r[0])
  {
    if |s| > 0 && IsWhitespace(s[0]) then
      var r := TrimStart(s[1..]);
      WhitespaceHead(s, r);
      r
    else s
  }

  /** A suffix of `s[1..]` behind whitespace stays a suffix of `s` behind
      whitespace when `s` starts with whitespace. */
  lemma WhitespaceHead(s: string, r: string)
    requires |s| > 0 && IsWhitespace(s[0])
    requires |r| <= |s| - 1 && r == s[1..][|s| - 1 - |r|..]
    requires AllWhitespace(s[1..][..|s| - 1 - |r|])
    ensures r == s[|s| - |r|..] && AllWhitespace(s[..|s| - |r|])
  {
    var k := |s| - |r|;
    assert s[1..][k - 1..] == s[k..];
    assert s[..k] == [s[0]] + s[1..][..k - 1];
  }

  /** Drops the trailing whitespace: what is removed is whitespace, and what is
      left does not end with whitespace. */
  function TrimEnd(s: string): (r: string)
    ensures |r| <= |s| && r == s[..|r|]
    ensures AllWhitespace(s[|r|..])
    ensures r == [] || !IsWhitespace(r[|r| - 1])
  {
    if |s| > 0 && IsWhitespace(s[|s| - 1]) then TrimEnd(s[..|s| - 1]) else s
  }

  /** `s.trim()`: a contiguous piece of `s` with no whitespace at either end,
      empty exactly when `s` is all whitespace. */
  function Trim(s: string): (r: string)
    ensures exists i, j :: 0 <= i <= j <= |s| && r == s[i..j] && AllWhitespace(s[..i]) && AllWhitespace(s[j..])
    ensures |r| <= |s|
    ensures forall c :: c in r ==> c in s
    ensures r == [] <==> AllWhitespace(s)
    ensures r != [] ==> !IsWhitespace(r[0]) && !IsWhitespace(r[|r| - 1])
  {
    var u := TrimStart(s);
    var r := TrimEnd(u);
    SliceBetween(s, u, r);
    r
  }

  /** A prefix `r` of a suffix `u` of `s` is the slice of `s` between them,
      and what follows `r` in `u` is what follows that slice in `s`. */
  lemma SliceBetween(s: string, u: string, r: string)
    requires |u| <= |s| && u == s[|s| - |u|..]
    requires |r| <= |u| && r == u[..|r|]
    requires AllWhitespace(u[|r|..])
    ensures r == s[|s| - |u|..|s| - |u| + |r|]
    ensures AllWhitespace(s[|s| - |u| + |r|..])
  {
    assert u[|r|..] == s[|s| - |u| + |r|..];
  }

  /** Leading whitespace in front of a string that does not trim to nothing
      stays removed, and trailing whitespace is kept by `TrimStart`. */
  lemma {:induction false} TrimStartAppend(u: string, w: string)
    requires TrimStart(u) != []
    ensures TrimStart(u + w) == TrimStart(u) + w
  {
    if |u| > 0 && IsWhitespace(u[0]) {
      assert (u + w)[1..] == u[1..] + w;
      TrimStartAppend(u[1..], w);
    } else {
      assert u != [];
    }
  }

  lemma {:induction false} TrimStartAllWhitespacePrefix(w: string, u: string)
    requires AllWhitespace(w)
    ensures TrimStart(w + u) == TrimStart(u)
  {
    if w != [] {
      assert (w + u)[0] == w[0];
      assert (w + u)[1..] == w[1..] + u;
      TrimStartAllWhitespacePrefix(w[1..], u);
    } else {
      assert w + u == u;
    }
  }

  lemma {:induction false} TrimEndAllWhitespaceSuffix(u: string, w: string)
    requires AllWhitespace(w)
    ensures TrimEnd(u + w) == TrimEnd(u)
  {
    if w != [] {
      var n := |u + w|;
      assert (u + w)[n - 1] == w[|w| - 1];
      assert (u + w)[..n - 1] == u + w[..|w| - 1];
      TrimEndAllWhitespaceSuffix(u, w[..|w| - 1]);
    } else {
      assert u + w == u;
    }
  }

  /** Surrounding a string with whitespace does not change what it trims to. */
  lemma TrimIgnoresPadding(w1: string, t: string, w2: string)
    requires AllWhitespace(w1) && AllWhitespace(w2)
    ensures Trim(w1 + t + w2) == Trim(t)
  {
    assert w1 + t + w2 == w1 + (t + w2);
    TrimStartAllWhitespacePrefix(w1, t + w2);
    if TrimStart(t) == [] {
      AllWhitespaceAppend(t, w2);
    } else {
      TrimStartAppend(t, w2);
      TrimEndAllWhitespaceSuffix(TrimStart(t), w2);
    }
  }

  lemma AllWhitespaceAppend(t: string, w: string)
    requires TrimStart(t) == [] && AllWhitespace(w)
    ensures TrimStart(t + w) == []
  {
    assert t == t[..|t|];
    assert AllWhitespace(t + w) by {
      forall i | 0 <= i < |t + w| ensures IsWhitespace((t + w)[i]) {
        if i < |t| { assert (t + w)[i] == t[i]; } else { assert (t + w)[i] == w[i - |t|]; }
      }
    }
    AllWhitespaceTrimsAway(t + w);
  }

  lemma AllWhitespaceTrimsAway(s: string)
    requires AllWhitespace(s)
    ensures TrimStart(s) == []
  {
  }

  /** JavaScript's `length`: the number of UTF-16 code units, two for every
      code point outside the Basic Multilingual Plane. */
  function Utf16Length(s: string): (n: nat)
    ensures |s| <= n <= 2 * |s|
    ensures (forall i :: 0 <= i < |s| ==> s[i] as int < 0x1_0000) ==> n == |s|
    ensures |s| == 1 ==> n == (if s[0] as int < 0x1_0000 then 1 else 2)
  {
    if s == [] then 0 else (if s[0] as int < 0x1_0000 then 1 else 2) + Utf16Length(s[1..])
  }

  /** Code units add up over concatenation. */
  lemma {:induction false} Utf16LengthAppend(a: string, b: string)
    ensures Utf16Length(a + b) == Utf16Length(a) + Utf16Length(b)
  {
    if a != [] {
      assert (a + b)[0] == a[0];
      assert (a + b)[1..] == a[1..] + b;
      Utf16LengthAppend(a[1..], b);
    } else {
      assert a + b == b;
    }
  }

  /** `toLowerCase` on one character, for the ASCII letters. */
  function LowerChar(c: char): (d: char)
    ensures 'A' <= c <= 'Z' ==> d as int == c as int + 32
    ensures !('A' <= c <= 'Z') ==> d == c
    ensures !('A' <= d <= 'Z')
    ensures 'a' <= c <= 'z' || 'A' <= c <= 'Z' <==> 'a' <= d <= 'z'
  {
    if 'A' <= c <= 'Z' then (c as int - 'A' as int + 'a' as int) as char else c
  }

  /** `toLowerCase`, character by character. */
  function ToLower(s: string): (r: string)
    ensures |r| == |s|
    ensures forall i :: 0 <= i < |s| ==> r[i] == LowerChar(s[i])
  {
    if s == [] then [] else [LowerChar(s[0])] + ToLower(s[1..])
  }

  /** Lower-casing twice is lower-casing once. */
  lemma ToLowerIdempotent(s: string)
    ensures ToLower(ToLower(s)) == ToLower(s)
  {
    assert forall i :: 0 <= i < |s| ==> ToLower(ToLower(s))[i] == ToLower(s)[i];
  }

  /** `t` occurs in `s` starting at index `i`. */
  predicate OccursAt(s: string, t: string, i: nat) {
    i + |t| <= |s| && s[i..i + |t|] == t
  }

  /** The search behind `includes`: is there an occurrence of `t` in `s`
      starting at `k` or later? */
  function IncludesFrom(s: string, t: string, k: nat): (r: bool)
    requires k <= |s|
    ensures r <==> exists i: nat :: k <= i && OccursAt(s, t, i)
    decreases |s| - k
  {
    if k + |t| > |s| then false
    else if s[k..k + |t|] == t then assert OccursAt(s, t, k); true
    else IncludesFrom(s, t, k + 1)
  }

  /** `s.includes(t)`. */
  function Includes(s: string, t: string): (r: bool)
    ensures r <==> exists i: nat :: OccursAt(s, t, i)
  {
    IncludesFrom(s, t, 0)
  }

  /** Every string includes itself and the empty string. */
  lemma IncludesSelfAndEmpty(s: string)
    ensures Includes(s, s) && Includes(s, "")
  {
    assert OccursAt(s, s, 0);
    assert OccursAt(s, "", 0);
  }
}
