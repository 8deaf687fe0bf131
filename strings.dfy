/** The two JavaScript string operations the core relies on:
    `String.prototype.trim` and `String.prototype.includes`. */
module Strings {

  /** The characters `trim` removes: ECMAScript's WhiteSpace (tab, vertical tab,
      form feed, space, no-break space, byte order mark and the other Unicode
      space separators) and LineTerminator (line feed, carriage return, line
      and paragraph separators). */
  predicate IsWhitespace(c: char) {
    || c == '\t' || c == '\n' || c == '\U{000B}' || c == '\U{000C}' || c == '\r'
    || c == ' ' || c == '\U{00A0}' || c == '\U{1680}'
    || ('\U{2000}' <= c <= '\U{200A}')
    || c == '\U{2028}' || c == '\U{2029}' || c == '\U{202F}' || c == '\U{205F}'
    || c == '\U{3000}' || c == '\U{FEFF}'
  }

  predicate AllWhitespace(s: string) {
    forall i :: 0 <= i < |s| ==> IsWhitespace(s[i])
  }

  /** The index of the first character of `s[lo..]` that is not whitespace,
      or `|s|` when there is none. */
  function SkipLeading(s: string, lo: nat): (k: nat)
    requires lo <= |s|
    ensures lo <= k <= |s|
    ensures forall i :: lo <= i < k ==> IsWhitespace(s[i])
    ensures k < |s| ==> !IsWhitespace(s[k])
    decreases |s| - lo
  {
    if lo < |s| && IsWhitespace(s[lo]) then SkipLeading(s, lo + 1) else lo
  }

  /** The least `j >= lo` below `hi` such that everything from `j` to `hi` is
      whitespace. */
  function SkipTrailing(s: string, lo: nat, hi: nat): (j: nat)
    requires lo <= hi <= |s|
    ensures lo <= j <= hi
    ensures forall i :: j <= i < hi ==> IsWhitespace(s[i])
    ensures lo < j ==> !IsWhitespace(s[j - 1])
    decreases hi - lo
  {
    if lo < hi && IsWhitespace(s[hi - 1]) then SkipTrailing(s, lo, hi - 1) else hi
  }

  /** `s.trim()`: the slice of `s` left once whitespace is stripped from both
      ends; only whitespace lies outside it, and it neither starts nor ends
      with whitespace. */
  function Trim(s: string): (r: string)
    ensures exists a, b :: IsTrimAt(s, r, a, b)
  {
    var k := SkipLeading(s, 0);
    var j := SkipTrailing(s, k, |s|);
    assert IsTrimAt(s, s[k..j], k, j);
    s[k..j]
  }

  /** `r` is `s[a..b]`, everything around it is whitespace, and `r` does not
      start or end with whitespace. */
  predicate IsTrimAt(s: string, r: string, a: int, b: int) {
    && 0 <= a <= b <= |s|
    && r == s[a..b]
    && (forall i :: 0 <= i < a ==> IsWhitespace(s[i]))
    && (forall i :: b <= i < |s| ==> IsWhitespace(s[i]))
    && (r != [] ==> !IsWhitespace(r[0]) && !IsWhitespace(r[|r| - 1]))
  }

  /** Only one slice of `s` has the shape of a trim: the one `Trim` returns. */
  lemma TrimUnique(s: string, r: string, a: int, b: int)
    requires IsTrimAt(s, r, a, b)
    ensures Trim(s) == r
  {
    var k := SkipLeading(s, 0);
    var j := SkipTrailing(s, k, |s|);
    if r == [] {
      assert forall i :: 0 <= i < |s| ==> IsWhitespace(s[i]);
      assert k == |s|;
    } else {
      assert s[a] == r[0] && s[b - 1] == r[|r| - 1];
      assert k == a;
      assert j == b;
    }
  }

  /** A string is blank after trimming exactly when every character is whitespace. */
  lemma TrimEmptyIffAllWhitespace(s: string)
    ensures Trim(s) == [] <==> AllWhitespace(s)
  {
    if AllWhitespace(s) {
      assert IsTrimAt(s, [], |s|, |s|);
      TrimUnique(s, [], |s|, |s|);
    } else {
      var a, b :| IsTrimAt(s, Trim(s), a, b);
      var i :| 0 <= i < |s| && !IsWhitespace(s[i]);
      assert a <= i < b;
      assert Trim(s)[i - a] == s[i];
    }
  }

  /** Whitespace around a string does not change what `trim` returns. */
  lemma TrimIgnoresPadding(p: string, s: string, q: string)
    requires AllWhitespace(p) && AllWhitespace(q)
    ensures Trim(p + s + q) == Trim(s)
  {
    var r := Trim(s);
    var a, b :| IsTrimAt(s, r, a, b);
    var x := p + s + q;
    forall i | 0 <= i < |p| + a ensures IsWhitespace(x[i]) {
      if i >= |p| { assert x[i] == s[i - |p|]; }
    }
    forall i | |p| + b <= i < |x| ensures IsWhitespace(x[i]) {
      if i < |p| + |s| { assert x[i] == s[i - |p|]; } else { assert x[i] == q[i - |p| - |s|]; }
    }
    assert x[|p| + a..|p| + b] == s[a..b];
    assert IsTrimAt(x, r, |p| + a, |p| + b);
    TrimUnique(x, r, |p| + a, |p| + b);
  }

  /** `trim` is idempotent. */
  lemma TrimIdempotent(s: string)
    ensures Trim(Trim(s)) == Trim(s)
  {
    var r := Trim(s);
    var a, b :| IsTrimAt(s, r, a, b);
    assert IsTrimAt(r, r, 0, |r|);
    TrimUnique(r, r, 0, |r|);
  }

  /** `s.includes(pat)`: `pat` occurs in `s` as a contiguous substring. */
  function Contains(s: string, pat: string): (b: bool)
    ensures b ==> |pat| <= |s|
    ensures |pat| <= |s| && s[..|pat|] == pat ==> b
    decreases |s|
  {
    |pat| <= |s| && (s[..|pat|] == pat || Contains(s[1..], pat))
  }

  /** `pat` occurs in `s` at offset `k`. */
  predicate OccursAt(s: string, pat: string, k: int) {
    0 <= k <= |s| - |pat| && s[k..k + |pat|] == pat
  }

  /** `Contains` agrees with the definition of an occurrence at some offset. */
  lemma {:induction false} ContainsIffOccurs(s: string, pat: string)
    ensures Contains(s, pat) <==> exists k :: OccursAt(s, pat, k)
    decreases |s|
  {
    if |pat| <= |s| {
      if s[..|pat|] == pat {
        assert OccursAt(s, pat, 0);
      } else {
        ContainsIffOccurs(s[1..], pat);
        forall k | OccursAt(s, pat, k) ensures OccursAt(s[1..], pat, k - 1) {
          assert s[1..][k - 1..k - 1 + |pat|] == s[k..k + |pat|];
        }
        if Contains(s[1..], pat) {
          var k :| OccursAt(s[1..], pat, k);
          assert s[k + 1..k + 1 + |pat|] == s[1..][k..k + |pat|];
          assert OccursAt(s, pat, k + 1);
        }
      }
    }
  }

  /** Every string contains itself framed by any prefix and suffix. */
  lemma ContainsInfix(a: string, pat: string, b: string)
    ensures Contains(a + pat + b, pat)
  {
    var s := a + pat + b;
    assert s[|a|..|a| + |pat|] == pat;
    assert OccursAt(s, pat, |a|);
    ContainsIffOccurs(s, pat);
  }
}
