/** The few ECMAScript string operations the routers use, with the semantics the
    language standard gives them. A string is a sequence of `char`. */
module JsString {

  /** `s.slice(1)`: everything after the first character; the empty string stays empty. */
  function SliceFrom1(s: string): string
  {
    if s == [] then [] else s[1..]
  }

  /** `s.indexOf(c)` for a one-character pattern: the first position of `c`, or -1. */
  function IndexOf(s: string, c: char): (i: int)
    ensures i == -1 <==> c !in s
    ensures i != -1 ==> 0 <= i < |s| && s[i] == c && c !in s[..i]
  {
    if s == [] then -1
    else if s[0] == c then 0
    else
      var j := IndexOf(s[1..], c);
      if j == -1 then -1
      else
        assert s[..j + 1] == [s[0]] + s[1..][..j];
        j + 1
  }

  /** `s.replace(c, "")` with a string pattern: removes the FIRST occurrence of `c`,
      wherever it is, keeping the rest in order, and leaves the string alone when `c`
      does not occur. */
  function RemoveFirst(s: string, c: char): (r: string)
    ensures c !in s ==> r == s
    ensures c in s ==> |r| == |s| - 1 && multiset(r) + multiset{c} == multiset(s)
    ensures c in s ==> var i := IndexOf(s, c); r == s[..i] + s[i + 1..]
  {
    var i := IndexOf(s, c);
    if i == -1 then s
    else
      assert s == s[..i] + [s[i]] + s[i + 1..];
      s[..i] + s[i + 1..]
  }

  /** In `a + [c] + b` with no `c` in `a`, the first `c` is the one after `a`. */
  lemma {:induction false} IndexOfSplit(a: string, c: char, b: string)
    requires c !in a
    ensures IndexOf(a + [c] + b, c) == |a|
  {
    if a != [] {
      assert (a + [c] + b)[1..] == a[1..] + [c] + b;
      IndexOfSplit(a[1..], c, b);
    }
  }

  /** Removing the first `c` from `a + [c] + b`, where `a` has no `c`, leaves `a + b`:
      whatever follows, however many more `c` it holds, is kept. */
  lemma RemoveFirstSplit(a: string, c: char, b: string)
    requires c !in a
    ensures RemoveFirst(a + [c] + b, c) == a + b
  {
    var s := a + [c] + b;
    IndexOfSplit(a, c, b);
    assert s[..|a|] == a && s[|a| + 1..] == b;
  }

  /** The characters `String.prototype.trim` strips: WhiteSpace and LineTerminator
      of the ECMAScript grammar (the Zs category included). */
  predicate IsJsSpace(ch: char)
  {
    || ch == '\t' || ch == '\n' || ch == '\U{000B}' || ch == '\U{000C}' || ch == '\r'
    || ch == ' ' || ch == '\U{00A0}' || ch == '\U{1680}'
    || ('\U{2000}' <= ch <= '\U{200A}')
    || ch == '\U{2028}' || ch == '\U{2029}' || ch == '\U{202F}' || ch == '\U{205F}'
    || ch == '\U{3000}' || ch == '\U{FEFF}'
  }

  /** Every character of `s` is a space. */
  predicate AllSpaces(s: string)
  {
    forall i :: 0 <= i < |s| ==> IsJsSpace(s[i])
  }

  /** `s.trimStart()`: a suffix of `s` that does not start with a space, and only
      spaces were dropped. */
  function TrimStart(s: string): (r: string)
    ensures |r| <= |s| && r == s[|s| - |r|..]
    ensures r == [] || !IsJsSpace(r[0])
    ensures AllSpaces(s[..|s| - |r|])
  {
    if s != [] && IsJsSpace(s[0]) then
      var r := TrimStart(s[1..]);
      assert s[..|s| - |r|] == [s[0]] + s[1..][..|s| - 1 - |r|];
      r
    else s
  }

  /** `s.trimEnd()`: a prefix of `s` that does not end with a space, and only
      spaces were dropped. */
  function TrimEnd(s: string): (r: string)
    ensures |r| <= |s| && r == s[..|r|]
    ensures r == [] || !IsJsSpace(r[|r| - 1])
    ensures AllSpaces(s[|r|..])
  {
    if s != [] && IsJsSpace(s[|s| - 1]) then
      var r := TrimEnd(s[..|s| - 1]);
      assert s[|r|..] == s[..|s| - 1][|r|..] + [s[|s| - 1]];
      r
    else s
  }

  /** `s` is `r` with at most a run of spaces in front and a run of spaces behind. */
  ghost predicate SpacesAround(s: string, r: string)
  {
    exists k ::
      && 0 <= k <= |s| - |r| && r == s[k..k + |r|]
      && AllSpaces(s[..k]) && AllSpaces(s[k + |r|..])
  }

  /** A string with no space at either end. */
  predicate IsTrimmed(s: string)
  {
    s == [] || (!IsJsSpace(s[0]) && !IsJsSpace(s[|s| - 1]))
  }

  /** `s.trim()`: spaces stripped from both ends. The result is the part of `s`
      between a run of leading spaces and a run of trailing spaces, and has no
      space at either end; a trimmed string is its own trim. */
  function Trim(s: string): (r: string)
    ensures IsTrimmed(r)
    ensures IsTrimmed(s) ==> r == s
    ensures SpacesAround(s, r)
  {
    var t := TrimStart(s);
    var r := TrimEnd(t);
    TrimParts(s, t, r);
    r
  }

  /** A suffix `t` of `s` with no leading space, after only spaces, and a prefix `r`
      of `t` with no trailing space, before only spaces: `r` sits in `s` between two
      runs of spaces and has no space at either end. */
  lemma TrimParts(s: string, t: string, r: string)
    requires |t| <= |s| && t == s[|s| - |t|..] && (t == [] || !IsJsSpace(t[0]))
    requires AllSpaces(s[..|s| - |t|])
    requires |r| <= |t| && r == t[..|r|] && (r == [] || !IsJsSpace(r[|r| - 1]))
    requires AllSpaces(t[|r|..])
    ensures IsTrimmed(r)
    ensures IsTrimmed(s) ==> r == s
    ensures SpacesAround(s, r)
  {
    var k := |s| - |t|;
    assert r == s[k..k + |r|];
    assert s[k + |r|..] == t[|r|..];
    assert r != [] ==> r[0] == t[0];
    if IsTrimmed(s) && s != [] {
      assert s[..k] + t == s;
      assert k == 0;
      assert |r| == |t|;
    }
  }

  /** Leading spaces in front of a part that does not start with a space are all `trimStart` drops. */
  lemma {:induction false} TrimStartExact(a: string, u: string)
    requires AllSpaces(a)
    requires u == [] || !IsJsSpace(u[0])
    ensures TrimStart(a + u) == u
  {
    if a != [] {
      assert (a + u)[0] == a[0];
      assert (a + u)[1..] == a[1..] + u;
      TrimStartExact(a[1..], u);
    } else {
      assert a + u == u;
    }
  }

  /** Trailing spaces after a part that does not end with a space are all `trimEnd` drops. */
  lemma {:induction false} TrimEndExact(u: string, b: string)
    requires AllSpaces(b)
    requires u == [] || !IsJsSpace(u[|u| - 1])
    ensures TrimEnd(u + b) == u
  {
    if b != [] {
      assert (u + b)[|u + b| - 1] == b[|b| - 1];
      assert (u + b)[..|u + b| - 1] == u + b[..|b| - 1];
      TrimEndExact(u, b[..|b| - 1]);
    } else {
      assert u + b == u;
    }
  }

  /** `trim` removes exactly the surrounding spaces: for a trimmed `t` between two
      runs of spaces, the trim is `t`. */
  lemma TrimExact(a: string, t: string, b: string)
    requires AllSpaces(a)
    requires AllSpaces(b)
    requires IsTrimmed(t)
    ensures Trim(a + t + b) == t
  {
    if t == [] {
      var ab := a + b;
      assert a + t + b == ab + [];
      assert AllSpaces(ab);
      TrimStartExact(ab, []);
      TrimEndExact([], []);
    } else {
      assert a + t + b == a + (t + b);
      assert (t + b)[0] == t[0];
      TrimStartExact(a, t + b);
      TrimEndExact(t, b);
    }
  }

  /** Trimming twice is trimming once. */
  lemma TrimIdempotent(s: string)
    ensures Trim(Trim(s)) == Trim(s)
  {
  }
}
