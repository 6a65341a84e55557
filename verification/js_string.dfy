/**
  The string built-ins the code relies on: `String.prototype.trim` and
  `replaceAll` / `replace(/…/g, …)` with a literal pattern, which scan left to
  right and replace non-overlapping occurrences.
 */
module JsString {

  /** The WhiteSpace and LineTerminator code points of ECMA-262 (sections 12.2
      and 12.3), the set `trim` removes from both ends. */
  predicate IsSpace(c: char) {
    || c == '\t' || c == '\n' || c == '\U{B}' || c == '\U{C}' || c == '\r'
    || c == ' ' || c == '\U{A0}' || c == '\U{1680}'
    || ('\U{2000}' <= c <= '\U{200A}')
    || c == '\U{2028}' || c == '\U{2029}' || c == '\U{202F}' || c == '\U{205F}'
    || c == '\U{3000}' || c == '\U{FEFF}'
  }

  predicate AllSpace(s: string) {
    forall k :: 0 <= k < |s| ==> IsSpace(s[k])
  }

  /** Neither end of `s` is whitespace. */
  predicate IsTrimmed(s: string) {
    s == [] || (!IsSpace(s[0]) && !IsSpace(s[|s| - 1]))
  }

  /** `s` holds `t` at position `i`. */
  predicate OccursAt(s: string, t: string, i: nat) {
    i + |t| <= |s| && s[i..i + |t|] == t
  }

  /** `s.includes(t)` is false. */
  predicate Free(s: string, t: string) {
    forall i :: 0 <= i <= |s| ==> !OccursAt(s, t, i)
  }

  predicate HasPrefix(s: string, p: string) {
    |p| <= |s| && s[..|p|] == p
  }

  /** Drops leading whitespace: the result is a suffix of `s` and what was cut is all whitespace. */
  function TrimStart(s: string): (r: string)
    ensures |r| <= |s| && r == s[|s| - |r|..]
    ensures AllSpace(s[..|s| - |r|])
    ensures r == [] || !IsSpace(r[0])
  {
    if s != [] && IsSpace(s[0]) then TrimStart(s[1..]) else s
  }

  /** Drops trailing whitespace: the result is a prefix of `s` and what was cut is all whitespace. */
  function TrimEnd(s: string): (r: string)
    ensures |r| <= |s| && r == s[..|r|]
    ensures AllSpace(s[|r|..])
    ensures r == [] || !IsSpace(r[|r| - 1])
  {
    if s != [] && IsSpace(s[|s| - 1]) then TrimEnd(s[..|s| - 1]) else s
  }

  /** `r` is `s[i..j]` and only whitespace lies outside it. */
  predicate SpaceAround(s: string, r: string, i: nat, j: nat) {
    i <= j <= |s| && r == s[i..j] && AllSpace(s[..i]) && AllSpace(s[j..])
  }

  /** `s.trim()`: the infix of `s` left once whitespace is cut from both ends. */
  function Trim(s: string): (r: string)
    ensures IsTrimmed(r)
    ensures exists i: nat, j: nat :: SpaceAround(s, r, i, j)
    ensures r == [] <==> AllSpace(s)
    ensures IsTrimmed(s) ==> r == s
  {
    var t := TrimStart(s);
    var r := TrimEnd(t);
    InfixOfCuts(s, t, r);
    assert SpaceAround(s, r, |s| - |t|, |s| - |t| + |r|);
    TrimIsTrimmed(s);
    TrimEmpty(s);
    TrimKeepsTrimmed(s);
    r
  }

  lemma {:induction false} TrimIsTrimmed(s: string)
    ensures IsTrimmed(TrimEnd(TrimStart(s)))
  {
    var t := TrimStart(s);
    var r := TrimEnd(t);
    assert r != [] ==> r[0] == t[0];
  }

  /** A prefix `r` of a suffix `t` of `s`, with only whitespace cut each time, is an
      infix of `s` with only whitespace around it. */
  lemma InfixOfCuts(s: string, t: string, r: string)
    requires |t| <= |s| && t == s[|s| - |t|..] && AllSpace(s[..|s| - |t|])
    requires |r| <= |t| && r == t[..|r|] && AllSpace(t[|r|..])
    ensures var i := |s| - |t|;
      && r == s[i..i + |r|] && AllSpace(s[..i]) && AllSpace(s[i + |r|..])
  {
    var i := |s| - |t|;
    assert s[i..][|r|..] == s[i + |r|..];
  }

  lemma {:induction false} TrimKeepsTrimmed(s: string)
    ensures IsTrimmed(s) ==> TrimEnd(TrimStart(s)) == s
  {
  }

  lemma {:induction false} TrimEmpty(s: string)
    ensures TrimEnd(TrimStart(s)) == [] <==> AllSpace(s)
  {
    var t := TrimStart(s);
    var i := |s| - |t|;
    if TrimEnd(t) == [] {
      assert s == s[..i] + t;
    }
  }

  /** `s.replaceAll(pat, rep)` for a literal, non-empty `pat`: the leftmost
      occurrence is replaced and scanning resumes after it. */
  function ReplaceAll(s: string, pat: string, rep: string): string
    requires pat != []
    decreases |s|
  {
    if s == [] then []
    else if HasPrefix(s, pat) then rep + ReplaceAll(s[|pat|..], pat, rep)
    else [s[0]] + ReplaceAll(s[1..], pat, rep)
  }

  /** Without an occurrence of the pattern, `replaceAll` changes nothing. */
  lemma {:induction false} ReplaceAllAbsent(s: string, pat: string, rep: string)
    requires pat != []
    requires Free(s, pat)
    ensures ReplaceAll(s, pat, rep) == s
    decreases |s|
  {
    if s != [] {
      assert !HasPrefix(s, pat) by {
        assert !OccursAt(s, pat, 0);
        if |pat| <= |s| {
          assert s[0..|pat|] == s[..|pat|];
        }
      }
      forall i | 0 <= i <= |s[1..]| ensures !OccursAt(s[1..], pat, i) {
        assert !OccursAt(s, pat, i + 1);
        if i + |pat| <= |s[1..]| {
          assert s[1..][i..i + |pat|] == s[i + 1..i + 1 + |pat|];
        }
      }
      ReplaceAllAbsent(s[1..], pat, rep);
      assert [s[0]] + s[1..] == s;
    }
  }

  /** Replacing every `c` by `rep`, one character at a time: the reference
      meaning of `replaceAll` with a one-character pattern. */
  function Subst(s: string, c: char, rep: string): (r: string)
    ensures c !in s ==> r == s
  {
    if s == [] then [] else (if s[0] == c then rep else [s[0]]) + Subst(s[1..], c, rep)
  }

  lemma {:induction false} SubstConcat(a: string, b: string, c: char, rep: string)
    ensures Subst(a + b, c, rep) == Subst(a, c, rep) + Subst(b, c, rep)
  {
    if a != [] {
      var h := if a[0] == c then rep else [a[0]];
      assert (a + b)[0] == a[0] && (a + b)[1..] == a[1..] + b;
      assert Subst(a + b, c, rep) == h + Subst(a[1..] + b, c, rep);
      assert Subst(a, c, rep) == h + Subst(a[1..], c, rep);
      SubstConcat(a[1..], b, c, rep);
    } else {
      assert a + b == b;
    }
  }

  /** With a one-character pattern, the scanning `replaceAll` is the per-character substitution. */
  lemma {:induction false} ReplaceAllOneChar(s: string, c: char, rep: string)
    ensures ReplaceAll(s, [c], rep) == Subst(s, c, rep)
  {
    if s != [] {
      assert HasPrefix(s, [c]) <==> s[0] == c;
      ReplaceAllOneChar(s[1..], c, rep);
    }
  }

  /** A string whose first character differs from the pattern's does not start with it. */
  lemma ReplaceAllCopiesHead(s: string, pat: string, rep: string)
    requires pat != [] && s != [] && s[0] != pat[0]
    ensures ReplaceAll(s, pat, rep) == [s[0]] + ReplaceAll(s[1..], pat, rep)
  {
    assert !HasPrefix(s, pat) by {
      if |pat| <= |s| {
        assert s[..|pat|][0] == s[0];
      }
    }
  }

  /** A prefix that cannot start the pattern passes through `replaceAll` unchanged. */
  lemma {:induction false} ReplaceAllSkip(a: string, t: string, pat: string, rep: string)
    requires pat != []
    requires forall k :: 0 <= k < |a| ==> a[k] != pat[0]
    ensures ReplaceAll(a + t, pat, rep) == a + ReplaceAll(t, pat, rep)
    decreases |a|
  {
    if a == [] {
      assert a + t == t;
    } else {
      var s := a + t;
      assert s[0] == a[0];
      ReplaceAllCopiesHead(s, pat, rep);
      assert s[1..] == a[1..] + t;
      ReplaceAllSkip(a[1..], t, pat, rep);
      assert [a[0]] + a[1..] == a;
    }
  }
}
