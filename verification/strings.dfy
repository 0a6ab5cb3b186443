/**
 * String helpers shared by the service and the components: literal global
 * replacement (`s.replace(/lit/g, rep)`), substring search (`includes`) and
 * ECMAScript `trim`. Strings are sequences of characters.
 */
module Strings {

  /** `p` occurs in `s` starting at index `i`. */
  predicate OccursAt(s: string, p: string, i: int)
  {
    0 <= i && i + |p| <= |s| && s[i..i + |p|] == p
  }

  /** `s.includes(p)`. */
  predicate Contains(s: string, p: string)
  {
    exists i | 0 <= i <= |s| - |p| :: OccursAt(s, p, i)
  }

  /** `t` is a contiguous piece of `s`. */
  predicate IsSlice(t: string, s: string)
  {
    exists i, j :: 0 <= i <= j <= |s| && t == s[i..j]
  }

  /**
   * `s.replace(/pat/g, rep)` for a literal pattern: scanning left to right,
   * every non-overlapping occurrence of `pat` is replaced by `rep`, and
   * scanning resumes right after the replaced occurrence. Without an
   * occurrence nothing changes; a single character replaced by text without
   * it is gone from the result; a same-length replacement keeps the length.
   */
  function ReplaceAll(s: string, pat: string, rep: string): (r: string)
    requires |pat| > 0
    ensures !Contains(s, pat) ==> r == s
    ensures |pat| == 1 && pat[0] !in rep ==> pat[0] !in r
    ensures |pat| == |rep| ==> |r| == |s|
    decreases |s|
  {
    if |s| == 0 then ""
    else if pat <= s then
      assert OccursAt(s, pat, 0) by { assert s[0..|pat|] == s[..|pat|]; }
      rep + ReplaceAll(s[|pat|..], pat, rep)
    else
      ContainsTail(s, pat);
      [s[0]] + ReplaceAll(s[1..], pat, rep)
  }

  /** An occurrence in the tail of `s` is an occurrence in `s`. */
  lemma ContainsTail(s: string, p: string)
    requires |s| > 0
    ensures Contains(s[1..], p) ==> Contains(s, p)
  {
    if Contains(s[1..], p) {
      var k :| 0 <= k <= |s[1..]| - |p| && OccursAt(s[1..], p, k);
      OccursAtTail(s, p, k);
    }
  }

  /**
   * The characters ECMAScript's `String.prototype.trim` removes: WhiteSpace
   * (TAB, VT, FF, ZWNBSP and the space separators of category Zs) and the
   * LineTerminators LF, CR, LS and PS.
   */
  predicate IsWhitespace(c: char)
  {
    || c == '\t' || c == '\n' || c == '\U{000B}' || c == '\U{000C}' || c == '\r'
    || c == ' ' || c == '\U{00A0}' || c == '\U{1680}'
    || ('\U{2000}' <= c <= '\U{200A}')
    || c == '\U{2028}' || c == '\U{2029}' || c == '\U{202F}' || c == '\U{205F}'
    || c == '\U{3000}' || c == '\U{FEFF}'
  }

  /** Neither end of `s` is whitespace. */
  predicate Trimmed(s: string)
  {
    |s| == 0 || (!IsWhitespace(s[0]) && !IsWhitespace(s[|s| - 1]))
  }

  function TrimStart(s: string): (r: string)
    ensures |r| <= |s| && r == s[|s| - |r|..]
    ensures |r| > 0 ==> !IsWhitespace(r[0])
    ensures forall k :: 0 <= k < |s| - |r| ==> IsWhitespace(s[k])
    decreases |s|
  {
    if |s| > 0 && IsWhitespace(s[0]) then TrimStart(s[1..]) else s
  }

  function TrimEnd(s: string): (r: string)
    ensures |r| <= |s| && r == s[..|r|]
    ensures |r| > 0 ==> !IsWhitespace(r[|r| - 1])
    ensures forall k :: |r| <= k < |s| ==> IsWhitespace(s[k])
    decreases |s|
  {
    if |s| > 0 && IsWhitespace(s[|s| - 1]) then TrimEnd(s[..|s| - 1]) else s
  }

  /** `r` is `s[i..j]` and everything outside that window is whitespace. */
  predicate CutsWhitespace(s: string, r: string, i: int, j: int)
  {
    && 0 <= i <= j <= |s| && r == s[i..j]
    && (forall k :: 0 <= k < i ==> IsWhitespace(s[k]))
    && (forall k :: j <= k < |s| ==> IsWhitespace(s[k]))
  }

  /**
   * `s.trim()`: `s` with only whitespace removed, and only from its two ends,
   * leaving no whitespace at either end of the result.
   */
  function Trim(s: string): (r: string)
    ensures Trimmed(r)
    ensures exists i, j :: CutsWhitespace(s, r, i, j)
    ensures IsSlice(r, s)
  {
    var a := TrimStart(s);
    var r := TrimEnd(a);
    TrimSlice(s, a, r);
    r
  }

  /** Trimming the end of a trimmed-at-the-start suffix of `s` cuts only whitespace from `s`. */
  lemma TrimSlice(s: string, a: string, r: string)
    requires |a| <= |s| && a == s[|s| - |a|..] && (|a| > 0 ==> !IsWhitespace(a[0]))
    requires forall k :: 0 <= k < |s| - |a| ==> IsWhitespace(s[k])
    requires |r| <= |a| && r == a[..|r|] && (|r| > 0 ==> !IsWhitespace(r[|r| - 1]))
    requires forall k :: |r| <= k < |a| ==> IsWhitespace(a[k])
    ensures Trimmed(r) && IsSlice(r, s)
    ensures CutsWhitespace(s, r, |s| - |a|, |s| - |a| + |r|)
  {
    if |r| > 0 {
      assert r[0] == a[0];
    }
    var i := |s| - |a|;
    SliceShift(s, i, |s|, 0, |r|);
    assert r == s[i..i + |r|];
    forall k | i + |r| <= k < |s| ensures IsWhitespace(s[k]) {
      assert s[k] == a[k - i];
    }
  }

  // ---------------------------------------------------------------------------
  // Lemmas about Contains and slices

  /** A slice of a slice is the corresponding slice of the whole. */
  lemma SliceShift(s: string, i: int, j: int, a: int, b: int)
    requires 0 <= i <= j <= |s| && 0 <= a <= b <= j - i
    ensures s[i..j][a..b] == s[i + a..i + b]
  {
    var x := s[i..j][a..b];
    var y := s[i + a..i + b];
    forall m | 0 <= m < |x| ensures x[m] == y[m] {
      assert x[m] == s[i..j][a + m] == s[i + a + m];
    }
  }

  lemma SliceOfSlice(t: string, u: string, s: string)
    requires IsSlice(t, u) && IsSlice(u, s)
    ensures IsSlice(t, s)
  {
    var i, j :| 0 <= i <= j <= |u| && t == u[i..j];
    var i', j' :| 0 <= i' <= j' <= |s| && u == s[i'..j'];
    SliceShift(s, i', j', i, j);
    assert t == s[i' + i..i' + j];
  }

  /** An occurrence inside a slice is an occurrence in the whole. */
  lemma ContainsInSlice(t: string, s: string, p: string)
    requires IsSlice(t, s) && Contains(t, p)
    ensures Contains(s, p)
  {
    var i, j :| 0 <= i <= j <= |s| && t == s[i..j];
    var k :| 0 <= k <= |t| - |p| && OccursAt(t, p, k);
    SliceShift(s, i, j, k, k + |p|);
    assert s[i + k..i + k + |p|] == p;
    assert OccursAt(s, p, i + k);
  }

  /** A pattern whose first character never occurs in `s` does not occur in `s`. */
  lemma NoFirstCharNoOccurrence(s: string, p: string)
    requires |p| > 0
    ensures p[0] !in s ==> !Contains(s, p)
  {
  }

  /** A string containing `q` contains every prefix of `q`. */
  lemma ContainsPrefix(s: string, p: string, q: string)
    requires p <= q && Contains(s, q)
    ensures Contains(s, p)
  {
    var k :| 0 <= k <= |s| - |q| && OccursAt(s, q, k);
    SliceShift(s, k, k + |q|, 0, |p|);
    assert OccursAt(s, p, k);
  }

  /** An occurrence in `[c] + s` starts at index 0 or lies inside `s`. */
  lemma ContainsCons(c: char, s: string, p: string)
    requires Contains([c] + s, p)
    ensures p <= [c] + s || Contains(s, p)
  {
    var cs := [c] + s;
    var k :| 0 <= k <= |cs| - |p| && OccursAt(cs, p, k);
    if k > 0 {
      assert cs[1..] == s;
      SliceShift(cs, 1, |cs|, k - 1, k - 1 + |p|);
      assert OccursAt(s, p, k - 1);
    }
  }

  // ---------------------------------------------------------------------------
  // Lemmas about ReplaceAll

  /** An occurrence one position into `s` is an occurrence in `s[1..]`, and back. */
  lemma OccursAtTail(s: string, p: string, k: nat)
    requires |s| > 0
    ensures OccursAt(s[1..], p, k) <==> OccursAt(s, p, k + 1)
  {
    if k + 1 + |p| <= |s| {
      assert s[1..][k..k + |p|] == s[k + 1..k + 1 + |p|];
    }
  }

  /** A prefix at which no occurrence of the pattern starts is copied through unchanged. */
  lemma {:induction false} ReplaceAllCopiesPrefix(a: string, b: string, pat: string, rep: string)
    requires |pat| > 0
    requires forall k :: 0 <= k < |a| ==> !OccursAt(a + b, pat, k)
    ensures ReplaceAll(a + b, pat, rep) == a + ReplaceAll(b, pat, rep)
    decreases |a|
  {
    if |a| > 0 {
      var s := a + b;
      ReplaceAllSkipsFirst(s, pat, rep);
      assert s[0] == a[0] && s[1..] == a[1..] + b;
      NoOccurrenceInTail(a, b, pat);
      ReplaceAllCopiesPrefix(a[1..], b, pat, rep);
      var r := ReplaceAll(b, pat, rep);
      assert [a[0]] + (a[1..] + r) == ([a[0]] + a[1..]) + r;
      assert [a[0]] + a[1..] == a;
    } else {
      assert a + b == b;
    }
  }

  /** Dropping the first character of a non-empty, occurrence-free prefix keeps it occurrence-free. */
  lemma NoOccurrenceInTail(a: string, b: string, pat: string)
    requires |a| > 0
    requires forall k :: 0 <= k < |a| ==> !OccursAt(a + b, pat, k)
    ensures forall k :: 0 <= k < |a| - 1 ==> !OccursAt(a[1..] + b, pat, k)
  {
    var s := a + b;
    assert s[1..] == a[1..] + b;
    forall k | 0 <= k < |a| - 1
      ensures !OccursAt(a[1..] + b, pat, k)
    {
      OccursAtTail(s, pat, k);
    }
  }

  /** Where no occurrence starts at index 0, the first character is kept and scanning moves on by one. */
  lemma ReplaceAllSkipsFirst(s: string, pat: string, rep: string)
    requires |pat| > 0 && |s| > 0 && !OccursAt(s, pat, 0)
    ensures ReplaceAll(s, pat, rep) == [s[0]] + ReplaceAll(s[1..], pat, rep)
  {
    assert !(pat <= s) by {
      if |pat| <= |s| {
        assert s[0..|pat|] == s[..|pat|];
      }
    }
  }

  /** A leading occurrence of the pattern is replaced, and scanning resumes after it. */
  lemma ReplaceAllLeading(b: string, pat: string, rep: string)
    requires |pat| > 0
    ensures ReplaceAll(pat + b, pat, rep) == rep + ReplaceAll(b, pat, rep)
  {
    assert (pat + b)[|pat|..] == b;
  }

  /** One step of replacing a single character: the first character is replaced or kept. */
  lemma ReplaceCharStep(s: string, c: char, rep: string)
    requires |s| > 0
    ensures ReplaceAll(s, [c], rep) == (if s[0] == c then rep else [s[0]]) + ReplaceAll(s[1..], [c], rep)
  {
    assert [c] <= s <==> s[0] == c;
  }

  /**
   * Replacing a single character distributes over concatenation: every
   * occurrence of `c` is replaced where it stands.
   */
  lemma {:induction false} ReplaceCharAppend(a: string, b: string, c: char, rep: string)
    ensures ReplaceAll(a + b, [c], rep) == ReplaceAll(a, [c], rep) + ReplaceAll(b, [c], rep)
    decreases |a|
  {
    if |a| > 0 {
      var s := a + b;
      assert s[0] == a[0] && s[1..] == a[1..] + b;
      ReplaceCharStep(s, c, rep);
      ReplaceCharStep(a, c, rep);
      ReplaceCharAppend(a[1..], b, c, rep);
      var h := if a[0] == c then rep else [a[0]];
      assert h + (ReplaceAll(a[1..], [c], rep) + ReplaceAll(b, [c], rep))
          == (h + ReplaceAll(a[1..], [c], rep)) + ReplaceAll(b, [c], rep);
    } else {
      assert a + b == b;
    }
  }

  // ---------------------------------------------------------------------------
  // Lemmas about Trim

  /** Trimming a string whose ends are not whitespace leaves it unchanged. */
  lemma TrimTrimmed(s: string)
    requires Trimmed(s)
    ensures Trim(s) == s
  {
  }

  /** Trimming around a non-empty trimmed core keeps the core whole and cuts only into the text on either side. */
  lemma TrimKeepsCore(a: string, p: string, b: string)
    requires |p| > 0 && Trimmed(p)
    ensures exists i, j :: 0 <= i <= |a| && 0 <= j <= |b| && Trim(a + p + b) == a[i..] + p + b[..j]
  {
    var t := a + p + b;
    var r := Trim(t);
    var i, j :| CutsWhitespace(t, r, i, j);
    CoreInsideCut(a, p, b, r, i, j);
    assert Trim(t) == a[i..] + p + b[..j - |a| - |p|];
  }

  /** A cut of whitespace only cannot reach into a core whose ends are not whitespace. */
  lemma CoreInsideCut(a: string, p: string, b: string, r: string, i: int, j: int)
    requires |p| > 0 && Trimmed(p) && CutsWhitespace(a + p + b, r, i, j)
    ensures i <= |a| && |a| + |p| <= j
    ensures r == a[i..] + p + b[..j - |a| - |p|]
  {
    var t := a + p + b;
    assert t[|a|] == p[0];
    assert t[|a| + |p| - 1] == p[|p| - 1];
    assert t[i..j] == a[i..] + p + b[..j - |a| - |p|];
  }

  /** Whitespace around a trimmed, non-empty core is all that `trim` removes. */
  lemma {:induction false} TrimAround(w1: string, p: string, w2: string)
    requires |p| > 0 && Trimmed(p)
    requires forall k :: 0 <= k < |w1| ==> IsWhitespace(w1[k])
    requires forall k :: 0 <= k < |w2| ==> IsWhitespace(w2[k])
    ensures Trim(w1 + p + w2) == p
  {
    var s := w1 + p + w2;
    var a := TrimStart(s);
    // `a` is a suffix of `s` starting with a non-whitespace character, and everything
    // before it is whitespace, so it starts exactly where `p` does.
    assert s[|w1|] == p[0];
    assert a == p + w2;
    var r := TrimEnd(a);
    assert a[|p| - 1] == p[|p| - 1];
    assert r == p;
  }
}
