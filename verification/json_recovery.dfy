/**
 * The JSON-recovery step of the AI gateway (`cleanJson` in
 * src/app/services/gemini.service.ts): it turns the model's raw reply text
 * into the part that should be a JSON document.
 *
 *   1. remove every "```json" marker, then every "```" marker;
 *   2. trim surrounding whitespace;
 *   3. if a `{` or `[` occurs at a positive index, drop everything before the first one;
 *   4. scanning from the end, cut right after the last `}` or `]`, if any.
 *
 * The heuristic does not balance brackets and does not know about string
 * literals: the last closer wins whether or not it matches anything.
 */
module JsonRecovery {
  import opened Wrappers
  import opened Strings

  const Fence: string := "```"
  const JsonFence: string := "```json"

  predicate IsOpener(c: char) { c == '{' || c == '[' }

  predicate IsCloser(c: char) { c == '}' || c == ']' }

  /** Step 1: the reply with every code-fence marker removed. */
  function Unfence(text: string): string
  {
    ReplaceAll(ReplaceAll(text, JsonFence, ""), Fence, "")
  }

  /** Steps 1 and 2: the text the bracket search works on. */
  function Prepared(text: string): string
  {
    Trim(Unfence(text))
  }

  /** `clean.search(/[{[]/)`: the index of the first opener, if any. */
  function FirstOpener(s: string): (r: Option<nat>)
    ensures r.Some? ==> r.value < |s| && IsOpener(s[r.value])
                        && forall k :: 0 <= k < r.value ==> !IsOpener(s[k])
    ensures r.None? ==> forall k :: 0 <= k < |s| ==> !IsOpener(s[k])
    decreases |s|
  {
    if |s| == 0 then None
    else if IsOpener(s[0]) then Some(0)
    else match FirstOpener(s[1..])
      case None => None
      case Some(i) => Some(i + 1)
  }

  /** The backward scan for `}` or `]`: the index of the last closer, if any. */
  function LastCloser(s: string): (r: Option<nat>)
    ensures r.Some? ==> r.value < |s| && IsCloser(s[r.value])
                        && forall k :: r.value < k < |s| ==> !IsCloser(s[k])
    ensures r.None? ==> forall k :: 0 <= k < |s| ==> !IsCloser(s[k])
    decreases |s|
  {
    if |s| == 0 then None
    else if IsCloser(s[|s| - 1]) then Some(|s| - 1)
    else LastCloser(s[..|s| - 1])
  }

  /** Step 3: the prepared text from its first opener on (unchanged when there is none). */
  function FromFirstOpener(t: string): string
  {
    match FirstOpener(t)
    case Some(i) => if i > 0 then t[i..] else t
    case None => t
  }

  /** Step 4: a string cut right after its last closer (unchanged when there is none). */
  function ThroughLastCloser(u: string): string
  {
    match LastCloser(u)
    case Some(j) => u[..j + 1]
    case None => u
  }

  /** Steps 3 and 4 applied to the prepared text `t`. */
  function Extract(t: string): string
  {
    ThroughLastCloser(FromFirstOpener(t))
  }

  /**
   * `cleanJson(text)`: a contiguous slice of the fence-stripped, trimmed reply
   * that holds no triple backtick.
   */
  function CleanJson(text: string): (r: string)
    ensures IsSlice(r, Prepared(text))
    ensures !Contains(r, Fence)
  {
    ExtractIsSlice(Prepared(text));
    PreparedExtractHasNoFence(text);
    Extract(Prepared(text))
  }

  /** `response.text || fallback`: an absent or empty reply is replaced by the fallback. */
  function ReplyOr(reply: Option<string>, fallback: string): (r: string)
    ensures reply.Some? && reply.value != "" ==> r == reply.value
    ensures reply.None? || reply.value == "" ==> r == fallback
  {
    match reply
    case Some(t) => if t != "" then t else fallback
    case None => fallback
  }

  /** Starts with an opener and ends with a closer. */
  predicate Bracketed(p: string)
  {
    |p| > 0 && IsOpener(p[0]) && IsCloser(p[|p| - 1])
  }

  /**
   * The text `JSON.parse` receives for a reply and the call's fallback
   * (`'{}'` or `'[]'`): a non-empty reply is cleaned, and a missing or empty
   * one yields a bracketed, fence-free fallback unchanged.
   */
  function Recover(reply: Option<string>, fallback: string): (r: string)
    ensures reply.Some? && reply.value != "" ==> r == CleanJson(reply.value)
    ensures (reply.None? || reply.value == "") && Bracketed(fallback) && !Contains(fallback, Fence) ==> r == fallback
  {
    BracketedIsFixedPoint(fallback);
    CleanJson(ReplyOr(reply, fallback))
  }

  // ---------------------------------------------------------------------------
  // Properties

  /** No triple backtick survives removing every "```": leftover backtick runs are shorter than three. */
  lemma {:induction false} StripFenceLeavesNone(s: string)
    ensures !Contains(ReplaceAll(s, Fence, ""), Fence)
    decreases |s|
  {
    var r := ReplaceAll(s, Fence, "");
    if |s| == 0 {
    } else if Fence <= s {
      StripFenceLeavesNone(s[3..]);
      assert r == ReplaceAll(s[3..], Fence, "");
    } else {
      var rest := ReplaceAll(s[1..], Fence, "");
      StripFenceLeavesNone(s[1..]);
      assert r == [s[0]] + rest;
      if Contains(r, Fence) {
        ContainsCons(s[0], rest, Fence);
        // the occurrence would have to start at index 0
        assert r[0] == '`' && r[1] == '`' && r[2] == '`';
        assert s[0] == '`';
        NoDoubleTickAfterStrip(s[1..]);
        assert false;
      }
    }
  }

  /** If `t` does not start with two backticks, neither does its fence-stripped form. */
  lemma NoDoubleTickAfterStrip(t: string)
    requires !("``" <= t)
    ensures |ReplaceAll(t, Fence, "")| < 2
            || ReplaceAll(t, Fence, "")[0] != '`' || ReplaceAll(t, Fence, "")[1] != '`'
  {
    if |t| > 0 {
      assert !(Fence <= t);
      assert ReplaceAll(t, Fence, "") == [t[0]] + ReplaceAll(t[1..], Fence, "");
      if t[0] == '`' && |t| > 1 {
        assert t[1] != '`';
        assert !(Fence <= t[1..]);
        assert ReplaceAll(t[1..], Fence, "") == [t[1]] + ReplaceAll(t[2..], Fence, "");
      }
    }
  }

  /** The extracted part is a contiguous slice of the prepared text: nothing is added or reordered. */
  lemma ExtractIsSlice(t: string)
    ensures IsSlice(Extract(t), t)
  {
    var u := FromFirstOpener(t);
    var r := Extract(t);
    assert IsSlice(u, t) by {
      assert u == t[|t| - |u|..|t|];
    }
    assert IsSlice(r, u) by {
      assert r == u[0..|r|];
    }
    SliceOfSlice(r, u, t);
  }

  /** With an opener present, the prefix cut keeps exactly the text from the first one on. */
  lemma FromFirstOpenerAt(t: string)
    requires FirstOpener(t).Some?
    ensures FromFirstOpener(t) == t[FirstOpener(t).value..]
  {
  }

  /** Cutting after the last closer keeps a prefix, and a non-empty one of a non-empty string. */
  lemma ThroughLastCloserPrefix(u: string)
    ensures ThroughLastCloser(u) <= u
    ensures |u| > 0 ==> |ThroughLastCloser(u)| > 0
  {
  }

  /** When `t` holds an opener, the extracted part starts at the first one and keeps what follows it. */
  lemma ExtractStartsAtFirstOpener(t: string)
    requires FirstOpener(t).Some?
    ensures var i := FirstOpener(t).value;
            |Extract(t)| > 0 && Extract(t)[0] == t[i] && Extract(t) <= t[i..]
  {
    FromFirstOpenerAt(t);
    ThroughLastCloserPrefix(FromFirstOpener(t));
  }

  /**
   * When a closer is left after the prefix cut, the extracted part ends with
   * the last one and everything after it is dropped; otherwise nothing is cut.
   */
  lemma ExtractEndsAtLastCloser(t: string)
    ensures var u := FromFirstOpener(t); var r := Extract(t);
            && r <= u
            && (if exists k :: 0 <= k < |u| && IsCloser(u[k])
                then |r| > 0 && IsCloser(r[|r| - 1])
                     && forall k :: |r| <= k < |u| ==> !IsCloser(u[k])
                else r == u)
  {
    var u := FromFirstOpener(t);
    if LastCloser(u).None? {
      assert !exists k :: 0 <= k < |u| && IsCloser(u[k]);
    }
  }

  /** Extraction from a trimmed text gives a trimmed result: an opener/closer or a trimmed end bounds it on each side. */
  lemma ExtractIsTrimmed(t: string)
    requires Trimmed(t)
    ensures Trimmed(Extract(t))
  {
    var u := FromFirstOpener(t);
    var r := Extract(t);
    if |r| > 0 {
      FirstCharNotWhitespace(t);
      LastCharNotWhitespace(t);
    }
  }

  lemma FirstCharNotWhitespace(t: string)
    requires Trimmed(t) && |Extract(t)| > 0
    ensures !IsWhitespace(Extract(t)[0])
  {
    var u := FromFirstOpener(t);
    var r := Extract(t);
    assert r[0] == u[0];
    if FirstOpener(t).Some? {
      assert u[0] == t[FirstOpener(t).value];
    } else {
      assert u[0] == t[0];
    }
  }

  lemma LastCharNotWhitespace(t: string)
    requires Trimmed(t) && |Extract(t)| > 0
    ensures !IsWhitespace(Extract(t)[|Extract(t)| - 1])
  {
    var u := FromFirstOpener(t);
    var r := Extract(t);
    assert u == t[|t| - |u|..];
    if LastCloser(u).Some? {
      assert r[|r| - 1] == u[LastCloser(u).value];
    } else {
      assert r == u;
      assert u[|u| - 1] == t[|t| - 1];
    }
  }

  /** The extracted part has no text before an opener left to drop. */
  lemma FromFirstOpenerOfExtract(t: string)
    ensures FromFirstOpener(Extract(t)) == Extract(t)
  {
    var r := Extract(t);
    if FirstOpener(t).Some? {
      ExtractStartsAtFirstOpener(t);
      assert FirstOpener(r) == Some(0);
    } else {
      ExtractIsSlice(t);
      var i0, j0 :| 0 <= i0 <= j0 <= |t| && r == t[i0..j0];
      assert forall k :: 0 <= k < |r| ==> r[k] == t[i0 + k];
      assert FirstOpener(r).None?;
    }
  }

  /** The extracted part has no text after a closer left to drop. */
  lemma ThroughLastCloserOfExtract(t: string)
    ensures ThroughLastCloser(Extract(t)) == Extract(t)
  {
    var u := FromFirstOpener(t);
    var r := Extract(t);
    match LastCloser(u)
    case Some(j) =>
      assert r == u[..j + 1];
      assert LastCloser(r) == Some(|r| - 1);
    case None =>
      assert r == u;
  }

  /** Extracting again from an extracted part changes nothing. */
  lemma ExtractIdempotent(t: string)
    ensures Extract(Extract(t)) == Extract(t)
  {
    FromFirstOpenerOfExtract(t);
    ThroughLastCloserOfExtract(t);
  }

  /** No triple backtick survives in what is extracted from the prepared reply. */
  lemma PreparedExtractHasNoFence(text: string)
    ensures !Contains(Extract(Prepared(text)), Fence)
  {
    var s := Unfence(text);
    var t := Prepared(text);
    var r := Extract(t);
    StripFenceLeavesNone(ReplaceAll(text, JsonFence, ""));
    ExtractIsSlice(t);
    SliceOfSlice(r, t, s);
    if Contains(r, Fence) {
      ContainsInSlice(r, s, Fence);
    }
  }

  /** When the prepared reply holds an opener, the output starts at the first one. */
  lemma CleanStartsAtFirstOpener(text: string)
    requires FirstOpener(Prepared(text)).Some?
    ensures var t := Prepared(text); var i := FirstOpener(t).value;
            |CleanJson(text)| > 0 && CleanJson(text)[0] == t[i] && CleanJson(text) <= t[i..]
  {
    ExtractStartsAtFirstOpener(Prepared(text));
  }

  /** When a closer remains after the prefix cut, the output ends with the last one; the tail is dropped. */
  lemma CleanEndsAtLastCloser(text: string)
    ensures var u := FromFirstOpener(Prepared(text)); var r := CleanJson(text);
            && r <= u
            && (if exists k :: 0 <= k < |u| && IsCloser(u[k])
                then |r| > 0 && IsCloser(r[|r| - 1])
                     && forall k :: |r| <= k < |u| ==> !IsCloser(u[k])
                else r == u)
  {
    ExtractEndsAtLastCloser(Prepared(text));
  }

  /** Without opener or closer, the result is just the fence-stripped, trimmed reply. */
  lemma CleanWithoutBrackets(text: string)
    requires var t := Prepared(text);
             forall k :: 0 <= k < |t| ==> !IsOpener(t[k]) && !IsCloser(t[k])
    ensures CleanJson(text) == Prepared(text)
  {
    var t := Prepared(text);
    assert FirstOpener(t).None?;
    assert LastCloser(t).None?;
  }

  /** Removing the markers from a text without "```" changes nothing. */
  lemma UnfenceIdentity(r: string)
    requires !Contains(r, Fence)
    ensures Unfence(r) == r
  {
    if Contains(r, JsonFence) {
      ContainsPrefix(r, Fence, JsonFence);
    }
  }

  /** A text free of fences whose ends are not whitespace is its own prepared form. */
  lemma PreparedIdentity(r: string)
    requires !Contains(r, Fence) && Trimmed(r)
    ensures Prepared(r) == r
  {
    UnfenceIdentity(r);
    TrimTrimmed(r);
  }

  /** Cleaning an already cleaned string returns it unchanged. */
  lemma CleanIdempotent(text: string)
    ensures CleanJson(CleanJson(text)) == CleanJson(text)
  {
    var t := Prepared(text);
    var r := CleanJson(text);
    ExtractIsTrimmed(t);
    PreparedIdentity(r);
    ExtractIdempotent(t);
  }

  /** Extraction keeps a text that starts with an opener and ends with a closer whole. */
  lemma ExtractBracketed(p: string)
    requires Bracketed(p)
    ensures Extract(p) == p
  {
    assert FirstOpener(p) == Some(0);
    assert FromFirstOpener(p) == p;
    assert LastCloser(p) == Some(|p| - 1);
    assert p[..|p|] == p;
  }

  /** A text without "```" that starts with an opener and ends with a closer is returned as is. */
  lemma BracketedIsFixedPoint(p: string)
    ensures Bracketed(p) && !Contains(p, Fence) ==> CleanJson(p) == p
  {
    if Bracketed(p) && !Contains(p, Fence) {
      assert Trimmed(p);
      PreparedIdentity(p);
      ExtractBracketed(p);
    }
  }

  /** The `'{}'` and `'[]'` fallbacks pass through cleaning unchanged, and stand in for a missing or empty reply. */
  lemma FallbacksAreFixedPoints(fallback: string)
    requires fallback == "{}" || fallback == "[]"
    ensures CleanJson(fallback) == fallback
    ensures Recover(None, fallback) == fallback && Recover(Some(""), fallback) == fallback
  {
    assert Bracketed(fallback) by {
      assert |fallback| == 2 && IsOpener(fallback[0]) && IsCloser(fallback[1]);
    }
    NoFirstCharNoOccurrence(fallback, Fence);
    BracketedIsFixedPoint(fallback);
  }

  /**
   * A fenced reply gives back exactly its payload: "```json", whitespace, a
   * bracketed payload without "```", whitespace, "```".
   */
  lemma FencedPayload(w1: string, p: string, w2: string)
    requires Bracketed(p) && !Contains(p, Fence)
    requires forall k :: 0 <= k < |w1| ==> IsWhitespace(w1[k])
    requires forall k :: 0 <= k < |w2| ==> IsWhitespace(w2[k])
    ensures CleanJson(JsonFence + w1 + p + w2 + Fence) == p
  {
    var body := w1 + p + w2;
    var s := JsonFence + w1 + p + w2 + Fence;
    assert s == JsonFence + body + Fence;
    FenceOnlyAtEnd(w1, p, w2);
    UnfenceFenced(body);
    assert Trimmed(p);
    TrimAround(w1, p, w2);
    assert Prepared(s) == p;
    ExtractBracketed(p);
  }

  /**
   * In whitespace, a bracketed payload without "```", whitespace and a closing
   * "```", the only "```" is the closing one.
   */
  lemma FenceOnlyAtEnd(w1: string, p: string, w2: string)
    requires Bracketed(p) && !Contains(p, Fence)
    requires forall k :: 0 <= k < |w1| ==> IsWhitespace(w1[k])
    requires forall k :: 0 <= k < |w2| ==> IsWhitespace(w2[k])
    ensures forall k :: 0 <= k < |w1 + p + w2| ==> !OccursAt(w1 + p + w2 + Fence, Fence, k)
  {
    var x := w1 + p + w2 + Fence;
    var e := |w1| + |p|;
    forall k | 0 <= k < |w1 + p + w2|
      ensures !OccursAt(x, Fence, k)
    {
      if k < |w1| {
        assert x[k] == w1[k];
        assert x[k] != '`';
      } else if k + 3 <= e {
        assert x[k..k + 3] == p[k - |w1|..k - |w1| + 3];
        assert !OccursAt(p, Fence, k - |w1|);
      } else if k < e {
        assert x[e - 1] == p[|p| - 1];
        assert x[k..k + 3][e - 1 - k] == x[e - 1];
      } else {
        assert x[k] == w2[k - e];
        assert x[k] != '`';
      }
    }
  }

  /** Removing the markers from "```json" + body + "```" leaves the body when the closing "```" is its only one. */
  lemma UnfenceFenced(body: string)
    requires forall k :: 0 <= k < |body| ==> !OccursAt(body + Fence, Fence, k)
    ensures Unfence(JsonFence + body + Fence) == body
  {
    var y := body + Fence;
    assert JsonFence + body + Fence == JsonFence + y;
    ReplaceAllLeading(y, JsonFence, "");
    NoJsonFenceBeforeClosing(body);
    assert ReplaceAll(y, JsonFence, "") == y;
    assert ReplaceAll(JsonFence + body + Fence, JsonFence, "") == y;
    ClosingFenceRemoved(body);
  }

  /** Where "```" occurs only as the closing marker, "```json" does not occur at all. */
  lemma NoJsonFenceBeforeClosing(body: string)
    requires forall k :: 0 <= k < |body| ==> !OccursAt(body + Fence, Fence, k)
    ensures !Contains(body + Fence, JsonFence)
  {
    var y := body + Fence;
    forall k | 0 <= k <= |y| - |JsonFence|
      ensures !OccursAt(y, JsonFence, k)
    {
      assert !OccursAt(y, Fence, k);
      assert y[k..k + |JsonFence|][..3] == y[k..k + 3];
    }
  }

  /** Removing "```" from a body followed by its only "```" leaves the body. */
  lemma ClosingFenceRemoved(body: string)
    requires forall k :: 0 <= k < |body| ==> !OccursAt(body + Fence, Fence, k)
    ensures ReplaceAll(body + Fence, Fence, "") == body
  {
    ReplaceAllCopiesPrefix(body, Fence, Fence, "");
    ReplaceAllLeading("", Fence, "");
    assert Fence + "" == Fence;
  }

  /**
   * Text before the first opener and after the last closer is cut away,
   * leaving the bracketed payload.
   */
  lemma ProseAroundPayload(a: string, p: string, b: string)
    requires Bracketed(p)
    requires forall k :: 0 <= k < |a| ==> !IsOpener(a[k])
    requires forall k :: 0 <= k < |b| ==> !IsCloser(b[k])
    requires !Contains(a + p + b, Fence)
    ensures CleanJson(a + p + b) == p
  {
    var t := a + p + b;
    UnfenceIdentity(t);
    assert Trimmed(p);
    TrimKeepsCore(a, p, b);
    var i, j :| 0 <= i <= |a| && 0 <= j <= |b| && Trim(t) == a[i..] + p + b[..j];
    assert Prepared(t) == a[i..] + p + b[..j];
    ExtractAroundSlices(a, p, b, i, j);
  }

  /** `ExtractAround` for a suffix of the leading text and a prefix of the trailing text. */
  lemma ExtractAroundSlices(a: string, p: string, b: string, i: nat, j: nat)
    requires Bracketed(p) && i <= |a| && j <= |b|
    requires forall k :: 0 <= k < |a| ==> !IsOpener(a[k])
    requires forall k :: 0 <= k < |b| ==> !IsCloser(b[k])
    ensures Extract(a[i..] + p + b[..j]) == p
  {
    ExtractAround(a[i..], p, b[..j]);
  }

  lemma ExtractAround(a: string, p: string, b: string)
    requires Bracketed(p)
    requires forall k :: 0 <= k < |a| ==> !IsOpener(a[k])
    requires forall k :: 0 <= k < |b| ==> !IsCloser(b[k])
    ensures Extract(a + p + b) == p
  {
    var t := a + p + b;
    var f := FirstOpener(t);
    assert IsOpener(t[|a|]) by { assert t[|a|] == p[0]; }
    assert f.Some?;
    assert f.value == |a|;
    var u := t[|a|..];
    assert u == p + b;
    var l := LastCloser(u);
    assert IsCloser(u[|p| - 1]) by { assert u[|p| - 1] == p[|p| - 1]; }
    assert l.Some?;
    assert l.value == |p| - 1;
    assert Extract(t) == u[..|p|];
  }

  /** Worked example: `Some text {"a":1} trailing` gives `{"a":1}`. */
  lemma ProseAroundObject()
    ensures CleanJson("Some text {\"a\":1} trailing") == "{\"a\":1}"
  {
    var a, p, b := "Some text ", "{\"a\":1}", " trailing";
    assert a + p + b == "Some text {\"a\":1} trailing";
    NoFirstCharNoOccurrence(a + p + b, Fence);
    ProseAroundPayload(a, p, b);
  }

  /** Worked example: a fenced payload on its own lines comes back without the fences. */
  lemma FencedExample()
    ensures CleanJson("```json\n{\"a\":1}\n```") == "{\"a\":1}"
  {
    assert "```json\n{\"a\":1}\n```" == JsonFence + "\n" + "{\"a\":1}" + "\n" + Fence;
    NoFirstCharNoOccurrence("{\"a\":1}", Fence);
    FencedPayload("\n", "{\"a\":1}", "\n");
  }

  /**
   * Brackets are not balanced: a stray closer after a complete object is
   * kept, because the last closer wins even when it matches nothing.
   */
  lemma UnbalancedCloserKept()
    ensures CleanJson("{\"a\":1} note }") == "{\"a\":1} note }"
  {
    var t := "{\"a\":1} note }";
    assert Bracketed(t);
    assert '`' !in t;
    NoFirstCharNoOccurrence(t, Fence);
    BracketedIsFixedPoint(t);
  }

  /** Braces inside a string value do not disturb the cut when the object ends the reply. */
  lemma BracesInsideStringValue()
    ensures CleanJson("{\"a\":\"b{c}d\"}") == "{\"a\":\"b{c}d\"}"
  {
    var t := "{\"a\":\"b{c}d\"}";
    assert Bracketed(t);
    assert '`' !in t;
    NoFirstCharNoOccurrence(t, Fence);
    BracketedIsFixedPoint(t);
  }
}
