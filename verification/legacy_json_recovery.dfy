/**
 * The second copy of `cleanJson`, in src/services/gemini.service.ts, written
 * the way the code runs: a forward search for the first opener and a backward
 * `for` loop that cuts after the last closer and breaks. It is proved to
 * compute exactly `JsonRecovery.CleanJson`, so every property proved there
 * holds of this copy too.
 */
module LegacyJsonRecovery {
  import opened Wrappers
  import opened Strings
  import JsonRecovery

  /** `clean.search(/[{[]/)`: the index of the first `{` or `[`, or -1 when there is none. */
  method SearchOpener(s: string) returns (idx: int)
    ensures -1 <= idx < |s|
    ensures idx == -1 <==> JsonRecovery.FirstOpener(s).None?
    ensures idx >= 0 ==> JsonRecovery.FirstOpener(s) == Some(idx)
  {
    idx := 0;
    while idx < |s|
      invariant 0 <= idx <= |s|
      invariant forall k :: 0 <= k < idx ==> !JsonRecovery.IsOpener(s[k])
    {
      if s[idx] == '{' || s[idx] == '[' {
        return;
      }
      idx := idx + 1;
    }
    idx := -1;
  }

  /** `cleanJson(text)` as written in the second service file. */
  method CleanJson(text: string) returns (clean: string)
    ensures clean == JsonRecovery.CleanJson(text)
    ensures !Contains(clean, JsonRecovery.Fence)
    ensures IsSlice(clean, JsonRecovery.Prepared(text))
  {
    clean := Trim(ReplaceAll(ReplaceAll(text, JsonRecovery.JsonFence, ""), JsonRecovery.Fence, ""));
    clean := CutToBrackets(clean);
  }

  /** The bracket cuts of `cleanJson`: the prefix cut, then the backward scan that breaks at the last closer. */
  method CutToBrackets(prepared: string) returns (clean: string)
    ensures clean == JsonRecovery.Extract(prepared)
  {
    clean := prepared;
    var firstBrace := SearchOpener(clean);
    if firstBrace > 0 {
      clean := clean[firstBrace..];
    }
    assert clean == JsonRecovery.FromFirstOpener(prepared);
    clean := CutAfterLastCloser(clean);
  }

  /** The backward `for` loop: cut right after the first closer met from the end, then stop. */
  method CutAfterLastCloser(u: string) returns (clean: string)
    ensures clean == JsonRecovery.ThroughLastCloser(u)
  {
    clean := u;
    var i := |u| - 1;
    while i >= 0
      invariant -1 <= i < |u|
      invariant forall k :: i < k < |u| ==> !JsonRecovery.IsCloser(u[k])
    {
      if u[i] == '}' || u[i] == ']' {
        assert JsonRecovery.LastCloser(u) == Some(i);
        clean := u[..i + 1];
        return;
      }
      i := i - 1;
    }
  }

  /**
   * `JSON.parse(this.cleanJson(response.text || fallback))` up to the parse:
   * an absent or empty reply yields the fallback itself, any other reply its
   * cleaned form.
   */
  method RecoverReply(reply: Option<string>, fallback: string) returns (json: string)
    requires fallback == "{}" || fallback == "[]"
    ensures reply.None? || reply.value == "" ==> json == fallback
    ensures reply.Some? && reply.value != "" ==> json == JsonRecovery.CleanJson(reply.value)
  {
    var text := JsonRecovery.ReplyOr(reply, fallback);
    json := CleanJson(text);
    JsonRecovery.FallbacksAreFixedPoints(fallback);
  }
}
