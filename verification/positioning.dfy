/**
 * The positioning component (src/app/components/positioning.component.ts):
 * readiness-score banding for the score ring, badge and label, the
 * markdown-lite verdict formatter, and the calculate / reset state flow.
 */
module Positioning {
  import opened Wrappers
  import opened Strings

  // ---------------------------------------------------------------------------
  // Score banding

  /**
   * A readiness score as the template hands it over (`data()?.readinessScore`).
   * `Missing` stands for the non-numbers JavaScript treats as falsy there:
   * `undefined`, `null` and `NaN`.
   */
  datatype Score = Missing | Num(value: real)

  /** `!score`: missing, or numerically zero. */
  predicate Falsy(score: Score)
  {
    score.Missing? || score.value == 0.0
  }

  /** `getScoreColor`: the colour of the score's band. */
  function ScoreColor(score: Score): (r: string)
    ensures r == ColorOf(BandOf(score))
  {
    if Falsy(score) then "#27272a"
    else if score.value >= 80.0 then "#10b981"
    else if score.value >= 60.0 then "#fbbf24"
    else "#ef4444"
  }

  /** `getScoreLabel`: the label of the score's band. */
  function ScoreLabel(score: Score): (r: string)
    ensures r == LabelOf(BandOf(score))
  {
    if Falsy(score) then "Calculating..."
    else if score.value >= 80.0 then "Highly Strategic"
    else if score.value >= 60.0 then "Possible Fit"
    else "Challenging Fit"
  }

  /** `getScoreBadgeClass`: the badge classes of the score's band. */
  function ScoreBadgeClass(score: Score): (r: string)
    ensures r == BadgeOf(BandOf(score))
  {
    if Falsy(score) then "bg-zinc-900 text-zinc-500 border-zinc-800"
    else if score.value >= 80.0 then "bg-emerald-500/10 text-emerald-400 border-emerald-500/20"
    else if score.value >= 60.0 then "bg-amber-500/10 text-amber-400 border-amber-500/20"
    else "bg-red-500/10 text-red-400 border-red-500/20"
  }

  /** The four bands the three functions share. */
  datatype Band = Pending | Strategic | Possible | Challenging

  /** The band of a score, stated by ranges: zero or missing, [80, inf), [60, 80), the rest. */
  function BandOf(score: Score): Band
  {
    if score.Missing? || score.value == 0.0 then Pending
    else if 80.0 <= score.value then Strategic
    else if 60.0 <= score.value < 80.0 then Possible
    else Challenging
  }

  /** Order of the scored bands; `Pending` is not on the scale. */
  function Rank(b: Band): nat
  {
    match b
    case Pending => 0
    case Challenging => 1
    case Possible => 2
    case Strategic => 3
  }

  /** The colour each band is drawn in. */
  function ColorOf(b: Band): string
  {
    match b
    case Pending => "#27272a"
    case Strategic => "#10b981"
    case Possible => "#fbbf24"
    case Challenging => "#ef4444"
  }

  /** The label each band is shown with. */
  function LabelOf(b: Band): string
  {
    match b
    case Pending => "Calculating..."
    case Strategic => "Highly Strategic"
    case Possible => "Possible Fit"
    case Challenging => "Challenging Fit"
  }

  /** The badge classes of each band. */
  function BadgeOf(b: Band): string
  {
    match b
    case Pending => "bg-zinc-900 text-zinc-500 border-zinc-800"
    case Strategic => "bg-emerald-500/10 text-emerald-400 border-emerald-500/20"
    case Possible => "bg-amber-500/10 text-amber-400 border-amber-500/20"
    case Challenging => "bg-red-500/10 text-red-400 border-red-500/20"
  }

  /** Distinct bands have distinct colours, labels and badge classes. */
  lemma BandTablesInjective(a: Band, b: Band)
    ensures ColorOf(a) == ColorOf(b) ==> a == b
    ensures LabelOf(a) == LabelOf(b) ==> a == b
    ensures BadgeOf(a) == BadgeOf(b) ==> a == b
  {
    // the colours differ in their second character, the labels in length
    assert ColorOf(a)[1] == ColorOf(b)[1] ==> a == b;
    assert |LabelOf(a)| == |LabelOf(b)| ==> a == b;
    BadgesDistinct();
  }

  /** The four badge class lists are pairwise different. */
  lemma BadgesDistinct()
    ensures BadgeOf(Pending) != BadgeOf(Strategic) && BadgeOf(Pending) != BadgeOf(Possible)
    ensures BadgeOf(Pending) != BadgeOf(Challenging) && BadgeOf(Strategic) != BadgeOf(Possible)
    ensures BadgeOf(Strategic) != BadgeOf(Challenging) && BadgeOf(Possible) != BadgeOf(Challenging)
  {
  }

  /**
   * Knowing one output determines the other two: two scores get the same
   * colour exactly when they get the same label, exactly when they get the
   * same badge class, exactly when they fall in the same band.
   */
  lemma OneOutputDeterminesTheOthers(s: Score, t: Score)
    ensures ScoreColor(s) == ScoreColor(t) <==> BandOf(s) == BandOf(t)
    ensures ScoreLabel(s) == ScoreLabel(t) <==> BandOf(s) == BandOf(t)
    ensures ScoreBadgeClass(s) == ScoreBadgeClass(t) <==> BandOf(s) == BandOf(t)
  {
    BandTablesInjective(BandOf(s), BandOf(t));
  }

  /** Negative scores are not special-cased: they are non-zero and below 60, so "Challenging Fit". */
  lemma NegativeScoresChallenging(v: real)
    requires v < 0.0
    ensures BandOf(Num(v)) == Challenging && ScoreColor(Num(v)) == "#ef4444"
  {
  }

  /** Among non-zero scores, raising the score never moves it to a lower band. */
  lemma BandMonotone(v: real, w: real)
    requires v != 0.0 && w != 0.0 && v <= w
    ensures 1 <= Rank(BandOf(Num(v))) <= Rank(BandOf(Num(w)))
  {
  }

  // ---------------------------------------------------------------------------
  // Verdict formatting

  /** The characters JavaScript's regular-expression `.` does not match. */
  predicate IsLineTerminator(c: char)
  {
    c == '\n' || c == '\r' || c == '\U{2028}' || c == '\U{2029}'
  }

  predicate LineFree(x: string)
  {
    forall i :: 0 <= i < |x| ==> !IsLineTerminator(x[i])
  }

  /** Two asterisks start at index `k` of `t`. */
  predicate StarPairAt(t: string, k: int)
  {
    0 <= k && k + 1 < |t| && t[k] == '*' && t[k + 1] == '*'
  }

  /**
   * The lazy `(.*?)\*\*` after an opening `**`: the length of the shortest
   * line-terminator-free prefix of `t` that is followed by `**`, if any.
   */
  function CloseAt(t: string): (r: Option<nat>)
    ensures r.Some? ==> StarPairAt(t, r.value) && LineFree(t[..r.value])
                        && forall k :: 0 <= k < r.value ==> !StarPairAt(t, k)
    ensures r.None? ==> forall k :: 0 <= k < |t| && StarPairAt(t, k) ==> !LineFree(t[..k])
    decreases |t|
  {
    if StarPairAt(t, 0) then Some(0)
    else if |t| == 0 || IsLineTerminator(t[0]) then None
    else
      CloseAtShift(t);
      match CloseAt(t[1..])
      case None => None
      case Some(k) => Some(k + 1)
  }

  /** Dropping the first, non-terminator character shifts pair positions by one. */
  lemma CloseAtShift(t: string)
    requires |t| > 0 && !IsLineTerminator(t[0])
    ensures forall k :: 1 <= k ==> (StarPairAt(t, k) <==> StarPairAt(t[1..], k - 1))
    ensures forall k :: 1 <= k <= |t| ==> (LineFree(t[..k]) <==> LineFree(t[1..][..k - 1]))
  {
    forall k | 1 <= k <= |t| ensures LineFree(t[..k]) <==> LineFree(t[1..][..k - 1]) {
      assert t[..k] == [t[0]] + t[1..][..k - 1];
    }
  }

  /** The closing search gives up at a line terminator reached before any asterisk. */
  lemma {:induction false} CloseAtStopsAtTerminator(x: string, c: char, z: string)
    requires '*' !in x && IsLineTerminator(c)
    ensures CloseAt(x + [c] + z).None?
    decreases |x|
  {
    var t := x + [c] + z;
    if |x| == 0 {
      assert t[0] == c;
    } else {
      assert t[0] == x[0] && !StarPairAt(t, 0);
      if !IsLineTerminator(t[0]) {
        assert t[1..] == x[1..] + [c] + z;
        CloseAtStopsAtTerminator(x[1..], c, z);
      }
    }
  }

  /** Without asterisks there is nothing to close a pair. */
  lemma {:induction false} CloseAtStarFree(x: string)
    requires '*' !in x
    ensures CloseAt(x).None?
    decreases |x|
  {
    if |x| > 0 {
      assert !StarPairAt(x, 0);
      if !IsLineTerminator(x[0]) {
        CloseAtStarFree(x[1..]);
      }
    }
  }

  const StrongOpen: string := "<strong class=\"text-white font-semibold\">"
  const StrongClose: string := "</strong>"

  function Strong(x: string): string
  {
    StrongOpen + x + StrongClose
  }

  /**
   * The global bold rule of `formatVerdict`: two asterisks, the shortest run
   * of characters other than line terminators, two asterisks, replaced by a
   * `<strong>` element around the run. Scanning left to right, at each
   * position where `**` opens a pair that closes before a line terminator,
   * the leftmost shortest pair is rewritten and scanning resumes after it;
   * otherwise the character is kept. Text without an asterisk is unchanged.
   */
  function Embolden(s: string): (r: string)
    ensures '*' !in s ==> r == s
    decreases |s|
  {
    if |s| == 0 then ""
    else if StarPairAt(s, 0) && CloseAt(s[2..]).Some? then
      var k := CloseAt(s[2..]).value;
      Strong(s[2..2 + k]) + Embolden(s[4 + k..])
    else [s[0]] + Embolden(s[1..])
  }

  /** `formatted.replace(/\n/g, '<br/>')`: no newline is left, and text without one is unchanged. */
  function BreakLines(s: string): (r: string)
    ensures '\n' !in r
    ensures '\n' !in s ==> r == s
  {
    NoFirstCharNoOccurrence(s, "\n");
    ReplaceAll(s, "\n", "<br/>")
  }

  /**
   * `formatVerdict(text)`, returning the plain string the sanitizer wraps.
   * `None` is a missing verdict.
   */
  function FormatVerdict(text: Option<string>): (r: string)
    ensures text.None? || text.value == "" ==> r == ""
    ensures '\n' !in r
  {
    match text
    case None => ""
    case Some(t) =>
      if t == "" then ""
      else
        BreakLines(Embolden(t))
  }

  /** A pair of `**` around star-free, single-line text becomes one `<strong>` element. */
  lemma EmboldenPair(x: string, rest: string)
    requires '*' !in x && LineFree(x)
    ensures Embolden("**" + x + "**" + rest) == Strong(x) + Embolden(rest)
  {
    var s := "**" + x + "**" + rest;
    var t := s[2..];
    assert t == x + "**" + rest;
    assert StarPairAt(t, |x|);
    assert t[..|x|] == x;
    assert forall k :: 0 <= k < |x| ==> t[k] == x[k];
    assert CloseAt(t) == Some(|x|);
    assert s[2..2 + |x|] == x;
    assert s[4 + |x|..] == rest;
  }

  /** Text without asterisks is copied through unchanged. */
  lemma {:induction false} EmboldenStarFreePrefix(a: string, b: string)
    requires '*' !in a
    ensures Embolden(a + b) == a + Embolden(b)
    decreases |a|
  {
    if |a| > 0 {
      var s := a + b;
      assert s[0] == a[0] && s[1..] == a[1..] + b;
      EmboldenStarFreePrefix(a[1..], b);
      assert a == [a[0]] + a[1..];
    } else {
      assert a + b == b;
    }
  }

  /** Text with no two adjacent asterisks is returned unchanged by the bold rule. */
  lemma {:induction false} EmboldenWithoutPairs(s: string)
    requires forall k :: 0 <= k < |s| ==> !StarPairAt(s, k)
    ensures Embolden(s) == s
    decreases |s|
  {
    if |s| > 0 {
      assert !StarPairAt(s, 0);
      forall k | 0 <= k < |s[1..]| ensures !StarPairAt(s[1..], k) {
        assert !StarPairAt(s, k + 1);
      }
      EmboldenWithoutPairs(s[1..]);
    }
  }

  /** When no `**` in `s` can be closed, the bold rule returns `s` unchanged. */
  lemma {:induction false} EmboldenUnclosable(s: string)
    requires forall k :: 0 <= k < |s| && StarPairAt(s, k) ==> CloseAt(s[k + 2..]).None?
    ensures Embolden(s) == s
    decreases |s|
  {
    if |s| > 0 {
      forall k | 0 <= k < |s[1..]| && StarPairAt(s[1..], k)
        ensures CloseAt(s[1..][k + 2..]).None?
      {
        assert StarPairAt(s, k + 1);
        assert s[1..][k + 2..] == s[k + 3..];
      }
      EmboldenUnclosable(s[1..]);
    }
  }

  /** A lone `**` with no asterisk around it stays literal. */
  lemma UnpairedStarsStayLiteral(a: string, b: string)
    requires '*' !in a && '*' !in b
    ensures Embolden(a + "**" + b) == a + "**" + b
  {
    var s := a + "**" + b;
    forall k | 0 <= k < |s| ensures StarPairAt(s, k) ==> CloseAt(s[k + 2..]).None? {
      if k < |a| {
        assert s[k] == a[k];
      } else if k == |a| {
        assert s[k + 2..] == b;
        CloseAtStarFree(b);
      } else if k + 1 < |s| {
        assert s[k + 1] == b[k - |a| - 1];
      }
    }
    EmboldenUnclosable(s);
  }

  /** A pair whose inside spans a line terminator is not rewritten. */
  lemma PairAcrossLineBreakStaysLiteral(x: string, c: char, y: string)
    requires '*' !in x && '*' !in y && IsLineTerminator(c)
    ensures Embolden("**" + x + [c] + y + "**") == "**" + x + [c] + y + "**"
  {
    var body := x + [c] + y;
    var s := "**" + x + [c] + y + "**";
    assert s == "**" + body + "**";
    assert forall i :: 0 <= i < |body| ==> body[i] != '*';
    forall k | 0 <= k < |s| ensures StarPairAt(s, k) ==> CloseAt(s[k + 2..]).None? {
      if k == 0 {
        assert s[2..] == x + [c] + (y + "**");
        CloseAtStopsAtTerminator(x, c, y + "**");
      } else if k == 1 {
        assert s[2] == body[0];
      } else if k < |s| - 2 {
        assert s[k] == body[k - 2];
      } else if k == |s| - 2 {
        assert s[k + 2..] == [];
      }
    }
    EmboldenUnclosable(s);
  }

  /** Each newline becomes `<br/>` where it stands. */
  lemma BreakLinesSplits(a: string, b: string)
    ensures BreakLines(a + "\n" + b) == BreakLines(a) + "<br/>" + BreakLines(b)
    ensures '\n' !in a ==> BreakLines(a) == a
  {
    ReplaceCharAppend(a + "\n", b, '\n', "<br/>");
    ReplaceCharAppend(a, "\n", '\n', "<br/>");
    assert ReplaceAll("\n", "\n", "<br/>") == "<br/>" by {
      ReplaceAllLeading("", "\n", "<br/>");
      assert "\n" + "" == "\n";
    }
    if '\n' !in a {
      NoFirstCharNoOccurrence(a, "\n");
    }
  }

  /** A verdict with neither `**` nor a newline is returned unchanged. */
  lemma PlainVerdictUnchanged(t: string)
    requires forall k :: 0 <= k < |t| ==> !StarPairAt(t, k)
    requires '\n' !in t
    ensures FormatVerdict(Some(t)) == t
  {
    EmboldenWithoutPairs(t);
    NoFirstCharNoOccurrence(t, "\n");
  }

  // ---------------------------------------------------------------------------
  // Calculate / reset

  /** The calculator form; every control is `Validators.required`. */
  datatype CalcForm = CalcForm(education: string, skills: string, experienceLevel: string, experience: string)

  predicate FormValid(f: CalcForm)
  {
    f.education != "" && f.skills != "" && f.experienceLevel != "" && f.experience != ""
  }

  /** The component's required inputs. */
  datatype Context = Context(role: string, location: string, level: string, goal: string)

  /** The arguments of the positioning-analysis call, as `calculate` passes them. */
  datatype AnalysisRequest = AnalysisRequest(
    role: string, location: string, level: string, goal: string,
    skills: string, education: string, experience: string, experienceLevel: string)

  /** The component's signals; `D` is the parsed analysis the service returns. */
  datatype State<D> = State(data: Option<D>, isLoading: bool)

  /** The start of `calculate`: an invalid form changes nothing and calls nothing. */
  function Calculate<D>(ctx: Context, form: CalcForm, s: State<D>): (r: (State<D>, Option<AnalysisRequest>))
    ensures !FormValid(form) ==> r.0 == s && r.1.None?
    ensures FormValid(form) ==> r.0.isLoading && r.0.data == s.data && r.1.Some?
    ensures r.1.Some? ==> r.1.value.skills == form.skills && r.1.value.education == form.education
                          && r.1.value.experience == form.experience
                          && r.1.value.experienceLevel == form.experienceLevel
                          && r.1.value.role == ctx.role && r.1.value.location == ctx.location
                          && r.1.value.level == ctx.level && r.1.value.goal == ctx.goal
  {
    if !FormValid(form) then (s, None)
    else
      (s.(isLoading := true),
       Some(AnalysisRequest(ctx.role, ctx.location, ctx.level, ctx.goal,
                            form.skills, form.education, form.experience, form.experienceLevel)))
  }

  /** The analysis call resolved: `data` takes the result, loading ends. */
  function AnalysisSucceeded<D>(s: State<D>, result: D): (r: State<D>)
    ensures r.data == Some(result) && !r.isLoading
  {
    s.(data := Some(result), isLoading := false)
  }

  /** The analysis call rejected: the error is only logged, loading ends. */
  function AnalysisFailed<D>(s: State<D>): (r: State<D>)
    ensures r.data == s.data && !r.isLoading
  {
    s.(isLoading := false)
  }

  /** `resetAnalysis`: clears the result and nothing else. */
  function ResetAnalysis<D>(s: State<D>): (r: State<D>)
    ensures r.data.None? && r.isLoading == s.isLoading
  {
    s.(data := None)
  }

  /** The template's three panels. */
  predicate FormShown<D>(s: State<D>) { s.data.None? && !s.isLoading }
  predicate SpinnerShown<D>(s: State<D>) { s.isLoading }
  predicate ResultShown<D>(s: State<D>) { s.data.Some? }

  /**
   * A full calculation: with a valid form the spinner shows; when the call
   * completes the spinner is gone, a success shows the new result and a
   * failure keeps whatever `data` held before.
   */
  lemma CalculateThenComplete<D>(ctx: Context, form: CalcForm, s: State<D>, result: D)
    requires FormValid(form)
    ensures var started := Calculate(ctx, form, s).0;
            && SpinnerShown(started)
            && AnalysisSucceeded(started, result).data == Some(result)
            && ResultShown(AnalysisSucceeded(started, result))
            && !SpinnerShown(AnalysisSucceeded(started, result))
            && AnalysisFailed(started).data == s.data
            && !SpinnerShown(AnalysisFailed(started))
  {
  }

  /** With any field empty, `calculate` leaves every panel as it was. */
  lemma InvalidFormIsNoOp<D>(ctx: Context, form: CalcForm, s: State<D>)
    requires form.education == "" || form.skills == "" || form.experienceLevel == "" || form.experience == ""
    ensures Calculate(ctx, form, s) == (s, None)
  {
  }

  /** "Recalculate" from a shown result brings the form back. */
  lemma ResetShowsForm<D>(s: State<D>)
    requires ResultShown(s) && !SpinnerShown(s)
    ensures FormShown(ResetAnalysis(s)) && !ResultShown(ResetAnalysis(s))
  {
  }
}
