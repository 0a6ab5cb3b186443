/**
 * The root controller (src/app/app.component.ts) as a reducer. Every user
 * action and every completion of an asynchronous service call is a separate
 * transition of an immutable state; a transition that starts a service call
 * also returns that call, so "no call is made" can be stated.
 *
 * `R`, `I` and `G` stand for the parsed roadmap, the parsed insights and a
 * grounding source; their contents play no part here.
 */
module AppController {
  import opened Wrappers
  import opened Strings

  /** The career form. A control `reset` clears holds `null`, written `""` here. */
  datatype CareerForm = CareerForm(role: string, location: string, level: string, difficulty: string, goal: string)

  /** Every control is `Validators.required`: non-empty. */
  predicate FormValid(f: CareerForm)
  {
    f.role != "" && f.location != "" && f.level != "" && f.difficulty != "" && f.goal != ""
  }

  /** The form as first built, and as `reset` leaves it. */
  const BlankForm: CareerForm := CareerForm("", "", "Beginner", "Intermediate", "")

  /** The arguments `generate` passes to the roadmap call. */
  datatype Query = Query(role: string, level: string, goal: string, location: string, difficulty: string)

  /** A service call a transition starts. */
  datatype Call = RoadmapCall(query: Query) | InsightsCall(role: string, location: string)

  datatype State<R, I, G> = State(
    form: CareerForm,
    isLoading: bool,
    isInsightsLoading: bool,
    roadmapData: Option<R>,
    insightsData: Option<I>,
    error: Option<string>,
    roadmapSources: seq<G>,
    activeTab: string,
    showFeedback: bool,
    feedbackSent: bool,
    showInfo: bool)

  const GenericError: string := "Unable to analyze career data. Please verify inputs and try again."
  const ConfigError: string := "Configuration Error: Invalid or Missing API Key in environment."

  /** The message shown for a failed roadmap call, chosen by substring tests on the error's text. */
  function ClassifyError(err: string): (msg: string)
    ensures msg == ConfigError <==> Contains(err, "400") || Contains(err, "API key") || Contains(err, "403")
    ensures msg == GenericError <==> !(Contains(err, "400") || Contains(err, "API key") || Contains(err, "403"))
  {
    if Contains(err, "400") || Contains(err, "API key") || Contains(err, "403") then ConfigError
    else GenericError
  }

  /** The start of `generate`: an invalid form changes nothing and calls nothing. */
  function Generate<R, I, G>(s: State<R, I, G>): (r: (State<R, I, G>, Option<Call>))
    ensures !FormValid(s.form) ==> r == (s, None)
    ensures FormValid(s.form) ==>
      && r.0.isLoading && r.0.isInsightsLoading
      && r.0.error.None? && r.0.roadmapData.None? && r.0.insightsData.None?
      && r.0.roadmapSources == [] && r.0.activeTab == "roadmap"
      && r.0.form == s.form
      && r.0.showFeedback == s.showFeedback && r.0.feedbackSent == s.feedbackSent
      && r.0.showInfo == s.showInfo
      && r.1 == Some(RoadmapCall(Query(s.form.role, s.form.level, s.form.goal, s.form.location, s.form.difficulty)))
  {
    if !FormValid(s.form) then (s, None)
    else
      var f := s.form;
      (s.(isLoading := true, isInsightsLoading := true, error := None, roadmapData := None,
          insightsData := None, roadmapSources := [], activeTab := "roadmap"),
       Some(RoadmapCall(Query(f.role, f.level, f.goal, f.location, f.difficulty))))
  }

  /** The roadmap call for `q` resolved: data and sources shown, main loading over, insights requested. */
  function RoadmapSucceeded<R, I, G>(s: State<R, I, G>, q: Query, data: R, grounding: seq<G>): (r: (State<R, I, G>, Option<Call>))
    ensures r.0.roadmapData == Some(data) && r.0.roadmapSources == grounding && !r.0.isLoading
    ensures r.0.isInsightsLoading == s.isInsightsLoading && r.0.error == s.error
    ensures r.0.(roadmapData := s.roadmapData, roadmapSources := s.roadmapSources, isLoading := s.isLoading) == s
    ensures r.1 == Some(InsightsCall(q.role, q.location))
  {
    (s.(roadmapData := Some(data), roadmapSources := grounding, isLoading := false),
     Some(InsightsCall(q.role, q.location)))
  }

  /** The roadmap call rejected with an error whose text is `err`: message set, both loading flags off. */
  function RoadmapFailed<R, I, G>(s: State<R, I, G>, err: string): (r: State<R, I, G>)
    ensures r.error == Some(ClassifyError(err)) && !r.isLoading && !r.isInsightsLoading
    ensures r.roadmapData == s.roadmapData && r.insightsData == s.insightsData
    ensures r.(error := s.error, isLoading := s.isLoading, isInsightsLoading := s.isInsightsLoading) == s
  {
    s.(error := Some(ClassifyError(err)), isLoading := false, isInsightsLoading := false)
  }

  /** The insights call resolved. */
  function InsightsSucceeded<R, I, G>(s: State<R, I, G>, res: I): (r: State<R, I, G>)
    ensures r.insightsData == Some(res) && !r.isInsightsLoading
    ensures r.(insightsData := s.insightsData, isInsightsLoading := s.isInsightsLoading) == s
  {
    s.(insightsData := Some(res), isInsightsLoading := false)
  }

  /** The insights call rejected: only logged; the loading flag still clears. */
  function InsightsFailed<R, I, G>(s: State<R, I, G>): (r: State<R, I, G>)
    ensures !r.isInsightsLoading && r.(isInsightsLoading := s.isInsightsLoading) == s
  {
    s.(isInsightsLoading := false)
  }

  /** `setTab` (the scrolling it schedules is left out). */
  function SetTab<R, I, G>(s: State<R, I, G>, tab: string): (r: State<R, I, G>)
    ensures r.activeTab == tab && r.(activeTab := s.activeTab) == s
  {
    s.(activeTab := tab)
  }

  /**
   * `reset`: clears the roadmap and resets the form to its defaults; the
   * insights, the error, the tab and the grounding sources stay as they were.
   */
  function Reset<R, I, G>(s: State<R, I, G>): (r: State<R, I, G>)
    ensures r.roadmapData.None? && r.form == BlankForm
    ensures r.insightsData == s.insightsData && r.error == s.error && r.activeTab == s.activeTab
    ensures r.isLoading == s.isLoading && r.isInsightsLoading == s.isInsightsLoading
    ensures r.roadmapSources == s.roadmapSources
    ensures r.(roadmapData := s.roadmapData, form := s.form) == s
  {
    s.(roadmapData := None, form := BlankForm)
  }

  /** `toggleFeedback`: flips the dialog; closing it also clears the sent flag. */
  function ToggleFeedback<R, I, G>(s: State<R, I, G>): (r: State<R, I, G>)
    ensures r.showFeedback == !s.showFeedback
    ensures r.feedbackSent == (s.feedbackSent && r.showFeedback)
    ensures r.(showFeedback := s.showFeedback, feedbackSent := s.feedbackSent) == s
  {
    var shown := !s.showFeedback;
    s.(showFeedback := shown, feedbackSent := if !shown then false else s.feedbackSent)
  }

  /** `toggleInfo`. */
  function ToggleInfo<R, I, G>(s: State<R, I, G>): (r: State<R, I, G>)
    ensures r.showInfo == !s.showInfo && r.(showInfo := s.showInfo) == s
  {
    s.(showInfo := !s.showInfo)
  }

  /** `submitFeedback`, up to the timer that later closes the dialog. */
  function SubmitFeedback<R, I, G>(s: State<R, I, G>): (r: State<R, I, G>)
    ensures r.feedbackSent && r.(feedbackSent := s.feedbackSent) == s
  {
    s.(feedbackSent := true)
  }

  // ---------------------------------------------------------------------------
  // Properties of whole flows

  /** With any field empty, `generate` changes no state and makes no call. */
  lemma EmptyFieldBlocksGenerate<R, I, G>(s: State<R, I, G>)
    requires s.form.role == "" || s.form.location == "" || s.form.level == ""
             || s.form.difficulty == "" || s.form.goal == ""
    ensures Generate(s) == (s, None)
  {
  }

  /**
   * After a successful roadmap the main spinner is gone while insights are
   * still loading; a later insights failure clears only that flag and keeps
   * the roadmap, the error slot and the (empty) insights untouched.
   */
  lemma InsightsFailureKeepsRoadmap<R, I, G>(s: State<R, I, G>, data: R, grounding: seq<G>)
    requires FormValid(s.form)
    ensures var (started, call) := Generate(s);
            var (shown, next) := RoadmapSucceeded(started, call.value.query, data, grounding);
            var done := InsightsFailed(shown);
            && !shown.isLoading && shown.isInsightsLoading
            && next == Some(InsightsCall(s.form.role, s.form.location))
            && done.roadmapData == Some(data) && done.roadmapSources == grounding
            && done.error.None? && done.insightsData.None?
            && !done.isLoading && !done.isInsightsLoading
  {
  }

  /** After a successful roadmap and insights, both results are shown and nothing is loading. */
  lemma BothCallsSucceed<R, I, G>(s: State<R, I, G>, data: R, grounding: seq<G>, res: I)
    requires FormValid(s.form)
    ensures var (started, call) := Generate(s);
            var shown := RoadmapSucceeded(started, call.value.query, data, grounding).0;
            var done := InsightsSucceeded(shown, res);
            && done.roadmapData == Some(data) && done.insightsData == Some(res)
            && done.error.None? && !done.isLoading && !done.isInsightsLoading
  {
  }

  /**
   * A failed roadmap call leaves no roadmap, stops both spinners and shows
   * the configuration message exactly when the error text mentions 400,
   * 403 or "API key".
   */
  lemma RoadmapFailureAfterStart<R, I, G>(s: State<R, I, G>, err: string)
    requires FormValid(s.form)
    ensures var failed := RoadmapFailed(Generate(s).0, err);
            && failed.roadmapData.None? && failed.insightsData.None?
            && !failed.isLoading && !failed.isInsightsLoading
            && (failed.error == Some(ConfigError) <==>
                Contains(err, "400") || Contains(err, "API key") || Contains(err, "403"))
            && (failed.error == Some(GenericError) <==>
                !(Contains(err, "400") || Contains(err, "API key") || Contains(err, "403")))
  {
  }

  /** Two sample errors: a 403 reads as a key problem, a timeout as a generic failure. */
  lemma ClassifierExamples()
    ensures ClassifyError("Error: 403 Forbidden") == ConfigError
    ensures ClassifyError("network timeout") == GenericError
  {
    assert OccursAt("Error: 403 Forbidden", "403", 7);
    NoFirstCharNoOccurrence("network timeout", "400");
    NoFirstCharNoOccurrence("network timeout", "403");
    NoFirstCharNoOccurrence("network timeout", "API key");
  }

  /** After `reset` the form is incomplete again, so `generate` does nothing until it is refilled. */
  lemma ResetBlocksGenerate<R, I, G>(s: State<R, I, G>)
    ensures Generate(Reset(s)) == (Reset(s), None)
  {
  }

  /** Opening and then closing the feedback dialog returns to a closed, unsent dialog. */
  lemma FeedbackOpenClose<R, I, G>(s: State<R, I, G>)
    requires !s.showFeedback
    ensures var closed := ToggleFeedback(SubmitFeedback(ToggleFeedback(s)));
            !closed.showFeedback && !closed.feedbackSent
            && closed == s.(feedbackSent := false)
  {
  }

  /** Toggling the info panel twice restores the state. */
  lemma InfoToggleInvolution<R, I, G>(s: State<R, I, G>)
    ensures ToggleInfo(ToggleInfo(s)) == s
  {
  }
}
