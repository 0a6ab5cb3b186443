/**
 * The older root controller (src/app.component.ts): one loading flag that a
 * `finally` clears, a single generic error message, and an insights call
 * whose completion is fire-and-forget.
 */
module LegacyAppController {
  import opened Wrappers
  import AppController
  import Strings

  datatype State<R, I, G> = State(
    form: AppController.CareerForm,
    isLoading: bool,
    roadmapData: Option<R>,
    insightsData: Option<I>,
    error: Option<string>,
    roadmapSources: seq<G>,
    activeTab: string)

  /** The start of `generate`: an invalid form changes nothing and calls nothing. */
  function Generate<R, I, G>(s: State<R, I, G>): (r: (State<R, I, G>, Option<AppController.Call>))
    ensures !AppController.FormValid(s.form) ==> r == (s, None)
    ensures AppController.FormValid(s.form) ==>
      && r.0.isLoading && r.0.error.None? && r.0.roadmapData.None? && r.0.insightsData.None?
      && r.0.roadmapSources == [] && r.0.activeTab == "roadmap" && r.0.form == s.form
      && r.1 == Some(AppController.RoadmapCall(AppController.Query(
                  s.form.role, s.form.level, s.form.goal, s.form.location, s.form.difficulty)))
  {
    if !AppController.FormValid(s.form) then (s, None)
    else
      var f := s.form;
      (s.(isLoading := true, error := None, roadmapData := None, insightsData := None,
          roadmapSources := [], activeTab := "roadmap"),
       Some(AppController.RoadmapCall(AppController.Query(f.role, f.level, f.goal, f.location, f.difficulty))))
  }

  /** The roadmap call resolved: data and sources set, the insights call started, then `finally` ends loading. */
  function RoadmapSucceeded<R, I, G>(s: State<R, I, G>, q: AppController.Query, data: R, grounding: seq<G>)
    : (r: (State<R, I, G>, Option<AppController.Call>))
    ensures r.0.roadmapData == Some(data) && r.0.roadmapSources == grounding && !r.0.isLoading
    ensures r.0.(roadmapData := s.roadmapData, roadmapSources := s.roadmapSources, isLoading := s.isLoading) == s
    ensures r.1 == Some(AppController.InsightsCall(q.role, q.location))
  {
    (s.(roadmapData := Some(data), roadmapSources := grounding, isLoading := false),
     Some(AppController.InsightsCall(q.role, q.location)))
  }

  /** The roadmap call rejected: always the generic message, whatever the error says. */
  function RoadmapFailed<R, I, G>(s: State<R, I, G>, err: string): (r: State<R, I, G>)
    ensures r.error == Some(AppController.GenericError) && !r.isLoading
    ensures r.roadmapData == s.roadmapData && r.insightsData == s.insightsData
    ensures r.(error := s.error, isLoading := s.isLoading) == s
  {
    s.(error := Some(AppController.GenericError), isLoading := false)
  }

  /** The insights call resolved: only `insightsData` changes. */
  function InsightsSucceeded<R, I, G>(s: State<R, I, G>, res: I): (r: State<R, I, G>)
    ensures r.insightsData == Some(res) && r.(insightsData := s.insightsData) == s
  {
    s.(insightsData := Some(res))
  }

  /** The insights call rejected: only logged. */
  function InsightsFailed<R, I, G>(s: State<R, I, G>): (r: State<R, I, G>)
    ensures r == s
  {
    s
  }

  /** `setTab`: changes only the active tab. */
  function SetTab<R, I, G>(s: State<R, I, G>, tab: string): (r: State<R, I, G>)
    ensures r.activeTab == tab && r.(activeTab := s.activeTab) == s
  {
    s.(activeTab := tab)
  }

  /** `reset`: clears the roadmap and resets the form to its defaults. */
  function Reset<R, I, G>(s: State<R, I, G>): (r: State<R, I, G>)
    ensures r.roadmapData.None? && r.form == AppController.BlankForm
    ensures r.(roadmapData := s.roadmapData, form := s.form) == s
  {
    s.(roadmapData := None, form := AppController.BlankForm)
  }

  /** With any field empty, `generate` changes no state and makes no call. */
  lemma EmptyFieldBlocksGenerate<R, I, G>(s: State<R, I, G>)
    requires s.form.role == "" || s.form.location == "" || s.form.level == ""
             || s.form.difficulty == "" || s.form.goal == ""
    ensures Generate(s) == (s, None)
  {
  }

  /** A failed roadmap after a start leaves no roadmap, ends loading and shows the generic message. */
  lemma RoadmapFailureAfterStart<R, I, G>(s: State<R, I, G>, err: string)
    requires AppController.FormValid(s.form)
    ensures var failed := RoadmapFailed(Generate(s).0, err);
            failed.roadmapData.None? && !failed.isLoading && failed.error == Some(AppController.GenericError)
  {
  }

  /** A success followed by a failed insights call keeps the roadmap and the empty error slot. */
  lemma InsightsFailureKeepsRoadmap<R, I, G>(s: State<R, I, G>, data: R, grounding: seq<G>)
    requires AppController.FormValid(s.form)
    ensures var (started, call) := Generate(s);
            var shown := RoadmapSucceeded(started, call.value.query, data, grounding).0;
            var done := InsightsFailed(shown);
            done.roadmapData == Some(data) && done.error.None? && done.insightsData.None? && !done.isLoading
  {
  }

  /**
   * Where the two controllers part ways: a 403 from the roadmap call shows
   * the configuration message in the newer one and the generic one here.
   */
  lemma ClassifierOnlyInNewerController<R, I, G>(s: State<R, I, G>)
    ensures RoadmapFailed(s, "HTTP 403").error == Some(AppController.GenericError)
    ensures AppController.ClassifyError("HTTP 403") == AppController.ConfigError
  {
    assert Strings.OccursAt("HTTP 403", "403", 5);
  }
}
