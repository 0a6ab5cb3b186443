/**
 * The interview-prep component (src/app/components/interview-prep.component.ts):
 * the accordion of answers and the load/refresh flow of the question list.
 * `Q` stands for a parsed question.
 */
module InterviewPrep {
  import opened Wrappers

  datatype State<Q> = State(questions: seq<Q>, isLoading: bool, openIndex: Option<int>)

  /** `toggleAnswer(index)`: closes the open answer, or opens this one instead of any other. */
  function ToggleAnswer<Q>(s: State<Q>, index: int): (r: State<Q>)
    ensures s.openIndex == Some(index) ==> r.openIndex.None?
    ensures s.openIndex != Some(index) ==> r.openIndex == Some(index)
    ensures r.questions == s.questions && r.isLoading == s.isLoading
  {
    s.(openIndex := if s.openIndex == Some(index) then None else Some(index))
  }

  /** The start of `generateQuestions`: loading on, and the questions call for `role` goes out. */
  function GenerateQuestions<Q>(s: State<Q>, role: string): (r: (State<Q>, string))
    ensures r.0.isLoading && r.0.questions == s.questions && r.0.openIndex == s.openIndex
    ensures r.1 == role
  {
    (s.(isLoading := true), role)
  }

  /** The call resolved: the list is replaced, loading off; the open answer is left as it was. */
  function QuestionsArrived<Q>(s: State<Q>, data: seq<Q>): (r: State<Q>)
    ensures r.questions == data && !r.isLoading && r.openIndex == s.openIndex
  {
    s.(questions := data, isLoading := false)
  }

  /** The call rejected: only logged; loading off. */
  function QuestionsFailed<Q>(s: State<Q>): (r: State<Q>)
    ensures !r.isLoading && r.questions == s.questions && r.openIndex == s.openIndex
  {
    s.(isLoading := false)
  }

  /** The button's text. */
  function ButtonLabel<Q>(s: State<Q>): (text: string)
    ensures text == "Refresh" <==> |s.questions| > 0
    ensures text == "Load Questions" <==> |s.questions| == 0
  {
    if |s.questions| > 0 then "Refresh" else "Load Questions"
  }

  /** What the questions column shows. */
  datatype Panel = Thinking | NoQuestions | QuestionList

  /** The button's `[disabled]` binding: disabled exactly while the column shows the thinking panel. */
  function ButtonDisabled<Q>(s: State<Q>): (disabled: bool)
    ensures disabled <==> PanelOf(s) == Thinking
  {
    s.isLoading
  }

  function PanelOf<Q>(s: State<Q>): (p: Panel)
    ensures p == Thinking <==> s.isLoading
    ensures p == QuestionList <==> !s.isLoading && |s.questions| > 0
  {
    if s.isLoading then Thinking
    else if |s.questions| == 0 then NoQuestions
    else QuestionList
  }

  /** Toggling the same answer twice from the closed accordion closes it again. */
  lemma ToggleTwiceCloses<Q>(s: State<Q>, i: int)
    requires s.openIndex.None?
    ensures ToggleAnswer(s, i).openIndex == Some(i)
    ensures ToggleAnswer(ToggleAnswer(s, i), i) == s
  {
  }

  /** Opening another answer closes the first: at most one answer is open. */
  lemma OpeningAnotherClosesFirst<Q>(s: State<Q>, i: int, j: int)
    requires i != j
    ensures ToggleAnswer(ToggleAnswer(s, i), j).openIndex == Some(j)
  {
  }

  /**
   * A load disables the button while it runs; afterwards the button is
   * enabled again, a success shows the new list and labels the button
   * "Refresh" when it is non-empty, a failure keeps the old list, and the
   * open answer is never reset.
   */
  lemma LoadFlow<Q>(s: State<Q>, role: string, data: seq<Q>)
    ensures var started := GenerateQuestions(s, role).0;
            && ButtonDisabled(started) && PanelOf(started) == Thinking
            && !ButtonDisabled(QuestionsArrived(started, data))
            && QuestionsArrived(started, data).questions == data
            && (|data| > 0 ==> ButtonLabel(QuestionsArrived(started, data)) == "Refresh")
            && QuestionsArrived(started, data).openIndex == s.openIndex
            && !ButtonDisabled(QuestionsFailed(started))
            && QuestionsFailed(started).questions == s.questions
            && QuestionsFailed(started).openIndex == s.openIndex
  {
  }
}
