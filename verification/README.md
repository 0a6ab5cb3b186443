# Career-analysis front end: a Dafny model of its logic

The application collects a role, a location, a level, a difficulty and a goal. It sends prompts built from
them to a generative-AI text service and renders the JSON it gets back. Its own logic is small:

- **JSON recovery** (`cleanJson`, present in both service files): cuts the model's raw reply down to the
  part that should parse as JSON.
- **Score banding and verdict formatting** in the positioning component.
- **Company grouping** and the display conditions of the two tech-hubs components.
- **UI state flows** of the root controllers (old and new), the positioning calculator and interview prep.

This project models each of these in Dafny and proves properties of it.

Modelling choices:

- Strings are `seq<char>`.
- Nullable values are `Option` (`None` for `null`/`undefined`).
- Every component's signals are an immutable state record.
- Each user action and each completion of an asynchronous service call is a pure transition. A transition
  that starts a service call also returns that call (`Call`, `AnalysisRequest`, the role passed to the
  questions call), so "no call is made" is a statement about a value.
- The parsed payloads the service returns (roadmap, insights, analysis, questions, grounding sources) are
  type parameters wherever the code only stores and passes them on. Where the code reads into a payload,
  the model gives it a shape: the insights record (companies, city and state tables), the readiness score
  and the verdict of the analysis.

Modules, one per source file:

| module | file |
|---|---|
| `Wrappers` | `Option` |
| `Strings` | literal global `replace`, `includes`, ECMAScript `trim` |
| `JsonRecovery` | `cleanJson` of src/app/services/gemini.service.ts and the `response.text || '{}'` fallbacks |
| `LegacyJsonRecovery` | the copy in src/services/gemini.service.ts, as a method with the source's search and backward loop, proved equal to `JsonRecovery.CleanJson` |
| `Positioning` | src/app/components/positioning.component.ts |
| `TechHubs` | src/app/components/tech-hubs.component.ts |
| `LegacyTechHubs` | src/components/tech-hubs.component.ts |
| `InterviewPrep` | src/app/components/interview-prep.component.ts |
| `AppController` | src/app/app.component.ts |
| `LegacyAppController` | src/app.component.ts |

Behaviour of the code worth knowing before reading the contracts:

- `generate` clears `roadmapData`, `insightsData` and the sources when it starts, before any reply arrives,
  so the results of an earlier run are gone even when the new run fails (`AppController.Generate`,
  `LegacyAppController.Generate`).
- Only the root controller's roadmap call sets an error message. The positioning and interview-prep calls
  only log a failure: `data` / `questions` keep their previous value and the loading flag clears.
- The backward search for the last closer scans the text left after the prefix cut, not the whole reply.
  Closers before the first opener are dropped with the prefix; if no closer follows the first opener, the
  text from that opener to the end is returned whole (`] [` gives `[`).

## Model

| member | source | states |
|---|---|---|
| `Strings.Trim` | src/app/services/gemini.service.ts:18 | `trim` removes only whitespace and only from the two ends, and leaves no ECMAScript whitespace at either end of the result |
| `Strings.ReplaceAll` | src/app/services/gemini.service.ts:18 | a global literal `replace` changes nothing when the pattern does not occur, leaves no occurrence of a single replaced character when the replacement lacks it, and keeps the length for a same-length replacement |
| `JsonRecovery.FirstOpener` | src/app/services/gemini.service.ts:19 | the search returns the index of a `{` or `[` with none before it, or none exactly when the text has no opener |
| `JsonRecovery.LastCloser` | src/app/services/gemini.service.ts:23-28 | the backward scan stops at a `}` or `]` with no closer after it, or finds nothing exactly when the text has no closer |
| `JsonRecovery.CleanStartsAtFirstOpener` | src/app/services/gemini.service.ts:19-22 | if the fence-stripped, trimmed text has an opener, the output starts with the first one and is a prefix of the text from there |
| `JsonRecovery.CleanEndsAtLastCloser` | src/app/services/gemini.service.ts:23-28 | if a closer remains after the prefix cut, the output ends with a closer and no closer follows it in the cut text; otherwise nothing is cut |
| `JsonRecovery.CleanJson` | src/app/services/gemini.service.ts:17-30 | the output is a contiguous substring of the fence-stripped, trimmed text (nothing added or reordered) and never contains a triple backtick |
| `JsonRecovery.CleanWithoutBrackets` | src/app/services/gemini.service.ts:18-29 | text with neither opener nor closer comes back as the fence-stripped, trimmed text |
| `JsonRecovery.CleanIdempotent` | src/app/services/gemini.service.ts:17-30 | cleaning a cleaned string returns it unchanged |
| `JsonRecovery.BracketedIsFixedPoint` | src/app/services/gemini.service.ts:17-30 | a text without "```" that starts with an opener and ends with a closer is returned as is |
| `JsonRecovery.UnbalancedCloserKept` | src/app/services/gemini.service.ts:23-28 | brackets are not balanced: `{"a":1} note }` is returned whole, stray closer included |
| `JsonRecovery.BracesInsideStringValue` | src/app/services/gemini.service.ts:23-28 | `{"a":"b{c}d"}` is returned whole |
| `JsonRecovery.ProseAroundPayload` | src/app/services/gemini.service.ts:17-30 | in a reply without "```", text without openers before a bracketed payload and without closers after it is cut away, whitespace included, leaving exactly the payload |
| `JsonRecovery.ProseAroundObject` | src/app/services/gemini.service.ts:17-30 | `Some text {"a":1} trailing` gives `{"a":1}` |
| `JsonRecovery.FencedPayload` | src/app/services/gemini.service.ts:17-30 | "```json", whitespace, a bracketed payload without "```", whitespace, "```" gives exactly the payload |
| `JsonRecovery.FencedExample` | src/app/services/gemini.service.ts:17-30 | a fenced `{"a":1}` on its own line gives `{"a":1}` |
| `JsonRecovery.ReplyOr` | src/app/services/gemini.service.ts:273 | `response.text \|\| fallback` is the reply when it is non-empty and the fallback when it is missing or empty |
| `JsonRecovery.Recover` | src/app/services/gemini.service.ts:188 | the parser receives the cleaned reply when the reply is non-empty, and a bracketed fallback without "```" unchanged when the reply is missing or empty |
| `JsonRecovery.FallbacksAreFixedPoints` | src/app/services/gemini.service.ts:135-138 | `{}` and `[]` pass through cleaning unchanged, so a missing or empty reply hands the fallback itself to the parser |
| `LegacyJsonRecovery.SearchOpener` | src/services/gemini.service.ts:18 | `search` returns -1 exactly when there is no opener, and otherwise the first opener's index |
| `LegacyJsonRecovery.CutToBrackets` | src/services/gemini.service.ts:18-27 | the prefix cut followed by the backward loop with `break` computes the same cut as `JsonRecovery.Extract` |
| `LegacyJsonRecovery.CutAfterLastCloser` | src/services/gemini.service.ts:22-27 | the backward `for` loop that cuts and breaks at the first closer it meets keeps exactly the text through the last closer, and everything when there is none |
| `LegacyJsonRecovery.CleanJson` | src/services/gemini.service.ts:16-29 | this copy returns the same result as the one in src/app/services for every input, with no triple backtick and as a slice of the prepared text |
| `LegacyJsonRecovery.RecoverReply` | src/services/gemini.service.ts:233 | a missing or empty reply yields the `'{}'`/`'[]'` fallback unchanged; any other reply yields its cleaned form |
| `Positioning.ScoreColor` | src/app/components/positioning.component.ts:305-310 | the ring colour is the colour of the score's band, the bands being stated by ranges: zero or missing, 80 and above, 60 up to 80, anything else |
| `Positioning.ScoreLabel` | src/app/components/positioning.component.ts:312-317 | the label is the label of the score's band, over the same four ranges |
| `Positioning.ScoreBadgeClass` | src/app/components/positioning.component.ts:319-324 | the badge classes are those of the score's band, over the same four ranges |
| `Positioning.OneOutputDeterminesTheOthers` | src/app/components/positioning.component.ts:305-324 | two scores share a colour iff they share a label iff they share a badge class iff they share a band |
| `Positioning.NegativeScoresChallenging` | src/app/components/positioning.component.ts:305-310 | a negative score is neither missing nor zero: red, "Challenging Fit" |
| `Positioning.BandMonotone` | src/app/components/positioning.component.ts:305-324 | for non-zero scores, raising the score never moves it to a lower band |
| `Positioning.CloseAt` | src/app/components/positioning.component.ts:329 | the lazy `(.*?)\*\*` finds the shortest line-terminator-free stretch followed by `**`, or none exactly when every later `**` lies past a line terminator |
| `Positioning.FormatVerdict` | src/app/components/positioning.component.ts:326-332 | a missing or empty verdict gives `''`; no output contains a newline |
| `Positioning.Embolden` | src/app/components/positioning.component.ts:329 | the bold rule leaves text without an asterisk unchanged |
| `Positioning.BreakLines` | src/app/components/positioning.component.ts:331 | no newline survives, and text without a newline is unchanged |
| `Positioning.EmboldenPair` | src/app/components/positioning.component.ts:329 | `**x**` with star-free, single-line `x` becomes `<strong class="text-white font-semibold">x</strong>` and scanning continues after it |
| `Positioning.EmboldenStarFreePrefix` | src/app/components/positioning.component.ts:329 | star-free text is copied through unchanged by the bold rule |
| `Positioning.EmboldenWithoutPairs` | src/app/components/positioning.component.ts:329 | text with no two adjacent asterisks is unchanged by the bold rule |
| `Positioning.EmboldenUnclosable` | src/app/components/positioning.component.ts:329 | text in which no `**` can be closed on its line passes through the bold rule unchanged |
| `Positioning.UnpairedStarsStayLiteral` | src/app/components/positioning.component.ts:329 | a lone `**` stays literal |
| `Positioning.CloseAtStopsAtTerminator` | src/app/components/positioning.component.ts:329 | the closing search gives up at a line terminator reached before any asterisk |
| `Positioning.PairAcrossLineBreakStaysLiteral` | src/app/components/positioning.component.ts:329 | a `**…**` pair spanning a line terminator is not rewritten |
| `Positioning.BreakLinesSplits` | src/app/components/positioning.component.ts:331 | every newline becomes `<br/>` where it stands; text without newlines is unchanged |
| `Positioning.PlainVerdictUnchanged` | src/app/components/positioning.component.ts:326-332 | a verdict with neither `**` nor newline is returned unchanged |
| `Positioning.Calculate` | src/app/components/positioning.component.ts:269-292 | with any of the four required fields empty nothing changes and no call is made; otherwise loading starts, `data` is kept and the call carries the form's and inputs' values |
| `Positioning.AnalysisSucceeded` | src/app/components/positioning.component.ts:293-298 | a resolved call sets `data` to the result and ends loading |
| `Positioning.AnalysisFailed` | src/app/components/positioning.component.ts:294-298 | a failed call keeps the previous `data` and ends loading |
| `Positioning.ResetAnalysis` | src/app/components/positioning.component.ts:301-303 | `resetAnalysis` sets `data` to null and leaves the loading flag alone |
| `Positioning.CalculateThenComplete` | src/app/components/positioning.component.ts:276-299 | a valid calculation shows the spinner; on completion the spinner is gone, a success shows the result and a failure keeps the earlier `data` |
| `Positioning.InvalidFormIsNoOp` | src/app/components/positioning.component.ts:269-277 | any empty field makes `calculate` a no-op without a call |
| `Positioning.ResetShowsForm` | src/app/components/positioning.component.ts:15 | recalculating from a shown result brings the form back and hides the result |
| `TechHubs.Companies` | src/app/components/tech-hubs.component.ts:253 | `companies` is `data.topCompanies`, or the empty list when `data` or the field is missing |
| `TechHubs.TopCities` | src/app/components/tech-hubs.component.ts:255 | `topCities` defaults to the empty list |
| `TechHubs.TopStates` | src/app/components/tech-hubs.component.ts:256 | `topStates` defaults to the empty list |
| `TechHubs.FilterByKeywords` | src/app/components/tech-hubs.component.ts:258-260 | a keyword filter is a subsequence of its input holding each matching company as often as the input does and no other |
| `TechHubs.GlobalTitans` | src/app/components/tech-hubs.component.ts:258 | the order-preserving subsequence of `companies` holding every company, as often as it occurs there, whose category contains "Global" or "MNC" |
| `TechHubs.NationalLeaders` | src/app/components/tech-hubs.component.ts:259 | the order-preserving subsequence of `companies` holding every company, as often as it occurs there, whose category contains "National" or "Domestic" |
| `TechHubs.Startups` | src/app/components/tech-hubs.component.ts:260 | the order-preserving subsequence of `companies` holding every company, as often as it occurs there, whose category contains "Startup" or "Growth" |
| `TechHubs.UncategorisedInNoGroup` | src/app/components/tech-hubs.component.ts:258-260 | a company without a category is in no group |
| `TechHubs.NoKeywordInNoGroup` | src/app/components/tech-hubs.component.ts:258-260 | a category containing none of the six keywords lands in no group |
| `TechHubs.GroupsOverlap` | src/app/components/tech-hubs.component.ts:258-260 | the groups are not disjoint: category "Global Growth" is both a titan and a startup |
| `TechHubs.LoadingPanelCondition` | src/app/components/tech-hubs.component.ts:14 | the loading panel shows exactly when loading and `companies` is empty |
| `TechHubs.DemandBadgeClass` | src/app/components/tech-hubs.component.ts:201-203 | the badge gets the emerald classes exactly when `demand` contains "High", the amber ones exactly otherwise |
| `TechHubs.DemandCaseSensitive` | src/app/components/tech-hubs.component.ts:201-203 | the test is case-sensitive ("high" is amber), and a missing demand is amber |
| `LegacyTechHubs.Derive` | src/components/tech-hubs.component.ts:194-202 | the older component's lists default to empty; its companies, city and state tables and keyword groups equal the newer component's signals for the same payload |
| `LegacyTechHubs.DemandClasses` | src/components/tech-hubs.component.ts:144-147 | the emerald classes apply exactly when `demand` contains "High", the amber classes exactly otherwise, never both |
| `InterviewPrep.ToggleAnswer` | src/app/components/interview-prep.component.ts:120-122 | toggling the open index closes it; toggling any other index opens that one; nothing else changes |
| `InterviewPrep.GenerateQuestions` | src/app/components/interview-prep.component.ts:124-127 | loading starts and the questions call for the component's role goes out |
| `InterviewPrep.QuestionsArrived` | src/app/components/interview-prep.component.ts:127-133 | the result replaces `questions`, loading ends, `openIndex` is kept |
| `InterviewPrep.QuestionsFailed` | src/app/components/interview-prep.component.ts:129-133 | a failure keeps `questions` and ends loading |
| `InterviewPrep.ButtonLabel` | src/app/components/interview-prep.component.ts:25 | the button reads "Refresh" exactly when there are questions |
| `InterviewPrep.PanelOf` | src/app/components/interview-prep.component.ts:29-45 | the column shows the thinking panel exactly while loading, and the list exactly when not loading and non-empty |
| `InterviewPrep.ButtonDisabled` | src/app/components/interview-prep.component.ts:23 | the button is disabled exactly while the column shows the thinking panel |
| `InterviewPrep.ToggleTwiceCloses` | src/app/components/interview-prep.component.ts:121 | toggling the same answer twice from closed returns to the same state |
| `InterviewPrep.OpeningAnotherClosesFirst` | src/app/components/interview-prep.component.ts:121 | opening a second answer leaves only that one open |
| `InterviewPrep.LoadFlow` | src/app/components/interview-prep.component.ts:23-134 | the button is disabled during a load and enabled after either outcome; success shows the new list, failure keeps the old one, `openIndex` is never reset |
| `AppController.ClassifyError` | src/app/app.component.ts:84-88 | the configuration message is chosen exactly when the error text contains "400", "API key" or "403"; the generic one exactly otherwise |
| `AppController.Generate` | src/app/app.component.ts:55-66 | an invalid form changes nothing and calls nothing; a valid one sets both loading flags, clears error, roadmap, insights and sources, selects the roadmap tab and calls for the roadmap with the form's values |
| `AppController.RoadmapSucceeded` | src/app/app.component.ts:70-80 | roadmap and sources are set, the main spinner stops, the insights flag is untouched, and the insights call goes out for the query's role and location |
| `AppController.RoadmapFailed` | src/app/app.component.ts:82-92 | the classified message is shown and both loading flags clear; nothing else changes |
| `AppController.InsightsSucceeded` | src/app/app.component.ts:77-80 | insights are set and the insights flag clears; nothing else changes |
| `AppController.InsightsFailed` | src/app/app.component.ts:77-80 | only the insights flag clears |
| `AppController.SetTab` | src/app/app.component.ts:96-97 | only the active tab changes |
| `AppController.Reset` | src/app/app.component.ts:116-119 | roadmap cleared, form back to level Beginner and difficulty Intermediate with role, location and goal cleared; insights, error, tab, loading flags and grounding sources untouched; nothing else changes |
| `AppController.ToggleFeedback` | src/app/app.component.ts:121-126 | the dialog flag flips; closing clears `feedbackSent`, opening keeps it; nothing else changes |
| `AppController.ToggleInfo` | src/app/app.component.ts:128-130 | only `showInfo` flips |
| `AppController.SubmitFeedback` | src/app/app.component.ts:132-135 | `feedbackSent` becomes true; nothing else changes |
| `AppController.EmptyFieldBlocksGenerate` | src/app/app.component.ts:31-56 | with role, location, level, difficulty or goal empty, `generate` changes no state and makes no call |
| `AppController.InsightsFailureKeepsRoadmap` | src/app/app.component.ts:68-80 | after a roadmap success the insights flag is still on; a later insights failure leaves roadmap, sources, error and insights untouched and stops both spinners |
| `AppController.BothCallsSucceed` | src/app/app.component.ts:68-80 | roadmap then insights success shows both results, no error, nothing loading |
| `AppController.RoadmapFailureAfterStart` | src/app/app.component.ts:82-92 | a failed roadmap after a start leaves no roadmap or insights, stops both spinners, and shows the configuration message exactly for 400/403/"API key" errors |
| `AppController.ClassifierExamples` | src/app/app.component.ts:86-88 | "Error: 403 Forbidden" gives the configuration message, "network timeout" the generic one |
| `AppController.ResetBlocksGenerate` | src/app/app.component.ts:116-119 | after `reset` the form is incomplete, so `generate` is a no-op |
| `AppController.FeedbackOpenClose` | src/app/app.component.ts:121-135 | open, submit, close returns to a closed dialog with `feedbackSent` false and everything else as before |
| `AppController.InfoToggleInvolution` | src/app/app.component.ts:128-130 | toggling the info panel twice restores the state |
| `LegacyAppController.Generate` | src/app.component.ts:45-55 | an invalid form changes nothing and calls nothing; a valid one starts loading, clears error, roadmap, insights and sources, selects the roadmap tab and calls for the roadmap |
| `LegacyAppController.RoadmapSucceeded` | src/app.component.ts:57-72 | roadmap and sources set, loading ends in `finally`, insights call goes out |
| `LegacyAppController.RoadmapFailed` | src/app.component.ts:67-72 | the error is always the single generic message and loading ends; nothing else changes |
| `LegacyAppController.InsightsSucceeded` | src/app.component.ts:65 | only `insightsData` changes |
| `LegacyAppController.InsightsFailed` | src/app.component.ts:65 | an insights failure changes nothing |
| `LegacyAppController.SetTab` | src/app.component.ts:75-77 | only the active tab changes |
| `LegacyAppController.Reset` | src/app.component.ts:79-82 | roadmap cleared and form reset to the defaults; nothing else changes |
| `LegacyAppController.EmptyFieldBlocksGenerate` | src/app.component.ts:29-46 | any empty required field makes `generate` a no-op without a call |
| `LegacyAppController.RoadmapFailureAfterStart` | src/app.component.ts:45-72 | a failed roadmap after a start leaves no roadmap, ends loading, shows the generic message |
| `LegacyAppController.InsightsFailureKeepsRoadmap` | src/app.component.ts:57-72 | an insights failure after a roadmap success keeps roadmap, empty error and empty insights |
| `LegacyAppController.ClassifierOnlyInNewerController` | src/app.component.ts:67-69 | a 403 error reads as the generic message here and as the configuration message in the newer controller |

## Left out

- Prompt construction and the `GoogleGenAI.generateContent` calls: network I/O to an opaque service. A reply
  is an arbitrary optional string. A call's completion is a success event carrying a payload, or a failure
  event carrying the error's text.
- `JSON.parse`: a library call. The model stops at the string handed to it (`JsonRecovery.Recover`). Parsed
  payloads are type parameters, and the insights payload is a record with every field optional.
- Non-array values in the insights payload (a string where a list is expected, say) are not modelled. The
  payload's lists are typed.
- Company fields other than the category (name, vibe, links, logos) and the location rows' figures: display
  only.
- Both salary-chart components, the market-radar and roadmap-display components, and the score-ring
  geometry: DOM/d3 rendering and floating-point scale arithmetic.
- `DomSanitizer.bypassSecurityTrustHtml`: a foreign call. `FormatVerdict` returns the plain string.
- `setTab`'s scrolling, the 2-second timer in `submitFeedback` that later closes the dialog, and
  `console.error`: DOM, timer and logging side effects.
- Promise scheduling and overlapping requests: completions are separate transitions that can be applied in
  any order. Nothing ties a completion to the latest start.
- JavaScript strings are UTF-16 code units; the model's characters are Unicode scalar values. Every character
  the model searches for or trims (the ASCII markers and brackets, and every ECMAScript whitespace
  character, U+FEFF and U+3000 included) is a single UTF-16 code unit, so the results agree.
- Positioning.Score: a readiness score that is a non-numeric JSON value (a numeric string that `>=` would
  coerce, an object) is not modelled. `Missing` covers `undefined`, `null` and `NaN`.
- AppController.Reset: `careerForm.reset` sets role, location and goal to `null`. The model writes `""`.
  Both fail `Validators.required` and nothing else reads them.
- InterviewPrep: the `hotTopics` input is display only.
- Positioning.CalculateThenComplete: a resolved analysis always counts as shown. In the code the result
  panel is guarded by `data()`, so a call that resolves to `null`, `false`, `0` or `''` would leave the
  form showing. The model types the result as a parsed object and does not model falsy results.
- InterviewPrep.QuestionsArrived: the questions are a list. A reply that parses to a non-array value (an
  object, a number) would flow into `questions()` and its `length` test; that case is not modelled.
