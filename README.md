# Questionnaire core in Dafny

This project models the core of a small browser questionnaire application. A
tutor builds a timed multiple-choice test, either from an Excel sheet or from
questions an AI service generates, and saves it as the live test. A student
then takes the test against the clock and sees a score. The model covers the
following parts:

- **Spreadsheet parser** (`parser.dfy`): `parseExcel`. There are three fatal
  structural checks: no first sheet, no data rows, a required header missing
  from the first row. After them, each row is decoded on its own. A row whose
  question text is falsy or whose option is `undefined`/`null` is skipped. A
  row whose trimmed, upper-cased `Correct Answer` is not `A`..`D` is skipped.
  Every other row becomes a question of four stringified options. What
  survives is returned in the original row order.
- **Test screen** (`test_screen.dfy`): the per-attempt session as a class.
  - The current question index, the answers and the seconds left are fields.
  - Answer selection and clamped navigation.
  - A confirmed manual submit, and the one-second tick that submits when the
    time is up.
  - A `delivered` log of every call of the `onSubmit` callback. Hand-over
    happens at most once.
  - The `MM:SS` clock text, `formatTime`.
- **Results screen** (`scoring.dfy`): the correct-answer count, the rounded
  percentage, and the per-question review marks.
- **Application shell** (`app_routing.dfy`): the screen state, the tutor flag
  and the handlers that switch screens.
- **Tutor dashboard** (`tutor_dashboard.dfy`): the draft questions and time
  limit, the status and error messages, and the file, generate, save and
  input handlers.
- **Live-test store** (`test_store.dfy`): the `useTest` hook, i.e. the saved
  test held in local storage.
- **AI question service** (`gemini_service.dfy`): the API-key check and the
  validation of the parsed reply. Candidates of the wrong shape are filtered
  out silently. A reply without a `questions` array fails with one generic
  message.
- **Shared records** (`types.dfy`), JavaScript string helpers (`text.dfy`)
  and `Option`/`Result` (`wrappers.dfy`).
- **Client runs** (`scenarios.dfy`): several handlers in a row, as a user
  would drive them. They state the double-submit and timer behaviour and the
  two findings below.

### Modelling choices

- **JavaScript values.** A spreadsheet cell is `Null | Str | Num | Bool`. A
  parsed AI reply is a `Json` value. A question keeps its options as `Json`
  values and its index as a `real`. The declared TypeScript type promises more
  than the AI filter checks: `Types.WellFormed` is what every producer
  guarantees, and `Types.Typed` is what the parser guarantees on top of that.
- **Number-to-text conversion.** `String(number)` on a numeric cell is the
  parameter `numberText`.
- **Integer operators.** JavaScript's truncating `%` and `Math.floor` are
  written out (`TestScreen.JsRemainder`, `FormatTime`).
- **State.** `useState` components become classes whose methods change their
  fields. The hook's stored test is a shared `LiveTestStore` object, and each
  component also keeps its own copy, `testConfig`, because each `useTest()`
  call is a separate hook instance.

### Behaviour of the code worth noting

- **Header error.** The message lists all seven required headers, whichever
  of them are missing (`Parser.HeadersMessageListsAll`).
- **First data row.** The header check reads the keys of the first data row,
  and a blank cell has no key. A first row with any required cell blank,
  `Q#` included, therefore fails the whole file with the headers message
  (`Parser.FirstRowBlankFailsParse`). The same row further down would only
  be skipped, or, for a blank `Q#`, kept. So `Q#` may be blank in every row
  but the first.
- **Empty options.** Only `undefined`/`null` options skip a row. An empty
  string option is kept.
- **AI filter.** It accepts a fractional index and options of any type
  (`GeminiService.FractionalIndexPasses`). A filtered-out candidate only
  produces a warning, never an error.
- **Timer.** The countdown keeps ticking on a screen with no live test
  (`TestScreen.TestSession.Tick`).

## Model

| member | source | states |
|---|---|---|
| Types.AllUnanswered | App.tsx:26 | `Array(n).fill(null)`: n answers, every one unanswered |
| Text.NatToString | components/TestScreen.tsx:68 | `toString` of a count is a non-empty string of decimal digits with no leading zero; one digit exactly below 10, two digits exactly for 10..99 |
| Text.NatToStringRoundTrip | components/TestScreen.tsx:68 | reading the digits back gives the number |
| Text.PadStart2 | components/TestScreen.tsx:68 | `padStart(2, '0')`: length is the larger of the input length and 2, the input is the suffix, and only zeros come before it |
| Text.LeadingZero | components/TestScreen.tsx:68 | a zero put in front of digits keeps their value |
| Text.TrimStart | utils/parser.ts:47 | the result is a suffix of the input, does not start with white space, and everything removed is white space |
| Text.TrimEnd | utils/parser.ts:47 | the result is a prefix of the input, does not end with white space, and everything removed is white space |
| Text.ToUpper | utils/parser.ts:47 | same length; each character is upper-cased on its own |
| Text.JoinContainsEachPart | utils/parser.ts:34 | `join` contains every part it joins |
| Parser.LetterIndex | utils/parser.ts:56-65 | a decoded answer index is below 4 |
| Parser.LetterIndexExact | utils/parser.ts:56-65 | the letter decodes to k exactly when it is the k-th of `A`,`B`,`C`,`D` |
| Parser.BuildQuestion | utils/parser.ts:67-71 | the returned record has four string options and an integral index in [0, 4) |
| Parser.BuildQuestionColumns | utils/parser.ts:40-71 | the record holds the stringified question text and options A..D in column order, and the decoded index |
| Parser.DecodeRow | utils/parser.ts:37-75 | every question the row callback emits is well typed |
| Parser.DecodeRowMissing | utils/parser.ts:49-52 | a row is skipped as incomplete exactly when its question text is falsy or one of its four options is absent |
| Parser.DecodeRowInvalid | utils/parser.ts:56-65 | a complete row is skipped for its answer exactly when the normalised letter is not A..D, and the skip reports that letter |
| Parser.DecodeRowBuilds | utils/parser.ts:49-71 | a complete row whose letter decodes to k is emitted as the record built with index k |
| Parser.DecodeRowReadsOnly | utils/parser.ts:40-47 | a row's outcome depends only on the six columns it reads |
| Parser.QNumberNeverRead | utils/parser.ts:40-47 | changing or removing a row's `Q#` cell changes nothing about that row's outcome (the header check on the first row is another matter, see `Parser.FirstRowBlankFailsParse`) |
| Parser.AnswerLetterNormalised | utils/parser.ts:47 | "a" decodes to 0 and " B " to 1 (case and surrounding white space are ignored) |
| Parser.AnswerLetterLowerCase | utils/parser.ts:47-60 | "c" is upper-cased and decodes to 2 |
| Parser.AnswerLetterUpperCase | utils/parser.ts:47-61 | "D" decodes to 3 |
| Parser.AnswerLetterRejected | utils/parser.ts:62-64 | "E" and the empty string name no option and are rejected |
| Parser.AnswerLetter | utils/parser.ts:47 | no contract of its own; specified by `Parser.AnswerLetterOfText` |
| Parser.MissingFields | utils/parser.ts:49 | no contract of its own; specified by `Parser.DecodeRowMissing` |
| Parser.AnswerLetterOfText | utils/parser.ts:47 | a text answer cell yields its trimmed, upper-cased text; an absent one yields no letter |
| Parser.Collect | utils/parser.ts:76 | the filter returns at most as many questions as outcomes, each of them an emitted one |
| Parser.Outcomes | utils/parser.ts:37 | the `map` gives one outcome per row, in row order |
| Parser.DecodeRows | utils/parser.ts:37-76 | at most one question per row, every one well typed |
| Parser.SurvivorsYieldQuestions | utils/parser.ts:76 | the k-th kept question is the one emitted at the k-th surviving position |
| Parser.SurvivorsIncreasing | utils/parser.ts:76 | surviving positions are in range and strictly increasing |
| Parser.SurvivorsComplete | utils/parser.ts:76 | a position survives exactly when its outcome is emitted |
| Parser.DecodeRowsSelectsInOrder | utils/parser.ts:37-76 | the output is exactly the rows that decode, in original order, with nothing else |
| Parser.ParseExcelOutcome | utils/parser.ts:6-77 | fails with the no-sheet message when there is no first sheet or its name is empty, then with the no-rows, then the headers message, checked in that order; succeeds exactly when all three checks pass, and then returns the decoded rows |
| Parser.ParseExcel | utils/parser.ts:6-77 | a failure carries one of the three structural messages; a success returns at most one well-typed question per row; the rest is stated by `Parser.ParseExcelOutcome` and `Parser.DecodeRowsSelectsInOrder` |
| Parser.FirstRowBlankFailsParse | utils/parser.ts:30-35 | a first data row with any required cell blank (no key), `Q#` included, makes the whole parse fail with the headers message |
| Parser.HeadersMessageListsAll | utils/parser.ts:33-35 | the header error names every required header |
| Scoring.IsCorrect | components/ResultsScreen.tsx:17 | no contract of its own; specified by `Scoring.CorrectCountCountsPositions`, `Scoring.UnansweredScoresZero` and `Scoring.ReviewMarks` |
| Scoring.Score | components/ResultsScreen.tsx:14-22 | zero without a test; never more than the number of answers; the count itself is stated by `Scoring.CorrectCountCountsPositions` |
| Scoring.Percentage | components/ResultsScreen.tsx:24-27 | no contract of its own; specified by `Scoring.PercentageIsRounded` and `Scoring.PercentageFull` |
| Scoring.CorrectCount | components/ResultsScreen.tsx:16-21 | the score never exceeds the number of answers |
| Scoring.CorrectCountCountsPositions | components/ResultsScreen.tsx:16-21 | the score is the number of positions whose answer equals the question's correct index |
| Scoring.FullScoreIffAllCorrect | components/ResultsScreen.tsx:16-21 | full marks exactly when every answer is correct |
| Scoring.UnansweredScoresZero | components/ResultsScreen.tsx:17 | an unanswered question never counts as correct, so untouched answers score 0 |
| Scoring.NoConfigScoresZero | components/ResultsScreen.tsx:14-27 | without a loaded test the score and the percentage are 0 |
| Scoring.PercentageIsRounded | components/ResultsScreen.tsx:24-27 | the percentage is 0 with no test or no questions; otherwise it is in 0..100 and is the ratio times 100 rounded half up |
| Scoring.PercentageFull | components/ResultsScreen.tsx:24-27 | 100% is shown exactly when the missed questions are at most half a percent of the total |
| Scoring.NearlyPerfectShowsFull | components/ResultsScreen.tsx:26 | 199 correct out of 200 shows 100% |
| Scoring.ReviewMarks | components/ResultsScreen.tsx:53-55 | one mark per question, true exactly when that question has an answer equal to its correct index |
| Scoring.ReviewAgreesWithScore | components/ResultsScreen.tsx:53-55 | the number of questions the review marks correct equals the score |
| Scoring.CorrectCountOnlyReadsPrefix | components/ResultsScreen.tsx:16-21 | the score reads only the questions that have an answer |
| TestScreen.JsRemainder | components/TestScreen.tsx:67 | JavaScript `%` by a positive divisor: for a non-negative dividend it is the ordinary remainder, below the divisor |
| TestScreen.PaddedDigits | components/TestScreen.tsx:68 | a padded count is all digits and reads back as the count; below 100 it is exactly two digits |
| TestScreen.FormatTime | components/TestScreen.tsx:65-69 | no contract of its own; specified by `TestScreen.FormatTimeReadsBack` and `TestScreen.FormatTimeWidth` |
| TestScreen.FormatTimeOfNat | components/TestScreen.tsx:65-69 | for non-negative seconds the clock is padded minutes, a colon, padded seconds |
| TestScreen.ClockMinutes | components/TestScreen.tsx:68 | everything before the colon and last two characters reads back as the minutes |
| TestScreen.ClockSeconds | components/TestScreen.tsx:68 | the last two characters after the colon read back as the seconds |
| TestScreen.FormatTimeMinutes | components/TestScreen.tsx:65-69 | the clock's minute digits read back as the whole minutes |
| TestScreen.FormatTimeSeconds | components/TestScreen.tsx:65-69 | the clock ends in a colon and two digits that read back as the leftover seconds, below 60 |
| TestScreen.FormatTimeReadsBack | components/TestScreen.tsx:65-69 | the clock text reads back as the whole minutes and the leftover seconds |
| TestScreen.FormatTimeWidth | components/TestScreen.tsx:65-69 | under 100 minutes the clock is exactly five characters long |
| TestScreen.TestSession.constructor | components/TestScreen.tsx:13-35 | with a test: index 0, every answer unanswered, the limit in seconds, and immediate hand-over when that is not positive; without one: nothing to answer and nothing handed over |
| TestScreen.TestSession.SelectAnswer | components/TestScreen.tsx:47-51 | only the answer on screen changes |
| TestScreen.TestSession.GoToNext | components/TestScreen.tsx:53-57 | moves one question on, and is a no-op on the last question |
| TestScreen.TestSession.GoToPrevious | components/TestScreen.tsx:59-63 | moves one question back, and is a no-op on the first question |
| TestScreen.TestSession.Submit | components/TestScreen.tsx:24-28 | hands the answers over once when confirmed; declining or submitting again changes nothing |
| TestScreen.TestSession.Tick | components/TestScreen.tsx:30-41 | one second less; when the time reaches 0 the answers are handed over without asking; no tick after hand-over changes anything |
| GeminiService.PassesFilter | services/geminiService.ts:59-66 | no contract of its own; specified by `GeminiService.AcceptedComplete` and `GeminiService.FractionalIndexPasses` |
| GeminiService.ValidateResponse | services/geminiService.ts:57-80 | every failure carries the generic message; every accepted question is well formed |
| GeminiService.GenerateQuestions | services/geminiService.ts:5-80 | a failure carries the key message or the generic one; every returned question is well formed; the exact outcome is stated by `GeminiService.GenerateQuestionsOutcome` |
| GeminiService.AsQuestion | services/geminiService.ts:59-66 | a candidate that passes the filter is a question with four options and an index in [0, 4) |
| GeminiService.FilterCandidates | services/geminiService.ts:59-66 | the filter throws exactly when a candidate is `null`; otherwise it keeps at most all candidates, every kept one well formed |
| GeminiService.AcceptedYieldQuestions | services/geminiService.ts:59-66 | the k-th kept question is the k-th passing candidate |
| GeminiService.AcceptedIncreasing | services/geminiService.ts:59-66 | the passing positions are in range and strictly increasing |
| GeminiService.AcceptedComplete | services/geminiService.ts:59-66 | a candidate is kept exactly when it passes the checks |
| GeminiService.FilterSelectsInOrder | services/geminiService.ts:59-72 | the returned questions are exactly the passing candidates, in order; dropping some is not an error |
| GeminiService.MissingKeyFailsFirst | services/geminiService.ts:6-8 | without an API key the call fails with the key message whatever the reply |
| GeminiService.GenerateQuestionsOutcome | services/geminiService.ts:57-80 | with a key the call succeeds exactly when a reply arrived with a `questions` array and no `null` candidate; every failure carries the generic message; success returns the filtered candidates |
| GeminiService.FractionalIndexPasses | services/geminiService.ts:59-66 | a candidate with index 1.5 and non-string options passes the filter, so the returned question is well formed but not well typed |
| TestStore.LiveTestStore.constructor | hooks/useTest.ts:7-19 | the store starts with the saved test, if any |
| TestStore.LiveTestStore.Save | hooks/useTest.ts:21-28 | the saved test is exactly the given one |
| TestStore.LiveTestStore.Clear | hooks/useTest.ts:30-37 | no test is saved afterwards |
| TutorDashboard.InitialDraft | components/TutorDashboard.tsx:15-16 | no test gives no questions and 30 minutes; a test gives its questions and its limit, with 0 replaced by 30 |
| TutorDashboard.Dashboard.AsWritten | components/TutorDashboard.tsx:14-22 | as written, the draft starts from the defaults whatever is stored |
| TutorDashboard.Dashboard.constructor | components/TutorDashboard.tsx:14-22 | as intended, the draft starts from the stored test; the other fields take their initial values |
| TutorDashboard.Dashboard.SetTimeLimit | components/TutorDashboard.tsx:142 | only the time limit changes |
| TutorDashboard.Dashboard.SetTopic | components/TutorDashboard.tsx:116 | only the topic changes |
| TutorDashboard.Dashboard.SetQuestionCount | components/TutorDashboard.tsx:120 | only the requested count changes |
| TutorDashboard.Dashboard.HandleFileChange | components/TutorDashboard.tsx:24-40 | no file changes nothing; a parse replaces the draft and reports the count and file name; a failure keeps the draft, shows the error and clears the status |
| TutorDashboard.Dashboard.HandleGenerateQuestions | components/TutorDashboard.tsx:42-57 | success replaces the draft and reports the count; failure keeps the draft and shows the error; generation is over afterwards |
| TutorDashboard.Dashboard.HandleSaveTest | components/TutorDashboard.tsx:59-71 | an empty draft, then a non-positive limit, is refused with its message and nothing stored; otherwise exactly the draft is stored and reported live |
| AppRouting.App.View | App.tsx:47-86 | the portal is shown exactly on the dashboard state without the tutor flag, which the routing invariant rules out |
| AppRouting.App.constructor | App.tsx:14-17 | starts at home, not a tutor, with no answers and the stored test as its copy |
| AppRouting.App.ChooseTutor | App.tsx:67 | the tutor button goes to the login screen |
| AppRouting.App.LoginSuccess | App.tsx:19-22 | a successful login sets the tutor flag and opens the dashboard |
| AppRouting.App.StartTest | App.tsx:24-29 | as written: with a non-empty test in the shell's copy the test starts with every answer unanswered, otherwise nothing happens |
| AppRouting.App.StartLiveTest | App.tsx:24-29 | as intended: the same, deciding on the stored test |
| AppRouting.App.SubmitTest | App.tsx:31-34 | keeps exactly the handed-over answers and shows the results |
| AppRouting.App.GoHome | App.tsx:36-39 | back to the home screen, leaving the tutor role |
| AppRouting.App.ResetTest | App.tsx:41-44 | the stored test and the shell's copy are cleared and the dashboard stays open |
| Scenarios.OneMinuteRunsOut | components/TestScreen.tsx:30-41 | with a one-minute limit the 60th tick hands over the untouched answers once, and a 61st tick changes nothing |
| Scenarios.SubmitTwice | components/TestScreen.tsx:24-41 | two confirmed submits and a later tick hand the answers over once |
| Scenarios.SaveThenStart | App.tsx:24-29 | after a save in the running page the start handler as written stays home, while the stored test would start |
| Scenarios.ReopenDashboard | components/TutorDashboard.tsx:14-16 | with a usable test stored, the dashboard as written refuses to save again; as intended it saves the stored test unchanged |

## Left out

- Reading the Excel file (`XLSX.read`, `sheet_to_json`) is outside the model. A workbook is given as its sheet names and the first sheet's row records, and a failed file read or decode is an `Err` inside the upload.
- `String(number)` for numeric cells is the parameter `numberText`, not a model of JavaScript's number formatting.
- Text.ToUpper: upper-cases ASCII letters only; JavaScript's full Unicode case mapping is not modelled.
- The `try`/`catch` around each row (utils/parser.ts:38, 72-75) is not modelled, because nothing the callback does on these cell values can throw.
- All console logging is left out, including the row numbers (index + 2) in the skip warnings and the filter warning of the AI service.
- The AI request, its prompt, `response.text` and `JSON.parse` are outside the model. Their combined outcome is the parameter `reply` (`None` for any failure there). The topic and count only shape the prompt.
- Scoring.PercentageIsRounded: rounds the exact ratio half up. The source multiplies a floating-point quotient, which at an exact half can land just below it and round down.
- `parseInt` on the number inputs can give `NaN`; the setters take integers only.
- window.confirm and alert are outside the model. The student's confirmation is the `confirmed` parameter, and the time-up alert is omitted.
- Every answer change restarts the one-second interval, so a selection just before a tick postpones it. TestScreen.TestSession.Tick models one elapsed second, not the interval timing.
- TestScreen.TestSession.constructor: mounting is one atomic step with the loaded test. In the source, the first render holds `timeLeft = 0`, and the hook's effect only then delivers the test. On the render that delivers it, the timer effect (components/TestScreen.tsx:30-34) still sees `timeLeft = 0` together with a non-null test. It therefore raises the time-up alert and calls `onSubmit` with the empty answer list at once, so as written an attempt ends as soon as it loads. That ordering of renders and effects, and this consequence of it, are not modelled.
- On mounting, the results screen loads its own copy of the stored test, and until it arrives it shows the "could not load" message. The model scores against a given configuration.
- Local storage failures are not modelled. A corrupt stored value, which the hook clears, is not modelled either. The store is an `Option` of a test.
- TestScreen.TestSession.SelectAnswer: requires a question to be on screen, because the options are only rendered then. TestScreen.TestSession.Submit: requires the last question to be on screen, because the submit button is only rendered there. Both are interface gating, not checks in the handlers.
- Scoring.CorrectCount: requires no more answers than questions. With more, the source reads past the question list and throws. Scoring.Score has the same requirement.
- The awaits in the dashboard's file and generate handlers are modelled as atomic. Edits the tutor makes while a request is in flight are not interleaved.
- The fallback messages for thrown non-`Error` values are not modelled. Everything thrown on these paths is an `Error`.
- The tutor login screen (a fixed password compared exactly), the header, the student portal page and all rendering are left out. The login's outcomes are `LoginSuccess` and `GoHome`.

## Findings

| source | as written | input that shows it | evidently intended | confidence | as-written member | corrected member |
|---|---|---|---|---|---|---|
| App.tsx:17 | The shell's start handler consults the shell's own `useTest` copy. That copy is loaded once when the shell mounts, and a dashboard save updates only the dashboard's copy and local storage. | Start with nothing stored. The tutor logs in, uploads a valid sheet, saves, and goes home. The student start button still sees no test (`Scenarios.SaveThenStart`). | Starting a test decides on the test that is live in the store. | not executed | AppRouting.App.StartTest | AppRouting.App.StartLiveTest |
| components/TutorDashboard.tsx:15-16 | The draft's `useState` initialisers run on the first render. At that point the hook's `testConfig` is still `null`, because it is loaded in an effect. | A usable test is stored. The tutor reloads the page, logs in, and saves without changes: the save is refused with the no-questions message (`Scenarios.ReopenDashboard`). | The draft starts from the stored test. | not executed | TutorDashboard.Dashboard.AsWritten | TutorDashboard.Dashboard.constructor |
