# ExamEase quiz session, modelled in Dafny

ExamEase gives timed multiple-choice quizzes. The user picks a subject and a
difficulty. Questions come from a question source. Each question has a
30-second countdown. The user selects an answer and presses Next, or presses
Skip, or lets the clock run out. At the end a summary shows the score, a
performance band and a label for every question.

This project models the core of that app:

- `quiz_session.dfy` (module `QuizSession`): the `QuizState` record of the App
  component. It has one total function per state update the component makes:
  the clock tick, Next, Skip, answer selection, and the two outcomes of
  starting a quiz. It also defines the invariant `ValidState`, which every
  transition preserves, and the lemmas about ticking, skipping and completing.
- `quiz_app.dfy` (module `QuizApp`): the component's mutable state as the
  class `Quiz`. The class holds the quiz state and the chosen subject and
  difficulty, and has one method per handler. Each method's precondition is
  what the page offers at that moment: the subject grid only while no subject
  is chosen, the difficulty selector only while no difficulty is chosen, the
  option buttons of the current question, Next only with an answer selected
  and Skip only without one, and reset only from the summary. The clock and
  Skip need a rendered question card, so they require a current question.
- `quiz_results.dfy` (module `QuizResults`): the score and the per-question
  result records of a completed quiz. The lemmas tie the score to a count over
  the questions and to the summary's Correct labels.
- `quiz_summary.dfy` (module `QuizSummary`): the summary's performance band
  and its Skipped/Correct/Incorrect label for each result.
- `quiz_scenarios.dfy` (module `QuizScenarios`): concrete sessions run through
  the transitions.
- `optional.dfy` (module `Optional`): `Option`, standing for `string | null`.

`userAnswers` is a `map<string, Option<string>>`. The TypeScript type says
`Record<string, string>`, but skip and timeout store `null`.

Points where the code behaves in a way a reader might not expect. The model
follows the code:

- A timeout needs one tick more than the timer value. The callback tests
  `timeRemaining <= 0` before counting down, so from 30 seconds it takes 31
  ticks to move on (`TimeoutTakesOneTickMore`, `FullTimerStaysOnQuestion`).
- Off the last question, Skip and timeout store `null` unconditionally, as
  the comment "marks it as skipped" at App.tsx:115 says. A timeout therefore
  replaces an answer that was selected but not submitted with Next
  (`TimeoutAdvances`).
- On the last question, Skip and timeout complete the quiz without writing
  anything. What happens to the last question depends on its entry:
  - with no entry for it, Skip or a timeout completes the quiz without one:
    every other question has an entry, and there is one entry fewer than
    there are question ids (`SkipOnLastLeavesLastOpen`, `AnswerFirstSkipRest`);
  - with an answer selected, a timeout keeps that answer, and it is scored
    (`TimeoutOnLastKeepsSelection`, `SkipThenTimeOutWithSelection`). This is
    the opposite of a timeout off the last question, which replaces the
    selection with `null`.
  Completing with Next also leaves an entry for every question
  (`NextOnLastRecordsEveryQuestion`). However it completed, a quiz stands at
  its last question and every earlier question has an entry
  (`CompletedRecordsAllButLast`).
- The score counts answer entries, not questions. The two counts agree when
  ids are unique (`ScoreCountsQuestions`). The bound `score <= |questions|`
  holds even without unique ids.
- A failed start keeps the previous status rather than setting idle. Start is
  only offered on the idle page, so the status stays idle.
- A fetch that returns no questions still starts an in-progress quiz with no
  questions. Its page then throws while rendering (see "## Left out").

## Model

| member | source | states |
|---|---|---|
| `QuizSession.InitialState` | project/src/App.tsx:30-37 | the initial state is idle, has no questions, and satisfies the session invariant |
| `QuizSession.Tick` | project/src/App.tsx:45-63 | a clock tick keeps the invariant (index in range, clock in [0, 30], answer keys are question ids, earlier questions have entries, a completed quiz stands at its last question), never moves the status backwards, keeps the questions, and moves the index by at most one |
| `QuizSession.Next` | project/src/App.tsx:101-113 | Next, offered only with a selection, keeps the invariant, never moves the status backwards, leaves the answers untouched, and moves the index by at most one |
| `QuizSession.Skip` | project/src/App.tsx:116-132 | Skip keeps the invariant, never moves the status backwards, keeps the questions, and moves the index by at most one |
| `QuizSession.Select` | project/src/App.tsx:92-98 | selecting stores the answer for the current question only, keeps every other entry and field, keeps the invariant, and makes Next available iff the answer is non-empty |
| `QuizSession.BeginLoading` | project/src/App.tsx:70 | starting a quiz first sets loading and clears the error, and keeps status, questions, index, answers and clock (so the invariant too) |
| `QuizSession.StartSuccess` | project/src/App.tsx:75-82 | a successful fetch gives an in-progress session over the fetched questions, at index 0, with no answers, a 30-second clock, not loading and no error, satisfying the invariant |
| `QuizSession.LoadFailed` | project/src/App.tsx:83-88 | a failed fetch stops loading and sets the error message, keeping status, questions, index, answers and clock |
| `QuizSession.TickCountsDown` | project/src/App.tsx:62 | with time left, a tick takes exactly one second off and changes nothing else |
| `QuizSession.TimeoutAdvances` | project/src/App.tsx:46-57 | when time is up off the last question, the new state is the old one with the index one higher, the clock back at 30 and the question stored as null whatever was selected; status, loading and error are kept |
| `QuizSession.SkipIsTimeout` | project/src/App.tsx:116-132 | Skip gives the same state as a timeout tick: always when no time is left, and off the last question whatever the clock shows |
| `QuizSession.NextAdvances` | project/src/App.tsx:103-108 | Next off the last question raises the index by one and restarts the clock, and changes nothing else |
| `QuizSession.LastQuestionCompletes` | project/src/App.tsx:58-59 | on the last question, Skip, Next and a timeout tick only set the status to completed |
| `QuizSession.NextOnLastRecordsEveryQuestion` | project/src/App.tsx:109-110 | completing with Next leaves exactly the question ids as answer keys |
| `QuizSession.SkipOnLastLeavesLastOpen` | project/src/App.tsx:128-130 | Skip on the last question with no entry for it completes the quiz with exactly the other question ids as answer keys, one fewer than the question ids |
| `QuizSession.CompletedRecordsAllButLast` | project/src/App.tsx:58-59 | in every reachable completed state, every question but the last has an entry |
| `QuizSession.TimeoutOnLastKeepsSelection` | project/src/App.tsx:58-59 | a timeout on the last question with an answer selected completes the quiz, keeps that answer, and leaves exactly the question ids as answer keys |
| `QuizSession.SelectOverwrites` | project/src/App.tsx:94-97 | selecting A then B for the same question gives the same state as selecting B alone |
| `QuizSession.TicksCountDown` | project/src/App.tsx:46-62 | k ticks with at least k seconds left take off exactly k seconds and change nothing else |
| `QuizSession.TimeoutTakesOneTickMore` | project/src/App.tsx:46-62 | from t seconds, t ticks leave the question open at 0 seconds, and the (t+1)-th tick acts as Skip |
| `QuizSession.FullTimerStaysOnQuestion` | project/src/App.tsx:15 | from a fresh clock of `QuestionTimer` seconds, that many ticks keep the index, answers and status; one more moves on or completes |
| `QuizApp.Quiz.constructor` | project/src/App.tsx:28-37 | the component starts with no subject or difficulty and the initial state |
| `QuizApp.Quiz.ChooseSubject` | project/src/App.tsx:161-190 | picking a subject on the idle page, shown while none is chosen, sets it and changes nothing else |
| `QuizApp.Quiz.ChooseDifficulty` | project/src/App.tsx:229-242 | picking a difficulty, offered while none is chosen, sets it and changes nothing else |
| `QuizApp.Quiz.StartQuiz` | project/src/App.tsx:69-90 | starting from idle installs a fresh session if the fetch succeeds, and otherwise stays idle with the error message set; the invariant holds after it |
| `QuizApp.Quiz.ClockTick` | project/src/App.tsx:42-67 | a tick while in progress with a current question applies the tick transition and keeps the invariant |
| `QuizApp.Quiz.HandleAnswerSelect` | project/src/App.tsx:92-98 | selecting one of the current question's options (QuizCard.tsx:38-46) applies the select transition to the current question |
| `QuizApp.Quiz.HandleNextQuestion` | project/src/App.tsx:101-113 | Next applies the next transition and keeps the invariant; the card offers it only when the current question has a non-empty answer (QuizCard.tsx:83-89) |
| `QuizApp.Quiz.HandleSkipQuestion` | project/src/App.tsx:116-132 | Skip, shown by the current question's card only while no answer is selected (QuizCard.tsx:83-97), applies the skip transition and keeps the invariant |
| `QuizApp.Quiz.ResetQuiz` | project/src/App.tsx:134-146 | reset, offered by the summary of a completed quiz (App.tsx:317-318), clears subject and difficulty and returns to the initial idle state |
| `QuizResults.FindQuestion` | project/src/App.tsx:294 | the result is the first question with the searched id, and nothing is found exactly when no question has that id |
| `QuizResults.CorrectKeys` | project/src/App.tsx:292-296 | the entries that pass the score's filter are answer keys and question ids whose stored answer is not null |
| `QuizResults.Score` | project/src/App.tsx:292-297 | the score is at most the number of questions and at most the number of answer entries |
| `QuizResults.ScoreCountsQuestions` | project/src/App.tsx:292-297 | with unique ids, the score equals the number of questions whose own entry holds their correct answer |
| `QuizResults.ResultAnswer` | project/src/App.tsx:303 | a record's answer is present iff the entry exists, is not null and is not empty, and then equals the entry |
| `QuizResults.ResultsOf` | project/src/App.tsx:300-306 | one record per question, in question order, carrying that question's id, text, correct answer, explanation and answer |
| `QuizResults.Results` | project/src/App.tsx:300-306 | the results have one record per question, with the question's id at each position |
| `QuizResults.ResultsShowTheirAnswers` | project/src/App.tsx:303 | a record labelled other than Skipped shows its own answer, and a record is Skipped iff its entry is absent, null or empty |
| `QuizResults.CountCorrectIsCorrectLabels` | project/src/components/QuizSummary.tsx:80-86 | with non-empty correct answers, the questions answered correctly are exactly the records labelled Correct |
| `QuizResults.ScoreEqualsCorrectLabels` | project/src/App.tsx:292-306 | with unique ids and non-empty correct answers, the score shown equals the number of Correct labels in the detailed summary |
| `QuizSummary.PerformanceBand` | project/src/components/QuizSummary.tsx:28-42 | Outstanding at 80% or more, Good Work from 60% to below 80%, else Keep Practicing; with no questions, Keep Practicing for a zero score (NaN) and Outstanding for a positive one (+Infinity) |
| `QuizSummary.BandMatchesPercentage` | project/src/components/QuizSummary.tsx:28-42 | the band agrees with the thresholds 80 and 60 applied to the real number score / total * 100 |
| `QuizSummary.BandMonotone` | project/src/components/QuizSummary.tsx:33-42 | for a fixed total, a higher score never yields a lower band |
| `QuizSummary.LabelOf` | project/src/components/QuizSummary.tsx:80-86 | Skipped iff the answer is null, Correct iff it equals the correct answer, Incorrect iff it is another non-null answer |
| `QuizSummary.CountLabel` | project/src/components/QuizSummary.tsx:74-86 | the number of records with a given label is at most the number of records |
| `QuizSummary.LabelsPartition` | project/src/components/QuizSummary.tsx:80-86 | every record gets exactly one label: the three counts add up to the number of records |
| `QuizSummary.CorrectShowsAnswer` | project/src/components/QuizSummary.tsx:79-83 | a Correct record whose correct answer is non-empty shows that answer, not the word "Skipped" |
| `QuizScenarios.AnswerFirstSkipRest` | project/src/App.tsx:92-132 | three questions, answer the first correctly, then skip twice: completed, entries {1: answer, 2: null}, score 1 |
| `QuizScenarios.FirstQuestionTimesOut` | project/src/App.tsx:45-63 | two questions and no action: 30 ticks stay on question 1, 31 ticks move to question 2 with question 1 stored as null |
| `QuizScenarios.FetchFailureStaysIdle` | project/src/App.tsx:70-88 | a failed fetch from the initial state leaves an idle quiz with no questions and the error shown |
| `QuizScenarios.SkipThenTimeOutWithSelection` | project/src/App.tsx:45-63 | two questions: skip the first, select the right answer on the second, let the clock run out: completed, entries {1: null, 2: answer}, score 1 |
| `QuizScenarios.SingleQuestionPerfect` | project/src/App.tsx:101-113 | one question answered correctly, then Next: completed at index 0, score 1, the top band, labelled Correct |

## Left out

- The `setInterval`/`useEffect` scheduling and its cleanup are timer plumbing. The environment calls `Quiz.ClockTick` only while a quiz is in progress. A tick delivered after the interval is cleared is not modelled.
- `fetchQuestions` is a foreign asynchronous call, and `services/api` is not part of this model. Its outcome is the `FetchOutcome` parameter of `Quiz.StartQuiz`. The await between the loading step and the outcome is not modelled as a separate step.
- An in-progress quiz with no questions is not driven by the model's handlers. The page passes an undefined question to the card, whose render throws, so no Skip button appears and the interval is never armed. `Quiz.ClockTick` and `Quiz.HandleSkipQuestion` therefore require a current question. The pure `Tick` and `Skip` still handle that state: they complete the quiz.
- The stale closure in `handleAnswerSelect` is a React artefact. The handler reads the rendered state, not `prev`. The model reads the current state's question.
- `QuizSummary.PerformanceBand` uses exact arithmetic. The floating-point rounding of `score / totalQuestions * 100` is not modelled, and neither is the rounded `Math.round` display.
- The JSX rendering, the header and the page routing are presentation. So are `ProgressBar`, `SubjectCard`, `Loading`, the subject catalogue and the `showDetails` toggle. The message and colour strings of each band are the functions `BandMessage` and `BandColour`, with no property stated.
- `ChatWidget`, `DifficultySelector` and `evaluationFeedback` are not part of this model. They do not affect the quiz state.
- The backend's question-generation endpoints call an external language model. That is I/O and a foreign library.
