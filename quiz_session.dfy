/**
 * The quiz session state of ExamEase's App component and the pure transitions
 * that the component's state setters apply to it: the one-second clock tick,
 * Next, Skip, answer selection and the two outcomes of starting a quiz.
 *
 * Each transition is a total function from the previous state to the next one,
 * as the source writes them (`setQuizState(prev => ...)`). The class in
 * quiz_app.dfy applies them to the component's mutable state.
 */
module QuizSession {
  import opened Optional

  /** Seconds allotted to each question (QUESTION_TIMER). */
  const QuestionTimer: int := 30

  /** The message stored when fetching questions fails. */
  const LoadErrorMessage: string := "Failed to load questions. Please try again."

  /** A question as fetched from the question source (ParsedQuestion). */
  datatype Question = Question(
    id: string,
    text: string,
    options: seq<string>,
    correctAnswer: string,
    explanation: string,
    code: Option<string>)

  datatype Status = Idle | InProgress | Completed

  /**
   * QuizState. `userAnswers` maps a question id to the selected option, or to
   * None where the code stores `null` (a skip or a timeout); an absent key is a
   * question that has no entry. `isLoading` and `error` are optional in the
   * source; every state the component builds sets `isLoading`, and an absent
   * `error` is None.
   */
  datatype QuizState = QuizState(
    questions: seq<Question>,
    currentQuestionIndex: nat,
    userAnswers: map<string, Option<string>>,
    timeRemaining: int,
    quizStatus: Status,
    isLoading: bool,
    error: Option<string>)

  /** Position of a status in the lifecycle idle, in-progress, completed. */
  function StatusRank(st: Status): nat
  {
    match st
    case Idle => 0
    case InProgress => 1
    case Completed => 2
  }

  /** The set of ids of a question list. */
  function QuestionIds(qs: seq<Question>): set<string>
  {
    set i | 0 <= i < |qs| :: qs[i].id
  }

  /**
   * What every state the component builds satisfies: the index points at a
   * question (or is 0 when there are none), the clock is within [0, 30], every
   * answer key is the id of some question, every question before the current
   * one has an entry, and a completed quiz stands at its last question.
   */
  predicate ValidState(s: QuizState)
  {
    && (|s.questions| == 0 ==> s.currentQuestionIndex == 0)
    && (|s.questions| > 0 ==> s.currentQuestionIndex < |s.questions|)
    && 0 <= s.timeRemaining <= QuestionTimer
    && s.userAnswers.Keys <= QuestionIds(s.questions)
    && (forall j :: 0 <= j < s.currentQuestionIndex && j < |s.questions| ==> s.questions[j].id in s.userAnswers)
    && (s.quizStatus == Completed && |s.questions| > 0 ==> s.currentQuestionIndex == |s.questions| - 1)
  }

  /** True when the current question is not followed by another one. */
  predicate OnLastQuestion(s: QuizState)
  {
    !(s.currentQuestionIndex < |s.questions| - 1)
  }

  function CurrentId(s: QuizState): string
    requires s.currentQuestionIndex < |s.questions|
  {
    s.questions[s.currentQuestionIndex].id
  }

  /**
   * The question card offers Next instead of Skip exactly when the recorded
   * answer for the current question is truthy: present, not null, not "".
   */
  predicate HasSelection(s: QuizState)
  {
    && s.currentQuestionIndex < |s.questions|
    && CurrentId(s) in s.userAnswers
    && s.userAnswers[CurrentId(s)].Some?
    && s.userAnswers[CurrentId(s)].value != ""
  }

  /** The state the component starts in, and the one reset returns to. */
  function InitialState(): (r: QuizState)
    ensures ValidState(r) && r.quizStatus == Idle && r.questions == []
  {
    QuizState([], 0, map[], QuestionTimer, Idle, false, None)
  }

  /**
   * The body of the interval callback. When time is up it marks the current
   * question as skipped (overwriting any selection) and moves on, or completes
   * the quiz on the last question without recording anything; otherwise it
   * counts down one second.
   */
  function Tick(s: QuizState): (r: QuizState)
    ensures ValidState(s) ==> ValidState(r)
    ensures StatusRank(s.quizStatus) <= StatusRank(r.quizStatus)
    ensures r.questions == s.questions
    ensures r.currentQuestionIndex == s.currentQuestionIndex || r.currentQuestionIndex == s.currentQuestionIndex + 1
  {
    if s.timeRemaining <= 0 then
      if s.currentQuestionIndex < |s.questions| - 1 then
        s.(currentQuestionIndex := s.currentQuestionIndex + 1,
           timeRemaining := QuestionTimer,
           userAnswers := s.userAnswers[s.questions[s.currentQuestionIndex].id := None])
      else
        s.(quizStatus := Completed)
    else
      s.(timeRemaining := s.timeRemaining - 1)
  }

  /** The state after `n` ticks with no user action in between. */
  function Ticks(s: QuizState, n: nat): QuizState
  {
    if n == 0 then s else Tick(Ticks(s, n - 1))
  }

  /**
   * handleNextQuestion: moves on and restarts the clock, or completes the quiz
   * on the last question. It never touches the answers; the card only offers
   * Next once an answer is selected.
   */
  function Next(s: QuizState): (r: QuizState)
    requires HasSelection(s)
    ensures ValidState(s) ==> ValidState(r)
    ensures StatusRank(s.quizStatus) <= StatusRank(r.quizStatus)
    ensures r.questions == s.questions && r.userAnswers == s.userAnswers
    ensures r.currentQuestionIndex == s.currentQuestionIndex || r.currentQuestionIndex == s.currentQuestionIndex + 1
  {
    if s.currentQuestionIndex < |s.questions| - 1 then
      s.(currentQuestionIndex := s.currentQuestionIndex + 1,
         timeRemaining := QuestionTimer)
    else
      s.(quizStatus := Completed)
  }

  /**
   * handleSkipQuestion: stores null for the current question and moves on, or
   * completes the quiz on the last question without recording anything.
   */
  function Skip(s: QuizState): (r: QuizState)
    ensures ValidState(s) ==> ValidState(r)
    ensures StatusRank(s.quizStatus) <= StatusRank(r.quizStatus)
    ensures r.questions == s.questions
    ensures r.currentQuestionIndex == s.currentQuestionIndex || r.currentQuestionIndex == s.currentQuestionIndex + 1
  {
    if s.currentQuestionIndex < |s.questions| - 1 then
      s.(currentQuestionIndex := s.currentQuestionIndex + 1,
         timeRemaining := QuestionTimer,
         userAnswers := s.userAnswers[s.questions[s.currentQuestionIndex].id := None])
    else
      s.(quizStatus := Completed)
  }

  /**
   * handleAnswerSelect: records `answer` for the current question, replacing
   * whatever was recorded for it, and changes nothing else.
   */
  function Select(s: QuizState, answer: string): (r: QuizState)
    requires s.currentQuestionIndex < |s.questions|
    ensures CurrentId(s) in r.userAnswers && r.userAnswers[CurrentId(s)] == Some(answer)
    ensures forall k :: k != CurrentId(s) ==> (k in r.userAnswers <==> k in s.userAnswers)
    ensures forall k :: k != CurrentId(s) && k in s.userAnswers ==> r.userAnswers[k] == s.userAnswers[k]
    ensures r == s.(userAnswers := r.userAnswers)
    ensures ValidState(s) ==> ValidState(r)
    ensures HasSelection(r) <==> answer != ""
  {
    s.(userAnswers := s.userAnswers[s.questions[s.currentQuestionIndex].id := Some(answer)])
  }

  /** First step of startQuiz: show the spinner and clear the previous error. */
  function BeginLoading(s: QuizState): (r: QuizState)
    ensures r.isLoading && r.error == None
    ensures r.quizStatus == s.quizStatus && r.questions == s.questions
    ensures r.currentQuestionIndex == s.currentQuestionIndex && r.userAnswers == s.userAnswers
    ensures r.timeRemaining == s.timeRemaining
    ensures ValidState(s) ==> ValidState(r)
  {
    s.(isLoading := true, error := None)
  }

  /** startQuiz when the fetch succeeds: a fresh in-progress session. */
  function StartSuccess(fetched: seq<Question>): (r: QuizState)
    ensures ValidState(r)
    ensures r.quizStatus == InProgress && r.questions == fetched
    ensures r.currentQuestionIndex == 0 && r.userAnswers == map[] && r.timeRemaining == QuestionTimer
    ensures !r.isLoading && r.error == None
  {
    QuizState(fetched, 0, map[], QuestionTimer, InProgress, false, None)
  }

  /** startQuiz when the fetch fails: stop loading and keep everything else. */
  function LoadFailed(s: QuizState): (r: QuizState)
    ensures !r.isLoading && r.error == Some(LoadErrorMessage)
    ensures r.quizStatus == s.quizStatus && r.questions == s.questions
    ensures r.currentQuestionIndex == s.currentQuestionIndex && r.userAnswers == s.userAnswers
    ensures r.timeRemaining == s.timeRemaining
    ensures ValidState(s) ==> ValidState(r)
  {
    s.(isLoading := false, error := Some(LoadErrorMessage))
  }

  // ---------------------------------------------------------------------
  // Properties of the transitions
  // ---------------------------------------------------------------------

  /** While time is left, a tick takes one second off and changes nothing else. */
  lemma TickCountsDown(s: QuizState)
    requires s.timeRemaining > 0
    ensures Tick(s) == s.(timeRemaining := s.timeRemaining - 1)
  {
  }

  /**
   * Time up on a question that is not the last: the index moves on by one, the
   * clock restarts at 30 and the question is recorded as null, whatever was
   * selected for it.
   */
  lemma TimeoutAdvances(s: QuizState)
    requires s.timeRemaining <= 0
    requires s.currentQuestionIndex < |s.questions| - 1
    ensures Tick(s) == s.(currentQuestionIndex := s.currentQuestionIndex + 1,
                          timeRemaining := QuestionTimer,
                          userAnswers := s.userAnswers[CurrentId(s) := None])
  {
  }

  /**
   * Skip behaves as the clock running out: with no time left the two give the
   * same state, and off the last question Skip equals a timeout whatever the
   * clock shows.
   */
  lemma SkipIsTimeout(s: QuizState)
    ensures s.timeRemaining <= 0 ==> Skip(s) == Tick(s)
    ensures !OnLastQuestion(s) ==> Skip(s) == Tick(s.(timeRemaining := 0))
  {
  }

  /** Next off the last question: index + 1, clock restarted, answers untouched. */
  lemma NextAdvances(s: QuizState)
    requires HasSelection(s) && !OnLastQuestion(s)
    ensures Next(s) == s.(currentQuestionIndex := s.currentQuestionIndex + 1, timeRemaining := QuestionTimer)
  {
  }

  /**
   * On the last question, Next, Skip and a timeout all complete the quiz and
   * leave the index, the answers and the clock as they were.
   */
  lemma LastQuestionCompletes(s: QuizState)
    requires OnLastQuestion(s)
    ensures Skip(s) == s.(quizStatus := Completed)
    ensures s.timeRemaining <= 0 ==> Tick(s) == s.(quizStatus := Completed)
    ensures HasSelection(s) ==> Next(s) == s.(quizStatus := Completed)
  {
  }

  /**
   * On the last question with an answer selected, every question has an entry:
   * the earlier ones were closed before, and the current one holds the answer.
   */
  lemma SelectedLastCoversEveryQuestion(s: QuizState)
    requires ValidState(s) && HasSelection(s) && OnLastQuestion(s)
    ensures s.userAnswers.Keys == QuestionIds(s.questions)
  {
    forall k | k in QuestionIds(s.questions) ensures k in s.userAnswers {
      var j :| 0 <= j < |s.questions| && s.questions[j].id == k;
      assert j <= s.currentQuestionIndex;
    }
  }

  /** Completing with Next leaves an entry for every question. */
  lemma NextOnLastRecordsEveryQuestion(s: QuizState)
    requires ValidState(s) && HasSelection(s) && OnLastQuestion(s)
    ensures Next(s).quizStatus == Completed
    ensures Next(s).userAnswers.Keys == QuestionIds(s.questions)
  {
    SelectedLastCoversEveryQuestion(s);
  }

  /**
   * A timeout on the last question keeps an answer that was selected but not
   * submitted: the quiz completes with an entry for every question and the
   * selection still recorded. Off the last question the same timeout replaces
   * the selection with null (TimeoutAdvances).
   */
  lemma TimeoutOnLastKeepsSelection(s: QuizState)
    requires ValidState(s) && HasSelection(s) && OnLastQuestion(s) && s.timeRemaining <= 0
    ensures Tick(s).quizStatus == Completed
    ensures Tick(s).userAnswers.Keys == QuestionIds(s.questions)
    ensures Tick(s).userAnswers[CurrentId(s)] == s.userAnswers[CurrentId(s)]
  {
    SelectedLastCoversEveryQuestion(s);
  }

  /**
   * Skip (or a timeout) on the last question with no entry for it completes
   * the quiz without one: every other question has an entry, and there is one
   * entry fewer than there are question ids.
   */
  lemma SkipOnLastLeavesLastOpen(s: QuizState)
    requires ValidState(s) && |s.questions| > 0 && OnLastQuestion(s)
    requires CurrentId(s) !in s.userAnswers
    ensures Skip(s).quizStatus == Completed
    ensures Skip(s).userAnswers.Keys == QuestionIds(s.questions) - {CurrentId(s)}
    ensures |Skip(s).userAnswers| == |QuestionIds(s.questions)| - 1
  {
    forall k | k in QuestionIds(s.questions) && k != CurrentId(s) ensures k in s.userAnswers {
      var j :| 0 <= j < |s.questions| && s.questions[j].id == k;
      assert j < s.currentQuestionIndex;
    }
    assert s.userAnswers.Keys == QuestionIds(s.questions) - {CurrentId(s)};
  }

  /**
   * A completed quiz has an entry for every question but possibly the last:
   * whichever way it completed, it stands at the last question, and every
   * earlier one was closed with an answer or null.
   */
  lemma CompletedRecordsAllButLast(s: QuizState)
    requires ValidState(s) && s.quizStatus == Completed
    ensures forall j :: 0 <= j < |s.questions| - 1 ==> s.questions[j].id in s.userAnswers
  {
  }

  /** A later selection for the same question replaces an earlier one. */
  lemma SelectOverwrites(s: QuizState, first: string, second: string)
    requires s.currentQuestionIndex < |s.questions|
    ensures Select(Select(s, first), second) == Select(s, second)
  {
  }

  /** Each tick, while time is left, takes exactly one second off. */
  lemma {:induction false} TicksCountDown(s: QuizState, k: nat)
    requires k <= s.timeRemaining
    ensures Ticks(s, k) == s.(timeRemaining := s.timeRemaining - k)
  {
    if k > 0 {
      TicksCountDown(s, k - 1);
    }
  }

  /**
   * From `t` seconds left it takes `t + 1` ticks, not `t`, for the timeout to
   * fire (the callback tests `timeRemaining <= 0` before counting down); the
   * `t`-th tick leaves the question open with 0 seconds, and the next one acts
   * as Skip.
   */
  lemma TimeoutTakesOneTickMore(s: QuizState)
    requires s.timeRemaining >= 0
    ensures Ticks(s, s.timeRemaining as nat) == s.(timeRemaining := 0)
    ensures Ticks(s, s.timeRemaining as nat + 1) == Skip(s.(timeRemaining := 0))
    ensures !OnLastQuestion(s) ==> Ticks(s, s.timeRemaining as nat + 1) == Skip(s)
  {
    TicksCountDown(s, s.timeRemaining as nat);
    SkipIsTimeout(s.(timeRemaining := 0));
  }

  /** Ticking a whole timer's worth of seconds from a fresh clock does not advance. */
  lemma FullTimerStaysOnQuestion(s: QuizState)
    requires s.timeRemaining == QuestionTimer
    ensures Ticks(s, QuestionTimer).currentQuestionIndex == s.currentQuestionIndex
    ensures Ticks(s, QuestionTimer).userAnswers == s.userAnswers
    ensures Ticks(s, QuestionTimer).quizStatus == s.quizStatus
    ensures Ticks(s, QuestionTimer + 1).currentQuestionIndex != s.currentQuestionIndex
            || Ticks(s, QuestionTimer + 1).quizStatus == Completed
  {
    TimeoutTakesOneTickMore(s);
  }
}
