/**
 * The App component's mutable state and its handlers. The component keeps the
 * quiz state and the chosen subject and difficulty; each handler overwrites
 * them, using the pure transitions of QuizSession.
 *
 * The question fetch is a foreign asynchronous call: its outcome is a
 * parameter of StartQuiz. The one-second interval is the environment calling
 * ClockTick while a quiz is in progress.
 */
module QuizApp {
  import opened Optional
  import opened QuizSession

  /** What the question source delivered: a question list, or a failure. */
  datatype FetchOutcome = Fetched(questions: seq<Question>) | FetchFailed

  class Quiz {
    var selectedSubject: string
    var selectedDifficulty: string
    var state: QuizState

    ghost predicate Valid()
      reads this
    {
      ValidState(state)
    }

    /** The component's initial state: nothing chosen, an idle quiz. */
    constructor ()
      ensures Valid()
      ensures state == InitialState()
      ensures selectedSubject == "" && selectedDifficulty == ""
    {
      selectedSubject := "";
      selectedDifficulty := "";
      state := InitialState();
    }

    /** Picking a subject card on the idle landing page, shown while none is chosen. */
    method ChooseSubject(subject: string)
      requires Valid() && state.quizStatus == Idle && selectedSubject == ""
      modifies this
      ensures Valid()
      ensures selectedSubject == subject
      ensures selectedDifficulty == old(selectedDifficulty) && state == old(state)
    {
      selectedSubject := subject;
    }

    /** Picking a difficulty once a subject is chosen, shown while none is chosen. */
    method ChooseDifficulty(difficulty: string)
      requires Valid() && state.quizStatus == Idle && selectedSubject != "" && selectedDifficulty == ""
      modifies this
      ensures Valid()
      ensures selectedDifficulty == difficulty
      ensures selectedSubject == old(selectedSubject) && state == old(state)
    {
      selectedDifficulty := difficulty;
    }

    /**
     * startQuiz: mark loading and clear the error, then install a fresh
     * in-progress session if the fetch succeeded, or stop loading and store
     * the error message (keeping the idle status) if it failed. The Start
     * button exists only on the idle page once both choices are made, and is
     * disabled while loading.
     */
    method StartQuiz(outcome: FetchOutcome)
      requires Valid() && state.quizStatus == Idle && !state.isLoading
      requires selectedSubject != "" && selectedDifficulty != ""
      modifies this
      ensures Valid()
      ensures selectedSubject == old(selectedSubject) && selectedDifficulty == old(selectedDifficulty)
      ensures outcome.Fetched? ==> state == StartSuccess(outcome.questions)
      ensures outcome.FetchFailed? ==> state == LoadFailed(BeginLoading(old(state)))
      ensures outcome.FetchFailed? ==> state.quizStatus == Idle && state.error == Some(LoadErrorMessage)
    {
      state := BeginLoading(state);
      match outcome
      case Fetched(qs) =>
        state := StartSuccess(qs);
      case FetchFailed =>
        state := LoadFailed(state);
    }

    /**
     * One firing of the interval, armed only while the quiz is in progress and
     * a question card has rendered (with no current question the render throws
     * before the effect that arms the interval runs).
     */
    method ClockTick()
      requires Valid() && state.quizStatus == InProgress && state.currentQuestionIndex < |state.questions|
      modifies this
      ensures Valid()
      ensures state == Tick(old(state))
      ensures selectedSubject == old(selectedSubject) && selectedDifficulty == old(selectedDifficulty)
    {
      state := Tick(state);
    }

    /** handleAnswerSelect, from one of the option buttons of the current question's card. */
    method HandleAnswerSelect(answer: string)
      requires Valid() && state.quizStatus == InProgress && state.currentQuestionIndex < |state.questions|
      requires answer in state.questions[state.currentQuestionIndex].options
      modifies this
      ensures Valid()
      ensures state == Select(old(state), answer)
      ensures selectedSubject == old(selectedSubject) && selectedDifficulty == old(selectedDifficulty)
    {
      state := Select(state, answer);
    }

    /** handleNextQuestion, offered only when an answer is selected. */
    method HandleNextQuestion()
      requires Valid() && state.quizStatus == InProgress && HasSelection(state)
      modifies this
      ensures Valid()
      ensures state == Next(old(state))
      ensures selectedSubject == old(selectedSubject) && selectedDifficulty == old(selectedDifficulty)
    {
      state := Next(state);
    }

    /**
     * handleSkipQuestion, from the Skip button of the current question's card,
     * which the card shows in place of Next while no answer is selected.
     */
    method HandleSkipQuestion()
      requires Valid() && state.quizStatus == InProgress && state.currentQuestionIndex < |state.questions|
      requires !HasSelection(state)
      modifies this
      ensures Valid()
      ensures state == Skip(old(state))
      ensures selectedSubject == old(selectedSubject) && selectedDifficulty == old(selectedDifficulty)
    {
      state := Skip(state);
    }

    /**
     * resetQuiz, from the summary's restart and home buttons: clear both
     * choices and return to the initial idle state.
     */
    method ResetQuiz()
      requires state.quizStatus == Completed
      modifies this
      ensures Valid()
      ensures state == InitialState()
      ensures selectedSubject == "" && selectedDifficulty == ""
    {
      selectedSubject := "";
      selectedDifficulty := "";
      state := InitialState();
    }
  }
}
