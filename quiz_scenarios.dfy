/**
 * Concrete sessions run through the transitions: what the component ends with
 * after a given sequence of user actions and clock ticks.
 */
module QuizScenarios {
  import opened Optional
  import opened QuizSession
  import opened QuizResults
  import opened QuizSummary

  function Q(id: string): Question
  {
    Question(id, "question " + id, ["a", "b"], "a", "because", None)
  }

  /**
   * Three questions: the right answer on the first, then Skip twice. The quiz
   * completes with a score of 1, and the last question, skipped, has no entry
   * at all: two entries for three questions.
   */
  lemma AnswerFirstSkipRest()
    ensures var s0 := StartSuccess([Q("1"), Q("2"), Q("3")]);
            var s1 := Select(s0, "a");
            var s2 := Next(s1);
            var s3 := Skip(s2);
            var s4 := Skip(s3);
            && s4.quizStatus == Completed
            && s4.userAnswers == map["1" := Some("a"), "2" := None]
            && Score(s4) == 1
            && |s4.userAnswers| == 2
  {
    var s0 := StartSuccess([Q("1"), Q("2"), Q("3")]);
    var s4 := Skip(Skip(Next(Select(s0, "a"))));
    assert s4.userAnswers == map["1" := Some("a"), "2" := None];
    assert FindQuestion(s4.questions, "1") == Some(Q("1"));
    assert FindQuestion(s4.questions, "2") == Some(Q("2"));
    assert CorrectKeys(s4.questions, s4.userAnswers) == {"1"};
    assert s4.userAnswers.Keys == {"1", "2"};
  }

  /**
   * Two questions, no action: 31 ticks close the first question as skipped
   * and restart the clock on the second; 30 are not enough.
   */
  lemma FirstQuestionTimesOut()
    ensures var s0 := StartSuccess([Q("1"), Q("2")]);
            && Ticks(s0, 30).currentQuestionIndex == 0
            && Ticks(s0, 31) == s0.(currentQuestionIndex := 1, userAnswers := map["1" := None])
  {
    var s0 := StartSuccess([Q("1"), Q("2")]);
    TimeoutTakesOneTickMore(s0);
  }

  /** A failed fetch leaves an idle quiz with no questions and the error shown. */
  lemma FetchFailureStaysIdle()
    ensures var s := LoadFailed(BeginLoading(InitialState()));
            s.quizStatus == Idle && s.questions == [] && s.error == Some(LoadErrorMessage) && !s.isLoading
  {
  }

  /**
   * One question answered correctly and Next: the quiz completes at index 0
   * with a full score and the top band.
   */
  lemma SingleQuestionPerfect()
    ensures var s := Next(Select(StartSuccess([Q("1")]), "a"));
            && s.quizStatus == Completed && s.currentQuestionIndex == 0
            && Score(s) == 1
            && PerformanceBand(Score(s), |s.questions|) == Outstanding
            && LabelOf(Results(s)[0]) == Correct
  {
    var s := Next(Select(StartSuccess([Q("1")]), "a"));
    assert FindQuestion(s.questions, "1") == Some(Q("1"));
    assert CorrectKeys(s.questions, s.userAnswers) == {"1"};
  }

  /**
   * Two questions: Skip the first, select the right answer on the second and
   * let the clock run out. The timeout on the last question keeps the
   * selection, so both questions have entries and the score is 1.
   */
  lemma SkipThenTimeOutWithSelection()
    ensures var s0 := StartSuccess([Q("1"), Q("2")]);
            var s1 := Select(Skip(s0), "a");
            var s2 := Ticks(s1, 31);
            && s2.quizStatus == Completed
            && s2.userAnswers == map["1" := None, "2" := Some("a")]
            && Score(s2) == 1
  {
    var s0 := StartSuccess([Q("1"), Q("2")]);
    var s1 := Select(Skip(s0), "a");
    TimeoutTakesOneTickMore(s1);
    var s2 := Ticks(s1, 31);
    assert s2 == s1.(timeRemaining := 0, quizStatus := Completed);
    assert s2.userAnswers == map["1" := None, "2" := Some("a")];
    assert FindQuestion(s2.questions, "1") == Some(Q("1"));
    assert FindQuestion(s2.questions, "2") == Some(Q("2"));
    assert CorrectKeys(s2.questions, s2.userAnswers) == {"2"};
  }
}
