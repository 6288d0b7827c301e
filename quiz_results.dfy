/**
 * What the App component computes once a quiz is completed: the score (the
 * number of answer entries that match their question's correct answer) and
 * one result record per question for the summary.
 */
module QuizResults {
  import opened Optional
  import opened QuizSession
  import opened QuizSummary

  /** `questions.find(q => q.id === id)`: the first question with that id. */
  function FindQuestion(qs: seq<Question>, id: string): (r: Option<Question>)
    ensures r.Some? ==> r.value in qs && r.value.id == id
    ensures r.None? <==> id !in QuestionIds(qs)
    ensures forall i :: 0 <= i < |qs| && qs[i].id == id && (forall j :: 0 <= j < i ==> qs[j].id != id) ==>
      r == Some(qs[i])
  {
    if qs == [] then None
    else
      assert QuestionIds(qs) == {qs[0].id} + QuestionIds(qs[1..]) by { QuestionIdsCons(qs); }
      if qs[0].id == id then Some(qs[0])
      else
        assert forall i :: 1 <= i < |qs| ==> qs[1..][i - 1] == qs[i];
        FindQuestion(qs[1..], id)
  }

  lemma QuestionIdsCons(qs: seq<Question>)
    requires qs != []
    ensures QuestionIds(qs) == {qs[0].id} + QuestionIds(qs[1..])
  {
    forall k | k in QuestionIds(qs) ensures k in {qs[0].id} + QuestionIds(qs[1..]) {
      var i :| 0 <= i < |qs| && qs[i].id == k;
      if i > 0 {
        assert qs[1..][i - 1].id == k;
      }
    }
    forall k | k in QuestionIds(qs[1..]) ensures k in QuestionIds(qs) {
      var i :| 0 <= i < |qs[1..]| && qs[1..][i].id == k;
      assert qs[i + 1].id == k;
    }
  }

  /** A list has at most as many distinct ids as questions. */
  lemma {:induction false} QuestionIdsBounded(qs: seq<Question>)
    ensures |QuestionIds(qs)| <= |qs|
  {
    if qs != [] {
      QuestionIdsCons(qs);
      QuestionIdsBounded(qs[1..]);
    }
  }

  predicate UniqueIds(qs: seq<Question>)
  {
    forall i, j :: 0 <= i < j < |qs| ==> qs[i].id != qs[j].id
  }

  /**
   * The filter of the score: the entry's question exists and its correct
   * answer is strictly equal to the stored answer (never to null).
   */
  predicate IsCorrectEntry(qs: seq<Question>, id: string, answer: Option<string>)
  {
    match FindQuestion(qs, id)
    case None => false
    case Some(q) => answer == Some(q.correctAnswer)
  }

  /** The answer keys that pass the score's filter. */
  function CorrectKeys(qs: seq<Question>, answers: map<string, Option<string>>): (ks: set<string>)
    ensures ks <= answers.Keys && ks <= QuestionIds(qs)
    ensures forall k :: k in ks ==> answers[k].Some?
  {
    set k | k in answers && IsCorrectEntry(qs, k, answers[k])
  }

  /**
   * The score shown on the summary: the number of answer entries that pass the
   * filter. It never exceeds the number of questions, even with repeated ids.
   */
  function Score(s: QuizState): (n: nat)
    ensures n <= |s.questions| && n <= |s.userAnswers|
  {
    QuestionIdsBounded(s.questions);
    var ks := CorrectKeys(s.questions, s.userAnswers);
    assert |ks| <= |QuestionIds(s.questions)| by { SubsetCardinality(ks, QuestionIds(s.questions)); }
    assert |ks| <= |s.userAnswers.Keys| by { SubsetCardinality(ks, s.userAnswers.Keys); }
    |ks|
  }

  lemma SubsetCardinality<T>(a: set<T>, b: set<T>)
    requires a <= b
    ensures |a| <= |b|
  {
    assert b == a + (b - a);
  }

  /** Reference count: the questions whose own id holds their correct answer. */
  function CountCorrect(qs: seq<Question>, answers: map<string, Option<string>>): nat
  {
    if qs == [] then 0
    else
      (if qs[0].id in answers && answers[qs[0].id] == Some(qs[0].correctAnswer) then 1 else 0)
      + CountCorrect(qs[1..], answers)
  }

  /**
   * With unique ids, counting answer entries (as the source does) and counting
   * questions answered correctly give the same score.
   */
  lemma {:induction false} ScoreCountsQuestions(qs: seq<Question>, answers: map<string, Option<string>>)
    requires UniqueIds(qs)
    ensures |CorrectKeys(qs, answers)| == CountCorrect(qs, answers)
  {
    if qs == [] {
      assert CorrectKeys(qs, answers) == {};
    } else {
      var q, rest := qs[0], qs[1..];
      assert UniqueIds(rest);
      ScoreCountsQuestions(rest, answers);
      forall i | 0 <= i < |rest| ensures rest[i].id != q.id {
        assert rest[i] == qs[i + 1];
      }
      CorrectKeysCons(qs, answers);
    }
  }

  /** Peeling off the first question when its id occurs nowhere else. */
  lemma CorrectKeysCons(qs: seq<Question>, answers: map<string, Option<string>>)
    requires qs != [] && qs[0].id !in QuestionIds(qs[1..])
    ensures |CorrectKeys(qs, answers)| ==
      (if qs[0].id in answers && answers[qs[0].id] == Some(qs[0].correctAnswer) then 1 else 0)
      + |CorrectKeys(qs[1..], answers)|
  {
    var q, rest := qs[0], qs[1..];
    var head: set<string> := if q.id in answers && answers[q.id] == Some(q.correctAnswer) then {q.id} else {};
    forall k | k in answers
      ensures IsCorrectEntry(qs, k, answers[k]) <==> (k in head || IsCorrectEntry(rest, k, answers[k]))
    {
      if k == q.id {
        assert FindQuestion(rest, k).None?;
      }
    }
    assert CorrectKeys(qs, answers) == head + CorrectKeys(rest, answers);
    assert head !! CorrectKeys(rest, answers);
  }

  /** `userAnswers[q.id] || null`: absent, null and "" all become null. */
  function ResultAnswer(answers: map<string, Option<string>>, id: string): (a: Option<string>)
    ensures a.Some? <==> id in answers && answers[id].Some? && answers[id].value != ""
    ensures a.Some? ==> a == answers[id]
  {
    if id in answers && answers[id].Some? && answers[id].value != "" then answers[id] else None
  }

  function ResultFor(q: Question, answers: map<string, Option<string>>): QuizResult
  {
    QuizResult(q.id, q.text, ResultAnswer(answers, q.id), q.correctAnswer, q.explanation)
  }

  /** The result records: one per question, in question order. */
  function ResultsOf(qs: seq<Question>, answers: map<string, Option<string>>): (rs: seq<QuizResult>)
    ensures |rs| == |qs|
    ensures forall i :: 0 <= i < |qs| ==>
      && rs[i].id == qs[i].id
      && rs[i].question == qs[i].text
      && rs[i].correctAnswer == qs[i].correctAnswer
      && rs[i].explanation == qs[i].explanation
      && rs[i].userAnswer == ResultAnswer(answers, qs[i].id)
  {
    if qs == [] then [] else [ResultFor(qs[0], answers)] + ResultsOf(qs[1..], answers)
  }

  /** quizResults of a completed session. */
  function Results(s: QuizState): (rs: seq<QuizResult>)
    ensures |rs| == |s.questions|
    ensures forall i :: 0 <= i < |rs| ==> rs[i].id == s.questions[i].id
  {
    ResultsOf(s.questions, s.userAnswers)
  }

  /** No record carries an empty answer, so a labelled answer is shown as itself. */
  lemma ResultsShowTheirAnswers(s: QuizState, i: nat)
    requires i < |s.questions|
    ensures LabelOf(Results(s)[i]) != Skipped ==> DisplayedAnswer(Results(s)[i]) == Results(s)[i].userAnswer.value
    ensures LabelOf(Results(s)[i]) == Skipped <==> ResultAnswer(s.userAnswers, s.questions[i].id).None?
  {
  }

  /**
   * Counting questions answered correctly equals counting Correct labels,
   * provided no correct answer is the empty string (which `|| null` would
   * show as skipped).
   */
  lemma {:induction false} CountCorrectIsCorrectLabels(qs: seq<Question>, answers: map<string, Option<string>>)
    requires forall i :: 0 <= i < |qs| ==> qs[i].correctAnswer != ""
    ensures CountCorrect(qs, answers) == CountLabel(ResultsOf(qs, answers), Correct)
  {
    if qs != [] {
      var rs := ResultsOf(qs, answers);
      assert rs[1..] == ResultsOf(qs[1..], answers);
      CountCorrectIsCorrectLabels(qs[1..], answers);
    }
  }

  /**
   * The score passed to the summary equals the number of records the summary
   * labels Correct, when ids are unique and correct answers non-empty.
   */
  lemma ScoreEqualsCorrectLabels(s: QuizState)
    requires UniqueIds(s.questions)
    requires forall i :: 0 <= i < |s.questions| ==> s.questions[i].correctAnswer != ""
    ensures Score(s) == CountLabel(Results(s), Correct)
  {
    ScoreCountsQuestions(s.questions, s.userAnswers);
    CountCorrectIsCorrectLabels(s.questions, s.userAnswers);
  }
}
