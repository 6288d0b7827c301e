/**
 * The summary rules of the QuizSummary component: the performance band chosen
 * from score / total, and the Skipped / Correct / Incorrect label and the
 * answer text shown for each result record.
 */
module QuizSummary {
  import opened Optional

  /** One row of the detailed summary (QuizResult). */
  datatype QuizResult = QuizResult(
    id: string,
    question: string,
    userAnswer: Option<string>,
    correctAnswer: string,
    explanation: string)

  datatype Band = Outstanding | GoodWork | KeepPracticing

  /** Bands ordered from lowest to highest. */
  function BandRank(b: Band): nat
  {
    match b
    case KeepPracticing => 0
    case GoodWork => 1
    case Outstanding => 2
  }

  /**
   * The band selected by `percentage = score / totalQuestions * 100`, compared
   * against 80 and then 60, in exact arithmetic (cross-multiplied). With no
   * questions the quotient is not a finite number: NaN for a zero score, which
   * fails both comparisons, and +Infinity for a positive one, which passes the
   * first.
   */
  function PerformanceBand(score: nat, total: nat): (b: Band)
    ensures total == 0 ==> (b == Outstanding <==> score > 0)
    ensures total == 0 ==> (b == KeepPracticing <==> score == 0)
    ensures total > 0 ==> (b == Outstanding <==> score * 100 >= 80 * total)
    ensures total > 0 ==> (b == GoodWork <==> 60 * total <= score * 100 < 80 * total)
    ensures total > 0 ==> (b == KeepPracticing <==> score * 100 < 60 * total)
  {
    if total == 0 then
      if score > 0 then Outstanding else KeepPracticing
    else if score * 100 >= 80 * total then
      Outstanding
    else if score * 100 >= 60 * total then
      GoodWork
    else
      KeepPracticing
  }

  /** The percentage as a real number, for a positive total. */
  function Percentage(score: nat, total: nat): real
    requires total > 0
  {
    (score as real / total as real) * 100.0
  }

  /** The headline message shown for a band. */
  function BandMessage(b: Band): string
  {
    match b
    case Outstanding => "Outstanding Performance! \U{1F389}"
    case GoodWork => "Good Work! Keep Learning! \U{1F44D}"
    case KeepPracticing => "Keep Practicing! You'll Get Better! \U{1F4AA}"
  }

  /** The text colour class used for a band's message. */
  function BandColour(b: Band): string
  {
    match b
    case Outstanding => "text-green-500"
    case GoodWork => "text-blue-500"
    case KeepPracticing => "text-red-500"
  }

  datatype Label = Skipped | Correct | Incorrect

  /** The label shown after the user's answer: null first, then equality. */
  function LabelOf(r: QuizResult): (l: Label)
    ensures l == Skipped <==> r.userAnswer.None?
    ensures l == Correct <==> r.userAnswer == Some(r.correctAnswer)
    ensures l == Incorrect <==> r.userAnswer.Some? && r.userAnswer.value != r.correctAnswer
  {
    if r.userAnswer.None? then Skipped
    else if r.userAnswer.value == r.correctAnswer then Correct
    else Incorrect
  }

  /** The answer text: the answer if it is truthy, else the word "Skipped". */
  function DisplayedAnswer(r: QuizResult): string
  {
    if r.userAnswer.Some? && r.userAnswer.value != "" then r.userAnswer.value else "Skipped"
  }

  /** How many of `rs` carry label `l`. */
  function CountLabel(rs: seq<QuizResult>, l: Label): (n: nat)
    ensures n <= |rs|
  {
    if rs == [] then 0
    else (if LabelOf(rs[0]) == l then 1 else 0) + CountLabel(rs[1..], l)
  }

  // ---------------------------------------------------------------------
  // Properties of the summary rules
  // ---------------------------------------------------------------------

  /**
   * The exact-arithmetic band agrees with the thresholds applied to the real
   * percentage `score / total * 100`.
   */
  lemma BandMatchesPercentage(score: nat, total: nat)
    requires total > 0
    ensures PerformanceBand(score, total) == Outstanding <==> Percentage(score, total) >= 80.0
    ensures PerformanceBand(score, total) == GoodWork <==> 60.0 <= Percentage(score, total) < 80.0
    ensures PerformanceBand(score, total) == KeepPracticing <==> Percentage(score, total) < 60.0
  {
    PercentageThreshold(score, total, 80);
    PercentageThreshold(score, total, 60);
  }

  /** The real percentage reaches `pct` exactly when `score * 100 >= pct * total`. */
  lemma PercentageThreshold(score: nat, total: nat, pct: nat)
    requires total > 0
    ensures Percentage(score, total) >= pct as real <==> score * 100 >= pct * total
  {
    var p := Percentage(score, total);
    var t := total as real;
    var lhs, rhs := score * 100, pct * total;
    assert p * t == lhs as real by {
      assert score as real / t * t == score as real;
    }
    assert pct as real * t == rhs as real;
    ScaleComparison(p, t, pct as real);
    if lhs >= rhs {
      assert p * t >= pct as real * t;
      assert p >= pct as real;
    } else {
      assert p * t < pct as real * t;
      assert p < pct as real;
    }
  }

  /** Comparing with a threshold is unchanged by multiplying both sides by `t > 0`. */
  lemma ScaleComparison(p: real, t: real, bound: real)
    requires t > 0.0
    ensures p >= bound <==> p * t >= bound * t
  {
    if p >= bound {
      var d := p - bound;
      assert d * t >= 0.0;
      assert p * t == bound * t + d * t;
    } else {
      var d := bound - p;
      assert d * t > 0.0;
      assert bound * t == p * t + d * t;
    }
  }

  /** For a fixed total, a higher score never yields a lower band. */
  lemma BandMonotone(low: nat, high: nat, total: nat)
    requires low <= high
    ensures BandRank(PerformanceBand(low, total)) <= BandRank(PerformanceBand(high, total))
  {
    assert low * 100 <= high * 100;
  }

  /**
   * A result that is not Skipped shows its own answer text when that text is
   * non-empty; a Correct one whose correct answer is non-empty shows the
   * correct answer rather than the word "Skipped".
   */
  lemma CorrectShowsAnswer(r: QuizResult)
    requires LabelOf(r) == Correct && r.correctAnswer != ""
    ensures DisplayedAnswer(r) == r.correctAnswer
  {
  }

  /** Every result gets exactly one of the three labels. */
  lemma {:induction false} LabelsPartition(rs: seq<QuizResult>)
    ensures CountLabel(rs, Skipped) + CountLabel(rs, Correct) + CountLabel(rs, Incorrect) == |rs|
  {
    if rs != [] {
      LabelsPartition(rs[1..]);
    }
  }
}
