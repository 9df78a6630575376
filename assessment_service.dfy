/**
 * The quiz helper service: a constant bank of sample questions, the score of a list of graded
 * answers and the level that score maps to.
 */
module AssessmentService {
  import opened JsMath
  import opened Levels

  /** A sample multiple-choice question: four option strings, one of them the correct answer. */
  datatype SampleQuestion = SampleQuestion(
    id: nat, question: string, options: seq<string>, correctAnswer: string, difficulty: string)

  /** The eight built-in sample questions. */
  function SampleQuestions(): (qs: seq<SampleQuestion>)
    ensures |qs| == 8
    ensures forall i :: 0 <= i < |qs| ==> qs[i].id == i + 1
    ensures forall i :: 0 <= i < |qs| ==>
      |qs[i].options| == 4 && qs[i].correctAnswer in qs[i].options
    ensures forall i :: 0 <= i < |qs| ==> qs[i].difficulty in KnownLabels
  {
    [ SampleQuestion(1, "What color is the sun?", ["Blue", "Yellow", "Green", "Purple"], "Yellow", "A0"),
      SampleQuestion(2, "Which animal says 'meow'?", ["Dog", "Cat", "Bird", "Fish"], "Cat", "A0"),
      SampleQuestion(3, "How many days are in a week?", ["5", "6", "7", "8"], "7", "A1"),
      SampleQuestion(4, "What do we use to write on paper?", ["Spoon", "Pencil", "Plate", "Shoe"], "Pencil", "A0"),
      SampleQuestion(5, "Which season comes after winter?", ["Summer", "Fall", "Spring", "Winter"], "Spring", "A1"),
      SampleQuestion(6, "What do bees make?", ["Milk", "Honey", "Cheese", "Bread"], "Honey", "A1"),
      SampleQuestion(7, "How many legs does a spider have?", ["6", "8", "10", "4"], "8", "A2-kids"),
      SampleQuestion(8, "What planet do we live on?", ["Mars", "Venus", "Earth", "Jupiter"], "Earth", "A2-kids") ]
  }

  /** An answer as the service sees it: only whether it was correct. */
  datatype GradedAnswer = GradedAnswer(isCorrect: bool)

  /** What `calculateScore` returns. */
  datatype ScoreResult = ScoreResult(score: JsNumber, level: Level)

  /** The number of correct answers. */
  function CountCorrect(answers: seq<GradedAnswer>): (n: nat)
    ensures n <= |answers|
    ensures n == |answers| <==> forall i :: 0 <= i < |answers| ==> answers[i].isCorrect
    ensures n == 0 <==> forall i :: 0 <= i < |answers| ==> !answers[i].isCorrect
  {
    if answers == [] then 0
    else (if answers[0].isCorrect then 1 else 0) + CountCorrect(answers[1..])
  }

  /**
   * The level of a score: 0-30 is A0, 31-65 is A1, 66-100 is A2-kids, and every other number
   * (negative, above 100, a fraction between two bands, NaN) falls back to A0.
   */
  function DetermineLevel(score: JsNumber): (level: Level)
    ensures level == A1 <==> score.Finite? && 31.0 <= score.value <= 65.0
    ensures level == A2Kids <==> score.Finite? && 66.0 <= score.value <= 100.0
  {
    if score.Finite? && 0.0 <= score.value <= 30.0 then A0
    else if score.Finite? && 31.0 <= score.value <= 65.0 then A1
    else if score.Finite? && 66.0 <= score.value <= 100.0 then A2Kids
    else A0
  }

  /**
   * The rounded percentage of correct answers and its level. With no answers the division is
   * 0 / 0: the score is NaN and the level falls back to A0.
   */
  function CalculateScore(answers: seq<GradedAnswer>): (r: ScoreResult)
    ensures r.score.NaN? <==> answers == []
    ensures answers != [] ==>
      r.score == Finite(Percent(CountCorrect(answers), |answers|) as real) &&
      0.0 <= r.score.value <= 100.0
    ensures r.level == DetermineLevel(r.score)
  {
    if answers == [] then ScoreResult(NaN, DetermineLevel(NaN))
    else
      var correct := CountCorrect(answers);
      PercentAtMost100(correct, |answers|);
      var score := Finite(Percent(correct, |answers|) as real);
      ScoreResult(score, DetermineLevel(score))
  }

  /** On whole scores from 0 to 100 a higher score never gives a lower level. */
  lemma DetermineLevelMonotone(a: int, b: int)
    requires 0 <= a <= b <= 100
    ensures DetermineLevel(Finite(a as real)).Rank() <= DetermineLevel(Finite(b as real)).Rank()
  {
  }

  /** Every score falls back to A0 outside the three ranges, e.g. 30.5, -1, 101 and NaN. */
  lemma DetermineLevelFallbacks()
    ensures DetermineLevel(Finite(30.5)) == A0 && DetermineLevel(Finite(65.5)) == A0
    ensures DetermineLevel(Finite(-1.0)) == A0 && DetermineLevel(Finite(101.0)) == A0
    ensures DetermineLevel(NaN) == A0
  {
  }

  /**
   * All answers correct scores 100 (A2-kids), none correct scores 0 (A0), and two of three
   * correct scores 67 (round half up of 66.67), which is A2-kids.
   */
  lemma CalculateScoreExtremes(answers: seq<GradedAnswer>)
    requires answers != []
    ensures (forall i :: 0 <= i < |answers| ==> answers[i].isCorrect) ==>
      CalculateScore(answers) == ScoreResult(Finite(100.0), A2Kids)
    ensures (forall i :: 0 <= i < |answers| ==> !answers[i].isCorrect) ==>
      CalculateScore(answers) == ScoreResult(Finite(0.0), A0)
    ensures CalculateScore([GradedAnswer(true), GradedAnswer(true), GradedAnswer(false)])
      == ScoreResult(Finite(67.0), A2Kids)
  {
    PercentExtremes(|answers|);
    var three := [GradedAnswer(true), GradedAnswer(true), GradedAnswer(false)];
    assert CountCorrect(three) == 2 by {
      assert three[1..] == [GradedAnswer(true), GradedAnswer(false)];
      assert three[1..][1..] == [GradedAnswer(false)];
    }
  }
}
