/**
 * The rules of the adaptive assessment: the band of a finished score, how the next question
 * is chosen, whether an answer is correct, and the finish score that leaves speaking answers
 * out.
 */
module AssessmentsRoute {
  import opened Common
  import opened JsMath
  import opened JsString
  import Levels
  import AssessmentService

  // -----------------------------------------------------------------------------------------
  // Bands

  /** The band an assessment finishes with. Its labels are 'A0', 'A1' and 'A2'. */
  datatype Band = A0 | A1 | A2 {
    function Label(): string {
      match this
      case A0 => "A0"
      case A1 => "A1"
      case A2 => "A2"
    }
  }

  /** The band of a score: up to 40 is A0, up to 75 is A1, anything above is A2. */
  function DetermineBand(score: int): (band: Band)
    ensures band == A0 <==> score <= 40
    ensures band == A1 <==> 40 < score <= 75
    ensures band == A2 <==> 75 < score
  {
    if score <= 40 then A0
    else if score <= 75 then A1
    else A2
  }

  /**
   * The band table is not the level table of the scoring service: 35 is band A0 but level A1,
   * 70 is band A1 but level A2-kids, and the label 'A2' is not a level a plan knows.
   */
  lemma BandDiffersFromLevel()
    ensures DetermineBand(35) == A0 && AssessmentService.DetermineLevel(Finite(35.0)) == Levels.A1
    ensures DetermineBand(70) == A1 && AssessmentService.DetermineLevel(Finite(70.0)) == Levels.A2Kids
    ensures A2.Label() !in Levels.KnownLabels
  {
  }

  // -----------------------------------------------------------------------------------------
  // Questions and answers

  /** An answer option of a question. */
  datatype QuestionOption = QuestionOption(id: int, isCorrect: bool)

  /**
   * A question of the bank: its scope (such as 'vocabulary' or 'speaking'), the age range it
   * suits, its creation time and its options.
   */
  datatype Question = Question(
    id: int, scope: string, ageMin: int, ageMax: int, createdAt: int, options: seq<QuestionOption>)

  /** A stored answer: the question, the option chosen if any, and whether it was correct. */
  datatype Answer = Answer(questionId: int, optionId: Option<int>, correct: bool)

  const Speaking: string := "speaking"

  /** The question with the given id, if there is one (the first one). */
  function FindQuestion(questions: seq<Question>, id: int): (r: Option<Question>)
    ensures r.Some? ==> r.value in questions && r.value.id == id
    ensures r.None? <==> forall i :: 0 <= i < |questions| ==> questions[i].id != id
  {
    if questions == [] then None
    else if questions[0].id == id then Some(questions[0])
    else FindQuestion(questions[1..], id)
  }

  /** The first option with the given id, if there is one. */
  function FindOption(options: seq<QuestionOption>, id: int): (r: Option<QuestionOption>)
    ensures r.None? <==> forall i :: 0 <= i < |options| ==> options[i].id != id
    ensures r.Some? ==> exists i ::
      && 0 <= i < |options| && options[i] == r.value && options[i].id == id
      && forall j :: 0 <= j < i ==> options[j].id != id
  {
    if options == [] then None
    else if options[0].id == id then
      assert options[0] == options[0];
      Some(options[0])
    else
      var r := FindOption(options[1..], id);
      assert forall j :: 1 <= j < |options| ==> options[j] == options[1..][j - 1];
      r
  }

  /**
   * Whether an answer is correct: a speaking answer is correct exactly when its free text is
   * given and not blank after trimming; any other answer is correct exactly when an option is
   * given and the question's first option with that id is a correct one.
   */
  function IsCorrect(question: Question, optionId: Option<int>, freeText: Option<string>): (correct: bool)
    ensures question.scope == Speaking ==> (correct <==> freeText.Some? && !Blank(freeText.value))
    ensures question.scope != Speaking ==>
      (correct <==>
        && optionId.Some? && FindOption(question.options, optionId.value).Some?
        && FindOption(question.options, optionId.value).value.isCorrect)
    ensures question.scope != Speaking && optionId.None? ==> !correct
    ensures
      (&& question.scope != Speaking && optionId.Some?
       && forall i :: 0 <= i < |question.options| ==> question.options[i].id != optionId.value)
      ==> !correct
  {
    if question.scope == Speaking then
      match freeText
      case None => false
      case Some(text) =>
        TrimEmptyIffBlank(text);
        |Trim(text)| > 0
    else
      match optionId
      case None => false
      case Some(id) =>
        match FindOption(question.options, id)
        case None => false
        case Some(option) => option.isCorrect
  }

  // -----------------------------------------------------------------------------------------
  // Order of questions: scope ascending, then creation time ascending

  /** Lexicographic order of strings by character code. */
  predicate LexLe(a: string, b: string)
    decreases |a|
  {
    |a| == 0 || (|b| > 0 && (a[0] < b[0] || (a[0] == b[0] && LexLe(a[1..], b[1..]))))
  }

  lemma {:induction false} LexLeTotal(a: string, b: string)
    ensures LexLe(a, b) || LexLe(b, a)
  {
    if |a| > 0 && |b| > 0 && a[0] == b[0] {
      LexLeTotal(a[1..], b[1..]);
    }
  }

  lemma {:induction false} LexLeAntisymmetric(a: string, b: string)
    ensures LexLe(a, b) && LexLe(b, a) ==> a == b
  {
    if |a| > 0 && |b| > 0 && a[0] == b[0] {
      LexLeAntisymmetric(a[1..], b[1..]);
      assert a == a[..1] + a[1..] && b == b[..1] + b[1..];
    }
  }

  lemma {:induction false} LexLeTransitive(a: string, b: string, c: string)
    requires LexLe(a, b) && LexLe(b, c)
    ensures LexLe(a, c)
  {
    if |a| > 0 && a[0] == b[0] && b[0] == c[0] {
      LexLeTransitive(a[1..], b[1..], c[1..]);
    }
  }

  /** `p` comes no later than `q`: a smaller scope, or the same scope and no later creation. */
  predicate KeyLe(p: Question, q: Question) {
    if p.scope == q.scope then p.createdAt <= q.createdAt else LexLe(p.scope, q.scope)
  }

  lemma KeyLeTotal(p: Question, q: Question)
    ensures KeyLe(p, q) || KeyLe(q, p)
  {
    LexLeTotal(p.scope, q.scope);
  }

  lemma KeyLeTransitive(p: Question, q: Question, r: Question)
    requires KeyLe(p, q) && KeyLe(q, r)
    ensures KeyLe(p, r)
  {
    LexLeAntisymmetric(p.scope, q.scope);
    if p.scope != q.scope && q.scope != r.scope {
      LexLeTransitive(p.scope, q.scope, r.scope);
    }
  }

  // -----------------------------------------------------------------------------------------
  // Choosing the next question

  /** The ids of the answered questions. */
  function AnsweredIds(answers: seq<Answer>): (ids: set<int>)
    ensures forall i :: 0 <= i < |answers| ==> answers[i].questionId in ids
    ensures forall id :: id in ids ==> exists i :: 0 <= i < |answers| && answers[i].questionId == id
  {
    set i | 0 <= i < |answers| :: answers[i].questionId
  }

  /** The scopes of the questions whose id is among `ids`, one entry per question. */
  function AnsweredScopes(questions: seq<Question>, ids: set<int>): (scopes: seq<string>)
    ensures |scopes| <= |questions|
    ensures forall s :: s in scopes ==> exists i :: 0 <= i < |questions| && questions[i].id in ids && questions[i].scope == s
  {
    if questions == [] then []
    else
      var rest := AnsweredScopes(questions[1..], ids);
      assert forall i :: 1 <= i < |questions| ==> questions[i] == questions[1..][i - 1];
      if questions[0].id in ids then [questions[0].scope] + rest else rest
  }

  /** The positions of the bank's questions that were answered and have scope `s`. */
  function AnsweredWithScope(questions: seq<Question>, ids: set<int>, s: string): set<nat> {
    set i: nat | i < |questions| && questions[i].id in ids && questions[i].scope == s
  }

  /** Every element of a set of naturals moved up by one. */
  function ShiftUp(positions: set<nat>): set<nat> {
    set j | j in positions :: j + 1
  }

  lemma {:induction false} ShiftUpKeepsSize(positions: set<nat>)
    ensures |ShiftUp(positions)| == |positions|
    decreases |positions|
  {
    if positions != {} {
      var x :| x in positions;
      var smaller := positions - {x};
      ShiftUpKeepsSize(smaller);
      forall y | y in ShiftUp(positions)
        ensures y in ShiftUp(smaller) + {x + 1}
      {
        var j :| j in positions && y == j + 1;
        if j != x {
          assert j in smaller;
        }
      }
      forall y | y in ShiftUp(smaller)
        ensures y in ShiftUp(positions)
      {
        var j :| j in smaller && y == j + 1;
        assert j in positions;
      }
      assert ShiftUp(positions) == ShiftUp(smaller) + {x + 1};
      assert x + 1 !in ShiftUp(smaller);
    }
  }

  /** The matching positions of a non-empty bank: possibly position 0, then those of the rest moved up. */
  lemma AnsweredWithScopeSplit(questions: seq<Question>, ids: set<int>, s: string)
    requires questions != []
    ensures AnsweredWithScope(questions, ids, s)
      == (if questions[0].id in ids && questions[0].scope == s then {0} else {})
         + ShiftUp(AnsweredWithScope(questions[1..], ids, s))
    ensures 0 !in ShiftUp(AnsweredWithScope(questions[1..], ids, s))
  {
    var rest := questions[1..];
    var later := ShiftUp(AnsweredWithScope(rest, ids, s));
    var first: set<nat> := if questions[0].id in ids && questions[0].scope == s then {0} else {};
    forall i: nat | i in AnsweredWithScope(questions, ids, s)
      ensures i in first + later
    {
      if i > 0 {
        assert questions[i] == rest[i - 1];
        assert i - 1 in AnsweredWithScope(rest, ids, s);
      }
    }
    forall i | i in later
      ensures i in AnsweredWithScope(questions, ids, s)
    {
      var j :| j in AnsweredWithScope(rest, ids, s) && i == j + 1;
      assert questions[i] == rest[j];
    }
  }

  /**
   * The answered scopes list each scope once per answered question of the bank that has it:
   * the count of `s` is the number of such questions.
   */
  lemma {:induction false} AnsweredScopesCount(questions: seq<Question>, ids: set<int>, s: string)
    ensures multiset(AnsweredScopes(questions, ids))[s] == |AnsweredWithScope(questions, ids, s)|
  {
    if questions == [] {
      assert AnsweredWithScope(questions, ids, s) == {};
    } else {
      var rest := questions[1..];
      AnsweredScopesCount(rest, ids, s);
      AnsweredWithScopeSplit(questions, ids, s);
      ShiftUpKeepsSize(AnsweredWithScope(rest, ids, s));
      var tail := AnsweredScopes(rest, ids);
      if questions[0].id in ids {
        assert AnsweredScopes(questions, ids) == [questions[0].scope] + tail;
      } else {
        assert AnsweredScopes(questions, ids) == tail;
      }
    }
  }

  /** `scopeStats`: how many of the given scopes are each scope, built up one scope at a time. */
  method ScopeStats(scopes: seq<string>) returns (stats: map<string, nat>)
    ensures stats.Keys == set s | s in scopes
    ensures forall s :: s in stats ==> stats[s] == multiset(scopes)[s]
  {
    stats := map[];
    var i := 0;
    while i < |scopes|
      invariant 0 <= i <= |scopes|
      invariant stats.Keys == set s | s in scopes[..i]
      invariant forall s :: s in stats ==> stats[s] == multiset(scopes[..i])[s]
    {
      var scope := scopes[i];
      var count := if scope in stats then stats[scope] else 0;
      assert scopes[..i + 1] == scopes[..i] + [scope];
      stats := stats[scope := count + 1];
      i := i + 1;
    }
    assert scopes[..i] == scopes;
  }

  /** The number of distinct answered questions that are speaking questions. */
  function SpeakingAnswered(questions: seq<Question>, answers: seq<Answer>): nat {
    multiset(AnsweredScopes(questions, AnsweredIds(answers)))[Speaking]
  }

  /** Speaking questions are held back once one was answered, until five answers exist. */
  predicate AvoidSpeaking(questions: seq<Question>, answers: seq<Answer>) {
    SpeakingAnswered(questions, answers) > 0 && |answers| < 5
  }

  /** A question may be asked next: not yet answered, suits the child's age, and not held back. */
  predicate Eligible(q: Question, answeredIds: set<int>, childAge: int, avoidSpeaking: bool) {
    && q.id !in answeredIds
    && q.ageMin <= childAge <= q.ageMax
    && !(avoidSpeaking && q.scope == Speaking)
  }

  /**
   * `getNextQuestion`: the first eligible question in the order (scope, creation time), or
   * nothing when no question is eligible.
   */
  method NextQuestion(questions: seq<Question>, answers: seq<Answer>, childAge: int) returns (r: Option<Question>)
    ensures r.Some? ==>
      && r.value in questions
      && r.value.id !in AnsweredIds(answers)
      && r.value.ageMin <= childAge <= r.value.ageMax
      && (AvoidSpeaking(questions, answers) ==> r.value.scope != Speaking)
    ensures r.Some? ==> forall q ::
      (q in questions && Eligible(q, AnsweredIds(answers), childAge, AvoidSpeaking(questions, answers)))
      ==> KeyLe(r.value, q)
    ensures r.None? <==> forall q :: q in questions ==>
      !Eligible(q, AnsweredIds(answers), childAge, AvoidSpeaking(questions, answers))
  {
    var answeredIds := AnsweredIds(answers);
    var stats := ScopeStats(AnsweredScopes(questions, answeredIds));
    var speakingCount := if Speaking in stats then stats[Speaking] else 0;
    var avoidSpeaking := speakingCount > 0 && |answers| < 5;
    assert avoidSpeaking == AvoidSpeaking(questions, answers);
    r := None;
    var i := 0;
    while i < |questions|
      invariant 0 <= i <= |questions|
      invariant r.Some? ==> r.value in questions && Eligible(r.value, answeredIds, childAge, avoidSpeaking)
      invariant r.Some? ==> forall k ::
        (0 <= k < i && Eligible(questions[k], answeredIds, childAge, avoidSpeaking)) ==> KeyLe(r.value, questions[k])
      invariant r.None? <==> forall k :: 0 <= k < i ==> !Eligible(questions[k], answeredIds, childAge, avoidSpeaking)
    {
      var q := questions[i];
      if Eligible(q, answeredIds, childAge, avoidSpeaking) && (r.None? || !KeyLe(r.value, q)) {
        if r.Some? {
          var best := r.value;
          KeyLeTotal(best, q);
          forall k | 0 <= k < i && Eligible(questions[k], answeredIds, childAge, avoidSpeaking)
            ensures KeyLe(q, questions[k])
          {
            KeyLeTransitive(q, best, questions[k]);
          }
        }
        r := Some(q);
      }
      i := i + 1;
    }
  }

  // -----------------------------------------------------------------------------------------
  // Finish score

  /** An answer together with the scope of its question. */
  datatype ScopedAnswer = ScopedAnswer(scope: string, correct: bool)

  /** The number of answers that are not speaking answers. */
  function McqCount(answers: seq<ScopedAnswer>): (n: nat)
    ensures n <= |answers|
    ensures n == 0 <==> forall i :: 0 <= i < |answers| ==> answers[i].scope == Speaking
  {
    if answers == [] then 0
    else (if answers[0].scope != Speaking then 1 else 0) + McqCount(answers[1..])
  }

  /** The number of correct answers that are not speaking answers. */
  function McqCorrect(answers: seq<ScopedAnswer>): (n: nat)
    ensures n <= McqCount(answers)
  {
    if answers == [] then 0
    else (if answers[0].scope != Speaking && answers[0].correct then 1 else 0) + McqCorrect(answers[1..])
  }

  lemma {:induction false} McqAppend(answers: seq<ScopedAnswer>, more: seq<ScopedAnswer>)
    ensures McqCount(answers + more) == McqCount(answers) + McqCount(more)
    ensures McqCorrect(answers + more) == McqCorrect(answers) + McqCorrect(more)
  {
    if answers == [] {
      assert answers + more == more;
    } else {
      assert (answers + more)[1..] == answers[1..] + more;
      McqAppend(answers[1..], more);
    }
  }

  /**
   * The finish score: the rounded percentage of correct answers among the non-speaking ones,
   * 0 when every answer is a speaking answer.
   */
  function FinishScore(answers: seq<ScopedAnswer>): (score: nat)
    ensures score <= 100
    ensures McqCount(answers) == 0 ==> score == 0
    ensures McqCount(answers) > 0 ==>
      var n := McqCount(answers);
      2 * n * score <= 200 * McqCorrect(answers) + n < 2 * n * (score + 1)
  {
    if McqCount(answers) > 0 then
      PercentAtMost100(McqCorrect(answers), McqCount(answers));
      Percent(McqCorrect(answers), McqCount(answers))
    else 0
  }

  /** Speaking answers do not move the score, whatever their correctness. */
  lemma SpeakingAnswerLeavesScore(answers: seq<ScopedAnswer>, a: ScopedAnswer)
    requires a.scope == Speaking
    ensures FinishScore(answers + [a]) == FinishScore(answers)
  {
    McqAppend(answers, [a]);
    assert [a][1..] == [];
  }

  /** Finishing with every non-speaking answer correct, and at least one of them, scores 100 in band A2. */
  lemma {:induction false} AllMcqCorrectScores100(answers: seq<ScopedAnswer>)
    requires forall i :: 0 <= i < |answers| ==> answers[i].scope != Speaking ==> answers[i].correct
    ensures McqCorrect(answers) == McqCount(answers)
    ensures McqCount(answers) > 0 ==> FinishScore(answers) == 100 && DetermineBand(FinishScore(answers)) == A2
  {
    if answers != [] {
      var rest := answers[1..];
      assert forall i :: 0 <= i < |rest| ==> rest[i] == answers[i + 1];
      AllMcqCorrectScores100(rest);
    }
    if McqCount(answers) > 0 {
      PercentExtremes(McqCount(answers));
    }
  }

  /** The answers paired with their questions' scopes; every answered question is in the bank. */
  function WithScopes(questions: seq<Question>, answers: seq<Answer>): (scoped: seq<ScopedAnswer>)
    requires forall i :: 0 <= i < |answers| ==> FindQuestion(questions, answers[i].questionId).Some?
    ensures |scoped| == |answers|
    ensures forall i :: 0 <= i < |answers| ==>
      scoped[i] == ScopedAnswer(FindQuestion(questions, answers[i].questionId).value.scope, answers[i].correct)
  {
    seq(|answers|, i requires 0 <= i < |answers| =>
      ScopedAnswer(FindQuestion(questions, answers[i].questionId).value.scope, answers[i].correct))
  }
}
