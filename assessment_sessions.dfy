/**
 * The lifecycle of assessment sessions: a session is started ACTIVE, collects at most one
 * answer per question while ACTIVE, and is finished once, with its score.
 */
module AssessmentSessions {
  import opened Common
  import opened AssessmentsRoute

  datatype Status = Active | Finished

  /** Why a request on the assessment sessions is refused. */
  datatype AssessmentError =
    | ChildNotFound | AlreadyActive | SessionNotFound | NotActive
    | QuestionNotFound | AlreadyAnswered | NoAnswers

  /** One assessment session of a child. */
  class AssessmentSession {
    const id: nat
    const childId: int
    var status: Status
    var answers: seq<Answer>
    var score: Option<nat>

    constructor (id: nat, childId: int)
      ensures this.id == id && this.childId == childId
      ensures status == Active && answers == [] && score == None
    {
      this.id := id;
      this.childId := childId;
      status := Active;
      answers := [];
      score := None;
    }
  }

  /** No two answers are for the same question. */
  predicate OneAnswerPerQuestion(answers: seq<Answer>) {
    forall i, j :: 0 <= i < j < |answers| ==> answers[i].questionId != answers[j].questionId
  }

  /** The question bank, the children's ages and every assessment session. */
  class AssessmentRegistry {
    const questions: seq<Question>
    const childAges: map<int, int>
    var sessions: seq<AssessmentSession>

    /**
     * A session's id is its position; no child has two ACTIVE sessions; every session
     * belongs to a known child, answers each question at most once and only questions of the
     * bank; an ACTIVE session has no score, a FINISHED one a score of at most 100.
     */
    ghost predicate Valid()
      reads this, sessions
    {
      && (forall i :: 0 <= i < |sessions| ==> sessions[i].id == i)
      && (forall i, j :: 0 <= i < j < |sessions| && sessions[i].status == Active && sessions[j].status == Active
            ==> sessions[i].childId != sessions[j].childId)
      && (forall i :: 0 <= i < |sessions| ==> sessions[i].childId in childAges)
      && (forall i :: 0 <= i < |sessions| ==> OneAnswerPerQuestion(sessions[i].answers))
      && (forall i, k :: 0 <= i < |sessions| && 0 <= k < |sessions[i].answers| ==>
            FindQuestion(questions, sessions[i].answers[k].questionId).Some?)
      && (forall i :: 0 <= i < |sessions| ==>
            if sessions[i].status == Active then sessions[i].score.None?
            else sessions[i].score.Some? && sessions[i].score.value <= 100)
    }

    constructor (questions: seq<Question>, childAges: map<int, int>)
      ensures Valid() && this.questions == questions && this.childAges == childAges && sessions == []
    {
      this.questions := questions;
      this.childAges := childAges;
      sessions := [];
    }

    /** The child has an ACTIVE session. */
    predicate HasActiveSession(childId: int)
      reads this, sessions
    {
      exists i :: 0 <= i < |sessions| && sessions[i].childId == childId && sessions[i].status == Active
    }

    /**
     * `start`: refused for an unknown child or a child with an ACTIVE session; otherwise a new
     * ACTIVE session without answers is added and its id returned.
     */
    method Start(childId: int) returns (r: Result<nat, AssessmentError>)
      requires Valid()
      modifies this
      ensures Valid()
      ensures r == Err(ChildNotFound) <==> childId !in childAges
      ensures r == Err(AlreadyActive) <==> childId in childAges && old(HasActiveSession(childId))
      ensures r.Ok? <==> childId in childAges && !old(HasActiveSession(childId))
      ensures r.Err? ==> sessions == old(sessions)
      ensures r.Ok? ==>
        && r.value == old(|sessions|) && |sessions| == r.value + 1 && sessions[..r.value] == old(sessions)
        && fresh(sessions[r.value]) && sessions[r.value].childId == childId
        && sessions[r.value].status == Active && sessions[r.value].answers == []
        && sessions[r.value].score == None
    {
      if childId !in childAges {
        return Err(ChildNotFound);
      }
      if HasActiveSession(childId) {
        return Err(AlreadyActive);
      }
      var session := new AssessmentSession(|sessions|, childId);
      sessions := sessions + [session];
      r := Ok(session.id);
      assert sessions[..r.value] == old(sessions);
    }

    /**
     * `next`: refused for an unknown or non-ACTIVE session; otherwise the next question for
     * the session's child, as chosen by `NextQuestion`.
     */
    method Next(sessionId: int) returns (r: Result<Option<Question>, AssessmentError>)
      requires Valid()
      ensures r == Err(SessionNotFound) <==> !(0 <= sessionId < |sessions|)
      ensures r == Err(NotActive) <==> 0 <= sessionId < |sessions| && sessions[sessionId].status != Active
      ensures r.Ok? <==> 0 <= sessionId < |sessions| && sessions[sessionId].status == Active
      ensures r.Ok? && 0 <= sessionId < |sessions| ==>
        var s := sessions[sessionId];
        && (r.value.Some? ==> r.value.value in questions && r.value.value.id !in AnsweredIds(s.answers))
        && (r.value.Some? ==> r.value.value.ageMin <= childAges[s.childId] <= r.value.value.ageMax)
        && (r.value.Some? && AvoidSpeaking(questions, s.answers) ==> r.value.value.scope != Speaking)
        && (r.value.Some? ==> forall q ::
              (q in questions && Eligible(q, AnsweredIds(s.answers), childAges[s.childId], AvoidSpeaking(questions, s.answers)))
              ==> KeyLe(r.value.value, q))
        && (r.value.None? <==> forall q :: q in questions ==>
              !Eligible(q, AnsweredIds(s.answers), childAges[s.childId], AvoidSpeaking(questions, s.answers)))
    {
      if !(0 <= sessionId < |sessions|) {
        return Err(SessionNotFound);
      }
      var session := sessions[sessionId];
      if session.status != Active {
        return Err(NotActive);
      }
      var question := NextQuestion(questions, session.answers, childAges[session.childId]);
      r := Ok(question);
    }

    /**
     * `answer`: refused for an unknown or non-ACTIVE session, an unknown question, or a
     * question the session already answered; otherwise the answer is graded and appended to
     * the session's answers. No other session changes, and no status or score changes.
     */
    method SubmitAnswer(sessionId: int, questionId: int, optionId: Option<int>, freeText: Option<string>)
      returns (r: Result<bool, AssessmentError>)
      requires Valid()
      modifies sessions
      ensures Valid() && sessions == old(sessions)
      ensures r == Err(SessionNotFound) <==> !(0 <= sessionId < |sessions|)
      ensures r == Err(NotActive) <==> 0 <= sessionId < |sessions| && old(sessions[sessionId].status) != Active
      ensures r == Err(QuestionNotFound) <==>
        && 0 <= sessionId < |sessions| && old(sessions[sessionId].status) == Active
        && FindQuestion(questions, questionId).None?
      ensures r == Err(AlreadyAnswered) <==>
        && 0 <= sessionId < |sessions| && old(sessions[sessionId].status) == Active
        && FindQuestion(questions, questionId).Some?
        && questionId in AnsweredIds(old(sessions[sessionId].answers))
      ensures r.Ok? <==>
        && 0 <= sessionId < |sessions| && old(sessions[sessionId].status) == Active
        && FindQuestion(questions, questionId).Some?
        && questionId !in AnsweredIds(old(sessions[sessionId].answers))
      ensures forall i :: 0 <= i < |sessions| ==>
        sessions[i].status == old(sessions[i].status) && sessions[i].score == old(sessions[i].score)
      ensures forall i :: 0 <= i < |sessions| && (i != sessionId || r.Err?) ==>
        sessions[i].answers == old(sessions[i].answers)
      ensures r.Ok? ==>
        && 0 <= sessionId < |sessions|
        && r.value == IsCorrect(FindQuestion(questions, questionId).value, optionId, freeText)
        && sessions[sessionId].answers == old(sessions[sessionId].answers) + [Answer(questionId, optionId, r.value)]
    {
      if !(0 <= sessionId < |sessions|) {
        return Err(SessionNotFound);
      }
      var session := sessions[sessionId];
      if session.status != Active {
        return Err(NotActive);
      }
      var question := FindQuestion(questions, questionId);
      if question.None? {
        return Err(QuestionNotFound);
      }
      if questionId in AnsweredIds(session.answers) {
        return Err(AlreadyAnswered);
      }
      var correct := IsCorrect(question.value, optionId, freeText);
      session.answers := session.answers + [Answer(questionId, optionId, correct)];
      r := Ok(correct);
    }

    /**
     * `finish`: refused for an unknown or non-ACTIVE session and for a session without
     * answers; otherwise the session becomes FINISHED with the finish score, which is returned
     * with its band. No other session changes.
     */
    method Finish(sessionId: int) returns (r: Result<(nat, Band), AssessmentError>)
      requires Valid()
      modifies sessions
      ensures Valid() && sessions == old(sessions)
      ensures r == Err(SessionNotFound) <==> !(0 <= sessionId < |sessions|)
      ensures r == Err(NotActive) <==> 0 <= sessionId < |sessions| && old(sessions[sessionId].status) != Active
      ensures r == Err(NoAnswers) <==>
        0 <= sessionId < |sessions| && old(sessions[sessionId].status) == Active && old(sessions[sessionId].answers) == []
      ensures r.Ok? <==>
        0 <= sessionId < |sessions| && old(sessions[sessionId].status) == Active && old(sessions[sessionId].answers) != []
      ensures forall i :: 0 <= i < |sessions| ==> sessions[i].answers == old(sessions[i].answers)
      ensures forall i :: 0 <= i < |sessions| && (i != sessionId || r.Err?) ==>
        sessions[i].status == old(sessions[i].status) && sessions[i].score == old(sessions[i].score)
      ensures r.Ok? ==>
        && 0 <= sessionId < |sessions|
        && r.value.0 == FinishScore(WithScopes(questions, sessions[sessionId].answers))
        && r.value.1 == DetermineBand(r.value.0)
        && sessions[sessionId].status == Finished && sessions[sessionId].score == Some(r.value.0)
    {
      if !(0 <= sessionId < |sessions|) {
        return Err(SessionNotFound);
      }
      var session := sessions[sessionId];
      if session.status != Active {
        return Err(NotActive);
      }
      if session.answers == [] {
        return Err(NoAnswers);
      }
      var score := FinishScore(WithScopes(questions, session.answers));
      var band := DetermineBand(score);
      session.status := Finished;
      session.score := Some(score);
      r := Ok((score, band));
    }
  }
}
