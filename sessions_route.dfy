/**
 * The learning-session endpoints: the checks a new session must pass, and a child's session
 * statistics, including the current streak of consecutive days.
 */
module SessionsRoute {
  import opened Common
  import opened JsMath
  import opened PlanContent
  import opened PlanStore

  // -----------------------------------------------------------------------------------------
  // Session creation

  /** Why a new session is refused. */
  datatype SessionError = ChildNotFound | PlanDayNotFound | NotOwner | PlanInactive

  /**
   * The checks before a session is stored, in their order: the child exists, the plan day
   * exists, its plan belongs to the child, and that plan is active. On success the plan day is
   * returned. A plan day is named by its plan and its day number.
   */
  function CheckSessionCreation(plans: seq<PlanRecord>, children: set<int>, childId: int, planId: int, dayNumber: int)
    : (r: Result<PlanDay, SessionError>)
    ensures r == Err(ChildNotFound) <==> childId !in children
    ensures r.Ok? <==>
      && childId in children
      && FindPlan(plans, planId).Some? && FindDay(FindPlan(plans, planId).value.days, dayNumber).Some?
      && FindPlan(plans, planId).value.childId == childId && FindPlan(plans, planId).value.isActive
    ensures r.Ok? ==> r.value.dayNumber == dayNumber && r.value in FindPlan(plans, planId).value.days
    ensures r == Err(PlanDayNotFound) <==>
      && childId in children
      && (FindPlan(plans, planId).None? || FindDay(FindPlan(plans, planId).value.days, dayNumber).None?)
    ensures r == Err(NotOwner) <==>
      && childId in children
      && FindPlan(plans, planId).Some? && FindDay(FindPlan(plans, planId).value.days, dayNumber).Some?
      && FindPlan(plans, planId).value.childId != childId
    ensures r == Err(PlanInactive) <==>
      && childId in children
      && FindPlan(plans, planId).Some? && FindDay(FindPlan(plans, planId).value.days, dayNumber).Some?
      && FindPlan(plans, planId).value.childId == childId && !FindPlan(plans, planId).value.isActive
  {
    if childId !in children then Err(ChildNotFound)
    else match FindPlan(plans, planId)
      case None => Err(PlanDayNotFound)
      case Some(plan) =>
        match FindDay(plan.days, dayNumber)
        case None => Err(PlanDayNotFound)
        case Some(day) =>
          if plan.childId != childId then Err(NotOwner)
          else if !plan.isActive then Err(PlanInactive)
          else Ok(day)
  }

  /**
   * Once a new plan is created for a child, sessions of that child are accepted only on the
   * new plan's days, and every day 1..60 of a plan with numbered days is accepted.
   */
  lemma OnlyTheNewestPlanTakesSessions(table: seq<PlanRecord>, plan: PlanRecord, children: set<int>, planId: int, d: int)
    requires UniqueIds(table + [plan]) && plan.isActive && plan.childId in children
    ensures var after := Deactivated(table, plan.childId) + [plan];
      CheckSessionCreation(after, children, plan.childId, planId, d).Ok? ==> planId == plan.id
    ensures var after := Deactivated(table, plan.childId) + [plan];
      NumberedDays(plan.days) && 1 <= d <= PlanLength ==>
        CheckSessionCreation(after, children, plan.childId, plan.id, d) == Ok(plan.days[d - 1])
  {
    var after := Deactivated(table, plan.childId) + [plan];
    assert forall k :: 0 <= k < |after| ==> after[k].id == (table + [plan])[k].id;
    assert UniqueIds(after);
    CreateLeavesOneActivePlan(table, plan);
    FindPlanUnique(after, |after| - 1);
    if NumberedDays(plan.days) && 1 <= d <= PlanLength {
      FindDayNumbered(plan.days, d);
    }
  }

  // -----------------------------------------------------------------------------------------
  // Statistics

  /**
   * A stored session: the number of its plan day, the optional correctness flags and time,
   * and the day it was completed on.
   */
  datatype LearningSession = LearningSession(
    dayNumber: nat, vocabCorrect: Option<bool>, readingCorrect: Option<bool>,
    totalTimeMs: Option<nat>, completedDay: int)

  /** The statistics response. The average time is in seconds. */
  datatype SessionStats = SessionStats(
    totalSessions: nat, uniqueDaysCompleted: nat, vocabAccuracy: nat, readingAccuracy: nat,
    averageSessionTime: nat, streak: nat)

  /** The distinct plan-day numbers of the sessions. */
  function DayNumbers(sessions: seq<LearningSession>): (days: set<nat>)
    ensures |days| <= |sessions|
    ensures forall i :: 0 <= i < |sessions| ==> sessions[i].dayNumber in days
    ensures forall d :: d in days ==> exists i :: 0 <= i < |sessions| && sessions[i].dayNumber == d
  {
    if sessions == [] then {}
    else
      var rest := DayNumbers(sessions[1..]);
      assert forall i :: 1 <= i < |sessions| ==> sessions[i] == sessions[1..][i - 1];
      {sessions[0].dayNumber} + rest
  }

  /** The correctness flag the accuracy is computed over: vocabulary when `vocab`, reading otherwise. */
  function Flag(s: LearningSession, vocab: bool): Option<bool> {
    if vocab then s.vocabCorrect else s.readingCorrect
  }

  /** The number of sessions whose flag is set (graded). */
  function GradedCount(sessions: seq<LearningSession>, vocab: bool): (n: nat)
    ensures n <= |sessions|
    ensures n == 0 <==> forall i :: 0 <= i < |sessions| ==> Flag(sessions[i], vocab).None?
  {
    if sessions == [] then 0
    else (if Flag(sessions[0], vocab).Some? then 1 else 0) + GradedCount(sessions[1..], vocab)
  }

  /** The number of sessions whose flag is set and true; never more than the graded ones. */
  function CorrectCount(sessions: seq<LearningSession>, vocab: bool): (n: nat)
    ensures n <= GradedCount(sessions, vocab)
  {
    if sessions == [] then 0
    else (if Flag(sessions[0], vocab) == Some(true) then 1 else 0) + CorrectCount(sessions[1..], vocab)
  }

  /** When no flag is false, every graded session is a correct one. */
  lemma {:induction false} NoFalseFlagAllCorrect(sessions: seq<LearningSession>, vocab: bool)
    requires forall i :: 0 <= i < |sessions| ==> Flag(sessions[i], vocab) != Some(false)
    ensures CorrectCount(sessions, vocab) == GradedCount(sessions, vocab)
  {
    if sessions != [] {
      var rest := sessions[1..];
      assert forall i :: 0 <= i < |rest| ==> Flag(rest[i], vocab) == Flag(sessions[i + 1], vocab);
      NoFalseFlagAllCorrect(rest, vocab);
      var f := Flag(sessions[0], vocab);
      assert f != Some(false);
      assert f.Some? && f.value ==> f == Some(true);
      assert f.Some? && !f.value ==> f == Some(false);
    }
  }

  lemma {:induction false} CountsAppend(sessions: seq<LearningSession>, more: seq<LearningSession>, vocab: bool)
    ensures GradedCount(sessions + more, vocab) == GradedCount(sessions, vocab) + GradedCount(more, vocab)
    ensures CorrectCount(sessions + more, vocab) == CorrectCount(sessions, vocab) + CorrectCount(more, vocab)
  {
    if sessions == [] {
      assert sessions + more == more;
    } else {
      assert (sessions + more)[1..] == sessions[1..] + more;
      CountsAppend(sessions[1..], more, vocab);
    }
  }

  /**
   * Accuracy over graded sessions only: the rounded percentage of true flags among the set
   * ones, 0 when none is set.
   */
  function GradedAccuracy(sessions: seq<LearningSession>, vocab: bool): (a: nat)
    ensures a <= 100
    ensures GradedCount(sessions, vocab) == 0 ==> a == 0
    ensures GradedCount(sessions, vocab) > 0 ==>
      var graded := GradedCount(sessions, vocab);
      2 * graded * a <= 200 * CorrectCount(sessions, vocab) + graded < 2 * graded * (a + 1)
    ensures GradedCount(sessions, vocab) > 0 && CorrectCount(sessions, vocab) == GradedCount(sessions, vocab) ==> a == 100
  {
    var graded := GradedCount(sessions, vocab);
    if graded > 0 then
      PercentAtMost100(CorrectCount(sessions, vocab), graded);
      PercentExtremes(graded);
      Percent(CorrectCount(sessions, vocab), graded)
    else 0
  }

  /** With at least one graded session and no false flag, the accuracy is 100. */
  lemma FullAccuracyWithoutWrongAnswers(sessions: seq<LearningSession>, vocab: bool)
    requires forall i :: 0 <= i < |sessions| ==> Flag(sessions[i], vocab) != Some(false)
    requires exists i :: 0 <= i < |sessions| && Flag(sessions[i], vocab).Some?
    ensures GradedAccuracy(sessions, vocab) == 100
  {
    NoFalseFlagAllCorrect(sessions, vocab);
  }

  /** A session without the flag leaves that accuracy unchanged. */
  lemma UngradedSessionIgnored(sessions: seq<LearningSession>, s: LearningSession, vocab: bool)
    requires Flag(s, vocab).None?
    ensures GradedAccuracy(sessions + [s], vocab) == GradedAccuracy(sessions, vocab)
  {
    CountsAppend(sessions, [s], vocab);
    assert [s][1..] == [];
  }

  /** The number of sessions with a time. */
  function TimedCount(sessions: seq<LearningSession>): (n: nat)
    ensures n <= |sessions|
    ensures n == 0 <==> forall i :: 0 <= i < |sessions| ==> sessions[i].totalTimeMs.None?
  {
    if sessions == [] then 0
    else (if sessions[0].totalTimeMs.Some? then 1 else 0) + TimedCount(sessions[1..])
  }

  /** The sum of the times that are set, in milliseconds. */
  function TimeSum(sessions: seq<LearningSession>): nat {
    if sessions == [] then 0
    else (if sessions[0].totalTimeMs.Some? then sessions[0].totalTimeMs.value else 0) + TimeSum(sessions[1..])
  }

  lemma {:induction false} TimesAppend(sessions: seq<LearningSession>, more: seq<LearningSession>)
    ensures TimedCount(sessions + more) == TimedCount(sessions) + TimedCount(more)
    ensures TimeSum(sessions + more) == TimeSum(sessions) + TimeSum(more)
  {
    if sessions == [] {
      assert sessions + more == more;
    } else {
      assert (sessions + more)[1..] == sessions[1..] + more;
      TimesAppend(sessions[1..], more);
    }
  }

  /**
   * The average time in whole seconds, rounded half up, over the sessions with a time; 0 when
   * no session has one.
   */
  function AverageSeconds(sessions: seq<LearningSession>): (a: nat)
    ensures TimedCount(sessions) == 0 ==> a == 0
    ensures TimedCount(sessions) > 0 ==>
      var den := 1000 * TimedCount(sessions);
      2 * den * a <= 2 * TimeSum(sessions) + den < 2 * den * (a + 1)
  {
    if TimedCount(sessions) > 0 then RoundDiv(TimeSum(sessions), 1000 * TimedCount(sessions)) else 0
  }

  /** A session without a time leaves the average unchanged. */
  lemma UntimedSessionIgnored(sessions: seq<LearningSession>, s: LearningSession)
    requires s.totalTimeMs.None?
    ensures AverageSeconds(sessions + [s]) == AverageSeconds(sessions)
  {
    TimesAppend(sessions, [s]);
    assert [s][1..] == [];
  }

  // -----------------------------------------------------------------------------------------
  // Streak

  /** Each date is later than every date after it: distinct dates, newest first. */
  predicate StrictlyDescending(s: seq<int>) {
    forall i, j :: 0 <= i < j < |s| ==> s[i] > s[j]
  }

  /** `x` put into its place in a newest-first list of distinct dates, unless already there. */
  function InsertDescending(x: int, s: seq<int>): (r: seq<int>)
    requires StrictlyDescending(s)
    ensures StrictlyDescending(r)
    ensures forall y :: y in r <==> y in s || y == x
    ensures |r| <= |s| + 1
  {
    if s == [] then [x]
    else if x == s[0] then s
    else if x > s[0] then [x] + s
    else
      var rest := InsertDescending(x, s[1..]);
      assert forall j :: 0 <= j < |rest| ==> rest[j] in rest;
      [s[0]] + rest
  }

  /** The distinct dates of a list, newest first. */
  function DistinctDescending(dates: seq<int>): (r: seq<int>)
    ensures StrictlyDescending(r)
    ensures forall y :: y in r <==> y in dates
    ensures |r| <= |dates|
  {
    if dates == [] then []
    else InsertDescending(dates[0], DistinctDescending(dates[1..]))
  }

  /** The day the streak counts back from: today when there is a session today, else yesterday. */
  function StreakStart(dates: seq<int>, today: int): int {
    if today in dates then today else today - 1
  }

  /**
   * `streak` is the streak of `dates` on `today`: 0 unless today or yesterday has a session;
   * otherwise the first `streak` dates are the start day and the days before it, one by one,
   * and the next date (if any) breaks that run.
   */
  predicate StreakOf(dates: seq<int>, today: int, streak: nat) {
    && streak <= |dates|
    && if today in dates || today - 1 in dates then
         var start := StreakStart(dates, today);
         && (forall k :: 0 <= k < streak ==> dates[k] == start - k)
         && (streak < |dates| ==> dates[streak] != start - streak)
       else streak == 0
  }

  /** The streak loop: walks the newest-first dates while each is the day expected next. */
  method CurrentStreak(dates: seq<int>, today: int) returns (streak: nat)
    ensures StreakOf(dates, today, streak)
  {
    streak := 0;
    if today in dates || today - 1 in dates {
      var current := if today in dates then today else today - 1;
      while streak < |dates|
        invariant streak <= |dates| && current == StreakStart(dates, today) - streak
        invariant forall k :: 0 <= k < streak ==> dates[k] == StreakStart(dates, today) - k
      {
        if dates[streak] == current {
          streak := streak + 1;
          current := current - 1;
        } else {
          break;
        }
      }
    }
  }

  /**
   * With distinct newest-first dates none of which lies after today, the streak is the length
   * of the run of consecutive days ending at the start day: it is at least 1 when today or
   * yesterday has a session, every day of the run has a session, and the day before the run
   * has none.
   */
  lemma StreakIsTheRunOfDays(dates: seq<int>, today: int, streak: nat)
    requires StrictlyDescending(dates) && forall k :: 0 <= k < |dates| ==> dates[k] <= today
    requires StreakOf(dates, today, streak) && (today in dates || today - 1 in dates)
    ensures streak >= 1
    ensures forall d :: StreakStart(dates, today) - streak < d <= StreakStart(dates, today) ==> d in dates
    ensures StreakStart(dates, today) - streak !in dates
  {
    var start := StreakStart(dates, today);
    assert dates[0] == start by {
      var i :| 0 <= i < |dates| && dates[i] == start;
      assert dates[0] >= dates[i];
    }
    assert forall j :: streak < j < |dates| ==> dates[j] < dates[streak];
    assert forall j :: streak <= j < |dates| ==> dates[j] < dates[streak - 1];
    forall d | start - streak < d <= start
      ensures d in dates
    {
      assert dates[start - d] == d;
    }
  }

  /** The completion days of the sessions, in their order. */
  function CompletionDays(sessions: seq<LearningSession>): (days: seq<int>)
    ensures |days| == |sessions|
    ensures forall i :: 0 <= i < |sessions| ==> days[i] == sessions[i].completedDay
  {
    seq(|sessions|, i requires 0 <= i < |sessions| => sessions[i].completedDay)
  }

  /**
   * A child's statistics: all zero without sessions; otherwise the count of sessions, of
   * distinct plan-day numbers, the graded accuracies, the average time and the streak over
   * the distinct completion days.
   */
  method ChildStats(sessions: seq<LearningSession>, today: int) returns (stats: SessionStats)
    ensures |sessions| == 0 ==> stats == SessionStats(0, 0, 0, 0, 0, 0)
    ensures |sessions| > 0 ==>
      && stats.totalSessions == |sessions|
      && stats.uniqueDaysCompleted == |DayNumbers(sessions)|
      && stats.vocabAccuracy == GradedAccuracy(sessions, true)
      && stats.readingAccuracy == GradedAccuracy(sessions, false)
      && stats.averageSessionTime == AverageSeconds(sessions)
      && StreakOf(DistinctDescending(CompletionDays(sessions)), today, stats.streak)
    ensures stats.uniqueDaysCompleted <= stats.totalSessions
    ensures stats.vocabAccuracy <= 100 && stats.readingAccuracy <= 100
    ensures stats.streak <= stats.totalSessions
  {
    if |sessions| == 0 {
      return SessionStats(0, 0, 0, 0, 0, 0);
    }
    var dates := DistinctDescending(CompletionDays(sessions));
    var streak := CurrentStreak(dates, today);
    stats := SessionStats(|sessions|, |DayNumbers(sessions)|, GradedAccuracy(sessions, true),
      GradedAccuracy(sessions, false), AverageSeconds(sessions), streak);
  }
}
