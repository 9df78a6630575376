/**
 * The learning-plan endpoints: creation with its level whitelist and single-active-plan rule,
 * day lookup with its day-number bound, and the progress statistics of a plan.
 */
module PlansRoute {
  import opened Common
  import opened JsMath
  import opened PlanContent
  import opened PlanStore
  import Levels
  import PlanGenerator

  /** Why a request is refused: its parameters fail validation, or a row it names does not exist. */
  datatype RouteError = ValidationFailed | NotFound

  /** The levels plan creation accepts. */
  const AcceptedLevels: set<string> := {"A0", "A1", "A2-kids"}

  /**
   * Plan creation: validates the child id and the level, checks that the child exists, then
   * marks the child's active plans inactive and inserts the new active plan with the 60 days
   * of the randomised generator, from `today` to 60 days later. A refused request leaves the
   * table as it was.
   */
  method CreatePlan(table: PlanTable, children: set<int>, childId: int, level: string, today: int, rs: seq<real>)
    returns (r: Result<PlanRecord, RouteError>)
    requires table.Valid() && |rs| >= PlanGenerator.PlanDraws && PlanGenerator.ValidDraws(rs)
    modifies table
    ensures table.Valid()
    ensures r == Err(ValidationFailed) <==> childId < 1 || level !in AcceptedLevels
    ensures r == Err(NotFound) <==> 1 <= childId && level in AcceptedLevels && childId !in children
    ensures r.Err? ==> table.plans == old(table.plans) && table.nextId == old(table.nextId)
    ensures r.Ok? ==>
      && table.plans == Deactivated(old(table.plans), childId) + [r.value]
      && r.value.id == old(table.nextId) && r.value.childId == childId && r.value.level == level
      && r.value.isActive && r.value.startDay == today && r.value.endDay == EndDay(today)
      && NumberedDays(r.value.days)
      && forall k :: 0 <= k < |r.value.days| ==> r.value.days[k] == PlanGenerator.PlanDayFor(level, k + 1, rs)
  {
    if childId < 1 || level !in AcceptedLevels {
      return Err(ValidationFailed);
    }
    if childId !in children {
      return Err(NotFound);
    }
    table.DeactivateActivePlans(childId);
    var startDay := today;
    var endDay := EndDay(startDay);
    var days := PlanGenerator.GeneratePlan(level, rs);
    var plan := table.InsertActivePlan(childId, level, startDay, endDay, days);
    r := Ok(plan);
  }

  /** The creation whitelist is exactly the set of levels the scorer produces. */
  lemma AcceptedLevelsAreTheLevels()
    ensures AcceptedLevels == Levels.KnownLabels
    ensures forall l: Levels.Level :: l.Label() in AcceptedLevels
  {
  }

  /**
   * Day lookup: the plan id must be positive and the day number within 1..60; the day is then
   * looked up by its plan and number.
   */
  function GetPlanDay(plans: seq<PlanRecord>, planId: int, dayNumber: int): (r: Result<PlanDay, RouteError>)
    ensures r == Err(ValidationFailed) <==> planId < 1 || dayNumber < 1 || dayNumber > PlanLength
    ensures r.Ok? ==>
      && r.value.dayNumber == dayNumber
      && FindPlan(plans, planId).Some? && r.value in FindPlan(plans, planId).value.days
    ensures r == Err(NotFound) <==>
      && !(planId < 1 || dayNumber < 1 || dayNumber > PlanLength)
      && (FindPlan(plans, planId).None? || FindDay(FindPlan(plans, planId).value.days, dayNumber).None?)
  {
    if planId < 1 || dayNumber < 1 || dayNumber > PlanLength then Err(ValidationFailed)
    else match FindPlan(plans, planId)
      case None => Err(NotFound)
      case Some(plan) =>
        match FindDay(plan.days, dayNumber)
        case None => Err(NotFound)
        case Some(day) => Ok(day)
  }

  /** Every day 1..60 of a stored plan with numbered days can be looked up, and is that plan's day. */
  lemma StoredPlanAnswersEveryDay(plans: seq<PlanRecord>, i: nat, d: int)
    requires UniqueIds(plans) && i < |plans| && 1 <= plans[i].id
    requires NumberedDays(plans[i].days) && 1 <= d <= PlanLength
    ensures GetPlanDay(plans, plans[i].id, d) == Ok(plans[i].days[d - 1])
  {
    FindPlanUnique(plans, i);
    FindDayNumbered(plans[i].days, d);
  }

  /** A plan just created through the route answers every day 1..60. */
  lemma CreatedPlanAnswersEveryDay(table: seq<PlanRecord>, plan: PlanRecord, d: int)
    requires UniqueIds(table + [plan]) && 1 <= plan.id && NumberedDays(plan.days) && 1 <= d <= PlanLength
    ensures GetPlanDay(Deactivated(table, plan.childId) + [plan], plan.id, d) == Ok(plan.days[d - 1])
  {
    var after := Deactivated(table, plan.childId) + [plan];
    assert forall k :: 0 <= k < |after| ==> after[k].id == (table + [plan])[k].id;
    StoredPlanAnswersEveryDay(after, |after| - 1, d);
  }

  // -----------------------------------------------------------------------------------------
  // Progress

  /** The completion flags of one session; a flag may be missing (null). */
  datatype SessionFlags = SessionFlags(vocabCorrect: Option<bool>, readingCorrect: Option<bool>)

  /** The statistics block of the progress response. */
  datatype ProgressStats = ProgressStats(
    totalDays: nat, completedDays: nat, progressPercentage: nat,
    vocabAccuracy: nat, readingAccuracy: nat, totalSessions: nat)

  /** The number of days with at least one session. */
  function CompletedDays(days: seq<seq<SessionFlags>>): (n: nat)
    ensures n <= |days|
    ensures n == |days| <==> forall i :: 0 <= i < |days| ==> days[i] != []
    ensures n == 0 <==> forall i :: 0 <= i < |days| ==> days[i] == []
  {
    if days == [] then 0
    else (if days[0] != [] then 1 else 0) + CompletedDays(days[1..])
  }

  /** The number of sessions of each day, summed. */
  function SessionCount(days: seq<seq<SessionFlags>>): nat {
    if days == [] then 0 else |days[0]| + SessionCount(days[1..])
  }

  /** All sessions of all days, day by day. */
  function AllSessions(days: seq<seq<SessionFlags>>): (all: seq<SessionFlags>)
    ensures |all| == SessionCount(days)
    ensures forall i :: 0 <= i < |days| ==> forall s :: s in days[i] ==> s in all
  {
    if days == [] then [] else days[0] + AllSessions(days[1..])
  }

  /**
   * `flatMap` keeps every session in its place: session k of day i sits right after the
   * sessions of the days before day i, at position k among them.
   */
  lemma {:induction false} AllSessionsInOrder(days: seq<seq<SessionFlags>>, i: nat, k: nat)
    requires i < |days| && k < |days[i]|
    ensures SessionCount(days[..i]) + k < |AllSessions(days)|
    ensures AllSessions(days)[SessionCount(days[..i]) + k] == days[i][k]
  {
    var rest := days[1..];
    assert AllSessions(days) == days[0] + AllSessions(rest);
    if i == 0 {
      assert days[..0] == [];
    } else {
      AllSessionsInOrder(rest, i - 1, k);
      assert days[..i][1..] == rest[..i - 1];
      assert SessionCount(days[..i]) == |days[0]| + SessionCount(rest[..i - 1]);
    }
  }

  /** The flag the accuracy is computed over: vocabulary when `vocab`, reading otherwise. */
  function Flag(s: SessionFlags, vocab: bool): Option<bool> {
    if vocab then s.vocabCorrect else s.readingCorrect
  }

  /** The number of sessions whose flag is true; a missing flag is not true. */
  function TruthyCount(sessions: seq<SessionFlags>, vocab: bool): (n: nat)
    ensures n <= |sessions|
    ensures n == |sessions| <==> forall i :: 0 <= i < |sessions| ==> Flag(sessions[i], vocab) == Some(true)
  {
    if sessions == [] then 0
    else (if Flag(sessions[0], vocab) == Some(true) then 1 else 0) + TruthyCount(sessions[1..], vocab)
  }

  lemma {:induction false} TruthyCountAppend(sessions: seq<SessionFlags>, more: seq<SessionFlags>, vocab: bool)
    ensures TruthyCount(sessions + more, vocab) == TruthyCount(sessions, vocab) + TruthyCount(more, vocab)
  {
    if sessions == [] {
      assert sessions + more == more;
    } else {
      assert (sessions + more)[1..] == sessions[1..] + more;
      TruthyCountAppend(sessions[1..], more, vocab);
    }
  }

  /** Accuracy over all sessions: the rounded percentage of true flags, 0 without sessions. */
  function Accuracy(sessions: seq<SessionFlags>, vocab: bool): (a: nat)
    ensures a <= 100
    ensures |sessions| == 0 ==> a == 0
    ensures |sessions| > 0 ==>
      2 * |sessions| * a <= 200 * TruthyCount(sessions, vocab) + |sessions| < 2 * |sessions| * (a + 1)
  {
    if |sessions| > 0 then
      PercentAtMost100(TruthyCount(sessions, vocab), |sessions|);
      Percent(TruthyCount(sessions, vocab), |sessions|)
    else 0
  }

  /**
   * A session whose flag is missing or false counts in the denominator and not in the
   * numerator: appending one never raises the accuracy.
   */
  lemma UngradedSessionCountsAsIncorrect(sessions: seq<SessionFlags>, s: SessionFlags, vocab: bool)
    requires Flag(s, vocab) != Some(true)
    ensures TruthyCount(sessions + [s], vocab) == TruthyCount(sessions, vocab)
    ensures Accuracy(sessions + [s], vocab) <= Accuracy(sessions, vocab) || |sessions| == 0
  {
    TruthyCountAppend(sessions, [s], vocab);
    assert TruthyCount([s], vocab) == 0 by { assert [s][1..] == []; }
    if |sessions| > 0 {
      PercentMonotoneWhole(TruthyCount(sessions, vocab), |sessions|, |sessions| + 1);
    }
  }

  /** The progress statistics of a plan, given the sessions of each of its days. */
  function Progress(days: seq<seq<SessionFlags>>): (p: ProgressStats)
    ensures p.totalDays == |days| && p.completedDays == CompletedDays(days) && p.completedDays <= p.totalDays
    ensures |days| > 0 ==> p.progressPercentage == Percent(CompletedDays(days), |days|)
    ensures p.vocabAccuracy == Accuracy(AllSessions(days), true)
    ensures p.readingAccuracy == Accuracy(AllSessions(days), false)
    ensures p.progressPercentage <= 100
    ensures |days| == 0 ==> p.progressPercentage == 0
    ensures |days| > 0 && p.completedDays == |days| ==> p.progressPercentage == 100
    ensures p.completedDays == 0 ==> p.progressPercentage == 0
    ensures p.totalSessions == SessionCount(days)
    ensures p.vocabAccuracy <= 100 && p.readingAccuracy <= 100
    ensures p.totalSessions == 0 ==> p.vocabAccuracy == 0 && p.readingAccuracy == 0
  {
    var total := |days|;
    var completed := CompletedDays(days);
    var percentage :=
      if total > 0 then
        PercentAtMost100(completed, total);
        PercentExtremes(total);
        Percent(completed, total)
      else 0;
    var all := AllSessions(days);
    ProgressStats(total, completed, percentage, Accuracy(all, true), Accuracy(all, false), |all|)
  }
}
