/**
 * The learning-plan table and the rule both plan creators follow: first every active plan of
 * the child is marked inactive, then the new plan is inserted as the active one.
 */
module PlanStore {
  import opened Common
  import opened PlanContent

  /** A stored learning plan with its days. Dates are day numbers. */
  datatype PlanRecord = PlanRecord(
    id: nat, childId: int, level: string, startDay: int, endDay: int, isActive: bool,
    days: seq<PlanDay>)

  /** A plan created on `startDay` ends 60 days later. */
  function EndDay(startDay: int): int {
    startDay + PlanLength
  }

  /**
   * The table after every active plan of `childId` is marked inactive: only the `isActive`
   * flag changes, it is cleared exactly on the child's plans, and other children's plans stay
   * as they were.
   */
  function Deactivated(plans: seq<PlanRecord>, childId: int): (r: seq<PlanRecord>)
    ensures |r| == |plans|
    ensures forall i :: 0 <= i < |r| ==> r[i].(isActive := plans[i].isActive) == plans[i]
    ensures forall i :: 0 <= i < |r| ==>
      (r[i].isActive <==> plans[i].isActive && plans[i].childId != childId)
  {
    if plans == [] then []
    else
      var p := plans[0];
      [p.(isActive := p.isActive && p.childId != childId)] + Deactivated(plans[1..], childId)
  }

  /** The number of active plans of a child. */
  function ActivePlanCount(plans: seq<PlanRecord>, childId: int): nat {
    if plans == [] then 0
    else
      var here := if plans[0].isActive && plans[0].childId == childId then 1 else 0;
      here + ActivePlanCount(plans[1..], childId)
  }

  /** No child has two active plans. */
  predicate AtMostOneActivePerChild(plans: seq<PlanRecord>) {
    forall i, j :: 0 <= i < j < |plans| && plans[i].isActive && plans[j].isActive ==>
      plans[i].childId != plans[j].childId
  }

  lemma {:induction false} ActivePlanCountAppend(plans: seq<PlanRecord>, more: seq<PlanRecord>, childId: int)
    ensures ActivePlanCount(plans + more, childId)
      == ActivePlanCount(plans, childId) + ActivePlanCount(more, childId)
  {
    if plans == [] {
      assert plans + more == more;
    } else {
      assert (plans + more)[1..] == plans[1..] + more;
      ActivePlanCountAppend(plans[1..], more, childId);
    }
  }

  lemma {:induction false} NoActivePlanLeft(plans: seq<PlanRecord>, childId: int)
    ensures ActivePlanCount(Deactivated(plans, childId), childId) == 0
  {
    if plans != [] {
      assert Deactivated(plans, childId)[1..] == Deactivated(plans[1..], childId);
      NoActivePlanLeft(plans[1..], childId);
    }
  }

  /**
   * Deactivating and then inserting an active plan leaves the child exactly one active plan,
   * the new one, leaves other children's plans untouched, and keeps every child at no more
   * than one active plan.
   */
  lemma {:induction false} CreateLeavesOneActivePlan(plans: seq<PlanRecord>, plan: PlanRecord)
    requires plan.isActive
    ensures var r := Deactivated(plans, plan.childId) + [plan];
      && ActivePlanCount(r, plan.childId) == 1
      && (forall i :: 0 <= i < |r| && r[i].childId == plan.childId && r[i].isActive ==> i == |r| - 1)
      && (forall i :: 0 <= i < |plans| && plans[i].childId != plan.childId ==> r[i] == plans[i])
      && (AtMostOneActivePerChild(plans) ==> AtMostOneActivePerChild(r))
  {
    var d := Deactivated(plans, plan.childId);
    NoActivePlanLeft(plans, plan.childId);
    ActivePlanCountAppend(d, [plan], plan.childId);
    assert ActivePlanCount([plan], plan.childId) == 1 by {
      assert [plan][1..] == [];
    }
  }

  /** Plan ids are unique in the table. */
  predicate UniqueIds(plans: seq<PlanRecord>) {
    forall i, j :: 0 <= i < j < |plans| ==> plans[i].id != plans[j].id
  }

  /** `findUnique` by plan id: a plan of the table with that id, or nothing when there is none. */
  function FindPlan(plans: seq<PlanRecord>, id: int): (r: Option<PlanRecord>)
    ensures r.Some? ==> r.value in plans && r.value.id == id
    ensures r.None? <==> forall i :: 0 <= i < |plans| ==> plans[i].id != id
  {
    if plans == [] then None
    else if plans[0].id == id then Some(plans[0])
    else FindPlan(plans[1..], id)
  }

  /** With unique ids, the plan found is the one carrying that id. */
  lemma FindPlanUnique(plans: seq<PlanRecord>, i: nat)
    requires UniqueIds(plans) && i < |plans|
    ensures FindPlan(plans, plans[i].id) == Some(plans[i])
  {
  }

  /** `findUnique` by (plan, day number) within one plan's days: a day with that number, or nothing. */
  function FindDay(days: seq<PlanDay>, dayNumber: int): (r: Option<PlanDay>)
    ensures r.Some? ==> r.value in days && r.value.dayNumber == dayNumber
    ensures r.None? <==> forall i :: 0 <= i < |days| ==> days[i].dayNumber != dayNumber
  {
    if days == [] then None
    else if days[0].dayNumber == dayNumber then Some(days[0])
    else FindDay(days[1..], dayNumber)
  }

  /** In a plan whose days are numbered 1 to 60, day d is found, and it is the d-th day. */
  lemma FindDayNumbered(days: seq<PlanDay>, d: int)
    requires NumberedDays(days) && 1 <= d <= PlanLength
    ensures FindDay(days, d) == Some(days[d - 1])
  {
    assert days[d - 1].dayNumber == d;
  }

  /** The plan table: its rows and the next id to hand out. */
  class PlanTable {
    var plans: seq<PlanRecord>
    var nextId: nat

    /** Ids are positive, increasing and below `nextId`, and no child has two active plans. */
    ghost predicate Valid()
      reads this
    {
      && 1 <= nextId
      && (forall i :: 0 <= i < |plans| ==> 1 <= plans[i].id < nextId)
      && (forall i, j :: 0 <= i < j < |plans| ==> plans[i].id < plans[j].id)
      && AtMostOneActivePerChild(plans)
    }

    constructor ()
      ensures Valid() && plans == [] && nextId == 1
    {
      plans := [];
      nextId := 1;
    }

    /** `updateMany`: every active plan of the child becomes inactive. */
    method DeactivateActivePlans(childId: int)
      requires Valid()
      modifies this
      ensures Valid()
      ensures plans == Deactivated(old(plans), childId) && nextId == old(nextId)
      ensures forall i :: 0 <= i < |plans| && plans[i].childId == childId ==> !plans[i].isActive
    {
      plans := Deactivated(plans, childId);
    }

    /** `create`: appends a new active plan under a fresh id. */
    method InsertActivePlan(childId: int, level: string, startDay: int, endDay: int, days: seq<PlanDay>)
      returns (plan: PlanRecord)
      requires Valid()
      requires forall i :: 0 <= i < |plans| && plans[i].childId == childId ==> !plans[i].isActive
      modifies this
      ensures Valid()
      ensures plan == PlanRecord(old(nextId), childId, level, startDay, endDay, true, days)
      ensures plans == old(plans) + [plan] && nextId == old(nextId) + 1
    {
      plan := PlanRecord(nextId, childId, level, startDay, endDay, true, days);
      ghost var before := plans;
      plans := plans + [plan];
      nextId := nextId + 1;
      assert forall i :: 0 <= i < |before| ==> plans[i] == before[i];
      assert plans[|plans| - 1] == plan;
    }
  }
}
