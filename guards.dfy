/** The two BEFORE-row consistency triggers. Each only looks rows up and
    either lets the write through or raises. */
module Guards {
  import opened Wrappers
  import opened Schema

  /** The instrument's location exists and belongs to the instrument's org unit. */
  predicate LocationAgrees(locations: map<Id, Location>, orgUnit: Id, location: Id) {
    location in locations && locations[location].orgUnit == orgUnit
  }

  /** trg_assert_instrument_location_org_unit on the NEW row's
      (org_unit_id, location_id). */
  function LocationGuard(locations: map<Id, Location>, orgUnit: Id, location: Id): (r: Option<Error>)
    ensures r.None? <==> LocationAgrees(locations, orgUnit, location)
    ensures location !in locations ==> r == Some(InvalidLocation(location))
    ensures location in locations && locations[location].orgUnit != orgUnit
      ==> r == Some(LocationOrgUnitMismatch(locations[location].orgUnit, orgUnit))
  {
    if location !in locations then
      Some(InvalidLocation(location))
    else if locations[location].orgUnit != orgUnit then
      Some(LocationOrgUnitMismatch(locations[location].orgUnit, orgUnit))
    else
      None
  }

  /** The event names no plan, or a plan of the same instrument and check type. */
  predicate EventMatchesPlan(plans: map<Id, CheckPlan>, plan: Option<Id>, instrument: Id, checkType: Id) {
    plan.None?
    || (plan.value in plans
        && plans[plan.value].instrument == instrument
        && plans[plan.value].checkType == checkType)
  }

  /** trg_assert_event_matches_plan on the NEW row's
      (check_plan_id, instrument_id, check_type_id). */
  function PlanGuard(plans: map<Id, CheckPlan>, plan: Option<Id>, instrument: Id, checkType: Id): (r: Option<Error>)
    ensures r.None? <==> EventMatchesPlan(plans, plan, instrument, checkType)
    ensures plan.Some? && plan.value !in plans ==> r == Some(InvalidCheckPlan(plan.value))
    ensures plan.Some? && plan.value in plans && !EventMatchesPlan(plans, plan, instrument, checkType)
      ==> r == Some(EventPlanMismatch)
  {
    if plan.None? then
      None
    else if plan.value !in plans then
      Some(InvalidCheckPlan(plan.value))
    else if plans[plan.value].instrument != instrument || plans[plan.value].checkType != checkType then
      Some(EventPlanMismatch)
    else
      None
  }
}
