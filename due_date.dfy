/** The due-date calculator: `fn_compute_next_due_date` and the
    `trg_check_event_set_next_due` trigger that fills a check event's
    `next_due_date` before the row is written. */
module DueDate {
  import opened Wrappers
  import opened Dates
  import opened Schema

  /** The requirement row that governs checks of type `checkType` on
      instruments of model `model`. */
  predicate Governs(req: Requirement, model: Id, checkType: Id) {
    req.model == model && req.checkType == checkType
  }

  /** `SELECT ... FROM check_requirement WHERE instrument_model_id = model
      AND check_type_id = checkType`: no row, or one governing row. */
  function FindRequirement(reqs: map<Id, Requirement>, model: Id, checkType: Id): (r: Option<Requirement>)
    requires RequirementsWellFormed(reqs)
    ensures r.None? <==> forall k :: k in reqs ==> !Governs(reqs[k], model, checkType)
    ensures r.Some? ==> r.value in reqs.Values && Governs(r.value, model, checkType)
  {
    if exists k :: k in reqs && Governs(reqs[k], model, checkType) then
      var k :| k in reqs && Governs(reqs[k], model, checkType);
      Some(reqs[k])
    else
      None
  }

  /** `fn_compute_next_due_date(instrument, checkType, checkDate)`: raises
      for an unknown instrument, is NULL when no requirement governs the
      instrument's model and the check type, and is otherwise the check date
      moved forward by the requirement's interval in calendar months.
      uq_req makes the governing requirement unique. */
  function ComputeNextDueDate(
    instruments: map<Id, Instrument>, reqs: map<Id, Requirement>,
    instrument: Id, checkType: Id, checkDate: Date): (r: Result<Option<Date>, Error>)
    requires RequirementsWellFormed(reqs)
    ensures r.Err? <==> instrument !in instruments
    ensures r.Err? ==> r.error == InvalidInstrument(instrument)
    ensures r == Ok(None) <==>
      instrument in instruments
      && forall k :: k in reqs ==> !Governs(reqs[k], instruments[instrument].model, checkType)
    ensures r.Ok? && r.value.Some? ==>
      exists k :: k in reqs && Governs(reqs[k], instruments[instrument].model, checkType)
        && r.value.value == AddMonths(checkDate, reqs[k].intervalMonths)
  {
    if instrument !in instruments then
      Err(InvalidInstrument(instrument))
    else
      match FindRequirement(reqs, instruments[instrument].model, checkType)
      case None => Ok(None)
      case Some(req) => Ok(Some(AddMonths(checkDate, req.intervalMonths)))
  }

  /** ck_interval_months makes every computed due date strictly later than
      the check date. */
  lemma NextDueIsLater(
    instruments: map<Id, Instrument>, reqs: map<Id, Requirement>,
    instrument: Id, checkType: Id, checkDate: Date)
    requires RequirementsWellFormed(reqs)
    requires ComputeNextDueDate(instruments, reqs, instrument, checkType, checkDate).Ok?
    ensures var r := ComputeNextDueDate(instruments, reqs, instrument, checkType, checkDate);
      r.value.Some? ==> Before(checkDate, r.value.value)
  {
    var r := ComputeNextDueDate(instruments, reqs, instrument, checkType, checkDate);
    if r.value.Some? {
      var k :| k in reqs && Governs(reqs[k], instruments[instrument].model, checkType)
        && r.value.value == AddMonths(checkDate, reqs[k].intervalMonths);
      AddMonthsIsLater(checkDate, reqs[k].intervalMonths);
    }
  }

  /** Because uq_req admits one requirement per (model, check type), the due
      date is fixed by whichever governing row one names. */
  lemma NextDueFromRequirement(
    instruments: map<Id, Instrument>, reqs: map<Id, Requirement>,
    instrument: Id, checkType: Id, checkDate: Date, reqId: Id)
    requires RequirementsWellFormed(reqs)
    requires instrument in instruments && reqId in reqs
    requires Governs(reqs[reqId], instruments[instrument].model, checkType)
    ensures ComputeNextDueDate(instruments, reqs, instrument, checkType, checkDate)
      == Ok(Some(AddMonths(checkDate, reqs[reqId].intervalMonths)))
  {
    var r := ComputeNextDueDate(instruments, reqs, instrument, checkType, checkDate);
    assert r != Ok(None);
    var k :| k in reqs && Governs(reqs[k], instruments[instrument].model, checkType)
      && r.value.value == AddMonths(checkDate, reqs[k].intervalMonths);
    assert k == reqId;
  }

  /** `trg_check_event_set_next_due`: the trigger overwrites NEW.next_due_date
      and nothing else; a result status whose `is_success` is not true (or
      that has no row) gives NULL. */
  function SetNextDue(
    results: map<Id, ResultStatus>, instruments: map<Id, Instrument>, reqs: map<Id, Requirement>,
    e: CheckEvent): (r: Result<CheckEvent, Error>)
    requires RequirementsWellFormed(reqs)
    ensures r.Ok? ==> r.value == e.(nextDueDate := r.value.nextDueDate)
    ensures !IsSuccess(results, e.result) ==> r == Ok(e.(nextDueDate := None))
    ensures IsSuccess(results, e.result) ==>
      r == (match ComputeNextDueDate(instruments, reqs, e.instrument, e.checkType, e.checkDate)
            case Ok(d) => Ok(e.(nextDueDate := d))
            case Err(x) => Err(x))
  {
    if IsSuccess(results, e.result) then
      match ComputeNextDueDate(instruments, reqs, e.instrument, e.checkType, e.checkDate)
      case Ok(d) => Ok(e.(nextDueDate := d))
      case Err(x) => Err(x)
    else
      Ok(e.(nextDueDate := None))
  }

  /** Whatever row the trigger lets through satisfies ck_next_due: the
      CHECK constraint can never reject an event written through it. */
  lemma SetNextDueSatisfiesCheck(
    results: map<Id, ResultStatus>, instruments: map<Id, Instrument>, reqs: map<Id, Requirement>,
    e: CheckEvent)
    requires RequirementsWellFormed(reqs)
    requires SetNextDue(results, instruments, reqs, e).Ok?
    ensures NextDueNotBeforeCheck(SetNextDue(results, instruments, reqs, e).value)
    ensures SetNextDue(results, instruments, reqs, e).value.nextDueDate.Some? ==>
      IsSuccess(results, e.result)
  {
    if IsSuccess(results, e.result) {
      NextDueIsLater(instruments, reqs, e.instrument, e.checkType, e.checkDate);
    }
  }

  /** A year-long requirement and a passed check on 2025-01-31 give
      2026-01-31; a failed check on the same day gives no due date. */
  lemma YearlyRequirementExample(
    results: map<Id, ResultStatus>, instruments: map<Id, Instrument>, reqs: map<Id, Requirement>,
    e: CheckEvent, passed: Id, failed: Id, reqId: Id)
    requires RequirementsWellFormed(reqs)
    requires passed in results && results[passed] == ResultStatus("PASSED", "Годен", true)
    requires failed in results && results[failed] == ResultStatus("FAILED", "Не годен", false)
    requires e.instrument in instruments && reqId in reqs
    requires reqs[reqId] == Requirement(instruments[e.instrument].model, e.checkType, 12, 0, true)
    requires e.checkDate == CivilDate(2025, 1, 31)
    ensures SetNextDue(results, instruments, reqs, e.(result := passed))
      == Ok(e.(result := passed, nextDueDate := Some(CivilDate(2026, 1, 31))))
    ensures SetNextDue(results, instruments, reqs, e.(result := failed))
      == Ok(e.(result := failed, nextDueDate := None))
  {
    NextDueFromRequirement(instruments, reqs, e.instrument, e.checkType, e.checkDate, reqId);
  }
}
