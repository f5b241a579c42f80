/** The database as one value: every table the compliance engine touches,
    the constraints that hold between statements, and each compliance
    operation as a transition from one database state to the next. A
    statement that raises rolls its transaction back, so every step either
    fails with the first error the statement would raise or yields the new
    state. */
module Database {
  import opened Wrappers
  import opened Dates
  import opened Schema
  import opened Audit
  import opened Guards
  import opened DueDate
  import opened Projections

  datatype DB = DB(
    instrumentStatuses: map<Id, Lookup>,
    resultStatuses: map<Id, ResultStatus>,
    planStatuses: map<Id, Lookup>,
    orgUnits: set<Id>,
    locations: map<Id, Location>,
    models: set<Id>,
    checkTypes: set<Id>,
    labs: set<Id>,
    specialists: set<Id>,
    documents: set<Id>,
    requirements: map<Id, Requirement>,
    instruments: map<Id, Instrument>,
    plans: map<Id, CheckPlan>,
    events: map<Id, CheckEvent>,
    eventDocuments: set<(Id, Id)>,
    history: map<Id, StatusInterval>,
    auditLog: seq<AuditEntry>)

  // ----- Constraints that hold between statements -----

  /** UNIQUE (code) on the three status vocabularies. */
  predicate LookupsValid(
    instrumentStatuses: map<Id, Lookup>, resultStatuses: map<Id, ResultStatus>, planStatuses: map<Id, Lookup>)
  {
    CodesUnique(instrumentStatuses, LookupCode)
    && CodesUnique(resultStatuses, ResultCode)
    && CodesUnique(planStatuses, LookupCode)
  }

  predicate LocationsValid(locations: map<Id, Location>, orgUnits: set<Id>) {
    LocationCodesUnique(locations)
    && forall l :: l in locations ==> locations[l].orgUnit in orgUnits
  }

  predicate RequirementsValid(reqs: map<Id, Requirement>, models: set<Id>, checkTypes: set<Id>) {
    RequirementsWellFormed(reqs)
    && forall k :: k in reqs ==> reqs[k].model in models && reqs[k].checkType in checkTypes
  }

  /** The foreign keys of one instrument row (`self` is its own id, which
      fk_instrument_replaced_by may name). */
  predicate InstrumentRefsValid(
    row: Instrument, self: Id, instruments: set<Id>,
    models: set<Id>, orgUnits: set<Id>, locations: set<Id>, statuses: set<Id>)
  {
    row.model in models && row.orgUnit in orgUnits && row.location in locations && row.status in statuses
    && (row.replacedBy.None? || row.replacedBy.value in instruments || row.replacedBy.value == self)
  }

  predicate InstrumentsValid(
    instruments: map<Id, Instrument>, models: set<Id>, orgUnits: set<Id>,
    locations: map<Id, Location>, statuses: map<Id, Lookup>)
  {
    InventoryUnique(instruments)
    && forall i :: i in instruments ==>
      RangeOrdered(instruments[i])
      && InstrumentRefsValid(instruments[i], i, instruments.Keys, models, orgUnits, locations.Keys, statuses.Keys)
  }

  predicate PlansValid(
    plans: map<Id, CheckPlan>, instruments: map<Id, Instrument>, checkTypes: set<Id>,
    statuses: map<Id, Lookup>, labs: set<Id>, specialists: set<Id>)
  {
    PlanKeysUnique(plans)
    && forall p :: p in plans ==>
      plans[p].instrument in instruments && plans[p].checkType in checkTypes && plans[p].status in statuses
      && (plans[p].plannedLab.None? || plans[p].plannedLab.value in labs)
      && (plans[p].plannedSpecialist.None? || plans[p].plannedSpecialist.value in specialists)
  }

  predicate EventsValid(
    events: map<Id, CheckEvent>, instruments: map<Id, Instrument>, plans: map<Id, CheckPlan>,
    checkTypes: set<Id>, labs: set<Id>, specialists: set<Id>, results: map<Id, ResultStatus>)
  {
    EventPlansUnique(events)
    && forall e :: e in events ==>
      NextDueNotBeforeCheck(events[e])
      && events[e].instrument in instruments
      && (events[e].plan.None? || events[e].plan.value in plans)
      && events[e].checkType in checkTypes && events[e].lab in labs
      && (events[e].specialist.None? || events[e].specialist.value in specialists)
      && events[e].result in results
  }

  predicate LinksValid(links: set<(Id, Id)>, events: map<Id, CheckEvent>, documents: set<Id>) {
    forall l :: l in links ==> l.0 in events && l.1 in documents
  }

  /** The instrument has an open status interval. */
  predicate HasOpenInterval(history: map<Id, StatusInterval>, instrument: Id) {
    exists k :: k in history && history[k].instrument == instrument && history[k].validTo.None?
  }

  /** ck_ish_period, uq_ish_one_open and the history's foreign keys, and
      what the tracker keeps on top of them: every instrument has an open
      interval, and an open interval carries its instrument's current
      status. */
  predicate HistoryValid(history: map<Id, StatusInterval>, instruments: map<Id, Instrument>, statuses: map<Id, Lookup>) {
    OneOpenInterval(history)
    && (forall k :: k in history ==>
          PeriodOrdered(history[k]) && history[k].instrument in instruments && history[k].status in statuses)
    && (forall k :: k in history && history[k].validTo.None? ==>
          history[k].status == instruments[history[k].instrument].status)
    && (forall i :: i in instruments ==> HasOpenInterval(history, i))
  }

  predicate Consistent(db: DB) {
    && LookupsValid(db.instrumentStatuses, db.resultStatuses, db.planStatuses)
    && LocationsValid(db.locations, db.orgUnits)
    && RequirementsValid(db.requirements, db.models, db.checkTypes)
    && InstrumentsValid(db.instruments, db.models, db.orgUnits, db.locations, db.instrumentStatuses)
    && PlansValid(db.plans, db.instruments, db.checkTypes, db.planStatuses, db.labs, db.specialists)
    && EventsValid(db.events, db.instruments, db.plans, db.checkTypes, db.labs, db.specialists, db.resultStatuses)
    && LinksValid(db.eventDocuments, db.events, db.documents)
    && HistoryValid(db.history, db.instruments, db.instrumentStatuses)
  }

  /** The database right after migration 0001: empty tables and the seeded
      status vocabularies. */
  function Seeded(statusIds: seq<Id>, resultIds: seq<Id>, planStatusIds: seq<Id>): DB
    requires |statusIds| == |InstrumentStatusSeed| && FreshIds<Lookup>(map[], statusIds)
    requires |resultIds| == |ResultStatusSeed| && FreshIds<ResultStatus>(map[], resultIds)
    requires |planStatusIds| == |PlanStatusSeed| && FreshIds<Lookup>(map[], planStatusIds)
  {
    DB(SeedTable(map[], LookupCode, InstrumentStatusSeed, statusIds),
       SeedTable(map[], ResultCode, ResultStatusSeed, resultIds),
       SeedTable(map[], LookupCode, PlanStatusSeed, planStatusIds),
       {}, map[], {}, {}, {}, {}, {}, map[], map[], map[], map[], {}, map[], [])
  }

  /** The freshly migrated database satisfies every constraint. */
  lemma SeededIsConsistent(statusIds: seq<Id>, resultIds: seq<Id>, planStatusIds: seq<Id>)
    requires |statusIds| == |InstrumentStatusSeed| && FreshIds<Lookup>(map[], statusIds)
    requires |resultIds| == |ResultStatusSeed| && FreshIds<ResultStatus>(map[], resultIds)
    requires |planStatusIds| == |PlanStatusSeed| && FreshIds<Lookup>(map[], planStatusIds)
    ensures Consistent(Seeded(statusIds, resultIds, planStatusIds))
  {
    var db := Seeded(statusIds, resultIds, planStatusIds);
    SeededLookupsValid(statusIds, resultIds, planStatusIds);
    assert db == EmptyTables(db.instrumentStatuses, db.resultStatuses, db.planStatuses);
    EmptyTablesAreConsistent(db.instrumentStatuses, db.resultStatuses, db.planStatuses);
  }

  /** The seeded vocabularies have unique codes. */
  lemma SeededLookupsValid(statusIds: seq<Id>, resultIds: seq<Id>, planStatusIds: seq<Id>)
    requires |statusIds| == |InstrumentStatusSeed| && FreshIds<Lookup>(map[], statusIds)
    requires |resultIds| == |ResultStatusSeed| && FreshIds<ResultStatus>(map[], resultIds)
    requires |planStatusIds| == |PlanStatusSeed| && FreshIds<Lookup>(map[], planStatusIds)
    ensures var db := Seeded(statusIds, resultIds, planStatusIds);
      LookupsValid(db.instrumentStatuses, db.resultStatuses, db.planStatuses)
  {
  }

  /** Every seeded result status is one of the seed rows, so exactly the
      PASSED status counts as a success. */
  lemma SeededResultSuccess(statusIds: seq<Id>, resultIds: seq<Id>, planStatusIds: seq<Id>)
    requires |statusIds| == |InstrumentStatusSeed| && FreshIds<Lookup>(map[], statusIds)
    requires |resultIds| == |ResultStatusSeed| && FreshIds<ResultStatus>(map[], resultIds)
    requires |planStatusIds| == |PlanStatusSeed| && FreshIds<Lookup>(map[], planStatusIds)
    ensures var results := Seeded(statusIds, resultIds, planStatusIds).resultStatuses;
      forall r :: r in results ==> (IsSuccess(results, r) <==> results[r].code == "PASSED")
  {
    var results := Seeded(statusIds, resultIds, planStatusIds).resultStatuses;
    SeededSuccessFlags();
    forall r | r in results ensures IsSuccess(results, r) <==> results[r].code == "PASSED" {
      var i :| 0 <= i < |ResultStatusSeed| && resultIds[i] == r && results[r] == ResultStatusSeed[i];
    }
  }

  /** Every table but the vocabularies is empty. */
  function EmptyTables(
    instrumentStatuses: map<Id, Lookup>, resultStatuses: map<Id, ResultStatus>, planStatuses: map<Id, Lookup>): DB
  {
    DB(instrumentStatuses, resultStatuses, planStatuses,
       {}, map[], {}, {}, {}, {}, {}, map[], map[], map[], map[], {}, map[], [])
  }

  lemma EmptyTablesAreConsistent(
    instrumentStatuses: map<Id, Lookup>, resultStatuses: map<Id, ResultStatus>, planStatuses: map<Id, Lookup>)
    requires LookupsValid(instrumentStatuses, resultStatuses, planStatuses)
    ensures Consistent(EmptyTables(instrumentStatuses, resultStatuses, planStatuses))
  {
    var db := EmptyTables(instrumentStatuses, resultStatuses, planStatuses);
    assert InstrumentsValid(db.instruments, db.models, db.orgUnits, db.locations, db.instrumentStatuses);
    assert HistoryValid(db.history, db.instruments, db.instrumentStatuses);
  }

  // ----- Audit and status history, as steps on the database -----

  /** The audit trigger of the written table, if it has one. */
  function Logged(db: DB, c: Change, now: Timestamp, user: string): (r: DB)
    requires WellFormed(c)
    ensures r == db.(auditLog := r.auditLog)
    ensures |r.auditLog| == |db.auditLog| + (if Audited(ChangeTable(c)) then 1 else 0)
    ensures r.auditLog[..|db.auditLog|] == db.auditLog
  {
    db.(auditLog := db.auditLog + EntriesFor(c, now, user))
  }

  /** The UPDATE of `trg_instrument_status_history`: every open interval of
      the instrument gets `valid_to = now`. */
  function CloseOpenIntervals(history: map<Id, StatusInterval>, instrument: Id, now: Timestamp)
    : (r: map<Id, StatusInterval>)
    ensures r.Keys == history.Keys
    ensures forall k :: k in r ==>
      r[k] == if history[k].instrument == instrument && history[k].validTo.None?
              then history[k].(validTo := Some(now)) else history[k]
    ensures forall k :: k in r && r[k].instrument == instrument ==> r[k].validTo.Some?
  {
    map k | k in history ::
      if history[k].instrument == instrument && history[k].validTo.None?
      then history[k].(validTo := Some(now)) else history[k]
  }

  /** `COALESCE(NEW.decommission_reason, 'status change')`. */
  function StatusChangeReason(row: Instrument): string {
    if row.decommissionReason.Some? then row.decommissionReason.value else "status change"
  }

  /** Closing the open interval at `now` violates ck_ish_period when that
      interval started later than `now`. */
  predicate ClosingViolatesPeriod(history: map<Id, StatusInterval>, instrument: Id, now: Timestamp) {
    exists k :: k in history && history[k].instrument == instrument && history[k].validTo.None?
      && now < history[k].validFrom
  }

  // ----- Instrument writes -----

  /** An UPDATE of the instrument table: the columns it lists (Some) and the
      value each gets. Nullable columns take an Option value. */
  datatype InstrumentPatch = InstrumentPatch(
    model: Option<Id>,
    inventoryNo: Option<string>,
    serialNo: Option<Option<string>>,
    rangeMin: Option<Option<real>>,
    rangeMax: Option<Option<real>>,
    orgUnit: Option<Id>,
    location: Option<Id>,
    installedAt: Option<Option<Timestamp>>,
    status: Option<Id>,
    replacedBy: Option<Option<Id>>,
    decommissionedAt: Option<Option<Timestamp>>,
    decommissionReason: Option<Option<string>>)

  function Listed<T>(column: Option<T>, current: T): T {
    if column.Some? then column.value else current
  }

  function ApplyPatch(row: Instrument, p: InstrumentPatch): Instrument {
    Instrument(
      Listed(p.model, row.model),
      Listed(p.inventoryNo, row.inventoryNo),
      Listed(p.serialNo, row.serialNo),
      Listed(p.rangeMin, row.rangeMin),
      Listed(p.rangeMax, row.rangeMax),
      Listed(p.orgUnit, row.orgUnit),
      Listed(p.location, row.location),
      Listed(p.installedAt, row.installedAt),
      Listed(p.status, row.status),
      Listed(p.replacedBy, row.replacedBy),
      Listed(p.decommissionedAt, row.decommissionedAt),
      Listed(p.decommissionReason, row.decommissionReason))
  }

  /** `UPDATE OF org_unit_id, location_id`: the location guard fires. */
  predicate ListsLocation(p: InstrumentPatch) {
    p.orgUnit.Some? || p.location.Some?
  }

  /** `UPDATE OF status_id` with a value distinct from the old one: the
      history trigger records a change. */
  predicate ChangesStatus(p: InstrumentPatch, before: Instrument) {
    p.status.Some? && p.status.value != before.status
  }

  /** The first error an instrument row write raises, in statement order:
      the location guard (BEFORE trigger, when it fires), ck_range_order,
      uq_instrument_inventory, then the foreign keys in declaration order. */
  function InstrumentRowError(db: DB, id: Id, row: Instrument, guardFires: bool): (r: Option<Error>)
    ensures r.None? ==>
      (guardFires ==> LocationAgrees(db.locations, row.orgUnit, row.location))
      && RangeOrdered(row)
      && (forall j :: j in db.instruments && j != id ==> db.instruments[j].inventoryNo != row.inventoryNo)
      && InstrumentRefsValid(row, id, db.instruments.Keys, db.models, db.orgUnits, db.locations.Keys,
                             db.instrumentStatuses.Keys)
    ensures guardFires && row.location !in db.locations ==> r == Some(InvalidLocation(row.location))
  {
    if guardFires && LocationGuard(db.locations, row.orgUnit, row.location).Some? then
      LocationGuard(db.locations, row.orgUnit, row.location)
    else if !RangeOrdered(row) then
      Some(CheckViolation("ck_range_order"))
    else if exists j :: j in db.instruments && j != id && db.instruments[j].inventoryNo == row.inventoryNo then
      Some(UniqueViolation("uq_instrument_inventory"))
    else if row.model !in db.models then
      Some(ForeignKeyViolation("fk_instrument_model"))
    else if row.orgUnit !in db.orgUnits then
      Some(ForeignKeyViolation("fk_instrument_org_unit"))
    else if row.location !in db.locations then
      Some(ForeignKeyViolation("fk_instrument_location"))
    else if row.status !in db.instrumentStatuses then
      Some(ForeignKeyViolation("fk_instrument_status"))
    else if row.replacedBy.Some? && row.replacedBy.value !in db.instruments && row.replacedBy.value != id then
      Some(ForeignKeyViolation("fk_instrument_replaced_by"))
    else
      None
  }

  /** `INSERT INTO instrument`: the guard always fires on INSERT; after the
      row is written the audit trigger logs it and the history trigger opens
      its `'initial'` interval at `now`. `histId` is the new interval's id. */
  function InsertInstrument(db: DB, id: Id, row: Instrument, histId: Id, now: Timestamp, user: string)
    : (r: Result<DB, Error>)
    requires id !in db.instruments && histId !in db.history
    ensures r.Err? <==> InstrumentRowError(db, id, row, true).Some?
    ensures r.Err? ==> r.error == InstrumentRowError(db, id, row, true).value
  {
    var err := InstrumentRowError(db, id, row, true);
    if err.Some? then Err(err.value)
    else
      var db1 := db.(instruments := db.instruments[id := row]);
      var db2 := Logged(db1, Inserted(InstrumentRow(id, row)), now, user);
      Ok(db2.(history := db2.history[histId := StatusInterval(id, row.status, now, None, Some("initial"))]))
  }

  /** The first error of `UPDATE instrument SET <p> WHERE id = id` on an
      existing row: the row checks, then ck_ish_period when the history
      trigger closes the open interval. */
  function UpdateInstrumentError(db: DB, id: Id, p: InstrumentPatch, now: Timestamp): Option<Error>
    requires id in db.instruments
  {
    var before := db.instruments[id];
    var after := ApplyPatch(before, p);
    var rowError := InstrumentRowError(db, id, after, ListsLocation(p));
    if rowError.Some? then rowError
    else if ChangesStatus(p, before) && ClosingViolatesPeriod(db.history, id, now) then
      Some(CheckViolation("ck_ish_period"))
    else
      None
  }

  /** `UPDATE instrument SET <p> WHERE id = id`, with the row count. An
      unknown id matches no row: nothing fires and the count is 0. */
  function UpdateInstrument(db: DB, id: Id, p: InstrumentPatch, histId: Id, now: Timestamp, user: string)
    : (r: Result<(DB, nat), Error>)
    requires histId !in db.history
    ensures id !in db.instruments ==> r == Ok((db, 0))
    ensures id in db.instruments ==>
      (r.Err? <==> UpdateInstrumentError(db, id, p, now).Some?)
      && (r.Ok? ==> r.value.1 == 1)
    /** Only the row, the status history and the audit log are written. */
    ensures id in db.instruments && r.Ok? ==>
      r.value.0 == db.(instruments := db.instruments[id := ApplyPatch(db.instruments[id], p)],
                       history := r.value.0.history, auditLog := r.value.0.auditLog)
  {
    if id !in db.instruments then Ok((db, 0))
    else
      var err := UpdateInstrumentError(db, id, p, now);
      if err.Some? then Err(err.value)
      else
        var before := db.instruments[id];
        var after := ApplyPatch(before, p);
        var db1 := db.(instruments := db.instruments[id := after]);
        var db2 := Logged(db1, Updated(InstrumentRow(id, before), InstrumentRow(id, after)), now, user);
        if ChangesStatus(p, before) then
          var closed := CloseOpenIntervals(db2.history, id, now);
          var interval := StatusInterval(id, after.status, now, None, Some(StatusChangeReason(after)));
          Ok((db2.(history := closed[histId := interval]), 1))
        else
          Ok((db2, 1))
  }

  /** The status code `fn_decommission_instrument` sets. */
  function DecommissionCode(replacedBy: Option<Id>): string {
    if replacedBy.None? then "DECOMMISSIONED" else "REPLACED"
  }

  /** The four columns the decommissioning UPDATE lists. */
  function DecommissionPatch(status: Id, now: Timestamp, reason: Option<string>, replacedBy: Option<Id>)
    : InstrumentPatch
  {
    InstrumentPatch(None, None, None, None, None, None, None, None,
                    Some(status), Some(replacedBy), Some(Some(now)), Some(reason))
  }

  /** `fn_decommission_instrument(id, reason, replacedBy)`. */
  function Decommission(
    db: DB, id: Id, reason: Option<string>, replacedBy: Option<Id>, histId: Id, now: Timestamp, user: string)
    : (r: Result<DB, Error>)
    requires LookupsValid(db.instrumentStatuses, db.resultStatuses, db.planStatuses)
    requires histId !in db.history
    ensures CodeId(db.instrumentStatuses, LookupCode, DecommissionCode(replacedBy)).None?
      ==> r == Err(InstrumentStatusNotSeeded)
  {
    var status := CodeId(db.instrumentStatuses, LookupCode, DecommissionCode(replacedBy));
    if status.None? then Err(InstrumentStatusNotSeeded)
    else
      match UpdateInstrument(db, id, DecommissionPatch(status.value, now, reason, replacedBy), histId, now, user)
      case Ok((db', _)) => Ok(db')
      case Err(e) => Err(e)
  }

  // ----- Check events -----

  /** The arguments of `fn_register_check_event`. */
  datatype Registration = Registration(
    instrument: Id,
    checkType: Id,
    checkDate: Date,
    resultCode: string,
    lab: Id,
    specialist: Option<Id>,
    plan: Option<Id>,
    protocolNo: Option<string>,
    notes: Option<string>,
    documentIds: Option<seq<Id>>)

  /** The row the INSERT proposes, before the BEFORE triggers run. */
  function ProposedEvent(a: Registration, result: Id, now: Timestamp): CheckEvent {
    CheckEvent(a.instrument, a.plan, a.checkType, a.lab, a.specialist, a.checkDate, result,
               a.protocolNo, None, a.notes, now)
  }

  predicate HasDuplicate(ids: seq<Id>) {
    exists i, j :: 0 <= i < j < |ids| && ids[i] == ids[j]
  }

  /** The first error of the check_event INSERT: the BEFORE triggers in name
      order (trg_check_event_set_next_due, then trg_event_matches_plan),
      uq_event_plan, then the foreign keys in declaration order. */
  function EventInsertError(db: DB, row: CheckEvent): (r: Option<Error>)
    requires RequirementsWellFormed(db.requirements)
    ensures r.None? ==>
      SetNextDue(db.resultStatuses, db.instruments, db.requirements, row).Ok?
      && EventMatchesPlan(db.plans, row.plan, row.instrument, row.checkType)
      && (row.plan.Some? ==> forall e :: e in db.events ==> db.events[e].plan != row.plan)
      && row.instrument in db.instruments && row.checkType in db.checkTypes && row.lab in db.labs
      && (row.specialist.None? || row.specialist.value in db.specialists)
      && row.result in db.resultStatuses
  {
    var withDue := SetNextDue(db.resultStatuses, db.instruments, db.requirements, row);
    if withDue.Err? then Some(withDue.error)
    else if PlanGuard(db.plans, row.plan, row.instrument, row.checkType).Some? then
      PlanGuard(db.plans, row.plan, row.instrument, row.checkType)
    else if row.plan.Some? && exists e :: e in db.events && db.events[e].plan == row.plan then
      Some(UniqueViolation("uq_event_plan"))
    else if row.instrument !in db.instruments then
      Some(ForeignKeyViolation("fk_event_instrument"))
    else if row.plan.Some? && row.plan.value !in db.plans then
      Some(ForeignKeyViolation("fk_event_plan"))
    else if row.checkType !in db.checkTypes then
      Some(ForeignKeyViolation("fk_event_check_type"))
    else if row.lab !in db.labs then
      Some(ForeignKeyViolation("fk_event_lab"))
    else if row.specialist.Some? && row.specialist.value !in db.specialists then
      Some(ForeignKeyViolation("fk_event_specialist"))
    else if row.result !in db.resultStatuses then
      Some(ForeignKeyViolation("fk_event_result"))
    else
      None
  }

  /** The first error of the document-link INSERT: the primary key on a
      repeated document id, raised row by row, before the end-of-statement
      foreign-key check on the documents. */
  function LinkError(db: DB, ids: Option<seq<Id>>): (r: Option<Error>)
    ensures r.None? <==> ids.None? || (!HasDuplicate(ids.value) && forall d :: d in ids.value ==> d in db.documents)
  {
    if ids.None? then None
    else if HasDuplicate(ids.value) then Some(UniqueViolation("check_event_document_pkey"))
    else if exists d :: d in ids.value && d !in db.documents then Some(ForeignKeyViolation("fk_ced_document"))
    else None
  }

  /** The first error `fn_register_check_event` raises, in statement order. */
  function RegisterError(db: DB, a: Registration, now: Timestamp): (r: Option<Error>)
    requires LookupsValid(db.instrumentStatuses, db.resultStatuses, db.planStatuses)
    requires RequirementsWellFormed(db.requirements)
    ensures CodeId(db.resultStatuses, ResultCode, a.resultCode).None? ==> r == Some(UnknownResultCode(a.resultCode))
  {
    var result := CodeId(db.resultStatuses, ResultCode, a.resultCode);
    if result.None? then Some(UnknownResultCode(a.resultCode))
    else
      var insertError := EventInsertError(db, ProposedEvent(a, result.value, now));
      if insertError.Some? then insertError
      else if LinkError(db, a.documentIds).Some? then LinkError(db, a.documentIds)
      else if a.plan.Some? && CodeId(db.planStatuses, LookupCode, "DONE").None? then
        Some(NotNullViolation("status_id"))
      else
        None
  }

  /** The links `INSERT ... SELECT event, unnest(ids)` writes. */
  function LinksOf(event: Id, ids: Option<seq<Id>>): set<(Id, Id)> {
    if ids.None? then {} else set d | d in ids.value :: (event, d)
  }

  /** `fn_register_check_event`: the new state and the returned event id. */
  function Register(db: DB, a: Registration, eventId: Id, now: Timestamp, user: string)
    : (r: Result<(DB, Id), Error>)
    requires LookupsValid(db.instrumentStatuses, db.resultStatuses, db.planStatuses)
    requires RequirementsWellFormed(db.requirements)
    requires eventId !in db.events
    ensures r.Err? <==> RegisterError(db, a, now).Some?
    ensures r.Err? ==> r.error == RegisterError(db, a, now).value
    ensures r.Ok? ==> r.value.1 == eventId
  {
    var err := RegisterError(db, a, now);
    if err.Some? then Err(err.value)
    else
      var result := CodeId(db.resultStatuses, ResultCode, a.resultCode).value;
      var row := SetNextDue(db.resultStatuses, db.instruments, db.requirements, ProposedEvent(a, result, now)).value;
      var db1 := Logged(db.(events := db.events[eventId := row]), Inserted(EventRow(eventId, row)), now, user);
      var db2 := db1.(eventDocuments := db1.eventDocuments + LinksOf(eventId, a.documentIds));
      if a.plan.None? then Ok((db2, eventId))
      else
        var done := CodeId(db.planStatuses, LookupCode, "DONE").value;
        var before := db2.plans[a.plan.value];
        var after := before.(status := done);
        var db3 := db2.(plans := db2.plans[a.plan.value := after]);
        Ok((Logged(db3, Updated(PlanRow(a.plan.value, before), PlanRow(a.plan.value, after)), now, user), eventId))
  }

  // ----- Plan generation -----

  /** v_instrument_check_next_due over the database. */
  function View(db: DB, today: Date): map<Id, DueRow> {
    CheckNextDue(db.instruments, db.checkTypes, db.events, db.resultStatuses, today)
  }

  /** The (instrument, check type, due date) triples of the existing plans. */
  function PlanKeys(plans: map<Id, CheckPlan>): set<(Id, Id, Date)> {
    set p | p in plans :: PlanKey(plans[p])
  }

  /** The candidates of `fn_generate_check_plan(from, to)`. */
  function PlanCandidates(db: DB, from: Date, to: Date, today: Date): set<(Id, Id, Date)>
    requires LookupsValid(db.instrumentStatuses, db.resultStatuses, db.planStatuses)
  {
    Candidates(View(db, today), db.instruments, CodeId(db.instrumentStatuses, LookupCode, "ACTIVE"), from, to)
  }

  /** The candidates ON CONFLICT DO NOTHING lets through. */
  function NewPlanKeys(db: DB, from: Date, to: Date, today: Date): set<(Id, Id, Date)>
    requires LookupsValid(db.instrumentStatuses, db.resultStatuses, db.planStatuses)
  {
    PlanCandidates(db, from, to, today) - PlanKeys(db.plans)
  }

  /** `fn_generate_check_plan`'s argument and seeding checks: a NULL bound or
      `to < from` is an invalid range, and PLANNED must be seeded. */
  function GenerateError(db: DB, from: Option<Date>, to: Option<Date>): (r: Option<Error>)
    requires LookupsValid(db.instrumentStatuses, db.resultStatuses, db.planStatuses)
    ensures r.None? <==>
      from.Some? && to.Some? && NotAfter(from.value, to.value)
      && CodeId(db.planStatuses, LookupCode, "PLANNED").Some?
    ensures from.None? || to.None? ==> r == Some(InvalidRange)
  {
    if from.None? || to.None? || Before(to.value, from.value) then Some(InvalidRange)
    else if CodeId(db.planStatuses, LookupCode, "PLANNED").None? then Some(PlanStatusNotSeeded)
    else None
  }

  /** The plan row generated for a candidate triple. */
  function NewPlan(key: (Id, Id, Date), planned: Id, now: Timestamp): CheckPlan {
    CheckPlan(key.0, key.1, key.2, None, None, planned, now)
  }

  /** The audit entries of the generated plans, in insertion order. */
  function PlanInsertEntries(ids: seq<Id>, plans: map<Id, CheckPlan>, now: Timestamp, user: string)
    : (es: seq<AuditEntry>)
    requires forall i :: 0 <= i < |ids| ==> ids[i] in plans
    ensures |es| == |ids|
    ensures forall i :: 0 <= i < |ids| ==> es[i] == EntryFor(Inserted(PlanRow(ids[i], plans[ids[i]])), now, user)
  {
    seq(|ids|, i requires 0 <= i < |ids| => EntryFor(Inserted(PlanRow(ids[i], plans[ids[i]])), now, user))
  }

  /** `db2` is a state the INSERT of `fn_generate_check_plan` can leave
      behind when it offers the triples `candidates` and inserts the plans
      `inserted`, in that order: one `planned` plan per triple that had no
      plan, every other table as it was. The candidates are a set, so the
      order of insertion is not fixed. */
  predicate Generated(
    db: DB, db2: DB, candidates: set<(Id, Id, Date)>, planned: Id, now: Timestamp, user: string,
    inserted: seq<Id>)
  {
    && db2 == db.(plans := db2.plans, auditLog := db2.auditLog)
    && (forall k :: k in db.plans ==> k in db2.plans && db2.plans[k] == db.plans[k])
    && (forall k :: k in db2.plans ==> k in db.plans || k in inserted)
    && (forall i :: 0 <= i < |inserted| ==> inserted[i] !in db.plans && inserted[i] in db2.plans)
    && (forall i, j :: 0 <= i < j < |inserted| ==> inserted[i] != inserted[j])
    && (forall i :: 0 <= i < |inserted| ==>
          PlanKey(db2.plans[inserted[i]]) in candidates - PlanKeys(db.plans)
          && db2.plans[inserted[i]] == NewPlan(PlanKey(db2.plans[inserted[i]]), planned, now))
    && PlanKeysUnique(db2.plans)
    && PlanKeys(db2.plans) == PlanKeys(db.plans) + candidates
    && |inserted| == |candidates - PlanKeys(db.plans)|
    && db2.auditLog == db.auditLog + PlanInsertEntries(inserted, db2.plans, now, user)
  }
}
