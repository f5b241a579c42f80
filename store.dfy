/** The compliance engine as the database the stored programs run in: one
    field per table, and one method per statement or stored program. Each
    method first determines the error the statement would raise and, when
    there is one, returns it without writing anything (the transaction rolls
    back); otherwise it writes the rows step by step, with the triggers'
    effects, and ends in the state the corresponding step of `Database`
    defines. */
module Engine {
  import opened Wrappers
  import opened Dates
  import opened Schema
  import opened Audit
  import opened Guards
  import opened DueDate
  import opened Database
  import opened Properties
  import opened RegisterProperties
  import opened PlanProperties

  /** The first n + 1 ids are the first n and the next one. */
  lemma TakeOneMore(ids: seq<Id>, n: nat)
    requires n < |ids|
    ensures ids[..n + 1] == ids[..n] + [ids[n]]
  {
  }

  /** Offering a key that has no plan yet inserts its plan under `ids[n]`
      and keeps every invariant of the generation loop. */
  lemma OfferNewKey(
    dbPlans: map<Id, CheckPlan>, dbLog: seq<AuditEntry>, plans: map<Id, CheckPlan>, log: seq<AuditEntry>,
    candidates: set<(Id, Id, Date)>, todo: set<(Id, Id, Date)>, ids: seq<Id>, n: nat, inserted: seq<Id>,
    key: (Id, Id, Date), planned: Id, now: Timestamp, user: string)
    requires key in todo && key !in PlanKeys(plans) && |candidates| <= |ids|
    requires forall i :: 0 <= i < |ids| ==> ids[i] !in dbPlans
    requires forall i, j :: 0 <= i < j < |ids| ==> ids[i] != ids[j]
    requires n == |inserted| <= |ids| && inserted == ids[..n]
    requires InsertedPlans(dbPlans, plans, inserted, candidates - PlanKeys(dbPlans), planned, now)
    requires OfferedKeys(PlanKeys(dbPlans), plans, candidates, todo, n)
    requires log == dbLog + PlanInsertEntries(inserted, plans, now, user)
    ensures n < |ids| && ids[n] !in plans
    ensures var plans2 := plans[ids[n] := NewPlan(key, planned, now)];
      && var inserted2 := inserted + [ids[n]];
      && inserted2 == ids[..n + 1]
      && InsertedPlans(dbPlans, plans2, inserted2, candidates - PlanKeys(dbPlans), planned, now)
      && OfferedKeys(PlanKeys(dbPlans), plans2, candidates, todo - {key}, n + 1)
      && log + [EntryFor(Inserted(PlanRow(ids[n], NewPlan(key, planned, now))), now, user)]
         == dbLog + PlanInsertEntries(inserted2, plans2, now, user)
  {
    var plan := NewPlan(key, planned, now);
    assert n < |ids| by {
      assert (candidates - todo) - PlanKeys(dbPlans) <= candidates - {key};
      SubsetCardinality((candidates - todo) - PlanKeys(dbPlans), candidates - {key});
    }
    assert ids[n] !in inserted by {
      forall i | 0 <= i < n ensures ids[..n][i] != ids[n] {
      }
    }
    InsertedPlansExtend(dbPlans, plans, inserted, candidates - PlanKeys(dbPlans), planned, now, ids[n], key);
    OfferedKeysInsert(PlanKeys(dbPlans), plans, candidates, todo, n, ids[n], plan);
    InsertLogExtend(dbLog, log, plans, inserted, ids[n], plan, now, user);
    TakeOneMore(ids, n);
  }

  /** A subset is no larger than its superset. */
  lemma {:induction false} SubsetCardinality<T>(a: set<T>, b: set<T>)
    requires a <= b
    ensures |a| <= |b|
    decreases |a|
  {
    if a != {} {
      var x :| x in a;
      SubsetCardinality(a - {x}, b - {x});
    }
  }

  class Store {
    var instrumentStatuses: map<Id, Lookup>
    var resultStatuses: map<Id, ResultStatus>
    var planStatuses: map<Id, Lookup>
    var orgUnits: set<Id>
    var locations: map<Id, Location>
    var models: set<Id>
    var checkTypes: set<Id>
    var labs: set<Id>
    var specialists: set<Id>
    var documents: set<Id>
    var requirements: map<Id, Requirement>
    var instruments: map<Id, Instrument>
    var plans: map<Id, CheckPlan>
    var events: map<Id, CheckEvent>
    var eventDocuments: set<(Id, Id)>
    var history: map<Id, StatusInterval>
    var auditLog: seq<AuditEntry>

    /** The tables as one value. */
    function Tables(): DB
      reads this
    {
      DB(instrumentStatuses, resultStatuses, planStatuses, orgUnits, locations, models, checkTypes, labs,
         specialists, documents, requirements, instruments, plans, events, eventDocuments, history, auditLog)
    }

    /** Every constraint holds. */
    ghost predicate Valid()
      reads this
    {
      Consistent(Tables())
    }

    constructor (db: DB)
      requires Consistent(db)
      ensures Valid() && Tables() == db
    {
      instrumentStatuses, resultStatuses, planStatuses := db.instrumentStatuses, db.resultStatuses, db.planStatuses;
      orgUnits, locations, models, checkTypes := db.orgUnits, db.locations, db.models, db.checkTypes;
      labs, specialists, documents, requirements := db.labs, db.specialists, db.documents, db.requirements;
      instruments, plans, events, eventDocuments := db.instruments, db.plans, db.events, db.eventDocuments;
      history, auditLog := db.history, db.auditLog;
    }

    /** `trg_audit_row` for one row-level write. */
    method RecordAudit(c: Change, now: Timestamp, user: string)
      requires WellFormed(c)
      modifies this
      ensures Tables() == Logged(old(Tables()), c, now, user)
    {
      auditLog := auditLog + EntriesFor(c, now, user);
    }

    /** `INSERT INTO instrument`, with its three triggers. */
    method InsertInstrument(id: Id, row: Instrument, histId: Id, now: Timestamp, user: string)
      returns (err: Option<Error>)
      requires id !in instruments && histId !in history
      modifies this
      ensures err == InstrumentRowError(old(Tables()), id, row, true)
      ensures err.Some? ==> Tables() == old(Tables())
      ensures err.None? ==> Tables() == Database.InsertInstrument(old(Tables()), id, row, histId, now, user).value
      ensures old(Valid()) ==> Valid()
    {
      ghost var db := Tables();
      err := InstrumentRowError(Tables(), id, row, true);
      if err.Some? {
        return;
      }
      WriteNewInstrument(id, row, now, user);
      history := history[histId := StatusInterval(id, row.status, now, None, Some("initial"))];
      if Consistent(db) {
        InsertInstrumentKeepsConsistency(db, id, row, histId, now, user);
      }
    }

    /** The row write of an instrument INSERT, and its audit entry. */
    method WriteNewInstrument(id: Id, row: Instrument, now: Timestamp, user: string)
      modifies this
      ensures Tables() == Logged(old(Tables()).(instruments := old(instruments)[id := row]),
                                 Inserted(InstrumentRow(id, row)), now, user)
    {
      instruments := instruments[id := row];
      RecordAudit(Inserted(InstrumentRow(id, row)), now, user);
    }

    /** `UPDATE instrument SET <p> WHERE id = id`, returning the row count. */
    method UpdateInstrument(id: Id, p: InstrumentPatch, histId: Id, now: Timestamp, user: string)
      returns (r: Result<nat, Error>)
      requires histId !in history
      modifies this
      ensures var step := Database.UpdateInstrument(old(Tables()), id, p, histId, now, user);
        && (step.Err? ==> r == Err(step.error) && Tables() == old(Tables()))
        && (step.Ok? ==> r == Ok(step.value.1) && Tables() == step.value.0)
      ensures old(Valid()) ==> Valid()
    {
      ghost var db := Tables();
      if id !in instruments {
        return Ok(0);
      }
      var err := UpdateInstrumentError(Tables(), id, p, now);
      if err.Some? {
        return Err(err.value);
      }
      var before := instruments[id];
      var after := ApplyPatch(before, p);
      WriteInstrument(id, before, after, now, user);
      if ChangesStatus(p, before) {
        RecordStatusChange(id, after, histId, now);
      }
      if Consistent(db) {
        UpdateInstrumentKeepsConsistency(db, id, p, histId, now, user);
      }
      return Ok(1);
    }

    /** The row write of an instrument UPDATE, and its audit entry. */
    method WriteInstrument(id: Id, before: Instrument, after: Instrument, now: Timestamp, user: string)
      modifies this
      ensures Tables() == Logged(old(Tables()).(instruments := old(instruments)[id := after]),
                                 Updated(InstrumentRow(id, before), InstrumentRow(id, after)), now, user)
    {
      instruments := instruments[id := after];
      RecordAudit(Updated(InstrumentRow(id, before), InstrumentRow(id, after)), now, user);
    }

    /** `trg_instrument_status_history` on a status change: the open
        interval is closed at `now` and a new one is opened under `histId`. */
    method RecordStatusChange(id: Id, after: Instrument, histId: Id, now: Timestamp)
      modifies this
      ensures Tables() == old(Tables()).(history := CloseOpenIntervals(old(history), id, now)
                                           [histId := StatusInterval(id, after.status, now, None,
                                                                     Some(StatusChangeReason(after)))])
    {
      history := CloseOpenIntervals(history, id, now)
                 [histId := StatusInterval(id, after.status, now, None, Some(StatusChangeReason(after)))];
    }

    /** `fn_decommission_instrument(id, reason, replacedBy)`. */
    method Decommission(id: Id, reason: Option<string>, replacedBy: Option<Id>, histId: Id, now: Timestamp,
                        user: string)
      returns (err: Option<Error>)
      requires LookupsValid(instrumentStatuses, resultStatuses, planStatuses)
      requires histId !in history
      modifies this
      ensures var step := Database.Decommission(old(Tables()), id, reason, replacedBy, histId, now, user);
        && (step.Err? ==> err == Some(step.error) && Tables() == old(Tables()))
        && (step.Ok? ==> err.None? && Tables() == step.value)
      ensures old(Valid()) ==> Valid()
    {
      var status := CodeId(instrumentStatuses, LookupCode, DecommissionCode(replacedBy));
      if status.None? {
        return Some(InstrumentStatusNotSeeded);
      }
      var r := UpdateInstrument(id, DecommissionPatch(status.value, now, reason, replacedBy), histId, now, user);
      err := if r.Err? then Some(r.error) else None;
    }

    /** `INSERT INTO check_event_document SELECT event, unnest(ids)`, one row
        at a time; the caller has checked the rows against the constraints. */
    method LinkDocuments(event: Id, ids: seq<Id>)
      modifies this
      ensures Tables() == old(Tables()).(eventDocuments := old(eventDocuments) + LinksOf(event, Some(ids)))
    {
      var i := 0;
      while i < |ids|
        invariant 0 <= i <= |ids|
        invariant Tables() == old(Tables()).(eventDocuments := old(eventDocuments) + LinksOf(event, Some(ids[..i])))
      {
        assert ids[..i + 1] == ids[..i] + [ids[i]];
        eventDocuments := eventDocuments + {(event, ids[i])};
        i := i + 1;
      }
      assert ids[..i] == ids;
    }

    /** `INSERT INTO check_event` of a row the triggers have completed, and
        its audit entry. */
    method InsertEvent(eventId: Id, row: CheckEvent, now: Timestamp, user: string)
      modifies this
      ensures Tables() == Logged(old(Tables()).(events := old(events)[eventId := row]),
                                 Inserted(EventRow(eventId, row)), now, user)
    {
      events := events[eventId := row];
      RecordAudit(Inserted(EventRow(eventId, row)), now, user);
    }

    /** `UPDATE check_plan SET status_id = done WHERE id = plan`, and its
        audit entry. */
    method MarkPlanDone(plan: Id, done: Id, now: Timestamp, user: string)
      requires plan in plans
      modifies this
      ensures var before := old(plans)[plan];
        Tables() == Logged(old(Tables()).(plans := old(plans)[plan := before.(status := done)]),
                           Updated(PlanRow(plan, before), PlanRow(plan, before.(status := done))), now, user)
    {
      var before := plans[plan];
      var after := before.(status := done);
      plans := plans[plan := after];
      RecordAudit(Updated(PlanRow(plan, before), PlanRow(plan, after)), now, user);
    }

    /** `fn_register_check_event`: the event id on success. */
    method RegisterCheckEvent(a: Registration, eventId: Id, now: Timestamp, user: string)
      returns (r: Result<Id, Error>)
      requires LookupsValid(instrumentStatuses, resultStatuses, planStatuses)
      requires RequirementsWellFormed(requirements) && eventId !in events
      modifies this
      ensures var step := Register(old(Tables()), a, eventId, now, user);
        && (step.Err? ==> r == Err(step.error) && Tables() == old(Tables()))
        && (step.Ok? ==> r == Ok(eventId) && Tables() == step.value.0)
      ensures old(Valid()) ==> Valid()
    {
      ghost var db := Tables();
      var err := RegisterError(Tables(), a, now);
      if err.Some? {
        return Err(err.value);
      }
      WriteRegistration(a, eventId, now, user);
      if Consistent(db) {
        RegisterKeepsConsistency(db, a, eventId, now, user);
      }
      return Ok(eventId);
    }

    /** The writes of an accepted registration: the event row with its due
        date, its document links, and its plan marked DONE. */
    method WriteRegistration(a: Registration, eventId: Id, now: Timestamp, user: string)
      requires LookupsValid(instrumentStatuses, resultStatuses, planStatuses)
      requires RequirementsWellFormed(requirements) && eventId !in events
      requires RegisterError(Tables(), a, now).None?
      modifies this
      ensures Tables() == Register(old(Tables()), a, eventId, now, user).value.0
    {
      ghost var db := Tables();
      var result := CodeId(resultStatuses, ResultCode, a.resultCode).value;
      var row := SetNextDue(resultStatuses, instruments, requirements, ProposedEvent(a, result, now)).value;
      InsertEvent(eventId, row, now, user);
      ghost var db1 := Tables();
      if a.documentIds.Some? {
        LinkDocuments(eventId, a.documentIds.value);
      }
      ghost var db2 := Tables();
      assert db2 == db1.(eventDocuments := db1.eventDocuments + LinksOf(eventId, a.documentIds));
      if a.plan.Some? {
        assert EventInsertError(db, ProposedEvent(a, result, now)).None?;
        MarkPlanDone(a.plan.value, CodeId(planStatuses, LookupCode, "DONE").value, now, user);
      }
    }

    /** `INSERT INTO check_plan` of one generated plan, and its audit entry. */
    method InsertPlan(id: Id, plan: CheckPlan, now: Timestamp, user: string)
      modifies this
      ensures Tables() == old(Tables()).(plans := old(plans)[id := plan],
                                        auditLog := old(auditLog) + [EntryFor(Inserted(PlanRow(id, plan)), now, user)])
    {
      plans := plans[id := plan];
      RecordAudit(Inserted(PlanRow(id, plan)), now, user);
    }

    /** One candidate offered to the INSERT ... ON CONFLICT DO NOTHING: a key
        with no plan yet gets one under `ids[n]`, a key with a plan is
        skipped. */
    method OfferCandidate(
      ghost db: DB, candidates: set<(Id, Id, Date)>, todo: set<(Id, Id, Date)>, key: (Id, Id, Date),
      planned: Id, ids: seq<Id>, n: nat, ghost inserted: seq<Id>, now: Timestamp, user: string)
      returns (n2: nat, ghost inserted2: seq<Id>)
      requires key in todo && |candidates| <= |ids|
      requires forall i :: 0 <= i < |ids| ==> ids[i] !in db.plans
      requires forall i, j :: 0 <= i < j < |ids| ==> ids[i] != ids[j]
      requires n == |inserted| <= |ids| && inserted == ids[..n]
      requires Tables() == db.(plans := plans, auditLog := auditLog)
      requires InsertedPlans(db.plans, plans, inserted, candidates - PlanKeys(db.plans), planned, now)
      requires OfferedKeys(PlanKeys(db.plans), plans, candidates, todo, n)
      requires auditLog == db.auditLog + PlanInsertEntries(inserted, plans, now, user)
      modifies this
      ensures n2 == |inserted2| <= |ids| && inserted2 == ids[..n2]
      ensures Tables() == db.(plans := plans, auditLog := auditLog)
      ensures InsertedPlans(db.plans, plans, inserted2, candidates - PlanKeys(db.plans), planned, now)
      ensures OfferedKeys(PlanKeys(db.plans), plans, candidates, todo - {key}, n2)
      ensures auditLog == db.auditLog + PlanInsertEntries(inserted2, plans, now, user)
    {
      if key in PlanKeys(plans) {
        OfferedKeysSkip(PlanKeys(db.plans), plans, candidates, todo, n, key);
        return n, inserted;
      }
      OfferNewKey(db.plans, db.auditLog, plans, auditLog, candidates, todo, ids, n, inserted, key, planned, now, user);
      InsertPlan(ids[n], NewPlan(key, planned, now), now, user);
      inserted2 := inserted + [ids[n]];
      n2 := n + 1;
    }

    /** The INSERT ... SELECT of `fn_generate_check_plan`: every candidate is
        offered in turn; returns how many plans were inserted, `inserted`
        being their ids in insertion order. */
    method InsertCandidates(candidates: set<(Id, Id, Date)>, planned: Id, ids: seq<Id>, now: Timestamp,
                            user: string)
      returns (n: nat, ghost inserted: seq<Id>)
      requires |candidates| <= |ids| && PlanKeysUnique(plans)
      requires forall i :: 0 <= i < |ids| ==> ids[i] !in plans
      requires forall i, j :: 0 <= i < j < |ids| ==> ids[i] != ids[j]
      modifies this
      ensures Generated(old(Tables()), Tables(), candidates, planned, now, user, inserted)
      ensures n == |candidates - PlanKeys(old(plans))|
    {
      ghost var db := Tables();
      inserted := [];
      var todo := candidates;
      n := 0;
      InsertProgressStart(db.plans, candidates, planned, now);
      while todo != {}
        invariant n == |inserted| <= |ids| && inserted == ids[..n]
        invariant Tables() == db.(plans := plans, auditLog := auditLog)
        invariant InsertedPlans(db.plans, plans, inserted, candidates - PlanKeys(db.plans), planned, now)
        invariant OfferedKeys(PlanKeys(db.plans), plans, candidates, todo, n)
        invariant auditLog == db.auditLog + PlanInsertEntries(inserted, plans, now, user)
        decreases |todo|
      {
        var key :| key in todo;
        n, inserted := OfferCandidate(db, candidates, todo, key, planned, ids, n, inserted, now, user);
        todo := todo - {key};
      }
      InsertProgressDone(db, plans, auditLog, candidates, inserted, planned, now, user);
    }

    /** `fn_generate_check_plan(from, to)`: checks its arguments, then
        inserts a PLANNED plan, under the next of the ids `ids`, for every
        candidate (instrument, check type, due date) that has none yet, and
        returns how many it inserted. */
    method GeneratePlans(from: Option<Date>, to: Option<Date>, today: Date, ids: seq<Id>, now: Timestamp,
                         user: string)
      returns (r: Result<nat, Error>, ghost inserted: seq<Id>)
      requires Valid()
      requires forall i, j :: 0 <= i < j < |ids| ==> ids[i] != ids[j]
      requires forall i :: 0 <= i < |ids| ==> ids[i] !in plans
      requires from.Some? && to.Some? ==> |PlanCandidates(Tables(), from.value, to.value, today)| <= |ids|
      modifies this
      ensures var err := GenerateError(old(Tables()), from, to);
        && (err.Some? ==> r == Err(err.value) && Tables() == old(Tables()))
        && (err.None? ==>
              && r == Ok(|NewPlanKeys(old(Tables()), from.value, to.value, today)|)
              && Generated(old(Tables()), Tables(), PlanCandidates(old(Tables()), from.value, to.value, today),
                           CodeId(old(planStatuses), LookupCode, "PLANNED").value, now, user, inserted))
      ensures Valid()
    {
      ghost var db := Tables();
      inserted := [];
      var err := GenerateError(Tables(), from, to);
      if err.Some? {
        return Err(err.value), inserted;
      }
      var planned := CodeId(planStatuses, LookupCode, "PLANNED").value;
      var candidates := PlanCandidates(Tables(), from.value, to.value, today);
      var n;
      n, inserted := InsertCandidates(candidates, planned, ids, now, user);
      CandidatesReferenceRows(db, from.value, to.value, today);
      GeneratedKeepsConsistency(db, Tables(), candidates, planned, now, user, inserted);
      return Ok(n), inserted;
    }
  }
}
