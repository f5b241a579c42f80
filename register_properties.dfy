/** What `fn_register_check_event` guarantees: the event it writes is the
    proposed row with the trigger's due date, its documents are linked, its
    plan is marked DONE, every constraint still holds, and a plan can be
    consumed by one event only. */
module RegisterProperties {
  import opened Wrappers
  import opened Dates
  import opened Schema
  import opened Audit
  import opened Guards
  import opened DueDate
  import opened Database

  // ----- Constraints kept by the three writes -----

  /** Adding one event row that passed the trigger, uq_event_plan and its
      foreign keys keeps the event table valid. */
  lemma EventsValidAfterInsert(
    events: map<Id, CheckEvent>, instruments: map<Id, Instrument>, plans: map<Id, CheckPlan>,
    plans2: map<Id, CheckPlan>, checkTypes: set<Id>, labs: set<Id>, specialists: set<Id>,
    results: map<Id, ResultStatus>, eventId: Id, row: CheckEvent)
    requires EventsValid(events, instruments, plans, checkTypes, labs, specialists, results)
    requires plans.Keys <= plans2.Keys && eventId !in events
    requires NextDueNotBeforeCheck(row)
    requires row.instrument in instruments && (row.plan.None? || row.plan.value in plans)
    requires row.checkType in checkTypes && row.lab in labs
    requires (row.specialist.None? || row.specialist.value in specialists) && row.result in results
    requires row.plan.Some? ==> forall e :: e in events ==> events[e].plan != row.plan
    ensures EventsValid(events[eventId := row], instruments, plans2, checkTypes, labs, specialists, results)
  {
    var m := events[eventId := row];
    forall a, b | a in m && b in m && m[a].plan.Some? && m[a].plan == m[b].plan ensures a == b {
      if a != eventId && b != eventId {
        assert m[a] == events[a] && m[b] == events[b];
      }
    }
  }

  /** Setting one plan's status to a seeded status keeps the plan table
      valid: the plan's key does not change. */
  lemma PlansValidAfterStatus(
    plans: map<Id, CheckPlan>, instruments: map<Id, Instrument>, checkTypes: set<Id>,
    statuses: map<Id, Lookup>, labs: set<Id>, specialists: set<Id>, p: Id, status: Id)
    requires PlansValid(plans, instruments, checkTypes, statuses, labs, specialists)
    requires p in plans && status in statuses
    ensures PlansValid(plans[p := plans[p].(status := status)], instruments, checkTypes, statuses, labs, specialists)
  {
    var m := plans[p := plans[p].(status := status)];
    assert forall k :: k in m ==> PlanKey(m[k]) == PlanKey(plans[k]);
  }

  /** Linking the new event to existing documents keeps the link table valid. */
  lemma LinksValidAfterRegister(
    links: set<(Id, Id)>, events: map<Id, CheckEvent>, documents: set<Id>,
    eventId: Id, row: CheckEvent, ids: Option<seq<Id>>)
    requires LinksValid(links, events, documents)
    requires ids.Some? ==> forall d :: d in ids.value ==> d in documents
    ensures LinksValid(links + LinksOf(eventId, ids), events[eventId := row], documents)
  {
  }

  // ----- The registration -----

  /** An accepted registration writes the proposed event with the due date
      of `trg_check_event_set_next_due`, links the given documents, marks the
      given plan DONE, audits the event (and the plan), and leaves every
      other table alone. */
  lemma RegisterEffects(db: DB, a: Registration, eventId: Id, now: Timestamp, user: string)
    requires LookupsValid(db.instrumentStatuses, db.resultStatuses, db.planStatuses)
    requires RequirementsWellFormed(db.requirements) && eventId !in db.events
    requires Register(db, a, eventId, now, user).Ok?
    ensures var db2 := Register(db, a, eventId, now, user).value.0;
      var result := CodeId(db.resultStatuses, ResultCode, a.resultCode);
      && result.Some? && db.resultStatuses[result.value].code == a.resultCode
      && eventId in db2.events
      && db2.events == db.events[eventId := db2.events[eventId]]
      && db2.events[eventId] == ProposedEvent(a, result.value, now).(nextDueDate := db2.events[eventId].nextDueDate)
      && db2.events[eventId].nextDueDate
         == (if IsSuccess(db.resultStatuses, result.value)
             then ComputeNextDueDate(db.instruments, db.requirements, a.instrument, a.checkType, a.checkDate).value
             else None)
      && db2.eventDocuments == db.eventDocuments + LinksOf(eventId, a.documentIds)
      && (a.plan.None? ==> db2.plans == db.plans)
      && (a.plan.Some? ==>
            && a.plan.value in db.plans
            && CodeId(db.planStatuses, LookupCode, "DONE").Some?
            && db2.plans == db.plans[a.plan.value :=
                 db.plans[a.plan.value].(status := CodeId(db.planStatuses, LookupCode, "DONE").value)])
      && |db2.auditLog| == |db.auditLog| + (if a.plan.Some? then 2 else 1)
      && db2 == db.(events := db2.events, eventDocuments := db2.eventDocuments, plans := db2.plans,
                    auditLog := db2.auditLog)
  {
  }

  /** Every accepted registration keeps every constraint. */
  lemma RegisterKeepsConsistency(db: DB, a: Registration, eventId: Id, now: Timestamp, user: string)
    requires Consistent(db) && eventId !in db.events
    requires Register(db, a, eventId, now, user).Ok?
    ensures Consistent(Register(db, a, eventId, now, user).value.0)
  {
    var db2 := Register(db, a, eventId, now, user).value.0;
    var result := CodeId(db.resultStatuses, ResultCode, a.resultCode).value;
    var proposed := ProposedEvent(a, result, now);
    assert EventInsertError(db, proposed).None?;
    assert LinkError(db, a.documentIds).None?;
    RegisterEffects(db, a, eventId, now, user);
    var row := db2.events[eventId];
    SetNextDueSatisfiesCheck(db.resultStatuses, db.instruments, db.requirements, proposed);
    EventsValidAfterInsert(db.events, db.instruments, db.plans, db2.plans, db.checkTypes, db.labs,
                           db.specialists, db.resultStatuses, eventId, row);
    if a.plan.Some? {
      PlansValidAfterStatus(db.plans, db.instruments, db.checkTypes, db.planStatuses, db.labs, db.specialists,
                            a.plan.value, CodeId(db.planStatuses, LookupCode, "DONE").value);
    }
    LinksValidAfterRegister(db.eventDocuments, db.events, db.documents, eventId, row, a.documentIds);
  }

  /** What an accepted registration had to satisfy: the plan, when given,
      exists, is of the event's instrument and check type and is not yet
      consumed; the document ids are distinct and known; and DONE is seeded
      when a plan is to be marked. */
  lemma AcceptedRegistrationPassedGuards(db: DB, a: Registration, eventId: Id, now: Timestamp, user: string)
    requires LookupsValid(db.instrumentStatuses, db.resultStatuses, db.planStatuses)
    requires RequirementsWellFormed(db.requirements) && eventId !in db.events
    requires Register(db, a, eventId, now, user).Ok?
    ensures EventMatchesPlan(db.plans, a.plan, a.instrument, a.checkType)
    ensures a.plan.Some? ==> forall e :: e in db.events ==> db.events[e].plan != a.plan
    ensures a.documentIds.Some? ==>
      !HasDuplicate(a.documentIds.value) && forall d :: d in a.documentIds.value ==> d in db.documents
    ensures a.plan.Some? ==> CodeId(db.planStatuses, LookupCode, "DONE").Some?
  {
    var result := CodeId(db.resultStatuses, ResultCode, a.resultCode);
    assert result.Some?;
    assert EventInsertError(db, ProposedEvent(a, result.value, now)).None?;
    assert LinkError(db, a.documentIds).None?;
  }

  /** A plan that does not exist, or is of another instrument or check type,
      is refused by trg_event_matches_plan once the due date is computed. */
  lemma MismatchedPlanIsRefused(db: DB, a: Registration, eventId: Id, now: Timestamp, user: string)
    requires LookupsValid(db.instrumentStatuses, db.resultStatuses, db.planStatuses)
    requires RequirementsWellFormed(db.requirements) && eventId !in db.events
    requires CodeId(db.resultStatuses, ResultCode, a.resultCode).Some?
    requires SetNextDue(db.resultStatuses, db.instruments, db.requirements,
                        ProposedEvent(a, CodeId(db.resultStatuses, ResultCode, a.resultCode).value, now)).Ok?
    requires !EventMatchesPlan(db.plans, a.plan, a.instrument, a.checkType)
    ensures a.plan.value !in db.plans ==>
      Register(db, a, eventId, now, user) == Err(InvalidCheckPlan(a.plan.value))
    ensures a.plan.value in db.plans ==> Register(db, a, eventId, now, user) == Err(EventPlanMismatch)
  {
  }

  /** Once the event row itself is acceptable, a repeated document id fails
      on the link table's primary key and an unknown one on its foreign key. */
  lemma BadDocumentsAreRefused(db: DB, a: Registration, eventId: Id, now: Timestamp, user: string)
    requires LookupsValid(db.instrumentStatuses, db.resultStatuses, db.planStatuses)
    requires RequirementsWellFormed(db.requirements) && eventId !in db.events
    requires CodeId(db.resultStatuses, ResultCode, a.resultCode).Some?
    requires EventInsertError(db, ProposedEvent(a, CodeId(db.resultStatuses, ResultCode, a.resultCode).value, now)).None?
    requires a.documentIds.Some?
    ensures HasDuplicate(a.documentIds.value) ==>
      Register(db, a, eventId, now, user) == Err(UniqueViolation("check_event_document_pkey"))
    ensures !HasDuplicate(a.documentIds.value) && (exists d :: d in a.documentIds.value && d !in db.documents) ==>
      Register(db, a, eventId, now, user) == Err(ForeignKeyViolation("fk_ced_document"))
  {
  }

  /** With every insert accepted, marking a plan DONE in a database where
      DONE was never seeded writes NULL into check_plan.status_id. */
  lemma UnseededDoneIsRefused(db: DB, a: Registration, eventId: Id, now: Timestamp, user: string)
    requires LookupsValid(db.instrumentStatuses, db.resultStatuses, db.planStatuses)
    requires RequirementsWellFormed(db.requirements) && eventId !in db.events
    requires CodeId(db.resultStatuses, ResultCode, a.resultCode).Some?
    requires EventInsertError(db, ProposedEvent(a, CodeId(db.resultStatuses, ResultCode, a.resultCode).value, now)).None?
    requires LinkError(db, a.documentIds).None?
    requires a.plan.Some? && CodeId(db.planStatuses, LookupCode, "DONE").None?
    ensures Register(db, a, eventId, now, user) == Err(NotNullViolation("status_id"))
  {
  }

  /** A registration with an unknown result code is refused before anything
      is written. */
  lemma UnknownResultCodeIsRefused(db: DB, a: Registration, eventId: Id, now: Timestamp, user: string)
    requires LookupsValid(db.instrumentStatuses, db.resultStatuses, db.planStatuses)
    requires RequirementsWellFormed(db.requirements) && eventId !in db.events
    requires forall r :: r in db.resultStatuses ==> db.resultStatuses[r].code != a.resultCode
    ensures Register(db, a, eventId, now, user) == Err(UnknownResultCode(a.resultCode))
  {
  }

  /** uq_event_plan makes a plan one-shot: once a registration has consumed
      it, a second registration of the same instrument and check type
      against it fails on the unique constraint. */
  lemma PlanIsConsumedOnce(
    db: DB, a: Registration, b: Registration, eventId: Id, eventId2: Id, now: Timestamp, now2: Timestamp,
    user: string)
    requires Consistent(db) && eventId !in db.events
    requires Register(db, a, eventId, now, user).Ok? && a.plan.Some?
    requires b.plan == a.plan && b.instrument == a.instrument && b.checkType == a.checkType
    requires HasCode(db.resultStatuses, ResultCode, b.resultCode)
    requires eventId2 != eventId && eventId2 !in db.events
    ensures var db2 := Register(db, a, eventId, now, user).value.0;
      Register(db2, b, eventId2, now2, user) == Err(UniqueViolation("uq_event_plan"))
  {
    var db2 := Register(db, a, eventId, now, user).value.0;
    RegisterEffects(db, a, eventId, now, user);
    var resultA := CodeId(db.resultStatuses, ResultCode, a.resultCode).value;
    assert EventInsertError(db, ProposedEvent(a, resultA, now)).None?;
    var resultB := CodeId(db2.resultStatuses, ResultCode, b.resultCode).value;
    var row := ProposedEvent(b, resultB, now2);
    assert db2.events[eventId].plan == row.plan;
    assert EventMatchesPlan(db2.plans, row.plan, row.instrument, row.checkType);
    assert EventInsertError(db2, row) == Some(UniqueViolation("uq_event_plan"));
  }
}
