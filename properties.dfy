/** What the compliance operations guarantee: each keeps every constraint
    of the database, changes only what the source says it changes, and the
    history, audit and plan rules hold across calls. */
module Properties {
  import opened Wrappers
  import opened Dates
  import opened Schema
  import opened Audit
  import opened Guards
  import opened DueDate
  import opened Projections
  import opened Database

  // ----- Constraints kept when a referenced table grows or a row changes -----

  lemma PlansValidWhenInstrumentsGrow(
    plans: map<Id, CheckPlan>, instruments: map<Id, Instrument>, instruments2: map<Id, Instrument>,
    checkTypes: set<Id>, statuses: map<Id, Lookup>, labs: set<Id>, specialists: set<Id>)
    requires PlansValid(plans, instruments, checkTypes, statuses, labs, specialists)
    requires instruments.Keys <= instruments2.Keys
    ensures PlansValid(plans, instruments2, checkTypes, statuses, labs, specialists)
  {
  }

  lemma EventsValidWhenReferencesGrow(
    events: map<Id, CheckEvent>, instruments: map<Id, Instrument>, instruments2: map<Id, Instrument>,
    plans: map<Id, CheckPlan>, plans2: map<Id, CheckPlan>,
    checkTypes: set<Id>, labs: set<Id>, specialists: set<Id>, results: map<Id, ResultStatus>)
    requires EventsValid(events, instruments, plans, checkTypes, labs, specialists, results)
    requires instruments.Keys <= instruments2.Keys && plans.Keys <= plans2.Keys
    ensures EventsValid(events, instruments2, plans2, checkTypes, labs, specialists, results)
  {
  }

  /** The row checks of a write (InstrumentRowError is None) keep the
      instrument table valid. */
  lemma InstrumentsValidAfterWrite(
    instruments: map<Id, Instrument>, models: set<Id>, orgUnits: set<Id>,
    locations: map<Id, Location>, statuses: map<Id, Lookup>, id: Id, row: Instrument)
    requires InstrumentsValid(instruments, models, orgUnits, locations, statuses)
    requires RangeOrdered(row)
    requires forall j :: j in instruments && j != id ==> instruments[j].inventoryNo != row.inventoryNo
    requires InstrumentRefsValid(row, id, instruments.Keys, models, orgUnits, locations.Keys, statuses.Keys)
    ensures InstrumentsValid(instruments[id := row], models, orgUnits, locations, statuses)
  {
    var m := instruments[id := row];
    forall i | i in m
      ensures RangeOrdered(m[i]) && InstrumentRefsValid(m[i], i, m.Keys, models, orgUnits, locations.Keys, statuses.Keys)
    {
      if i != id {
        assert m[i] == instruments[i];
      }
    }
  }

  // ----- Instrument INSERT -----

  /** Opening the `'initial'` interval of a new instrument keeps one open
      interval per instrument, carrying its status. */
  lemma HistoryValidAfterInsert(
    history: map<Id, StatusInterval>, instruments: map<Id, Instrument>, statuses: map<Id, Lookup>,
    id: Id, row: Instrument, histId: Id, now: Timestamp)
    requires HistoryValid(history, instruments, statuses)
    requires id !in instruments && histId !in history && row.status in statuses
    ensures HistoryValid(history[histId := StatusInterval(id, row.status, now, None, Some("initial"))],
                         instruments[id := row], statuses)
  {
    var h := history[histId := StatusInterval(id, row.status, now, None, Some("initial"))];
    var m := instruments[id := row];
    forall i | i in m ensures HasOpenInterval(h, i) {
      if i == id {
        assert h[histId].instrument == i;
      } else {
        var k :| k in history && history[k].instrument == i && history[k].validTo.None?;
        assert h[k] == history[k];
      }
    }
  }

  /** An inserted instrument passes every constraint, and the status
      history stays one open interval per instrument, carrying its status. */
  lemma InsertInstrumentKeepsConsistency(db: DB, id: Id, row: Instrument, histId: Id, now: Timestamp, user: string)
    requires Consistent(db)
    requires id !in db.instruments && histId !in db.history
    requires InsertInstrument(db, id, row, histId, now, user).Ok?
    ensures Consistent(InsertInstrument(db, id, row, histId, now, user).value)
  {
    var db2 := InsertInstrument(db, id, row, histId, now, user).value;
    var interval := StatusInterval(id, row.status, now, None, Some("initial"));
    assert db2 == db.(instruments := db.instruments[id := row], history := db.history[histId := interval],
                      auditLog := db2.auditLog);
    InstrumentsValidAfterWrite(db.instruments, db.models, db.orgUnits, db.locations, db.instrumentStatuses, id, row);
    PlansValidWhenInstrumentsGrow(db.plans, db.instruments, db2.instruments, db.checkTypes, db.planStatuses,
                                  db.labs, db.specialists);
    EventsValidWhenReferencesGrow(db.events, db.instruments, db2.instruments, db.plans, db.plans, db.checkTypes,
                                  db.labs, db.specialists, db.resultStatuses);
    HistoryValidAfterInsert(db.history, db.instruments, db.instrumentStatuses, id, row, histId, now);
  }

  /** Inserting an instrument writes the row, appends one audit entry that
      records exactly that insert, and opens one `'initial'` interval with
      the instrument's status; the location agrees with the org unit. */
  lemma InsertInstrumentEffects(db: DB, id: Id, row: Instrument, histId: Id, now: Timestamp, user: string)
    requires id !in db.instruments && histId !in db.history
    requires InsertInstrument(db, id, row, histId, now, user).Ok?
    ensures var db2 := InsertInstrument(db, id, row, histId, now, user).value;
      && db2.instruments == db.instruments[id := row]
      && db2.history == db.history[histId := StatusInterval(id, row.status, now, None, Some("initial"))]
      && |db2.auditLog| == |db.auditLog| + 1
      && db2.auditLog[..|db.auditLog|] == db.auditLog
      && ChangeOf(db2.auditLog[|db.auditLog|]) == Some(Inserted(InstrumentRow(id, row)))
      && db2.auditLog[|db.auditLog|].rowId == id
      && db2.auditLog[|db.auditLog|].tableName == "metrology.instrument"
      && LocationAgrees(db2.locations, row.orgUnit, row.location)
  {
    EntryRoundTrip(Inserted(InstrumentRow(id, row)), now, user);
  }

  // ----- Instrument UPDATE -----

  /** `UPDATE instrument SET status_id = status`. */
  function StatusPatch(status: Id): InstrumentPatch {
    InstrumentPatch(None, None, None, None, None, None, None, None, Some(status), None, None, None)
  }

  /** Closing the open interval and opening one for the new status keeps one
      open interval per instrument, carrying its status. */
  lemma HistoryValidAfterStatusChange(
    history: map<Id, StatusInterval>, instruments: map<Id, Instrument>, statuses: map<Id, Lookup>,
    id: Id, after: Instrument, histId: Id, now: Timestamp, reason: string)
    requires HistoryValid(history, instruments, statuses)
    requires id in instruments && histId !in history && after.status in statuses
    requires !ClosingViolatesPeriod(history, id, now)
    ensures HistoryValid(
      CloseOpenIntervals(history, id, now)[histId := StatusInterval(id, after.status, now, None, Some(reason))],
      instruments[id := after], statuses)
  {
    var h := CloseOpenIntervals(history, id, now)[histId := StatusInterval(id, after.status, now, None, Some(reason))];
    IntervalsValidAfterStatusChange(history, instruments, statuses, id, after, histId, now, reason);
    OpenIntervalsAfterStatusChange(history, instruments, statuses, id, after, histId, now, reason);
  }

  /** After the status change every instrument still has its one open
      interval, carrying its status. */
  lemma OpenIntervalsAfterStatusChange(
    history: map<Id, StatusInterval>, instruments: map<Id, Instrument>, statuses: map<Id, Lookup>,
    id: Id, after: Instrument, histId: Id, now: Timestamp, reason: string)
    requires HistoryValid(history, instruments, statuses)
    requires id in instruments && histId !in history
    ensures var h := CloseOpenIntervals(history, id, now)[histId := StatusInterval(id, after.status, now, None, Some(reason))];
      && OneOpenInterval(h)
      && (forall k :: k in h && h[k].validTo.None? && h[k].instrument in instruments[id := after] ==>
            h[k].status == instruments[id := after][h[k].instrument].status)
      && (forall i :: i in instruments[id := after] ==> HasOpenInterval(h, i))
  {
    var h := CloseOpenIntervals(history, id, now)[histId := StatusInterval(id, after.status, now, None, Some(reason))];
    forall i | i in instruments[id := after] ensures HasOpenInterval(h, i) {
      if i == id {
        assert h[histId].instrument == i;
      } else {
        var k :| k in history && history[k].instrument == i && history[k].validTo.None?;
        assert h[k] == history[k];
      }
    }
  }

  /** Every interval after the status change has an ordered period and
      refers to an existing instrument and status. */
  lemma IntervalsValidAfterStatusChange(
    history: map<Id, StatusInterval>, instruments: map<Id, Instrument>, statuses: map<Id, Lookup>,
    id: Id, after: Instrument, histId: Id, now: Timestamp, reason: string)
    requires HistoryValid(history, instruments, statuses)
    requires id in instruments && histId !in history && after.status in statuses
    requires !ClosingViolatesPeriod(history, id, now)
    ensures var h := CloseOpenIntervals(history, id, now)[histId := StatusInterval(id, after.status, now, None, Some(reason))];
      forall k :: k in h ==> PeriodOrdered(h[k]) && h[k].instrument in instruments[id := after] && h[k].status in statuses
  {
    var closed := CloseOpenIntervals(history, id, now);
    var h := closed[histId := StatusInterval(id, after.status, now, None, Some(reason))];
    forall k | k in h ensures PeriodOrdered(h[k]) && h[k].instrument in instruments[id := after] && h[k].status in statuses {
      if k != histId && history[k].instrument == id && history[k].validTo.None? {
        assert !(now < history[k].validFrom);
      }
    }
  }

  /** A write that keeps the status leaves every interval valid. */
  lemma HistoryValidWithoutStatusChange(
    history: map<Id, StatusInterval>, instruments: map<Id, Instrument>, statuses: map<Id, Lookup>,
    id: Id, after: Instrument)
    requires HistoryValid(history, instruments, statuses)
    requires id in instruments && after.status == instruments[id].status
    ensures HistoryValid(history, instruments[id := after], statuses)
  {
  }

  /** Any instrument UPDATE the database accepts keeps every constraint. */
  lemma UpdateInstrumentKeepsConsistency(
    db: DB, id: Id, p: InstrumentPatch, histId: Id, now: Timestamp, user: string)
    requires Consistent(db) && histId !in db.history
    requires UpdateInstrument(db, id, p, histId, now, user).Ok?
    ensures Consistent(UpdateInstrument(db, id, p, histId, now, user).value.0)
  {
    if id in db.instruments {
      var db2 := UpdateInstrument(db, id, p, histId, now, user).value.0;
      var before := db.instruments[id];
      var after := ApplyPatch(before, p);
      InstrumentsValidAfterWrite(db.instruments, db.models, db.orgUnits, db.locations, db.instrumentStatuses,
                                 id, after);
      PlansValidWhenInstrumentsGrow(db.plans, db.instruments, db2.instruments, db.checkTypes, db.planStatuses,
                                    db.labs, db.specialists);
      EventsValidWhenReferencesGrow(db.events, db.instruments, db2.instruments, db.plans, db.plans, db.checkTypes,
                                    db.labs, db.specialists, db.resultStatuses);
      UpdateInstrumentHistoryMap(db, id, p, histId, now, user);
      if ChangesStatus(p, before) {
        HistoryValidAfterStatusChange(db.history, db.instruments, db.instrumentStatuses, id, after, histId, now,
                                      StatusChangeReason(after));
      } else {
        HistoryValidWithoutStatusChange(db.history, db.instruments, db.instrumentStatuses, id, after);
      }
    }
  }

  /** The history an accepted instrument UPDATE leaves behind, as a map. */
  lemma UpdateInstrumentHistoryMap(
    db: DB, id: Id, p: InstrumentPatch, histId: Id, now: Timestamp, user: string)
    requires histId !in db.history && id in db.instruments
    requires UpdateInstrument(db, id, p, histId, now, user).Ok?
    ensures var db2 := UpdateInstrument(db, id, p, histId, now, user).value.0;
      var after := ApplyPatch(db.instruments[id], p);
      && db2.instruments[id] == after
      && (!ChangesStatus(p, db.instruments[id]) ==> db2.history == db.history)
      && (ChangesStatus(p, db.instruments[id]) ==>
            db2.history == CloseOpenIntervals(db.history, id, now)
              [histId := StatusInterval(id, after.status, now, None, Some(StatusChangeReason(after)))])
  {
  }

  /** The status-history effect of an instrument UPDATE: untouched unless
      the UPDATE lists a status distinct from the old one; otherwise the
      instrument's open interval is closed at `now` and a single new open
      interval records the new status, with the decommission reason (or
      `'status change'`) as its reason. Every other interval is unchanged. */
  lemma UpdateInstrumentHistory(
    db: DB, id: Id, p: InstrumentPatch, histId: Id, now: Timestamp, user: string)
    requires histId !in db.history && id in db.instruments
    requires UpdateInstrument(db, id, p, histId, now, user).Ok?
    ensures var db2 := UpdateInstrument(db, id, p, histId, now, user).value.0;
      var after := db2.instruments[id];
      && (!ChangesStatus(p, db.instruments[id]) ==> db2.history == db.history)
      && (ChangesStatus(p, db.instruments[id]) ==>
            && db2.history.Keys == db.history.Keys + {histId}
            && db2.history[histId] == StatusInterval(id, after.status, now, None, Some(StatusChangeReason(after)))
            && (forall k :: k in db.history && db.history[k].validTo.None? && db.history[k].instrument == id
                  ==> db2.history[k] == db.history[k].(validTo := Some(now)))
            && (forall k :: k in db.history && (db.history[k].validTo.Some? || db.history[k].instrument != id)
                  ==> db2.history[k] == db.history[k]))
  {
    UpdateInstrumentHistoryMap(db, id, p, histId, now, user);
  }

  /** The audit effect of an instrument UPDATE: the row is rewritten and
      one audit entry records the before and after rows. */
  lemma UpdateInstrumentAudit(
    db: DB, id: Id, p: InstrumentPatch, histId: Id, now: Timestamp, user: string)
    requires histId !in db.history && id in db.instruments
    requires UpdateInstrument(db, id, p, histId, now, user).Ok?
    ensures var db2 := UpdateInstrument(db, id, p, histId, now, user).value.0;
      var after := ApplyPatch(db.instruments[id], p);
      && |db2.auditLog| == |db.auditLog| + 1
      && db2.auditLog[..|db.auditLog|] == db.auditLog
      && ChangeOf(db2.auditLog[|db.auditLog|])
         == Some(Updated(InstrumentRow(id, db.instruments[id]), InstrumentRow(id, after)))
  {
    var after := ApplyPatch(db.instruments[id], p);
    EntryRoundTrip(Updated(InstrumentRow(id, db.instruments[id]), InstrumentRow(id, after)), now, user);
  }

  /** The guard of an instrument UPDATE: only the patched row changes, and
      when the UPDATE lists the org unit or the location, the new location
      belongs to the new org unit. */
  lemma UpdateInstrumentGuard(
    db: DB, id: Id, p: InstrumentPatch, histId: Id, now: Timestamp, user: string)
    requires histId !in db.history && id in db.instruments
    requires UpdateInstrument(db, id, p, histId, now, user).Ok?
    ensures var db2 := UpdateInstrument(db, id, p, histId, now, user).value.0;
      var after := ApplyPatch(db.instruments[id], p);
      && db2.instruments == db.instruments[id := after]
      && (ListsLocation(p) ==> LocationAgrees(db.locations, after.orgUnit, after.location))
  {
    assert UpdateInstrumentError(db, id, p, now).None?;
  }

  /** `decommission_reason` stays on the row, so a later ordinary status
      change records the old decommission reason rather than
      `'status change'`. */
  lemma DecommissionReasonIsReused(
    db: DB, id: Id, status: Id, histId: Id, now: Timestamp, user: string, reason: string)
    requires Consistent(db) && histId !in db.history && id in db.instruments
    requires db.instruments[id].decommissionReason == Some(reason)
    requires status != db.instruments[id].status
    requires UpdateInstrument(db, id, StatusPatch(status), histId, now, user).Ok?
    ensures UpdateInstrument(db, id, StatusPatch(status), histId, now, user).value.0.history[histId].reason
      == Some(reason)
  {
  }

  // ----- fn_decommission_instrument -----

  /** An accepted decommissioning of an existing instrument sets exactly the
      four columns the function lists: the DECOMMISSIONED status (REPLACED
      when a replacement is named), the replacement, `decommissioned_at =
      now()` and the reason; every other column keeps its value. */
  lemma DecommissionEffects(
    db: DB, id: Id, reason: Option<string>, replacedBy: Option<Id>, histId: Id, now: Timestamp, user: string)
    requires LookupsValid(db.instrumentStatuses, db.resultStatuses, db.planStatuses)
    requires histId !in db.history && id in db.instruments
    requires Decommission(db, id, reason, replacedBy, histId, now, user).Ok?
    ensures var db2 := Decommission(db, id, reason, replacedBy, histId, now, user).value;
      var code := CodeId(db.instrumentStatuses, LookupCode, DecommissionCode(replacedBy));
      && code.Some?
      && db.instrumentStatuses[code.value].code == DecommissionCode(replacedBy)
      && db2.instruments == db.instruments[id := db.instruments[id].(
           status := code.value, replacedBy := replacedBy, decommissionedAt := Some(now),
           decommissionReason := reason)]
  {
    var code := CodeId(db.instrumentStatuses, LookupCode, DecommissionCode(replacedBy));
    var patch := DecommissionPatch(code.value, now, reason, replacedBy);
    UpdateInstrumentHistoryMap(db, id, patch, histId, now, user);
  }

  /** When the instrument was not already in the target status, the interval
      opened by the decommissioning records the given reason, or `'status
      change'` when none was given. */
  lemma DecommissionRecordsReason(
    db: DB, id: Id, reason: Option<string>, replacedBy: Option<Id>, histId: Id, now: Timestamp, user: string)
    requires LookupsValid(db.instrumentStatuses, db.resultStatuses, db.planStatuses)
    requires histId !in db.history && id in db.instruments
    requires Decommission(db, id, reason, replacedBy, histId, now, user).Ok?
    requires CodeId(db.instrumentStatuses, LookupCode, DecommissionCode(replacedBy)) != Some(db.instruments[id].status)
    ensures var db2 := Decommission(db, id, reason, replacedBy, histId, now, user).value;
      && histId in db2.history
      && db2.history[histId].instrument == id
      && db2.history[histId].status == db2.instruments[id].status
      && db2.history[histId].validFrom == now && db2.history[histId].validTo.None?
      && db2.history[histId].reason == Some(if reason.Some? then reason.value else "status change")
  {
    var code := CodeId(db.instrumentStatuses, LookupCode, DecommissionCode(replacedBy));
    var patch := DecommissionPatch(code.value, now, reason, replacedBy);
    assert ChangesStatus(patch, db.instruments[id]);
    UpdateInstrumentHistoryMap(db, id, patch, histId, now, user);
  }

  /** Decommissioning an id that names no instrument updates no row and
      succeeds without changing anything. */
  lemma DecommissionUnknownIsNoop(
    db: DB, id: Id, reason: Option<string>, replacedBy: Option<Id>, histId: Id, now: Timestamp, user: string)
    requires LookupsValid(db.instrumentStatuses, db.resultStatuses, db.planStatuses)
    requires histId !in db.history && id !in db.instruments
    ensures var r := Decommission(db, id, reason, replacedBy, histId, now, user);
      r == if CodeId(db.instrumentStatuses, LookupCode, DecommissionCode(replacedBy)).None?
           then Err(InstrumentStatusNotSeeded) else Ok(db)
  {
  }

  /** Decommissioning keeps every constraint. */
  lemma DecommissionKeepsConsistency(
    db: DB, id: Id, reason: Option<string>, replacedBy: Option<Id>, histId: Id, now: Timestamp, user: string)
    requires Consistent(db) && histId !in db.history
    requires Decommission(db, id, reason, replacedBy, histId, now, user).Ok?
    ensures Consistent(Decommission(db, id, reason, replacedBy, histId, now, user).value)
  {
    var code := CodeId(db.instrumentStatuses, LookupCode, DecommissionCode(replacedBy));
    UpdateInstrumentKeepsConsistency(db, id, DecommissionPatch(code.value, now, reason, replacedBy), histId, now, user);
  }
}
