/** The audit recorder (`trg_audit_row`): one audit_log entry per row
    INSERT, UPDATE or DELETE on the five audited tables, carrying the
    before image (UPDATE, DELETE) and the after image (INSERT, UPDATE). */
module Audit {
  import opened Wrappers
  import opened Schema

  /** The tables the engine writes. */
  datatype Table =
    | InstrumentTable
    | CheckPlanTable
    | CheckEventTable
    | CheckRequirementTable
    | DocumentTable
    | CheckEventDocumentTable
    | StatusHistoryTable

  function TableName(t: Table): string {
    match t
    case InstrumentTable => "instrument"
    case CheckPlanTable => "check_plan"
    case CheckEventTable => "check_event"
    case CheckRequirementTable => "check_requirement"
    case DocumentTable => "document"
    case CheckEventDocumentTable => "check_event_document"
    case StatusHistoryTable => "instrument_status_history"
  }

  /** The tables carrying a trg_audit_* trigger. */
  predicate Audited(t: Table) {
    !t.CheckEventDocumentTable? && !t.StatusHistoryTable?
  }

  /** A row image (`to_jsonb(OLD)` / `to_jsonb(NEW)`), with its id. */
  datatype Row =
    | InstrumentRow(id: Id, instrument: Instrument)
    | PlanRow(id: Id, plan: CheckPlan)
    | EventRow(id: Id, event: CheckEvent)
    | RequirementRow(id: Id, requirement: Requirement)
    | DocumentRow(id: Id, document: Document)
    | EventDocumentRow(eventId: Id, documentId: Id)
    | IntervalRow(id: Id, interval: StatusInterval)

  function TableOf(r: Row): Table {
    match r
    case InstrumentRow(_, _) => InstrumentTable
    case PlanRow(_, _) => CheckPlanTable
    case EventRow(_, _) => CheckEventTable
    case RequirementRow(_, _) => CheckRequirementTable
    case DocumentRow(_, _) => DocumentTable
    case EventDocumentRow(_, _) => CheckEventDocumentTable
    case IntervalRow(_, _) => StatusHistoryTable
  }

  /** One row-level write: what the trigger sees as TG_OP, OLD and NEW. */
  datatype Change =
    | Inserted(after: Row)
    | Updated(before: Row, after: Row)
    | Deleted(before: Row)

  function ChangeTable(c: Change): Table {
    match c
    case Inserted(r) => TableOf(r)
    case Updated(r, _) => TableOf(r)
    case Deleted(r) => TableOf(r)
  }

  /** An UPDATE keeps the row in its table and keeps its id. */
  predicate WellFormed(c: Change) {
    c.Updated? ==>
      (TableOf(c.before) == TableOf(c.after)
       && (c.before.EventDocumentRow? || c.before.id == c.after.id))
  }

  /** TG_OP. */
  datatype Action = Insert | Update | Delete

  function ActionText(a: Action): string {
    match a
    case Insert => "INSERT"
    case Update => "UPDATE"
    case Delete => "DELETE"
  }

  datatype AuditEntry = AuditEntry(
    at: Timestamp,
    dbUser: string,
    action: Action,
    tableName: string,
    rowId: Id,
    oldRow: Option<Row>,
    newRow: Option<Row>)

  /** The audit_log row `trg_audit_row` inserts for an audited change;
      `at` is now() and `user` is current_user. */
  function EntryFor(c: Change, at: Timestamp, user: string): (e: AuditEntry)
    requires WellFormed(c) && Audited(ChangeTable(c))
    ensures e.tableName == "metrology." + TableName(ChangeTable(c))
    ensures e.rowId == if c.Deleted? then c.before.id else c.after.id
    ensures e.oldRow.Some? <==> e.action == Update || e.action == Delete
    ensures e.newRow.Some? <==> e.action == Insert || e.action == Update
    ensures e.at == at && e.dbUser == user
  {
    var table := "metrology." + TableName(ChangeTable(c));
    match c
    case Inserted(r) => AuditEntry(at, user, Insert, table, r.id, None, Some(r))
    case Updated(r0, r1) => AuditEntry(at, user, Update, table, r1.id, Some(r0), Some(r1))
    case Deleted(r) => AuditEntry(at, user, Delete, table, r.id, Some(r), None)
  }

  /** What the audit log appends for one row write: one entry on an
      audited table, none on any other. */
  function EntriesFor(c: Change, at: Timestamp, user: string): (es: seq<AuditEntry>)
    requires WellFormed(c)
    ensures |es| == if Audited(ChangeTable(c)) then 1 else 0
  {
    if Audited(ChangeTable(c)) then [EntryFor(c, at, user)] else []
  }

  /** Reads an audit entry back as the change it records. */
  function ChangeOf(e: AuditEntry): Option<Change> {
    match e.action
    case Insert => if e.newRow.Some? && e.oldRow.None? then Some(Inserted(e.newRow.value)) else None
    case Update =>
      if e.oldRow.Some? && e.newRow.Some? then Some(Updated(e.oldRow.value, e.newRow.value)) else None
    case Delete => if e.oldRow.Some? && e.newRow.None? then Some(Deleted(e.oldRow.value)) else None
  }

  /** An audit entry loses nothing: the row images give back exactly the
      change that was made, and the entry's row id and table name are those
      of the changed row. */
  lemma EntryRoundTrip(c: Change, at: Timestamp, user: string)
    requires WellFormed(c) && Audited(ChangeTable(c))
    ensures ChangeOf(EntryFor(c, at, user)) == Some(c)
    ensures var e := EntryFor(c, at, user);
      e.tableName == "metrology." + TableName(ChangeTable(ChangeOf(e).value))
  {
  }

  /** Two audited changes with the same audit entry are the same change. */
  lemma EntryForInjective(c1: Change, c2: Change, at: Timestamp, user: string)
    requires WellFormed(c1) && Audited(ChangeTable(c1))
    requires WellFormed(c2) && Audited(ChangeTable(c2))
    requires EntryFor(c1, at, user) == EntryFor(c2, at, user)
    ensures c1 == c2
  {
    EntryRoundTrip(c1, at, user);
    EntryRoundTrip(c2, at, user);
  }
}
