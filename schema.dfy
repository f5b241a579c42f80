/** The rows of the `metrology` schema that the compliance engine reads or
    writes, the table constraints (CHECK, UNIQUE, partial unique index) that
    the database enforces on them, the code-to-id lookups and the seeded
    lookup vocabulary. */
module Schema {
  import opened Wrappers
  import opened Dates

  /** A row id (`uuid` in the database). */
  type Id = nat
  /** A `timestamptz` value, as the value `now()` returned. */
  type Timestamp = int

  // ----- Lookup tables -----

  /** A row of instrument_status, check_kind, check_plan_status or document_type. */
  datatype Lookup = Lookup(code: string, name: string)

  /** A row of check_result_status: `is_success` decides what counts as a
      compliant check. */
  datatype ResultStatus = ResultStatus(code: string, name: string, isSuccess: bool)

  function LookupCode(l: Lookup): string { l.code }
  function ResultCode(r: ResultStatus): string { r.code }

  // ----- Entity rows (the id is the key of the table's map) -----

  datatype Location = Location(orgUnit: Id, code: string, name: string)

  datatype Requirement = Requirement(
    model: Id, checkType: Id, intervalMonths: int, graceDays: int, isMandatory: bool)

  datatype Instrument = Instrument(
    model: Id,
    inventoryNo: string,
    serialNo: Option<string>,
    rangeMin: Option<real>,
    rangeMax: Option<real>,
    orgUnit: Id,
    location: Id,
    installedAt: Option<Timestamp>,
    status: Id,
    replacedBy: Option<Id>,
    decommissionedAt: Option<Timestamp>,
    decommissionReason: Option<string>)

  datatype CheckPlan = CheckPlan(
    instrument: Id,
    checkType: Id,
    dueDate: Date,
    plannedLab: Option<Id>,
    plannedSpecialist: Option<Id>,
    status: Id,
    createdAt: Timestamp)

  datatype CheckEvent = CheckEvent(
    instrument: Id,
    plan: Option<Id>,
    checkType: Id,
    lab: Id,
    specialist: Option<Id>,
    checkDate: Date,
    result: Id,
    protocolNo: Option<string>,
    nextDueDate: Option<Date>,
    notes: Option<string>,
    createdAt: Timestamp)

  datatype Document = Document(
    documentType: Id, title: string, storageRef: string, sha256: Option<string>, createdAt: Timestamp)

  /** A row of instrument_status_history: `[validFrom, validTo)`, open while
      `validTo` is null. */
  datatype StatusInterval = StatusInterval(
    instrument: Id, status: Id, validFrom: Timestamp, validTo: Option<Timestamp>, reason: Option<string>)

  /** What a failed statement raises; the enclosing transaction is rolled back. */
  datatype Error =
    | InvalidLocation(locationId: Id)
    | LocationOrgUnitMismatch(locationOrgUnit: Id, instrumentOrgUnit: Id)
    | InvalidCheckPlan(planId: Id)
    | EventPlanMismatch
    | InvalidInstrument(instrumentId: Id)
    | UnknownResultCode(code: string)
    | InstrumentStatusNotSeeded
    | PlanStatusNotSeeded
    | InvalidRange
    | UniqueViolation(constraint: string)
    | CheckViolation(constraint: string)
    | ForeignKeyViolation(constraint: string)
    | NotNullViolation(column: string)

  // ----- Code to id resolution (fn_*_status_id and the router's lookups) -----

  /** UNIQUE (code) on a lookup table. */
  predicate CodesUnique<R>(m: map<Id, R>, code: R -> string) {
    forall a, b :: a in m && b in m && code(m[a]) == code(m[b]) ==> a == b
  }

  predicate HasCode<R>(m: map<Id, R>, code: R -> string, c: string) {
    exists id :: id in m && code(m[id]) == c
  }

  /** `SELECT id FROM <table> WHERE code = c`: NULL when no row has the code. */
  function CodeId<R>(m: map<Id, R>, code: R -> string, c: string): (r: Option<Id>)
    requires CodesUnique(m, code)
    ensures r.None? <==> !HasCode(m, code, c)
    ensures r.Some? ==> r.value in m && code(m[r.value]) == c
  {
    if HasCode(m, code, c) then
      var id :| id in m && code(m[id]) == c;
      Some(id)
    else
      None
  }

  /** The id found for a code is the only row carrying that code. */
  lemma CodeIdUnique<R>(m: map<Id, R>, code: R -> string, c: string, id: Id)
    requires CodesUnique(m, code)
    requires id in m && code(m[id]) == c
    ensures CodeId(m, code, c) == Some(id)
  {
  }

  /** `is_success` of a result status id; an id with no row reads as not successful
      (the `IS TRUE` test on a NULL). */
  predicate IsSuccess(results: map<Id, ResultStatus>, result: Id) {
    result in results && results[result].isSuccess
  }

  // ----- Seeded vocabulary (INSERT ... ON CONFLICT (code) DO NOTHING) -----

  const InstrumentStatusSeed: seq<Lookup> := [
    Lookup("ACTIVE", "В эксплуатации"),
    Lookup("IN_REPAIR", "В ремонте"),
    Lookup("DECOMMISSIONED", "Выведен из эксплуатации"),
    Lookup("REPLACED", "Заменён")
  ]

  const ResultStatusSeed: seq<ResultStatus> := [
    ResultStatus("PASSED", "Годен", true),
    ResultStatus("FAILED", "Не годен", false),
    ResultStatus("CANCELED", "Отменено", false)
  ]

  const CheckKindSeed: seq<Lookup> := [
    Lookup("VERIFICATION", "Поверка"),
    Lookup("CALIBRATION", "Калибровка")
  ]

  const PlanStatusSeed: seq<Lookup> := [
    Lookup("PLANNED", "Запланировано"),
    Lookup("DONE", "Выполнено"),
    Lookup("CANCELED", "Отменено")
  ]

  const DocumentTypeSeed: seq<Lookup> := [
    Lookup("PROTOCOL", "Протокол"),
    Lookup("CERTIFICATE", "Свидетельство"),
    Lookup("OTHER", "Прочее")
  ]

  /** Of the seeded result statuses only PASSED is a success. */
  lemma SeededSuccessFlags()
    ensures forall i :: 0 <= i < |ResultStatusSeed| ==>
      (ResultStatusSeed[i].isSuccess <==> ResultStatusSeed[i].code == "PASSED")
  {
  }

  predicate FreshIds<R>(m: map<Id, R>, ids: seq<Id>) {
    (forall i :: 0 <= i < |ids| ==> ids[i] !in m)
    && (forall i, j :: 0 <= i < j < |ids| ==> ids[i] != ids[j])
  }

  /** One multi-row seed INSERT with ON CONFLICT (code) DO NOTHING: a row
      whose code is already present, in the table or earlier in the same
      statement, is skipped. `ids` are the ids the rows would receive. */
  function SeedTable<R>(m: map<Id, R>, code: R -> string, rows: seq<R>, ids: seq<Id>): (r: map<Id, R>)
    requires |ids| == |rows| && FreshIds(m, ids)
    ensures forall k :: k in m ==> k in r && r[k] == m[k]
    ensures forall i :: 0 <= i < |rows| ==> HasCode(r, code, code(rows[i]))
    ensures forall k :: k in r && k !in m ==> k in ids
    ensures forall k :: k in r && k !in m ==> exists i :: 0 <= i < |rows| && ids[i] == k && r[k] == rows[i]
    ensures CodesUnique(m, code) ==> CodesUnique(r, code)
    decreases |rows|
  {
    if rows == [] then m
    else
      var m' := if HasCode(m, code, code(rows[0])) then m else m[ids[0] := rows[0]];
      assert FreshIds(m', ids[1..]) by {
        forall i | 0 <= i < |ids[1..]| ensures ids[1..][i] !in m' {
          assert ids[1..][i] == ids[i + 1];
        }
      }
      var r := SeedTable(m', code, rows[1..], ids[1..]);
      assert forall i :: 1 <= i < |rows| ==> rows[i] == rows[1..][i - 1];
      assert HasCode(m', code, code(rows[0])) by {
        if !HasCode(m, code, code(rows[0])) {
          assert ids[0] in m' && code(m'[ids[0]]) == code(rows[0]);
        }
      }
      assert HasCode(r, code, code(rows[0])) by {
        var id :| id in m' && code(m'[id]) == code(rows[0]);
        assert id in r && r[id] == m'[id];
      }
      forall k | k in r && k !in m
        ensures exists i :: 0 <= i < |rows| && ids[i] == k && r[k] == rows[i]
      {
        if k in m' {
          assert ids[0] == k && r[k] == rows[0];
        } else {
          var j :| 0 <= j < |rows[1..]| && ids[1..][j] == k && r[k] == rows[1..][j];
          assert ids[j + 1] == k && r[k] == rows[j + 1];
        }
      }
      r
  }

  /** Re-running a seed whose codes are all present inserts nothing. */
  lemma {:induction false} SeedTableNoop<R>(m: map<Id, R>, code: R -> string, rows: seq<R>, ids: seq<Id>)
    requires |ids| == |rows| && FreshIds(m, ids)
    requires forall i :: 0 <= i < |rows| ==> HasCode(m, code, code(rows[i]))
    ensures SeedTable(m, code, rows, ids) == m
    decreases |rows|
  {
    if rows != [] {
      assert FreshIds(m, ids[1..]) by {
        forall i | 0 <= i < |ids[1..]| ensures ids[1..][i] !in m {
          assert ids[1..][i] == ids[i + 1];
        }
      }
      forall i | 0 <= i < |rows[1..]| ensures HasCode(m, code, code(rows[1..][i])) {
        assert rows[1..][i] == rows[i + 1];
      }
      SeedTableNoop(m, code, rows[1..], ids[1..]);
    }
  }

  /** Running the seed twice leaves the table as one run left it: one row per
      seeded code, whatever ids the second run would have used. */
  lemma SeedTableIdempotent<R>(m: map<Id, R>, code: R -> string, rows: seq<R>, ids1: seq<Id>, ids2: seq<Id>)
    requires |ids1| == |rows| && FreshIds(m, ids1)
    requires |ids2| == |rows| && FreshIds(SeedTable(m, code, rows, ids1), ids2)
    ensures SeedTable(SeedTable(m, code, rows, ids1), code, rows, ids2) == SeedTable(m, code, rows, ids1)
  {
    SeedTableNoop(SeedTable(m, code, rows, ids1), code, rows, ids2);
  }

  /** After seeding a table whose codes are unique, each seeded code names
      exactly one row. */
  lemma SeededCodeResolves<R>(m: map<Id, R>, code: R -> string, rows: seq<R>, ids: seq<Id>, i: nat)
    requires |ids| == |rows| && FreshIds(m, ids) && CodesUnique(m, code)
    requires i < |rows|
    ensures CodesUnique(SeedTable(m, code, rows, ids), code)
    ensures CodeId(SeedTable(m, code, rows, ids), code, code(rows[i])).Some?
  {
  }

  // ----- Table constraints (migration 0001 and the uq_check_plan constraint of 0004) -----

  /** uq_location_org_unit_code: a location code is unique within its org unit. */
  predicate LocationCodesUnique(locations: map<Id, Location>) {
    forall a, b ::
      (a in locations && b in locations
       && locations[a].orgUnit == locations[b].orgUnit && locations[a].code == locations[b].code)
      ==> a == b
  }

  /** uq_req, ck_interval_months and ck_grace_days. */
  predicate RequirementsWellFormed(reqs: map<Id, Requirement>) {
    (forall a, b ::
      (a in reqs && b in reqs
       && reqs[a].model == reqs[b].model && reqs[a].checkType == reqs[b].checkType)
      ==> a == b)
    && (forall a :: a in reqs ==> reqs[a].intervalMonths > 0 && reqs[a].graceDays >= 0)
  }

  /** ck_range_order. */
  predicate RangeOrdered(i: Instrument) {
    i.rangeMin.None? || i.rangeMax.None? || i.rangeMin.value <= i.rangeMax.value
  }

  /** uq_instrument_inventory. */
  predicate InventoryUnique(instruments: map<Id, Instrument>) {
    forall a, b ::
      (a in instruments && b in instruments
       && instruments[a].inventoryNo == instruments[b].inventoryNo)
      ==> a == b
  }

  /** The (instrument, check type, due date) triple of a plan. */
  function PlanKey(p: CheckPlan): (Id, Id, Date) {
    (p.instrument, p.checkType, p.dueDate)
  }

  /** uq_check_plan. */
  predicate PlanKeysUnique(plans: map<Id, CheckPlan>) {
    forall a, b :: a in plans && b in plans && PlanKey(plans[a]) == PlanKey(plans[b]) ==> a == b
  }

  /** uq_event_plan: at most one event consumes a plan (NULLs are distinct). */
  predicate EventPlansUnique(events: map<Id, CheckEvent>) {
    forall a, b ::
      (a in events && b in events && events[a].plan.Some? && events[a].plan == events[b].plan)
      ==> a == b
  }

  /** ck_next_due. */
  predicate NextDueNotBeforeCheck(e: CheckEvent) {
    e.nextDueDate.None? || NotAfter(e.checkDate, e.nextDueDate.value)
  }

  /** ck_ish_period. */
  predicate PeriodOrdered(h: StatusInterval) {
    h.validTo.None? || h.validFrom <= h.validTo.value
  }

  /** uq_ish_one_open: at most one open interval per instrument. */
  predicate OneOpenInterval(history: map<Id, StatusInterval>) {
    forall a, b ::
      (a in history && b in history
       && history[a].validTo.None? && history[b].validTo.None?
       && history[a].instrument == history[b].instrument)
      ==> a == b
  }
}
