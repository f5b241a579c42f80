# Metrology compliance state engine, in Dafny

This project models the compliance core of a metrology register. The register tracks measuring
instruments, the checks (verification and calibration) they must undergo, the plans for those
checks and the check events recorded against them. The core is written in PostgreSQL, as
tables, constraints, triggers, stored functions and views. A small part of it lives in the
HTTP router, which builds UPDATE statements from client patches.

The model covers these parts:

- **Schema** (`Schema`): the rows and their CHECK/UNIQUE constraints, and the seeded lookup
  vocabulary.
  - The seeds are instrument statuses ACTIVE, IN_REPAIR, DECOMMISSIONED and REPLACED; result
    statuses PASSED, FAILED and CANCELED; plan statuses PLANNED, DONE and CANCELED.
  - The code → id lookups are modelled here.
  - `Database.Consistent` gathers every constraint into one invariant of the whole database.
- **Dates** (`Dates`): civil dates with PostgreSQL's `date + make_interval(months => n)`.
  - The year and month shift, the day is kept and clamped to the last day of the target month,
    and the Gregorian leap-year rule applies.
  - Also a day number for `date - date` and `date + 30`.
- **Audit recorder** (`Audit`): one `audit_log` entry per row written to the five audited tables,
  with the before image and the after image.
- **Consistency guards** (`Guards`):
  - an instrument's location must exist and belong to the instrument's org unit;
  - an event that names a plan must match the plan's instrument and check type.
- **Due-date calculator** (`DueDate`): `fn_compute_next_due_date` and the trigger that sets an
  event's `next_due_date` only for a successful result.
- **Due projections** (`Projections`): the "last success per (instrument, check type)" view,
  the per-instrument next due date, the due-in-30-days and overdue filters, and the candidates
  of plan generation. All are pure functions of the tables and `today`.
- **Transactions** (`Database`): each write is a function from the database to a new database
  or the first error the statement raises. It covers:
  - instrument insert and update, with their triggers (guard, audit, status history);
  - `fn_decommission_instrument`;
  - `fn_register_check_event`;
  - `fn_generate_check_plan`.
- **The store** (`Engine.Store`): a class with one field per table. Each stored program is a
  method.
  - The method first computes the error the statement would raise. If there is one, it returns
    it and writes nothing, because the call is one transaction.
  - Otherwise it writes the rows step by step, trigger effects included.
  - Every stored-program method (`InsertInstrument`, `UpdateInstrument`, `Decommission`,
    `RegisterCheckEvent`, `GeneratePlans`) is proved to end in the state that the `Database`
    function defines, and to keep `Consistent`.
- **Properties** (`Properties`, `RegisterProperties`, `PlanProperties`, `Locations`): lemmas
  about those transactions.
  - Consistency is preserved.
  - Each write has its exact effects: audit entries, history intervals, plan status.
  - A plan is consumed once.
  - Generation is idempotent.
  - Location agreement holds per instrument write.
- **Router helpers** (`Router`), over insertion-ordered dictionaries:
  - `_build_update_sql`, proved to round-trip its SET clause;
  - the `update_lab` SET-item loop;
  - the code → id rewriting that the update endpoints do before an update;
  - the `document_ids` normalisation of the registration endpoint.

Row ids, `now()`, `current_date` and `current_user` are parameters of the operations. Fresh row
ids are preconditions, standing for the uniqueness of `gen_random_uuid()`.

Behaviours of the code that a reader might not expect, each of which the model keeps:

- The section comment of migrations/versions/0002_triggers_audit_status_next_due.py:119 says an
  instrument's org unit must match its location's org unit. The guard fires only on instrument
  writes that list `org_unit_id` or `location_id` (line 145 of that file), and editing a location
  is not checked (app/api/router.py:201-216; see Findings). So `Locations.InstrumentsAtHome` is not part
  of `Database.Consistent`; it is proved preserved by instrument writes only.
- Decommissioning an unknown instrument id updates no row and raises nothing
  (migrations/versions/0004_stored_programs.py:133-138).
- When ACTIVE is not seeded, generation inserts nothing. Only a missing PLANNED raises
  (migrations/versions/0004_stored_programs.py:159-176).
- Registration marks the named plan DONE whatever its status
  (migrations/versions/0004_stored_programs.py:101-105).
- A status change records `COALESCE(decommission_reason, 'status change')`, so a later status
  change reuses an old decommission reason (migrations/versions/0002_triggers_audit_status_next_due.py:100).
- The projection joins the last success date back to every event of the pair on that day,
  successful or not (migrations/versions/0003_views_mviews_indexes.py:63-66).

## Model

| member | source | states |
|---|---|---|
| Dates.DaysInMonth | migrations/versions/0002_triggers_audit_status_next_due.py:213 | a month has 28 to 31 days, and 29 exactly for February of a Gregorian leap year |
| Dates.AddMonths | migrations/versions/0002_triggers_audit_status_next_due.py:213 | the result lies exactly n months on; it keeps the day when that month has it, else it is the month's last day, so it never exceeds the original day |
| Dates.AddMonthsIsLater | migrations/versions/0002_triggers_audit_status_next_due.py:213 | adding a positive number of months gives a strictly later date |
| Dates.AddMonthsZero | migrations/versions/0002_triggers_audit_status_next_due.py:213 | adding zero months is the identity |
| Dates.AddMonthsStrictlyMonotone | migrations/versions/0002_triggers_audit_status_next_due.py:213 | adding more months gives a strictly later date |
| Dates.AddMonthsCompose | migrations/versions/0002_triggers_audit_status_next_due.py:213 | for a day of at most 28 (no clamping), adding n1 and then n2 months is adding n1 + n2 |
| Dates.AddMonthsRoundTrip | migrations/versions/0002_triggers_audit_status_next_due.py:213 | for a day of at most 28, moving n months forward and n back returns the original date |
| Dates.ClampingIsPathDependent | migrations/versions/0002_triggers_audit_status_next_due.py:213 | 31 January plus one month, then plus one month, is 28 March, but plus two months is 31 March |
| Dates.NotAfterTotal | migrations/versions/0003_views_mviews_indexes.py:39 | the date order is total and antisymmetric, and "not after" is the negation of "strictly after" |
| Dates.DayNumberOrder | migrations/versions/0003_views_mviews_indexes.py:56 | one date precedes another exactly when its day number is smaller, so `next_due_date - current_date` has the sign of the comparison |
| Dates.DayNumberInjective | migrations/versions/0003_views_mviews_indexes.py:56 | distinct dates have distinct day numbers |
| Dates.Latest | migrations/versions/0003_views_mviews_indexes.py:39 | `max` of a non-empty set of dates is a member that no member follows |
| Dates.Earliest | migrations/versions/0003_views_mviews_indexes.py:76 | `min` of a non-empty set of dates is a member that no member precedes |
| Schema.CodeId | migrations/versions/0004_stored_programs.py:26-45 | the lookup by code is NULL exactly when no row carries the code, and otherwise names a row with that code |
| Schema.CodeIdUnique | migrations/versions/0004_stored_programs.py:26-45 | with unique codes the lookup returns the one row carrying the code |
| Schema.SeededSuccessFlags | migrations/versions/0001_init_schema_tables.py:296-300 | among the seeded result codes only PASSED is a success |
| Schema.SeedTable | migrations/versions/0001_init_schema_tables.py:288-321 | a seed insert keeps every existing row, leaves each seed code present, adds rows only under the given fresh ids, each new row being the seed row of that id, and keeps codes unique |
| Database.SeededResultSuccess | migrations/versions/0001_init_schema_tables.py:296-301 | in the freshly seeded database a result status is a success exactly when its code is PASSED |
| Schema.SeedTableIdempotent | migrations/versions/0001_init_schema_tables.py:288-321 | running the seed insert a second time changes nothing |
| Schema.SeededCodeResolves | migrations/versions/0001_init_schema_tables.py:288-321 | after seeding, each seed code resolves through the code lookup |
| Audit.EntryFor | migrations/versions/0002_triggers_audit_status_next_due.py:22-49 | the entry's table is "metrology." plus the table; row_id is OLD.id for DELETE and NEW.id otherwise; old_row exists only for UPDATE/DELETE and new_row only for INSERT/UPDATE |
| Audit.EntriesFor | migrations/versions/0002_triggers_audit_status_next_due.py:52-75 | a row write appends one entry on the five audited tables and none on any other |
| Audit.EntryRoundTrip | migrations/versions/0002_triggers_audit_status_next_due.py:35-42 | the entry's row images give back exactly the change that was made |
| Audit.EntryForInjective | migrations/versions/0002_triggers_audit_status_next_due.py:35-42 | two changes recorded by the same entry are the same change |
| Guards.LocationGuard | migrations/versions/0002_triggers_audit_status_next_due.py:120-141 | passes exactly when the location exists and belongs to the org unit; raises the invalid-location error for an unknown location and the mismatch error otherwise |
| Guards.PlanGuard | migrations/versions/0002_triggers_audit_status_next_due.py:149-176 | passes exactly for a NULL plan or a plan with the event's instrument and check type; raises invalid-plan for an unknown plan and the mismatch error otherwise |
| DueDate.FindRequirement | migrations/versions/0002_triggers_audit_status_next_due.py:204-207 | finds a requirement for the (model, check type) pair exactly when one exists |
| DueDate.ComputeNextDueDate | migrations/versions/0002_triggers_audit_status_next_due.py:184-215 | raises exactly for an unknown instrument; NULL exactly when no requirement governs the model and check type; otherwise the check date plus the requirement's interval in months |
| DueDate.NextDueIsLater | migrations/versions/0002_triggers_audit_status_next_due.py:213 | with `interval_months > 0`, a computed due date is strictly after the check date |
| DueDate.NextDueFromRequirement | migrations/versions/0002_triggers_audit_status_next_due.py:204-213 | the due date is the check date plus the interval of the one governing requirement (uq_req) |
| DueDate.SetNextDue | migrations/versions/0002_triggers_audit_status_next_due.py:217-236 | the trigger changes only `next_due_date`; NULL unless the result status is a success; for a success, the computed due date or its error |
| DueDate.SetNextDueSatisfiesCheck | migrations/versions/0001_init_schema_tables.py:235 | every event the trigger lets through satisfies ck_next_due, and only a successful event gets a due date |
| DueDate.YearlyRequirementExample | migrations/versions/0002_triggers_audit_status_next_due.py:217-236 | a PASSED check on 2025-01-31 under a 12-month requirement is next due on 2026-01-31; a FAILED one gets no due date |
| Projections.LastCheckDate | migrations/versions/0003_views_mviews_indexes.py:35-44 | the last check date is the date of a successful event of the pair, and no successful event of the pair is later |
| Projections.CheckNextDue | migrations/versions/0003_views_mviews_indexes.py:34-67 | a row per event on its pair's last success day, for an existing instrument and check type; the row carries that event's due date and `days_to_due` |
| Projections.ViewCoversSuccessfulPairs | migrations/versions/0003_views_mviews_indexes.py:35-66 | a pair appears in the view exactly when it has a successful event |
| Projections.FailedEventOnLastDayJoins | migrations/versions/0003_views_mviews_indexes.py:63-66 | an unsuccessful event on the last success day also joins, carrying its own (NULL) due date |
| Projections.Due30d | migrations/versions/0003_views_mviews_indexes.py:84-89 | exactly the view rows with a due date from today up to, not including, today + 30 |
| Projections.OverdueRows | migrations/versions/0003_views_mviews_indexes.py:92-96 | exactly the view rows with a due date before today |
| Projections.FiltersByDaysToDue | migrations/versions/0003_views_mviews_indexes.py:56-96 | due-in-30 means `0 <= days_to_due < 30`, overdue means `days_to_due < 0`, and no row is both |
| Projections.ProjectionsDisjoint | migrations/versions/0003_views_mviews_indexes.py:84-96 | the due-30d and overdue projections share no row |
| Projections.InstrumentNextDue | migrations/versions/0003_views_mviews_indexes.py:69-80 | an instrument appears exactly when it has a non-NULL due date, and its date is the earliest of them |
| Projections.EarliestHasFewestDays | migrations/versions/0003_views_mviews_indexes.py:76-77 | no due date of the instrument is fewer days away than the earliest one, so `min(days_to_due)` is the days to `min(next_due_date)` |
| Projections.Candidates | migrations/versions/0004_stored_programs.py:166-176 | the triples of view rows with a due date in [from, to] whose instrument is ACTIVE; none when ACTIVE is not seeded |
| Database.SeededIsConsistent | migrations/versions/0001_init_schema_tables.py:288-321 | the empty database with seeded lookups satisfies every constraint |
| Database.EmptyTablesAreConsistent | migrations/versions/0001_init_schema_tables.py:28-285 | tables with valid lookups and no rows satisfy every constraint |
| Database.Logged | migrations/versions/0002_triggers_audit_status_next_due.py:52-75 | a write's audit step only appends to the log: one entry on an audited table, none otherwise |
| Database.CloseOpenIntervals | migrations/versions/0002_triggers_audit_status_next_due.py:94-97 | exactly the instrument's open intervals get `valid_to = now`; nothing else changes and none of its intervals stays open |
| Database.InstrumentRowError | migrations/versions/0001_init_schema_tables.py:140-154 | no error means the guard passes when it fires, the range is ordered, the inventory number is unique and every reference exists; an unknown location is refused by the guard |
| Database.InsertInstrument | migrations/versions/0002_triggers_audit_status_next_due.py:82-146 | the insert fails exactly when the row checks raise, and with that error |
| Database.UpdateInstrument | migrations/versions/0002_triggers_audit_status_next_due.py:93-146 | an unknown id updates no row; otherwise it fails exactly on the row or period error, else one row changes and only the row, history and audit log are written |
| Database.Decommission | migrations/versions/0004_stored_programs.py:123-131 | an unseeded DECOMMISSIONED/REPLACED status raises "not seeded" |
| Database.LinkError | migrations/versions/0004_stored_programs.py:96-99 | the link insert passes exactly when the list is NULL, or has no repeated id and names only known documents |
| Database.RegisterError | migrations/versions/0004_stored_programs.py:67-70 | an unknown result code is the first error, raised before any row is written |
| Database.Register | migrations/versions/0004_stored_programs.py:48-109 | the call fails exactly when some statement raises, with the first error, and otherwise returns the new event's id |
| Database.GenerateError | migrations/versions/0004_stored_programs.py:155-164 | passes exactly for two bounds with from <= to and PLANNED seeded; a NULL bound is an invalid range |
| Database.PlanInsertEntries | migrations/versions/0002_triggers_audit_status_next_due.py:57-60 | one insert audit entry per generated plan, in insertion order |
| Properties.PlansValidWhenInstrumentsGrow | migrations/versions/0001_init_schema_tables.py:195-204 | plan references stay valid when instruments are only added or changed |
| Properties.EventsValidWhenReferencesGrow | migrations/versions/0001_init_schema_tables.py:221-235 | event references stay valid when instruments and plans are only added or changed |
| Properties.InstrumentsValidAfterWrite | migrations/versions/0001_init_schema_tables.py:140-154 | a row passing the row checks keeps every instrument constraint |
| Properties.HistoryValidAfterInsert | migrations/versions/0002_triggers_audit_status_next_due.py:87-90 | the 'initial' interval keeps the history valid: one open interval per instrument, carrying its status |
| Properties.InsertInstrumentKeepsConsistency | migrations/versions/0002_triggers_audit_status_next_due.py:82-146 | an accepted instrument insert keeps every constraint |
| Properties.InsertInstrumentEffects | migrations/versions/0002_triggers_audit_status_next_due.py:87-90 | the insert adds the row, one open 'initial' interval with its status, and one audit entry recording the insert; the location agrees with the org unit |
| Properties.HistoryValidAfterStatusChange | migrations/versions/0002_triggers_audit_status_next_due.py:93-100 | closing the open interval and opening one for the new status keeps the history valid |
| Properties.OpenIntervalsAfterStatusChange | migrations/versions/0002_triggers_audit_status_next_due.py:78-100 | after a status change each instrument has exactly one open interval, carrying its current status |
| Properties.IntervalsValidAfterStatusChange | migrations/versions/0001_init_schema_tables.py:268-272 | after a status change every interval is ordered (ck_ish_period) and references existing rows |
| Properties.HistoryValidWithoutStatusChange | migrations/versions/0002_triggers_audit_status_next_due.py:105-116 | an update that keeps the status leaves a valid history valid |
| Properties.UpdateInstrumentKeepsConsistency | migrations/versions/0002_triggers_audit_status_next_due.py:93-146 | an accepted instrument update keeps every constraint |
| Properties.UpdateInstrumentHistoryMap | migrations/versions/0002_triggers_audit_status_next_due.py:93-105 | without a real status change the history is untouched; with one it is the closed history plus one new interval |
| Properties.UpdateInstrumentHistory | migrations/versions/0002_triggers_audit_status_next_due.py:93-105 | a real status change adds one open interval with reason `COALESCE(decommission_reason, 'status change')`, closes the instrument's open intervals at now and leaves the others |
| Properties.UpdateInstrumentAudit | migrations/versions/0002_triggers_audit_status_next_due.py:52-55 | an update appends exactly one audit entry, recording the before and after rows |
| Properties.UpdateInstrumentGuard | migrations/versions/0002_triggers_audit_status_next_due.py:143-146 | only the updated row changes, and an update listing org unit or location leaves the location agreeing with the org unit |
| Properties.DecommissionReasonIsReused | migrations/versions/0002_triggers_audit_status_next_due.py:100 | a later plain status change records the row's old decommission reason |
| Properties.DecommissionEffects | migrations/versions/0004_stored_programs.py:123-138 | the status is the DECOMMISSIONED or REPLACED row, chosen by whether a replacement is given; `decommissioned_at`, the reason and `replaced_by` are set in the same update |
| Properties.DecommissionRecordsReason | migrations/versions/0004_stored_programs.py:133-138 | decommissioning opens a history interval with the new status, starting now, with the given reason or 'status change' |
| Properties.DecommissionUnknownIsNoop | migrations/versions/0004_stored_programs.py:133-138 | an unknown instrument id changes nothing and raises nothing, unless the status is not seeded |
| Properties.DecommissionKeepsConsistency | migrations/versions/0004_stored_programs.py:112-140 | an accepted decommission keeps every constraint |
| RegisterProperties.EventsValidAfterInsert | migrations/versions/0001_init_schema_tables.py:221-235 | a new event with valid references, an unclaimed plan and an ordered due date keeps the event constraints |
| RegisterProperties.PlansValidAfterStatus | migrations/versions/0001_init_schema_tables.py:203-204 | setting a plan to a known status keeps the plan constraints |
| RegisterProperties.LinksValidAfterRegister | migrations/versions/0001_init_schema_tables.py:250-258 | the new links reference the new event and known documents |
| RegisterProperties.RegisterEffects | migrations/versions/0004_stored_programs.py:72-107 | registration inserts one event with the given fields, the resolved result and the trigger's due date; links one row per document; sets the named plan to DONE whatever its status; changes nothing else |
| RegisterProperties.RegisterKeepsConsistency | migrations/versions/0004_stored_programs.py:48-109 | an accepted registration keeps every constraint |
| RegisterProperties.AcceptedRegistrationPassedGuards | migrations/versions/0004_stored_programs.py:75-105 | an accepted registration names no plan or an unconsumed plan of its own instrument and check type, lists distinct known documents, and found DONE seeded when it names a plan |
| RegisterProperties.MismatchedPlanIsRefused | migrations/versions/0002_triggers_audit_status_next_due.py:157-172 | once the due date is computed, an unknown plan is refused as an invalid plan id and a plan of another instrument or check type as a mismatch |
| RegisterProperties.BadDocumentsAreRefused | migrations/versions/0004_stored_programs.py:96-99 | once the event row is acceptable, a repeated document id fails on the link primary key and an unknown one on the document foreign key |
| RegisterProperties.UnseededDoneIsRefused | migrations/versions/0004_stored_programs.py:101-105 | with every insert accepted, marking a plan when DONE is not seeded fails on the NOT NULL status column |
| RegisterProperties.UnknownResultCodeIsRefused | migrations/versions/0004_stored_programs.py:67-70 | an unknown result code is refused with that error and nothing is written |
| RegisterProperties.PlanIsConsumedOnce | migrations/versions/0001_init_schema_tables.py:234 | a second registration against a consumed plan fails on uq_event_plan |
| PlanProperties.CandidatesReferenceRows | migrations/versions/0004_stored_programs.py:166-176 | every candidate names an existing ACTIVE instrument and check type, with a due date in [from, to] |
| PlanProperties.GeneratedKeepsConsistency | migrations/versions/0004_stored_programs.py:177-185 | the generated plans keep every constraint, uq_check_plan included |
| PlanProperties.CandidatesIgnorePlans | migrations/versions/0004_stored_programs.py:166-176 | the candidates do not depend on the plans or the audit log |
| PlanProperties.EveryCandidateHasOnePlan | migrations/versions/0004_stored_programs.py:177-185 | after generation every candidate triple has exactly one plan |
| PlanProperties.NoNewCandidateInsertsNothing | migrations/versions/0004_stored_programs.py:183-188 | when every candidate already has a plan, generation inserts nothing and changes nothing |
| PlanProperties.GenerateTwiceFindsNothingNew | migrations/versions/0004_stored_programs.py:177-188 | an immediate rerun over the same range finds no new triple, so it returns 0 |
| PlanProperties.PlanKeysAfterInsert | migrations/versions/0004_stored_programs.py:22-23 | inserting a plan adds exactly its triple to the existing triples |
| PlanProperties.PlanKeysUniqueAfterInsert | migrations/versions/0004_stored_programs.py:22-23 | inserting a plan with a new triple keeps triples unique |
| PlanProperties.PlanInsertEntriesExtend | migrations/versions/0002_triggers_audit_status_next_due.py:57-60 | one more inserted plan appends its audit entry at the end |
| PlanProperties.InsertProgressStart | migrations/versions/0004_stored_programs.py:177-185 | before any candidate is offered, nothing is inserted and every candidate is still to do |
| PlanProperties.InsertedPlansExtend | migrations/versions/0004_stored_programs.py:177-185 | inserting a PLANNED plan for a new triple under a fresh id keeps the inserted-plans record |
| PlanProperties.OfferedExtend | migrations/versions/0004_stored_programs.py:177-186 | offering a triple with no plan adds it to the inserted set, which stays smaller than the candidates |
| PlanProperties.PlanKeysInsert | migrations/versions/0004_stored_programs.py:177-185 | the offered triple joins the existing triples and they stay unique |
| PlanProperties.OfferedKeysInsert | migrations/versions/0004_stored_programs.py:177-186 | an inserted candidate is counted once and leaves the to-do set |
| PlanProperties.OfferedKeysSkip | migrations/versions/0004_stored_programs.py:183 | a candidate whose triple exists is skipped (ON CONFLICT DO NOTHING) and not counted |
| PlanProperties.InsertLogExtend | migrations/versions/0002_triggers_audit_status_next_due.py:57-60 | the audit log grows by the inserted plan's entry |
| PlanProperties.InsertProgressDone | migrations/versions/0004_stored_programs.py:177-188 | once every candidate is offered, the result is a generated state whose count is the number of new triples |
| Locations.InsertInstrumentKeepsAtHome | migrations/versions/0002_triggers_audit_status_next_due.py:143-146 | an accepted instrument insert keeps every instrument's location in its org unit |
| Locations.UpdateInstrumentKeepsAtHome | migrations/versions/0002_triggers_audit_status_next_due.py:143-146 | an accepted instrument update keeps every instrument's location in its org unit |
| Locations.LocationRowError | migrations/versions/0001_init_schema_tables.py:69-77 | a location row passes exactly when its code is unique within its org unit and the org unit exists |
| Locations.NullColumn | migrations/versions/0001_init_schema_tables.py:70-73 | names the first of org_unit_id, code and name, in table order, that the patch sets to an explicit null, and none exactly when no listed field is null |
| Locations.UpdateLocation | app/api/router.py:201-216 | an unknown id updates no row; an explicit null in a listed field fails on that NOT NULL column first; otherwise the edit fails exactly on the constraint checks, else it changes only that location |
| Locations.LocationEditStrandsInstrument | app/api/router.py:201-216 | moving a location to another org unit is accepted while an instrument stands there, and breaks location agreement |
| Locations.UpdateLocationChecked | app/api/router.py:201-216 | the corrected edit refuses a null field as the edit as written does, and also refuses to move a location away from the org unit of an instrument standing there |
| Locations.UpdateLocationCheckedKeepsAtHome | app/api/router.py:201-216 | the corrected edit keeps every instrument's location in its org unit, and keeps location codes valid |
| Engine.Store.RecordAudit | migrations/versions/0002_triggers_audit_status_next_due.py:22-75 | the store's audit step ends in the state the audit step of the transaction defines |
| Engine.Store.InsertInstrument | migrations/versions/0002_triggers_audit_status_next_due.py:82-146 | returns the insert's error and writes nothing, or ends in the state of the insert transaction; keeps the store valid |
| Engine.Store.WriteNewInstrument | migrations/versions/0002_triggers_audit_status_next_due.py:52-55 | writes the row and its insert audit entry |
| Engine.Store.UpdateInstrument | migrations/versions/0002_triggers_audit_status_next_due.py:93-146 | returns the update's error with the store unchanged, or the row count and the state of the update transaction; keeps the store valid |
| Engine.Store.WriteInstrument | migrations/versions/0002_triggers_audit_status_next_due.py:52-55 | writes the row and its update audit entry |
| Engine.Store.RecordStatusChange | migrations/versions/0002_triggers_audit_status_next_due.py:93-100 | closes the open intervals at now and opens the new interval with the COALESCE reason |
| Engine.Store.Decommission | migrations/versions/0004_stored_programs.py:112-140 | returns the decommission error with the store unchanged, or ends in the decommissioned state; keeps the store valid |
| Engine.Store.LinkDocuments | migrations/versions/0004_stored_programs.py:96-99 | the loop adds one (event, document) link per listed document |
| Engine.Store.InsertEvent | migrations/versions/0004_stored_programs.py:72-94 | writes the event and its insert audit entry |
| Engine.Store.MarkPlanDone | migrations/versions/0004_stored_programs.py:101-105 | sets the plan to DONE and records the update in the audit log |
| Engine.Store.RegisterCheckEvent | migrations/versions/0004_stored_programs.py:48-109 | returns the first error with the store unchanged, or the new event id and the registered state; keeps the store valid |
| Engine.Store.WriteRegistration | migrations/versions/0004_stored_programs.py:72-105 | the event insert, links and plan update, in order, reach the registered state |
| Engine.Store.InsertPlan | migrations/versions/0004_stored_programs.py:177-185 | writes a plan and its insert audit entry |
| Engine.Store.OfferCandidate | migrations/versions/0004_stored_programs.py:177-186 | one candidate: inserted under the next id and counted when its triple is new, skipped otherwise |
| Engine.Store.InsertCandidates | migrations/versions/0004_stored_programs.py:177-188 | the loop leaves a generated state and returns the number of new triples |
| Engine.Store.GeneratePlans | migrations/versions/0004_stored_programs.py:143-190 | returns the range/seeding error with the store unchanged, or the count of new triples with one PLANNED plan per candidate; keeps the store valid |
| Router.Keys | app/api/router.py:82 | one key per dictionary entry, in insertion order |
| Router.Get | app/api/router.py:83 | a lookup finds a value exactly for a present key |
| Router.Put | app/api/router.py:633 | key assignment sets the key and leaves other keys alone; a new key goes last |
| Router.Pop | app/api/router.py:632 | `pop` removes the key, leaves the other keys and their values alone, and keeps the remaining keys in their order |
| Router.Filter | app/api/router.py:78 | the patch keeps exactly the allowed keys, with their values, in request order; it is empty exactly when no key is allowed |
| Router.IdentLength | app/api/router.py:82 | the longest run of identifier characters at the start of a string |
| Router.IdentLengthOf | app/api/router.py:82 | a column name followed by a non-identifier character is read back whole |
| Router.AssignmentSlices | app/api/router.py:82 | `col = :col` followed by a separator splits back into the column, the marker and the rest |
| Router.ParseFirstItem | app/api/router.py:82 | reading an assignment followed by a separator yields its column, then the rest |
| Router.SetClauseCons | app/api/router.py:82 | a SET clause of several columns is the first assignment, ", " and the rest |
| Router.ParseCons | app/api/router.py:82 | reading back the rest of a clause extends to the whole clause |
| Router.SetClauseRoundTrip | app/api/router.py:82 | the SET clause reads back as exactly the patch's columns, in order |
| Router.BuildUpdateSql | app/api/router.py:69-85 | 400 "No fields to update" exactly when no key is allowed; the id binding wins in the params, and every other key keeps its value exactly when allowed |
| Router.BuildUpdateSqlSetsAllowedFields | app/api/router.py:82-84 | the statement is UPDATE table SET clause WHERE id = :id RETURNING cols, and its SET clause names exactly the allowed keys of the data, in request order |
| Router.UpdateLabSql | app/api/router.py:273-299 | 400 exactly when no lab column is given; otherwise the SET items of the patch keys, and the patch plus the id binding |
| Router.LabSetItems | app/api/router.py:281-287 | the loop emits one SET item per key, in order |
| Router.LabClauseWithoutContacts | app/api/router.py:281-287 | without `contacts` the lab clause is the generic SET clause |
| Router.LabClauseCastsContacts | app/api/router.py:283-286 | `contacts` alone gets the `::jsonb` cast; every other key gets the generic item |
| Router.RewriteCode | app/api/router.py:624-633 | without the code key the data is unchanged; an unknown code gives 400; otherwise the code key is removed and the id key carries the resolved id, in its old place or appended last, the other keys keeping their values and order |
| Router.ResolvedIdReachesUpdate | app/api/router.py:633-656 | a resolved id in an allowed column reaches the UPDATE's params |
| Router.NormalizeDocumentIds | app/api/router.py:783-801 | an absent or empty list becomes NULL; otherwise the list is passed on |
| Router.NormalizedRegistrationIsTheSame | app/api/router.py:783-801 | passing NULL for an empty list registers exactly as passing the list itself |

## Left out

- I/O, connection setup, the HTTP layer and its exception mapping are not part of this model:
  `app/db.py`, `app/main.py`, `app/errors.py` and `migrations/env.py`.
- The pydantic declarations of `app/schemas.py` have no behaviour; their field bounds are not
  modelled.
- The list, get, create and delete endpoints and the reporting queries pass SQL through
  unchanged, so they are not modelled.
- The 404 an update endpoint returns when no row matches is not modelled. The model returns a
  row count of 0 instead.
- `update_lab` lays out its statement over several lines. The model keeps only its SET clause
  and parameters, because the whitespace carries no meaning.
- The three other code → id rewrites (documents at app/api/router.py:742-752, check types at
  896-905, check plans at 1091-1100) have the shape of the instrument one. `Router.RewriteCode`
  stands for all of them.
- `REFRESH MATERIALIZED VIEW` and its unique indexes are not modelled. The projections are
  functions of the current tables and `today`, that is, always fresh.
- Transaction isolation and concurrent callers are not modelled. Atomicity is modelled as
  "an error leaves the state unchanged".
- `gen_random_uuid()`, `now()`, `current_date` and `current_user` are parameters. Fresh ids are
  a precondition.
- `to_jsonb` row images are kept as copies of the row datatype.
- The numeric measurement columns (`range_min`, `range_max`) are reals, used only by the
  `ck_range_order` check. The unit, error-limit and accuracy-class columns are not modelled.
- Org units, labs, specialists, check kinds, check types, models and documents are sets of ids,
  because the core reads only their existence. Their other columns are not modelled, and neither
  is the org-unit parent hierarchy.
- Deletes and the inserts of reference tables other than the seeds are not modelled as
  operations. The audit recorder models the DELETE entry (`Audit.EntryFor`), but no operation
  of the core deletes rows.
- Check-event updates are not modelled as an operation: the core only inserts events. So the
  UPDATE firing conditions of the event triggers are not modelled.
- Engine.Store.GeneratePlans: it inserts the candidates in an unspecified order. The database
  gives no order for the rows of an INSERT ... SELECT, so the contract fixes the set of new plans and
  the count, but not which new id goes to which triple.
- Database.Decommission: its own ensures states only the not-seeded error. The rest is stated by
  `Properties.DecommissionEffects`, `Properties.DecommissionRecordsReason` and
  `Properties.DecommissionUnknownIsNoop`.
- Database.UpdateInstrument: a listed NOT NULL column (`instrument_model_id`, `inventory_no`,
  `org_unit_id`, `location_id`) of its `InstrumentPatch` always carries a value, so it cannot write NULL into it.
  `InstrumentUpdate` (app/schemas.py:148-162) lets a client send an explicit null, and
  `update_instrument` passes it on; the database then refuses it, through the location guard's
  `Invalid location_id` or a NOT NULL violation. That error path is not modelled.
- Dates.AddMonths: dates are unbounded, so adding a huge `interval_months` never fails. The
  database raises "date out of range" past its last representable date; that error is not
  modelled.
- Database.LinkError: document ids are a `seq<Id>`, which has no NULL element. A NULL inside
  `p_document_ids` violates the link table's NOT NULL key; that error is not modelled.
- Locations.InstrumentsAtHome: it is not part of `Database.Consistent`, because the code does not
  keep it under location edits (see Findings).

## Findings

| source | as written | input that shows it | evidently intended | confidence | as-written member | corrected member |
|---|---|---|---|---|---|---|
| app/api/router.py:201-216 | `update_location` writes a new `org_unit_id` for a location without checking the instruments standing there; the location guard fires only on instrument writes (0002 line 145) | a location in org unit 1 holds an instrument of org unit 1; a PATCH sets the location's `org_unit_id` to 2; the edit is accepted and the instrument's location no longer belongs to its org unit | an instrument's location belongs to its org unit at all times, so the edit is refused while such an instrument stands there | not executed | Locations.LocationEditStrandsInstrument | Locations.UpdateLocationCheckedKeepsAtHome |
