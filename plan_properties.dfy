/** What `fn_generate_check_plan` guarantees: the plans it inserts keep every
    constraint, cover every candidate, and running it again over the same
    range inserts nothing. */
module PlanProperties {
  import opened Wrappers
  import opened Dates
  import opened Schema
  import opened Audit
  import opened Projections
  import opened Database

  /** Every candidate names an existing ACTIVE instrument and an existing
      check type: the view joins both tables. */
  lemma CandidatesReferenceRows(db: DB, from: Date, to: Date, today: Date)
    requires LookupsValid(db.instrumentStatuses, db.resultStatuses, db.planStatuses)
    ensures forall key :: key in PlanCandidates(db, from, to, today) ==>
      && key.0 in db.instruments && key.1 in db.checkTypes
      && Some(db.instruments[key.0].status) == CodeId(db.instrumentStatuses, LookupCode, "ACTIVE")
      && NotAfter(from, key.2) && NotAfter(key.2, to)
  {
    var view := View(db, today);
    var active := CodeId(db.instrumentStatuses, LookupCode, "ACTIVE");
    forall key | key in PlanCandidates(db, from, to, today)
      ensures key.0 in db.instruments && key.1 in db.checkTypes
      ensures Some(db.instruments[key.0].status) == active
      ensures NotAfter(from, key.2) && NotAfter(key.2, to)
    {
      var e :| e in view && view[e].nextDueDate.Some?
        && key == (view[e].instrument, view[e].checkType, view[e].nextDueDate.value)
        && NotAfter(from, key.2) && NotAfter(key.2, to)
        && active.Some? && key.0 in db.instruments && db.instruments[key.0].status == active.value;
    }
  }

  /** A generated state keeps every constraint when the candidates name
      existing instruments and check types and the plans get a seeded
      status: uq_check_plan holds and every new plan's foreign keys resolve. */
  lemma GeneratedKeepsConsistency(
    db: DB, db2: DB, candidates: set<(Id, Id, Date)>, planned: Id, now: Timestamp, user: string,
    inserted: seq<Id>)
    requires Consistent(db)
    requires forall key :: key in candidates ==> key.0 in db.instruments && key.1 in db.checkTypes
    requires planned in db.planStatuses
    requires Generated(db, db2, candidates, planned, now, user, inserted)
    ensures Consistent(db2)
  {
    forall k | k in db2.plans
      ensures db2.plans[k].instrument in db2.instruments && db2.plans[k].checkType in db2.checkTypes
      ensures db2.plans[k].status in db2.planStatuses
      ensures db2.plans[k].plannedLab.None? || db2.plans[k].plannedLab.value in db2.labs
      ensures db2.plans[k].plannedSpecialist.None? || db2.plans[k].plannedSpecialist.value in db2.specialists
    {
      if k !in db.plans {
        var i :| 0 <= i < |inserted| && inserted[i] == k;
        assert PlanKey(db2.plans[k]) in candidates;
      }
    }
    assert PlansValid(db2.plans, db2.instruments, db2.checkTypes, db2.planStatuses, db2.labs, db2.specialists);
  }

  /** The candidates depend on the instruments, the check types, the events
      and the status vocabularies, none of which plan generation writes. */
  lemma CandidatesIgnorePlans(db: DB, plans: map<Id, CheckPlan>, log: seq<AuditEntry>, from: Date, to: Date, today: Date)
    requires LookupsValid(db.instrumentStatuses, db.resultStatuses, db.planStatuses)
    ensures PlanCandidates(db.(plans := plans, auditLog := log), from, to, today) == PlanCandidates(db, from, to, today)
  {
  }

  /** Every candidate triple has exactly one plan after generation, whether
      it was inserted now or existed before. */
  lemma EveryCandidateHasOnePlan(
    db: DB, db2: DB, candidates: set<(Id, Id, Date)>, planned: Id, now: Timestamp, user: string,
    inserted: seq<Id>, key: (Id, Id, Date))
    requires Generated(db, db2, candidates, planned, now, user, inserted)
    requires key in candidates
    ensures exists p :: p in db2.plans && PlanKey(db2.plans[p]) == key
    ensures forall p, q ::
      p in db2.plans && q in db2.plans && PlanKey(db2.plans[p]) == key && PlanKey(db2.plans[q]) == key ==>
      p == q
  {
    assert key in PlanKeys(db2.plans);
  }

  /** With no new candidate, generation inserts nothing and leaves the plans
      and the audit log as they were. */
  lemma NoNewCandidateInsertsNothing(
    db: DB, db2: DB, candidates: set<(Id, Id, Date)>, planned: Id, now: Timestamp, user: string,
    inserted: seq<Id>)
    requires candidates - PlanKeys(db.plans) == {}
    requires Generated(db, db2, candidates, planned, now, user, inserted)
    ensures inserted == [] && db2 == db
  {
    assert |inserted| == 0;
    assert forall k :: k in db2.plans ==> k in db.plans;
    assert db2.plans == db.plans;
  }

  /** ON CONFLICT DO NOTHING makes generation idempotent: over the state it
      leaves, the same range has no new candidate, so a second run inserts
      no plan (NoNewCandidateInsertsNothing). */
  lemma GenerateTwiceFindsNothingNew(
    db: DB, db2: DB, from: Date, to: Date, today: Date, planned: Id, now: Timestamp, user: string,
    inserted: seq<Id>)
    requires LookupsValid(db.instrumentStatuses, db.resultStatuses, db.planStatuses)
    requires Generated(db, db2, PlanCandidates(db, from, to, today), planned, now, user, inserted)
    ensures LookupsValid(db2.instrumentStatuses, db2.resultStatuses, db2.planStatuses)
    ensures PlanCandidates(db2, from, to, today) - PlanKeys(db2.plans) == {}
  {
    CandidatesIgnorePlans(db, db2.plans, db2.auditLog, from, to, today);
  }

  // ----- One row of the INSERT ... ON CONFLICT DO NOTHING -----

  /** Inserting a plan under a fresh id adds exactly its key. */
  lemma PlanKeysAfterInsert(plans: map<Id, CheckPlan>, id: Id, plan: CheckPlan)
    requires id !in plans
    ensures PlanKeys(plans[id := plan]) == PlanKeys(plans) + {PlanKey(plan)}
  {
    var m := plans[id := plan];
    forall key | key in PlanKeys(m) ensures key in PlanKeys(plans) + {PlanKey(plan)} {
      var p :| p in m && PlanKey(m[p]) == key;
      if p != id {
        assert PlanKey(plans[p]) == key;
      }
    }
    forall key | key in PlanKeys(plans) ensures key in PlanKeys(m) {
      var p :| p in plans && PlanKey(plans[p]) == key;
      assert m[p] == plans[p];
    }
    assert PlanKey(m[id]) == PlanKey(plan);
  }

  /** A plan whose key no existing plan has keeps uq_check_plan. */
  lemma PlanKeysUniqueAfterInsert(plans: map<Id, CheckPlan>, id: Id, plan: CheckPlan)
    requires PlanKeysUnique(plans) && id !in plans && PlanKey(plan) !in PlanKeys(plans)
    ensures PlanKeysUnique(plans[id := plan])
  {
    var m := plans[id := plan];
    forall q | q in plans ensures PlanKey(plans[q]) != PlanKey(plan) {
      assert PlanKey(plans[q]) in PlanKeys(plans);
    }
    forall a, b | a in m && b in m && PlanKey(m[a]) == PlanKey(m[b]) ensures a == b {
      if a != id && b != id {
        assert m[a] == plans[a] && m[b] == plans[b];
      }
    }
  }

  /** The audit entries of the inserted plans grow by one entry per insert,
      as long as the earlier plans keep their rows. */
  lemma PlanInsertEntriesExtend(
    ids: seq<Id>, plans: map<Id, CheckPlan>, plans2: map<Id, CheckPlan>, id: Id, now: Timestamp, user: string)
    requires forall i :: 0 <= i < |ids| ==> ids[i] in plans && ids[i] in plans2 && plans2[ids[i]] == plans[ids[i]]
    requires id in plans2
    ensures PlanInsertEntries(ids + [id], plans2, now, user)
      == PlanInsertEntries(ids, plans, now, user) + [EntryFor(Inserted(PlanRow(id, plans2[id])), now, user)]
  {
    var a := PlanInsertEntries(ids + [id], plans2, now, user);
    var b := PlanInsertEntries(ids, plans, now, user) + [EntryFor(Inserted(PlanRow(id, plans2[id])), now, user)];
    assert |a| == |b|;
    forall i | 0 <= i < |a| ensures a[i] == b[i] {
      if i < |ids| {
        assert (ids + [id])[i] == ids[i];
      }
    }
  }

  // ----- The INSERT ... SELECT FROM candidates, row by row -----

  /** The plans inserted so far are new rows, one per key that had no plan,
      each a `planned` plan. */
  ghost predicate InsertedPlans(
    dbPlans: map<Id, CheckPlan>, plans: map<Id, CheckPlan>, inserted: seq<Id>, newKeys: set<(Id, Id, Date)>,
    planned: Id, now: Timestamp)
  {
    && (forall k :: k in dbPlans ==> k in plans && plans[k] == dbPlans[k])
    && (forall k :: k in plans ==> k in dbPlans || k in inserted)
    && (forall i :: 0 <= i < |inserted| ==> inserted[i] !in dbPlans && inserted[i] in plans)
    && (forall i, j :: 0 <= i < j < |inserted| ==> inserted[i] != inserted[j])
    && (forall i :: 0 <= i < |inserted| ==>
          PlanKey(plans[inserted[i]]) in newKeys && plans[inserted[i]] == NewPlan(PlanKey(plans[inserted[i]]), planned, now))
  }

  /** The keys after the candidates outside `todo` have been offered. */
  ghost predicate OfferedKeys(
    existing: set<(Id, Id, Date)>, plans: map<Id, CheckPlan>, candidates: set<(Id, Id, Date)>,
    todo: set<(Id, Id, Date)>, count: nat)
  {
    && todo <= candidates
    && PlanKeysUnique(plans)
    && PlanKeys(plans) == existing + (candidates - todo)
    && count == |(candidates - todo) - existing|
  }

  /** Nothing is offered yet. */
  lemma InsertProgressStart(dbPlans: map<Id, CheckPlan>, candidates: set<(Id, Id, Date)>, planned: Id, now: Timestamp)
    requires PlanKeysUnique(dbPlans)
    ensures InsertedPlans(dbPlans, dbPlans, [], candidates - PlanKeys(dbPlans), planned, now)
    ensures OfferedKeys(PlanKeys(dbPlans), dbPlans, candidates, candidates, 0)
  {
  }

  /** Inserting a new plan under a fresh id keeps the inserted plans in order. */
  lemma InsertedPlansExtend(
    dbPlans: map<Id, CheckPlan>, plans: map<Id, CheckPlan>, inserted: seq<Id>, newKeys: set<(Id, Id, Date)>,
    planned: Id, now: Timestamp, id: Id, key: (Id, Id, Date))
    requires InsertedPlans(dbPlans, plans, inserted, newKeys, planned, now)
    requires id !in dbPlans && id !in inserted && key in newKeys
    ensures id !in plans
    ensures InsertedPlans(dbPlans, plans[id := NewPlan(key, planned, now)], inserted + [id], newKeys, planned, now)
  {
    var plans2 := plans[id := NewPlan(key, planned, now)];
    var inserted2 := inserted + [id];
    forall i | 0 <= i < |inserted2|
      ensures inserted2[i] !in dbPlans && inserted2[i] in plans2
      ensures PlanKey(plans2[inserted2[i]]) in newKeys
      ensures plans2[inserted2[i]] == NewPlan(PlanKey(plans2[inserted2[i]]), planned, now)
    {
      if i < |inserted| {
        assert inserted2[i] == inserted[i] && inserted[i] != id;
      }
    }
    forall i, j | 0 <= i < j < |inserted2| ensures inserted2[i] != inserted2[j] {
      if j < |inserted| {
        assert inserted2[i] == inserted[i] && inserted2[j] == inserted[j];
      } else {
        assert inserted2[i] == inserted[i];
      }
    }
  }

  /** The offered set grows by `key`, which is new. */
  lemma OfferedExtend(candidates: set<(Id, Id, Date)>, todo: set<(Id, Id, Date)>, existing: set<(Id, Id, Date)>,
                      key: (Id, Id, Date))
    requires key in todo && key !in existing && todo <= candidates
    ensures (candidates - (todo - {key})) - existing == ((candidates - todo) - existing) + {key}
    ensures key !in (candidates - todo) - existing
    ensures |(candidates - todo) - existing| < |candidates|
  {
    assert (candidates - todo) - existing <= candidates - {key};
    assert |candidates - {key}| < |candidates|;
  }

  /** Inserting a plan whose key is new adds its key and keeps the keys unique. */
  lemma PlanKeysInsert(
    existing: set<(Id, Id, Date)>, plans: map<Id, CheckPlan>, candidates: set<(Id, Id, Date)>,
    todo: set<(Id, Id, Date)>, id: Id, plan: CheckPlan)
    requires PlanKeysUnique(plans) && PlanKeys(plans) == existing + (candidates - todo) && todo <= candidates
    requires id !in plans && PlanKey(plan) in todo && PlanKey(plan) !in PlanKeys(plans)
    ensures PlanKeysUnique(plans[id := plan])
    ensures PlanKeys(plans[id := plan]) == existing + (candidates - (todo - {PlanKey(plan)}))
  {
    assert candidates - (todo - {PlanKey(plan)}) == (candidates - todo) + {PlanKey(plan)};
    PlanKeysAfterInsert(plans, id, plan);
    PlanKeysUniqueAfterInsert(plans, id, plan);
  }

  /** Inserting a candidate with no plan yet adds its key and counts it. */
  lemma OfferedKeysInsert(
    existing: set<(Id, Id, Date)>, plans: map<Id, CheckPlan>, candidates: set<(Id, Id, Date)>,
    todo: set<(Id, Id, Date)>, count: nat, id: Id, plan: CheckPlan)
    requires OfferedKeys(existing, plans, candidates, todo, count)
    requires id !in plans && PlanKey(plan) in todo && PlanKey(plan) !in PlanKeys(plans)
    ensures count < |candidates|
    ensures OfferedKeys(existing, plans[id := plan], candidates, todo - {PlanKey(plan)}, count + 1)
  {
    OfferedExtend(candidates, todo, existing, PlanKey(plan));
    PlanKeysInsert(existing, plans, candidates, todo, id, plan);
  }

  /** A candidate whose key already has a plan is skipped (ON CONFLICT DO
      NOTHING). */
  lemma OfferedKeysSkip(
    existing: set<(Id, Id, Date)>, plans: map<Id, CheckPlan>, candidates: set<(Id, Id, Date)>,
    todo: set<(Id, Id, Date)>, count: nat, key: (Id, Id, Date))
    requires OfferedKeys(existing, plans, candidates, todo, count)
    requires key in todo && key in PlanKeys(plans)
    ensures OfferedKeys(existing, plans, candidates, todo - {key}, count)
  {
    assert (candidates - (todo - {key})) - existing == (candidates - todo) - existing;
  }

  /** The log grows by the new plan's entry. */
  lemma InsertLogExtend(
    dbLog: seq<AuditEntry>, log: seq<AuditEntry>, plans: map<Id, CheckPlan>, inserted: seq<Id>, id: Id,
    plan: CheckPlan, now: Timestamp, user: string)
    requires id !in plans
    requires forall i :: 0 <= i < |inserted| ==> inserted[i] in plans
    requires log == dbLog + PlanInsertEntries(inserted, plans, now, user)
    ensures var plans2 := plans[id := plan];
      log + [EntryFor(Inserted(PlanRow(id, plans2[id])), now, user)]
      == dbLog + PlanInsertEntries(inserted + [id], plans2, now, user)
  {
    PlanInsertEntriesExtend(inserted, plans, plans[id := plan], id, now, user);
  }

  /** Once every candidate is offered, the state is a generated one. */
  lemma InsertProgressDone(
    db: DB, plans: map<Id, CheckPlan>, log: seq<AuditEntry>, candidates: set<(Id, Id, Date)>,
    inserted: seq<Id>, planned: Id, now: Timestamp, user: string)
    requires InsertedPlans(db.plans, plans, inserted, candidates - PlanKeys(db.plans), planned, now)
    requires OfferedKeys(PlanKeys(db.plans), plans, candidates, {}, |inserted|)
    requires log == db.auditLog + PlanInsertEntries(inserted, plans, now, user)
    ensures Generated(db, db.(plans := plans, auditLog := log), candidates, planned, now, user, inserted)
  {
    assert candidates - {} == candidates;
  }
}
