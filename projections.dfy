/** The due projections: `v_instrument_check_next_due` (the last
    successful check per instrument and check type, joined back to the
    events of that day), `v_instrument_next_due` (the earliest due date per
    instrument), and the filters of the `mv_instruments_due_30d` and
    `mv_instruments_overdue` materialized views. `today` is `current_date`. */
module Projections {
  import opened Wrappers
  import opened Dates
  import opened Schema

  /** The check dates of the successful events of one (instrument, check type) pair. */
  function SuccessDates(events: map<Id, CheckEvent>, results: map<Id, ResultStatus>, instrument: Id, checkType: Id)
    : set<Date>
  {
    set e | e in events && events[e].instrument == instrument && events[e].checkType == checkType
              && IsSuccess(results, events[e].result)
      :: events[e].checkDate
  }

  /** Event `e` is a successful check of the pair. */
  predicate SucceededFor(events: map<Id, CheckEvent>, results: map<Id, ResultStatus>, e: Id, instrument: Id, checkType: Id) {
    e in events && events[e].instrument == instrument && events[e].checkType == checkType
    && IsSuccess(results, events[e].result)
  }

  /** `last_success.last_check_date`: `max(check_date)` over the pair's
      successful events; defined only for pairs that have one. */
  function LastCheckDate(events: map<Id, CheckEvent>, results: map<Id, ResultStatus>, instrument: Id, checkType: Id)
    : (r: Date)
    requires SuccessDates(events, results, instrument, checkType) != {}
    ensures exists e :: SucceededFor(events, results, e, instrument, checkType) && events[e].checkDate == r
    ensures forall e :: SucceededFor(events, results, e, instrument, checkType) ==> NotAfter(events[e].checkDate, r)
  {
    var r := Latest(SuccessDates(events, results, instrument, checkType));
    assert forall e :: SucceededFor(events, results, e, instrument, checkType) ==>
      events[e].checkDate in SuccessDates(events, results, instrument, checkType);
    r
  }

  /** One row of `v_instrument_check_next_due`. */
  datatype DueRow = DueRow(
    instrument: Id,
    inventoryNo: string,
    serialNo: Option<string>,
    orgUnit: Id,
    location: Id,
    checkType: Id,
    lastCheckDate: Date,
    nextDueDate: Option<Date>,
    daysToDue: Option<int>,
    protocolNo: Option<string>,
    lab: Id,
    specialist: Option<Id>)

  /** The event joined on `ce.check_date = ls.last_check_date`: any event of
      the pair on the day of its last successful check, successful or not. */
  predicate OnLastSuccessDay(events: map<Id, CheckEvent>, results: map<Id, ResultStatus>, e: Id) {
    e in events
    && SuccessDates(events, results, events[e].instrument, events[e].checkType) != {}
    && events[e].checkDate == LastCheckDate(events, results, events[e].instrument, events[e].checkType)
  }

  /** `next_due_date - current_date`, NULL when the due date is NULL. */
  function DaysToDue(nextDue: Option<Date>, today: Date): Option<int> {
    if nextDue.None? then None else Some(DaysBetween(today, nextDue.value))
  }

  /** `v_instrument_check_next_due`, one row per joined event (keyed by that
      event's id). */
  function CheckNextDue(
    instruments: map<Id, Instrument>, checkTypes: set<Id>,
    events: map<Id, CheckEvent>, results: map<Id, ResultStatus>, today: Date): (view: map<Id, DueRow>)
    ensures forall e :: e in view <==>
      (OnLastSuccessDay(events, results, e) && events[e].instrument in instruments && events[e].checkType in checkTypes)
    ensures forall e :: e in view ==>
      && e in events
      && view[e].instrument == events[e].instrument
      && view[e].checkType == events[e].checkType
      && view[e].lastCheckDate == events[e].checkDate
      && view[e].nextDueDate == events[e].nextDueDate
      && view[e].daysToDue == DaysToDue(events[e].nextDueDate, today)
  {
    map e | e in events && OnLastSuccessDay(events, results, e)
              && events[e].instrument in instruments && events[e].checkType in checkTypes
      :: var ev := events[e];
         var i := instruments[ev.instrument];
         DueRow(ev.instrument, i.inventoryNo, i.serialNo, i.orgUnit, i.location, ev.checkType,
                LastCheckDate(events, results, ev.instrument, ev.checkType),
                ev.nextDueDate, DaysToDue(ev.nextDueDate, today), ev.protocolNo, ev.lab, ev.specialist)
  }

  /** The view has a row for an (instrument, check type) pair exactly when
      the pair has a successful event; pairs never checked successfully do
      not appear. */
  lemma ViewCoversSuccessfulPairs(
    instruments: map<Id, Instrument>, checkTypes: set<Id>,
    events: map<Id, CheckEvent>, results: map<Id, ResultStatus>, today: Date,
    instrument: Id, checkType: Id)
    requires instrument in instruments && checkType in checkTypes
    ensures (exists e :: e in CheckNextDue(instruments, checkTypes, events, results, today)
               && events[e].instrument == instrument && events[e].checkType == checkType)
      <==> SuccessDates(events, results, instrument, checkType) != {}
  {
    var view := CheckNextDue(instruments, checkTypes, events, results, today);
    if SuccessDates(events, results, instrument, checkType) != {} {
      var last := LastCheckDate(events, results, instrument, checkType);
      var e :| SucceededFor(events, results, e, instrument, checkType) && events[e].checkDate == last;
      assert e in view;
    }
  }

  /** The join keeps an event that did not succeed when it shares its day
      with the pair's last success: its row carries that event's (NULL) due
      date. */
  lemma FailedEventOnLastDayJoins(
    instruments: map<Id, Instrument>, checkTypes: set<Id>,
    events: map<Id, CheckEvent>, results: map<Id, ResultStatus>, today: Date, s: Id, f: Id)
    requires s in events && f in events && IsSuccess(results, events[s].result)
    requires events[f].instrument == events[s].instrument && events[f].checkType == events[s].checkType
    requires events[f].checkDate == events[s].checkDate
    requires forall e :: SucceededFor(events, results, e, events[s].instrument, events[s].checkType) ==>
      NotAfter(events[e].checkDate, events[s].checkDate)
    requires events[s].instrument in instruments && events[s].checkType in checkTypes
    ensures f in CheckNextDue(instruments, checkTypes, events, results, today)
    ensures CheckNextDue(instruments, checkTypes, events, results, today)[f].nextDueDate == events[f].nextDueDate
  {
    var i, ct := events[s].instrument, events[s].checkType;
    assert events[s].checkDate in SuccessDates(events, results, i, ct);
    var last := LastCheckDate(events, results, i, ct);
    NotAfterTotal(events[s].checkDate, last);
  }

  // ----- The materialized-view filters -----

  /** `next_due_date >= current_date AND next_due_date < current_date + 30`;
      `current_date + 30` is the date thirty days later. */
  predicate DueWithin30(r: DueRow, today: Date) {
    r.nextDueDate.Some? && NotAfter(today, r.nextDueDate.value)
    && DayNumber(r.nextDueDate.value) < DayNumber(today) + 30
  }

  /** `next_due_date < current_date`. */
  predicate Overdue(r: DueRow, today: Date) {
    r.nextDueDate.Some? && Before(r.nextDueDate.value, today)
  }

  /** `mv_instruments_due_30d`. */
  function Due30d(view: map<Id, DueRow>, today: Date): (m: map<Id, DueRow>)
    ensures forall e :: e in m <==> e in view && DueWithin30(view[e], today)
    ensures forall e :: e in m ==> m[e] == view[e]
  {
    map e | e in view && DueWithin30(view[e], today) :: view[e]
  }

  /** `mv_instruments_overdue`. */
  function OverdueRows(view: map<Id, DueRow>, today: Date): (m: map<Id, DueRow>)
    ensures forall e :: e in m <==> e in view && Overdue(view[e], today)
    ensures forall e :: e in m ==> m[e] == view[e]
  {
    map e | e in view && Overdue(view[e], today) :: view[e]
  }

  /** In terms of `days_to_due`: due within 30 days means 0 <= days < 30,
      overdue means days < 0; so no row is in both projections. */
  lemma FiltersByDaysToDue(r: DueRow, today: Date)
    requires r.daysToDue == DaysToDue(r.nextDueDate, today)
    ensures DueWithin30(r, today) <==> r.daysToDue.Some? && 0 <= r.daysToDue.value < 30
    ensures Overdue(r, today) <==> r.daysToDue.Some? && r.daysToDue.value < 0
    ensures !(DueWithin30(r, today) && Overdue(r, today))
  {
    if r.nextDueDate.Some? {
      DayNumberOrder(r.nextDueDate.value, today);
      DayNumberOrder(today, r.nextDueDate.value);
    }
  }

  lemma ProjectionsDisjoint(view: map<Id, DueRow>, today: Date)
    requires forall e :: e in view ==> view[e].daysToDue == DaysToDue(view[e].nextDueDate, today)
    ensures Due30d(view, today).Keys !! OverdueRows(view, today).Keys
  {
    forall e | e in view ensures !(DueWithin30(view[e], today) && Overdue(view[e], today)) {
      FiltersByDaysToDue(view[e], today);
    }
  }

  // ----- v_instrument_next_due -----

  /** The non-NULL due dates of an instrument's view rows. */
  function DueDatesOf(view: map<Id, DueRow>, instrument: Id): set<Date> {
    set e | e in view && view[e].instrument == instrument && view[e].nextDueDate.Some? :: view[e].nextDueDate.value
  }

  /** `v_instrument_next_due`: per instrument with at least one non-NULL due
      date, the earliest of them. */
  function InstrumentNextDue(view: map<Id, DueRow>): (m: map<Id, Date>)
    ensures forall i :: i in m <==> DueDatesOf(view, i) != {}
    ensures forall i :: i in m ==> m[i] == Earliest(DueDatesOf(view, i))
  {
    var ids := set e | e in view && view[e].nextDueDate.Some? :: view[e].instrument;
    assert forall i :: DueDatesOf(view, i) != {} ==> i in ids;
    map i | i in ids && DueDatesOf(view, i) != {} :: Earliest(DueDatesOf(view, i))
  }

  /** `min(days_to_due)` is the day count to `min(next_due_date)`: the
      earliest due date of an instrument has the fewest days to go. */
  lemma EarliestHasFewestDays(view: map<Id, DueRow>, today: Date, instrument: Id, e: Id)
    requires instrument in InstrumentNextDue(view)
    requires e in view && view[e].instrument == instrument && view[e].nextDueDate.Some?
    ensures DaysBetween(today, InstrumentNextDue(view)[instrument])
      <= DaysBetween(today, view[e].nextDueDate.value)
  {
    var d := view[e].nextDueDate.value;
    assert d in DueDatesOf(view, instrument);
    DayNumberOrder(InstrumentNextDue(view)[instrument], d);
  }

  // ----- Plan generation candidates -----

  /** The `candidates` of `fn_generate_check_plan`: (instrument, check type,
      due date) of every view row with a due date in [from, to] whose
      instrument is ACTIVE; when ACTIVE is not seeded (`active` is None) the
      comparison with NULL selects nothing. */
  function Candidates(
    view: map<Id, DueRow>, instruments: map<Id, Instrument>, active: Option<Id>, from: Date, to: Date)
    : (c: set<(Id, Id, Date)>)
    ensures active.None? ==> c == {}
    ensures forall t :: t in c <==>
      exists e :: e in view && view[e].nextDueDate.Some?
        && t == (view[e].instrument, view[e].checkType, view[e].nextDueDate.value)
        && NotAfter(from, t.2) && NotAfter(t.2, to)
        && active.Some? && t.0 in instruments && instruments[t.0].status == active.value
  {
    set e | e in view && view[e].nextDueDate.Some?
              && NotAfter(from, view[e].nextDueDate.value) && NotAfter(view[e].nextDueDate.value, to)
              && active.Some? && view[e].instrument in instruments
              && instruments[view[e].instrument].status == active.value
      :: (view[e].instrument, view[e].checkType, view[e].nextDueDate.value)
  }
}
