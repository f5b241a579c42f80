/** Location/org-unit agreement across the whole database. The instrument
    guard checks an instrument's own row; a location edit that moves the
    location to another org unit is not checked against the instruments
    standing there. */
module Locations {
  import opened Wrappers
  import opened Schema
  import opened Guards
  import opened Database

  /** Every instrument stands at a location of its own org unit. */
  predicate InstrumentsAtHome(locations: map<Id, Location>, instruments: map<Id, Instrument>) {
    forall i :: i in instruments ==> LocationAgrees(locations, instruments[i].orgUnit, instruments[i].location)
  }

  // ----- Instrument writes keep the agreement -----

  /** INSERT always runs the guard, so an accepted insert keeps every
      instrument at home. */
  lemma InsertInstrumentKeepsAtHome(db: DB, id: Id, row: Instrument, histId: Id, now: Timestamp, user: string)
    requires id !in db.instruments && histId !in db.history
    requires InstrumentsAtHome(db.locations, db.instruments)
    requires InsertInstrument(db, id, row, histId, now, user).Ok?
    ensures var db2 := InsertInstrument(db, id, row, histId, now, user).value;
      InstrumentsAtHome(db2.locations, db2.instruments)
  {
    var db2 := InsertInstrument(db, id, row, histId, now, user).value;
    assert db2.locations == db.locations && db2.instruments == db.instruments[id := row];
  }

  /** An UPDATE either lists the org unit or the location, and then the
      guard runs, or lists neither, and then the row keeps both; so an
      accepted UPDATE keeps every instrument at home. */
  lemma UpdateInstrumentKeepsAtHome(
    db: DB, id: Id, p: InstrumentPatch, histId: Id, now: Timestamp, user: string)
    requires histId !in db.history
    requires InstrumentsAtHome(db.locations, db.instruments)
    requires UpdateInstrument(db, id, p, histId, now, user).Ok?
    ensures var db2 := UpdateInstrument(db, id, p, histId, now, user).value.0;
      InstrumentsAtHome(db2.locations, db2.instruments)
  {
    if id in db.instruments {
      var db2 := UpdateInstrument(db, id, p, histId, now, user).value.0;
      var after := ApplyPatch(db.instruments[id], p);
      assert db2.locations == db.locations && db2.instruments == db.instruments[id := after];
      assert LocationAgrees(db.locations, after.orgUnit, after.location) by {
        if !ListsLocation(p) {
          assert after.orgUnit == db.instruments[id].orgUnit && after.location == db.instruments[id].location;
        }
      }
    }
  }

  // ----- Location edits -----

  /** The columns a location UPDATE lists (the router allows org_unit_id,
      code and name): None when not listed, Some(None) for an explicit null,
      Some(Some(v)) for a value. */
  datatype LocationPatch = LocationPatch(
    orgUnit: Option<Option<Id>>, code: Option<Option<string>>, name: Option<Option<string>>)

  /** The first column, in table order, that the patch sets to NULL; all
      three are NOT NULL. */
  function NullColumn(p: LocationPatch): (r: Option<string>)
    ensures r.None? <==> p.orgUnit != Some(None) && p.code != Some(None) && p.name != Some(None)
    ensures r == Some("org_unit_id") <==> p.orgUnit == Some(None)
    ensures r == Some("code") <==> p.orgUnit != Some(None) && p.code == Some(None)
  {
    if p.orgUnit == Some(None) then Some("org_unit_id")
    else if p.code == Some(None) then Some("code")
    else if p.name == Some(None) then Some("name")
    else None
  }

  /** A listed non-null value, or the current one. */
  function ListedValue<T>(column: Option<Option<T>>, current: T): T
    requires column != Some(None)
  {
    if column.Some? then column.value.value else current
  }

  function ApplyLocationPatch(l: Location, p: LocationPatch): Location
    requires NullColumn(p).None?
  {
    Location(ListedValue(p.orgUnit, l.orgUnit), ListedValue(p.code, l.code), ListedValue(p.name, l.name))
  }

  /** The constraint checks of the location UPDATE: uq_location_org_unit_code,
      then fk_location_org_unit. */
  function LocationRowError(db: DB, id: Id, row: Location): (r: Option<Error>)
    ensures r.None? <==>
      (forall j :: j in db.locations && j != id ==>
         !(db.locations[j].orgUnit == row.orgUnit && db.locations[j].code == row.code))
      && row.orgUnit in db.orgUnits
  {
    if exists j :: j in db.locations && j != id && db.locations[j].orgUnit == row.orgUnit
                   && db.locations[j].code == row.code then
      Some(UniqueViolation("uq_location_org_unit_code"))
    else if row.orgUnit !in db.orgUnits then
      Some(ForeignKeyViolation("fk_location_org_unit"))
    else
      None
  }

  /** `UPDATE location SET <p> WHERE id = id` as written, with the row count:
      a NULL written into a NOT NULL column is refused before the unique
      index and the foreign key are checked, and no trigger on location looks
      at the instruments standing there. */
  function UpdateLocation(db: DB, id: Id, p: LocationPatch): (r: Result<(DB, nat), Error>)
    ensures id !in db.locations ==> r == Ok((db, 0))
    ensures id in db.locations && NullColumn(p).Some? ==> r == Err(NotNullViolation(NullColumn(p).value))
    ensures id in db.locations && NullColumn(p).None? ==>
      (r.Err? <==> LocationRowError(db, id, ApplyLocationPatch(db.locations[id], p)).Some?)
      && (r.Ok? ==> r.value == (db.(locations := db.locations[id := ApplyLocationPatch(db.locations[id], p)]), 1))
  {
    if id !in db.locations then Ok((db, 0))
    else if NullColumn(p).Some? then Err(NotNullViolation(NullColumn(p).value))
    else
      var row := ApplyLocationPatch(db.locations[id], p);
      var err := LocationRowError(db, id, row);
      if err.Some? then Err(err.value)
      else Ok((db.(locations := db.locations[id := row]), 1))
  }

  /** The edit as written moves an instrument out of its org unit: a
      location of org unit 1 holding an instrument of org unit 1 is moved to
      org unit 2, and the UPDATE is accepted. */
  lemma LocationEditStrandsInstrument()
    ensures var db := StrandingExample();
      InstrumentsAtHome(db.locations, db.instruments)
      && UpdateLocation(db, 10, LocationPatch(Some(Some(2)), None, None)).Ok?
      && var db2 := UpdateLocation(db, 10, LocationPatch(Some(Some(2)), None, None)).value.0;
         !InstrumentsAtHome(db2.locations, db2.instruments)
  {
    var db := StrandingExample();
    var db2 := UpdateLocation(db, 10, LocationPatch(Some(Some(2)), None, None)).value.0;
    assert !LocationAgrees(db2.locations, db2.instruments[5].orgUnit, db2.instruments[5].location);
  }

  /** Two org units, one location and one instrument standing there. */
  function StrandingExample(): DB {
    DB(map[], map[], map[], {1, 2}, map[10 := Location(1, "R-101", "Room 101")], {}, {}, {}, {}, {}, map[],
       map[5 := Instrument(0, "INV-1", None, None, None, 1, 10, None, 0, None, None, None)],
       map[], map[], {}, map[], [])
  }

  /** The location edit with the agreement check the instrument guard
      applies: refused while an instrument of another org unit stands at the
      location. */
  ghost function UpdateLocationChecked(db: DB, id: Id, p: LocationPatch): (r: Result<(DB, nat), Error>)
    ensures id !in db.locations ==> r == Ok((db, 0))
    ensures id in db.locations && NullColumn(p).Some? ==> r == Err(NotNullViolation(NullColumn(p).value))
    ensures id in db.locations && NullColumn(p).None? && r.Ok? ==>
      r.value == (db.(locations := db.locations[id := ApplyLocationPatch(db.locations[id], p)]), 1)
    ensures id in db.locations && NullColumn(p).None? ==>
      (r.Err? <==>
        LocationRowError(db, id, ApplyLocationPatch(db.locations[id], p)).Some?
        || exists i :: i in db.instruments && db.instruments[i].location == id
             && db.instruments[i].orgUnit != ApplyLocationPatch(db.locations[id], p).orgUnit)
  {
    if id !in db.locations || NullColumn(p).Some? then UpdateLocation(db, id, p)
    else
      var row := ApplyLocationPatch(db.locations[id], p);
      if exists i :: i in db.instruments && db.instruments[i].location == id && db.instruments[i].orgUnit != row.orgUnit
      then
        var i :| i in db.instruments && db.instruments[i].location == id && db.instruments[i].orgUnit != row.orgUnit;
        Err(LocationOrgUnitMismatch(row.orgUnit, db.instruments[i].orgUnit))
      else
        UpdateLocation(db, id, p)
  }

  /** The checked edit keeps every instrument at home, and keeps the
      location table valid. */
  lemma UpdateLocationCheckedKeepsAtHome(db: DB, id: Id, p: LocationPatch)
    requires InstrumentsAtHome(db.locations, db.instruments) && LocationsValid(db.locations, db.orgUnits)
    requires UpdateLocationChecked(db, id, p).Ok?
    ensures var db2 := UpdateLocationChecked(db, id, p).value.0;
      InstrumentsAtHome(db2.locations, db2.instruments) && LocationsValid(db2.locations, db2.orgUnits)
  {
    if id in db.locations && NullColumn(p).None? {
      var db2 := UpdateLocationChecked(db, id, p).value.0;
      var row := ApplyLocationPatch(db.locations[id], p);
      forall i | i in db2.instruments
        ensures LocationAgrees(db2.locations, db2.instruments[i].orgUnit, db2.instruments[i].location)
      {
        assert db2.instruments[i] == db.instruments[i];
      }
      forall a, b | a in db2.locations && b in db2.locations && db2.locations[a].orgUnit == db2.locations[b].orgUnit
                    && db2.locations[a].code == db2.locations[b].code
        ensures a == b
      {
        if a != id && b != id {
          assert db2.locations[a] == db.locations[a] && db2.locations[b] == db.locations[b];
        }
      }
    }
  }
}
