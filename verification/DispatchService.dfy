/**
 The calls of the dispatch and emergency services as they run: check, then update rows in order.
 */
module DispatchService {
  import opened Wrappers
  import opened Dispatch

  class Database {
    var units: map<nat, Unit>
    var incidents: map<nat, Incident>
    var activeTrips: set<nat>
    var rows: map<nat, Row>
    var clock: nat

    function View(): State
      reads this
    {
      State(units, incidents, activeTrips, rows, clock)
    }

    constructor ()
      ensures View() == INIT
    {
      units, incidents, activeTrips, rows, clock := map[], map[], {}, map[], 0;
    }

    method UpdateUnit(u: nat, status: UnitStatus, place: Option<Place>)
      requires u in units
      modifies this`units
      ensures units == old(units)[u :=
              old(units)[u].(status := status, place := if place.Some? then place else old(units)[u].place)]
    {
      units := units[u := units[u].(status := status)];
      if place.Some? { units := units[u := units[u].(place := place)]; }
    }

    method UpdateDispatch(d: nat, stage: Stage, unit: Option<nat>)
      requires d in rows
      modifies this`rows
      ensures rows == old(rows)[d := Moved(old(rows)[d].(unit := unit), stage, clock)]
    {
      rows := rows[d := rows[d].(unit := unit, status := stage, stamps := rows[d].stamps[stage := clock])];
      rows := rows[d := rows[d].(log := rows[d].log + [stage])];
    }

    method EnsureAssignableUnit(u: nat, kind: UnitType) returns (e: Option<Error>)
      ensures e == UnitError(View(), u, kind)
    {
      if u !in units { return Some(UNIT_NOT_FOUND); }
      if units[u].status != AVAILABLE { return Some(UNIT_UNAVAILABLE); }
      if units[u].kind != kind { return Some(UNIT_TYPE_MISMATCH); }
      return None;
    }

    method Create(a: Actor, d: nat, i: nat, kind: UnitType, unit: Option<nat>) returns (e: Option<Error>)
      requires d !in rows
      modifies this
      ensures var r := Dispatch.Create(old(View()), a, d, i, kind, unit);
        View() == Kept(old(View()), r) && e == if r.Err? then Some(r.error) else None
    {
      if !Staff(a) { return Some(FORBIDDEN); }
      e := IncidentError(View(), i);
      if e.Some? { return; }
      if unit.Some? {
        e := EnsureAssignableUnit(unit.value, kind);
        if e.Some? { return; }
      }
      var stage := if unit.Some? then ASSIGNED else REQUESTED;
      var stamps: map<Stage, nat> := map[REQUESTED := clock];
      if unit.Some? { stamps := stamps[ASSIGNED := clock]; }
      rows := rows[d := Row(i, kind, unit, stage, stamps, [])];
      if unit.Some? { UpdateUnit(unit.value, BUSY, None); }
      rows := rows[d := rows[d].(log := [stage])];
      assert stamps == if unit.Some? then map[REQUESTED := clock, ASSIGNED := clock] else map[REQUESTED := clock];
    }

    method AutoAssign(distance: (Place, Place) -> real, a: Actor, d: nat, i: nat, kind: UnitType, listing: seq<nat>)
      returns (e: Option<Error>)
      requires d !in rows && Listed(View(), kind, listing)
      modifies this
      ensures var r := Dispatch.AutoAssign(distance, old(View()), a, d, i, kind, listing);
        View() == Kept(old(View()), r) && e == if r.Err? then Some(r.error) else None
    {
      if !Staff(a) { return Some(FORBIDDEN); }
      e := IncidentError(View(), i);
      if e.Some? { return; }
      if incidents[i].place.None? { return Some(LOCATION_REQUIRED); }
      if listing == [] { return Some(NO_AVAILABLE_UNIT); }
      var u := listing[Nearest(distance, View(), incidents[i].place.value, listing)];
      e := EnsureAssignableUnit(u, kind);
      if e.Some? { return; }
      var stamps: map<Stage, nat> := map[REQUESTED := clock];
      stamps := stamps[ASSIGNED := clock];
      rows := rows[d := Row(i, kind, Some(u), ASSIGNED, stamps, [])];
      UpdateUnit(u, BUSY, None);
      rows := rows[d := rows[d].(log := [ASSIGNED])];
      assert stamps == map[REQUESTED := clock, ASSIGNED := clock];
    }

    method Assign(a: Actor, d: nat, u: nat) returns (e: Option<Error>)
      modifies this
      ensures var r := Dispatch.Assign(old(View()), a, d, u);
        View() == Kept(old(View()), r) && e == if r.Err? then Some(r.error) else None
    {
      if !Staff(a) { return Some(FORBIDDEN); }
      if d !in rows { return Some(NOT_FOUND); }
      if Terminal(rows[d].status) { return Some(DISPATCH_CLOSED); }
      e := IncidentError(View(), rows[d].incident);
      if e.Some? { return; }
      if rows[d].unit.Some? { return Some(ALREADY_ASSIGNED); }
      e := EnsureAssignableUnit(u, rows[d].kind);
      if e.Some? { return; }
      UpdateDispatch(d, ASSIGNED, Some(u));
      UpdateUnit(u, BUSY, None);
    }

    /** Counts the active dispatches of the incident; with none left an open incident is resolved. */
    method ResolveIncidentWhenResponsesComplete(i: nat)
      modifies this`incidents
      ensures View() == ResolveWhenComplete(old(View()), i)
    {
      var remaining := set d | d in rows && rows[d].incident == i && Active(rows[d]);
      if |remaining| > 0 {
        ghost var d :| d in remaining;
        assert !NoneActive(View(), i);
        return;
      }
      forall d | d in rows && rows[d].incident == i
        ensures !Active(rows[d])
      {
        assert d !in remaining;
      }
      if i !in incidents || Closed(incidents[i].status) { return; }
      incidents := incidents[i := incidents[i].(status := RESOLVED, byFleet := true)];
    }

    /** The steps both services take once the stage is known to follow; the unit is written only at completion. */
    method Advance(d: nat, u: nat, to: Stage, place: Option<Place>)
      requires d in rows && rows[d].unit == Some(u) && u in units
      modifies this
      ensures View() == Dispatch.Advance(old(View()), d, u, to, place)
    {
      var i := rows[d].incident;
      UpdateDispatch(d, to, Some(u));
      if to == COMPLETED {
        UpdateUnit(u, AVAILABLE, place);
        ResolveIncidentWhenResponsesComplete(i);
      }
    }

    method Transition(a: Actor, d: nat, to: Stage) returns (e: Option<Error>)
      requires d in rows && rows[d].unit.Some? ==> rows[d].unit.value in units
      modifies this
      ensures var r := Dispatch.Transition(old(View()), a, d, to);
        View() == Kept(old(View()), r) && e == if r.Err? then Some(r.error) else None
    {
      if !Staff(a) { return Some(FORBIDDEN); }
      if d !in rows { return Some(NOT_FOUND); }
      var unit := rows[d].unit;
      if Terminal(rows[d].status) { return None; }
      if to == CANCELLED {
        UpdateDispatch(d, CANCELLED, unit);
        if unit.Some? { UpdateUnit(unit.value, AVAILABLE, None); }
        return None;
      }
      if unit.None? { return Some(UNIT_REQUIRED); }
      if Next(rows[d].status) != Some(to) { return Some(INVALID_TRANSITION); }
      Advance(d, unit.value, to, None);
      return None;
    }

    method ServiceTransition(a: Actor, d: nat, to: Stage) returns (e: Option<Error>)
      modifies this
      ensures var r := Dispatch.ServiceTransition(old(View()), a, d, to);
        View() == Kept(old(View()), r) && e == if r.Err? then Some(r.error) else None
    {
      if !a.role.SERVICE? || a.role.kind !in {POLICE, FIRE, AMBULANCE} { return Some(FORBIDDEN); }
      if d !in rows { return Some(NOT_FOUND); }
      var unit := rows[d].unit;
      if unit.None? || unit.value !in units || units[unit.value].account != Some(a.id) || rows[d].kind != a.role.kind {
        return Some(NOT_OWNED);
      }
      if Terminal(rows[d].status) { return None; }
      if to == CANCELLED { return Some(CANCEL_FORBIDDEN); }
      if Next(rows[d].status) != Some(to) { return Some(INVALID_TRANSITION); }
      Advance(d, unit.value, to, a.place);
      return None;
    }

    method SetUnitStatus(a: Actor, u: nat, status: UnitStatus) returns (e: Option<Error>)
      modifies this
      ensures var r := Dispatch.SetUnitStatus(old(View()), a, u, status);
        View() == Kept(old(View()), r) && e == if r.Err? then Some(r.error) else None
    {
      if a.role != SYSTEM_ADMIN { return Some(FORBIDDEN); }
      if u !in units { return Some(UNIT_NOT_FOUND); }
      if units[u].status == BUSY && status == OUT_OF_SERVICE { return Some(UNIT_ACTIVE); }
      UpdateUnit(u, status, None);
      return None;
    }
  }
}
