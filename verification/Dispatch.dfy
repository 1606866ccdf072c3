/**
 Dispatches and emergency units, written by two services and by the end of a trip.
 Each service call is one atomic step; `Act` is what it does to the rows.
 */
module Dispatch {
  import opened Wrappers

  datatype UnitType = POLICE | AMBULANCE | FIRE | RESCUE | OTHER

  /** `BUSY` is the unit status that the database calls DISPATCHED, as it does one of the stages. */
  datatype UnitStatus = AVAILABLE | BUSY | OUT_OF_SERVICE

  datatype Role = TOURIST | DISASTER_MANAGER | SYSTEM_ADMIN | SERVICE(kind: UnitType)

  datatype Actor = Actor(id: nat, role: Role, place: Option<Place>)

  datatype Place = Place(latitude: real, longitude: real)

  datatype Unit = Unit(kind: UnitType, status: UnitStatus, account: Option<nat>, place: Option<Place>)

  datatype IncidentStatus = OPEN | ACKNOWLEDGED | IN_PROGRESS | RESOLVED | DISMISSED

  /** `byFleet` records that the last fleet completion resolved the incident. */
  datatype Incident = Incident(trip: nat, status: IncidentStatus, place: Option<Place>, byFleet: bool)

  datatype Stage = REQUESTED | ASSIGNED | DISPATCHED | EN_ROUTE | ON_SCENE | COMPLETED | CANCELLED

  datatype Row = Row(
    incident: nat,
    kind: UnitType,
    unit: Option<nat>,
    status: Stage,
    stamps: map<Stage, nat>,
    log: seq<Stage>)

  datatype State = State(
    units: map<nat, Unit>,
    incidents: map<nat, Incident>,
    activeTrips: set<nat>,
    rows: map<nat, Row>,
    clock: nat)

  const INIT := State(map[], map[], {}, map[], 0)

  datatype Error =
    | FORBIDDEN | NOT_FOUND | UNIT_NOT_FOUND | UNIT_UNAVAILABLE | UNIT_TYPE_MISMATCH | INCIDENT_CLOSED | TRIP_EXPIRED
    | LOCATION_REQUIRED | NO_AVAILABLE_UNIT | DISPATCH_CLOSED | ALREADY_ASSIGNED | UNIT_REQUIRED | INVALID_TRANSITION
    | NOT_OWNED | CANCEL_FORBIDDEN | UNIT_ACTIVE

  type Reply = Result<State, Error>

  predicate Staff(a: Actor) { a.role == DISASTER_MANAGER || a.role == SYSTEM_ADMIN }

  predicate Terminal(s: Stage) { s == COMPLETED || s == CANCELLED }

  predicate Closed(s: IncidentStatus) { s == RESOLVED || s == DISMISSED }

  function Next(s: Stage): Option<Stage> {
    match s
    case ASSIGNED => Some(DISPATCHED)
    case DISPATCHED => Some(EN_ROUTE)
    case EN_ROUTE => Some(ON_SCENE)
    case ON_SCENE => Some(COMPLETED)
    case _ => None
  }

  function UnitError(s: State, u: nat, kind: UnitType): Option<Error> {
    if u !in s.units then Some(UNIT_NOT_FOUND)
    else if s.units[u].status != AVAILABLE then Some(UNIT_UNAVAILABLE)
    else if s.units[u].kind != kind then Some(UNIT_TYPE_MISMATCH)
    else None
  }

  function IncidentError(s: State, i: nat): Option<Error> {
    if i !in s.incidents then Some(NOT_FOUND)
    else if Closed(s.incidents[i].status) then Some(INCIDENT_CLOSED)
    else if s.incidents[i].trip !in s.activeTrips then Some(TRIP_EXPIRED)
    else None
  }

  function WithUnit(s: State, u: nat, status: UnitStatus): State
    requires u in s.units
  {
    s.(units := s.units[u := s.units[u].(status := status)])
  }

  function WithRow(s: State, d: nat, row: Row): State { s.(rows := s.rows[d := row]) }

  /** A new row, holding the unit when one is given. */
  function Opened(s: State, d: nat, i: nat, kind: UnitType, unit: Option<nat>): State
    requires unit.Some? ==> unit.value in s.units
  {
    var stage := if unit.Some? then ASSIGNED else REQUESTED;
    var stamps := if unit.Some? then map[REQUESTED := s.clock, ASSIGNED := s.clock] else map[REQUESTED := s.clock];
    var t := WithRow(s, d, Row(i, kind, unit, stage, stamps, [stage]));
    if unit.Some? then WithUnit(t, unit.value, BUSY) else t
  }

  function Moved(row: Row, to: Stage, now: nat): Row {
    row.(status := to, stamps := row.stamps[to := now], log := row.log + [to])
  }

  predicate Active(row: Row) { !Terminal(row.status) }

  predicate NoneActive(s: State, i: nat) { forall d :: d in s.rows && s.rows[d].incident == i ==> !Active(s.rows[d]) }

  /** resolveIncidentWhenResponsesComplete. */
  function ResolveWhenComplete(s: State, i: nat): State {
    if !NoneActive(s, i) || i !in s.incidents || Closed(s.incidents[i].status) then s
    else s.(incidents := s.incidents[i := s.incidents[i].(status := RESOLVED, byFleet := true)])
  }

  function FreeUnit(s: State, u: nat, place: Option<Place>): State {
    if u !in s.units then s
    else s.(units := s.units[u :=
      s.units[u].(status := AVAILABLE, place := if place.Some? then place else s.units[u].place)])
  }

  /** The place in the database's listing of the first of the nearest units. */
  function Nearest(distance: (Place, Place) -> real, s: State, from: Place, listing: seq<nat>): (k: nat)
    requires listing != [] && forall u :: u in listing ==> u in s.units && s.units[u].place.Some?
    ensures k < |listing|
  {
    var n := |listing| - 1;
    if n == 0 then 0
    else
      var best := Nearest(distance, s, from, listing[..n]);
      if distance(from, s.units[listing[n]].place.value) < distance(from, s.units[listing[best]].place.value) then n
        else best
  }

  lemma {:induction false} NearestIsFirstNearest(distance: (Place, Place) -> real, s: State, from: Place,
      listing: seq<nat>)
    requires listing != [] && forall u :: u in listing ==> u in s.units && s.units[u].place.Some?
    ensures var k := Nearest(distance, s, from, listing);
      forall j | 0 <= j < |listing| ::
        var own, other := distance(from, s.units[listing[k]].place.value),
          distance(from, s.units[listing[j]].place.value);
        own <= other && (j < k ==> own < other)
  {
    var n := |listing| - 1;
    if n > 0 {
      NearestIsFirstNearest(distance, s, from, listing[..n]);
      assert forall j | 0 <= j < n :: listing[..n][j] == listing[j];
    }
  }

  // ----- The calls -----

  /** The database draws a fresh id `d` for the new row. */
  function Create(s: State, a: Actor, d: nat, i: nat, kind: UnitType, unit: Option<nat>): Reply
    requires d !in s.rows
  {
    if !Staff(a) then Err(FORBIDDEN)
    else if IncidentError(s, i).Some? then Err(IncidentError(s, i).value)
    else if unit.Some? && UnitError(s, unit.value, kind).Some? then Err(UnitError(s, unit.value, kind).value)
    else Ok(Opened(s, d, i, kind, unit))
  }

  predicate Available(s: State, kind: UnitType, u: nat) {
    u in s.units && s.units[u].kind == kind && s.units[u].status == AVAILABLE && s.units[u].place.Some?
  }

  /** The units the database lists: available, of the type, with a live location. */
  predicate Listed(s: State, kind: UnitType, listing: seq<nat>) {
    (forall u | u in listing :: Available(s, kind, u))
      && (forall u | u in s.units && Available(s, kind, u) :: u in listing)
  }

  function AutoAssign(distance: (Place, Place) -> real, s: State, a: Actor, d: nat, i: nat, kind: UnitType,
      listing: seq<nat>): Reply
    requires d !in s.rows && Listed(s, kind, listing)
  {
    if !Staff(a) then Err(FORBIDDEN)
    else if IncidentError(s, i).Some? then Err(IncidentError(s, i).value)
    else if s.incidents[i].place.None? then Err(LOCATION_REQUIRED)
    else if listing == [] then Err(NO_AVAILABLE_UNIT)
    else
      var u := listing[Nearest(distance, s, s.incidents[i].place.value, listing)];
      if UnitError(s, u, kind).Some? then Err(UnitError(s, u, kind).value)
      else Ok(Opened(s, d, i, kind, Some(u)))
  }

  function Assign(s: State, a: Actor, d: nat, u: nat): Reply {
    if !Staff(a) then Err(FORBIDDEN)
    else if d !in s.rows then Err(NOT_FOUND)
    else
      var row := s.rows[d];
      if Terminal(row.status) then Err(DISPATCH_CLOSED)
      else if IncidentError(s, row.incident).Some? then Err(IncidentError(s, row.incident).value)
      else if row.unit.Some? then Err(ALREADY_ASSIGNED)
      else if UnitError(s, u, row.kind).Some? then Err(UnitError(s, u, row.kind).value)
      else Ok(WithUnit(WithRow(s, d, Moved(row.(unit := Some(u)), ASSIGNED, s.clock)), u, BUSY))
  }

  /** The stage change both services share, for a row that holds unit `u`. */
  function Advance(s: State, d: nat, u: nat, to: Stage, place: Option<Place>): State
    requires d in s.rows
  {
    var t := WithRow(s, d, Moved(s.rows[d], to, s.clock));
    if to == COMPLETED then ResolveWhenComplete(FreeUnit(t, u, place), s.rows[d].incident) else t
  }

  function Transition(s: State, a: Actor, d: nat, to: Stage): Reply {
    if !Staff(a) then Err(FORBIDDEN)
    else if d !in s.rows then Err(NOT_FOUND)
    else
      var row := s.rows[d];
      if Terminal(row.status) then Ok(s)
      else if to == CANCELLED then
        var t := WithRow(s, d, Moved(row, CANCELLED, s.clock));
        Ok(if row.unit.Some? then FreeUnit(t, row.unit.value, None) else t)
      else if row.unit.None? then Err(UNIT_REQUIRED)
      else if Next(row.status) != Some(to) then Err(INVALID_TRANSITION)
      else Ok(Advance(s, d, row.unit.value, to, None))
  }

  function ServiceTransition(s: State, a: Actor, d: nat, to: Stage): Reply {
    if !a.role.SERVICE? || a.role.kind !in {POLICE, FIRE, AMBULANCE} then Err(FORBIDDEN)
    else if d !in s.rows then Err(NOT_FOUND)
    else
      var row := s.rows[d];
      if row.unit.None? || row.unit.value !in s.units || s.units[row.unit.value].account != Some(a.id)
        || row.kind != a.role.kind
      then Err(NOT_OWNED)
      else if Terminal(row.status) then Ok(s)
      else if to == CANCELLED then Err(CANCEL_FORBIDDEN)
      else if Next(row.status) != Some(to) then Err(INVALID_TRANSITION)
      else Ok(Advance(s, d, row.unit.value, to, a.place))
  }

  function SetUnitStatus(s: State, a: Actor, u: nat, status: UnitStatus): Reply {
    if a.role != SYSTEM_ADMIN then Err(FORBIDDEN)
    else if u !in s.units then Err(UNIT_NOT_FOUND)
    else if s.units[u].status == BUSY && status == OUT_OF_SERVICE then Err(UNIT_ACTIVE)
    else Ok(WithUnit(s, u, status))
  }

  predicate Expires(s: State, trip: nat, row: Row) {
    Active(row) && row.incident in s.incidents && s.incidents[row.incident].trip == trip
    && !Closed(s.incidents[row.incident].status)
  }

  /** The end of a trip cancels the active dispatches of its open incidents; it writes no dispatch event. */
  function EndTrip(s: State, trip: nat): State {
    var freed := set d | d in s.rows && Expires(s, trip, s.rows[d]) && s.rows[d].unit.Some? :: s.rows[d].unit.value;
    State(
      map u | u in s.units :: if u in freed then s.units[u].(status := AVAILABLE) else s.units[u],
      map i | i in s.incidents ::
        if s.incidents[i].trip == trip && !Closed(s.incidents[i].status) then s.incidents[i].(status := DISMISSED)
          else s.incidents[i],
      s.activeTrips - {trip},
      map d | d in s.rows ::
        if Expires(s, trip, s.rows[d]) then s.rows[d].(status := CANCELLED, stamps :=
          s.rows[d].stamps[CANCELLED := s.clock])
        else s.rows[d],
      s.clock)
  }

  datatype Act =
    | DoCreateUnit(u: nat, kind: UnitType, account: Option<nat>, place: Option<Place>)
    | DoMoveUnit(u: nat, position: Place)
    | DoSetUnitStatus(actor: Actor, u: nat, status: UnitStatus)
    | DoStartTrip(trip: nat)
    | DoEndTrip(trip: nat)
    | DoNewIncident(i: nat, trip: nat, place: Option<Place>)
    | DoIncidentMoves(i: nat, next: IncidentStatus)
    | DoCreate(actor: Actor, d: nat, i: nat, kind: UnitType, unit: Option<nat>)
    | DoAutoAssign(actor: Actor, d: nat, i: nat, kind: UnitType, listing: seq<nat>)
    | DoAssign(actor: Actor, d: nat, u: nat)
    | DoTransition(actor: Actor, d: nat, to: Stage)
    | DoServiceTransition(actor: Actor, d: nat, to: Stage)
    | DoTick(ms: nat)

  function Kept(s: State, r: Reply): State { if r.Ok? then r.value else s }

  function Do(distance: (Place, Place) -> real, s: State, act: Act): State {
    match act
    case DoCreateUnit(u, kind, account, place) =>
      if u in s.units then s else s.(units := s.units[u := Unit(kind, AVAILABLE, account, place)])
    case DoMoveUnit(u, place) => if u in s.units then s.(units := s.units[u := s.units[u].(place := Some(place))])
      else s
    case DoSetUnitStatus(a, u, status) => Kept(s, SetUnitStatus(s, a, u, status))
    case DoStartTrip(trip) => s.(activeTrips := s.activeTrips + {trip})
    case DoEndTrip(trip) => EndTrip(s, trip)
    case DoNewIncident(i, trip, place) =>
      if i in s.incidents then s else s.(incidents := s.incidents[i := Incident(trip, OPEN, place, false)])
    case DoIncidentMoves(i, to) =>
      if i in s.incidents && !Closed(s.incidents[i].status)
      then s.(incidents := s.incidents[i := s.incidents[i].(status := to)]) else s
    case DoCreate(a, d, i, kind, unit) => if d in s.rows then s else Kept(s, Create(s, a, d, i, kind, unit))
    case DoAutoAssign(a, d, i, kind, listing) =>
      if d !in s.rows && Listed(s, kind, listing) then Kept(s, AutoAssign(distance, s, a, d, i, kind, listing)) else s
    case DoAssign(a, d, u) => Kept(s, Assign(s, a, d, u))
    case DoTransition(a, d, to) => Kept(s, Transition(s, a, d, to))
    case DoServiceTransition(a, d, to) => Kept(s, ServiceTransition(s, a, d, to))
    case DoTick(ms) => s.(clock := s.clock + ms)
  }

  /** The administrator's override changes whether the unit counts as on a dispatch. */
  predicate Overrides(s: State, act: Act) {
    act.DoSetUnitStatus? && SetUnitStatus(s, act.actor, act.u, act.status).Ok?
    && (s.units[act.u].status == BUSY) != (act.status == BUSY)
  }

  function Run(distance: (Place, Place) -> real, s: State, acts: seq<Act>): State
    decreases |acts|
  {
    if acts == [] then s else Run(distance, Do(distance, s, acts[0]), acts[1..])
  }

  predicate OverrideFree(distance: (Place, Place) -> real, s: State, acts: seq<Act>)
    decreases |acts|
  {
    acts == [] || (!Overrides(s, acts[0]) && OverrideFree(distance, Do(distance, s, acts[0]), acts[1..]))
  }
}
