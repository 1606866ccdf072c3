/**
 What every run of the dispatch calls keeps.
 Exclusivity: BUSY units and the active dispatches that hold a unit correspond one to one.
 History: the event log is a path of the lifecycle and the time stamps follow it.
 Fleet completion: an incident it resolved never has an active dispatch again.
 */
module DispatchProofs {
  import opened Wrappers
  import opened Dispatch

  type Metric = (Place, Place) -> real

  predicate Holds(s: State, d: nat, u: nat) { d in s.rows && Active(s.rows[d]) && s.rows[d].unit == Some(u) }

  ghost predicate Serves(s: State, u: nat) { exists d :: Holds(s, d, u) }

  ghost predicate Exclusive(s: State) {
    && (forall d, u :: Holds(s, d, u) ==>
      u in s.units && s.units[u].status == BUSY && s.units[u].kind == s.rows[d].kind)
    && (forall d, e, u :: Holds(s, d, u) && Holds(s, e, u) ==> d == e)
    && (forall u :: u in s.units && s.units[u].status == BUSY ==> Serves(s, u))
  }

  // ----- Exclusivity -----

  /** Handing an available unit to a row that holds none keeps the correspondence. */
  lemma {:induction false} TakingKeepsExclusive(s: State, d: nat, row: Row, u: nat)
    requires Exclusive(s) && UnitError(s, u, row.kind).None?
    requires forall v :: !Holds(s, d, v)
    requires row.unit == Some(u) && Active(row)
    ensures Exclusive(WithUnit(WithRow(s, d, row), u, BUSY))
  {
    var t := WithUnit(WithRow(s, d, row), u, BUSY);
    assert Holds(t, d, u);
    assert forall e, v :: e != d ==> (Holds(t, e, v) <==> Holds(s, e, v));
    assert forall e :: !Holds(s, e, u);
    forall v | v in t.units && t.units[v].status == BUSY
      ensures Serves(t, v)
    {
      if v != u {
        assert Serves(s, v);
        var e :| Holds(s, e, v);
        assert Holds(t, e, v);
      }
    }
  }

  /** Closing a row and freeing the unit it holds, if any, keeps the correspondence. */
  lemma {:induction false} ClosingKeepsExclusive(s: State, d: nat, row: Row, place: Option<Place>)
    requires Exclusive(s) && d in s.rows && Active(s.rows[d])
    requires !Active(row)
    ensures Exclusive(if s.rows[d].unit.Some? then FreeUnit(WithRow(s, d, row), s.rows[d].unit.value, place)
            else WithRow(s, d, row))
  {
    var unit := s.rows[d].unit;
    var t := if unit.Some? then FreeUnit(WithRow(s, d, row), unit.value, place) else WithRow(s, d, row);
    assert forall e, v :: e != d ==> (Holds(t, e, v) <==> Holds(s, e, v));
    assert forall v :: !Holds(t, d, v);
    if unit.Some? { assert Holds(s, d, unit.value); }
    forall v | v in t.units && t.units[v].status == BUSY
      ensures Serves(t, v)
    {
      assert Serves(s, v);
      var e :| Holds(s, e, v);
      assert Holds(t, e, v);
    }
  }

  /** Rows that hold the same units, and units of the same type and business, are all that exclusivity reads. */
  lemma {:induction false} SameHoldersKeepExclusive(s: State, t: State)
    requires Exclusive(s)
    requires forall d, u :: Holds(t, d, u) <==> Holds(s, d, u)
    requires forall d :: d in t.rows && d in s.rows ==> t.rows[d].kind == s.rows[d].kind
    requires forall u :: u in s.units ==> u in t.units && t.units[u].kind == s.units[u].kind
    requires forall u :: u in t.units ==> ((t.units[u].status == BUSY) == (u in s.units && s.units[u].status == BUSY))
    ensures Exclusive(t)
  {
    forall v | v in t.units && t.units[v].status == BUSY
      ensures Serves(t, v)
    {
      assert Serves(s, v);
      var e :| Holds(s, e, v);
      assert Holds(t, e, v);
    }
  }

  lemma {:induction false} OpenedKeepsExclusive(s: State, d: nat, i: nat, kind: UnitType, unit: Option<nat>)
    requires Exclusive(s) && d !in s.rows
    requires unit.Some? ==> UnitError(s, unit.value, kind).None?
    ensures Exclusive(Opened(s, d, i, kind, unit))
  {
    var t := Opened(s, d, i, kind, unit);
    if unit.Some? {
      TakingKeepsExclusive(s, d, t.rows[d], unit.value);
    } else {
      SameHoldersKeepExclusive(s, t);
    }
  }

  lemma {:induction false} AdvanceKeepsExclusive(s: State, d: nat, u: nat, to: Stage, place: Option<Place>)
    requires Exclusive(s) && Holds(s, d, u) && (Terminal(to) ==> to == COMPLETED)
    ensures Exclusive(Advance(s, d, u, to, place))
  {
    var moved := Moved(s.rows[d], to, s.clock);
    if to == COMPLETED {
      ClosingKeepsExclusive(s, d, moved, place);
      SameHoldersKeepExclusive(FreeUnit(WithRow(s, d, moved), u, place), Advance(s, d, u, to, place));
    } else {
      SameHoldersKeepExclusive(s, WithRow(s, d, moved));
    }
  }

  lemma {:induction false} TransitionKeepsExclusive(s: State, a: Actor, d: nat, to: Stage)
    requires Exclusive(s)
    ensures Exclusive(Kept(s, Transition(s, a, d, to)))
  {
    if Transition(s, a, d, to).Ok? && Active(s.rows[d]) {
      var row := s.rows[d];
      if to == CANCELLED {
        ClosingKeepsExclusive(s, d, Moved(row, CANCELLED, s.clock), None);
      } else {
        AdvanceKeepsExclusive(s, d, row.unit.value, to, None);
      }
    }
  }

  lemma {:induction false} ServiceTransitionKeepsExclusive(s: State, a: Actor, d: nat, to: Stage)
    requires Exclusive(s)
    ensures Exclusive(Kept(s, ServiceTransition(s, a, d, to)))
  {
    if ServiceTransition(s, a, d, to).Ok? && Active(s.rows[d]) {
      AdvanceKeepsExclusive(s, d, s.rows[d].unit.value, to, a.place);
    }
  }

  lemma {:induction false} EndTripKeepsExclusive(s: State, trip: nat)
    requires Exclusive(s)
    ensures Exclusive(EndTrip(s, trip))
  {
    var t := EndTrip(s, trip);
    forall d, u | Holds(t, d, u)
      ensures Holds(s, d, u) && u in t.units && t.units[u] == s.units[u]
    {
      assert Holds(s, d, u);
      forall e | e in s.rows && Expires(s, trip, s.rows[e]) && s.rows[e].unit.Some?
        ensures s.rows[e].unit.value != u
      {
        assert Holds(s, e, s.rows[e].unit.value);
      }
    }
    forall u | u in t.units && t.units[u].status == BUSY
      ensures Serves(t, u)
    {
      assert Serves(s, u);
      var d :| Holds(s, d, u);
      assert Holds(t, d, u);
    }
  }

  lemma {:induction false} OverrideBreaksExclusive(s: State, a: Actor, u: nat, status: UnitStatus)
    requires Exclusive(s)
    ensures Exclusive(Kept(s, SetUnitStatus(s, a, u, status))) <==> !Overrides(s, DoSetUnitStatus(a, u, status))
  {
    var t := Kept(s, SetUnitStatus(s, a, u, status));
    assert forall d, v :: Holds(t, d, v) <==> Holds(s, d, v);
    if !Overrides(s, DoSetUnitStatus(a, u, status)) {
      SameHoldersKeepExclusive(s, t);
    } else if s.units[u].status == BUSY {
      assert Serves(s, u);
      var d :| Holds(s, d, u);
      assert Holds(t, d, u);
    } else {
      assert t.units[u].status == BUSY && !Serves(t, u);
    }
  }

  lemma {:induction false} AssignKeepsExclusive(s: State, a: Actor, d: nat, u: nat)
    requires Exclusive(s)
    ensures Exclusive(Kept(s, Assign(s, a, d, u)))
  {
    if Assign(s, a, d, u).Ok? {
      TakingKeepsExclusive(s, d, Moved(s.rows[d].(unit := Some(u)), ASSIGNED, s.clock), u);
    }
  }

  lemma {:induction false} CreationKeepsExclusive(distance: Metric, s: State, act: Act)
    requires Exclusive(s) && (act.DoCreate? || act.DoAutoAssign?)
    ensures Exclusive(Do(distance, s, act))
  {
    if Do(distance, s, act) != s {
      match act {
        case DoCreate(_, d, i, kind, unit) => OpenedKeepsExclusive(s, d, i, kind, unit);
        case DoAutoAssign(_, d, i, kind, listing) =>
          OpenedKeepsExclusive(s, d, i, kind, Some(listing[Nearest(distance, s, s.incidents[i].place.value, listing)]));
      }
    }
  }

  /** The override is the one call that breaks the correspondence, and it always does. */
  lemma {:induction false} ExclusiveUnlessOverridden(distance: Metric, s: State, act: Act)
    requires Exclusive(s)
    ensures Exclusive(Do(distance, s, act)) <==> !Overrides(s, act)
  {
    var t := Do(distance, s, act);
    match act
    case DoCreate(_, _, _, _, _) => CreationKeepsExclusive(distance, s, act);
    case DoAutoAssign(_, _, _, _, _) => CreationKeepsExclusive(distance, s, act);
    case DoAssign(a, d, u) => AssignKeepsExclusive(s, a, d, u);
    case DoTransition(a, d, to) => TransitionKeepsExclusive(s, a, d, to);
    case DoServiceTransition(a, d, to) => ServiceTransitionKeepsExclusive(s, a, d, to);
    case DoEndTrip(trip) => EndTripKeepsExclusive(s, trip);
    case DoSetUnitStatus(a, u, status) => OverrideBreaksExclusive(s, a, u, status);
    case DoCreateUnit(_, _, _, _) => SameHoldersKeepExclusive(s, t);
    case DoMoveUnit(_, _) => SameHoldersKeepExclusive(s, t);
    case DoStartTrip(_) => SameHoldersKeepExclusive(s, t);
    case DoNewIncident(_, _, _) => SameHoldersKeepExclusive(s, t);
    case DoIncidentMoves(_, _) => SameHoldersKeepExclusive(s, t);
    case DoTick(_) => SameHoldersKeepExclusive(s, t);
  }

  /** Over every run without an override no unit serves two active dispatches and none is leaked. */
  lemma {:induction false} RunsAreExclusive(distance: Metric, s: State, acts: seq<Act>)
    requires Exclusive(s) && OverrideFree(distance, s, acts)
    ensures Exclusive(Run(distance, s, acts))
    decreases |acts|
  {
    if acts != [] {
      ExclusiveUnlessOverridden(distance, s, acts[0]);
      RunsAreExclusive(distance, Do(distance, s, acts[0]), acts[1..]);
    }
  }

  /** The correspondence holds before every call and at the end. */
  ghost predicate AlwaysExclusive(distance: Metric, s: State, acts: seq<Act>)
    decreases |acts|
  {
    Exclusive(s) && (acts != [] ==> AlwaysExclusive(distance, Do(distance, s, acts[0]), acts[1..]))
  }

  lemma {:induction false} AlwaysExclusiveIffOverrideFree(distance: Metric, s: State, acts: seq<Act>)
    requires Exclusive(s)
    ensures AlwaysExclusive(distance, s, acts) <==> OverrideFree(distance, s, acts)
    decreases |acts|
  {
    if acts != [] {
      var t := Do(distance, s, acts[0]);
      ExclusiveUnlessOverridden(distance, s, acts[0]);
      if Exclusive(t) { AlwaysExclusiveIffOverrideFree(distance, t, acts[1..]); }
    }
  }

  /** From the empty tables on, the correspondence holds throughout a run exactly when the run has no such override. */
  lemma {:induction false} RunsFromEmptyAreExclusive(distance: Metric, acts: seq<Act>)
    ensures AlwaysExclusive(distance, INIT, acts) <==> OverrideFree(distance, INIT, acts)
    ensures OverrideFree(distance, INIT, acts) ==> Exclusive(Run(distance, INIT, acts))
  {
    AlwaysExclusiveIffOverrideFree(distance, INIT, acts);
    if OverrideFree(distance, INIT, acts) { RunsAreExclusive(distance, INIT, acts); }
  }

  // ----- Automatic assignment -----

  /** It succeeds exactly when staff ask, the incident is open and placed, and some fitting unit is free; and then the
   new dispatch holds a unit that no fitting unit is nearer than. */
  lemma {:induction false} AutoAssignPicksNearest(distance: Metric, s: State, a: Actor, d: nat, i: nat, kind: UnitType,
      listing: seq<nat>)
    requires d !in s.rows && Listed(s, kind, listing)
    ensures AutoAssign(distance, s, a, d, i, kind, listing).Ok? <==>
      Staff(a) && IncidentError(s, i).None? && s.incidents[i].place.Some? && exists u :: Available(s, kind, u)
    ensures AutoAssign(distance, s, a, d, i, kind, listing).Ok? ==>
      var t := AutoAssign(distance, s, a, d, i, kind, listing).value;
      && d in t.rows && t.rows[d].unit.Some? && Holds(t, d, t.rows[d].unit.value)
      && Available(s, kind, t.rows[d].unit.value)
      && forall u :: Available(s, kind, u) ==>
           distance(s.incidents[i].place.value, s.units[t.rows[d].unit.value].place.value)
           <= distance(s.incidents[i].place.value, s.units[u].place.value)
  {
    if exists u :: Available(s, kind, u) {
      var u :| Available(s, kind, u);
      assert u in listing;
    }
    if listing != [] {
      assert Available(s, kind, listing[0]);
    }
    if IncidentError(s, i).None? && s.incidents[i].place.Some? && listing != [] {
      var from := s.incidents[i].place.value;
      NearestIsFirstNearest(distance, s, from, listing);
      var chosen := listing[Nearest(distance, s, from, listing)];
      forall u | Available(s, kind, u)
        ensures distance(from, s.units[chosen].place.value) <= distance(from, s.units[u].place.value)
      {
        var j :| 0 <= j < |listing| && listing[j] == u;
      }
    }
  }
}
