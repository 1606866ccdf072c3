/**
 When each call on dispatches succeeds, what it then leaves, and why it is refused otherwise; and the whole way of a
 dispatch from ASSIGNED to COMPLETED. Everything here is said of the rows themselves. */
module DispatchCalls {
  import opened Wrappers
  import opened Dispatch
  import opened DispatchHistory
  import DispatchProofs

  predicate OnStaff(a: Actor) { a.role == DISASTER_MANAGER || a.role == SYSTEM_ADMIN }

  predicate Live(s: State, d: nat) {
    d in s.rows && s.rows[d].status != Stage.COMPLETED && s.rows[d].status != CANCELLED
  }

  /** The four steps of a dispatch that holds a unit. */
  predicate Along(from: Stage, to: Stage) {
    || (from == ASSIGNED && to == DISPATCHED)
    || (from == DISPATCHED && to == EN_ROUTE)
    || (from == EN_ROUTE && to == ON_SCENE)
    || (from == ON_SCENE && to == COMPLETED)
  }

  predicate OpenIncident(s: State, i: nat) {
    StillOpen(s, i) && s.incidents[i].trip in s.activeTrips
  }

  predicate Free(s: State, u: nat, kind: UnitType) {
    u in s.units && s.units[u].status == AVAILABLE && s.units[u].kind == kind
  }

  /** The dispatch holds a unit of the service's account, and was requested for its type. */
  predicate Owned(s: State, a: Actor, d: nat) {
    && d in s.rows && s.rows[d].unit.Some? && s.rows[d].unit.value in s.units
    && s.units[s.rows[d].unit.value].account == Some(a.id)
    && a.role == SERVICE(s.rows[d].kind)
  }

  predicate FirstResponder(a: Actor) {
    a.role == SERVICE(POLICE) || a.role == SERVICE(FIRE) || a.role == SERVICE(AMBULANCE)
  }

  predicate OtherActive(s: State, d: nat, i: nat) {
    exists e | e in s.rows :: e != d && s.rows[e].incident == i && Live(s, e)
  }

  predicate StillOpen(s: State, i: nat) {
    i in s.incidents && s.incidents[i].status != RESOLVED && s.incidents[i].status != DISMISSED
  }

  /** Row `d` went to stage `to`: stamped and logged, everything else about it kept, and no other row changed. */
  predicate Went(s: State, t: State, d: nat, to: Stage)
    requires d in s.rows
  {
    && t.rows.Keys == s.rows.Keys && (forall e | e in s.rows && e != d :: t.rows[e] == s.rows[e])
    && t.rows[d].status == to && t.rows[d].unit == s.rows[d].unit
    && t.rows[d].incident == s.rows[d].incident && t.rows[d].kind == s.rows[d].kind
    && t.rows[d].log == s.rows[d].log + [to] && t.rows[d].stamps == s.rows[d].stamps[to := s.clock]
    && t.activeTrips == s.activeTrips && t.clock == s.clock
  }

  /** The unit is free again, at `place` when one is given; no other unit changed. */
  predicate Freed(s: State, t: State, u: nat, place: Option<Place>) {
    && t.units.Keys == s.units.Keys && (forall v | v in s.units && v != u :: t.units[v] == s.units[v])
    && (u in s.units ==>
          && t.units[u].status == AVAILABLE && t.units[u].kind == s.units[u].kind
          && t.units[u].account == s.units[u].account
          && t.units[u].place == if place.Some? then place else s.units[u].place)
  }

  /** The incident is resolved by its fleet exactly when it was open and no other dispatch of it is active. */
  predicate Answered(s: State, t: State, d: nat, i: nat) {
    if StillOpen(s, i) && !OtherActive(s, d, i) then
      && t.incidents.Keys == s.incidents.Keys
      && (forall j | j in s.incidents && j != i :: t.incidents[j] == s.incidents[j])
      && t.incidents[i].status == RESOLVED && t.incidents[i].byFleet
      && t.incidents[i].trip == s.incidents[i].trip && t.incidents[i].place == s.incidents[i].place
    else t.incidents == s.incidents
  }

  /** All that a stage change leaves behind. */
  predicate Changed(s: State, t: State, d: nat, to: Stage, place: Option<Place>)
    requires d in s.rows
  {
    && Went(s, t, d, to)
    && (if (to == COMPLETED || to == CANCELLED) && s.rows[d].unit.Some? then Freed(s, t, s.rows[d].unit.value, place)
        else t.units == s.units)
    && if to == COMPLETED then Answered(s, t, d, s.rows[d].incident) else t.incidents == s.incidents
  }

  lemma AdvanceChanges(s: State, d: nat, u: nat, to: Stage, place: Option<Place>)
    requires d in s.rows && s.rows[d].unit == Some(u) && to != CANCELLED
    ensures Changed(s, Advance(s, d, u, to, place), d, to, place)
  {
    if to == COMPLETED {
      var moved := WithRow(s, d, Moved(s.rows[d], to, s.clock));
      var f := FreeUnit(moved, u, place);
      var i := s.rows[d].incident;
      OthersDecide(s, f, d, i);
      assert Freed(s, f, u, place) && f.rows == moved.rows;
    }
  }

  lemma OthersDecide(s: State, t: State, d: nat, i: nat)
    requires d in s.rows && t.rows.Keys == s.rows.Keys && forall e | e in s.rows && e != d :: t.rows[e] == s.rows[e]
    requires !Active(t.rows[d])
    ensures NoneActive(t, i) <==> !OtherActive(s, d, i)
  {
    if OtherActive(s, d, i) {
      var e :| e in s.rows && e != d && s.rows[e].incident == i && Live(s, e);
      assert t.rows[e] == s.rows[e];
    }
  }

  // ----- Stage changes -----

  /** Staff may cancel any live dispatch, and move one that holds a unit one stage on; nothing else changes a row. */
  lemma TransitionIff(s: State, a: Actor, d: nat, to: Stage)
    requires Live(s, d)
    ensures Transition(s, a, d, to).Ok? <==>
      OnStaff(a) && (to == CANCELLED || (s.rows[d].unit.Some? && Along(s.rows[d].status, to)))
    ensures Transition(s, a, d, to).Ok? ==> Changed(s, Transition(s, a, d, to).value, d, to, None)
  {
    if Transition(s, a, d, to).Ok? && to != CANCELLED { AdvanceChanges(s, d, s.rows[d].unit.value, to, None); }
  }

  /** A service may move its own live dispatch one stage on, never cancel it. */
  lemma ServiceTransitionIff(s: State, a: Actor, d: nat, to: Stage)
    requires Live(s, d)
    ensures ServiceTransition(s, a, d, to).Ok? <==>
      FirstResponder(a) && Owned(s, a, d) && Along(s.rows[d].status, to)
    ensures ServiceTransition(s, a, d, to).Ok? ==> Changed(s, ServiceTransition(s, a, d, to).value, d, to, a.place)
  {
    if ServiceTransition(s, a, d, to).Ok? { AdvanceChanges(s, d, s.rows[d].unit.value, to, a.place); }
  }

  /** Each refusal has its own cause, and a closed dispatch answers those who may see it without any change. */
  lemma TransitionRefusals(s: State, a: Actor, d: nat, to: Stage)
    ensures !Live(s, d) && Transition(s, a, d, to).Ok? ==>
      OnStaff(a) && d in s.rows && Transition(s, a, d, to).value == s
    ensures !Live(s, d) && ServiceTransition(s, a, d, to).Ok? ==>
      FirstResponder(a) && Owned(s, a, d) && ServiceTransition(s, a, d, to).value == s
    ensures Transition(s, a, d, to).Err? ==>
      match Transition(s, a, d, to).error
      case FORBIDDEN => !OnStaff(a)
      case NOT_FOUND => OnStaff(a) && d !in s.rows
      case UNIT_REQUIRED => OnStaff(a) && Live(s, d) && s.rows[d].unit.None? && to != CANCELLED
      case INVALID_TRANSITION =>
        OnStaff(a) && Live(s, d) && s.rows[d].unit.Some? && to != CANCELLED && !Along(s.rows[d].status, to)
      case _ => false
    ensures ServiceTransition(s, a, d, to).Err? ==>
      match ServiceTransition(s, a, d, to).error
      case FORBIDDEN => !FirstResponder(a)
      case NOT_FOUND => FirstResponder(a) && d !in s.rows
      case NOT_OWNED => FirstResponder(a) && d in s.rows && !Owned(s, a, d)
      case CANCEL_FORBIDDEN => FirstResponder(a) && Owned(s, a, d) && Live(s, d) && to == CANCELLED
      case INVALID_TRANSITION =>
        FirstResponder(a) && Owned(s, a, d) && Live(s, d) && to != CANCELLED && !Along(s.rows[d].status, to)
      case _ => false
  {
  }

  // ----- Opening, assigning and the override -----

  /** Only row `d` is new or changed; it holds the unit, which is busy, and no other unit changed. */
  predicate Holding(s: State, t: State, d: nat, unit: Option<nat>) {
    && d in t.rows && t.rows.Keys == s.rows.Keys + {d} && (forall e | e in s.rows && e != d :: t.rows[e] == s.rows[e])
    && t.rows[d].unit == unit
    && (if unit.Some?
        then
          && t.units.Keys == s.units.Keys && unit.value in s.units
          && (forall v | v in s.units && v != unit.value :: t.units[v] == s.units[v])
          && t.units[unit.value] == Unit(s.units[unit.value].kind, BUSY, s.units[unit.value].account,
                                         s.units[unit.value].place)
        else t.units == s.units)
    && t.incidents == s.incidents && t.activeTrips == s.activeTrips && t.clock == s.clock
  }

  /** Staff may open a dispatch for an open incident of an active trip, with a free unit of the type or without one. */
  lemma CreateIff(s: State, a: Actor, d: nat, i: nat, kind: UnitType, unit: Option<nat>)
    requires d !in s.rows
    ensures Create(s, a, d, i, kind, unit).Ok? <==>
      OnStaff(a) && OpenIncident(s, i) && (unit.Some? ==> Free(s, unit.value, kind))
    ensures Create(s, a, d, i, kind, unit).Ok? ==>
      var t := Create(s, a, d, i, kind, unit).value;
      && Holding(s, t, d, unit) && t.rows[d].incident == i && t.rows[d].kind == kind
      && t.rows[d].status == (if unit.Some? then ASSIGNED else REQUESTED) && t.rows[d].log == [t.rows[d].status]
  {
  }

  /** Staff may give a free unit of the type to a live dispatch that holds none, while its incident is open. */
  lemma AssignIff(s: State, a: Actor, d: nat, u: nat)
    ensures Assign(s, a, d, u).Ok? <==>
      && OnStaff(a) && Live(s, d) && s.rows[d].unit.None?
      && OpenIncident(s, s.rows[d].incident) && Free(s, u, s.rows[d].kind)
    ensures Assign(s, a, d, u).Ok? ==>
      var t := Assign(s, a, d, u).value;
      && Holding(s, t, d, Some(u)) && t.rows[d].incident == s.rows[d].incident && t.rows[d].kind == s.rows[d].kind
      && t.rows[d].status == ASSIGNED && t.rows[d].log == s.rows[d].log + [ASSIGNED]
  {
  }

  /** Automatic assignment asks for no unit: staff, an open incident with a place, and some free placed unit of the type
   are enough, and without any of them it is refused. */
  lemma AutoAssignIff(distance: Metric, s: State, a: Actor, d: nat, i: nat, kind: UnitType, listing: seq<nat>)
    requires d !in s.rows && Listed(s, kind, listing)
    ensures AutoAssign(distance, s, a, d, i, kind, listing).Ok? <==>
      && OnStaff(a) && OpenIncident(s, i) && s.incidents[i].place.Some?
      && exists u | u in s.units :: Free(s, u, kind) && s.units[u].place.Some?
    ensures AutoAssign(distance, s, a, d, i, kind, listing).Ok? ==>
      var t := AutoAssign(distance, s, a, d, i, kind, listing).value;
      && Holding(s, t, d, t.rows[d].unit) && t.rows[d].unit.Some? && Free(s, t.rows[d].unit.value, kind)
      && t.rows[d].incident == i && t.rows[d].kind == kind
      && t.rows[d].status == ASSIGNED && t.rows[d].log == [ASSIGNED]
  {
    DispatchProofs.AutoAssignPicksNearest(distance, s, a, d, i, kind, listing);
    assert forall u :: Available(s, kind, u) <==> Free(s, u, kind) && s.units[u].place.Some?;
  }

  /** The override is the system administrator's, and only takes no busy unit out of service. */
  lemma SetUnitStatusIff(s: State, a: Actor, u: nat, status: UnitStatus)
    ensures SetUnitStatus(s, a, u, status).Ok? <==>
      a.role == SYSTEM_ADMIN && u in s.units && (s.units[u].status == BUSY ==> status != OUT_OF_SERVICE)
    ensures SetUnitStatus(s, a, u, status).Ok? ==>
      var t := SetUnitStatus(s, a, u, status).value;
      && t == s.(units := t.units) && t.units.Keys == s.units.Keys
      && (forall v | v in s.units && v != u :: t.units[v] == s.units[v])
      && t.units[u] == Unit(s.units[u].kind, status, s.units[u].account, s.units[u].place)
  {
  }

  /** After the end of a trip none of its incidents is open, no live dispatch belongs to one that was, and the units of
   the dispatches it cancelled, and only those, are free. */
  lemma EndTripCloses(s: State, trip: nat)
    ensures var t := EndTrip(s, trip);
      && t.units.Keys == s.units.Keys && t.incidents.Keys == s.incidents.Keys && t.rows.Keys == s.rows.Keys
      && (forall i | i in s.incidents ::
            t.incidents[i].status == if s.incidents[i].trip != trip || s.incidents[i].status == RESOLVED
                                     then s.incidents[i].status else DISMISSED)
      && (forall d | d in s.rows && s.rows[d].incident in s.incidents && s.incidents[s.rows[d].incident].trip == trip ::
            s.incidents[s.rows[d].incident].status in {OPEN, ACKNOWLEDGED, IN_PROGRESS} ==>
              && !Live(t, d) && (Live(s, d) ==> t.rows[d].status == CANCELLED)
              && (Live(s, d) && s.rows[d].unit.Some? && s.rows[d].unit.value in s.units ==>
                    t.units[s.rows[d].unit.value].status == AVAILABLE))
      && (forall d | d in s.rows && Live(t, d) :: t.rows[d] == s.rows[d])
      && (forall u | u in s.units && t.units[u] != s.units[u] ::
            exists d | d in s.rows :: Live(s, d) && s.rows[d].unit == Some(u) && t.rows[d].status == CANCELLED)
      && trip !in t.activeTrips && t.clock == s.clock
  {
    var t := EndTrip(s, trip);
    forall d | d in s.rows && Expires(s, trip, s.rows[d]) && s.rows[d].unit.Some?
      ensures s.rows[d].unit.value in s.units ==> t.units[s.rows[d].unit.value].status == AVAILABLE
    {
    }
    forall u | u in s.units && t.units[u] != s.units[u]
      ensures exists d | d in s.rows :: Live(s, d) && s.rows[d].unit == Some(u) && t.rows[d].status == CANCELLED
    {
      var d :| d in s.rows && Expires(s, trip, s.rows[d]) && s.rows[d].unit == Some(u);
      assert t.rows[d].status == CANCELLED;
    }
  }

  // ----- The whole way -----

  /** Either writer asks for stage `to` and may. */
  predicate MayAsk(s: State, act: Act, d: nat, to: Stage) {
    || (act.DoTransition? && act.d == d && act.to == to && OnStaff(act.actor))
    || (act.DoServiceTransition? && act.d == d && act.to == to && FirstResponder(act.actor) && Owned(s, act.actor, d))
  }

  lemma OneMove(distance: Metric, s: State, act: Act, d: nat, to: Stage)
    requires Live(s, d) && s.rows[d].unit.Some? && Along(s.rows[d].status, to) && MayAsk(s, act, d, to)
    ensures var t := Do(distance, s, act);
      && (Changed(s, t, d, to, None) || (act.DoServiceTransition? && Changed(s, t, d, to, act.actor.place)))
      && forall a: Actor :: Owned(s, a, d) ==> Owned(t, a, d)
  {
    if act.DoTransition? { TransitionIff(s, act.actor, d, to); } else { ServiceTransitionIff(s, act.actor, d, to); }
  }

  const FULL: seq<Stage> := [REQUESTED, ASSIGNED, DISPATCHED, EN_ROUTE, ON_SCENE, COMPLETED]

  /** A dispatch at the `k`-th stage that holds unit `u`. */
  predicate At(s: State, d: nat, u: nat, k: nat) {
    && d in s.rows && 1 <= k <= 5 && s.rows[d].status == FULL[k] && s.rows[d].unit == Some(u) && u in s.units
    && (k == 5 ==> s.units[u].status == AVAILABLE)
  }

  /** Asked for in turn by either writer, in any mix, the stages take an assigned dispatch to completion and free its
   unit; no other dispatch changes. */
  lemma {:induction false} AssignedToCompleted(distance: Metric, s: State, d: nat, u: nat, acts: seq<Act>, k: nat)
    requires At(s, d, u, k) && |acts| == 5 - k
    requires forall j | 0 <= j < 5 - k :: MayAsk(s, acts[j], d, FULL[k + 1 + j])
    ensures var t := Run(distance, s, acts);
      && At(t, d, u, 5) && t.rows[d].log == s.rows[d].log + FULL[k + 1..]
      && forall e | e in s.rows && e != d :: e in t.rows && t.rows[e] == s.rows[e]
    decreases 5 - k
  {
    if k < 5 {
      var t := Do(distance, s, acts[0]);
      OneMove(distance, s, acts[0], d, FULL[k + 1]);
      forall j | 0 <= j < 4 - k
        ensures MayAsk(t, acts[1..][j], d, FULL[k + 2 + j])
      {
        assert acts[1..][j] == acts[j + 1];
      }
      AssignedToCompleted(distance, t, d, u, acts[1..], k + 1);
      assert FULL[k + 1..] == [FULL[k + 1]] + FULL[k + 2..];
    }
  }

  /** From REQUESTED or ASSIGNED on through the stages in order, stopping anywhere, or cancelled before completion. */
  ghost predicate Lifecycle(log: seq<Stage>) {
    exists first, last :: Passes(log, first, last)
  }

  predicate Passes(log: seq<Stage>, first: nat, last: nat) {
    && first <= 1 && first < last <= 6
    && (log == FULL[first..last] || (last <= 5 && log == FULL[first..last] + [CANCELLED]))
  }

  /** In every run from the empty tables every dispatch's event log is such a lifecycle. */
  lemma {:induction false} LogsAreLifecycles(distance: Metric, acts: seq<Act>, d: nat)
    requires d in Run(distance, INIT, acts).rows
    ensures Lifecycle(Run(distance, INIT, acts).rows[d].log)
  {
    RunsFromEmpty(distance, acts, d, 0);
    PathIsLifecycle(Run(distance, INIT, acts).rows[d].log);
  }

  /** The paths that logs can replay are exactly these. */
  lemma {:induction false} PathIsLifecycle(log: seq<Stage>)
    ensures Path(log) <==> Lifecycle(log)
  {
    if Path(log) { PathPasses(log); }
    if Lifecycle(log) {
      var first: nat, last: nat :| Passes(log, first, last);
      PassesIsPath(log, first, last);
    }
  }

  lemma PassesIsPath(log: seq<Stage>, first: nat, last: nat)
    requires Passes(log, first, last)
    ensures Path(log)
  {
    forall k | 0 <= k < last - first
      ensures log[k] == FULL[first + k]
    {
      assert FULL[first..last][k] == FULL[first + k];
    }
    forall k | 0 < k < |log|
      ensures Follows(log[k - 1], log[k])
    {
      if k < last - first { FullFollows(first + k); }
    }
  }

  lemma FullFollows(k: nat)
    requires 0 < k < 6
    ensures Follows(FULL[k - 1], FULL[k])
  {
  }

  lemma FollowsInFull(last: nat, to: Stage)
    requires 1 <= last <= 6 && Follows(FULL[last - 1], to) && to != CANCELLED
    ensures last < 6 && to == FULL[last]
  {
  }

  lemma LastOf<T>(s: seq<T>, first: nat, last: nat)
    requires first < last <= |s|
    ensures |s[first..last]| == last - first && s[first..last][last - first - 1] == s[last - 1]
  {
  }

  lemma OneLonger<T>(s: seq<T>, first: nat, last: nat)
    requires first <= last < |s|
    ensures s[first..last + 1] == s[first..last] + [s[last]]
  {
  }

  lemma {:induction false} PathPasses(log: seq<Stage>)
    requires Path(log)
    ensures Lifecycle(log)
    decreases |log|
  {
    if |log| == 1 {
      var first := if log[0] == REQUESTED then 0 else 1;
      assert log == FULL[first..first + 1];
      assert Passes(log, first, first + 1);
    } else {
      var n := |log| - 1;
      assert forall k | 0 <= k < n :: log[..n][k] == log[k];
      PathPasses(log[..n]);
      var first: nat, last: nat :| Passes(log[..n], first, last);
      assert log == log[..n] + [log[n]] && Follows(log[..n][n - 1], log[n]);
      assert log[n] == CANCELLED || log[..n] == FULL[first..last];
      if log[n] == CANCELLED {
        assert Passes(log, first, last);
      } else {
        LastOf(FULL, first, last);
        FollowsInFull(last, log[n]);
        OneLonger(FULL, first, last);
        assert Passes(log, first, last + 1);
      }
    }
  }
}
