/**
 The event log, the time stamps and the closing of incidents, over every run of the dispatch calls.
 */
module DispatchHistory {
  import opened Wrappers
  import opened Dispatch

  type Metric = (Place, Place) -> real

  // ----- Paths of the lifecycle -----

  function Rank(s: Stage): (r: nat)
    ensures r <= 5
  {
    match s
    case REQUESTED => 0
    case ASSIGNED => 1
    case DISPATCHED => 2
    case EN_ROUTE => 3
    case ON_SCENE => 4
    case COMPLETED => 5
    case CANCELLED => 5
  }

  predicate Starts(s: Stage) { s == REQUESTED || s == ASSIGNED }

  predicate Follows(from: Stage, to: Stage) {
    (to == CANCELLED && !Terminal(from)) || (from == REQUESTED && to == ASSIGNED) || Next(from) == Some(to)
  }

  /** The status that an event log by itself leads to. */
  function Replay(log: seq<Stage>): Option<Stage> {
    if log == [] then None
    else
      var last, before := log[|log| - 1], Replay(log[..|log| - 1]);
      if if |log| == 1 then Starts(last) else before.Some? && Follows(before.value, last) then Some(last) else None
  }

  lemma {:induction false} ReplayAppends(log: seq<Stage>, to: Stage)
    requires Replay(log).Some? && Follows(Replay(log).value, to)
    ensures Replay(log + [to]) == Some(to)
  {
    assert (log + [to])[..|log|] == log;
  }

  predicate Path(log: seq<Stage>) {
    log != [] && Starts(log[0]) && forall k :: 0 < k < |log| ==> Follows(log[k - 1], log[k])
  }

  /** A log can be replayed exactly when it is a path of the lifecycle, and then it has at most six events. */
  lemma {:induction false} ReplayIsPath(log: seq<Stage>)
    ensures Replay(log).Some? <==> Path(log)
    ensures Replay(log).Some? ==> Replay(log).value == log[|log| - 1] && |log| <= Rank(Replay(log).value) + 1 <= 6
  {
    if |log| > 1 {
      var n := |log| - 1;
      ReplayIsPath(log[..n]);
      if Path(log) {
        assert forall k :: 0 <= k < n ==> log[..n][k] == log[k];
        assert Path(log[..n]);
      } else if Path(log[..n]) {
        assert forall k :: 0 <= k < n ==> log[..n][k] == log[k];
        assert !Follows(log[n - 1], log[n]);
      }
    }
  }

  // ----- The history of one row -----

  /** The last stage a row reached before any cancellation. */
  function Reached(row: Row): Stage
    requires Replay(row.log).Some? && row.log != []
  {
    var end := Replay(row.log).value;
    if end != CANCELLED then end
    else if Replay(row.log[..|row.log| - 1]).Some? then Replay(row.log[..|row.log| - 1]).value else end
  }

  ghost predicate History(row: Row, now: nat) {
    && row.log != [] && Replay(row.log).Some?
    && (row.status == Replay(row.log).value || (row.status == CANCELLED && !Terminal(Replay(row.log).value)))
    && Reached(row) != CANCELLED
    && (row.unit.None? <==> Reached(row) == REQUESTED)
    && (forall x :: x in row.stamps <==> if x == CANCELLED then row.status == CANCELLED
      else Rank(x) <= Rank(Reached(row)))
    && (forall x, y :: x in row.stamps && y in row.stamps && Rank(x) <= Rank(y) ==>
      row.stamps[x] <= row.stamps[y] <= now)
  }

  ghost predicate Histories(s: State) { forall d :: d in s.rows ==> History(s.rows[d], s.clock) }

  /** Moving an active row one stage on along the lifecycle extends its history. */
  lemma {:induction false} MovedKeepsHistory(row: Row, unit: Option<nat>, to: Stage, now: nat)
    requires History(row, now) && Active(row) && Follows(row.status, to)
    requires if row.status == REQUESTED && to == ASSIGNED then unit.Some? else unit == row.unit
    ensures History(Moved(row.(unit := unit), to, now), now)
    ensures Replay(Moved(row.(unit := unit), to, now).log) == Some(to)
  {
    var moved := Moved(row.(unit := unit), to, now);
    ReplayAppends(row.log, to);
    assert moved.log[..|row.log|] == row.log;
    assert Reached(row) == row.status;
    assert Reached(moved) == if to == CANCELLED then row.status else to;
  }

  lemma {:induction false} OpenedHasHistory(s: State, d: nat, i: nat, kind: UnitType, unit: Option<nat>)
    requires unit.Some? ==> unit.value in s.units
    ensures History(Opened(s, d, i, kind, unit).rows[d], s.clock)
    ensures Replay(Opened(s, d, i, kind, unit).rows[d].log) == Some(Opened(s, d, i, kind, unit).rows[d].status)
  {
    var row := Opened(s, d, i, kind, unit).rows[d];
    assert row.log[..0] == [];
    assert Replay(row.log) == Some(row.status);
  }

  lemma {:induction false} LaterKeepsHistory(row: Row, now: nat, later: nat)
    requires History(row, now) && now <= later
    ensures History(row, later)
  {
  }

  predicate Ends(s: State, act: Act, d: nat) { act.DoEndTrip? && d in s.rows && Expires(s, act.trip, s.rows[d]) }

  /** The end of a trip stamps the rows it cancels but logs nothing. */
  lemma {:induction false} EndedKeepsHistory(row: Row, now: nat)
    requires History(row, now) && Active(row)
    ensures var t := row.(status := CANCELLED, stamps := row.stamps[CANCELLED := now]);
      History(t, now) && Replay(t.log) != Some(t.status)
  {
  }

  /** What one call may do to a row: nothing, one step of the lifecycle with its event, or the end of its trip. */
  predicate Steps(before: Row, after: Row, now: nat) {
    || after == before
    || (Active(before) && Follows(before.status, after.status)
        && after == Moved(before.(unit := after.unit), after.status, now)
        && if before.status == REQUESTED && after.status == ASSIGNED then after.unit.Some?
           else after.unit == before.unit)
  }

  lemma {:induction false} AdvanceWritesOneRow(s: State, d: nat, u: nat, to: Stage, place: Option<Place>)
    requires d in s.rows
    ensures Advance(s, d, u, to, place).rows == s.rows[d := Moved(s.rows[d], to, s.clock)]
    ensures Advance(s, d, u, to, place).clock == s.clock
  {
  }

  /** Either transition method, of the dispatch service or of the emergency service. */
  predicate OneTransition(s: State, r: Reply, d: nat, to: Stage, t: State) {
    t == Kept(s, r) && (t == s ||
      (d in s.rows && Active(s.rows[d]) && Follows(s.rows[d].status, to) && !Starts(to) && t.clock == s.clock
       && t.rows == s.rows[d := Moved(s.rows[d], to, s.clock)]))
  }

  lemma {:induction false} TransitionsStep(s: State, a: Actor, d: nat, to: Stage)
    ensures OneTransition(s, Transition(s, a, d, to), d, to, Kept(s, Transition(s, a, d, to)))
    ensures OneTransition(s, ServiceTransition(s, a, d, to), d, to, Kept(s, ServiceTransition(s, a, d, to)))
  {
    if d in s.rows && s.rows[d].unit.Some? {
      AdvanceWritesOneRow(s, d, s.rows[d].unit.value, to, None);
      AdvanceWritesOneRow(s, d, s.rows[d].unit.value, to, a.place);
    }
  }

  lemma {:induction false} AssignSteps(s: State, a: Actor, e: nat, u: nat, d: nat)
    requires Histories(s) && d in s.rows
    ensures d in Kept(s, Assign(s, a, e, u)).rows
    ensures Steps(s.rows[d], Kept(s, Assign(s, a, e, u)).rows[d], s.clock)
  {
    AssignWritesOneRow(s, a, e, u);
    UnheldIsRequested(s.rows[d], s.clock);
  }

  lemma {:induction false} AssignWritesOneRow(s: State, a: Actor, d: nat, u: nat)
    ensures var t := Kept(s, Assign(s, a, d, u));
      t.rows == s.rows ||
      (d in s.rows && Active(s.rows[d]) && s.rows[d].unit.None?
       && t.rows == s.rows[d := Moved(s.rows[d].(unit := Some(u)), ASSIGNED, s.clock)])
  {
  }

  lemma {:induction false} UnheldIsRequested(row: Row, now: nat)
    requires History(row, now)
    ensures Active(row) && row.unit.None? ==> row.status == REQUESTED
  {
  }

  lemma {:induction false} OtherCallsKeepRow(distance: Metric, s: State, act: Act, d: nat)
    requires d in s.rows && !Ends(s, act, d)
    requires !act.DoAssign? && !act.DoTransition? && !act.DoServiceTransition?
    ensures d in Do(distance, s, act).rows && Do(distance, s, act).rows[d] == s.rows[d]
  {
  }

  /** Every call moves every row along the lifecycle, whichever of the two services makes it. */
  lemma {:induction false} CallsStep(distance: Metric, s: State, act: Act, d: nat)
    requires Histories(s) && d in s.rows && !Ends(s, act, d)
    ensures d in Do(distance, s, act).rows
    ensures Steps(s.rows[d], Do(distance, s, act).rows[d], s.clock)
  {
    match act
    case DoAssign(a, e, u) => AssignSteps(s, a, e, u, d);
    case DoTransition(a, e, to) => TransitionsStep(s, a, e, to);
    case DoServiceTransition(a, e, to) => TransitionsStep(s, a, e, to);
    case _ => OtherCallsKeepRow(distance, s, act, d);
  }

  /** A closed dispatch is never written again. */
  lemma {:induction false} ClosedIsFinal(distance: Metric, s: State, act: Act, d: nat)
    requires d in s.rows && !Active(s.rows[d])
    ensures d in Do(distance, s, act).rows && Do(distance, s, act).rows[d] == s.rows[d]
  {
  }

  lemma {:induction false} NewRowHasHistory(distance: Metric, s: State, act: Act, d: nat)
    requires d !in s.rows && d in Do(distance, s, act).rows
    ensures History(Do(distance, s, act).rows[d], s.clock)
    ensures Replay(Do(distance, s, act).rows[d].log) == Some(Do(distance, s, act).rows[d].status)
  {
    match act
    case DoCreate(_, _, i, kind, unit) => OpenedHasHistory(s, d, i, kind, unit);
    case DoAutoAssign(_, _, i, kind, listing) =>
      OpenedHasHistory(s, d, i, kind, Some(listing[Nearest(distance, s, s.incidents[i].place.value, listing)]));
    case _ =>
  }

  lemma {:induction false} CallKeepsHistory(distance: Metric, s: State, act: Act, d: nat)
    requires Histories(s) && d in Do(distance, s, act).rows
    ensures History(Do(distance, s, act).rows[d], s.clock)
  {
    var t := Do(distance, s, act);
    if d !in s.rows {
      NewRowHasHistory(distance, s, act, d);
    } else if Ends(s, act, d) {
      EndedKeepsHistory(s.rows[d], s.clock);
    } else {
      CallsStep(distance, s, act, d);
      if t.rows[d] != s.rows[d] {
        MovedKeepsHistory(s.rows[d], t.rows[d].unit, t.rows[d].status, s.clock);
      }
    }
  }

  lemma {:induction false} ClockIsMonotone(distance: Metric, s: State, act: Act)
    ensures s.clock <= Do(distance, s, act).clock
  {
  }

  lemma {:induction false} CallsKeepHistories(distance: Metric, s: State, act: Act)
    requires Histories(s)
    ensures Histories(Do(distance, s, act))
  {
    ClockIsMonotone(distance, s, act);
    forall d | d in Do(distance, s, act).rows
      ensures History(Do(distance, s, act).rows[d], Do(distance, s, act).clock)
    {
      CallKeepsHistory(distance, s, act, d);
      LaterKeepsHistory(Do(distance, s, act).rows[d], s.clock, Do(distance, s, act).clock);
    }
  }

  /** Over every run each row's log is a path of at most six events and its stamps follow the stages it reached. */
  lemma {:induction false} RunsKeepHistories(distance: Metric, s: State, acts: seq<Act>)
    requires Histories(s)
    ensures Histories(Run(distance, s, acts))
    ensures forall d :: d in Run(distance, s, acts).rows ==>
      Path(Run(distance, s, acts).rows[d].log) && |Run(distance, s, acts).rows[d].log| <= 6
    decreases |acts|
  {
    if acts == [] {
      forall d | d in s.rows
        ensures Path(s.rows[d].log) && |s.rows[d].log| <= 6
      {
        ReplayIsPath(s.rows[d].log);
      }
    } else {
      CallsKeepHistories(distance, s, acts[0]);
      RunsKeepHistories(distance, Do(distance, s, acts[0]), acts[1..]);
    }
  }

  predicate EndedIn(distance: Metric, s: State, acts: seq<Act>, d: nat)
    decreases |acts|
  {
    acts != [] && (Ends(s, acts[0], d) || EndedIn(distance, Do(distance, s, acts[0]), acts[1..], d))
  }

  predicate Told(s: State, d: nat) { d in s.rows ==> Replay(s.rows[d].log) == Some(s.rows[d].status) }

  lemma {:induction false} ClosedIsFinalForever(distance: Metric, s: State, acts: seq<Act>, d: nat)
    requires d in s.rows && !Active(s.rows[d])
    ensures d in Run(distance, s, acts).rows && Run(distance, s, acts).rows[d] == s.rows[d]
    decreases |acts|
  {
    if acts != [] {
      ClosedIsFinal(distance, s, acts[0], d);
      ClosedIsFinalForever(distance, Do(distance, s, acts[0]), acts[1..], d);
    }
  }

  lemma {:induction false} EndingIsUntold(s: State, trip: nat, d: nat)
    requires Histories(s) && d in s.rows && Expires(s, trip, s.rows[d])
    ensures var t := EndTrip(s, trip); d in t.rows && !Active(t.rows[d]) && !Told(t, d)
  {
    EndedKeepsHistory(s.rows[d], s.clock);
  }

  lemma {:induction false} OneCallTells(distance: Metric, s: State, act: Act, d: nat)
    requires Histories(s) && Told(s, d)
    ensures var t := Do(distance, s, act);
      Histories(t) && if Ends(s, act, d) then d in t.rows && !Active(t.rows[d]) && !Told(t, d) else Told(t, d)
  {
    CallsKeepHistories(distance, s, act);
    if Ends(s, act, d) {
      EndingIsUntold(s, act.trip, d);
    } else {
      OneCallIsTold(distance, s, act, d);
    }
  }

  /** A dispatch's status is the replay of its event log exactly when no end of a trip cancelled it. */
  lemma {:induction false} StatusIsReplayUnlessTripEnded(distance: Metric, s: State, acts: seq<Act>, d: nat)
    requires Histories(s) && Told(s, d)
    ensures Told(Run(distance, s, acts), d) <==> !EndedIn(distance, s, acts, d)
    decreases |acts|
  {
    if acts != [] {
      OneCallTells(distance, s, acts[0], d);
      var t := Do(distance, s, acts[0]);
      if Ends(s, acts[0], d) {
        ClosedIsFinalForever(distance, t, acts[1..], d);
      } else {
        StatusIsReplayUnlessTripEnded(distance, t, acts[1..], d);
      }
    }
  }

  lemma {:induction false} OneCallIsTold(distance: Metric, s: State, act: Act, d: nat)
    requires Histories(s) && Told(s, d) && !Ends(s, act, d)
    ensures Told(Do(distance, s, act), d)
  {
    var t := Do(distance, s, act);
    if d in s.rows {
      CallsStep(distance, s, act, d);
      if t.rows[d] != s.rows[d] {
        MovedKeepsHistory(s.rows[d], t.rows[d].unit, t.rows[d].status, s.clock);
      }
    } else if d in t.rows {
      NewRowHasHistory(distance, s, act, d);
    }
  }

  // ----- Fleet completion -----

  predicate FleetClosed(s: State, i: nat) { i in s.incidents && s.incidents[i].byFleet }

  ghost predicate FleetInv(s: State) {
    && (forall d :: d in s.rows ==> s.rows[d].incident in s.incidents)
    && (forall i :: FleetClosed(s, i) ==> s.incidents[i].status == RESOLVED && NoneActive(s, i))
  }

  /** The completion of a dispatch resolves its open incident exactly when no other dispatch of it is active. */
  lemma {:induction false} LastCompletionResolves(s: State, d: nat, u: nat, place: Option<Place>)
    requires d in s.rows && s.rows[d].incident in s.incidents && !Closed(s.incidents[s.rows[d].incident].status)
    ensures var i, t := s.rows[d].incident, Advance(s, d, u, COMPLETED, place);
      if forall e :: e in s.rows && e != d && s.rows[e].incident == i ==> !Active(s.rows[e])
      then t.incidents[i].status == RESOLVED && FleetClosed(t, i)
      else t.incidents == s.incidents
  {
    var t := WithRow(s, d, Moved(s.rows[d], COMPLETED, s.clock));
    var f := FreeUnit(t, u, place);
    assert forall e :: e in s.rows && e != d ==> f.rows[e] == s.rows[e];
    assert !Active(f.rows[d]);
  }

  /** What a call does to the rows and incidents, seen from a closed incident. */
  ghost predicate LeavesClosed(s: State, t: State) {
    && (forall i :: i in s.incidents ==> i in t.incidents)
    && (forall i :: i in s.incidents && Closed(s.incidents[i].status) ==> t.incidents[i] == s.incidents[i])
    && (forall i :: FleetClosed(t, i) && !FleetClosed(s, i) ==> t.incidents[i].status == RESOLVED && NoneActive(t, i))
    && (forall i :: FleetClosed(s, i) ==> FleetClosed(t, i))
    && (forall d :: d in t.rows && Active(t.rows[d]) && !(d in s.rows && Active(s.rows[d])) ==>
          t.rows[d].incident in s.incidents && !Closed(s.incidents[t.rows[d].incident].status))
    && (forall d :: d in t.rows && d in s.rows ==> t.rows[d].incident == s.rows[d].incident)
    && (forall d :: d in t.rows ==> t.rows[d].incident in t.incidents)
  }

  lemma {:induction false} AdvanceLeavesClosed(s: State, d: nat, u: nat, to: Stage, place: Option<Place>)
    requires FleetInv(s) && d in s.rows && Active(s.rows[d])
    ensures LeavesClosed(s, Advance(s, d, u, to, place))
  {
    AdvanceWritesOneRow(s, d, u, to, place);
  }

  lemma {:induction false} CancelLeavesClosed(s: State, d: nat)
    requires FleetInv(s) && d in s.rows
    ensures var t := WithRow(s, d, Moved(s.rows[d], CANCELLED, s.clock));
      LeavesClosed(s, if s.rows[d].unit.Some? then FreeUnit(t, s.rows[d].unit.value, None) else t)
  {
  }

  lemma {:induction false} TransitionLeavesClosed(s: State, a: Actor, d: nat, to: Stage)
    requires FleetInv(s)
    ensures LeavesClosed(s, Kept(s, Transition(s, a, d, to)))
  {
    if Transition(s, a, d, to).Ok? && Active(s.rows[d]) {
      if to == CANCELLED {
        CancelLeavesClosed(s, d);
      } else {
        AdvanceLeavesClosed(s, d, s.rows[d].unit.value, to, None);
      }
    }
  }

  lemma {:induction false} ServiceTransitionLeavesClosed(s: State, a: Actor, d: nat, to: Stage)
    requires FleetInv(s)
    ensures LeavesClosed(s, Kept(s, ServiceTransition(s, a, d, to)))
  {
    if ServiceTransition(s, a, d, to).Ok? && Active(s.rows[d]) {
      AdvanceLeavesClosed(s, d, s.rows[d].unit.value, to, a.place);
    }
  }

  lemma {:induction false} OpenedLeavesClosed(s: State, d: nat, i: nat, kind: UnitType, unit: Option<nat>)
    requires FleetInv(s) && d !in s.rows && IncidentError(s, i).None?
    requires unit.Some? ==> unit.value in s.units
    ensures LeavesClosed(s, Opened(s, d, i, kind, unit))
  {
  }

  lemma {:induction false} EndTripLeavesClosed(s: State, trip: nat)
    requires FleetInv(s)
    ensures LeavesClosed(s, EndTrip(s, trip))
  {
  }

  lemma {:induction false} AssignLeavesClosed(s: State, a: Actor, d: nat, u: nat)
    requires FleetInv(s)
    ensures LeavesClosed(s, Kept(s, Assign(s, a, d, u)))
  {
  }

  lemma {:induction false} OtherCallsLeaveClosed(distance: Metric, s: State, act: Act)
    requires FleetInv(s)
    requires act.DoCreateUnit? || act.DoMoveUnit? || act.DoSetUnitStatus? || act.DoStartTrip? || act.DoNewIncident?
             || act.DoIncidentMoves? || act.DoTick?
    ensures LeavesClosed(s, Do(distance, s, act))
  {
    assert Do(distance, s, act).rows == s.rows;
  }

  lemma {:induction false} CallsLeaveClosed(distance: Metric, s: State, act: Act)
    requires FleetInv(s)
    ensures LeavesClosed(s, Do(distance, s, act))
  {
    match act
    case DoCreate(a, d, i, kind, unit) =>
      if Do(distance, s, act) != s { OpenedLeavesClosed(s, d, i, kind, unit); }
    case DoAutoAssign(a, d, i, kind, listing) =>
      if Do(distance, s, act) != s {
        OpenedLeavesClosed(s, d, i, kind, Some(listing[Nearest(distance, s, s.incidents[i].place.value, listing)]));
      }
    case DoTransition(a, d, to) => TransitionLeavesClosed(s, a, d, to);
    case DoServiceTransition(a, d, to) => ServiceTransitionLeavesClosed(s, a, d, to);
    case DoEndTrip(trip) => EndTripLeavesClosed(s, trip);
    case DoAssign(a, d, u) => AssignLeavesClosed(s, a, d, u);
    case _ => OtherCallsLeaveClosed(distance, s, act);
  }

  lemma {:induction false} CallsKeepFleetInv(distance: Metric, s: State, act: Act)
    requires FleetInv(s)
    ensures FleetInv(Do(distance, s, act))
    ensures forall i :: FleetClosed(s, i) ==> FleetClosed(Do(distance, s, act), i)
  {
    var t := Do(distance, s, act);
    CallsLeaveClosed(distance, s, act);
    forall i | FleetClosed(t, i)
      ensures t.incidents[i].status == RESOLVED && NoneActive(t, i)
    {
      if FleetClosed(s, i) {
        assert NoneActive(s, i);
      }
    }
  }

  /** An incident that fleet completion resolved has no active dispatch, then or at any later time. */
  lemma {:induction false} FleetClosedForever(distance: Metric, s: State, acts: seq<Act>, i: nat)
    requires FleetInv(s) && FleetClosed(s, i)
    ensures FleetInv(Run(distance, s, acts)) && FleetClosed(Run(distance, s, acts), i)
    ensures Run(distance, s, acts).incidents[i].status == RESOLVED && NoneActive(Run(distance, s, acts), i)
    decreases |acts|
  {
    if acts != [] {
      CallsKeepFleetInv(distance, s, acts[0]);
      FleetClosedForever(distance, Do(distance, s, acts[0]), acts[1..], i);
    }
  }

  lemma {:induction false} RunsKeepFleetInv(distance: Metric, s: State, acts: seq<Act>)
    requires FleetInv(s)
    ensures FleetInv(Run(distance, s, acts))
    decreases |acts|
  {
    if acts != [] {
      CallsKeepFleetInv(distance, s, acts[0]);
      RunsKeepFleetInv(distance, Do(distance, s, acts[0]), acts[1..]);
    }
  }

  /** Over every run from the empty tables: each row has its history, its status is the replay of its log unless the end
   of a trip cancelled it, and an incident that fleet completion resolved has no active dispatch. */
  lemma {:induction false} RunsFromEmpty(distance: Metric, acts: seq<Act>, d: nat, i: nat)
    ensures var s := Run(distance, INIT, acts);
      && (d in s.rows ==> History(s.rows[d], s.clock) && |s.rows[d].log| <= 6 && Path(s.rows[d].log))
      && (Told(s, d) <==> !EndedIn(distance, INIT, acts, d))
      && (FleetClosed(s, i) ==> s.incidents[i].status == RESOLVED && NoneActive(s, i))
  {
    RunsKeepHistories(distance, INIT, acts);
    StatusIsReplayUnlessTripEnded(distance, INIT, acts, d);
    RunsKeepFleetInv(distance, INIT, acts);
  }

  /** And none ever after: whatever calls follow. */
  lemma {:induction false} FleetClosedFromEmpty(distance: Metric, acts: seq<Act>, later: seq<Act>, i: nat)
    requires FleetClosed(Run(distance, INIT, acts), i)
    ensures var s := Run(distance, Run(distance, INIT, acts), later); FleetClosed(s, i) && NoneActive(s, i)
  {
    RunsKeepFleetInv(distance, INIT, acts);
    FleetClosedForever(distance, Run(distance, INIT, acts), later, i);
  }
}
