/**
 The integrity sweep: database fields that differ from the trusted snapshots are written back.
 What the gateway and the job table answer about a credential is its `Reading`.
 */
module Integrity {
  import opened Wrappers

  datatype User = User(name: string, email: string, phone: string, dob: Option<int>, other: string)

  datatype TripStatus = PLANNED | ACTIVE | COMPLETED | CANCELLED

  datatype Trip = Trip(status: TripStatus, destination: string)

  datatype Group = Group(name: string, leader: nat, members: nat)

  /** `subject` is the user of an individual credential and the group of a group credential. */
  datatype Credential = Credential(subject: nat, trip: nat, confirmed: bool, revoked: bool)

  datatype Db = Db(
    users: map<nat, User>,
    trips: map<nat, Trip>,
    groups: map<nat, Group>,
    individuals: map<nat, Credential>,
    crews: map<nat, Credential>,
    audits: nat)

  datatype Personal = Personal(name: string, email: string, phone: string, dob: int, destination: string)

  datatype Crew = Crew(groupName: string, memberCount: nat, name: string, email: string, phone: string,
    destination: string)

  /** No snapshot job, an unreadable chain, no snapshot yet, another type of snapshot, a failed check, or a trusted
   payload. */
  datatype Reading<P> = NoJob | Unreadable | Missing | OtherType | HashMismatch | IdentityMismatch | Trusted(payload: P)

  datatype Chain = Chain(personal: map<nat, Reading<Personal>>, crew: map<nat, Reading<Crew>>)

  datatype Ref = Individual(id: nat) | GroupRef(id: nat)

  ghost predicate WellFormed(db: Db) {
    && (forall c :: c in db.individuals ==> db.individuals[c].subject in db.users && db.individuals[c].trip in db.trips)
    && (forall c :: c in db.crews ==> db.crews[c].subject in db.groups && db.crews[c].trip in db.trips)
    && (forall g :: g in db.groups ==> db.groups[g].leader in db.users)
  }

  /** The unique columns of the users table. */
  ghost predicate Unique(db: Db) {
    forall u, w :: u in db.users && w in db.users && u != w ==>
      db.users[u].email != db.users[w].email && db.users[u].phone != db.users[w].phone
  }

  predicate Open(db: Db, trip: nat) {
    trip in db.trips && (db.trips[trip].status == PLANNED || db.trips[trip].status == ACTIVE)
  }

  // ----- What a credential's snapshot asks for -----

  /** The protected values: those of a user, of a trip, and for a group credential the group's name. */
  datatype Goal = Goal(
    user: nat, name: string, email: string, phone: string, dob: Option<int>,
    trip: nat, destination: string, group: Option<(nat, string)>)

  datatype Finding = Skip | Throw | Want(goal: Goal)

  function Find(db: Db, chain: Chain, ref: Ref): Finding
    requires WellFormed(db)
  {
    match ref
    case Individual(c) =>
      if c !in db.individuals || !db.individuals[c].confirmed || c !in chain.personal then Skip
      else FindPersonal(db, db.individuals[c], chain.personal[c])
    case GroupRef(c) =>
      if c !in db.crews || !db.crews[c].confirmed || !Open(db, db.crews[c].trip) || c !in chain.crew then Skip
      else FindCrew(db, db.crews[c], chain.crew[c])
  }

  function FindPersonal(db: Db, c: Credential, reading: Reading<Personal>): Finding {
    match reading
    case HashMismatch => Throw
    case IdentityMismatch => Throw
    case Trusted(p) =>
      if !Open(db, c.trip) then Skip
      else Want(Goal(c.subject, p.name, p.email, p.phone, Some(p.dob), c.trip, p.destination, None))
    case _ => Skip
  }

  /** A group whose membership drifted from the snapshot is left alone. */
  function FindCrew(db: Db, c: Credential, reading: Reading<Crew>): Finding
    requires c.subject in db.groups
  {
    match reading
    case HashMismatch => Throw
    case IdentityMismatch => Throw
    case Trusted(p) =>
      if db.groups[c.subject].members != p.memberCount then Skip
      else Want(Goal(db.groups[c.subject].leader, p.name, p.email, p.phone, None, c.trip, p.destination,
        Some((c.subject, p.groupName))))
    case _ => Skip
  }

  predicate Fits(db: Db, goal: Goal) {
    goal.user in db.users && goal.trip in db.trips && (goal.group.Some? ==> goal.group.value.0 in db.groups)
  }

  predicate Met(db: Db, goal: Goal)
    requires Fits(db, goal)
  {
    var u := db.users[goal.user];
    && u.name == goal.name && u.email == goal.email && u.phone == goal.phone
    && (goal.dob.Some? ==> u.dob == goal.dob)
    && db.trips[goal.trip].destination == goal.destination
    && (goal.group.Some? ==> db.groups[goal.group.value.0].name == goal.group.value.1)
  }

  /** Another user holds the e-mail address or the phone number the goal asks for. */
  predicate Holds(db: Db, w: nat, goal: Goal) {
    w in db.users && w != goal.user && (db.users[w].email == goal.email || db.users[w].phone == goal.phone)
  }

  predicate Squatted(db: Db, goal: Goal) { exists w | w in db.users :: Holds(db, w, goal) }

  function Written(db: Db, goal: Goal): Db
    requires Fits(db, goal)
  {
    var u := db.users[goal.user].(name := goal.name, email := goal.email, phone := goal.phone,
                                  dob := if goal.dob.Some? then goal.dob else db.users[goal.user].dob);
    db.(users := db.users[goal.user := u],
        trips := db.trips[goal.trip := db.trips[goal.trip].(destination := goal.destination)],
        groups := if goal.group.None? then db.groups
                  else db.groups[goal.group.value.0 := db.groups[goal.group.value.0].(name := goal.group.value.1)],
        audits := db.audits + 1)
  }

  datatype Verdict = SKIPPED | CLEAN | RESTORED | FAILED

  /** A write that would repeat a unique value fails, and its transaction leaves no trace. */
  function Restore(db: Db, goal: Goal): (r: (Db, Verdict))
    requires Fits(db, goal)
    ensures r.0.users.Keys == db.users.Keys && r.0.trips.Keys == db.trips.Keys && r.0.groups.Keys == db.groups.Keys
  {
    if Met(db, goal) then (db, CLEAN)
    else if Squatted(db, goal) then (db, FAILED)
    else (Written(db, goal), RESTORED)
  }

  lemma FindFits(db: Db, chain: Chain, ref: Ref)
    requires WellFormed(db) && Find(db, chain, ref).Want?
    ensures Fits(db, Find(db, chain, ref).goal)
  {
  }

  /** One credential, from reading to writing. */
  function Reconcile(db: Db, chain: Chain, ref: Ref): (Db, Verdict)
    requires WellFormed(db)
  {
    match Find(db, chain, ref)
    case Skip => (db, SKIPPED)
    case Throw => (db, FAILED)
    case Want(goal) =>
      FindFits(db, chain, ref);
      Restore(db, goal)
  }

  // ----- The sweep -----

  datatype Outcome = Outcome(db: Db, restored: nat, failed: nat)

  predicate AllFit(db: Db, goals: seq<Goal>) { forall k | 0 <= k < |goals| :: Fits(db, goals[k]) }

  /** Restores the goals in turn; a failure is logged and the next goal is tried. */
  function Sweep(db: Db, goals: seq<Goal>): Outcome
    requires AllFit(db, goals)
    decreases |goals|
  {
    if goals == [] then Outcome(db, 0, 0)
    else
      var (t, v) := Restore(db, goals[0]);
      var rest := Sweep(t, goals[1..]);
      Outcome(rest.db, rest.restored + if v == RESTORED then 1 else 0, rest.failed + if v == FAILED then 1 else 0)
  }

  /** The goals of the credentials that have one. */
  function Goals(db: Db, chain: Chain, refs: seq<Ref>): seq<Goal>
    requires WellFormed(db)
    decreases |refs|
  {
    if refs == [] then []
    else
      var f := Find(db, chain, refs[0]);
      (if f.Want? then [f.goal] else []) + Goals(db, chain, refs[1..])
  }

  function Throws(db: Db, chain: Chain, refs: seq<Ref>): nat
    requires WellFormed(db)
    decreases |refs|
  {
    if refs == [] then 0
    else (if Find(db, chain, refs[0]).Throw? then 1 else 0) + Throws(db, chain, refs[1..])
  }

  lemma {:induction false} GoalsFit(db: Db, chain: Chain, refs: seq<Ref>)
    requires WellFormed(db)
    ensures AllFit(db, Goals(db, chain, refs))
    decreases |refs|
  {
    if refs != [] {
      GoalsFit(db, chain, refs[1..]);
    }
  }

  /** What a sweep never writes: which rows exist, credentials, trip status, who leads a group, how many belong to
   it. */
  ghost predicate SameShape(db: Db, t: Db) {
    && t.users.Keys == db.users.Keys && t.trips.Keys == db.trips.Keys && t.groups.Keys == db.groups.Keys
    && t.individuals == db.individuals && t.crews == db.crews
    && (forall i :: i in db.trips ==> t.trips[i].status == db.trips[i].status)
    && (forall g :: g in db.groups ==> t.groups[g].(name := "") == db.groups[g].(name := ""))
    && (forall u :: u in db.users ==> t.users[u].other == db.users[u].other)
  }

  lemma RestoreKeepsShape(db: Db, goal: Goal)
    requires Fits(db, goal)
    ensures SameShape(db, Restore(db, goal).0)
  {
    if goal.group.Some? {
      var g := db.groups[goal.group.value.0];
      assert g.(name := goal.group.value.1).(name := "") == g.(name := "");
    }
  }

  lemma {:induction false} ShapeFixesGoals(db: Db, t: Db, chain: Chain, refs: seq<Ref>)
    requires WellFormed(db) && SameShape(db, t)
    ensures WellFormed(t)
    ensures Goals(t, chain, refs) == Goals(db, chain, refs) && Throws(t, chain, refs) == Throws(db, chain, refs)
    decreases |refs|
  {
    assert WellFormed(t) by {
      forall g | g in t.groups
        ensures t.groups[g].leader in t.users
      {
        assert t.groups[g].leader == t.groups[g].(name := "").leader == db.groups[g].(name := "").leader;
      }
    }
    if refs != [] {
      ShapeFixesFinding(db, t, chain, refs[0]);
      ShapeFixesGoals(db, t, chain, refs[1..]);
    }
  }

  lemma ShapeFixesFinding(db: Db, t: Db, chain: Chain, ref: Ref)
    requires WellFormed(db) && WellFormed(t) && SameShape(db, t)
    ensures Find(t, chain, ref) == Find(db, chain, ref)
  {
    if ref.GroupRef? && ref.id in db.crews {
      var g := db.crews[ref.id].subject;
      assert t.groups[g].leader == t.groups[g].(name := "").leader
        && t.groups[g].members == t.groups[g].(name := "").members;
      assert db.groups[g].leader == db.groups[g].(name := "").leader
        && db.groups[g].members == db.groups[g].(name := "").members;
    }
  }
}
