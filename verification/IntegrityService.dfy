/**
 The integrity sweep as it runs: patches are built field by field, written in one transaction, and counted.
 */
module IntegrityService {
  import opened Wrappers
  import opened Integrity
  import opened IntegrityProofs

  datatype Patch = Patch(name: Option<string>, email: Option<string>, phone: Option<string>, dob: Option<int>)

  const NOTHING := Patch(None, None, None, None)

  function Patched(u: User, p: Patch): User {
    User(if p.name.Some? then p.name.value else u.name, if p.email.Some? then p.email.value else u.email,
         if p.phone.Some? then p.phone.value else u.phone, if p.dob.Some? then p.dob else u.dob, u.other)
  }

  /** The unique columns refuse the patch. */
  predicate Taken(users: map<nat, User>, u: nat, p: Patch) {
    exists w | w in users && w != u ::
      (p.email.Some? && users[w].email == p.email.value) || (p.phone.Some? && users[w].phone == p.phone.value)
  }

  function Change(from: string, to: string): Option<string> { if from == to then None else Some(to) }

  function UserChange(u: User, name: string, email: string, phone: string, dob: Option<int>): Patch {
    Patch(Change(u.name, name), Change(u.email, email), Change(u.phone, phone), if dob.Some? && u.dob != dob then dob
      else None)
  }

  /** What one transaction writes. */
  datatype Writes = Writes(user: nat, patch: Patch, trip: nat, destination: Option<string>,
    group: Option<(nat, string)>)

  predicate Writable(db: Db, w: Writes) {
    w.user in db.users && w.trip in db.trips && (w.group.Some? ==> w.group.value.0 in db.groups)
  }

  function Committed(db: Db, w: Writes): Db
    requires Writable(db, w)
  {
    db.(users := if w.patch == NOTHING then db.users else db.users[w.user := Patched(db.users[w.user], w.patch)],
        trips := if w.destination.None? then db.trips
          else db.trips[w.trip := db.trips[w.trip].(destination := w.destination.value)],
        groups := if w.group.None? then db.groups
                  else db.groups[w.group.value.0 := db.groups[w.group.value.0].(name := w.group.value.1)],
        audits := db.audits + 1)
  }

  /** The writes that the differences between the rows and a goal call for. */
  function Repair(db: Db, goal: Goal): Writes
    requires Fits(db, goal)
  {
    Writes(goal.user, UserChange(db.users[goal.user], goal.name, goal.email, goal.phone, goal.dob),
           goal.trip, Change(db.trips[goal.trip].destination, goal.destination),
           if goal.group.Some? && db.groups[goal.group.value.0].name != goal.group.value.1 then goal.group else None)
  }

  predicate Empty(w: Writes) { w.patch == NOTHING && w.destination.None? && w.group.None? }

  /** Writing the differences and nothing else is as good as writing every protected field. */
  lemma {:induction false} RepairIsRestore(db: Db, goal: Goal)
    requires Fits(db, goal) && Unique(db)
    ensures Empty(Repair(db, goal)) <==> Met(db, goal)
    ensures Committed(db, Repair(db, goal)) == Written(db, goal)
    ensures !Met(db, goal) ==> (Taken(db.users, goal.user, Repair(db, goal).patch) <==> Squatted(db, goal))
  {
    RepairWritesAll(db, goal);
    RefusedIffSquatted(db, goal);
  }

  lemma {:induction false} RepairWritesAll(db: Db, goal: Goal)
    requires Fits(db, goal)
    ensures Committed(db, Repair(db, goal)) == Written(db, goal)
  {
    var w := Repair(db, goal);
    assert Committed(db, w).users == Written(db, goal).users;
    assert Committed(db, w).trips == Written(db, goal).trips;
    assert Committed(db, w).groups == Written(db, goal).groups;
  }

  lemma {:induction false} RefusedIffSquatted(db: Db, goal: Goal)
    requires Fits(db, goal) && Unique(db)
    ensures Taken(db.users, goal.user, Repair(db, goal).patch) <==> Squatted(db, goal)
  {
    var p := Repair(db, goal).patch;
    forall w | w in db.users && w != goal.user
      ensures Holds(db, w, goal) <==>
        (p.email.Some? && db.users[w].email == p.email.value) || (p.phone.Some? && db.users[w].phone == p.phone.value)
    {
      assert db.users[w].email != db.users[goal.user].email && db.users[w].phone != db.users[goal.user].phone;
    }
  }

  class Tables {
    var users: map<nat, User>
    var trips: map<nat, Trip>
    var groups: map<nat, Group>
    var individuals: map<nat, Credential>
    var crews: map<nat, Credential>
    var audits: nat

    function View(): Db
      reads this
    {
      Db(users, trips, groups, individuals, crews, audits)
    }

    constructor (db: Db)
      ensures View() == db
    {
      users, trips, groups, individuals, crews, audits := db.users, db.trips, db.groups, db.individuals, db.crews,
        db.audits;
    }

    method DifferingFields(u: nat, name: string, email: string, phone: string, dob: Option<int>) returns (p: Patch)
      requires u in users
      ensures p == UserChange(users[u], name, email, phone, dob)
    {
      p := NOTHING;
      if users[u].name != name { p := p.(name := Some(name)); }
      if users[u].email != email { p := p.(email := Some(email)); }
      if users[u].phone != phone { p := p.(phone := Some(phone)); }
      if dob.Some? && users[u].dob != dob { p := p.(dob := dob); }
    }

    /** A refused user update undoes the group update made before it. */
    method Transact(w: Writes) returns (ok: bool)
      requires Writable(View(), w)
      modifies this
      ensures ok <==> w.patch == NOTHING || !Taken(old(users), w.user, w.patch)
      ensures View() == if ok then Committed(old(View()), w) else old(View())
    {
      var before := groups;
      if w.group.Some? { groups := groups[w.group.value.0 := groups[w.group.value.0].(name := w.group.value.1)]; }
      if w.patch != NOTHING {
        if Taken(users, w.user, w.patch) {
          groups := before;
          return false;
        }
        users := users[w.user := Patched(users[w.user], w.patch)];
      }
      if w.destination.Some? { trips := trips[w.trip := trips[w.trip].(destination := w.destination.value)]; }
      audits := audits + 1;
      return true;
    }

    method ReconcileCredential(chain: Chain, c: nat) returns (v: Verdict)
      requires WellFormed(View()) && Unique(View())
      modifies this
      ensures (View(), v) == Reconcile(old(View()), chain, Individual(c))
    {
      if c !in individuals || !individuals[c].confirmed || c !in chain.personal { return SKIPPED; }
      var reading := chain.personal[c];
      if reading.HashMismatch? || reading.IdentityMismatch? { return FAILED; }
      if !reading.Trusted? { return SKIPPED; }
      var p, u, i := reading.payload, individuals[c].subject, individuals[c].trip;
      if !Open(View(), i) { return SKIPPED; }
      var patch := DifferingFields(u, p.name, p.email, p.phone, Some(p.dob));
      var destination := if trips[i].destination != p.destination then Some(p.destination) else None;
      RepairIsRestore(View(), Find(View(), chain, Individual(c)).goal);
      if patch == NOTHING && destination.None? { return CLEAN; }
      var ok := Transact(Writes(u, patch, i, destination, None));
      return if ok then RESTORED else FAILED;
    }

    method ReconcileGroupCredential(chain: Chain, c: nat) returns (v: Verdict)
      requires WellFormed(View()) && Unique(View())
      modifies this
      ensures (View(), v) == Reconcile(old(View()), chain, GroupRef(c))
    {
      if c !in crews || !crews[c].confirmed || !Open(View(), crews[c].trip) || c !in chain.crew { return SKIPPED; }
      var reading := chain.crew[c];
      if reading.HashMismatch? || reading.IdentityMismatch? { return FAILED; }
      if !reading.Trusted? { return SKIPPED; }
      var p, g, i := reading.payload, crews[c].subject, crews[c].trip;
      var u := groups[g].leader;
      var group := if groups[g].name != p.groupName then Some((g, p.groupName)) else None;
      var patch := DifferingFields(u, p.name, p.email, p.phone, None);
      var destination := if trips[i].destination != p.destination then Some(p.destination) else None;
      var memberCountChanged := groups[g].members != p.memberCount;
      if group.None? && patch == NOTHING && destination.None? && !memberCountChanged {
        RepairIsRestore(View(), Find(View(), chain, GroupRef(c)).goal);
        return CLEAN;
      }
      if memberCountChanged { return SKIPPED; }
      RepairIsRestore(View(), Find(View(), chain, GroupRef(c)).goal);
      var ok := Transact(Writes(u, patch, i, destination, group));
      return if ok then RESTORED else FAILED;
    }

    /** A failure is only logged; the returned number counts the restored credentials. */
    method ReconcileEach(chain: Chain, refs: seq<Ref>) returns (restored: nat)
      requires WellFormed(View()) && Unique(View())
      modifies this
      ensures WellFormed(View()) && Unique(View())
      ensures View() == ReconcileAll(old(View()), chain, refs).db
              && restored == ReconcileAll(old(View()), chain, refs).restored
    {
      ghost var whole := ReconcileAll(View(), chain, refs);
      restored := 0;
      for k := 0 to |refs|
        invariant WellFormed(View()) && Unique(View())
        invariant Leads(View(), chain, refs[k..], restored, whole)
      {
        ReconcileStep(View(), chain, refs, k, restored, whole);
        var v := ReconcileOne(chain, refs[k]);
        if v == RESTORED { restored := restored + 1; }
      }
    }

    method ReconcileOne(chain: Chain, ref: Ref) returns (v: Verdict)
      requires WellFormed(View()) && Unique(View())
      modifies this
      ensures (View(), v) == Reconcile(old(View()), chain, ref)
    {
      match ref {
        case Individual(c) => v := ReconcileCredential(chain, c);
        case GroupRef(c) => v := ReconcileGroupCredential(chain, c);
      }
    }

    /** First the fetched individual credentials, then the fetched group credentials. */
    method ReconcileAllOpen(chain: Chain, individualRefs: seq<Ref>, crewRefs: seq<Ref>) returns (restored: nat)
      requires WellFormed(View()) && Unique(View())
      requires Fetched(View(), individualRefs, crewRefs)
      modifies this
      ensures View() == ReconcileAll(old(View()), chain, individualRefs + crewRefs).db
      ensures restored == ReconcileAll(old(View()), chain, individualRefs + crewRefs).restored
    {
      ReconcileAllConcat(View(), chain, individualRefs, crewRefs);
      var first := ReconcileEach(chain, individualRefs);
      var second := ReconcileEach(chain, crewRefs);
      restored := first + second;
    }
  }

  lemma {:induction false} ReconcileAllConcat(db: Db, chain: Chain, a: seq<Ref>, b: seq<Ref>)
    requires WellFormed(db)
    ensures var t := ReconcileAll(db, chain, a);
      && WellFormed(t.db)
      && ReconcileAll(db, chain, a + b).db == ReconcileAll(t.db, chain, b).db
      && ReconcileAll(db, chain, a + b).restored == t.restored + ReconcileAll(t.db, chain, b).restored
    decreases |a|
  {
    if a == [] {
      assert a + b == b;
    } else {
      assert (a + b)[1..] == a[1..] + b;
      ReconcileKeepsForm(db, chain, a[0]);
      ReconcileAllConcat(Reconcile(db, chain, a[0]).0, chain, a[1..], b);
    }
  }

  /** Going on with `rest` after `restored` restorations ends in `whole`. */
  ghost predicate Leads(db: Db, chain: Chain, rest: seq<Ref>, restored: nat, whole: Outcome)
    requires WellFormed(db)
  {
    ReconcileAll(db, chain, rest).db == whole.db && ReconcileAll(db, chain, rest).restored + restored == whole.restored
  }

  lemma {:induction false} ReconcileStep(db: Db, chain: Chain, refs: seq<Ref>, k: nat, restored: nat, whole: Outcome)
    requires WellFormed(db) && Unique(db) && k < |refs| && Leads(db, chain, refs[k..], restored, whole)
    ensures var (t, v) := Reconcile(db, chain, refs[k]);
      WellFormed(t) && Unique(t) && Leads(t, chain, refs[k + 1..], restored + if v == RESTORED then 1 else 0, whole)
  {
    assert refs[k..][1..] == refs[k + 1..];
    ReconcileKeepsForm(db, chain, refs[k]);
    if Find(db, chain, refs[k]).Want? {
      FindFits(db, chain, refs[k]);
      MetUnlessSquatted(db, Find(db, chain, refs[k]).goal);
    }
  }
}
