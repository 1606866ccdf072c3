/**
 What reconciling one credential does, said of the fields of its trusted payload and of the rows it protects. */
module IntegrityPayloads {
  import opened Wrappers
  import opened Integrity

  // ----- Individual credentials -----

  /** The credential is looked into: it is confirmed, and the chain was read. */
  predicate Examined(db: Db, chain: Chain, c: nat) {
    c in db.individuals && db.individuals[c].confirmed && c in chain.personal
  }

  /** A trusted payload of a planned or active trip. */
  predicate Protects(db: Db, chain: Chain, c: nat) {
    Examined(db, chain, c) && chain.personal[c].Trusted? && Open(db, db.individuals[c].trip)
  }

  /** Every field the payload protects is as the payload says. */
  predicate Intact(t: Db, c: Credential, p: Personal) {
    && c.subject in t.users && c.trip in t.trips
    && t.users[c.subject].name == p.name
    && t.users[c.subject].email == p.email
    && t.users[c.subject].phone == p.phone
    && t.users[c.subject].dob == Some(p.dob)
    && t.trips[c.trip].destination == p.destination
  }

  /** Somebody else has the e-mail address or the phone number. */
  predicate HeldByOther(db: Db, user: nat, email: string, phone: string) {
    exists w | w in db.users :: w != user && (db.users[w].email == email || db.users[w].phone == phone)
  }

  /** Nothing but the user's protected columns, the trip's destination and the group's name changed. */
  predicate OnlyProtected(db: Db, t: Db, user: nat, trip: nat, group: Option<nat>) {
    && t.users.Keys == db.users.Keys && t.trips.Keys == db.trips.Keys && t.groups.Keys == db.groups.Keys
    && t.individuals == db.individuals && t.crews == db.crews
    && (forall u | u in db.users :: t.users[u].other == db.users[u].other && (u != user ==> t.users[u] == db.users[u]))
    && (forall i | i in db.trips ::
          t.trips[i].status == db.trips[i].status && (i != trip ==> t.trips[i] == db.trips[i]))
    && (forall g | g in db.groups ::
          && t.groups[g].leader == db.groups[g].leader && t.groups[g].members == db.groups[g].members
          && (Some(g) != group ==> t.groups[g] == db.groups[g]))
  }

  lemma RestoreWritesOnlyProtected(db: Db, goal: Goal)
    requires Fits(db, goal)
    ensures OnlyProtected(db, Restore(db, goal).0, goal.user, goal.trip,
            if goal.group.Some? then Some(goal.group.value.0) else None)
    ensures goal.dob.None? ==> Restore(db, goal).0.users[goal.user].dob == db.users[goal.user].dob
  {
    var t := Restore(db, goal).0;
    if t != db {
      UserWritten(db, goal);
      GroupWritten(db, goal);
      assert t.trips == db.trips[goal.trip := db.trips[goal.trip].(destination := goal.destination)];
    }
  }

  lemma UserWritten(db: Db, goal: Goal)
    requires Fits(db, goal)
    ensures var users := Written(db, goal).users;
      && users.Keys == db.users.Keys
      && forall u | u in db.users ::
           users[u].other == db.users[u].other && (u != goal.user ==> users[u] == db.users[u])
  {
  }

  lemma GroupWritten(db: Db, goal: Goal)
    requires Fits(db, goal)
    ensures var groups := Written(db, goal).groups;
      && groups.Keys == db.groups.Keys
      && forall g | g in db.groups ::
           && groups[g].leader == db.groups[g].leader && groups[g].members == db.groups[g].members
           && ((goal.group.Some? ==> goal.group.value.0 != g) ==> groups[g] == db.groups[g])
  {
  }

  /** An individual credential: when it is skipped, when it fails, when it is found intact, and what it restores. */
  lemma PersonalVerdicts(db: Db, chain: Chain, c: nat)
    requires WellFormed(db)
    ensures var (t, v) := Reconcile(db, chain, Individual(c));
      && (v == SKIPPED <==>
            || !Examined(db, chain, c)
            || chain.personal[c] in {NoJob, Unreadable, Missing, OtherType}
            || (chain.personal[c].Trusted? && !Open(db, db.individuals[c].trip)))
      && (v == FAILED <==>
            && Examined(db, chain, c)
            && (|| chain.personal[c] in {HashMismatch, IdentityMismatch}
                || (Protects(db, chain, c)
                    && var p := chain.personal[c].payload;
                       && !Intact(db, db.individuals[c], p)
                       && HeldByOther(db, db.individuals[c].subject, p.email, p.phone))))
      && (v == CLEAN <==> Protects(db, chain, c) && Intact(db, db.individuals[c], chain.personal[c].payload))
      && (v == RESTORED ==> t != db && t.audits == db.audits + 1) && (v != RESTORED ==> t == db)
  {
    if Protects(db, chain, c) {
      var p := chain.personal[c].payload;
      var goal := Goal(db.individuals[c].subject, p.name, p.email, p.phone, Some(p.dob), db.individuals[c].trip,
                       p.destination, None);
      assert Find(db, chain, Individual(c)) == Want(goal);
      assert Squatted(db, goal) <==> HeldByOther(db, goal.user, p.email, p.phone) by {
        if HeldByOther(db, goal.user, p.email, p.phone) {
          var w :| w in db.users && w != goal.user && (db.users[w].email == p.email || db.users[w].phone == p.phone);
          assert Holds(db, w, goal);
        }
      }
    }
  }

  /** After a clean or restoring pass the user and the trip are as the payload says, and nothing else changed. */
  lemma PersonalRestored(db: Db, chain: Chain, c: nat)
    requires WellFormed(db) && Reconcile(db, chain, Individual(c)).1 in {CLEAN, RESTORED}
    ensures Examined(db, chain, c) && chain.personal[c].Trusted?
    ensures var t := Reconcile(db, chain, Individual(c)).0;
      && Intact(t, db.individuals[c], chain.personal[c].payload)
      && OnlyProtected(db, t, db.individuals[c].subject, db.individuals[c].trip, None)
  {
    PersonalVerdicts(db, chain, c);
    RestoreWritesOnlyProtected(db, Find(db, chain, Individual(c)).goal);
  }

  // ----- Group credentials -----

  predicate CrewExamined(db: Db, chain: Chain, c: nat) {
    c in db.crews && db.crews[c].confirmed && Open(db, db.crews[c].trip) && c in chain.crew
  }

  /** A trusted payload that counts as many members as the group has. */
  predicate CrewProtects(db: Db, chain: Chain, c: nat) {
    && CrewExamined(db, chain, c) && chain.crew[c].Trusted? && db.crews[c].subject in db.groups
    && db.groups[db.crews[c].subject].members == chain.crew[c].payload.memberCount
  }

  predicate CrewIntact(t: Db, c: Credential, p: Crew) {
    && c.subject in t.groups && t.groups[c.subject].leader in t.users && c.trip in t.trips
    && t.groups[c.subject].name == p.groupName
    && t.users[t.groups[c.subject].leader].name == p.name
    && t.users[t.groups[c.subject].leader].email == p.email
    && t.users[t.groups[c.subject].leader].phone == p.phone
    && t.trips[c.trip].destination == p.destination
  }

  /** A group credential likewise; one whose membership drifted is skipped. */
  lemma CrewVerdicts(db: Db, chain: Chain, c: nat)
    requires WellFormed(db)
    ensures var (t, v) := Reconcile(db, chain, GroupRef(c));
      && (v == SKIPPED <==>
            || !CrewExamined(db, chain, c)
            || chain.crew[c] in {NoJob, Unreadable, Missing, OtherType}
            || (chain.crew[c].Trusted? && !CrewProtects(db, chain, c)))
      && (v == FAILED <==>
            && CrewExamined(db, chain, c)
            && (|| chain.crew[c] in {HashMismatch, IdentityMismatch}
                || (CrewProtects(db, chain, c)
                    && var p := chain.crew[c].payload;
                       && !CrewIntact(db, db.crews[c], p)
                       && HeldByOther(db, db.groups[db.crews[c].subject].leader, p.email, p.phone))))
      && (v == CLEAN <==> CrewProtects(db, chain, c) && CrewIntact(db, db.crews[c], chain.crew[c].payload))
      && (v == RESTORED ==> t != db && t.audits == db.audits + 1) && (v != RESTORED ==> t == db)
  {
    if CrewProtects(db, chain, c) {
      var p, g := chain.crew[c].payload, db.crews[c].subject;
      var goal := Goal(db.groups[g].leader, p.name, p.email, p.phone, None, db.crews[c].trip, p.destination,
                       Some((g, p.groupName)));
      assert Find(db, chain, GroupRef(c)) == Want(goal);
      assert Squatted(db, goal) <==> HeldByOther(db, goal.user, p.email, p.phone) by {
        if HeldByOther(db, goal.user, p.email, p.phone) {
          var w :| w in db.users && w != goal.user && (db.users[w].email == p.email || db.users[w].phone == p.phone);
          assert Holds(db, w, goal);
        }
      }
    }
  }

  /** After such a pass the group, its leader and the trip are as the payload says, and nothing else changed. */
  lemma CrewRestored(db: Db, chain: Chain, c: nat)
    requires WellFormed(db) && Reconcile(db, chain, GroupRef(c)).1 in {CLEAN, RESTORED}
    ensures CrewExamined(db, chain, c) && chain.crew[c].Trusted?
    ensures var t := Reconcile(db, chain, GroupRef(c)).0;
      && CrewIntact(t, db.crews[c], chain.crew[c].payload)
      && var leader := db.groups[db.crews[c].subject].leader;
         && OnlyProtected(db, t, leader, db.crews[c].trip, Some(db.crews[c].subject))
         && t.users[leader].dob == db.users[leader].dob
  {
    CrewVerdicts(db, chain, c);
    RestoreWritesOnlyProtected(db, Find(db, chain, GroupRef(c)).goal);
  }

  // ----- Either kind -----

  predicate Asks(db: Db, chain: Chain, ref: Ref) {
    match ref
    case Individual(c) => Protects(db, chain, c)
    case GroupRef(c) => CrewProtects(db, chain, c)
  }

  /** The rows of a credential equal its payload. */
  predicate Agrees(t: Db, chain: Chain, ref: Ref) {
    match ref
    case Individual(c) =>
      c in t.individuals && c in chain.personal && chain.personal[c].Trusted?
      && Intact(t, t.individuals[c], chain.personal[c].payload)
    case GroupRef(c) =>
      c in t.crews && c in chain.crew && chain.crew[c].Trusted?
      && CrewIntact(t, t.crews[c], chain.crew[c].payload)
  }

  /** A credential has a goal exactly when its payload protects something, and meeting it is agreeing with the payload,
   in every state that sweeps can lead to. */
  lemma GoalIsPayload(db: Db, chain: Chain, ref: Ref, t: Db)
    requires WellFormed(db) && WellFormed(t) && SameShape(db, t)
    ensures Find(db, chain, ref).Want? <==> Asks(db, chain, ref)
    ensures Asks(db, chain, ref) ==>
      Fits(t, Find(db, chain, ref).goal) && (Met(t, Find(db, chain, ref).goal) <==> Agrees(t, chain, ref))
  {
    if Asks(db, chain, ref) && ref.GroupRef? {
      var g := db.crews[ref.id].subject;
      assert t.groups[g].leader == t.groups[g].(name := "").leader == db.groups[g].(name := "").leader;
    }
  }
}
