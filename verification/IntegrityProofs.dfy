/**
 What one sweep repairs, what it leaves alone, and when it cannot repair.
 */
module IntegrityProofs {
  import opened Integrity
  import opened IntegrityPayloads

  // ----- One goal -----

  /** With unique columns a goal is met after its turn exactly when no other user holds its e-mail address or phone. */
  lemma {:induction false} MetUnlessSquatted(db: Db, goal: Goal)
    requires Fits(db, goal) && Unique(db)
    ensures Met(Restore(db, goal).0, goal) <==> !Squatted(db, goal)
    ensures Restore(db, goal).1 == FAILED <==> Squatted(db, goal)
    ensures Unique(Restore(db, goal).0)
  {
    if Squatted(db, goal) {
      var w :| w in db.users && Holds(db, w, goal);
      assert db.users[w].email != db.users[goal.user].email && db.users[w].phone != db.users[goal.user].phone;
    } else {
      forall u | u in db.users && u != goal.user
        ensures db.users[u].email != goal.email && db.users[u].phone != goal.phone
      {
        assert !Holds(db, u, goal);
      }
    }
  }

  lemma RestoreTouchesItsRows(db: Db, goal: Goal)
    requires Fits(db, goal)
    ensures var t := Restore(db, goal).0;
      && (forall u :: u in db.users && u != goal.user ==> t.users[u] == db.users[u])
      && (forall i :: i in db.trips && i != goal.trip ==> t.trips[i] == db.trips[i])
      && (forall g :: g in db.groups && !(goal.group.Some? && goal.group.value.0 == g) ==> t.groups[g] == db.groups[g])
  {
  }

  /** Two trusted snapshots agree on what both protect, and give different users different unique values. */
  predicate Agree(a: Goal, b: Goal) {
    && (if a.user == b.user
        then a.name == b.name && a.email == b.email && a.phone == b.phone
          && (a.dob.Some? && b.dob.Some? ==> a.dob == b.dob)
        else a.email != b.email && a.phone != b.phone)
    && (a.trip == b.trip ==> a.destination == b.destination)
    && (a.group.Some? && b.group.Some? && a.group.value.0 == b.group.value.0 ==> a.group == b.group)
  }

  predicate Consistent(goals: seq<Goal>) { forall a, b | a in goals && b in goals :: Agree(a, b) }

  lemma RestoreKeepsMet(db: Db, goal: Goal, other: Goal)
    requires Fits(db, goal) && Fits(db, other) && Agree(goal, other) && Met(db, other)
    ensures Met(Restore(db, goal).0, other)
  {
  }

  // ----- The sweep -----

  lemma {:induction false} SweepFits(db: Db, goals: seq<Goal>)
    requires AllFit(db, goals)
    ensures SameShape(db, Sweep(db, goals).db)
    decreases |goals|
  {
    if goals != [] {
      RestoreKeepsShape(db, goals[0]);
      SweepFits(Restore(db, goals[0]).0, goals[1..]);
    }
  }

  lemma {:induction false} SweepKeepsMet(db: Db, goals: seq<Goal>, other: Goal)
    requires AllFit(db, goals) && Fits(db, other) && Met(db, other)
    requires forall goal | goal in goals :: Agree(goal, other)
    ensures Fits(Sweep(db, goals).db, other) && Met(Sweep(db, goals).db, other)
    decreases |goals|
  {
    if goals != [] {
      RestoreKeepsMet(db, goals[0], other);
      SweepKeepsMet(Restore(db, goals[0]).0, goals[1..], other);
    }
  }

  /** A user who holds what goal `k` asks for has his own goal earlier in the sweep. */
  predicate Earlier(goals: seq<Goal>, k: nat, w: nat)
    requires k <= |goals|
  {
    exists j | 0 <= j < k :: goals[j].user == w
  }

  predicate Cleared(db: Db, goals: seq<Goal>) {
    forall k | 0 <= k < |goals| :: forall w | w in db.users && Holds(db, w, goals[k]) :: Earlier(goals, k, w)
  }

  lemma {:induction false} EarlierShifts(goals: seq<Goal>, k: nat, w: nat)
    requires 0 < k <= |goals|
    ensures Earlier(goals, k, w) <==> goals[0].user == w || Earlier(goals[1..], k - 1, w)
  {
    if Earlier(goals, k, w) {
      var j :| 0 <= j < k && goals[j].user == w;
      if j > 0 { assert goals[1..][j - 1].user == w; }
    }
  }

  /** Once the first goal is met it cannot be in the way of the rest, and every other holder still is. */
  lemma {:induction false} ClearedShifts(db: Db, goals: seq<Goal>)
    requires AllFit(db, goals) && Unique(db) && Consistent(goals) && goals != []
    requires !Squatted(db, goals[0])
    ensures Cleared(Restore(db, goals[0]).0, goals[1..]) <==> Cleared(db, goals)
  {
    var first := goals[0];
    var t := Restore(db, first).0;
    MetUnlessSquatted(db, first);
    RestoreTouchesItsRows(db, first);
    forall k, w | 0 < k < |goals| && w in db.users
      ensures Holds(t, w, goals[k]) <==> Holds(db, w, goals[k]) && w != first.user
      ensures Earlier(goals, k, w) <==> first.user == w || Earlier(goals[1..], k - 1, w)
    {
      assert goals[k] in goals && Agree(first, goals[k]);
      EarlierShifts(goals, k, w);
    }
    if Cleared(db, goals) {
      forall k, w | 0 <= k < |goals[1..]| && w in t.users && Holds(t, w, goals[1..][k])
        ensures Earlier(goals[1..], k, w)
      {
        assert goals[1..][k] == goals[k + 1];
        assert Earlier(goals, k + 1, w);
      }
    } else {
      var k, w :| 0 <= k < |goals| && w in db.users && Holds(db, w, goals[k]) && !Earlier(goals, k, w);
      assert k > 0;
      assert goals[1..][k - 1] == goals[k];
      assert Holds(t, w, goals[1..][k - 1]) && !Earlier(goals[1..], k - 1, w);
    }
  }

  /** A sweep meets no failing write exactly when everyone who holds a value that belongs to another is repaired before
   that other. */
  lemma {:induction false} FailsNowhereIffCleared(db: Db, goals: seq<Goal>)
    requires AllFit(db, goals) && Unique(db) && Consistent(goals)
    ensures Sweep(db, goals).failed == 0 <==> Cleared(db, goals)
    decreases |goals|
  {
    if goals != [] {
      MetUnlessSquatted(db, goals[0]);
      if Squatted(db, goals[0]) {
        var w :| w in db.users && Holds(db, w, goals[0]);
        assert !Earlier(goals, 0, w);
      } else {
        ClearedShifts(db, goals);
        assert forall goal | goal in goals[1..] :: goal in goals;
        FailsNowhereIffCleared(Restore(db, goals[0]).0, goals[1..]);
      }
    }
  }

  ghost predicate AllMet(db: Db, goals: seq<Goal>) { forall goal | goal in goals :: Fits(db, goal) && Met(db, goal) }

  /** A sweep without a failing write leaves every protected field of every goal equal to its snapshot. */
  lemma {:induction false} FailureFreeSweepMeetsAll(db: Db, goals: seq<Goal>)
    requires AllFit(db, goals) && Unique(db) && Consistent(goals)
    requires Sweep(db, goals).failed == 0
    ensures AllMet(Sweep(db, goals).db, goals)
    decreases |goals|
  {
    if goals != [] {
      var t := Restore(db, goals[0]).0;
      MetUnlessSquatted(db, goals[0]);
      forall goal | goal in goals[1..]
        ensures goal in goals && Agree(goal, goals[0])
      {
      }
      FailureFreeSweepMeetsAll(t, goals[1..]);
      SweepKeepsMet(t, goals[1..], goals[0]);
    }
  }

  /** Where every goal is met a sweep writes nothing, audits nothing and returns zero. */
  lemma {:induction false} MetSweepIsIdle(db: Db, goals: seq<Goal>)
    requires AllMet(db, goals)
    ensures AllFit(db, goals) && Sweep(db, goals) == Outcome(db, 0, 0)
    decreases |goals|
  {
    if goals != [] {
      MetSweepIsIdle(db, goals[1..]);
    }
  }

  /** A user no goal names keeps every field; a date of birth changes only for an individual credential; and of a named
   user nothing but the protected fields can change. */
  lemma {:induction false} SweepLeavesUser(db: Db, goals: seq<Goal>, u: nat)
    requires AllFit(db, goals) && u in db.users
    ensures var t := Sweep(db, goals).db;
      && u in t.users && t.users[u].other == db.users[u].other
      && (Spares(goals, u, false) ==> t.users[u] == db.users[u])
      && (Spares(goals, u, true) ==> t.users[u].dob == db.users[u].dob)
    decreases |goals|
  {
    if goals != [] {
      var rest := goals[1..];
      assert forall k | 0 <= k < |rest| :: rest[k] == goals[k + 1];
      SweepLeavesUser(Restore(db, goals[0]).0, rest, u);
      assert Spares(goals, u, false) ==> goals[0].user != u && Spares(rest, u, false);
      assert Spares(goals, u, true) ==> (goals[0].user == u ==> goals[0].dob.None?) && Spares(rest, u, true);
    }
  }

  /** No goal names the user, or with `dobOnly`, none that protects a date of birth. */
  predicate Spares(goals: seq<Goal>, u: nat, dobOnly: bool) {
    forall k | 0 <= k < |goals| :: goals[k].user == u ==> dobOnly && goals[k].dob.None?
  }

  lemma {:induction false} SweepLeavesTrip(db: Db, goals: seq<Goal>, i: nat)
    requires AllFit(db, goals) && i in db.trips && forall k | 0 <= k < |goals| :: goals[k].trip != i
    ensures i in Sweep(db, goals).db.trips && Sweep(db, goals).db.trips[i] == db.trips[i]
    decreases |goals|
  {
    if goals != [] {
      assert forall k | 0 <= k < |goals[1..]| :: goals[1..][k] == goals[k + 1];
      SweepLeavesTrip(Restore(db, goals[0]).0, goals[1..], i);
    }
  }

  lemma {:induction false} SweepLeavesGroup(db: Db, goals: seq<Goal>, g: nat)
    requires AllFit(db, goals) && g in db.groups
    requires forall k | 0 <= k < |goals| :: goals[k].group.Some? ==> goals[k].group.value.0 != g
    ensures g in Sweep(db, goals).db.groups && Sweep(db, goals).db.groups[g] == db.groups[g]
    decreases |goals|
  {
    if goals != [] {
      assert forall k | 0 <= k < |goals[1..]| :: goals[1..][k] == goals[k + 1];
      SweepLeavesGroup(Restore(db, goals[0]).0, goals[1..], g);
    }
  }

  /** Two users whose e-mail addresses were exchanged are never repaired: each write repeats the other's address, so
   every sweep, in either order, fails twice and changes nothing. */
  lemma {:induction false} SwappedEmailsStay(db: Db, a: Goal, b: Goal)
    requires Fits(db, a) && Fits(db, b) && a.user != b.user && a.email != b.email
    requires db.users[a.user].email == b.email && db.users[b.user].email == a.email
    ensures Sweep(db, [a, b]) == Outcome(db, 0, 2) && Sweep(db, [b, a]) == Outcome(db, 0, 2)
  {
    assert Holds(db, b.user, a) && Holds(db, a.user, b);
    assert [a, b][1..] == [b] && [b, a][1..] == [a];
    OneFailure(db, a);
    OneFailure(db, b);
  }

  lemma OneFailure(db: Db, goal: Goal)
    requires Fits(db, goal) && Restore(db, goal) == (db, FAILED)
    ensures Sweep(db, [goal]) == Outcome(db, 0, 1)
  {
    assert [goal][1..] == [];
    var none: seq<Goal> := [];
    assert Sweep(db, none) == Outcome(db, 0, 0);
  }

  // ----- Exactly what a sweep repairs -----

  /** Goal `k` is clear when everyone else who holds its e-mail address or phone at the start has a clear goal before
   it. */
  predicate Clear(db: Db, goals: seq<Goal>, k: nat)
    requires k < |goals|
    decreases k
  {
    forall w | w in db.users && Holds(db, w, goals[k]) ::
      exists j | 0 <= j < k :: goals[j].user == w && Clear(db, goals, j)
  }

  /** What goals protect: a user's name and contacts, a user's date of birth, a trip's destination, a group's name. */
  datatype Slot = OfUser(id: nat) | BirthOf(id: nat) | OfTrip(id: nat) | OfGroup(id: nat)

  predicate Names(goal: Goal, slot: Slot) {
    match slot
    case OfUser(u) => goal.user == u
    case BirthOf(u) => goal.user == u && goal.dob.Some?
    case OfTrip(i) => goal.trip == i
    case OfGroup(g) => goal.group.Some? && goal.group.value.0 == g
  }

  predicate Right(db: Db, goal: Goal, slot: Slot)
    requires Fits(db, goal) && Names(goal, slot)
  {
    match slot
    case OfUser(u) => db.users[u].name == goal.name && db.users[u].email == goal.email
      && db.users[u].phone == goal.phone
    case BirthOf(u) => db.users[u].dob == goal.dob
    case OfTrip(i) => db.trips[i].destination == goal.destination
    case OfGroup(g) => db.groups[g].name == goal.group.value.1
  }

  /** One of the first `n` goals is clear and asks for the slot. */
  predicate Asked(db: Db, goals: seq<Goal>, n: nat, slot: Slot)
    requires n <= |goals|
  {
    exists j | 0 <= j < n :: Names(goals[j], slot) && Clear(db, goals, j)
  }

  lemma MetIffRight(db: Db, goal: Goal)
    requires Fits(db, goal)
    ensures Met(db, goal) <==> forall slot :: Names(goal, slot) ==> Right(db, goal, slot)
  {
    if forall slot :: Names(goal, slot) ==> Right(db, goal, slot) {
      assert Names(goal, OfUser(goal.user)) && Names(goal, OfTrip(goal.trip));
      assert goal.dob.Some? ==> Names(goal, BirthOf(goal.user));
      assert goal.group.Some? ==> Names(goal, OfGroup(goal.group.value.0));
    }
  }

  lemma AgreeingGoalsShareRight(db: Db, a: Goal, b: Goal, slot: Slot)
    requires Fits(db, a) && Fits(db, b) && Agree(a, b) && Names(a, slot) && Names(b, slot)
    ensures Right(db, a, slot) <==> Right(db, b, slot)
  {
  }

  lemma UnnamedSlotIsKept(db: Db, goal: Goal, other: Goal, slot: Slot)
    requires Fits(db, goal) && Fits(db, other) && !Names(goal, slot) && Names(other, slot)
    ensures Right(Restore(db, goal).0, other, slot) <==> Right(db, other, slot)
  {
  }

  lemma AskedNext(db: Db, goals: seq<Goal>, n: nat, slot: Slot)
    requires n < |goals|
    ensures Asked(db, goals, n + 1, slot) <==>
      Asked(db, goals, n, slot) || (Names(goals[n], slot) && Clear(db, goals, n))
  {
    if Asked(db, goals, n, slot) {
      var j :| 0 <= j < n && Names(goals[j], slot) && Clear(db, goals, j);
      assert 0 <= j < n + 1;
    }
  }

  /** What the database looks like after the first `n` goals: users nobody clear asked for keep their row, the others
   have their trusted e-mail address and phone, and a slot is right exactly when it was or a clear goal asked for it. */
  ghost predicate Repaired(db: Db, goals: seq<Goal>, n: nat, t: Db)
    requires n <= |goals| && AllFit(db, goals)
  {
    && Unique(t) && AllFit(t, goals) && t.users.Keys == db.users.Keys
    && (forall u | u in db.users && !Asked(db, goals, n, OfUser(u)) :: t.users[u] == db.users[u])
    && (forall k, slot | 0 <= k < |goals| && Names(goals[k], slot) ::
          Right(t, goals[k], slot) <==> Right(db, goals[k], slot) || Asked(db, goals, n, slot))
  }

  lemma {:induction false} HoldsLater(db: Db, goals: seq<Goal>, n: nat, t: Db, w: nat)
    requires AllFit(db, goals) && Consistent(goals) && n < |goals| && Repaired(db, goals, n, t) && w in db.users
    ensures Holds(t, w, goals[n]) <==> Holds(db, w, goals[n]) && !Asked(db, goals, n, OfUser(w))
  {
    if Asked(db, goals, n, OfUser(w)) {
      var j :| 0 <= j < n && Names(goals[j], OfUser(w)) && Clear(db, goals, j);
      assert Right(t, goals[j], OfUser(w));
      assert goals[j] in goals && goals[n] in goals && Agree(goals[j], goals[n]);
    }
  }

  /** At its turn a goal is squatted exactly when it is not clear. */
  lemma {:induction false} SquattedIffNotClear(db: Db, goals: seq<Goal>, n: nat, t: Db)
    requires AllFit(db, goals) && Consistent(goals) && n < |goals| && Repaired(db, goals, n, t)
    ensures Squatted(t, goals[n]) <==> !Clear(db, goals, n)
  {
    forall w | w in db.users
      ensures Holds(t, w, goals[n]) <==> Holds(db, w, goals[n]) && !Asked(db, goals, n, OfUser(w))
    {
      HoldsLater(db, goals, n, t, w);
    }
    if Clear(db, goals, n) {
      forall w | w in db.users && Holds(db, w, goals[n])
        ensures Asked(db, goals, n, OfUser(w))
      {
        var j :| 0 <= j < n && goals[j].user == w && Clear(db, goals, j);
        assert Names(goals[j], OfUser(w));
      }
    } else {
      var w :| w in db.users && Holds(db, w, goals[n])
        && !(exists j | 0 <= j < n :: goals[j].user == w && Clear(db, goals, j));
      assert Holds(t, w, goals[n]);
    }
  }

  lemma {:induction false} SlotNext(db: Db, goals: seq<Goal>, n: nat, t: Db, k: nat, slot: Slot)
    requires AllFit(db, goals) && Consistent(goals) && n < |goals| && Repaired(db, goals, n, t)
    requires k < |goals| && Names(goals[k], slot)
    ensures Right(Restore(t, goals[n]).0, goals[k], slot) <==>
      Right(db, goals[k], slot) || Asked(db, goals, n + 1, slot)
  {
    var d := Restore(t, goals[n]).0;
    AskedNext(db, goals, n, slot);
    SquattedIffNotClear(db, goals, n, t);
    MetUnlessSquatted(t, goals[n]);
    if !Names(goals[n], slot) {
      UnnamedSlotIsKept(t, goals[n], goals[k], slot);
    } else if Clear(db, goals, n) {
      MetIffRight(d, goals[n]);
      assert goals[k] in goals && goals[n] in goals;
      AgreeingGoalsShareRight(d, goals[n], goals[k], slot);
    } else {
      assert d == t;
    }
  }

  lemma {:induction false} RepairedNext(db: Db, goals: seq<Goal>, n: nat, t: Db, m: nat, d: Db)
    requires AllFit(db, goals) && Consistent(goals) && n < |goals| && Repaired(db, goals, n, t)
    requires m == n + 1 && d == Restore(t, goals[n]).0
    ensures Repaired(db, goals, m, d)
  {
    MetUnlessSquatted(t, goals[n]);
    SquattedIffNotClear(db, goals, n, t);
    RestoreTouchesItsRows(t, goals[n]);
    forall u | u in db.users && !Asked(db, goals, n + 1, OfUser(u))
      ensures d.users[u] == db.users[u]
    {
      AskedNext(db, goals, n, OfUser(u));
    }
    forall k, slot | 0 <= k < |goals| && Names(goals[k], slot)
      ensures Right(d, goals[k], slot) <==> Right(db, goals[k], slot) || Asked(db, goals, n + 1, slot)
    {
      SlotNext(db, goals, n, t, k, slot);
    }
  }

  /** The database when the goal at `n` has its turn. */
  function At(db: Db, goals: seq<Goal>, n: nat): (t: Db)
    requires AllFit(db, goals) && n <= |goals|
    ensures AllFit(t, goals)
  {
    if n == 0 then db else Restore(At(db, goals, n - 1), goals[n - 1]).0
  }

  lemma {:induction false} SweepFrom(db: Db, goals: seq<Goal>, n: nat)
    requires AllFit(db, goals) && n <= |goals|
    ensures AllFit(At(db, goals, n), goals[n..])
    ensures Sweep(At(db, goals, n), goals[n..]).db == At(db, goals, |goals|)
    decreases |goals| - n
  {
    if n < |goals| {
      assert goals[n..][1..] == goals[n + 1..];
      SweepFrom(db, goals, n + 1);
    }
  }

  lemma {:induction false} StartIsRepaired(db: Db, goals: seq<Goal>, n: nat)
    requires AllFit(db, goals) && Unique(db) && n == 0
    ensures Repaired(db, goals, n, At(db, goals, n))
  {
    forall slot
      ensures !Asked(db, goals, n, slot)
    {
    }
  }

  lemma RepairedAtNext(db: Db, goals: seq<Goal>, m: nat, n: nat, t: Db, d: Db)
    requires AllFit(db, goals) && Unique(db) && Consistent(goals) && m < |goals| && n == m + 1
    requires t == At(db, goals, m) && d == At(db, goals, n) && Repaired(db, goals, m, t)
    ensures Repaired(db, goals, n, d)
  {
    RepairedNext(db, goals, m, t, n, d);
  }

  lemma {:induction false} AtIsRepaired(db: Db, goals: seq<Goal>, n: nat)
    requires AllFit(db, goals) && Unique(db) && Consistent(goals) && n <= |goals|
    ensures Repaired(db, goals, n, At(db, goals, n))
  {
    if n == 0 {
      StartIsRepaired(db, goals, n);
    } else {
      var m: nat := n - 1;
      AtIsRepaired(db, goals, m);
      RepairedAtNext(db, goals, m, n, At(db, goals, m), At(db, goals, n));
    }
  }

  /** The write of a goal fails exactly when the goal is not clear. */
  lemma {:induction false} FailsIffNotClear(db: Db, goals: seq<Goal>, n: nat)
    requires AllFit(db, goals) && Unique(db) && Consistent(goals) && n < |goals|
    ensures Restore(At(db, goals, n), goals[n]).1 == FAILED <==> !Clear(db, goals, n)
  {
    AtIsRepaired(db, goals, n);
    SquattedIffNotClear(db, goals, n, At(db, goals, n));
    MetUnlessSquatted(At(db, goals, n), goals[n]);
  }

  /** Every slot of the goal is right at the start or asked for by a clear goal. */
  ghost predicate GoalRepairable(db: Db, goals: seq<Goal>, goal: Goal)
    requires Fits(db, goal)
  {
    forall slot | Names(goal, slot) :: Right(db, goal, slot) || Asked(db, goals, |goals|, slot)
  }

  ghost predicate Repairable(db: Db, goals: seq<Goal>)
    requires AllFit(db, goals)
  {
    forall k | 0 <= k < |goals| :: GoalRepairable(db, goals, goals[k])
  }

  lemma {:induction false} MetIffGoalRepairable(db: Db, goals: seq<Goal>, t: Db, k: nat)
    requires AllFit(db, goals) && Repaired(db, goals, |goals|, t) && k < |goals|
    ensures Met(t, goals[k]) <==> GoalRepairable(db, goals, goals[k])
  {
    MetIffRight(t, goals[k]);
    forall slot | Names(goals[k], slot)
      ensures Right(t, goals[k], slot) <==> Right(db, goals[k], slot) || Asked(db, goals, |goals|, slot)
    {
    }
  }

  /** One sweep meets every goal exactly when every slot is right at the start or asked for by a clear goal. */
  lemma {:induction false} MeetsAllIffRepairable(db: Db, goals: seq<Goal>)
    requires AllFit(db, goals) && Unique(db) && Consistent(goals)
    ensures AllMet(Sweep(db, goals).db, goals) <==> Repairable(db, goals)
  {
    var t := Sweep(db, goals).db;
    SweepFrom(db, goals, 0);
    assert goals[0..] == goals;
    AtIsRepaired(db, goals, |goals|);
    assert AllFit(t, goals);
    forall k | 0 <= k < |goals|
      ensures Met(t, goals[k]) <==> GoalRepairable(db, goals, goals[k])
      ensures goals[k] in goals
    {
      MetIffGoalRepairable(db, goals, t, k);
    }
  }

  /** A sweep without a failing write repairs everything. */
  lemma {:induction false} ClearedIsRepairable(db: Db, goals: seq<Goal>)
    requires AllFit(db, goals) && Unique(db) && Consistent(goals) && Cleared(db, goals)
    ensures Repairable(db, goals)
  {
    FailsNowhereIffCleared(db, goals);
    FailureFreeSweepMeetsAll(db, goals);
    MeetsAllIffRepairable(db, goals);
  }

  /** The converse fails: when the leader's e-mail address is held by a member, the leader's own credential fails, but
   once the member is repaired the group credential repairs the leader, and everything is met. */
  lemma {:induction false} LaterGoalRepairs(db: Db, own: Goal, member: Goal, crew: Goal)
    requires AllFit(db, [own, member, crew]) && Unique(db) && Consistent([own, member, crew])
    requires own.user == crew.user && own.trip == crew.trip && own.group.None?
    requires own.user in db.users && db.users[own.user].dob == own.dob
    requires Holds(db, member.user, own) && (forall w | w in db.users && Holds(db, w, own) :: w == member.user)
    requires !Squatted(db, member)
    ensures !Cleared(db, [own, member, crew]) && AllMet(Sweep(db, [own, member, crew]).db, [own, member, crew])
  {
    var goals := [own, member, crew];
    assert goals[0] == own && goals[1] == member && goals[2] == crew;
    assert !Earlier(goals, 0, member.user);
    assert Clear(db, goals, 1);
    assert own in goals && crew in goals && Agree(own, crew);
    assert Clear(db, goals, 2) by {
      forall w | w in db.users && Holds(db, w, crew)
        ensures exists j | 0 <= j < 2 :: goals[j].user == w && Clear(db, goals, j)
      {
        assert Holds(db, w, own) && goals[1].user == w;
      }
    }
    forall k, slot | 0 <= k < 3 && Names(goals[k], slot)
      ensures Right(db, goals[k], slot) || Asked(db, goals, 3, slot)
    {
      if k > 0 {
        assert Names(goals[k], slot) && Clear(db, goals, k);
      } else if !slot.BirthOf? {
        assert Names(goals[2], slot) && Clear(db, goals, 2);
      }
    }
    MeetsAllIffRepairable(db, goals);
  }

  // ----- The sweep over credentials -----

  function ReconcileAll(db: Db, chain: Chain, refs: seq<Ref>): Outcome
    requires WellFormed(db)
    decreases |refs|
  {
    if refs == [] then Outcome(db, 0, 0)
    else
      var (t, v) := Reconcile(db, chain, refs[0]);
      ReconcileKeepsForm(db, chain, refs[0]);
      var rest := ReconcileAll(t, chain, refs[1..]);
      Outcome(rest.db, rest.restored + if v == RESTORED then 1 else 0, rest.failed + if v == FAILED then 1 else 0)
  }

  lemma {:induction false} ReconcileKeepsForm(db: Db, chain: Chain, ref: Ref)
    requires WellFormed(db)
    ensures WellFormed(Reconcile(db, chain, ref).0) && SameShape(db, Reconcile(db, chain, ref).0)
  {
    if Find(db, chain, ref).Want? {
      FindFits(db, chain, ref);
      RestoreKeepsShape(db, Find(db, chain, ref).goal);
      ShapeFixesGoals(db, Reconcile(db, chain, ref).0, chain, []);
    }
  }

  /** Reconciling credentials one by one is the sweep of their goals, whatever was written in between. */
  lemma {:induction false} ReconcileAllIsSweep(db: Db, chain: Chain, refs: seq<Ref>)
    requires WellFormed(db)
    ensures AllFit(db, Goals(db, chain, refs))
    ensures ReconcileAll(db, chain, refs).db == Sweep(db, Goals(db, chain, refs)).db
    ensures ReconcileAll(db, chain, refs).restored == Sweep(db, Goals(db, chain, refs)).restored
    ensures ReconcileAll(db, chain, refs).failed == Sweep(db, Goals(db, chain, refs)).failed + Throws(db, chain, refs)
    decreases |refs|
  {
    GoalsFit(db, chain, refs);
    if refs != [] {
      var (t, v) := Reconcile(db, chain, refs[0]);
      ReconcileKeepsForm(db, chain, refs[0]);
      ReconcileAllIsSweep(t, chain, refs[1..]);
      ShapeFixesGoals(db, t, chain, refs[1..]);
      var rest := Goals(db, chain, refs[1..]);
      if Find(db, chain, refs[0]).Want? {
        assert ([Find(db, chain, refs[0]).goal] + rest)[1..] == rest;
      } else {
        assert [] + rest == rest;
      }
    }
  }

  lemma {:induction false} WantedIsGoal(db: Db, chain: Chain, refs: seq<Ref>, ref: Ref)
    requires WellFormed(db) && ref in refs && Find(db, chain, ref).Want?
    ensures Find(db, chain, ref).goal in Goals(db, chain, refs)
    decreases |refs|
  {
    if ref != refs[0] {
      WantedIsGoal(db, chain, refs[1..], ref);
    }
  }

  lemma {:induction false} GoalIsWanted(db: Db, chain: Chain, refs: seq<Ref>, goal: Goal)
    requires WellFormed(db) && goal in Goals(db, chain, refs)
    ensures exists ref | ref in refs :: Find(db, chain, ref) == Want(goal)
    decreases |refs|
  {
    if Find(db, chain, refs[0]) != Want(goal) {
      GoalIsWanted(db, chain, refs[1..], goal);
      var ref :| ref in refs[1..] && Find(db, chain, ref) == Want(goal);
      assert ref in refs;
    }
  }

  const TAKE := 100

  predicate Eligible(db: Db, ref: Ref) {
    match ref
    case Individual(c) =>
      c in db.individuals && db.individuals[c].confirmed && !db.individuals[c].revoked
        && Open(db, db.individuals[c].trip)
    case GroupRef(c) => c in db.crews && db.crews[c].confirmed && !db.crews[c].revoked && Open(db, db.crews[c].trip)
  }

  /** One answer to the two queries: at most a hundred eligible rows of each kind, all of them when there are fewer, in
   an order the queries leave open. */
  ghost predicate Fetched(db: Db, individuals: seq<Ref>, crews: seq<Ref>) {
    && |individuals| <= TAKE && |crews| <= TAKE
    && (forall r | r in individuals :: r.Individual? && Eligible(db, r))
    && (forall r | r in crews :: r.GroupRef? && Eligible(db, r))
    && (|individuals| < TAKE ==> forall c :: Eligible(db, Individual(c)) ==> Individual(c) in individuals)
    && (|crews| < TAKE ==> forall c :: Eligible(db, GroupRef(c)) ==> GroupRef(c) in crews)
  }

  /** With trusted snapshots that agree, one sweep, whatever the order the database lists the credentials in, makes
   every protected field of every fetched credential equal its payload's exactly when every slot is right at the start
   or asked for by a clear goal; and then the next sweep writes nothing and returns zero. */
  lemma {:induction false} OneSweepRestoresAll(db: Db, chain: Chain, individuals: seq<Ref>, crews: seq<Ref>,
      later: seq<Ref>)
    requires WellFormed(db) && Unique(db) && Fetched(db, individuals, crews)
    requires Consistent(Goals(db, chain, individuals + crews))
    requires forall ref | ref in later :: ref in individuals + crews
    ensures var t := ReconcileAll(db, chain, individuals + crews).db;
      && WellFormed(t) && SameShape(db, t) && AllFit(db, Goals(db, chain, individuals + crews))
      && ((forall ref | ref in individuals + crews && Asks(db, chain, ref) :: Agrees(t, chain, ref)) <==>
           Repairable(db, Goals(db, chain, individuals + crews)))
      && (Repairable(db, Goals(db, chain, individuals + crews)) ==>
            ReconcileAll(t, chain, later) == Outcome(t, 0, Throws(db, chain, later)))
    ensures |individuals| < TAKE && |crews| < TAKE ==> forall ref :: Eligible(db, ref) ==> ref in individuals + crews
  {
    var refs := individuals + crews;
    var goals := Goals(db, chain, refs);
    var t := ReconcileAll(db, chain, refs).db;
    ReconcileAllIsSweep(db, chain, refs);
    SweepFits(db, goals);
    ShapeFixesGoals(db, t, chain, []);
    MeetsAllIffRepairable(db, goals);
    AllAgreeOfRefs(db, chain, refs, t);
    if Repairable(db, goals) { NextSweepIsIdle(db, chain, refs, later, t); }
  }

  lemma {:induction false} NextSweepIsIdle(db: Db, chain: Chain, refs: seq<Ref>, later: seq<Ref>, t: Db)
    requires WellFormed(db) && WellFormed(t) && SameShape(db, t) && AllMet(t, Goals(db, chain, refs))
    requires forall ref | ref in later :: ref in refs
    ensures ReconcileAll(t, chain, later) == Outcome(t, 0, Throws(db, chain, later))
  {
    ShapeFixesGoals(db, t, chain, later);
    ReconcileAllIsSweep(t, chain, later);
    AllMetOfRefs(db, chain, refs, t);
    AllMetOfRefs(db, chain, later, t);
    MetSweepIsIdle(t, Goals(t, chain, later));
  }

  lemma {:induction false} AllAgreeOfRefs(db: Db, chain: Chain, refs: seq<Ref>, t: Db)
    requires WellFormed(db) && WellFormed(t) && SameShape(db, t)
    ensures AllMet(t, Goals(db, chain, refs)) <==>
      forall ref | ref in refs && Asks(db, chain, ref) :: Agrees(t, chain, ref)
  {
    AllMetOfRefs(db, chain, refs, t);
    forall ref | ref in refs
      ensures Asks(db, chain, ref) <==> Find(db, chain, ref).Want?
      ensures Asks(db, chain, ref) ==>
        Fits(t, Find(db, chain, ref).goal) && (Met(t, Find(db, chain, ref).goal) <==> Agrees(t, chain, ref))
    {
      GoalIsPayload(db, chain, ref, t);
    }
  }

  lemma {:induction false} AllMetOfRefs(db: Db, chain: Chain, refs: seq<Ref>, t: Db)
    requires WellFormed(db)
    ensures AllMet(t, Goals(db, chain, refs)) <==>
      forall ref | ref in refs && Find(db, chain, ref).Want? ::
        Fits(t, Find(db, chain, ref).goal) && Met(t, Find(db, chain, ref).goal)
  {
    forall ref | ref in refs && Find(db, chain, ref).Want?
      ensures Find(db, chain, ref).goal in Goals(db, chain, refs)
    {
      WantedIsGoal(db, chain, refs, ref);
    }
    forall goal | goal in Goals(db, chain, refs)
      ensures exists ref | ref in refs :: Find(db, chain, ref) == Want(goal)
    {
      GoalIsWanted(db, chain, refs, goal);
    }
  }
}
