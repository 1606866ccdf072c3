/**
 Where the pipeline falls short of what its rows suggest, and exactly when: which jobs have their effect on chain, when
 an EXTEND overtakes its ISSUE, and which rows are stranded. */
module ServerQueueLimits {
  import opened Wrappers
  import opened TrustAnchor
  import opened Network
  import opened ServerQueue
  import opened ServerQueueTheorems

  /** The delay before the next attempt starts at a second, doubles, and stays at a minute once it has reached it. */
  lemma BackoffDoubles(attempts: nat)
    ensures Backoff(0) == 1000 && Backoff(attempts) <= 60_000
    ensures Backoff(attempts + 1) == if 2 * Backoff(attempts) < 60_000 then 2 * Backoff(attempts) else 60_000
  {
  }

  // ----- What FAILED means on chain -----

  lemma StepKeepsOriginInv(s: State, step: Step)
    requires OriginInv(s.net)
    ensures OriginInv(Do(s, step).net)
  {
    match step
    case Mined(t) => MineKeepsOriginInv(s.net, t);
    case ChainTick(seconds) => TickKeepsOriginInv(s.net, seconds);
    case Gateway(r, _) =>
      if r < |s.requests| { BroadcastKeepsOriginInv(s.net, s.requests[r].call, s.requests[r].job); }
    case Worker(_, _) =>
    case Service(_, _) =>
    case _ =>
  }

  lemma {:induction false} RunKeepsOriginInv(s: State, steps: seq<Step>)
    requires OriginInv(s.net)
    ensures OriginInv(Run(s, steps).net)
    decreases |steps|
  {
    if steps != [] {
      StepKeepsOriginInv(s, steps[0]);
      RunKeepsOriginInv(Do(s, steps[0]), steps[1..]);
    }
  }

  /** Some transaction sent for a job of this pipeline succeeded and brings the effect of `call`. */
  ghost predicate Anchored(s: State, call: Tx) {
    exists t :: 0 <= t < |s.net.sent| && s.net.sent[t].fate == SUCCEEDED && Brings(s.net.sent[t].tx, call)
                && s.net.sent[t].owner < |s.jobs| && s.jobs[s.net.sent[t].owner].call == s.net.sent[t].tx
  }

  /** Whatever a row says, FAILED included, its effect is on chain exactly when some transaction sent for a job
   succeeded that brings it: nothing is on chain that no job sent. */
  lemma EffectIffSucceeded(maxAttempts: nat, s: State, j: nat)
    requires Reachable(maxAttempts, s) && j < |s.jobs| && !Vacuous(s.jobs[j].call)
    ensures Effect(s.net.chain, s.jobs[j].call) <==> Anchored(s, s.jobs[j].call)
  {
    ReachableInv(maxAttempts, s);
    ReachableOriginInv(maxAttempts, s);
    if Brought(s.net, s.jobs[j].call) {
      var t :| 0 <= t < |s.net.sent| && s.net.sent[t].fate == SUCCEEDED && Brings(s.net.sent[t].tx, s.jobs[j].call);
      assert s.net.sent[t].owner < |s.jobs|;
    }
  }

  lemma ReachableOriginInv(maxAttempts: nat, s: State)
    requires Reachable(maxAttempts, s)
    ensures OriginInv(s.net)
  {
    var steps :| DisciplinedRun(Init(maxAttempts), steps) && Run(Init(maxAttempts), steps) == s;
    assert OriginInv(Init(maxAttempts).net);
    RunKeepsOriginInv(Init(maxAttempts), steps);
  }

  // ----- Overtaking -----

  predicate Due(s: State, j: nat)
    requires j < |s.jobs|
  {
    s.jobs[j].state == PENDING && s.jobs[j].availableAt <= s.clock
  }

  predicate Takes(s: State, w: nat, j: nat) {
    var d := Do(s, Worker(w, Find));
    w in d.workers && d.workers[w].FOUND? && d.workers[w].job == j
  }

  /** An idle worker takes row `j` exactly when it is due and no row before it is. */
  lemma TakesIffFirstDue(s: State, w: nat, j: nat)
    requires w in s.workers && s.workers[w] == IDLE
    ensures Takes(s, w, j) <==> j < |s.jobs| && Due(s, j) && forall i :: 0 <= i < j ==> !Due(s, i)
  {
    OldestIsFirstDue(s.jobs, s.clock, 0);
    var first := Oldest(s.jobs, s.clock, 0);
    if first.Some? {
      assert Due(s, first.value) && forall i :: 0 <= i < first.value ==> !Due(s, i);
    }
  }

  /** The oldest PENDING row is passed over exactly while it is backing off. */
  lemma OvertakenIffBackingOff(s: State, w: nat, oldest: nat)
    requires w in s.workers && s.workers[w] == IDLE && Do(s, Worker(w, Find)).workers[w].FOUND?
    requires oldest < |s.jobs| && s.jobs[oldest].state == PENDING
    requires forall i :: 0 <= i < oldest ==> s.jobs[i].state != PENDING
    ensures Do(s, Worker(w, Find)).workers[w].job != oldest <==> s.jobs[oldest].availableAt > s.clock
  {
    TakesIffFirstDue(s, w, oldest);
  }

  /** A row that has not been confirmed and cannot be taken. */
  predicate Unsettled(s: State, i: nat)
    requires i < |s.jobs|
  {
    s.jobs[i].state == PROCESSING || s.jobs[i].state == FAILED
      || (s.jobs[i].state == PENDING && s.jobs[i].availableAt > s.clock)
  }

  /** An EXTEND is taken before its unconfirmed ISSUE exactly when it is due, no row before it is, and the ISSUE is
   PROCESSING, FAILED, or backing off. The contract would then refuse it as unknown exactly when no ISSUE transaction of
   the id has succeeded; and of a confirmed ISSUE it never does. */
  lemma OvertakesIffUnsettled(maxAttempts: nat, s: State, w: nat, i: nat, j: nat)
    requires Reachable(maxAttempts, s) && w in s.workers && s.workers[w] == IDLE
    requires i < j < |s.jobs| && s.jobs[i].call.IssueId? && s.jobs[j].call.ExtendId?
             && s.jobs[i].call.id == s.jobs[j].call.id
    ensures Takes(s, w, j) && s.jobs[i].state != CONFIRMED <==>
      Due(s, j) && (forall k :: 0 <= k < j ==> !Due(s, k)) && Unsettled(s, i)
    ensures Execute(s.net.chain, s.jobs[j].call) == Err(ID_NOT_FOUND) <==>
      IsUint64(s.jobs[j].call.expiresAt) && !Anchored(s, s.jobs[i].call)
    ensures Takes(s, w, j) && Execute(s.net.chain, s.jobs[j].call) == Err(ID_NOT_FOUND) ==> Unsettled(s, i)
  {
    TakesIffFirstDue(s, w, j);
    EffectIffSucceeded(maxAttempts, s, i);
    ReachableInv(maxAttempts, s);
    assert ConfirmedInv(s.net.chain, s.jobs);
    assert !Due(s, i) ==> (s.jobs[i].state != CONFIRMED <==> Unsettled(s, i));
  }

  const EXTEND := ExtendId(7, 200)

  /** An ISSUE and its EXTEND, and an idle worker. */
  lemma TwoJobs(max: nat) returns (s: State)
    ensures Reachable(max, s)
    ensures s.jobs == [Job(ISSUE, 0, PENDING, 0, 0), Job(EXTEND, 0, PENDING, 0, 0)]
    ensures s.workers == map[0 := IDLE] && s.clock == 0 && s.net.chain == EMPTY && s.requests == []
            && s.maxAttempts == max
  {
    s := Init(max);
    assert DisciplinedRun(s, []) && Run(s, []) == s;
    ReachStep(max, s, Service(0, CreateCredential(GROUP, 7)));
    s := Do(s, Service(0, CreateCredential(GROUP, 7)));
    ReachStep(max, s, Service(0, EnqueueIssue(1, 0, 100)));
    s := Do(s, Service(0, EnqueueIssue(1, 0, 100)));
    ReachStep(max, s, Service(0, EnqueueExtend(200)));
    s := Do(s, Service(0, EnqueueExtend(200)));
    ReachStep(max, s, Worker(0, Start));
    s := Do(s, Worker(0, Start));
  }

  /** The ISSUE was claimed and its call given up: it backs off, or has FAILED when one attempt is all it gets. */
  lemma GivenUp(max: nat) returns (s: State)
    requires 1 <= max <= 2
    ensures Reachable(max, s)
    ensures s.jobs == [Job(ISSUE, 0, if max == 1 then FAILED else PENDING, 1, 2000), Job(EXTEND, 0, PENDING, 0, 0)]
    ensures s.workers == map[0 := IDLE] && s.clock == 0 && s.net.chain == EMPTY
  {
    s := TwoJobs(max);
    s := ClaimFirst(max, s);
    assert s.workers == map[0 := CALLING(0, 0, 0)];
    ReachStep(max, s, Worker(0, GiveUp));
    s := Do(s, Worker(0, GiveUp));
    ReachStep(max, s, Worker(0, Fail));
    assert Backoff(1) == 2000 by { assert Pow2(1) == 2; }
    s := Do(s, Worker(0, Fail));
  }

  ghost predicate Overtaken(max: nat, s: State, w: nat, issue: JobState) {
    && Reachable(max, s) && |s.jobs| == 2 && s.jobs[0].call == ISSUE && s.jobs[1].call == EXTEND
    && s.jobs[0].state == issue && w in s.workers && s.workers[w] == FOUND(1, 0)
    && Execute(s.net.chain, EXTEND) == Err(ID_NOT_FOUND)
  }

  lemma TakeExtend(max: nat, s: State, w: nat) returns (d: State)
    requires Reachable(max, s) && w in s.workers && s.workers[w] == IDLE && |s.jobs| == 2
    requires s.jobs[0].call == ISSUE && !Due(s, 0) && s.jobs[1] == Job(EXTEND, 0, PENDING, 0, 0) && s.net.chain == EMPTY
    ensures Overtaken(max, d, w, s.jobs[0].state)
  {
    TakesIffFirstDue(s, w, 1);
    ReachStep(max, s, Worker(w, Find));
    d := Do(s, Worker(w, Find));
  }

  /** All three ways are reachable: the ISSUE backing off, FAILED, or with another worker. */
  lemma ExtendOvertakesIssue()
    ensures exists s :: Overtaken(2, s, 0, PENDING)
    ensures exists s :: Overtaken(1, s, 0, FAILED)
    ensures exists s :: Overtaken(2, s, 1, PROCESSING)
  {
    var s := GivenUp(2);
    s := TakeExtend(2, s, 0);
    assert Overtaken(2, s, 0, PENDING);
    var f := GivenUp(1);
    f := TakeExtend(1, f, 0);
    assert Overtaken(1, f, 0, FAILED);
    var p := TwoJobs(2);
    p := ClaimFirst(2, p);
    ReachStep(2, p, Worker(1, Start));
    p := Do(p, Worker(1, Start));
    p := TakeExtend(2, p, 1);
    assert Overtaken(2, p, 1, PROCESSING);
  }

  // ----- Stranded rows -----

  /** No continuation takes the row out of PROCESSING. */
  ghost predicate Stuck(s: State, j: nat) {
    forall later :: DisciplinedRun(s, later) ==> j < |Run(s, later).jobs| && Run(s, later).jobs[j].state == PROCESSING
  }

  lemma StepThen(s: State, step: Step, later: seq<Step>)
    requires Disciplined(s, step) && DisciplinedRun(Do(s, step), later)
    ensures DisciplinedRun(s, [step] + later) && Run(s, [step] + later) == Run(Do(s, step), later)
  {
    assert ([step] + later)[1..] == later;
  }

  /** How many awaits a worker has before it. */
  function Ahead(pc: Pc): nat {
    match pc
    case CLAIMED(_, _) => 3
    case CALLING(_, _, _) => 2
    case ANSWERED(_, _, ok) => if ok then 1 else 0
    case _ => 0
  }

  /** A worker that lives can let go of its row: its call is made, given up and recorded as a failure. */
  lemma {:induction false} LivingOwnerLetsGo(s: State, w: nat, j: nat) returns (later: seq<Step>)
    requires Inv(s) && Owns(s, w, j) && !s.workers[w].DEAD?
    ensures DisciplinedRun(s, later) && j < |Run(s, later).jobs| && Run(s, later).jobs[j].state != PROCESSING
    decreases Ahead(s.workers[w])
  {
    assert WorkerInv(s, s.workers[w]);
    var act := match s.workers[w]
      case CLAIMED(_, _) => Call
      case CALLING(_, _, _) => GiveUp
      case ANSWERED(_, _, ok) => if ok then CommitThrows else Fail
      case _ => Fail;
    var step := Worker(w, act);
    var d := Do(s, step);
    StepKeepsInv(s, step);
    var rest: seq<Step> := [];
    if act != Fail { rest := LivingOwnerLetsGo(d, w, j); }
    StepThen(s, step, rest);
    later := [step] + rest;
  }

  /** A PROCESSING row can never leave that state exactly when the worker that holds it is dead. */
  lemma StuckIffOwnerDead(maxAttempts: nat, s: State, j: nat)
    requires Reachable(maxAttempts, s) && j < |s.jobs| && s.jobs[j].state == PROCESSING
    ensures Stuck(s, j) <==> exists w :: w in s.workers && s.workers[w] == DEAD(Some(j))
  {
    ReachableInv(maxAttempts, s);
    assert OwnersInv(s);
    var w :| Owns(s, w, j);
    if s.workers[w].DEAD? {
      forall later | DisciplinedRun(s, later)
        ensures j < |Run(s, later).jobs| && Run(s, later).jobs[j].state == PROCESSING
      {
        StrandedForever(s, w, j, later);
      }
    } else {
      var later := LivingOwnerLetsGo(s, w, j);
      forall v | v in s.workers && s.workers[v] == DEAD(Some(j))
        ensures v == w
      {
        assert Owns(s, v, j);
      }
    }
  }

  /** Such a row is reachable: a worker claims the first job and dies. */
  lemma CrashStrands()
    ensures exists s :: Reachable(1, s) && |s.jobs| == 1 && s.jobs[0].state == PROCESSING
                        && s.workers == map[0 := DEAD(Some(0))] && Stuck(s, 0)
  {
    var s := OneIssueJob();
    s := ClaimFirst(1, s);
    ReachStep(1, s, Worker(0, Crash));
    var d := Do(s, Worker(0, Crash));
    assert d.workers == map[0 := DEAD(Some(0))] && d.jobs == s.jobs;
    assert 0 in d.workers && d.workers[0] == DEAD(Some(0));
    StuckIffOwnerDead(1, d, 0);
    assert Reachable(1, d) && |d.jobs| == 1 && d.jobs[0].state == PROCESSING && Stuck(d, 0);
  }
}
