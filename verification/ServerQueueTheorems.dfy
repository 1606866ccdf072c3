/**
 What holds over whole runs of the server's anchoring pipeline, and what does not.

 A run is any sequence of steps from the empty system; `Reachable` asks that the
 steps be disciplined (serial credential operations, retryFailed in one step).
 */
module ServerQueueTheorems {
  import opened Wrappers
  import opened TrustAnchor
  import opened Network
  import opened ServerQueue

  ghost predicate Reachable(maxAttempts: nat, s: State) {
    exists steps :: DisciplinedRun(Init(maxAttempts), steps) && Run(Init(maxAttempts), steps) == s
  }

  lemma {:induction false} RunKeepsInv(s: State, steps: seq<Step>)
    requires Inv(s) && DisciplinedRun(s, steps)
    ensures Inv(Run(s, steps))
    decreases |steps|
  {
    if steps != [] {
      StepKeepsInv(s, steps[0]);
      RunKeepsInv(Do(s, steps[0]), steps[1..]);
    }
  }

  lemma ReachableInv(maxAttempts: nat, s: State)
    requires Reachable(maxAttempts, s)
    ensures Inv(s)
  {
    var steps :| DisciplinedRun(Init(maxAttempts), steps) && Run(Init(maxAttempts), steps) == s;
    RunKeepsInv(Init(maxAttempts), steps);
  }

  lemma {:induction false} RunSnoc(s: State, steps: seq<Step>, last: Step)
    requires DisciplinedRun(s, steps) && Disciplined(Run(s, steps), last)
    ensures DisciplinedRun(s, steps + [last]) && Run(s, steps + [last]) == Do(Run(s, steps), last)
    decreases |steps|
  {
    if steps != [] {
      assert (steps + [last])[1..] == steps[1..] + [last];
      RunSnoc(Do(s, steps[0]), steps[1..], last);
    } else {
      assert Run(Do(s, last), []) == Do(s, last);
    }
  }

  lemma ReachStep(maxAttempts: nat, s: State, step: Step)
    requires Reachable(maxAttempts, s) && Disciplined(s, step)
    ensures Reachable(maxAttempts, Do(s, step))
  {
    var steps :| DisciplinedRun(Init(maxAttempts), steps) && Run(Init(maxAttempts), steps) == s;
    RunSnoc(Init(maxAttempts), steps, step);
  }

  // ----- Moving forward -----

  ghost predicate Forward(s: State, d: State) {
    && Later(s.net.chain, d.net.chain)
    && |s.jobs| <= |d.jobs|
    && (forall j :: 0 <= j < |s.jobs| ==>
          && d.jobs[j].call == s.jobs[j].call
          && d.jobs[j].entity == s.jobs[j].entity
          && (s.jobs[j].state == CONFIRMED ==> d.jobs[j].state == CONFIRMED))
  }

  /** Workers and retries change only row states, and never leave CONFIRMED. */
  lemma RowsMoveForward(s: State, step: Step)
    requires Disciplined(s, step) && !step.Mined? && !step.ChainTick?
    requires step.Worker? && step.w in s.workers ==> WorkerInv(s, s.workers[step.w])
    ensures Forward(s, Do(s, step))
  {
  }

  lemma StepMovesForward(s: State, step: Step)
    requires Inv(s) && Disciplined(s, step)
    ensures Forward(s, Do(s, step))
  {
    match step
    case Mined(t) => MinedStep(s, t);
    case ChainTick(n) => TickKeepsNetInv(s.net, n);
    case _ => RowsMoveForward(s, step);
  }

  lemma {:induction false} RunMovesForward(s: State, steps: seq<Step>)
    requires Inv(s) && DisciplinedRun(s, steps)
    ensures Forward(s, Run(s, steps))
    decreases |steps|
  {
    if steps != [] {
      var d := Do(s, steps[0]);
      StepKeepsInv(s, steps[0]);
      StepMovesForward(s, steps[0]);
      RunMovesForward(d, steps[1..]);
      LaterTransitive(s.net.chain, d.net.chain, Run(s, steps).net.chain);
    }
  }

  // ----- Main results -----

  /** On chain is always exactly a prefix, in order, of what was enqueued. */
  lemma SnapshotsArePrefix(maxAttempts: nat, s: State, id: Hash)
    requires Reachable(maxAttempts, s)
    ensures SnapshotsOf(s.net.chain, id) <= Enqueued(s.jobs, id)
  {
    ReachableInv(maxAttempts, s);
    assert PrefixInv(s.net.chain, s.jobs);
  }

  /** A SNAPSHOT job is anchored exactly when the contract's count has reached its number, whatever its row says. */
  lemma SnapshotAnchoredIffCounted(maxAttempts: nat, s: State, j: nat)
    requires Reachable(maxAttempts, s) && j < |s.jobs| && s.jobs[j].call.AppendDataSnapshot?
    ensures Effect(s.net.chain, s.jobs[j].call) <==>
            |SnapshotsOf(s.net.chain, s.jobs[j].call.id)| >= s.jobs[j].call.snapshot.sequence
    ensures s.jobs[j].state == CONFIRMED ==>
      |SnapshotsOf(s.net.chain, s.jobs[j].call.id)| >= s.jobs[j].call.snapshot.sequence
  {
    ReachableInv(maxAttempts, s);
    NumberIsPosition(s.jobs, j);
    SnapshotsArePrefix(maxAttempts, s, s.jobs[j].call.id);
    assert ConfirmedInv(s.net.chain, s.jobs);
  }

  /** CONFIRMED is final, and the confirmed effect holds then and at every later time. */
  lemma ConfirmedIsFinalAndTrue(maxAttempts: nat, s: State, later: seq<Step>, j: nat)
    requires Reachable(maxAttempts, s) && DisciplinedRun(s, later)
    requires j < |s.jobs| && s.jobs[j].state == CONFIRMED
    ensures var d := Run(s, later);
            && j < |d.jobs| && d.jobs[j].state == CONFIRMED && d.jobs[j].call == s.jobs[j].call
            && Effect(s.net.chain, s.jobs[j].call)
            && Effect(d.net.chain, s.jobs[j].call)
  {
    ReachableInv(maxAttempts, s);
    assert ConfirmedInv(s.net.chain, s.jobs);
    RunMovesForward(s, later);
    EffectIsForever(s.net.chain, Run(s, later).net.chain, s.jobs[j].call);
  }

  /** A row is PROCESSING exactly when some worker, dead or alive, holds it, and then only one does. */
  lemma ProcessingHasOneOwner(maxAttempts: nat, s: State, j: nat)
    requires Reachable(maxAttempts, s) && j < |s.jobs|
    ensures s.jobs[j].state == PROCESSING <==> exists w :: Owns(s, w, j)
    ensures forall w, v :: Owns(s, w, j) && Owns(s, v, j) ==> w == v
  {
    ReachableInv(maxAttempts, s);
    assert OwnersInv(s);
    forall w | Owns(s, w, j) ensures s.jobs[j].state == PROCESSING { assert WorkerInv(s, s.workers[w]); }
  }

  lemma DeadStaysDead(s: State, w: nat, step: Step)
    requires w in s.workers && s.workers[w].DEAD?
    ensures w in Do(s, step).workers && Do(s, step).workers[w] == s.workers[w]
  {
  }

  /** Nothing ever takes a dead worker's row back out of PROCESSING. */
  lemma {:induction false} StrandedForever(s: State, w: nat, j: nat, later: seq<Step>)
    requires Inv(s) && DisciplinedRun(s, later)
    requires w in s.workers && s.workers[w] == DEAD(Some(j))
    ensures var d := Run(s, later);
            j < |d.jobs| && d.jobs[j].state == PROCESSING && w in d.workers && d.workers[w] == DEAD(Some(j))
    decreases |later|
  {
    assert WorkerInv(s, s.workers[w]);
    if later != [] {
      var d := Do(s, later[0]);
      StepKeepsInv(s, later[0]);
      DeadStaysDead(s, w, later[0]);
      StrandedForever(d, w, j, later[1..]);
    }
  }

  /** No effect is ever recorded twice, however often its transaction was submitted. */
  lemma EachEffectOnce(maxAttempts: nat, s: State, a: nat, b: nat)
    requires Reachable(maxAttempts, s) && a < b < |s.net.chain.events|
    ensures s.net.chain.events[a] != s.net.chain.events[b]
  {
    ReachableInv(maxAttempts, s);
  }

  // ----- Where the discipline is needed -----

  /** Among all steps, only a retry writing over a CONFIRMED row un-confirms it. */
  lemma OnlyStaleRetryUnconfirms(s: State, step: Step, j: nat)
    requires Inv(s) && j < |s.jobs| && s.jobs[j].state == CONFIRMED
    ensures j < |Do(s, step).jobs| && (Do(s, step).jobs[j].state != CONFIRMED <==> step == RetryWrite(j))
  {
    JobsStay(s, step);
    if step.Worker? {
      WorkersKeepConfirmed(s, step.w, step.workerAct, j);
    } else {
      OthersKeepConfirmed(s, step, j);
    }
  }

  lemma OthersKeepConfirmed(s: State, step: Step, j: nat)
    requires j < |s.jobs| <= |Do(s, step).jobs| && s.jobs[j].state == CONFIRMED && !step.Worker?
    ensures Do(s, step).jobs[j].state == CONFIRMED <==> step != RetryWrite(j)
  {
  }

  lemma JobsStay(s: State, step: Step)
    ensures |s.jobs| <= |Do(s, step).jobs|
  {
  }

  lemma WorkersKeepConfirmed(s: State, w: nat, act: WorkerAct, j: nat)
    requires Inv(s) && j < |s.jobs| && s.jobs[j].state == CONFIRMED
    ensures DoWorker(s, w, act).jobs[j].state == CONFIRMED
  {
    if w in s.workers { assert WorkerInv(s, s.workers[w]); }
  }

  /** A membership append keeps the numbering exactly when the count it read is still the count. */
  lemma NumberingNeedsFreshCount(s: State, e: nat, payload: Payload, counted: nat)
    requires Inv(s) && e in s.creds && s.creds[e].kind == GROUP
    ensures Numbered(DoService(s, e, AppendMembershipSnapshot(payload, counted)).jobs) <==>
            counted == CountSnapshotJobs(s.jobs, e)
  {
    var d := DoService(s, e, AppendMembershipSnapshot(payload, counted));
    var n := |s.jobs|;
    EnqueuedIsCount(s.jobs, e, s.creds[e].idHash);
    assert d.jobs[..n] == s.jobs;
    assert d.jobs[n].call.snapshot.sequence == counted + 1;
    forall j | 0 <= j < n && d.jobs[j].call.AppendDataSnapshot?
      ensures d.jobs[j].call.snapshot.sequence == |Enqueued(d.jobs[..j], d.jobs[j].call.id)| + 1
    {
      assert d.jobs[..j] == s.jobs[..j];
    }
  }

  // ----- Counterexamples -----

  const ISSUE := IssueId(7, 1, 0, 100)

  /** One credential with its ISSUE job, one attempt allowed, one idle worker. */
  lemma OneIssueJob() returns (s: State)
    ensures Reachable(1, s)
    ensures s == Init(1).(jobs := [Job(ISSUE, 0, PENDING, 0, 0)], creds := map[0 := Credential(GROUP, 7)],
                          used := {7}, workers := map[0 := IDLE])
  {
    s := Init(1);
    assert DisciplinedRun(s, []) && Run(s, []) == s;
    ReachStep(1, s, Service(0, CreateCredential(GROUP, 7)));
    s := Do(s, Service(0, CreateCredential(GROUP, 7)));
    ReachStep(1, s, Service(0, EnqueueIssue(1, 0, 100)));
    s := Do(s, Service(0, EnqueueIssue(1, 0, 100)));
    ReachStep(1, s, Worker(0, Start));
    s := Do(s, Worker(0, Start));
  }

  /** The ISSUE is claimed and broadcast. */
  lemma IssueBroadcast() returns (s: State)
    ensures Reachable(1, s)
    ensures s.jobs == [Job(ISSUE, 0, PROCESSING, 1, 0)] && s.workers == map[0 := CALLING(0, 0, 0)]
    ensures s.requests == [Request(ISSUE, 0, AWAITING(0))] && s.clock == 0 && s.maxAttempts == 1
    ensures s.net == Net(EMPTY, [Sent(ISSUE, 0, IN_FLIGHT)])
    ensures s.creds == map[0 := Credential(GROUP, 7)]
  {
    s := OneIssueJob();
    s := ClaimFirst(1, s);
    assert s.workers == map[0 := CALLING(0, 0, 0)];
    ReachStep(1, s, Gateway(0, Send(BROADCAST)));
    s := Do(s, Gateway(0, Send(BROADCAST)));
  }

  /** The ISSUE is broadcast, the worker gives up, and only then is it mined. */
  lemma IssuedAfterGiveUp() returns (s: State)
    ensures Reachable(1, s)
    ensures s.jobs == [Job(ISSUE, 0, FAILED, 1, 2000)] && s.workers == map[0 := IDLE] && s.clock == 0
    ensures |s.requests| == 1 && s.creds == map[0 := Credential(GROUP, 7)] && s.maxAttempts == 1
    ensures s.net.chain.ids == map[7 := DigitalId(1, 0, 100, ACTIVE)] && s.net.chain.now == 0
  {
    s := IssueBroadcast();
    ReachStep(1, s, Worker(0, GiveUp));
    s := Do(s, Worker(0, GiveUp));
    ReachStep(1, s, Worker(0, Fail));
    assert Backoff(1) == 2000 by { assert Pow2(1) == 2; }
    s := Do(s, Worker(0, Fail));
    assert s.workers == map[0 := IDLE];
    ReachStep(1, s, Mined(0));
    s := Do(s, Mined(0));
  }

  lemma ClaimFirst(max: nat, s: State) returns (d: State)
    requires Reachable(max, s) && s.jobs != [] && s.jobs[0].state == PENDING && s.jobs[0].availableAt <= s.clock
    requires 0 in s.workers && s.workers[0] == IDLE
    ensures Reachable(max, d)
    ensures d == s.(jobs := s.jobs[0 := s.jobs[0].(state := PROCESSING, attempts := s.jobs[0].attempts + 1)],
                    requests := s.requests + [Request(s.jobs[0].call, 0, RECEIVED)],
                    workers := s.workers[0 := CALLING(0, s.jobs[0].attempts, |s.requests|)])
  {
    ReachStep(max, s, Worker(0, Find));
    d := Do(s, Worker(0, Find));
    assert Oldest(s.jobs, s.clock, 0) == Some(0);
    ReachStep(max, d, Worker(0, Claim));
    d := Do(d, Worker(0, Claim));
    ReachStep(max, d, Worker(0, Call));
    d := Do(d, Worker(0, Call));
    assert d.workers == s.workers[0 := CALLING(0, s.jobs[0].attempts, |s.requests|)];
  }

  /** FAILED does not mean "not on chain". */
  lemma FailedButAnchored()
    ensures exists s ::
      Reachable(1, s) && |s.jobs| == 1 && s.jobs[0].state == FAILED && Effect(s.net.chain, s.jobs[0].call)
  {
    var s := IssuedAfterGiveUp();
    assert Effect(s.net.chain, s.jobs[0].call);
  }

  lemma ConfirmedByRecovery(s: State) returns (d: State)
    requires Reachable(1, s) && |s.jobs| == 1 && s.workers == map[0 := CALLING(0, 0, 1)] && |s.requests| == 2
    requires s.requests[1] == Request(ISSUE, 0, RECEIVED)
    requires s.net.chain.ids == map[7 := DigitalId(1, 0, 100, ACTIVE)]
    ensures Reachable(1, d) && |d.jobs| == 1 && d.jobs[0].state == CONFIRMED
  {
    ReachStep(1, s, Gateway(1, Send(REFUSED)));
    d := Do(s, Gateway(1, Send(REFUSED)));
    assert d == SetStage(s, 1, CAUGHT(REVERT(ID_ALREADY_ISSUED)));
    ReachStep(1, d, Gateway(1, Recover));
    d := Do(d, Gateway(1, Recover));
    assert d.requests[1].stage == REPLIED(true) && d.workers == s.workers && |d.jobs| == 1;
    ReachStep(1, d, Worker(0, Receive));
    d := Do(d, Worker(0, Receive));
    ReachStep(1, d, Worker(0, Commit));
    d := Do(d, Worker(0, Commit));
  }

  /** After such a failure a retry confirms the job; a second retry that had read FAILED earlier then un-confirms it. */
  lemma StaleRetryUnconfirms()
    ensures exists s :: Reachable(1, s) && |s.jobs| == 1 && s.jobs[0].state == CONFIRMED &&
                        Do(s, RetryWrite(0)).jobs[0].state == PENDING
  {
    var s := IssuedAfterGiveUp();
    ReachStep(1, s, RetryWrite(0));
    var d := Do(s, RetryWrite(0));
    assert d.jobs[0] == Job(ISSUE, 0, PENDING, 0, 0) && d.workers[0] == IDLE;
    var e := ClaimFirst(1, d);
    assert e.workers == map[0 := CALLING(0, 0, 1)];
    var f := ConfirmedByRecovery(e);
    assert Do(f, RetryWrite(0)).jobs[0].state == PENDING;
  }

  /** A worker takes the first row that is PENDING and due, and only that one. */
  lemma {:induction false} OldestIsFirstDue(jobs: seq<Job>, clock: nat, k: nat)
    ensures Oldest(jobs, clock, k) == None <==>
            forall i :: k <= i < |jobs| ==> jobs[i].state != PENDING || jobs[i].availableAt > clock
    ensures Oldest(jobs, clock, k).Some? ==>
            var j := Oldest(jobs, clock, k).value;
            && k <= j < |jobs| && jobs[j].state == PENDING && jobs[j].availableAt <= clock
            && forall i :: k <= i < j ==> jobs[i].state != PENDING || jobs[i].availableAt > clock
    decreases |jobs| - k
  {
    if k < |jobs| { OldestIsFirstDue(jobs, clock, k + 1); }
  }
}
