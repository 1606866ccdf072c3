/**
 Steps outside the discipline: appends that read the same count, a first snapshot that is not the first, and a success
 transaction whose answer is lost. */
module ServerQueueRaces {
  import opened Wrappers
  import opened TrustAnchor
  import opened Network
  import opened ServerQueue
  import opened ServerQueueTheorems

  /** Some steps, disciplined or not, lead from `a` to `b`. */
  ghost predicate Runs(a: State, b: State) { exists steps :: Run(a, steps) == b }

  lemma {:induction false} RunThenStep(s: State, steps: seq<Step>, last: Step)
    ensures Run(s, steps + [last]) == Do(Run(s, steps), last)
    decreases |steps|
  {
    if steps == [] {
      assert Run(Do(s, last), []) == Do(s, last);
    } else {
      assert (steps + [last])[1..] == steps[1..] + [last];
      RunThenStep(Do(s, steps[0]), steps[1..], last);
    }
  }

  lemma RunsStep(a: State, s: State, step: Step)
    requires Runs(a, s)
    ensures Runs(a, Do(s, step))
  {
    var steps :| Run(a, steps) == s;
    RunThenStep(a, steps, step);
  }

  // ----- Numbering -----

  /** The first snapshot is numbered 1 without a count: it keeps the numbering exactly when nothing is enqueued yet. */
  lemma FirstSnapshotNeedsNone(s: State, e: nat, payload: Payload)
    requires Inv(s) && e in s.creds
    ensures Numbered(DoService(s, e, EnqueueFirstSnapshot(payload)).jobs) <==>
            Enqueued(s.jobs, s.creds[e].idHash) == []
  {
    var d := DoService(s, e, EnqueueFirstSnapshot(payload));
    var n := |s.jobs|;
    assert d.jobs[..n] == s.jobs;
    assert d.jobs[n].call.snapshot.sequence == 1 && d.jobs[n].call.id == s.creds[e].idHash;
    forall j | 0 <= j < n && d.jobs[j].call.AppendDataSnapshot?
      ensures d.jobs[j].call.snapshot.sequence == |Enqueued(d.jobs[..j], d.jobs[j].call.id)| + 1
    {
      assert d.jobs[..j] == s.jobs[..j];
    }
  }

  // ----- Racing appends -----

  lemma {:induction false} NetMovesForward(s: State, later: seq<Step>)
    requires NetInv(s.net)
    ensures NetInv(Run(s, later).net) && Later(s.net.chain, Run(s, later).net.chain)
    decreases |later|
  {
    if later != [] {
      var d := Do(s, later[0]);
      match later[0] {
        case Mined(t) => MineKeepsNetInv(s.net, t);
        case ChainTick(seconds) => TickKeepsNetInv(s.net, seconds);
        case _ => assert d.net.chain == s.net.chain;
      }
      NetMovesForward(d, later[1..]);
      LaterTransitive(s.net.chain, d.net.chain, Run(s, later).net.chain);
    }
  }

  lemma RunsKeepsNet(a: State, s: State)
    requires NetInv(a.net) && Runs(a, s)
    ensures NetInv(s.net)
  {
    var steps :| Run(a, steps) == s;
    NetMovesForward(a, steps);
  }

  /** Once one of two different payloads with the same number is on chain, the other never is, whatever follows; yet a
   request for it is answered with success from then on. */
  lemma EqualNumbersExclude(s: State, one: Tx, other: Tx, later: seq<Step>)
    requires NetInv(s.net) && one.AppendDataSnapshot? && other.AppendDataSnapshot? && one.id == other.id
    requires one.snapshot.sequence == other.snapshot.sequence && one != other && Effect(s.net.chain, one)
    ensures var d := Run(s, later);
      && Effect(d.net.chain, one) && !Effect(d.net.chain, other)
      && forall r :: 0 <= r < |d.requests| && d.requests[r].call == other && d.requests[r].stage == RECEIVED ==>
           DoGateway(d, r, Count).requests[r].stage == REPLIED(true)
  {
    NetMovesForward(s, later);
    EffectIsForever(s.net.chain, Run(s, later).net.chain, one);
  }

  /** The only worker, idle, takes row `j` and posts its request. */
  lemma TakeRow(a: State, s: State, j: nat) returns (d: State)
    requires Runs(a, s) && j < |s.jobs| && s.workers == map[0 := IDLE]
    requires s.jobs[j].state == PENDING && s.jobs[j].availableAt <= s.clock
    requires forall i :: 0 <= i < j ==> s.jobs[i].state != PENDING
    ensures Runs(a, d)
    ensures d == s.(jobs := s.jobs[j := s.jobs[j].(state := PROCESSING, attempts := s.jobs[j].attempts + 1)],
                    requests := s.requests + [Request(s.jobs[j].call, j, RECEIVED)],
                    workers := map[0 := CALLING(j, s.jobs[j].attempts, |s.requests|)])
  {
    OldestIsFirstDue(s.jobs, s.clock, 0);
    assert Oldest(s.jobs, s.clock, 0) == Some(j);
    RunsStep(a, s, Worker(0, Find));
    d := Do(s, Worker(0, Find));
    RunsStep(a, d, Worker(0, Claim));
    d := Do(d, Worker(0, Claim));
    RunsStep(a, d, Worker(0, Call));
    d := Do(d, Worker(0, Call));
    assert d.workers == map[0 := CALLING(j, s.jobs[j].attempts, |s.requests|)];
  }

  /** The request is sent, mined and answered. */
  lemma MineRequest(a: State, s: State, r: nat) returns (d: State)
    requires Runs(a, s) && r < |s.requests| && s.requests[r].stage == RECEIVED
    requires Execute(s.net.chain, s.requests[r].call).Ok?
    ensures Runs(a, d)
    ensures d == s.(net := d.net, requests := s.requests[r := s.requests[r].(stage := REPLIED(true))])
    ensures d.net.chain == Execute(s.net.chain, s.requests[r].call).value
  {
    d := s;
    if s.requests[r].call.AppendDataSnapshot? {
      RunsStep(a, d, Gateway(r, Count));
      d := Do(d, Gateway(r, Count));
    }
    RunsStep(a, d, Gateway(r, Send(BROADCAST)));
    d := Do(d, Gateway(r, Send(BROADCAST)));
    RunsStep(a, d, Mined(|s.net.sent|));
    d := Do(d, Mined(|s.net.sent|));
    RunsStep(a, d, Gateway(r, Receipt));
    d := Do(d, Gateway(r, Receipt));
  }

  /** The worker receives success and confirms. */
  lemma ConfirmRow(a: State, s: State, j: nat, attempts: nat, r: nat) returns (d: State)
    requires Runs(a, s) && j < |s.jobs| && r < |s.requests| && s.requests[r].stage == REPLIED(true)
    requires s.workers == map[0 := CALLING(j, attempts, r)]
    ensures Runs(a, d) && d == s.(jobs := s.jobs[j := s.jobs[j].(state := CONFIRMED)], workers := map[0 := IDLE])
  {
    RunsStep(a, s, Worker(0, Receive));
    d := Do(s, Worker(0, Receive));
    RunsStep(a, d, Worker(0, Commit));
    d := Do(d, Worker(0, Commit));
    assert d.workers == map[0 := IDLE];
  }

  function Confirmed(jobs: seq<Job>, j: nat): seq<Job>
    requires j < |jobs|
  {
    jobs[j := jobs[j].(state := CONFIRMED, attempts := jobs[j].attempts + 1)]
  }

  /** The next row whose transaction the contract admits is anchored and confirmed. */
  lemma AnchorRow(a: State, s: State, j: nat) returns (d: State)
    requires Runs(a, s) && j < |s.jobs| && s.workers == map[0 := IDLE]
    requires s.jobs[j].state == PENDING && s.jobs[j].availableAt <= s.clock
    requires forall i :: 0 <= i < j ==> s.jobs[i].state != PENDING
    requires Execute(s.net.chain, s.jobs[j].call).Ok?
    ensures Runs(a, d) && d.jobs == Confirmed(s.jobs, j) && d.workers == s.workers && d.clock == s.clock
    ensures d.net.chain == Execute(s.net.chain, s.jobs[j].call).value && Effect(d.net.chain, s.jobs[j].call)
  {
    ExecuteHasEffect(s.net.chain, s.jobs[j].call);
    var r := |s.requests|;
    d := TakeRow(a, s, j);
    d := MineRequest(a, d, r);
    d := ConfirmRow(a, d, j, s.jobs[j].attempts, r);
  }

  /** The next row, whose number the contract's count has reached, is confirmed without a transaction. */
  lemma CountRow(a: State, s: State, j: nat) returns (d: State)
    requires Runs(a, s) && j < |s.jobs| && s.workers == map[0 := IDLE]
    requires s.jobs[j].state == PENDING && s.jobs[j].availableAt <= s.clock
    requires forall i :: 0 <= i < j ==> s.jobs[i].state != PENDING
    requires s.jobs[j].call.AppendDataSnapshot?
             && |SnapshotsOf(s.net.chain, s.jobs[j].call.id)| >= s.jobs[j].call.snapshot.sequence
    ensures Runs(a, d) && d.jobs == Confirmed(s.jobs, j) && d.net == s.net
  {
    var r := |s.requests|;
    d := TakeRow(a, s, j);
    RunsStep(a, d, Gateway(r, Count));
    d := Do(d, Gateway(r, Count));
    d := ConfirmRow(a, d, j, s.jobs[j].attempts, r);
  }

  function Append(s: State, e: nat, p: Payload, counted: nat): State {
    Do(s, Service(e, AppendMembershipSnapshot(p, counted)))
  }

  /** In state `s`, reached by serial operations, two appends read the current count, and workers led on to `d`: both
   rows are CONFIRMED, and the second payload is never on chain, whatever follows. */
  ghost predicate LostInRace(s: State, e: nat, p: Payload, q: Payload, d: State) {
    && Reachable(1, s) && e in s.creds && s.creds[e].kind == GROUP
    && var n, k := CountSnapshotJobs(s.jobs, e), |s.jobs|;
    && Runs(Append(Append(s, e, p, n), e, q, n), d)
    && |d.jobs| == k + 2
    && d.jobs[k].call == SnapshotCall(s.creds[e], p, n + 1)
    && d.jobs[k + 1].call == SnapshotCall(s.creds[e], q, n + 1)
    && d.jobs[k].state == CONFIRMED && d.jobs[k + 1].state == CONFIRMED
    && Effect(d.net.chain, d.jobs[k].call)
    && forall later :: !Effect(Run(d, later).net.chain, d.jobs[k + 1].call)
  }

  const FIRST := Payload(0, [0])

  lemma OneSnapshotJob() returns (s: State)
    ensures Reachable(1, s)
    ensures s == Init(1).(jobs := [Job(ISSUE, 0, PENDING, 0, 0),
                                   Job(SnapshotCall(Credential(GROUP, 7), FIRST, 1), 0, PENDING, 0, 0)],
                          creds := map[0 := Credential(GROUP, 7)], used := {7}, workers := map[0 := IDLE])
    ensures CountSnapshotJobs(s.jobs, 0) == 1
  {
    s := OneIssueJob();
    assert s.jobs[..0] == [] && Enqueued(s.jobs, 7) == [];
    ReachStep(1, s, Service(0, EnqueueFirstSnapshot(FIRST)));
    s := Do(s, Service(0, EnqueueFirstSnapshot(FIRST)));
    var before := s.jobs[..1];
    assert before == [Job(ISSUE, 0, PENDING, 0, 0)] && before[..0] == [];
    assert CountSnapshotJobs(before, 0) == 0;
  }

  /** Any two different payloads can be appended in a race that loses the second for ever, though both end CONFIRMED. */
  lemma RacingAppendsLoseAPayload(p: Payload, q: Payload)
    requires p != q && p.ciphertext != [] && q.ciphertext != []
    ensures exists s, d :: LostInRace(s, 0, p, q, d)
  {
    var s := OneSnapshotJob();
    var a := Append(Append(s, 0, p, 1), 0, q, 1);
    assert Run(a, []) == a;
    var d := AnchorRow(a, a, 0);
    d := AnchorRow(a, d, 1);
    d := AnchorRow(a, d, 2);
    d := CountRow(a, d, 3);
    RunsKeepsNet(a, d);
    forall later
      ensures !Effect(Run(d, later).net.chain, d.jobs[3].call)
    {
      EqualNumbersExclude(d, d.jobs[2].call, d.jobs[3].call, later);
    }
    assert LostInRace(s, 0, p, q, d);
  }

  // ----- Lost answers -----

  /** Whatever happened before, a step un-confirms a row exactly when it is a retry's write on that row, or the failure
   transaction of a worker that holds it. */
  lemma UnconfirmedIff(s: State, step: Step, j: nat)
    requires j < |s.jobs| && s.jobs[j].state == CONFIRMED
    ensures j < |Do(s, step).jobs|
    ensures Do(s, step).jobs[j].state != CONFIRMED <==>
      || step == RetryWrite(j)
      || (step.Worker? && step.workerAct == Fail && step.w in s.workers && s.workers[step.w].ANSWERED?
          && s.workers[step.w].job == j && !s.workers[step.w].ok)
  {
    JobsStay(s, step);
    if step.Worker? { WorkersUnconfirm(s, step.w, step.workerAct, j); }
  }

  lemma WorkersUnconfirm(s: State, w: nat, act: WorkerAct, j: nat)
    requires j < |s.jobs| <= |DoWorker(s, w, act).jobs| && s.jobs[j].state == CONFIRMED
    ensures DoWorker(s, w, act).jobs[j].state != CONFIRMED <==>
      act == Fail && w in s.workers && s.workers[w].ANSWERED? && s.workers[w].job == j && !s.workers[w].ok
  {
  }

  lemma AnsweredIssue() returns (s: State)
    ensures Reachable(1, s) && s.workers == map[0 := ANSWERED(0, 0, true)] && s.maxAttempts == 1
    ensures |s.jobs| == 1 && s.jobs[0].call == ISSUE && Effect(s.net.chain, ISSUE)
  {
    s := IssueBroadcast();
    ReachStep(1, s, Mined(0));
    s := Do(s, Mined(0));
    ReachStep(1, s, Gateway(0, Receipt));
    s := Do(s, Gateway(0, Receipt));
    ReachStep(1, s, Worker(0, Receive));
    s := Do(s, Worker(0, Receive));
    assert s.workers == map[0 := ANSWERED(0, 0, true)];
  }

  /** A success transaction that commits and whose answer is lost: the row is CONFIRMED, then FAILED though anchored. */
  lemma LostCommitUnconfirms()
    ensures exists s ::
      && Reachable(1, s) && |s.jobs| == 1 && |Do(s, Worker(0, CommitLost)).jobs| == 1
      && Do(s, Worker(0, CommitLost)).jobs[0].state == CONFIRMED
      && var d := Do(Do(s, Worker(0, CommitLost)), Worker(0, Fail));
         |d.jobs| == 1 && d.jobs[0].state == FAILED && Effect(d.net.chain, d.jobs[0].call)
  {
    var s := AnsweredIssue();
    var d := Do(s, Worker(0, CommitLost));
    assert d.jobs[0].state == CONFIRMED && d.workers[0] == ANSWERED(0, 0, false);
    assert Do(d, Worker(0, Fail)).jobs[0].state == FAILED;
  }
}
