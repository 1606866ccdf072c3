/**
 What the gateway's recovery answers: when a failed transaction is answered with success because the chain already
 shows what was asked for, and when it is not although it does. */
module ServerQueueRecovery {
  import opened Wrappers
  import opened TrustAnchor
  import opened Network
  import opened ServerQueue
  import opened ServerQueueTheorems

  /** What is recorded of the id is just what the call asks for: an issued id with the requested expiry, a live id with
   the requested expiry (an unissued one reads as expiry zero), a revoked id. */
  predicate Shows(c: Chain, call: Tx, failure: Failure) {
    match call
    case IssueId(id, _, _, expiresAt) =>
      failure == REVERT(ID_ALREADY_ISSUED) && id in c.ids && c.ids[id].expiresAt == expiresAt
    case ExtendId(id, expiresAt) =>
      if id in c.ids then c.ids[id].status == ACTIVE && c.now < c.ids[id].expiresAt == expiresAt else expiresAt == 0
    case RevokeId(id, _) => id in c.ids && c.ids[id].status == REVOKED
    case _ => false
  }

  predicate Caught(s: State, r: nat) { r < |s.requests| && s.requests[r].stage.CAUGHT? }

  /** The recovery of request `r` would answer success now. */
  predicate RecoversNow(s: State, r: nat)
    requires r < |s.requests|
  {
    Do(s, Gateway(r, Recover)).requests[r].stage == REPLIED(true)
  }

  /** A recovery answers success exactly when the chain shows the call, and a failure otherwise; nothing else
   changes. */
  lemma RecoversIffShown(s: State, r: nat)
    requires Inv(s) && Caught(s, r)
    ensures RecoversNow(s, r) <==> Shows(s.net.chain, s.requests[r].call, s.requests[r].stage.failure)
    ensures var d := Do(s, Gateway(r, Recover));
      && d == s.(requests := d.requests) && |d.requests| == |s.requests|
      && (d.requests[r].stage == REPLIED(true) || d.requests[r].stage == REPLIED(false))
      && forall q :: 0 <= q < |s.requests| && q != r ==> d.requests[q] == s.requests[q]
  {
    assert RequestInv(s.net, s.jobs, s.requests[r]);
  }

  /** An effect that is on chain is answered with a failure exactly in these cases: an ISSUE that failed otherwise or
   whose expiry has moved, an EXTEND of an id with a later expiry, or expired, or revoked, and every SNAPSHOT. */
  lemma MissedIff(s: State, r: nat)
    requires Inv(s) && Caught(s, r) && Effect(s.net.chain, s.requests[r].call) && !Vacuous(s.requests[r].call)
    ensures var c, call := s.net.chain, s.requests[r].call;
      !RecoversNow(s, r) <==>
        || (call.IssueId? && (s.requests[r].stage.failure != REVERT(ID_ALREADY_ISSUED)
                              || c.ids[call.id].expiresAt != call.expiresAt))
        || (call.ExtendId? && (c.ids[call.id].expiresAt > call.expiresAt || c.now >= c.ids[call.id].expiresAt
                               || c.ids[call.id].status == REVOKED))
        || call.AppendDataSnapshot?
  {
    RecoversIffShown(s, r);
    assert RequestInv(s.net, s.jobs, s.requests[r]);
  }

  // ----- Over runs -----

  lemma LaterRequest(s: State, later: seq<Step>)
    requires Inv(s) && DisciplinedRun(s, later)
    ensures Inv(Run(s, later)) && Later(s.net.chain, Run(s, later).net.chain)
  {
    RunKeepsInv(s, later);
    RunMovesForward(s, later);
  }

  /** Once a transaction that revokes an id has succeeded, every later recovery of a REVOKE of that id succeeds. */
  lemma RevokeRecovers(maxAttempts: nat, s: State, t: nat, later: seq<Step>, r: nat)
    requires Reachable(maxAttempts, s) && t < |s.net.sent| && s.net.sent[t].fate == SUCCEEDED
    requires s.net.sent[t].tx.RevokeId? && DisciplinedRun(s, later) && Caught(Run(s, later), r)
    requires Run(s, later).requests[r].call.RevokeId? && Run(s, later).requests[r].call.id == s.net.sent[t].tx.id
    ensures RecoversNow(Run(s, later), r)
  {
    ReachableInv(maxAttempts, s);
    LaterRequest(s, later);
    assert FateInv(s.net.chain, s.net.sent[t]);
    RecoversIffShown(Run(s, later), r);
  }

  /** Once an id's expiry lies beyond the one an ISSUE or EXTEND asks for, or an EXTEND's id is revoked, no later
   recovery of that call succeeds, although its effect stays on chain. */
  lemma NeverRecovers(maxAttempts: nat, s: State, call: Tx, later: seq<Step>, r: nat)
    requires Reachable(maxAttempts, s) && (call.IssueId? || call.ExtendId?) && call.id in s.net.chain.ids
    requires var record := s.net.chain.ids[call.id];
      record.expiresAt > call.expiresAt
      || (call.ExtendId? && record.expiresAt == call.expiresAt && record.status == REVOKED)
    requires DisciplinedRun(s, later) && Caught(Run(s, later), r) && Run(s, later).requests[r].call == call
    ensures !RecoversNow(Run(s, later), r) && Effect(Run(s, later).net.chain, call)
  {
    ReachableInv(maxAttempts, s);
    LaterRequest(s, later);
    RecoversIffShown(Run(s, later), r);
    EffectIsForever(s.net.chain, Run(s, later).net.chain, call);
  }

  // ----- The way to an answer -----

  /** A REVOKE was mined after its worker gave up: the job has FAILED. */
  lemma RevokedAfterGiveUp() returns (s: State)
    ensures Reachable(1, s) && s.net.chain.ids == map[7 := DigitalId(1, 0, 100, REVOKED)] && s.net.chain.now == 0
    ensures |s.jobs| == 2 && s.jobs[0].call == ISSUE && s.jobs[0].state == FAILED
    ensures s.jobs[1].call == RevokeId(7, 1) && s.jobs[1].state == FAILED
    ensures s.workers == map[0 := IDLE] && s.clock == 0 && |s.requests| == 2
  {
    s := RevokeTaken();
    ReachStep(1, s, Gateway(1, Send(BROADCAST)));
    s := Do(s, Gateway(1, Send(BROADCAST)));
    var t := |s.net.sent| - 1;
    ReachStep(1, s, Worker(0, GiveUp));
    s := Do(s, Worker(0, GiveUp));
    ReachStep(1, s, Worker(0, Fail));
    s := Do(s, Worker(0, Fail));
    assert s.workers == map[0 := IDLE];
    ReachStep(1, s, Mined(t));
    s := Do(s, Mined(t));
    assert s.net.chain.ids == map[7 := DigitalId(1, 0, 100, REVOKED)];
  }

  lemma RevokeTaken() returns (s: State)
    ensures Reachable(1, s) && s.net.chain.ids == map[7 := DigitalId(1, 0, 100, ACTIVE)] && s.net.chain.now == 0
    ensures |s.jobs| == 2 && s.jobs[0].call == ISSUE && s.jobs[0].state == FAILED
    ensures s.jobs[1] == Job(RevokeId(7, 1), 0, PROCESSING, 1, 0)
    ensures s.workers == map[0 := CALLING(1, 0, 1)] && s.clock == 0 && s.maxAttempts == 1
    ensures |s.requests| == 2 && s.requests[1] == Request(RevokeId(7, 1), 1, RECEIVED)
  {
    s := IssuedAfterGiveUp();
    assert s.creds == map[0 := Credential(GROUP, 7)];
    ReachStep(1, s, Service(0, EnqueueRevoke(1)));
    s := Do(s, Service(0, EnqueueRevoke(1)));
    s := TakeSecond(s);
  }

  lemma TakeSecond(s: State) returns (d: State)
    requires Reachable(1, s) && |s.jobs| == 2 && s.jobs[0].state == FAILED && s.jobs[1].state == PENDING
    requires s.jobs[1].availableAt <= s.clock && s.workers == map[0 := IDLE]
    ensures Reachable(1, d)
    ensures d == s.(jobs := s.jobs[1 := s.jobs[1].(state := PROCESSING, attempts := s.jobs[1].attempts + 1)],
                    requests := s.requests + [Request(s.jobs[1].call, 1, RECEIVED)],
                    workers := map[0 := CALLING(1, s.jobs[1].attempts, |s.requests|)])
  {
    OldestIsFirstDue(s.jobs, s.clock, 0);
    ReachStep(1, s, Worker(0, Find));
    d := Do(s, Worker(0, Find));
    ReachStep(1, d, Worker(0, Claim));
    d := Do(d, Worker(0, Claim));
    ReachStep(1, d, Worker(0, Call));
    d := Do(d, Worker(0, Call));
    assert d.workers == map[0 := CALLING(1, s.jobs[1].attempts, |s.requests|)];
  }

  /** Such a REVOKE is confirmed by a retry: the contract refuses it, and the recovery finds the id revoked. */
  lemma RetryConfirmsRevoke()
    ensures exists s :: Reachable(1, s) && |s.jobs| == 2 && s.jobs[1].call == RevokeId(7, 1)
                        && s.jobs[1].state == CONFIRMED
  {
    var s := RevokedAfterGiveUp();
    ReachStep(1, s, RetryWrite(1));
    s := Do(s, RetryWrite(1));
    s := TakeSecond(s);
    ReachStep(1, s, Gateway(2, Send(REFUSED)));
    s := Do(s, Gateway(2, Send(REFUSED)));
    assert s.requests[2] == Request(RevokeId(7, 1), 1, CAUGHT(REVERT(ID_NOT_ACTIVE)));
    s := RecoverAndConfirm(s);
  }

  lemma RecoverAndConfirm(s: State) returns (d: State)
    requires Reachable(1, s) && |s.jobs| == 2 && s.workers == map[0 := CALLING(1, 0, 2)] && |s.requests| == 3
    requires s.jobs[1].call == RevokeId(7, 1) && s.requests[2].call == RevokeId(7, 1) && Caught(s, 2)
    requires 7 in s.net.chain.ids && s.net.chain.ids[7].status == REVOKED
    ensures Reachable(1, d) && |d.jobs| == 2 && d.jobs[1].call == RevokeId(7, 1) && d.jobs[1].state == CONFIRMED
  {
    ReachStep(1, s, Gateway(2, Recover));
    d := Do(s, Gateway(2, Recover));
    assert d.requests[2].stage == REPLIED(true) && d.workers == s.workers && d.jobs == s.jobs;
    ReachStep(1, d, Worker(0, Receive));
    d := Do(d, Worker(0, Receive));
    ReachStep(1, d, Worker(0, Commit));
    d := Do(d, Worker(0, Commit));
  }

  // ----- Never confirmed -----

  /** Nothing that worker `pc` waits for can still answer success for row `j`. */
  predicate Hopeless(s: State, j: nat, pc: Pc) {
    match pc
    case CALLING(job, _, r) =>
      job == j ==> r < |s.requests| && s.requests[r].stage != REPLIED(true) && !AwaitsSuccess(s, s.requests[r].stage)
    case ANSWERED(job, _, ok) => job == j ==> !ok
    case _ => true
  }

  predicate AwaitsSuccess(s: State, stage: Stage) {
    stage.AWAITING? && stage.t < |s.net.sent| && s.net.sent[stage.t].fate == SUCCEEDED
  }

  /** Row `j` is an ISSUE, not confirmed, of an id that was issued and extended since, and no worker is about to learn
   of a success. */
  ghost predicate Outdated(s: State, j: nat) {
    && j < |s.jobs| && s.jobs[j].call.IssueId? && s.jobs[j].state != CONFIRMED
    && s.jobs[j].call.id in s.net.chain.ids
    && s.net.chain.ids[s.jobs[j].call.id].expiresAt > s.jobs[j].call.expiresAt
    && forall w | w in s.workers :: Hopeless(s, j, s.workers[w])
  }

  lemma ChainStaysOutdated(s: State, step: Step, j: nat)
    requires Inv(s) && Disciplined(s, step) && Outdated(s, j)
    ensures j < |Do(s, step).jobs| && Do(s, step).jobs[j].call == s.jobs[j].call
    ensures var c := Do(s, step).net.chain;
      s.jobs[j].call.id in c.ids && c.ids[s.jobs[j].call.id].expiresAt > s.jobs[j].call.expiresAt
  {
    StepMovesForward(s, step);
  }

  /** A transaction of the row that is mined now is refused: the id is issued already. */
  lemma MinedIsRefused(s: State, t: nat, j: nat)
    requires Inv(s) && Outdated(s, j)
    ensures Outdated(Do(s, Mined(t)), j)
  {
    var d := Do(s, Mined(t));
    ChainStaysOutdated(s, Mined(t), j);
    forall w | w in d.workers
      ensures Hopeless(d, j, d.workers[w])
    {
      var pc := s.workers[w];
      assert Hopeless(s, j, pc) && WorkerInv(s, pc);
      if pc.CALLING? && pc.job == j { assert RequestInv(s.net, s.jobs, s.requests[pc.request]); }
    }
  }

  lemma GatewayStaysHopeless(s: State, r: nat, act: GatewayAct, j: nat)
    requires Inv(s) && Outdated(s, j)
    ensures Outdated(DoGateway(s, r, act), j)
  {
    GatewayFrame(s, r, act);
    forall w | w in s.workers
      ensures Hopeless(DoGateway(s, r, act), j, s.workers[w])
    {
      WaitingStaysHopeless(s, r, act, j, s.workers[w]);
    }
  }

  lemma GatewayFrame(s: State, r: nat, act: GatewayAct)
    ensures var d := DoGateway(s, r, act);
      d.workers == s.workers && d.jobs == s.jobs && d.net.chain == s.net.chain
  {
  }

  lemma WaitingStaysHopeless(s: State, r: nat, act: GatewayAct, j: nat, pc: Pc)
    requires Inv(s) && Outdated(s, j) && Hopeless(s, j, pc) && WorkerInv(s, pc)
    ensures Hopeless(DoGateway(s, r, act), j, pc)
  {
    if pc.CALLING? && pc.job == j {
      assert RequestInv(s.net, s.jobs, s.requests[pc.request]);
      OwnRequestStaysHopeless(s, r, act, j, pc);
    }
  }

  lemma OwnRequestStaysHopeless(s: State, r: nat, act: GatewayAct, j: nat, pc: Pc)
    requires j < |s.jobs| && s.jobs[j].call.IssueId? && s.jobs[j].call.id in s.net.chain.ids
    requires s.net.chain.ids[s.jobs[j].call.id].expiresAt > s.jobs[j].call.expiresAt
    requires pc.CALLING? && pc.job == j && Hopeless(s, j, pc) && s.requests[pc.request].call == s.jobs[j].call
    requires s.requests[pc.request].stage.AWAITING? ==> s.requests[pc.request].stage.t < |s.net.sent|
    ensures Hopeless(DoGateway(s, r, act), j, pc)
  {
    if r < |s.requests| && r != pc.request { OtherRequestStays(s, r, act, pc.request); }
  }

  lemma OtherRequestStays(s: State, r: nat, act: GatewayAct, q: nat)
    requires r < |s.requests| && q < |s.requests| && r != q
    ensures var d := DoGateway(s, r, act);
      q < |d.requests| && d.requests[q] == s.requests[q] && s.net.sent <= d.net.sent
  {
  }

  lemma WorkerStaysHopeless(s: State, w: nat, act: WorkerAct, j: nat)
    requires Inv(s) && Disciplined(s, Worker(w, act)) && Outdated(s, j)
    ensures Outdated(DoWorker(s, w, act), j)
  {
    var d := DoWorker(s, w, act);
    ChainStaysOutdated(s, Worker(w, act), j);
    if w in s.workers { assert Hopeless(s, j, s.workers[w]) && WorkerInv(s, s.workers[w]); }
    OwnStaysHopeless(s, w, act, j);
    forall v | v in d.workers
      ensures Hopeless(d, j, d.workers[v])
    {
      if v != w { assert Hopeless(s, j, s.workers[v]) && WorkerInv(s, s.workers[v]); }
    }
  }

  lemma OwnStaysHopeless(s: State, w: nat, act: WorkerAct, j: nat)
    requires j < |s.jobs| && s.jobs[j].state != CONFIRMED && act != CommitLost
    requires w in s.workers ==> Hopeless(s, j, s.workers[w])
    ensures var d := DoWorker(s, w, act);
      && j < |d.jobs| && d.jobs[j].state != CONFIRMED && s.requests <= d.requests && d.net == s.net
      && (w in d.workers ==> Hopeless(d, j, d.workers[w]))
      && (forall v | v in d.workers && v != w :: v in s.workers && d.workers[v] == s.workers[v])
  {
  }

  lemma {:induction false} OutdatedStays(s: State, step: Step, j: nat)
    requires Inv(s) && Disciplined(s, step) && Outdated(s, j)
    ensures Outdated(Do(s, step), j)
  {
    match step
    case Mined(t) => MinedIsRefused(s, t, j);
    case Gateway(r, act) => GatewayStaysHopeless(s, r, act, j);
    case Worker(w, act) => WorkerStaysHopeless(s, w, act, j);
    case _ =>
      ChainStaysOutdated(s, step, j);
      OthersStayHopeless(s, step, j);
  }

  lemma OthersStayHopeless(s: State, step: Step, j: nat)
    requires Outdated(s, j) && !step.Mined? && !step.Gateway? && !step.Worker?
    ensures var d := Do(s, step);
      && j < |d.jobs| && d.jobs[j].call == s.jobs[j].call && d.jobs[j].state != CONFIRMED
      && forall w | w in d.workers :: Hopeless(d, j, d.workers[w])
  {
    var d := Do(s, step);
    assert d.workers == s.workers && d.requests == s.requests && d.net.sent == s.net.sent;
    forall w | w in d.workers
      ensures Hopeless(d, j, d.workers[w])
    {
      assert Hopeless(s, j, s.workers[w]);
    }
  }

  /** Such a row is never confirmed, however often it is retried, although its effect is on chain for ever. */
  lemma {:induction false} OutdatedIsNeverConfirmed(s: State, j: nat, later: seq<Step>)
    requires Inv(s) && Outdated(s, j) && DisciplinedRun(s, later)
    ensures var d := Run(s, later);
      j < |d.jobs| && d.jobs[j].state != CONFIRMED && Effect(d.net.chain, d.jobs[j].call)
    decreases |later|
  {
    if later != [] {
      StepKeepsInv(s, later[0]);
      OutdatedStays(s, later[0], j);
      OutdatedIsNeverConfirmed(Do(s, later[0]), j, later[1..]);
    }
  }

  /** Such a state is reachable: the ISSUE is mined after its worker gave up, and the id is then extended. */
  lemma ExtendedIssueIsStuck()
    ensures exists s :: Reachable(1, s) && Outdated(s, 0) && s.jobs[0].state == FAILED
  {
    var s := IssuedAfterGiveUp();
    ReachStep(1, s, Service(0, EnqueueExtend(200)));
    s := Do(s, Service(0, EnqueueExtend(200)));
    s := TakeSecond(s);
    ReachStep(1, s, Gateway(1, Send(BROADCAST)));
    s := Do(s, Gateway(1, Send(BROADCAST)));
    var t := |s.net.sent| - 1;
    assert s.net.sent[t] == Sent(ExtendId(7, 200), 1, IN_FLIGHT) && s.workers == map[0 := CALLING(1, 0, 1)];
    ReachStep(1, s, Mined(t));
    var d := Do(s, Mined(t));
    assert d.net.chain.ids == map[7 := DigitalId(1, 0, 200, ACTIVE)] && d.jobs == s.jobs && d.workers == s.workers;
    assert Outdated(d, 0);
  }
}
