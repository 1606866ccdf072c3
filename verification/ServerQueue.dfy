/**
 The server's anchoring pipeline: credential operations enqueue jobs, any number
 of workers claim and process them, the gateway turns a request into a transaction
 and recovers from failures.

 Every await of the source is one step.  Between any two steps any other process
 may move; requests and answers may be lost, late or delivered twice; a worker may
 die anywhere.  Job rows are indexed in creation order.
 */
module ServerQueue {
  import opened Wrappers
  import opened TrustAnchor
  import opened Network

  datatype JobState = PENDING | PROCESSING | CONFIRMED | FAILED

  /** `call` stands for the row's operation, payloadHash and extraArgs. */
  datatype Job = Job(call: Tx, entity: nat, state: JobState, attempts: nat, availableAt: nat)

  datatype Kind = INDIVIDUAL | GROUP

  datatype Credential = Credential(kind: Kind, idHash: Hash)

  datatype Failure = REVERT(reason: Revert) | OTHER

  datatype Stage = RECEIVED | COUNTED | AWAITING(t: nat) | CAUGHT(failure: Failure) | REPLIED(ok: bool)

  datatype Request = Request(call: Tx, job: nat, stage: Stage)

  datatype Pc =
    | IDLE
    | FOUND(job: nat, attempts: nat)
    | CLAIMED(job: nat, attempts: nat)
    | CALLING(job: nat, attempts: nat, request: nat)
    | ANSWERED(job: nat, attempts: nat, ok: bool)
    | DEAD(held: Option<nat>)

  datatype State = State(
    net: Net,
    jobs: seq<Job>,
    creds: map<nat, Credential>,
    used: set<Hash>,
    requests: seq<Request>,
    workers: map<nat, Pc>,
    clock: nat,
    maxAttempts: nat)

  function Init(maxAttempts: nat): State {
    State(Net(EMPTY, []), [], map[], {}, [], map[], 0, maxAttempts)
  }

  // ----- Credential service and job rows -----

  datatype Payload = Payload(payloadHash: Hash, ciphertext: seq<nat>)

  function NewJob(s: State, call: Tx, entity: nat): State {
    s.(jobs := s.jobs + [Job(call, entity, PENDING, 0, s.clock)])
  }

  function SnapshotCall(cred: Credential, p: Payload, sequence: nat): Tx {
    AppendDataSnapshot(cred.idHash,
                       Snapshot(p.payloadHash, p.ciphertext, sequence, if cred.kind == INDIVIDUAL then 1 else 2))
  }

  predicate IsSnapshotOf(j: Job, id: Hash) { j.call.AppendDataSnapshot? && j.call.id == id }

  /** The payloads enqueued for an id, in creation order. */
  function Enqueued(jobs: seq<Job>, id: Hash): seq<Snapshot> {
    if jobs == [] then []
    else
      var n := |jobs| - 1;
      Enqueued(jobs[..n], id) + if IsSnapshotOf(jobs[n], id) then [jobs[n].call.snapshot] else []
  }

  function CountSnapshotJobs(jobs: seq<Job>, entity: nat): nat {
    if jobs == [] then 0
    else
      var n := |jobs| - 1;
      CountSnapshotJobs(jobs[..n], entity) +
      if jobs[n].call.AppendDataSnapshot? && jobs[n].entity == entity then 1 else 0
  }

  /** The oldest job from index `k` on that is PENDING and due. */
  function Oldest(jobs: seq<Job>, clock: nat, k: nat): Option<nat>
    decreases |jobs| - k
  {
    if k >= |jobs| then None
    else if jobs[k].state == PENDING && jobs[k].availableAt <= clock then Some(k)
    else Oldest(jobs, clock, k + 1)
  }

  function Pow2(n: nat): nat { if n == 0 then 1 else 2 * Pow2(n - 1) }

  function Backoff(attempts: nat): nat {
    var ms := Pow2(attempts) * 1000;
    if ms < 60_000 then ms else 60_000
  }

  function Requeued(j: Job, clock: nat): Job {
    j.(state := PENDING, attempts := 0, availableAt := clock)
  }

  // ----- Steps -----

  datatype SendFate = BROADCAST | REFUSED | RPC_DOWN | ANSWER_LOST

  datatype GatewayAct =
    | Count
    | Send(fate: SendFate)
    | Receipt
    | ReceiptLost
    | Recover
    | RecoverFails
    | Redeliver

  datatype WorkerAct =
    | Start
    | Find
    | Claim
    | Call
    | Receive
    | GiveUp
    | Commit
    | CommitThrows
    | CommitLost
    | Fail
    | Crash

  datatype ServiceAct =
    | CreateCredential(kind: Kind, idHash: Hash)
    | EnqueueIssue(tripHash: Hash, issuedAt: int, expiresAt: int)
    | EnqueueExtend(expiresAt: int)
    | EnqueueRevoke(reasonCode: nat)
    | EnqueueFirstSnapshot(first: Payload)
    | AppendMembershipSnapshot(payload: Payload, counted: nat)

  datatype Step =
    | Mined(t: nat)
    | ChainTick(seconds: nat)
    | ClockTick(ms: nat)
    | Gateway(r: nat, gatewayAct: GatewayAct)
    | Worker(w: nat, workerAct: WorkerAct)
    | Service(entity: nat, serviceAct: ServiceAct)
    | RetryWrite(job: nat)
    | RetrySnapshot(job: nat)

  function SetStage(s: State, r: nat, stage: Stage): State
    requires r < |s.requests|
  {
    s.(requests := s.requests[r := s.requests[r].(stage := stage)])
  }

  /** What the catch block of each route answers after re-reading the chain. */
  function Recovered(c: Chain, call: Tx, failure: Failure): bool {
    match call
    case IssueId(id, _, _, expiresAt) =>
      failure == REVERT(ID_ALREADY_ISSUED) && VerifyId(c, id).expiresAt == expiresAt
    case ExtendId(id, expiresAt) => VerifyId(c, id).expiresAt == expiresAt && VerifyId(c, id).status == 0
    case RevokeId(id, _) => VerifyId(c, id).status == 1
    case _ => false
  }

  function DoGateway(s: State, r: nat, act: GatewayAct): State {
    if r >= |s.requests| then s
    else
      var req := s.requests[r];
      match act
      case Count =>
        if req.stage != RECEIVED || !req.call.AppendDataSnapshot? then s
        else if |SnapshotsOf(s.net.chain, req.call.id)| >= req.call.snapshot.sequence then SetStage(s, r, REPLIED(true))
        else SetStage(s, r, COUNTED)
      case Send(fate) =>
        if req.stage != (if req.call.AppendDataSnapshot? then COUNTED else RECEIVED) then s
        else
          var sent := s.(net := Broadcast(s.net, req.call, req.job));
          (match fate
           case BROADCAST => SetStage(sent, r, AWAITING(|s.net.sent|))
           case ANSWER_LOST => SetStage(sent, r, CAUGHT(OTHER))
           case RPC_DOWN => SetStage(s, r, CAUGHT(OTHER))
           case REFUSED =>
             match Execute(s.net.chain, req.call)
             case Ok(_) => s
             case Err(reason) => SetStage(s, r, CAUGHT(REVERT(reason))))
      case Receipt =>
        if !req.stage.AWAITING? || req.stage.t >= |s.net.sent| then s
        else
          (match s.net.sent[req.stage.t].fate
           case IN_FLIGHT => s
           case SUCCEEDED => SetStage(s, r, REPLIED(true))
           case REVERTED(reason) => SetStage(s, r, CAUGHT(REVERT(reason))))
      case ReceiptLost => if req.stage.AWAITING? then SetStage(s, r, CAUGHT(OTHER)) else s
      case Recover =>
        if req.stage.CAUGHT? then SetStage(s, r, REPLIED(Recovered(s.net.chain, req.call, req.stage.failure))) else s
      case RecoverFails => if req.stage.CAUGHT? then SetStage(s, r, REPLIED(false)) else s
      case Redeliver => s.(requests := s.requests + [req.(stage := RECEIVED)])
  }

  function Holding(pc: Pc): Option<nat> {
    match pc
    case CLAIMED(job, _) => Some(job)
    case CALLING(job, _, _) => Some(job)
    case ANSWERED(job, _, _) => Some(job)
    case DEAD(held) => held
    case _ => None
  }

  function SetPc(s: State, w: nat, pc: Pc): State { s.(workers := s.workers[w := pc]) }

  function SetJob(s: State, j: nat, job: Job): State
    requires j < |s.jobs|
  {
    s.(jobs := s.jobs[j := job])
  }

  function DoWorker(s: State, w: nat, act: WorkerAct): State {
    if w !in s.workers then (if act == Start then SetPc(s, w, IDLE) else s)
    else
      var pc := s.workers[w];
      match act
      case Start => s
      case Find =>
        if !pc.IDLE? then s
        else
          (match Oldest(s.jobs, s.clock, 0)
           case None => s
           case Some(j) => if j < |s.jobs| then SetPc(s, w, FOUND(j, s.jobs[j].attempts)) else s)
      case Claim =>
        if !pc.FOUND? || pc.job >= |s.jobs| then s
        else if s.jobs[pc.job].state != PENDING then SetPc(s, w, IDLE)
        else
          var row := s.jobs[pc.job];
          SetPc(SetJob(s, pc.job, row.(state := PROCESSING, attempts := row.attempts + 1)), w,
            CLAIMED(pc.job, pc.attempts))
      case Call =>
        if !pc.CLAIMED? || pc.job >= |s.jobs| then s
        else
          SetPc(s.(requests := s.requests + [Request(s.jobs[pc.job].call, pc.job, RECEIVED)]),
                w, CALLING(pc.job, pc.attempts, |s.requests|))
      case Receive =>
        if !pc.CALLING? || pc.request >= |s.requests| || !s.requests[pc.request].stage.REPLIED? then s
        else SetPc(s, w, ANSWERED(pc.job, pc.attempts, s.requests[pc.request].stage.ok))
      case GiveUp => if pc.CALLING? then SetPc(s, w, ANSWERED(pc.job, pc.attempts, false)) else s
      case Commit =>
        if !pc.ANSWERED? || !pc.ok || pc.job >= |s.jobs| then s
        else SetPc(SetJob(s, pc.job, s.jobs[pc.job].(state := CONFIRMED)), w, IDLE)
      case CommitThrows =>
        if pc.ANSWERED? && pc.ok then SetPc(s, w, ANSWERED(pc.job, pc.attempts, false)) else s
      case CommitLost =>
        if !pc.ANSWERED? || !pc.ok || pc.job >= |s.jobs| then s
        else
          SetPc(SetJob(s, pc.job, s.jobs[pc.job].(state := CONFIRMED)), w, ANSWERED(pc.job, pc.attempts, false))
      case Fail =>
        if !pc.ANSWERED? || pc.ok || pc.job >= |s.jobs| then s
        else
          var attempts := pc.attempts + 1;
          var next := if attempts >= s.maxAttempts then FAILED else PENDING;
          SetPc(SetJob(s, pc.job, s.jobs[pc.job].(state := next, availableAt := s.clock + Backoff(attempts))), w, IDLE)
      case Crash => SetPc(s, w, DEAD(Holding(pc)))
  }

  function EnqueueFor(s: State, e: nat, cred: Credential, act: ServiceAct): State {
    match act
    case CreateCredential(_, _) => s
    case EnqueueIssue(tripHash, issuedAt, expiresAt) =>
      NewJob(s, IssueId(cred.idHash, tripHash, issuedAt, expiresAt), e)
    case EnqueueExtend(expiresAt) => NewJob(s, ExtendId(cred.idHash, expiresAt), e)
    case EnqueueRevoke(reasonCode) => NewJob(s, RevokeId(cred.idHash, reasonCode), e)
    case EnqueueFirstSnapshot(p) => NewJob(s, SnapshotCall(cred, p, 1), e)
    case AppendMembershipSnapshot(p, counted) =>
      if cred.kind == GROUP then NewJob(s, SnapshotCall(cred, p, counted + 1), e) else s
  }

  function DoService(s: State, e: nat, act: ServiceAct): State {
    if act.CreateCredential? then
      if act.idHash in s.used || (e in s.creds && (act.kind == GROUP || s.creds[e].kind == GROUP)) then s
      else s.(creds := s.creds[e := Credential(act.kind, act.idHash)], used := s.used + {act.idHash})
    else if e in s.creds then EnqueueFor(s, e, s.creds[e], act)
    else s
  }

  /** One atomic step; a step that is not enabled changes nothing. */
  function Do(s: State, step: Step): State {
    match step
    case Mined(t) => s.(net := Mine(s.net, t))
    case ChainTick(seconds) => s.(net := Tick(s.net, seconds))
    case ClockTick(ms) => s.(clock := s.clock + ms)
    case Gateway(r, act) => DoGateway(s, r, act)
    case Worker(w, act) => DoWorker(s, w, act)
    case Service(e, act) => DoService(s, e, act)
    case RetryWrite(j) => if j < |s.jobs| then SetJob(s, j, Requeued(s.jobs[j], s.clock)) else s
    case RetrySnapshot(j) =>
      if j < |s.jobs| && s.jobs[j].state == FAILED && s.jobs[j].call.AppendDataSnapshot?
      then SetJob(s, j, Requeued(s.jobs[j], s.clock)) else s
  }

  /** Credential operations are serial and retryFailed is one step: what was read is still so when it is written. A
   database transaction that commits is answered. */
  predicate Disciplined(s: State, step: Step) {
    match step
    case RetryWrite(j) => j < |s.jobs| ==> s.jobs[j].state == FAILED
    case Service(e, EnqueueFirstSnapshot(_)) => e in s.creds ==> Enqueued(s.jobs, s.creds[e].idHash) == []
    case Service(e, AppendMembershipSnapshot(_, counted)) => counted == CountSnapshotJobs(s.jobs, e)
    case Worker(_, CommitLost) => false
    case _ => true
  }

  function Run(s: State, steps: seq<Step>): State
    decreases |steps|
  {
    if steps == [] then s else Run(Do(s, steps[0]), steps[1..])
  }

  predicate DisciplinedRun(s: State, steps: seq<Step>)
    decreases |steps|
  {
    steps == [] || (Disciplined(s, steps[0]) && DisciplinedRun(Do(s, steps[0]), steps[1..]))
  }

  // ----- The invariant -----

  ghost predicate Numbered(jobs: seq<Job>) {
    forall j :: 0 <= j < |jobs| && jobs[j].call.AppendDataSnapshot? ==>
      jobs[j].call.snapshot.sequence == |Enqueued(jobs[..j], jobs[j].call.id)| + 1
  }

  ghost predicate CredsInv(jobs: seq<Job>, creds: map<nat, Credential>, used: set<Hash>) {
    && (forall e :: e in creds ==> creds[e].idHash in used)
    && (forall e, f :: e in creds && f in creds && creds[e].idHash == creds[f].idHash ==> e == f)
    && (forall j :: 0 <= j < |jobs| ==> !jobs[j].call.Anchor? && jobs[j].call.id in used && jobs[j].entity in creds)
    && (forall e, j :: e in creds && creds[e].kind == GROUP && 0 <= j < |jobs| ==>
          (jobs[j].entity == e <==> jobs[j].call.id == creds[e].idHash))
  }

  ghost predicate SentInv(net: Net, jobs: seq<Job>) {
    forall t :: 0 <= t < |net.sent| ==> net.sent[t].owner < |jobs| && net.sent[t].tx == jobs[net.sent[t].owner].call
  }

  ghost predicate RequestInv(net: Net, jobs: seq<Job>, q: Request) {
    && q.job < |jobs|
    && q.call == jobs[q.job].call
    && (q.stage.AWAITING? ==> q.stage.t < |net.sent| && net.sent[q.stage.t].owner == q.job)
    && (q.stage == REPLIED(true) ==> Effect(net.chain, q.call))
    && (q.stage == CAUGHT(REVERT(ID_ALREADY_ISSUED)) && q.call.IssueId? ==> q.call.id in net.chain.ids)
  }

  ghost predicate WorkerInv(s: State, pc: Pc) {
    && (Holding(pc).Some? ==> Holding(pc).value < |s.jobs| && s.jobs[Holding(pc).value].state == PROCESSING)
    && (pc.FOUND? ==> pc.job < |s.jobs|)
    && (pc.CALLING? ==> pc.request < |s.requests| && s.requests[pc.request].job == pc.job)
    && (pc.ANSWERED? && pc.ok ==> Effect(s.net.chain, s.jobs[pc.job].call))
  }

  ghost predicate Owns(s: State, w: nat, j: nat) { w in s.workers && Holding(s.workers[w]) == Some(j) }

  ghost predicate OwnersInv(s: State) {
    && (forall w, v, j :: Owns(s, w, j) && Owns(s, v, j) ==> w == v)
    && (forall j :: 0 <= j < |s.jobs| && s.jobs[j].state == PROCESSING ==> exists w :: Owns(s, w, j))
  }

  ghost predicate PrefixInv(c: Chain, jobs: seq<Job>) {
    forall id :: SnapshotsOf(c, id) <= Enqueued(jobs, id)
  }

  ghost predicate ConfirmedInv(c: Chain, jobs: seq<Job>) {
    forall j :: 0 <= j < |jobs| && jobs[j].state == CONFIRMED ==> Effect(c, jobs[j].call)
  }

  ghost predicate Inv(s: State) {
    && NetInv(s.net)
    && Numbered(s.jobs)
    && CredsInv(s.jobs, s.creds, s.used)
    && SentInv(s.net, s.jobs)
    && (forall r :: 0 <= r < |s.requests| ==> RequestInv(s.net, s.jobs, s.requests[r]))
    && (forall w :: w in s.workers ==> WorkerInv(s, s.workers[w]))
    && OwnersInv(s)
    && PrefixInv(s.net.chain, s.jobs)
    && ConfirmedInv(s.net.chain, s.jobs)
  }

  // ----- Numbering -----

  /** Row states do not matter to the numbering. */
  lemma {:induction false} SameCallsSameEnqueued(jobs: seq<Job>, other: seq<Job>, id: Hash)
    requires |jobs| == |other|
    requires forall j :: 0 <= j < |jobs| ==> jobs[j].call == other[j].call
    ensures Enqueued(jobs, id) == Enqueued(other, id)
  {
    if jobs != [] {
      var n := |jobs| - 1;
      SameCallsSameEnqueued(jobs[..n], other[..n], id);
    }
  }

  lemma {:induction false} EnqueuedIsCount(jobs: seq<Job>, entity: nat, id: Hash)
    requires forall j :: 0 <= j < |jobs| ==>
      !jobs[j].call.Anchor? && (jobs[j].entity == entity <==> jobs[j].call.id == id)
    ensures |Enqueued(jobs, id)| == CountSnapshotJobs(jobs, entity)
  {
    if jobs != [] {
      EnqueuedIsCount(jobs[..|jobs| - 1], entity, id);
    }
  }

  /** The job numbered n is the n-th payload enqueued for its id. */
  lemma {:induction false} NumberIsPosition(jobs: seq<Job>, j: nat)
    requires Numbered(jobs) && j < |jobs| && jobs[j].call.AppendDataSnapshot?
    ensures var snap := jobs[j].call.snapshot;
            var all := Enqueued(jobs, jobs[j].call.id);
            1 <= snap.sequence <= |all| && all[snap.sequence - 1] == snap
    decreases |jobs|
  {
    var n := |jobs| - 1;
    if j < n {
      assert forall i :: 0 <= i < n ==> jobs[..n][..i] == jobs[..i];
      NumberIsPosition(jobs[..n], j);
    }
  }

  lemma AppendedKeepsCreds(s: State, call: Tx, e: nat)
    requires CredsInv(s.jobs, s.creds, s.used) && e in s.creds && !call.Anchor? && call.id == s.creds[e].idHash
    ensures CredsInv(NewJob(s, call, e).jobs, s.creds, s.used)
  {
  }

  lemma AppendedKeepsNumbers(jobs: seq<Job>, job: Job)
    requires Numbered(jobs)
    requires job.call.AppendDataSnapshot? ==> job.call.snapshot.sequence == |Enqueued(jobs, job.call.id)| + 1
    ensures Numbered(jobs + [job])
    ensures forall id :: Enqueued(jobs, id) <= Enqueued(jobs + [job], id)
  {
    var n, after := |jobs|, jobs + [job];
    assert after[..n] == jobs;
    assert forall j :: 0 <= j < n ==> after[..j] == jobs[..j];
  }

  lemma AppendedJob(s: State, call: Tx, e: nat)
    requires Inv(s) && e in s.creds && !call.Anchor? && call.id == s.creds[e].idHash
    requires call.AppendDataSnapshot? ==> call.snapshot.sequence == |Enqueued(s.jobs, call.id)| + 1
    ensures Inv(NewJob(s, call, e))
  {
    var d := NewJob(s, call, e);
    assert forall w, j :: Owns(d, w, j) <==> Owns(s, w, j);
    forall r | 0 <= r < |d.requests| ensures RequestInv(d.net, d.jobs, d.requests[r]) {
      assert RequestInv(s.net, s.jobs, s.requests[r]);
    }
    forall w | w in d.workers ensures WorkerInv(d, d.workers[w]) { assert WorkerInv(s, s.workers[w]); }
    AppendedKeepsNumbers(s.jobs, d.jobs[|s.jobs|]);
    AppendedKeepsCreds(s, call, e);
  }

  // ----- Every step keeps the invariant -----

  lemma ChainStep(s: State, net: Net)
    requires Inv(s) && NetInv(net) && NetLater(s.net, net) && PrefixInv(net.chain, s.jobs) && SentInv(net, s.jobs)
    ensures Inv(s.(net := net))
  {
    var d := s.(net := net);
    EffectsPersist(s.net.chain, net.chain);
    forall r | 0 <= r < |d.requests| ensures RequestInv(net, d.jobs, d.requests[r]) {
      assert RequestInv(s.net, s.jobs, s.requests[r]);
    }
    forall w | w in d.workers ensures WorkerInv(d, d.workers[w]) { assert WorkerInv(s, s.workers[w]); }
    assert forall w, j :: Owns(d, w, j) <==> Owns(s, w, j);
  }

  /** The contract's sequence rule admits only the next enqueued payload. */
  lemma NextSnapshotIsNextEnqueued(c: Chain, jobs: seq<Job>, j: nat)
    requires Numbered(jobs) && PrefixInv(c, jobs) && j < |jobs| && Execute(c, jobs[j].call).Ok?
    ensures PrefixInv(Execute(c, jobs[j].call).value, jobs)
  {
    var tx := jobs[j].call;
    var d := Execute(c, tx).value;
    forall id ensures SnapshotsOf(d, id) <= Enqueued(jobs, id) {
      assert SnapshotsOf(c, id) <= Enqueued(jobs, id);
      if tx.AppendDataSnapshot? && tx.id == id {
        NumberIsPosition(jobs, j);
        assert SnapshotsOf(d, id) == SnapshotsOf(c, id) + [tx.snapshot];
      } else {
        assert SnapshotsOf(d, id) == SnapshotsOf(c, id);
      }
    }
  }

  lemma MinedStep(s: State, t: nat)
    requires Inv(s)
    ensures Inv(Do(s, Mined(t))) && NetLater(s.net, Mine(s.net, t))
  {
    var net := Mine(s.net, t);
    MineKeepsNetInv(s.net, t);
    if t < |s.net.sent| && Execute(s.net.chain, s.net.sent[t].tx).Ok? {
      NextSnapshotIsNextEnqueued(s.net.chain, s.jobs, s.net.sent[t].owner);
    }
    assert SentInv(net, s.jobs);
    ChainStep(s, net);
  }

  lemma StageStep(s: State, r: nat, stage: Stage)
    requires Inv(s) && r < |s.requests| && RequestInv(s.net, s.jobs, s.requests[r].(stage := stage))
    ensures Inv(SetStage(s, r, stage))
  {
    var d := SetStage(s, r, stage);
    forall i | 0 <= i < |d.requests| ensures RequestInv(d.net, d.jobs, d.requests[i]) {
      assert RequestInv(s.net, s.jobs, s.requests[i]);
    }
    forall w | w in d.workers ensures WorkerInv(d, d.workers[w]) { assert WorkerInv(s, s.workers[w]); }
    assert forall w, j :: Owns(d, w, j) <==> Owns(s, w, j);
  }

  lemma BroadcastStep(s: State, r: nat)
    requires Inv(s) && r < |s.requests|
    ensures Inv(s.(net := Broadcast(s.net, s.requests[r].call, s.requests[r].job)))
  {
    var req := s.requests[r];
    assert RequestInv(s.net, s.jobs, req);
    var net := Broadcast(s.net, req.call, req.job);
    assert forall t :: 0 <= t < |s.net.sent| ==> net.sent[t] == s.net.sent[t];
    ChainStep(s, net);
  }

  lemma NewRequestStep(s: State, q: Request)
    requires Inv(s) && RequestInv(s.net, s.jobs, q)
    ensures Inv(s.(requests := s.requests + [q]))
  {
    var d := s.(requests := s.requests + [q]);
    forall i | 0 <= i < |d.requests| ensures RequestInv(d.net, d.jobs, d.requests[i]) {
      assert i < |s.requests| ==> RequestInv(s.net, s.jobs, s.requests[i]);
    }
    forall w | w in d.workers ensures WorkerInv(d, d.workers[w]) { assert WorkerInv(s, s.workers[w]); }
    assert forall w, j :: Owns(d, w, j) <==> Owns(s, w, j);
  }

  /** Answering "already there" is right: count >= sequence means the caller's own payload is at its place. */
  lemma CountedIsInPlace(s: State, r: nat)
    requires Inv(s) && r < |s.requests| && s.requests[r].call.AppendDataSnapshot?
    requires |SnapshotsOf(s.net.chain, s.requests[r].call.id)| >= s.requests[r].call.snapshot.sequence
    ensures Effect(s.net.chain, s.requests[r].call)
  {
    var req := s.requests[r];
    assert RequestInv(s.net, s.jobs, req);
    NumberIsPosition(s.jobs, req.job);
    assert SnapshotsOf(s.net.chain, req.call.id) <= Enqueued(s.jobs, req.call.id);
  }

  lemma SendStep(s: State, r: nat, act: GatewayAct)
    requires Inv(s) && r < |s.requests| && act.Send?
    ensures Inv(DoGateway(s, r, act))
  {
    var req := s.requests[r];
    assert RequestInv(s.net, s.jobs, req);
    var sent := s.(net := Broadcast(s.net, req.call, req.job));
    match act.fate
    case BROADCAST =>
      BroadcastStep(s, r);
      StageStep(sent, r, AWAITING(|s.net.sent|));
    case ANSWER_LOST =>
      BroadcastStep(s, r);
      StageStep(sent, r, CAUGHT(OTHER));
    case RPC_DOWN => StageStep(s, r, CAUGHT(OTHER));
    case REFUSED =>
      if Execute(s.net.chain, req.call).Err? {
        StageStep(s, r, CAUGHT(REVERT(Execute(s.net.chain, req.call).error)));
      }
  }

  lemma GatewayStep(s: State, r: nat, act: GatewayAct)
    requires Inv(s)
    ensures Inv(DoGateway(s, r, act))
  {
    if r < |s.requests| {
      var req := s.requests[r];
      assert RequestInv(s.net, s.jobs, req);
      match act
      case Count =>
        if req.stage == RECEIVED && req.call.AppendDataSnapshot? {
          if |SnapshotsOf(s.net.chain, req.call.id)| >= req.call.snapshot.sequence {
            CountedIsInPlace(s, r);
            StageStep(s, r, REPLIED(true));
          } else {
            StageStep(s, r, COUNTED);
          }
        }
      case Send(_) => SendStep(s, r, act);
      case Receipt =>
        if req.stage.AWAITING? {
          assert FateInv(s.net.chain, s.net.sent[req.stage.t]);
          match s.net.sent[req.stage.t].fate
          case IN_FLIGHT =>
          case SUCCEEDED => StageStep(s, r, REPLIED(true));
          case REVERTED(reason) => StageStep(s, r, CAUGHT(REVERT(reason)));
        }
      case ReceiptLost => StageStep(s, r, CAUGHT(OTHER));
      case Recover =>
        if req.stage.CAUGHT? { StageStep(s, r, REPLIED(Recovered(s.net.chain, req.call, req.stage.failure))); }
      case RecoverFails => StageStep(s, r, REPLIED(false));
      case Redeliver => NewRequestStep(s, req.(stage := RECEIVED));
    }
  }

  /** A worker that keeps hold of what it held. */
  lemma PcStep(s: State, w: nat, pc: Pc)
    requires Inv(s) && WorkerInv(s, pc)
    requires Holding(pc) == if w in s.workers then Holding(s.workers[w]) else None
    ensures Inv(SetPc(s, w, pc))
  {
    var d := SetPc(s, w, pc);
    forall v | v in d.workers ensures WorkerInv(d, d.workers[v]) {
      assert v in s.workers ==> WorkerInv(s, s.workers[v]);
    }
    assert forall v, j :: Owns(d, v, j) <==> Owns(s, v, j);
  }

  /** The compare-and-set: a PENDING row has no owner, so the claiming worker becomes the only one. */
  lemma ClaimStep(s: State, w: nat)
    requires Inv(s)
    ensures Inv(DoWorker(s, w, Claim))
  {
    if w in s.workers && s.workers[w].FOUND? && s.workers[w].job < |s.jobs| {
      var pc := s.workers[w];
      if s.jobs[pc.job].state != PENDING {
        PcStep(s, w, IDLE);
      } else {
        var d := DoWorker(s, w, Claim);
        assert forall v, j :: Owns(d, v, j) <==> Owns(s, v, j) || (v == w && j == pc.job);
        forall v ensures !Owns(s, v, pc.job) { assert v in s.workers ==> WorkerInv(s, s.workers[v]); }
        assert Owns(d, w, pc.job);
        forall j | 0 <= j < |d.jobs| && d.jobs[j].state == PROCESSING ensures exists v :: Owns(d, v, j) {
          if j != pc.job {
            var v :| Owns(s, v, j);
            assert Owns(d, v, j);
          }
        }
        RowStep(s, d, pc.job);
      }
    }
  }

  /** Finishing gives the row up; the finishing worker was its only owner. */
  lemma FinishStep(s: State, w: nat, act: WorkerAct)
    requires Inv(s) && (act == Commit || act == Fail)
    ensures Inv(DoWorker(s, w, act))
  {
    var d := DoWorker(s, w, act);
    if d != s {
      var pc := s.workers[w];
      assert WorkerInv(s, pc) && Owns(s, w, pc.job);
      assert forall v, j :: Owns(d, v, j) <==> Owns(s, v, j) && v != w;
      RowStep(s, d, pc.job);
    }
  }

  /** One row changes state; calls, entities and everything outside rows and workers stay. */
  lemma RowStep(s: State, d: State, k: nat)
    requires Inv(s) && k < |s.jobs| && |d.jobs| == |s.jobs|
    requires d == s.(jobs := d.jobs, workers := d.workers)
    requires d.jobs[k].call == s.jobs[k].call && d.jobs[k].entity == s.jobs[k].entity
    requires forall j :: 0 <= j < |s.jobs| && j != k ==> d.jobs[j] == s.jobs[j]
    requires d.jobs[k].state == CONFIRMED ==> Effect(s.net.chain, s.jobs[k].call)
    requires forall v :: v in d.workers ==>
      (v in s.workers && d.workers[v] == s.workers[v] && !Owns(d, v, k))
        || (Holding(d.workers[v]) == None && !d.workers[v].FOUND?)
      || (d.workers[v].CLAIMED? && d.workers[v].job == k && d.jobs[k].state == PROCESSING)
    requires OwnersInv(d)
    ensures Inv(d)
  {
    forall id ensures Enqueued(d.jobs, id) == Enqueued(s.jobs, id) { SameCallsSameEnqueued(d.jobs, s.jobs, id); }
    forall j | 0 <= j < |d.jobs| && d.jobs[j].call.AppendDataSnapshot?
      ensures d.jobs[j].call.snapshot.sequence == |Enqueued(d.jobs[..j], d.jobs[j].call.id)| + 1
    {
      SameCallsSameEnqueued(d.jobs[..j], s.jobs[..j], d.jobs[j].call.id);
    }
    forall r | 0 <= r < |d.requests| ensures RequestInv(d.net, d.jobs, d.requests[r]) {
      assert RequestInv(s.net, s.jobs, s.requests[r]);
    }
    forall v | v in d.workers ensures WorkerInv(d, d.workers[v]) {
      if v in s.workers && d.workers[v] == s.workers[v] { assert WorkerInv(s, s.workers[v]); }
    }
  }

  lemma WorkerStep(s: State, w: nat, act: WorkerAct)
    requires Inv(s) && Disciplined(s, Worker(w, act))
    ensures Inv(DoWorker(s, w, act))
  {
    if w in s.workers { assert WorkerInv(s, s.workers[w]); }
    if act == Claim { ClaimStep(s, w); }
    else if act == Commit || act == Fail { FinishStep(s, w, act); }
    else if act == Call && w in s.workers && s.workers[w].CLAIMED? {
      var pc := s.workers[w];
      var q := Request(s.jobs[pc.job].call, pc.job, RECEIVED);
      NewRequestStep(s, q);
      PcStep(s.(requests := s.requests + [q]), w, CALLING(pc.job, pc.attempts, |s.requests|));
    } else {
      OwnStep(s, w, act);
    }
  }

  /** The steps that change nothing but where the worker stands. */
  lemma OwnStep(s: State, w: nat, act: WorkerAct)
    requires Inv(s) && act != Claim && act != Commit && act != CommitLost && act != Fail
    requires act == Call ==> !(w in s.workers && s.workers[w].CLAIMED?)
    ensures Inv(DoWorker(s, w, act))
  {
    if w in s.workers { assert WorkerInv(s, s.workers[w]); }
    if act == Receive && w in s.workers && s.workers[w].CALLING? {
      assert RequestInv(s.net, s.jobs, s.requests[s.workers[w].request]);
    }
    var d := DoWorker(s, w, act);
    if d != s {
      OwnStepSetsPc(s, w, act);
      PcStep(s, w, d.workers[w]);
    }
  }

  lemma OwnStepSetsPc(s: State, w: nat, act: WorkerAct)
    requires act != Claim && act != Commit && act != CommitLost && act != Fail
    requires act == Call ==> !(w in s.workers && s.workers[w].CLAIMED?)
    ensures var d := DoWorker(s, w, act);
      d != s ==>
        && w in d.workers && d == SetPc(s, w, d.workers[w])
        && Holding(d.workers[w]) == if w in s.workers then Holding(s.workers[w]) else None
  {
  }

  lemma ServiceStep(s: State, e: nat, act: ServiceAct)
    requires Inv(s) && Disciplined(s, Service(e, act))
    ensures Inv(DoService(s, e, act))
  {
    var d := DoService(s, e, act);
    if d != s {
      if act.CreateCredential? {
        forall r | 0 <= r < |d.requests| ensures RequestInv(d.net, d.jobs, d.requests[r]) {
          assert RequestInv(s.net, s.jobs, s.requests[r]);
        }
        forall w | w in d.workers ensures WorkerInv(d, d.workers[w]) { assert WorkerInv(s, s.workers[w]); }
        assert forall w, j :: Owns(d, w, j) <==> Owns(s, w, j);
      } else {
        var cred := s.creds[e];
        if cred.kind == GROUP { EnqueuedIsCount(s.jobs, e, cred.idHash); }
        AppendedJob(s, d.jobs[|s.jobs|].call, e);
      }
    }
  }

  lemma RequeueStep(s: State, j: nat)
    requires Inv(s) && j < |s.jobs| && s.jobs[j].state == FAILED
    ensures Inv(SetJob(s, j, Requeued(s.jobs[j], s.clock)))
  {
    var d := SetJob(s, j, Requeued(s.jobs[j], s.clock));
    assert forall v, i :: Owns(d, v, i) <==> Owns(s, v, i);
    forall v ensures !Owns(s, v, j) { assert v in s.workers ==> WorkerInv(s, s.workers[v]); }
    RowStep(s, d, j);
  }

  lemma StepKeepsInv(s: State, step: Step)
    requires Inv(s) && Disciplined(s, step)
    ensures Inv(Do(s, step))
  {
    match step
    case Mined(t) => MinedStep(s, t);
    case ChainTick(n) =>
      TickKeepsNetInv(s.net, n);
      var net := Tick(s.net, n);
      assert forall id :: SnapshotsOf(net.chain, id) == SnapshotsOf(s.net.chain, id);
      ChainStep(s, net);
    case ClockTick(_) =>
      var d := Do(s, step);
      forall w | w in d.workers ensures WorkerInv(d, d.workers[w]) { assert WorkerInv(s, s.workers[w]); }
      assert forall w, j :: Owns(d, w, j) <==> Owns(s, w, j);
    case Gateway(r, act) => GatewayStep(s, r, act);
    case Worker(w, act) => WorkerStep(s, w, act);
    case Service(e, act) => ServiceStep(s, e, act);
    case RetryWrite(j) => if j < |s.jobs| { RequeueStep(s, j); }
    case RetrySnapshot(j) => if j < |s.jobs| && s.jobs[j].state == FAILED { RequeueStep(s, j); }
  }
}
