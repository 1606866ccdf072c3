/**
 The adapter's anchor queue: passes over the PENDING rows, each row looked up on
 chain, submitted, or polled for its receipt.  Passes may overlap and die at any
 await; every store update, chain read and submission may throw.
 */
module AdapterQueue {
  import opened Wrappers
  import opened TrustAnchor
  import opened Network

  const MAX_ATTEMPTS: nat := 5

  datatype AnchorState = PENDING | CONFIRMED | FAILED

  /** `call` stands for anchorType, payloadHash and extraArgs; `txHash` indexes the transactions sent. */
  datatype Job = Job(call: Tx, state: AnchorState, txHash: Option<nat>, attempts: nat)

  /** What findPending returned for one row; it is not read again during the pass. */
  datatype Seen = Seen(job: nat, txHash: Option<nat>, attempts: nat)

  datatype At = READY | ANCHORED | ABSENT | SUBMITTED(t: nat) | SUBMIT_FAILED | RECEIPT(confirmed: bool) | RECEIPT_ERROR

  datatype Pass = Pass(todo: seq<Seen>, at: At)

  datatype State = State(net: Net, jobs: seq<Job>, passes: map<nat, Pass>)

  const INIT := State(Net(EMPTY, []), [], map[])

  predicate Accepted(call: Tx) {
    match call
    case IssueId(_, _, issuedAt, expiresAt) => expiresAt > issuedAt
    case RevokeId(_, _) => true
    case Anchor(_, _) => true
    case _ => false
  }

  function Pending(jobs: seq<Job>): seq<Seen> {
    if jobs == [] then []
    else
      var n := |jobs| - 1;
      Pending(jobs[..n]) + if jobs[n].state == PENDING then [Seen(n, jobs[n].txHash, jobs[n].attempts)] else []
  }

  predicate Lists(todo: seq<Seen>, j: nat) { exists i :: 0 <= i < |todo| && todo[i].job == j }

  /** alreadyAnchoredOnChain. */
  predicate Already(c: Chain, call: Tx) {
    match call
    case IssueId(id, _, _, _) => VerifyId(c, id).found
    case RevokeId(id, _) => VerifyId(c, id).found && VerifyId(c, id).status == 1
    case Anchor(kind, hash) => (kind, hash) in c.anchors
    case _ => false
  }

  datatype SubmitFate = BROADCAST | ANSWER_LOST | REJECTED

  datatype Act =
    | Begin
    | Check
    | CheckThrows
    | Submit(fate: SubmitFate)
    | Poll
    | PollTimesOut
    | PollThrows
    | Write
    | WriteThrows
    | End

  datatype Step =
    | Mined(t: nat)
    | ForeignMined(tx: Tx)
    | ChainTick(seconds: nat)
    | Enqueue(call: Tx)
    | PassStep(p: nat, act: Act)

  function SetPass(s: State, p: nat, pass: Pass): State { s.(passes := s.passes[p := pass]) }

  function SetJob(s: State, j: nat, job: Job): State
    requires j < |s.jobs|
  {
    s.(jobs := s.jobs[j := job])
  }

  function Rest(pass: Pass): Pass
    requires pass.todo != []
  {
    Pass(pass.todo[1..], READY)
  }

  /** The row after the update that ends the current case. */
  function Updated(row: Job, seen: Seen, at: At): Job {
    match at
    case ANCHORED => row.(state := CONFIRMED)
    case SUBMITTED(t) => row.(txHash := Some(t), attempts := seen.attempts + 1)
    case SUBMIT_FAILED =>
      if seen.attempts + 1 >= MAX_ATTEMPTS then row.(state := FAILED, attempts := seen.attempts + 1)
      else row.(attempts := seen.attempts + 1)
    case RECEIPT(confirmed) => row.(state := if confirmed then CONFIRMED else FAILED)
    case RECEIPT_ERROR => row.(state := FAILED)
    case _ => row
  }

  function DoPass(s: State, p: nat, act: Act): State {
    if p !in s.passes then (if act == Begin then SetPass(s, p, Pass(Pending(s.jobs), READY)) else s)
    else
      var pass := s.passes[p];
      if act == End then s.(passes := s.passes - {p})
      else if pass.todo == [] || pass.todo[0].job >= |s.jobs| then s
      else
        var seen := pass.todo[0];
        var row := s.jobs[seen.job];
        match act
        case Begin => s
        case End => s
        case Check =>
          if pass.at != READY || seen.txHash.Some? then s
          else SetPass(s, p, pass.(at := if Already(s.net.chain, row.call) then ANCHORED else ABSENT))
        case CheckThrows => if pass.at != READY || seen.txHash.Some? then s else SetPass(s, p, Rest(pass))
        case Submit(fate) =>
          if pass.at != ABSENT then s
          else
            (match fate
             case BROADCAST =>
               SetPass(s.(net := Broadcast(s.net, row.call, seen.job)), p, pass.(at := SUBMITTED(|s.net.sent|)))
             case ANSWER_LOST => SetPass(s.(net := Broadcast(s.net, row.call, seen.job)), p, pass.(at := SUBMIT_FAILED))
             case REJECTED => SetPass(s, p, pass.(at := SUBMIT_FAILED)))
        case Poll =>
          if pass.at != READY || seen.txHash.None? || seen.txHash.value >= |s.net.sent| then s
          else
            (match s.net.sent[seen.txHash.value].fate
             case IN_FLIGHT => s
             case SUCCEEDED => SetPass(s, p, pass.(at := RECEIPT(true)))
             case REVERTED(_) => SetPass(s, p, pass.(at := RECEIPT(false))))
        case PollTimesOut => if pass.at != READY || seen.txHash.None? then s else SetPass(s, p, Rest(pass))
        case PollThrows => if pass.at != READY || seen.txHash.None? then s
          else SetPass(s, p, pass.(at := RECEIPT_ERROR))
        case Write =>
          if pass.at in {READY, ABSENT} then s
          else SetPass(SetJob(s, seen.job, Updated(row, seen, pass.at)), p, Rest(pass))
        case WriteThrows =>
          (match pass.at
           case SUBMITTED(_) => SetPass(s, p, pass.(at := SUBMIT_FAILED))
           case RECEIPT(_) => SetPass(s, p, pass.(at := RECEIPT_ERROR))
           case READY => s
           case ABSENT => s
           case _ => SetPass(s, p, Rest(pass)))
  }

  function Do(s: State, step: Step): State {
    match step
    case Mined(t) => s.(net := Mine(s.net, t))
    case ForeignMined(tx) =>
      if Execute(s.net.chain, tx).Ok? then s.(net := s.net.(chain := Execute(s.net.chain, tx).value)) else s
    case ChainTick(seconds) => s.(net := Tick(s.net, seconds))
    case Enqueue(call) => if Accepted(call) then s.(jobs := s.jobs + [Job(call, PENDING, None, 0)]) else s
    case PassStep(p, act) => DoPass(s, p, act)
  }

  function Run(s: State, steps: seq<Step>): State
    decreases |steps|
  {
    if steps == [] then s else Run(Do(s, steps[0]), steps[1..])
  }

  // ----- The invariant -----

  ghost predicate OwnTx(s: State, t: nat, j: nat) { t < |s.net.sent| && s.net.sent[t].owner == j }

  ghost predicate RowInv(s: State, j: nat)
    requires j < |s.jobs|
  {
    && Accepted(s.jobs[j].call)
    && (s.jobs[j].txHash.Some? ==> OwnTx(s, s.jobs[j].txHash.value, j))
    && (s.jobs[j].state == CONFIRMED ==> Effect(s.net.chain, s.jobs[j].call))
  }

  ghost predicate SeenInv(s: State, seen: Seen) {
    && seen.job < |s.jobs|
    && (seen.txHash.Some? ==> OwnTx(s, seen.txHash.value, seen.job))
  }

  ghost predicate PassInv(s: State, pass: Pass) {
    && (forall i :: 0 <= i < |pass.todo| ==> SeenInv(s, pass.todo[i]))
    && (pass.at != READY ==> pass.todo != [])
    && (pass.at.SUBMITTED? ==> OwnTx(s, pass.at.t, pass.todo[0].job))
    && (pass.at == ANCHORED || pass.at == RECEIPT(true) ==> Effect(s.net.chain, s.jobs[pass.todo[0].job].call))
  }

  ghost predicate SentInv(s: State) {
    forall t :: 0 <= t < |s.net.sent| ==>
      s.net.sent[t].owner < |s.jobs| && s.net.sent[t].tx == s.jobs[s.net.sent[t].owner].call
  }

  ghost predicate Inv(s: State) {
    && NetInv(s.net)
    && SentInv(s)
    && (forall j :: 0 <= j < |s.jobs| ==> RowInv(s, j))
    && (forall p :: p in s.passes ==> PassInv(s, s.passes[p]))
  }

  ghost predicate Forward(s: State, d: State) {
    && NetLater(s.net, d.net)
    && |s.jobs| <= |d.jobs|
    && (forall j :: 0 <= j < |s.jobs| ==> d.jobs[j].call == s.jobs[j].call)
  }

  lemma {:induction false} ListedArePending(jobs: seq<Job>)
    ensures forall i :: 0 <= i < |Pending(jobs)| ==>
      var seen := Pending(jobs)[i];
      seen.job < |jobs| && jobs[seen.job].state == PENDING && seen.txHash == jobs[seen.job].txHash
    ensures forall i, k :: 0 <= i < k < |Pending(jobs)| ==> Pending(jobs)[i].job < Pending(jobs)[k].job
  {
    if jobs != [] { ListedArePending(jobs[..|jobs| - 1]); }
  }

  lemma {:induction false} PendingIsListed(jobs: seq<Job>, j: nat)
    requires j < |jobs| && jobs[j].state == PENDING
    ensures Lists(Pending(jobs), j)
    decreases |jobs|
  {
    var n := |jobs| - 1;
    var before, all := Pending(jobs[..n]), Pending(jobs);
    if j < n {
      PendingIsListed(jobs[..n], j);
      var i :| 0 <= i < |before| && before[i].job == j;
      assert all[i] == before[i];
    } else {
      assert all[|before|].job == n;
    }
  }

  /** A pass lists every PENDING row once, in order, and nothing else. */
  lemma {:induction false} PendingAreRows(jobs: seq<Job>)
    ensures forall i :: 0 <= i < |Pending(jobs)| ==>
      var seen := Pending(jobs)[i];
      seen.job < |jobs| && jobs[seen.job].state == PENDING && seen.txHash == jobs[seen.job].txHash
    ensures forall i, k :: 0 <= i < k < |Pending(jobs)| ==> Pending(jobs)[i].job < Pending(jobs)[k].job
    ensures forall j: nat :: j < |jobs| && jobs[j].state == PENDING ==> Lists(Pending(jobs), j)
  {
    ListedArePending(jobs);
    forall j: nat | j < |jobs| && jobs[j].state == PENDING
      ensures Lists(Pending(jobs), j)
    {
      PendingIsListed(jobs, j);
    }
  }

  lemma PassesMove(s: State, d: State)
    requires Inv(s) && Forward(s, d)
    ensures forall p :: p in s.passes ==> PassInv(d, s.passes[p])
  {
    EffectsPersist(s.net.chain, d.net.chain);
    forall p | p in s.passes ensures PassInv(d, s.passes[p]) {
      var pass := s.passes[p];
      assert PassInv(s, pass);
      forall i | 0 <= i < |pass.todo| ensures SeenInv(d, pass.todo[i]) { assert SeenInv(s, pass.todo[i]); }
      if pass.todo != [] { assert SeenInv(s, pass.todo[0]); }
    }
  }

  lemma NetStep(s: State, net: Net)
    requires Inv(s) && NetInv(net) && NetLater(s.net, net) && SentInv(s.(net := net))
    ensures Inv(s.(net := net)) && Forward(s, s.(net := net))
  {
    var d := s.(net := net);
    PassesMove(s, d);
    EffectsPersist(s.net.chain, net.chain);
    forall j | 0 <= j < |d.jobs| ensures RowInv(d, j) { assert RowInv(s, j); }
  }

  /** One row and one pass change together. */
  lemma RowStep(s: State, d: State, p: nat, j: nat)
    requires Inv(s) && j < |s.jobs| && |d.jobs| == |s.jobs| && d.net == s.net
    requires d.jobs[j].call == s.jobs[j].call && RowInv(d, j)
    requires forall i :: 0 <= i < |s.jobs| && i != j ==> d.jobs[i] == s.jobs[i]
    requires p in d.passes && d.passes == s.passes[p := d.passes[p]] && PassInv(d, d.passes[p])
    ensures Inv(d) && Forward(s, d)
  {
    assert NetLater(s.net, d.net);
    PassesMove(s, d);
    forall i | 0 <= i < |d.jobs| ensures RowInv(d, i) { assert RowInv(s, i); }
    forall q | q in d.passes ensures PassInv(d, d.passes[q]) {}
  }

  /** The check is true only of calls that have their effect, and of the queue's own kinds of calls it is true of all
   that do. */
  lemma AlreadyHasEffect(c: Chain, call: Tx)
    ensures Already(c, call) ==> Effect(c, call)
    ensures Accepted(call) ==> (Already(c, call) <==> Effect(c, call))
  {
  }

  lemma SubmitStep(s: State, p: nat, fate: SubmitFate)
    requires Inv(s)
    ensures Inv(DoPass(s, p, Submit(fate))) && Forward(s, DoPass(s, p, Submit(fate)))
  {
    var d := DoPass(s, p, Submit(fate));
    if d != s {
      var pass := s.passes[p];
      assert PassInv(s, pass) && SeenInv(s, pass.todo[0]);
      var j := pass.todo[0].job;
      var mid := s.(net := d.net);
      NetStep(s, d.net);
      assert PassInv(mid, pass);
      assert RowInv(mid, j);
      RowStep(mid, d, p, j);
    }
  }

  lemma PassStepKeepsInv(s: State, p: nat, act: Act)
    requires Inv(s)
    ensures Inv(DoPass(s, p, act)) && Forward(s, DoPass(s, p, act))
  {
    var d := DoPass(s, p, act);
    if act.Submit? {
      SubmitStep(s, p, act.fate);
    } else if p !in s.passes {
      if act == Begin { PendingAreRows(s.jobs); BeginStep(s, p); }
    } else if act == End {
      PassesMove(s, d);
      forall j | 0 <= j < |d.jobs| ensures RowInv(d, j) { assert RowInv(s, j); }
    } else if d != s {
      RowActKeepsInv(s, p, act);
    }
  }

  lemma RowActKeepsInv(s: State, p: nat, act: Act)
    requires Inv(s) && p in s.passes && !act.Submit? && act != End && DoPass(s, p, act) != s
    ensures Inv(DoPass(s, p, act)) && Forward(s, DoPass(s, p, act))
  {
    var d := DoPass(s, p, act);
    var pass := s.passes[p];
    assert PassInv(s, pass);
    var seen := pass.todo[0];
    assert SeenInv(s, seen) && RowInv(s, seen.job);
    if seen.txHash.Some? { assert FateInv(s.net.chain, s.net.sent[seen.txHash.value]); }
    assert RowInv(d, seen.job);
    RowStep(s, d, p, seen.job);
  }

  lemma BeginStep(s: State, p: nat)
    requires Inv(s) && p !in s.passes
    ensures Inv(DoPass(s, p, Begin))
  {
    var d := DoPass(s, p, Begin);
    PendingAreRows(s.jobs);
    forall j | 0 <= j < |d.jobs| ensures RowInv(d, j) { assert RowInv(s, j); }
    assert PassInv(d, d.passes[p]) by {
      forall i | 0 <= i < |d.passes[p].todo| ensures SeenInv(d, d.passes[p].todo[i]) {
        assert RowInv(s, Pending(s.jobs)[i].job);
      }
    }
    PassesMove(s, d);
  }

  lemma StepKeepsInv(s: State, step: Step)
    requires Inv(s)
    ensures Inv(Do(s, step)) && Forward(s, Do(s, step))
  {
    match step
    case Mined(t) =>
      MineKeepsNetInv(s.net, t);
      NetStep(s, Mine(s.net, t));
    case ForeignMined(tx) =>
      if Execute(s.net.chain, tx).Ok? {
        var chain := Execute(s.net.chain, tx).value;
        ExecuteMovesForward(s.net.chain, tx);
        ExecuteKeepsChainInv(s.net.chain, tx);
        EffectsPersist(s.net.chain, chain);
        NetStep(s, s.net.(chain := chain));
      }
    case ChainTick(n) =>
      TickKeepsNetInv(s.net, n);
      NetStep(s, Tick(s.net, n));
    case Enqueue(call) =>
      var d := Do(s, step);
      PassesMove(s, d);
      forall j | 0 <= j < |d.jobs| ensures RowInv(d, j) { if j < |s.jobs| { assert RowInv(s, j); } }
    case PassStep(p, act) => PassStepKeepsInv(s, p, act);
  }
}
