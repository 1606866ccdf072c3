/**
 Results about whole runs of the adapter's queue, and its worker loop proved to be
 such a run.
 */
module AdapterWorker {
  import opened Wrappers
  import opened TrustAnchor
  import opened Network
  import opened AdapterQueue

  ghost predicate Reaches(a: State, b: State) {
    exists steps :: Run(a, steps) == b
  }

  ghost predicate Reachable(s: State) { Reaches(INIT, s) }

  lemma {:induction false} RunKeepsInv(s: State, steps: seq<Step>)
    requires Inv(s)
    ensures Inv(Run(s, steps)) && Forward(s, Run(s, steps))
    decreases |steps|
  {
    if steps != [] {
      var d := Do(s, steps[0]);
      StepKeepsInv(s, steps[0]);
      RunKeepsInv(d, steps[1..]);
      LaterTransitive(s.net.chain, d.net.chain, Run(s, steps).net.chain);
    } else {
      assert Forward(s, s);
    }
  }

  lemma {:induction false} RunSnoc(s: State, steps: seq<Step>, last: Step)
    ensures Run(s, steps + [last]) == Do(Run(s, steps), last)
    decreases |steps|
  {
    if steps != [] {
      assert (steps + [last])[1..] == steps[1..] + [last];
      RunSnoc(Do(s, steps[0]), steps[1..], last);
    } else {
      assert Run(Do(s, last), []) == Do(s, last);
    }
  }

  lemma ReachesSelf(a: State)
    ensures Reaches(a, a)
  {
    assert Run(a, []) == a;
  }

  lemma ReachesStep(a: State, b: State, step: Step)
    requires Reaches(a, b)
    ensures Reaches(a, Do(b, step))
  {
    var steps :| Run(a, steps) == b;
    RunSnoc(a, steps, step);
  }

  lemma ReachableInv(s: State)
    requires Reachable(s)
    ensures Inv(s)
  {
    var steps :| Run(INIT, steps) == s;
    RunKeepsInv(INIT, steps);
  }

  /** A row stored as CONFIRMED has its effect on chain then and at every later time, whatever happens to the row. */
  lemma ConfirmedHoldsForever(s: State, later: seq<Step>, j: nat)
    requires Reachable(s) && j < |s.jobs| && s.jobs[j].state == CONFIRMED
    ensures Effect(s.net.chain, s.jobs[j].call)
    ensures j < |Run(s, later).jobs| && Run(s, later).jobs[j].call == s.jobs[j].call
    ensures Effect(Run(s, later).net.chain, s.jobs[j].call)
  {
    ReachableInv(s);
    assert RowInv(s, j);
    RunKeepsInv(s, later);
    EffectIsForever(s.net.chain, Run(s, later).net.chain, s.jobs[j].call);
  }

  /** A pass goes on to submit a row exactly when the row's effect is not on chain at the check. */
  lemma ChecksIffEffect(s: State, p: nat)
    requires Reachable(s) && p in s.passes && s.passes[p].at == READY
    requires s.passes[p].todo != [] && s.passes[p].todo[0].txHash.None?
    ensures var j := s.passes[p].todo[0].job;
      && j < |s.jobs|
      && Do(s, PassStep(p, Check)).passes[p].at == if Effect(s.net.chain, s.jobs[j].call) then ANCHORED else ABSENT
  {
    ReachableInv(s);
    assert PassInv(s, s.passes[p]) && SeenInv(s, s.passes[p].todo[0]);
    var j := s.passes[p].todo[0].job;
    assert RowInv(s, j);
    AlreadyHasEffect(s.net.chain, s.jobs[j].call);
  }

  /** However often a hash is submitted, and by whomever, its effect is recorded once. */
  lemma EachEffectOnce(s: State, a: nat, b: nat)
    requires Reachable(s) && a < b < |s.net.chain.events|
    ensures s.net.chain.events[a] != s.net.chain.events[b]
  {
    ReachableInv(s);
  }

  // ----- Final states and overlapping passes -----

  /** The pass `p` is about to write something other than CONFIRMED over row `j`. */
  predicate WritesOver(s: State, step: Step, j: nat) {
    && step.PassStep? && step.act == Write && step.p in s.passes
    && var pass := s.passes[step.p];
       && pass.todo != [] && pass.todo[0].job == j
       && (pass.at == RECEIPT(false) || pass.at == RECEIPT_ERROR
           || (pass.at == SUBMIT_FAILED && pass.todo[0].attempts + 1 >= MAX_ATTEMPTS))
  }

  /** The pass `p` found row `j` anchored, or polled its success, and writes it. */
  predicate WritesConfirmed(s: State, step: Step, j: nat) {
    && step.PassStep? && step.act == Write && step.p in s.passes
    && var pass := s.passes[step.p];
       pass.todo != [] && pass.todo[0].job == j && (pass.at == ANCHORED || pass.at == RECEIPT(true))
  }

  /** The pass `p` submitted a transaction for row `j` and writes its hash. */
  predicate WritesHash(s: State, step: Step, j: nat) {
    && step.PassStep? && step.act == Write && step.p in s.passes
    && var pass := s.passes[step.p];
       pass.todo != [] && pass.todo[0].job == j && pass.at.SUBMITTED?
  }

  /** A row is CONFIRMED, FAILED or given a transaction by exactly these writes; what it calls for never changes. */
  lemma RowChangesIff(s: State, step: Step, j: nat)
    requires j < |s.jobs|
    ensures var row, next := s.jobs[j], Do(s, step).jobs[j];
      && next.call == row.call
      && (next.state == CONFIRMED <==>
            WritesConfirmed(s, step, j) || (row.state == CONFIRMED && !WritesOver(s, step, j)))
      && (next.state == FAILED <==> WritesOver(s, step, j) || (row.state == FAILED && !WritesConfirmed(s, step, j)))
      && (next.txHash != row.txHash ==> WritesHash(s, step, j))
      && (WritesHash(s, step, j) ==>
            && next.txHash == Some(s.passes[step.p].at.t) && next.state == row.state
            && next.attempts == s.passes[step.p].todo[0].attempts + 1)
  {
  }

  /** CONFIRMED is lost exactly by a pass that read the row before and now records a failure. */
  lemma UnconfirmedIffWrittenOver(s: State, step: Step, j: nat)
    requires Inv(s) && j < |s.jobs| && s.jobs[j].state == CONFIRMED
    ensures Do(s, step).jobs[j].state != CONFIRMED <==> WritesOver(s, step, j)
  {
    if step.PassStep? && step.p in s.passes { assert PassInv(s, s.passes[step.p]); }
  }

  /** Passes do not overlap: one begins only when none is running. */
  predicate SerialRun(s: State, steps: seq<Step>)
    decreases |steps|
  {
    steps == [] ||
    ((steps[0].PassStep? && steps[0].act == Begin ==> s.passes == map[]) && SerialRun(Do(s, steps[0]), steps[1..]))
  }

  /** The rows still to be handled are distinct and PENDING. */
  ghost predicate TodoInv(jobs: seq<Job>, todo: seq<Seen>) {
    && (forall i :: 0 <= i < |todo| ==> todo[i].job < |jobs| && jobs[todo[i].job].state == PENDING)
    && (forall i, k :: 0 <= i < k < |todo| ==> todo[i].job != todo[k].job)
  }

  ghost predicate SerialInv(s: State) {
    && (forall p, q :: p in s.passes && q in s.passes ==> p == q)
    && (forall p :: p in s.passes ==> TodoInv(s.jobs, s.passes[p].todo))
  }

  ghost predicate DoneKept(s: State, d: State) {
    && |s.jobs| <= |d.jobs|
    && (forall j :: 0 <= j < |s.jobs| && s.jobs[j].state != PENDING ==> d.jobs[j].state == s.jobs[j].state)
  }

  /** What one step of a running pass does to its list and to the rows. */
  ghost predicate PassShape(s: State, d: State, p: nat) {
    && p in s.passes
    && ( (d.jobs == s.jobs && d.passes == s.passes - {p})
      || (p in d.passes && d.passes == s.passes[p := d.passes[p]] && d.jobs == s.jobs
          && (d.passes[p].todo == s.passes[p].todo
            || (s.passes[p].todo != [] && d.passes[p].todo == s.passes[p].todo[1..])))
      || (p in d.passes && d.passes == s.passes[p := d.passes[p]]
          && s.passes[p].todo != [] && d.passes[p].todo == s.passes[p].todo[1..]
          && s.passes[p].todo[0].job < |s.jobs| == |d.jobs|
          && d.jobs == s.jobs[s.passes[p].todo[0].job := d.jobs[s.passes[p].todo[0].job]]))
  }

  lemma PassStepShape(s: State, p: nat, act: Act)
    requires p in s.passes
    ensures PassShape(s, DoPass(s, p, act), p)
  {
    var pass := s.passes[p];
    var d := DoPass(s, p, act);
    if d == s { assert s.passes == s.passes[p := s.passes[p]]; }
    else if act == Write {
      assert d.jobs == s.jobs[pass.todo[0].job := d.jobs[pass.todo[0].job]];
    }
  }

  lemma TodoTail(jobs: seq<Job>, todo: seq<Seen>, row: Job)
    requires TodoInv(jobs, todo) && todo != []
    ensures TodoInv(jobs, todo[1..]) && TodoInv(jobs[todo[0].job := row], todo[1..])
  {
  }

  lemma SerialShape(s: State, d: State, p: nat)
    requires SerialInv(s) && PassShape(s, d, p)
    ensures SerialInv(d) && DoneKept(s, d)
  {
    var todo := s.passes[p].todo;
    if todo != [] {
      TodoTail(s.jobs, todo, d.jobs[todo[0].job]);
    }
  }

  lemma SerialStep(s: State, step: Step)
    requires SerialInv(s) && (step.PassStep? && step.act == Begin ==> s.passes == map[])
    ensures SerialInv(Do(s, step)) && DoneKept(s, Do(s, step))
  {
    if step.PassStep? {
      if step.p in s.passes {
        PassStepShape(s, step.p, step.act);
        SerialShape(s, DoPass(s, step.p, step.act), step.p);
      } else {
        PendingAreRows(s.jobs);
      }
    }
  }

  /** Without overlap CONFIRMED and FAILED are final. */
  lemma {:induction false} FinalWhenSerial(s: State, steps: seq<Step>, j: nat)
    requires SerialInv(s) && SerialRun(s, steps) && j < |s.jobs| && s.jobs[j].state != PENDING
    ensures j < |Run(s, steps).jobs| && Run(s, steps).jobs[j].state == s.jobs[j].state
    decreases |steps|
  {
    if steps != [] {
      SerialStep(s, steps[0]);
      FinalWhenSerial(Do(s, steps[0]), steps[1..], j);
    }
  }

  const EVIDENCE_CALL := Anchor(EVIDENCE, 7)

  lemma Submitting() returns (s: State)
    ensures Reachable(s)
    ensures s == State(Net(EMPTY, [Sent(EVIDENCE_CALL, 0, IN_FLIGHT)]), [Job(EVIDENCE_CALL, PENDING, None, 0)],
                       map[0 := Pass([Seen(0, None, 0)], SUBMITTED(0))])
  {
    s := Begun();
    ReachesStep(INIT, s, PassStep(0, Check));
    s := Do(s, PassStep(0, Check));
    ReachesStep(INIT, s, PassStep(0, Submit(BROADCAST)));
    s := Do(s, PassStep(0, Submit(BROADCAST)));
  }

  lemma Begun() returns (s: State)
    ensures Reachable(s)
    ensures s == State(Net(EMPTY, []), [Job(EVIDENCE_CALL, PENDING, None, 0)],
                       map[0 := Pass([Seen(0, None, 0)], READY)])
  {
    s := INIT;
    ReachesSelf(INIT);
    ReachesStep(INIT, s, Enqueue(EVIDENCE_CALL));
    s := Do(s, Enqueue(EVIDENCE_CALL));
    ReachesStep(INIT, s, PassStep(0, Begin));
    assert s.jobs[..0] == [] && Pending(s.jobs) == [Seen(0, None, 0)];
    s := Do(s, PassStep(0, Begin));
  }

  lemma Submitted() returns (s: State)
    ensures Reachable(s) && s.passes == map[] && s.jobs == [Job(EVIDENCE_CALL, PENDING, Some(0), 1)]
    ensures s.net.sent == [Sent(EVIDENCE_CALL, 0, SUCCEEDED)] && Effect(s.net.chain, EVIDENCE_CALL)
  {
    s := Submitting();
    ReachesStep(INIT, s, PassStep(0, Write));
    s := Do(s, PassStep(0, Write));
    ReachesStep(INIT, s, PassStep(0, End));
    s := Do(s, PassStep(0, End));
    assert s.passes == map[];
    ReachesStep(INIT, s, Mined(0));
    s := Do(s, Mined(0));
  }

  lemma TwoPasses() returns (s: State)
    ensures Reachable(s) && s.jobs == [Job(EVIDENCE_CALL, PENDING, Some(0), 1)]
    ensures s.net.sent == [Sent(EVIDENCE_CALL, 0, SUCCEEDED)] && Effect(s.net.chain, EVIDENCE_CALL)
    ensures var pass := Pass([Seen(0, Some(0), 1)], READY); s.passes == map[0 := pass, 1 := pass]
  {
    s := Submitted();
    assert s.jobs[..0] == [] && Pending(s.jobs) == [Seen(0, Some(0), 1)];
    ReachesStep(INIT, s, PassStep(0, Begin));
    s := Do(s, PassStep(0, Begin));
    ReachesStep(INIT, s, PassStep(1, Begin));
    s := Do(s, PassStep(1, Begin));
  }

  lemma OneConfirmed() returns (s: State)
    ensures Reachable(s) && s.jobs == [Job(EVIDENCE_CALL, CONFIRMED, Some(0), 1)]
    ensures Effect(s.net.chain, EVIDENCE_CALL)
    ensures 1 in s.passes && s.passes[1] == Pass([Seen(0, Some(0), 1)], READY)
  {
    s := TwoPasses();
    ReachesStep(INIT, s, PassStep(0, Poll));
    s := Do(s, PassStep(0, Poll));
    ReachesStep(INIT, s, PassStep(0, Write));
    s := Do(s, PassStep(0, Write));
    assert s.passes[1] == Pass([Seen(0, Some(0), 1)], READY);
  }

  /** Two overlapping passes: one confirms, then the other's failed poll stores FAILED although the hash is anchored. */
  lemma OverlapStoresFailed()
    ensures exists s, d ::
      && Reachable(s) && |s.jobs| == 1 && s.jobs[0].state == CONFIRMED
      && d == Do(s, PassStep(1, Write)) && d.jobs[0].state == FAILED && Effect(d.net.chain, d.jobs[0].call)
  {
    var s := OneConfirmed();
    ReachesStep(INIT, s, PassStep(1, PollThrows));
    s := Do(s, PassStep(1, PollThrows));
    assert s.jobs[0].state == CONFIRMED && s.passes[1] == Pass([Seen(0, Some(0), 1)], RECEIPT_ERROR);
    var d := Do(s, PassStep(1, Write));
    assert d.jobs[0].state == FAILED;
  }

  // ----- The way to CONFIRMED -----

  /** The row's effect is on chain and nobody recorded a transaction for it, or its transaction succeeded. */
  predicate Settled(s: State, j: nat) {
    && j < |s.jobs| && s.jobs[j].state == PENDING
    && match s.jobs[j].txHash
       case None => Effect(s.net.chain, s.jobs[j].call)
       case Some(t) => t < |s.net.sent| && s.net.sent[t].fate == SUCCEEDED
  }

  /** A pass can go by the first `n` rows on its list without a change: their checks and polls fail. */
  lemma {:induction false} PassesBy(a: State, s: State, p: nat, n: nat) returns (d: State)
    requires Reaches(a, s) && p in s.passes && s.passes[p].at == READY && n < |s.passes[p].todo|
    requires forall i | 0 <= i < n :: s.passes[p].todo[i].job < |s.jobs|
    ensures Reaches(a, d) && d == SetPass(s, p, Pass(s.passes[p].todo[n..], READY))
    decreases n
  {
    var todo := s.passes[p].todo;
    if n == 0 {
      assert todo[0..] == todo && s.passes == s.passes[p := s.passes[p]];
      d := s;
    } else {
      var act := if todo[0].txHash.None? then CheckThrows else PollTimesOut;
      ReachesStep(a, s, PassStep(p, act));
      d := Do(s, PassStep(p, act));
      assert todo[1..][n - 1..] == todo[n..];
      d := PassesBy(a, d, p, n - 1);
    }
  }

  /** A settled row can be confirmed by one more pass, without another transaction and without a change to other
   rows. */
  lemma {:induction false} SettledIsConfirmable(s: State, p: nat, j: nat) returns (d: State)
    requires Reachable(s) && p !in s.passes && Settled(s, j)
    ensures Reaches(s, d) && d == s.(jobs := s.jobs[j := s.jobs[j].(state := CONFIRMED)])
  {
    ReachableInv(s);
    assert RowInv(s, j);
    AlreadyHasEffect(s.net.chain, s.jobs[j].call);
    var started := ReachesRow(s, p, j);
    var confirmed := ConfirmsFirst(s, started, p);
    ReachesStep(s, confirmed, PassStep(p, End));
    d := Do(confirmed, PassStep(p, End));
    assert d.passes == s.passes;
  }

  /** A new pass can get to row `j` without a change. */
  lemma ReachesRow(s: State, p: nat, j: nat) returns (d: State)
    requires p !in s.passes && j < |s.jobs| && s.jobs[j].state == PENDING
    ensures Reaches(s, d) && p in d.passes && d == SetPass(s, p, d.passes[p]) && d.passes[p].at == READY
    ensures var todo := d.passes[p].todo; todo != [] && todo[0].job == j && todo[0].txHash == s.jobs[j].txHash
  {
    PendingAreRows(s.jobs);
    var todo := Pending(s.jobs);
    assert Lists(todo, j);
    var n: nat :| n < |todo| && todo[n].job == j;
    ReachesSelf(s);
    ReachesStep(s, s, PassStep(p, Begin));
    d := PassesBy(s, Do(s, PassStep(p, Begin)), p, n);
    assert d == SetPass(s, p, Pass(todo[n..], READY)) && todo[n..][0] == todo[n];
  }

  lemma ConfirmsFirst(a: State, s: State, p: nat) returns (d: State)
    requires Reaches(a, s) && p in s.passes && s.passes[p].at == READY && s.passes[p].todo != []
    requires var seen := s.passes[p].todo[0];
      && Settled(s, seen.job) && seen.txHash == s.jobs[seen.job].txHash
      && (Effect(s.net.chain, s.jobs[seen.job].call) ==> Already(s.net.chain, s.jobs[seen.job].call))
    ensures Reaches(a, d) && p in d.passes
    ensures var j := s.passes[p].todo[0].job;
      d == s.(jobs := s.jobs[j := s.jobs[j].(state := CONFIRMED)], passes := s.passes[p := d.passes[p]])
  {
    var act := if s.passes[p].todo[0].txHash.None? then Check else Poll;
    ReachesStep(a, s, PassStep(p, act));
    d := Do(s, PassStep(p, act));
    ReachesStep(a, d, PassStep(p, Write));
    d := Do(d, PassStep(p, Write));
  }

  // ----- The worker loop -----

  datatype Summary = Summary(submitted: nat, confirmed: nat, failed: nat, skipped: nat, errors: seq<nat>,
    dropped: nat) {
    function Handled(): nat { submitted + confirmed + failed + skipped + dropped }
  }

  ghost predicate Kept(a: State, b: State, self: nat) {
    && (self in a.passes ==> self in b.passes && b.passes[self] == a.passes[self])
    && (self !in a.passes ==> self !in b.passes)
    && |a.jobs| <= |b.jobs| && |a.net.sent| <= |b.net.sent|
    && (forall j :: 0 <= j < |a.jobs| ==> b.jobs[j].call == a.jobs[j].call)
  }

  lemma OthersKeep(s: State, step: Step, self: nat)
    requires !(step.PassStep? && step.p == self)
    ensures Kept(s, Do(s, step), self)
  {
  }

  function Numbers(todo: seq<Seen>): seq<nat> { seq(|todo|, i requires 0 <= i < |todo| => todo[i].job) }

  /** Exactly the PENDING rows, each once and in order. */
  ghost predicate EachPendingOnce(rows: seq<nat>, jobs: seq<Job>) {
    && (forall j: nat :: j in rows <==> j < |jobs| && jobs[j].state == PENDING)
    && (forall i, k :: 0 <= i < k < |rows| ==> rows[i] < rows[k])
  }

  lemma PassTakesEachPendingOnce(jobs: seq<Job>)
    ensures EachPendingOnce(Numbers(Pending(jobs)), jobs)
  {
    PendingAreRows(jobs);
    var pending, rows := Pending(jobs), Numbers(Pending(jobs));
    forall j: nat
      ensures j in rows <==> j < |jobs| && jobs[j].state == PENDING
    {
      if j < |jobs| && jobs[j].state == PENDING {
        assert Lists(pending, j);
        var i :| 0 <= i < |pending| && pending[i].job == j;
        assert rows[i] == j;
      }
      if j in rows {
        var i :| 0 <= i < |rows| && rows[i] == j;
        assert pending[i].job == j;
      }
    }
  }

  class Worker {
    var net: Net
    var jobs: seq<Job>
    var passes: map<nat, Pass>

    function View(): State
      reads this
    {
      State(net, jobs, passes)
    }

    constructor ()
      ensures View() == INIT
    {
      net, jobs, passes := Net(EMPTY, []), [], map[];
    }

    /** Any number of steps of everything but pass `self`. */
    method Interleave(ghost start: State, self: nat)
      requires Reaches(start, View())
      modifies this
      ensures Reaches(start, View()) && Kept(old(View()), View(), self)
    {
      var env: seq<Step> := *;
      for i := 0 to |env|
        invariant Reaches(start, View()) && Kept(old(View()), View(), self)
      {
        if !(env[i].PassStep? && env[i].p == self) {
          var next := Do(View(), env[i]);
          ReachesStep(start, View(), env[i]);
          OthersKeep(View(), env[i], self);
          net, jobs, passes := next.net, next.jobs, next.passes;
        }
      }
    }

    /** One pass: exactly the rows that were PENDING at the start are handled, each once and in order, and each is
     counted once. */
    method RunWorkerOnce(self: nat) returns (summary: Summary, ghost handled: seq<nat>)
      requires self !in passes
      modifies this
      ensures Reaches(old(View()), View()) && self !in passes
      ensures EachPendingOnce(handled, old(jobs)) && summary.Handled() == |handled|
      ensures |summary.errors| >= summary.dropped
      ensures forall e :: e in summary.errors ==> e < |old(jobs)| && old(jobs)[e].state == PENDING
    {
      ghost var start := View();
      ReachesSelf(start);
      ReachesStep(start, View(), PassStep(self, Begin));
      PendingAreRows(jobs);
      PassTakesEachPendingOnce(jobs);
      var pending := Pending(jobs);
      passes := passes[self := Pass(pending, READY)];
      summary := Summary(0, 0, 0, 0, [], 0);
      handled := [];
      for i := 0 to |pending|
        invariant Reaches(start, View()) && self in passes && passes[self] == Pass(pending[i..], READY)
        invariant |old(jobs)| <= |jobs|
        invariant handled == Numbers(pending[..i])
        invariant summary.Handled() == i && |summary.errors| >= summary.dropped
        invariant forall e :: e in summary.errors ==> e < |old(jobs)| && old(jobs)[e].state == PENDING
      {
        assert pending[i..][0] == pending[i] && pending[i..][1..] == pending[i + 1..];
        Interleave(start, self);
        if pending[i].txHash.None? {
          summary := SubmitRow(start, self, pending[i], pending[i..], summary);
        } else {
          summary := PollRow(start, self, pending[i], pending[i..], summary);
        }
        assert pending[..i + 1] == pending[..i] + [pending[i]];
        handled := handled + [pending[i].job];
      }
      assert pending[..|pending|] == pending;
      ReachesStep(start, View(), PassStep(self, End));
      passes := passes - {self};
    }

    /** store.update for the current row, which may throw without effect. */
    method Update(ghost start: State, self: nat, seen: Seen, todo: seq<Seen>, at: At) returns (stored: bool)
      requires Reaches(start, View()) && todo != [] && todo[0] == seen && seen.job < |jobs|
      requires self in passes && passes[self] == Pass(todo, at) && at !in {READY, ABSENT}
      modifies this
      ensures Reaches(start, View()) && |jobs| == |old(jobs)| && net == old(net)
      ensures stored ==> jobs == old(jobs)[seen.job := Updated(old(jobs)[seen.job], seen, at)]
      ensures !stored ==> jobs == old(jobs)
      ensures self in passes && passes[self] ==
        if stored || at in {ANCHORED, SUBMIT_FAILED, RECEIPT_ERROR} then Pass(todo[1..], READY)
        else if at.SUBMITTED? then Pass(todo, SUBMIT_FAILED) else Pass(todo, RECEIPT_ERROR)
    {
      stored := *;
      ReachesStep(start, View(), PassStep(self, if stored then Write else WriteThrows));
      if stored {
        jobs := jobs[seen.job := Updated(jobs[seen.job], seen, at)];
        passes := passes[self := Pass(todo[1..], READY)];
      } else {
        passes := passes[self := if at.SUBMITTED? then Pass(todo, SUBMIT_FAILED)
                                 else if at.RECEIPT? then Pass(todo, RECEIPT_ERROR)
                                 else Pass(todo[1..], READY)];
      }
    }

    /** A row without a transaction: look on chain first, then submit. */
    method SubmitRow(ghost start: State, self: nat, seen: Seen, todo: seq<Seen>,
        before: Summary) returns (summary: Summary)
      requires Reaches(start, View()) && todo != [] && todo[0] == seen && seen.job < |jobs| && seen.txHash.None?
      requires self in passes && passes[self] == Pass(todo, READY)
      modifies this
      ensures Reaches(start, View()) && self in passes && passes[self] == Pass(todo[1..], READY)
              && |old(jobs)| <= |jobs|
      ensures summary.Handled() == before.Handled() + 1
      ensures summary.errors == before.errors || summary.errors == before.errors + [seen.job]
      ensures summary.dropped > before.dropped ==>
        summary.errors != before.errors && summary.dropped == before.dropped + 1
      ensures summary.dropped >= before.dropped
    {
      var threw: bool := *;
      ReachesStep(start, View(), PassStep(self, if threw then CheckThrows else Check));
      if threw {
        passes := passes[self := Pass(todo[1..], READY)];
        return before.(errors := before.errors + [seen.job], dropped := before.dropped + 1);
      }
      var already := Already(net.chain, jobs[seen.job].call);
      passes := passes[self := Pass(todo, if already then ANCHORED else ABSENT)];
      Interleave(start, self);
      if already {
        var stored := Update(start, self, seen, todo, ANCHORED);
        return if stored then before.(confirmed := before.confirmed + 1)
               else before.(errors := before.errors + [seen.job], dropped := before.dropped + 1);
      }
      var sent := SubmitTx(start, self, seen, todo);
      Interleave(start, self);
      if sent.Some? {
        var stored := Update(start, self, seen, todo, SUBMITTED(sent.value));
        if stored { return before.(submitted := before.submitted + 1); }
        Interleave(start, self);
      }
      var last := seen.attempts + 1 >= MAX_ATTEMPTS;
      var stored := Update(start, self, seen, todo, SUBMIT_FAILED);
      summary := before.(errors := before.errors + [seen.job]);
      summary := if !stored then summary.(dropped := summary.dropped + 1)
                 else if last then summary.(failed := summary.failed + 1)
                 else summary.(skipped := summary.skipped + 1);
    }

    /** submitJob: the transaction may be broadcast even when the call throws. */
    method SubmitTx(ghost start: State, self: nat, seen: Seen, todo: seq<Seen>) returns (sent: Option<nat>)
      requires Reaches(start, View()) && todo != [] && todo[0] == seen && seen.job < |jobs|
      requires self in passes && passes[self] == Pass(todo, ABSENT)
      modifies this`net, this`passes
      ensures Reaches(start, View())
      ensures passes == old(passes)[self := Pass(todo, if sent.Some? then SUBMITTED(sent.value) else SUBMIT_FAILED)]
      ensures sent.Some? ==> sent.value == |old(net).sent| && net == Broadcast(old(net), jobs[seen.job].call, seen.job)
      ensures net == old(net) || net == Broadcast(old(net), jobs[seen.job].call, seen.job)
    {
      var fate: SubmitFate := *;
      ReachesStep(start, View(), PassStep(self, Submit(fate)));
      sent := if fate == BROADCAST then Some(|net.sent|) else None;
      if fate != REJECTED { net := Broadcast(net, jobs[seen.job].call, seen.job); }
      passes := passes[self := Pass(todo, if sent.Some? then SUBMITTED(sent.value) else SUBMIT_FAILED)];
    }

    /** A submitted row: poll its receipt; a timeout leaves it for the next pass. */
    method PollRow(ghost start: State, self: nat, seen: Seen, todo: seq<Seen>,
        before: Summary) returns (summary: Summary)
      requires Reaches(start, View()) && todo != [] && todo[0] == seen && seen.job < |jobs| && seen.txHash.Some?
      requires self in passes && passes[self] == Pass(todo, READY)
      modifies this
      ensures Reaches(start, View()) && self in passes && passes[self] == Pass(todo[1..], READY)
              && |old(jobs)| <= |jobs|
      ensures summary.Handled() == before.Handled() + 1
      ensures summary.errors == before.errors || summary.errors == before.errors + [seen.job]
      ensures summary.dropped > before.dropped ==>
        summary.errors != before.errors && summary.dropped == before.dropped + 1
      ensures summary.dropped >= before.dropped
    {
      var t := seen.txHash.value;
      var threw: bool := *;
      if !threw && (t >= |net.sent| || net.sent[t].fate == IN_FLIGHT) {
        ReachesStep(start, View(), PassStep(self, PollTimesOut));
        passes := passes[self := Pass(todo[1..], READY)];
        return before.(skipped := before.skipped + 1);
      }
      ReachesStep(start, View(), PassStep(self, if threw then PollThrows else Poll));
      if !threw {
        var confirmed := net.sent[t].fate == SUCCEEDED;
        passes := passes[self := Pass(todo, RECEIPT(confirmed))];
        Interleave(start, self);
        var stored := Update(start, self, seen, todo, RECEIPT(confirmed));
        if stored {
          return if confirmed then before.(confirmed := before.confirmed + 1) else before.(failed := before.failed + 1);
        }
      } else {
        passes := passes[self := Pass(todo, RECEIPT_ERROR)];
      }
      Interleave(start, self);
      var stored := Update(start, self, seen, todo, RECEIPT_ERROR);
      summary := before.(errors := before.errors + [seen.job]);
      summary := if stored then summary.(failed := summary.failed + 1) else summary.(dropped := summary.dropped + 1);
    }
  }
}
