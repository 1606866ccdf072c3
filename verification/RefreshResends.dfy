/**
 What becomes of the requests that met a 401: which are sent again, which are rejected, and for what cause. */
module RefreshResends {
  import opened Wrappers
  import opened RefreshQueue

  // ----- One turn -----

  /** The refresh in flight has been answered, and the turn of its leader is next. */
  predicate Ready(s: State) { InFlight(s) && s.refreshes[|s.refreshes| - 1].outcome.Some? }

  /** The first 401 of a request that is not exempt, while the latch is down, joins the refresh in flight or starts one;
   one started after a sign-out has failed already. */
  lemma {:induction false} FirstUnauthorized(steps: seq<Step>, r: nat)
    requires var s := Run(INIT, steps);
      r in s.requests && s.requests[r].phase == Sent && !s.requests[r].retry && !s.requests[r].exempt && !s.latched
    ensures var s, t := Run(INIT, steps), Do(Run(INIT, steps), Reply(r, Unauthorized));
      && r in t.requests && t.requests[r].retry && t.requests[r].sends == 1
      && if InFlight(s)
         then
           && t.requests[r].phase == Waiting(|s.refreshes| - 1) && t.queue == s.queue + [r]
           && t.refreshes == s.refreshes
         else
           && t.requests[r].phase == Leading(|s.refreshes|) && t.queue == s.queue
           && |t.refreshes| == |s.refreshes| + 1 && t.refreshes[|s.refreshes|].leader == r && InFlight(t)
           && (t.refreshes[|s.refreshes|].outcome == if s.signedOut then Some(Unavailable) else None)
  {
    RunKeepsInv(INIT, steps);
    assert RequestInv(Run(INIT, steps), r);
  }

  /** The leader is sent again exactly when its refresh brought a token, and rejected otherwise; only a refused refresh
   token raises the latch and clears the token. */
  lemma {:induction false} LeaderResends(steps: seq<Step>)
    requires Ready(Run(INIT, steps))
    ensures var s, t := Run(INIT, steps), Do(Run(INIT, steps), LeaderResumes);
      var n := |s.refreshes| - 1;
      var r, o := s.refreshes[n].leader, s.refreshes[n].outcome.value;
      && r in s.requests && s.requests[r].phase == Leading(n) && r in t.requests
      && (if o.Fresh? then t.requests[r].phase == Sent && t.requests[r].sends == 2
          else t.requests[r].phase == Rejected && t.requests[r].sends == 1)
      && (o == Refused ==> t.latched && t.token == None)
      && (o != Refused ==> t.latched == s.latched && t.token == s.token)
      && !t.isRefreshing && t.signedOut == s.signedOut
  {
    RunKeepsInv(INIT, steps);
    var s := Run(INIT, steps);
    var n := |s.refreshes| - 1;
    assert RequestInv(s, s.refreshes[n].leader);
    SettleAllAt(s.requests, s.queue, n, s.refreshes[n].outcome.value, s.refreshes[n].leader);
  }

  /** A waiter is sent again exactly when the refresh it joined brought a token, and rejected otherwise. */
  lemma {:induction false} WaiterResends(steps: seq<Step>, r: nat)
    requires r in Run(INIT, steps).requests && Run(INIT, steps).requests[r].phase.Woken?
    ensures var s, t := Run(INIT, steps), Do(Run(INIT, steps), Resume(r));
      var n := s.requests[r].phase.refresh;
      && n < |s.refreshes| && s.requests[r].joined == Some(n) && s.refreshes[n].outcome.Some? && r in t.requests
      && (if s.refreshes[n].outcome.value.Fresh? then t.requests[r].phase == Sent && t.requests[r].sends == 2
          else t.requests[r].phase == Rejected && t.requests[r].sends == 1)
      && t == s.(requests := s.requests[r := t.requests[r]])
  {
    RunKeepsInv(INIT, steps);
    assert RequestInv(Run(INIT, steps), r);
  }

  // ----- Sent again -----

  predicate LedFresh(refreshes: seq<Refresh>, r: nat, n: nat) {
    && n < |refreshes| && refreshes[n].leader == r && refreshes[n].closed
    && refreshes[n].outcome.Some? && refreshes[n].outcome.value.Fresh?
  }

  predicate Led(refreshes: seq<Refresh>, r: nat) { exists n | 0 <= n < |refreshes| :: LedFresh(refreshes, r, n) }

  /** The request went on after a refresh, led or joined, that brought a token. */
  predicate Refreshed(s: State, r: nat)
    requires r in s.requests
  {
    var q := s.requests[r];
    Led(s.refreshes, r) || (!q.phase.Woken? && q.got.Some? && q.got.value.Fresh?)
  }

  predicate ResentInv(s: State) {
    && (forall n | 0 <= n < |s.refreshes| ::
          s.refreshes[n].leader in s.requests && s.requests[s.refreshes[n].leader].retry)
    && (forall r | r in s.requests :: s.requests[r].sends == if Refreshed(s, r) then 2 else 1)
  }

  /** Steps that leave all refreshes as they are. */
  lemma {:induction false} SameRefreshesKeepResent(s: State, t: State, r: nat)
    requires ResentInv(s) && t.refreshes == s.refreshes && r in t.requests
    requires t.requests == s.requests[r := t.requests[r]]
    requires r in s.requests && s.requests[r].retry ==> t.requests[r].retry
    requires t.requests[r].sends == if Refreshed(t, r) then 2 else 1
    ensures ResentInv(t)
  {
    forall x | x in t.requests
      ensures t.requests[x].sends == if Refreshed(t, x) then 2 else 1
    {
      if x != r { assert Refreshed(t, x) <==> Refreshed(s, x); }
    }
  }

  lemma {:induction false} NewRefreshKeepsResent(s: State, t: State, r: nat, f: Refresh)
    requires Inv(s) && ResentInv(s) && r in s.requests && !s.requests[r].retry && f == Refresh(r, f.outcome, false)
    requires t.refreshes == s.refreshes + [f] && r in t.requests && t.requests == s.requests[r := t.requests[r]]
    requires t.requests[r] == s.requests[r].(retry := true, phase := Leading(|s.refreshes|))
    ensures ResentInv(t)
  {
    assert RequestInv(s, r);
    forall x | x in t.requests
      ensures Led(t.refreshes, x) <==> Led(s.refreshes, x)
    {
      if Led(s.refreshes, x) {
        var n :| 0 <= n < |s.refreshes| && LedFresh(s.refreshes, x, n);
        assert LedFresh(t.refreshes, x, n);
      }
      if Led(t.refreshes, x) {
        var n :| 0 <= n < |t.refreshes| && LedFresh(t.refreshes, x, n);
        assert LedFresh(s.refreshes, x, n);
      }
    }
    assert !Led(s.refreshes, r);
  }

  lemma {:induction false} AnswerKeepsResent(s: State, o: Outcome)
    requires Inv(s) && ResentInv(s)
    ensures ResentInv(Do(s, RefreshAnswer(o)))
  {
    var t := Do(s, RefreshAnswer(o));
    forall r, n | 0 <= n < |s.refreshes|
      ensures LedFresh(t.refreshes, r, n) <==> LedFresh(s.refreshes, r, n)
    {
    }
    assert forall r :: Led(t.refreshes, r) <==> Led(s.refreshes, r);
  }

  /** The leader's turn closes the refresh: it alone comes to have led one that brought a token. */
  lemma {:induction false} LeaderKeepsResent(s: State)
    requires Inv(s) && ResentInv(s) && Ready(s)
    ensures ResentInv(LeaderGoesOn(s))
  {
    var t := LeaderGoesOn(s);
    var n := |s.refreshes| - 1;
    var leader, o := s.refreshes[n].leader, s.refreshes[n].outcome.value;
    assert RequestInv(s, leader);
    SettleAllAt(s.requests, s.queue, n, o, leader);
    forall r | r in t.requests
      ensures t.requests[r].sends == if Refreshed(t, r) then 2 else 1
    {
      SettleAllAt(s.requests, s.queue, n, o, r);
      ClosingIsLed(s, t, r);
      assert RequestInv(s, r);
    }
    forall k | 0 <= k < |t.refreshes|
      ensures t.refreshes[k].leader in t.requests && t.requests[t.refreshes[k].leader].retry
    {
      SettleAllAt(s.requests, s.queue, n, o, s.refreshes[k].leader);
    }
  }

  lemma {:induction false} ClosingIsLed(s: State, t: State, r: nat)
    requires Ready(s) && var n := |s.refreshes| - 1; t.refreshes == s.refreshes[n := s.refreshes[n].(closed := true)]
    ensures var f := s.refreshes[|s.refreshes| - 1];
      Led(t.refreshes, r) <==> Led(s.refreshes, r) || (f.leader == r && f.outcome.value.Fresh?)
  {
    var n := |s.refreshes| - 1;
    if Led(s.refreshes, r) {
      var k :| 0 <= k < |s.refreshes| && LedFresh(s.refreshes, r, k);
      assert LedFresh(t.refreshes, r, k);
    }
    if s.refreshes[n].leader == r && s.refreshes[n].outcome.value.Fresh? { assert LedFresh(t.refreshes, r, n); }
    if Led(t.refreshes, r) {
      var k :| 0 <= k < |t.refreshes| && LedFresh(t.refreshes, r, k);
      assert k < n ==> LedFresh(s.refreshes, r, k);
    }
  }

  lemma {:induction false} ReplyKeepsResent(s: State, r: nat, answer: Answer)
    requires Inv(s) && ResentInv(s)
    ensures ResentInv(Do(s, Reply(r, answer)))
  {
    var t := Do(s, Reply(r, answer));
    if r in s.requests && s.requests[r].phase == Sent {
      assert RequestInv(s, r);
      if t.refreshes == s.refreshes {
        SameRefreshesKeepResent(s, t, r);
      } else {
        NewRefreshKeepsResent(s, t, r, t.refreshes[|s.refreshes|]);
      }
    }
  }

  lemma {:induction false} ResumeKeepsResent(s: State, r: nat)
    requires Inv(s) && ResentInv(s)
    ensures ResentInv(Do(s, Resume(r)))
  {
    var t := Do(s, Resume(r));
    if r in s.requests && s.requests[r].phase.Woken? {
      assert RequestInv(s, r);
      SameRefreshesKeepResent(s, t, r);
    }
  }

  lemma {:induction false} SendKeepsResent(s: State, r: nat, exempt: bool)
    requires ResentInv(s)
    ensures ResentInv(Do(s, Send(r, exempt)))
  {
    if r !in s.requests {
      var t := Do(s, Send(r, exempt));
      assert !Led(t.refreshes, r);
      SameRefreshesKeepResent(s, t, r);
    }
  }

  lemma {:induction false} StepKeepsResent(s: State, step: Step)
    requires Inv(s) && ResentInv(s)
    ensures ResentInv(Do(s, step))
  {
    match step
    case Send(r, exempt) => SendKeepsResent(s, r, exempt);
    case Reply(r, answer) => ReplyKeepsResent(s, r, answer);
    case RefreshAnswer(o) => AnswerKeepsResent(s, o);
    case LeaderResumes => if Ready(s) { LeaderKeepsResent(s); }
    case Resume(r) => ResumeKeepsResent(s, r);
    case _ => OtherStepsKeepResent(s, Do(s, step));
  }

  lemma {:induction false} OtherStepsKeepResent(s: State, t: State)
    requires ResentInv(s) && t.requests == s.requests && t.refreshes == s.refreshes
    ensures ResentInv(t)
  {
  }

  lemma {:induction false} RunKeepsResent(s: State, steps: seq<Step>)
    requires Inv(s) && ResentInv(s)
    ensures ResentInv(Run(s, steps))
    decreases |steps|
  {
    if steps != [] {
      StepKeepsInv(s, steps[0]);
      StepKeepsResent(s, steps[0]);
      RunKeepsResent(Do(s, steps[0]), steps[1..]);
    }
  }

  /** In every run a request has been sent a second time exactly when it went on after a refresh that it led or joined
   and that brought a token. */
  lemma {:induction false} SentAgainIffRefreshed(steps: seq<Step>, r: nat)
    ensures var s := Run(INIT, steps);
      r in s.requests ==> s.requests[r].sends == if Refreshed(s, r) then 2 else 1
  {
    RunKeepsResent(INIT, steps);
  }

  // ----- Rejected for cause -----

  /** The step rejects the request: a failure, a 401 that is exempt, repeated or under the latch, or the end of a
   refresh that brought no token. */
  predicate Rejects(s: State, step: Step, r: nat) {
    && r in s.requests
    && var q := s.requests[r];
       || (step == Reply(r, Failure) && q.phase == Sent)
       || (step == Reply(r, Unauthorized) && q.phase == Sent && (q.exempt || q.retry || s.latched))
       || (step == Resume(r) && q.phase.Woken? && !q.phase.outcome.Fresh?)
       || (step == LeaderResumes && Ready(s) && s.refreshes[|s.refreshes| - 1].leader == r
           && !s.refreshes[|s.refreshes| - 1].outcome.value.Fresh?)
  }

  predicate IsRejected(s: State, r: nat) { r in s.requests && s.requests[r].phase == Rejected }

  lemma {:induction false} RejectsIff(s: State, step: Step, r: nat)
    requires Inv(s)
    ensures IsRejected(Do(s, step), r) <==> IsRejected(s, r) || Rejects(s, step, r)
  {
    match step
    case LeaderResumes => LeaderRejects(s, r);
    case Reply(x, answer) => ReplyRejects(s, x, answer, r);
    case Resume(x) => ResumeRejects(s, x, r);
    case _ => OthersReject(s, step, r);
  }

  lemma {:induction false} OthersReject(s: State, step: Step, r: nat)
    requires !step.LeaderResumes? && !step.Reply? && !step.Resume?
    ensures IsRejected(Do(s, step), r) <==> IsRejected(s, r)
    ensures !Rejects(s, step, r)
  {
  }

  lemma {:induction false} ReplyRejects(s: State, x: nat, answer: Answer, r: nat)
    ensures IsRejected(Do(s, Reply(x, answer)), r) <==> IsRejected(s, r) || Rejects(s, Reply(x, answer), r)
  {
  }

  lemma {:induction false} ResumeRejects(s: State, x: nat, r: nat)
    ensures IsRejected(Do(s, Resume(x)), r) <==> IsRejected(s, r) || Rejects(s, Resume(x), r)
  {
  }

  lemma {:induction false} LeaderRejects(s: State, r: nat)
    requires Inv(s)
    ensures IsRejected(Do(s, LeaderResumes), r) <==> IsRejected(s, r) || Rejects(s, LeaderResumes, r)
  {
    if Ready(s) {
      var n := |s.refreshes| - 1;
      var o, leader := s.refreshes[n].outcome.value, s.refreshes[n].leader;
      SettleAllAt(s.requests, s.queue, n, o, r);
      SettleAllAt(s.requests, s.queue, n, o, leader);
      if r in s.requests { assert RequestInv(s, r) && RequestInv(s, leader); }
    }
  }

  /** Some step of the run rejected the request. */
  predicate RejectedIn(s: State, steps: seq<Step>, r: nat)
    decreases |steps|
  {
    steps != [] && (Rejects(s, steps[0], r) || RejectedIn(Do(s, steps[0]), steps[1..], r))
  }

  lemma {:induction false} RejectedIff(s: State, steps: seq<Step>, r: nat)
    requires Inv(s)
    ensures IsRejected(Run(s, steps), r) <==> IsRejected(s, r) || RejectedIn(s, steps, r)
    decreases |steps|
  {
    if steps != [] {
      StepKeepsInv(s, steps[0]);
      RejectsIff(s, steps[0], r);
      RejectedIff(Do(s, steps[0]), steps[1..], r);
    }
  }

  /** In every run a request is rejected exactly when some step of the run had one of these causes to reject it. */
  lemma {:induction false} RejectedForCause(steps: seq<Step>, r: nat)
    ensures IsRejected(Run(INIT, steps), r) <==> RejectedIn(INIT, steps, r)
  {
    RejectedIff(INIT, steps, r);
  }
}
