/**
 The client's 401 interceptor.  One step is one uninterrupted turn of the event loop: a reply arrives, a refresh is
 answered, the request that leads the refresh goes on, or a request that waited for it goes on.
 */
module RefreshQueue {
  import opened Wrappers

  /** A new access token, a rejected refresh token (401 or 403), or any other failure. */
  datatype Outcome = Fresh(token: nat) | Refused | Unavailable

  datatype Answer = Success | Unauthorized | Failure

  datatype Phase =
    | Sent
    | Waiting(refresh: nat)
    | Woken(refresh: nat, outcome: Outcome)
    | Leading(refresh: nat)
    | Answered
    | Rejected

  /** `exempt` marks the refresh, login and register paths; `settled` counts how often the waiting promise was settled,
   and `got` is what it was settled with. */
  datatype Request = Request(
    exempt: bool, retry: bool, sends: nat, phase: Phase, joined: Option<nat>, settled: nat, got: Option<Outcome>)

  datatype Refresh = Refresh(leader: nat, outcome: Option<Outcome>, closed: bool)

  /** `refreshes` is the history of the interceptor's refreshes, `outside` the answers to those that other code started:
   the chatbot client and the initialiser of a page. */
  datatype State = State(
    isRefreshing: bool, queue: seq<nat>, latched: bool, signedOut: bool, token: Option<nat>,
    requests: map<nat, Request>, refreshes: seq<Refresh>, outside: seq<Option<Outcome>>)

  const INIT := State(false, [], false, false, None, map[], [], [])

  datatype Step =
    | Send(r: nat, exempt: bool)
    | Reply(r: nat, answer: Answer)
    | RefreshAnswer(outcome: Outcome)
    | LeaderResumes
    | Resume(r: nat)
    | OutsideRefresh
    | OutsideAnswer(call: nat, answered: Outcome)
    | Login(token: nat)
    | ClearToken
    | SignOut
    | ResetLatch

  function With(s: State, r: nat, q: Request): State { s.(requests := s.requests[r := q]) }

  /** The interceptor's reaction to a 401. */
  function Intercept(s: State, r: nat): State
    requires r in s.requests
  {
    var q := s.requests[r];
    if q.retry || q.exempt || s.latched then With(s, r, q.(phase := Rejected))
    else if s.isRefreshing && s.refreshes != [] then
      var n := |s.refreshes| - 1;
      With(s, r, q.(retry := true, phase := Waiting(n), joined := Some(n))).(queue := s.queue + [r])
    else
      With(s, r, q.(retry := true, phase := Leading(|s.refreshes|)))
        .(isRefreshing := true,
          refreshes := s.refreshes + [Refresh(r, if s.signedOut then Some(Unavailable) else None, false)])
  }

  /** Sends again after a new token, rejects otherwise. */
  function Continued(q: Request, o: Outcome): Request {
    if o.Fresh? then q.(sends := q.sends + 1, phase := Sent) else q.(phase := Rejected)
  }

  function Settled(q: Request, n: nat, o: Outcome): Request {
    q.(phase := Woken(n, o), settled := q.settled + 1, got := Some(o))
  }

  function SettleAll(requests: map<nat, Request>, queue: seq<nat>, n: nat, o: Outcome): map<nat, Request>
    decreases |queue|
  {
    if queue == [] then requests
    else
      var r := queue[0];
      SettleAll(if r in requests then requests[r := Settled(requests[r], n, o)] else requests, queue[1..], n, o)
  }

  function InFlight(s: State): bool { s.refreshes != [] && !s.refreshes[|s.refreshes| - 1].closed }

  function LeaderGoesOn(s: State): State
    requires InFlight(s) && s.refreshes[|s.refreshes| - 1].outcome.Some?
  {
    var n := |s.refreshes| - 1;
    var f := s.refreshes[n];
    var o := f.outcome.value;
    var settled := SettleAll(s.requests, s.queue, n, o);
    s.(requests := if f.leader in settled then settled[f.leader := Continued(settled[f.leader], o)] else settled,
       queue := [],
       latched := s.latched || o.Refused?,
       token := if o.Refused? then None else s.token,
       isRefreshing := false,
       refreshes := s.refreshes[n := f.(closed := true)])
  }

  /** setAccessToken: a token takes the failure latch and the sign-out mark down. */
  function WithToken(s: State, token: nat): State { s.(token := Some(token), latched := false, signedOut := false) }

  function Do(s: State, step: Step): State {
    match step
    case Send(r, exempt) =>
      if r in s.requests then s else With(s, r, Request(exempt, false, 1, Sent, None, 0, None))
    case Reply(r, answer) =>
      if r !in s.requests || s.requests[r].phase != Sent then s
      else if answer == Success then With(s, r, s.requests[r].(phase := Answered))
      else if answer == Failure then With(s, r, s.requests[r].(phase := Rejected))
      else Intercept(s, r)
    case RefreshAnswer(o) =>
      var n := |s.refreshes| - 1;
      if !InFlight(s) || s.refreshes[n].outcome.Some? then s
      else
        var t := s.(refreshes := s.refreshes[n := s.refreshes[n].(outcome := Some(o))]);
        if o.Fresh? then WithToken(t, o.token) else t
    case LeaderResumes =>
      if !InFlight(s) || s.refreshes[|s.refreshes| - 1].outcome.None? then s else LeaderGoesOn(s)
    case Resume(r) =>
      if r !in s.requests || !s.requests[r].phase.Woken? then s
      else With(s, r, Continued(s.requests[r], s.requests[r].phase.outcome))
    case OutsideRefresh => if s.signedOut || s.latched then s else s.(outside := s.outside + [None])
    case OutsideAnswer(c, o) =>
      if c >= |s.outside| || s.outside[c].Some? then s
      else
        var t := s.(outside := s.outside[c := Some(o)]);
        if o.Fresh? then WithToken(t, o.token) else t
    case Login(token) => WithToken(s, token)
    case ClearToken => s.(token := None)
    case SignOut => s.(token := None, latched := true, signedOut := true)
    case ResetLatch => s.(latched := false)
  }

  function Run(s: State, steps: seq<Step>): State
    decreases |steps|
  {
    if steps == [] then s else Run(Do(s, steps[0]), steps[1..])
  }

  // ----- The invariant -----

  predicate Distinct(queue: seq<nat>) { forall j, k :: 0 <= j < k < |queue| ==> queue[j] != queue[k] }

  /** The flag is up exactly while the last refresh is open, every earlier one is closed, and a closed one has an
   outcome. */
  predicate RefreshInv(s: State) {
    && (s.isRefreshing <==> InFlight(s))
    && (forall n :: 0 <= n < |s.refreshes| - 1 ==> s.refreshes[n].closed)
    && (forall n :: 0 <= n < |s.refreshes| && s.refreshes[n].closed ==> s.refreshes[n].outcome.Some?)
    && (InFlight(s) ==>
          var n := |s.refreshes| - 1;
          s.refreshes[n].leader in s.requests && s.requests[s.refreshes[n].leader].phase == Leading(n))
  }

  predicate QueueInv(s: State) {
    && Distinct(s.queue)
    && (forall r :: r in s.queue ==> r in s.requests && s.requests[r].phase.Waiting?)
    && (forall r :: r in s.requests && s.requests[r].phase.Waiting? ==> r in s.queue)
  }

  predicate RequestInv(s: State, r: nat)
    requires r in s.requests
  {
    var q := s.requests[r];
    && q.sends == (if q.phase.Sent? && q.retry then 2 else if q.phase.Answered? || q.phase.Rejected? then q.sends
      else 1)
    && 1 <= q.sends <= 2 && (q.sends == 2 ==> q.retry)
    && (q.phase.Waiting? || q.phase.Woken? || q.phase.Leading? ==> q.retry)
    && (q.phase.Waiting? || q.phase.Leading? ==> InFlight(s) && q.phase.refresh == |s.refreshes| - 1)
    && (q.phase.Leading? ==> s.refreshes[q.phase.refresh].leader == r && q.joined.None?)
    && (q.phase.Waiting? ==> q.joined == Some(q.phase.refresh) && q.settled == 0 && q.got.None?)
    && (q.phase.Woken? ==> q.joined == Some(q.phase.refresh) && q.got == Some(q.phase.outcome))
    && (q.joined.None? ==> q.settled == 0 && q.got.None?)
    && (q.joined.Some? && !q.phase.Waiting? ==>
          q.settled == 1 && q.joined.value < |s.refreshes| && s.refreshes[q.joined.value].closed
          && q.got.Some? && q.got == s.refreshes[q.joined.value].outcome)
    && (!q.retry ==> q.joined.None?)
  }

  predicate Inv(s: State) { RefreshInv(s) && QueueInv(s) && forall r :: r in s.requests ==> RequestInv(s, r) }

  // ----- Steps keep it -----

  lemma {:induction false} SettleAllAt(requests: map<nat, Request>, queue: seq<nat>, n: nat, o: Outcome, r: nat)
    requires Distinct(queue) && forall x :: x in queue ==> x in requests
    ensures SettleAll(requests, queue, n, o).Keys == requests.Keys
    ensures r in requests ==>
      SettleAll(requests, queue, n, o)[r] == if r in queue then Settled(requests[r], n, o) else requests[r]
    decreases |queue|
  {
    if queue != [] {
      var x := queue[0];
      assert forall k :: 0 <= k < |queue[1..]| ==> queue[1..][k] == queue[k + 1];
      assert x !in queue[1..];
      SettleAllAt(requests[x := Settled(requests[x], n, o)], queue[1..], n, o, r);
    }
  }

  lemma {:induction false} LeaderKeepsInv(s: State)
    requires Inv(s) && InFlight(s) && s.refreshes[|s.refreshes| - 1].outcome.Some?
    ensures Inv(LeaderGoesOn(s))
  {
    var t := LeaderGoesOn(s);
    var n := |s.refreshes| - 1;
    var o := s.refreshes[n].outcome.value;
    SettleAllAt(s.requests, s.queue, n, o, s.refreshes[n].leader);
    forall r | r in t.requests
      ensures RequestInv(t, r) && !t.requests[r].phase.Waiting?
    {
      SettleAllAt(s.requests, s.queue, n, o, r);
      assert RequestInv(s, r);
    }
  }

  lemma {:induction false} JoiningKeepsInv(s: State, r: nat)
    requires Inv(s) && r in s.requests && s.requests[r].phase == Sent && !s.requests[r].retry && s.isRefreshing
    ensures var n := |s.refreshes| - 1;
      && n >= 0
      && Inv(With(s, r, s.requests[r].(retry := true, phase := Waiting(n), joined := Some(n))).(queue := s.queue + [r]))
  {
    var n := |s.refreshes| - 1;
    var t := With(s, r, s.requests[r].(retry := true, phase := Waiting(n), joined := Some(n))).(queue := s.queue + [r]);
    forall x | x in t.requests
      ensures RequestInv(t, x)
    {
      assert RequestInv(s, x);
    }
  }

  lemma {:induction false} LeadingKeepsInv(s: State, r: nat, outcome: Option<Outcome>)
    requires Inv(s) && r in s.requests && s.requests[r].phase == Sent && !s.requests[r].retry && !s.isRefreshing
    ensures Inv(With(s, r, s.requests[r].(retry := true, phase := Leading(|s.refreshes|)))
                  .(isRefreshing := true, refreshes := s.refreshes + [Refresh(r, outcome, false)]))
  {
    var t := With(s, r, s.requests[r].(retry := true, phase := Leading(|s.refreshes|)))
      .(isRefreshing := true, refreshes := s.refreshes + [Refresh(r, outcome, false)]);
    forall x | x in t.requests
      ensures RequestInv(t, x)
    {
      assert RequestInv(s, x);
    }
  }

  lemma {:induction false} InterceptKeepsInv(s: State, r: nat)
    requires Inv(s) && r in s.requests && s.requests[r].phase == Sent
    ensures Inv(Intercept(s, r))
  {
    var q := s.requests[r];
    assert RequestInv(s, r);
    if q.retry || q.exempt || s.latched {
      RequestStepKeepsInv(s, r, q.(phase := Rejected));
    } else if s.isRefreshing {
      JoiningKeepsInv(s, r);
    } else {
      LeadingKeepsInv(s, r, if s.signedOut then Some(Unavailable) else None);
    }
  }

  lemma {:induction false} AnswerKeepsInv(s: State, o: Outcome)
    requires Inv(s)
    ensures Inv(Do(s, RefreshAnswer(o)))
  {
    var t := Do(s, RefreshAnswer(o));
    forall x | x in t.requests
      ensures RequestInv(t, x)
    {
      assert RequestInv(s, x);
    }
  }

  /** A request that neither waits nor leads may change freely within its own invariant. */
  lemma {:induction false} RequestStepKeepsInv(s: State, r: nat, q: Request)
    requires Inv(s)
    requires r in s.requests ==> !s.requests[r].phase.Waiting? && !s.requests[r].phase.Leading?
    requires !q.phase.Waiting? && !q.phase.Leading? && RequestInv(With(s, r, q), r)
    ensures Inv(With(s, r, q))
  {
    var t := With(s, r, q);
    forall x | x in t.requests
      ensures RequestInv(t, x)
    {
      if x != r { assert RequestInv(s, x); }
    }
  }

  lemma {:induction false} ReplyKeepsInv(s: State, r: nat, answer: Answer)
    requires Inv(s)
    ensures Inv(Do(s, Reply(r, answer)))
  {
    if r in s.requests && s.requests[r].phase == Sent {
      assert RequestInv(s, r);
      if answer == Success { RequestStepKeepsInv(s, r, s.requests[r].(phase := Answered)); }
      else if answer == Failure { RequestStepKeepsInv(s, r, s.requests[r].(phase := Rejected)); }
      else { InterceptKeepsInv(s, r); }
    }
  }

  lemma {:induction false} ResumeKeepsInv(s: State, r: nat)
    requires Inv(s)
    ensures Inv(Do(s, Resume(r)))
  {
    if r in s.requests && s.requests[r].phase.Woken? {
      assert RequestInv(s, r);
      RequestStepKeepsInv(s, r, Continued(s.requests[r], s.requests[r].phase.outcome));
    }
  }

  lemma {:induction false} TokenKeepsInv(s: State, t: State)
    requires Inv(s) && t == s.(token := t.token, latched := t.latched, signedOut := t.signedOut, outside := t.outside)
    ensures Inv(t)
  {
    forall x | x in t.requests
      ensures RequestInv(t, x)
    {
      assert RequestInv(s, x);
    }
  }

  lemma {:induction false} StepKeepsInv(s: State, step: Step)
    requires Inv(s)
    ensures Inv(Do(s, step))
  {
    match step
    case Send(r, exempt) =>
      if r !in s.requests { RequestStepKeepsInv(s, r, Request(exempt, false, 1, Sent, None, 0, None)); }
    case Reply(r, answer) => ReplyKeepsInv(s, r, answer);
    case RefreshAnswer(o) => AnswerKeepsInv(s, o);
    case LeaderResumes =>
      if InFlight(s) && s.refreshes[|s.refreshes| - 1].outcome.Some? { LeaderKeepsInv(s); }
    case Resume(r) => ResumeKeepsInv(s, r);
    case _ => TokenKeepsInv(s, Do(s, step));
  }

  lemma {:induction false} RunKeepsInv(s: State, steps: seq<Step>)
    requires Inv(s)
    ensures Inv(Run(s, steps))
    decreases |steps|
  {
    if steps != [] {
      StepKeepsInv(s, steps[0]);
      RunKeepsInv(Do(s, steps[0]), steps[1..]);
    }
  }

  // ----- What every run guarantees -----

  /** At most one refresh of the interceptor is open, and while anyone waits one is. */
  lemma {:induction false} OneRefreshInFlight(steps: seq<Step>)
    ensures var s := Run(INIT, steps);
      && (forall j, k :: 0 <= j < k < |s.refreshes| ==> s.refreshes[j].closed || s.refreshes[k].closed)
      && (s.queue != [] ==> s.isRefreshing && exists n :: 0 <= n < |s.refreshes| && !s.refreshes[n].closed)
  {
    RunKeepsInv(INIT, steps);
    var s := Run(INIT, steps);
    if s.queue != [] {
      assert s.queue[0] in s.queue;
      assert RequestInv(s, s.queue[0]);
    }
  }

  /** Whoever joined a refresh is in the queue while it is open, and once it is closed was settled exactly once, with
   the outcome of that very refresh; nobody else is ever settled. */
  lemma {:induction false} SettledOnceWithItsRefresh(steps: seq<Step>, r: nat)
    ensures var s := Run(INIT, steps);
      r in s.requests ==>
        var q := s.requests[r];
        if q.joined.None? then q.settled == 0
        else
          var n := q.joined.value;
          n < |s.refreshes| && if s.refreshes[n].closed then q.settled == 1 && q.got == s.refreshes[n].outcome
            && r !in s.queue
                               else q.settled == 0 && r in s.queue
  {
    RunKeepsInv(INIT, steps);
    var s := Run(INIT, steps);
    if r in s.requests {
      assert RequestInv(s, r);
    }
  }

  /** No request is sent more than twice, and never a second time unless it met a 401 before. */
  lemma {:induction false} SentAtMostTwice(steps: seq<Step>, r: nat)
    ensures var s := Run(INIT, steps);
      r in s.requests ==> 1 <= s.requests[r].sends <= 2 && (s.requests[r].sends == 2 ==> s.requests[r].retry)
  {
    RunKeepsInv(INIT, steps);
    var s := Run(INIT, steps);
    if r in s.requests {
      assert RequestInv(s, r);
    }
  }

  /** When the leader goes on nobody is left waiting, whatever the refresh brought. */
  lemma {:induction false} LeaderLeavesNobodyWaiting(steps: seq<Step>, r: nat)
    requires var s := Run(INIT, steps); InFlight(s) && s.refreshes[|s.refreshes| - 1].outcome.Some?
    requires r in Run(INIT, steps).requests && Run(INIT, steps).requests[r].phase.Waiting?
    ensures var s, t := Run(INIT, steps), Do(Run(INIT, steps), LeaderResumes);
      && t.queue == [] && r in t.requests
      && t.requests[r].phase == Woken(|s.refreshes| - 1, s.refreshes[|s.refreshes| - 1].outcome.value)
  {
    RunKeepsInv(INIT, steps);
    var s := Run(INIT, steps);
    var f := s.refreshes[|s.refreshes| - 1];
    assert RequestInv(s, r) && RequestInv(s, f.leader);
    SettleAllAt(s.requests, s.queue, |s.refreshes| - 1, f.outcome.value, r);
    SettleAllAt(s.requests, s.queue, |s.refreshes| - 1, f.outcome.value, f.leader);
  }

  predicate Unlatches(s: State, step: Step) {
    || step.Login? || step.ResetLatch?
    || (step.RefreshAnswer? && step.outcome.Fresh?) || (step.OutsideAnswer? && step.answered.Fresh?)
  }

  /** While the failure latch is up a 401 neither starts nor joins a refresh; only a new token or a reset takes it
   down. */
  lemma {:induction false} LatchStopsRefreshes(s: State, steps: seq<Step>)
    requires s.latched && forall k :: 0 <= k < |steps| ==> !Unlatches(s, steps[k])
    ensures var t := Run(s, steps); t.latched && |t.refreshes| == |s.refreshes| && |t.queue| <= |s.queue|
    decreases |steps|
  {
    if steps != [] {
      assert !Unlatches(s, steps[0]);
      var t := Do(s, steps[0]);
      assert forall k :: 0 <= k < |steps[1..]| ==> steps[1..][k] == steps[k + 1];
      LatchStopsRefreshes(t, steps[1..]);
    }
  }

  // ----- Signing out -----

  predicate Unanswered(s: State) { InFlight(s) && s.refreshes[|s.refreshes| - 1].outcome.None? }

  /** The step answers, with a token, one of the first `m` refreshes of the interceptor or of the first `n` others. */
  predicate BringsLateToken(s: State, step: Step, m: nat, n: nat) {
    || (step.RefreshAnswer? && step.outcome.Fresh? && Unanswered(s) && |s.refreshes| <= m)
    || (step.OutsideAnswer? && step.answered.Fresh? && step.call < n && step.call < |s.outside|
      && s.outside[step.call].None?)
  }

  predicate LateToken(s: State, steps: seq<Step>, m: nat, n: nat)
    decreases |steps|
  {
    steps != [] && (BringsLateToken(s, steps[0], m, n) || LateToken(Do(s, steps[0]), steps[1..], m, n))
  }

  predicate NoLoginOrSignOut(steps: seq<Step>) {
    forall k :: 0 <= k < |steps| ==> !steps[k].Login? && !steps[k].SignOut?
  }

  /** Signed out, and every refresh still unanswered is one of the first ones. */
  predicate OnlyOldUnanswered(s: State, m: nat, n: nat) {
    s.signedOut && (Unanswered(s) ==> |s.refreshes| <= m) && forall c :: n <= c < |s.outside| ==> s.outside[c].Some?
  }

  /** While the mark is set no refresh is sent, so only an old answer can take it down. */
  lemma {:induction false} MarkFallsByLateTokenOnly(s: State, step: Step, m: nat, n: nat)
    requires OnlyOldUnanswered(s, m, n) && !step.Login?
    ensures if BringsLateToken(s, step, m, n) then !Do(s, step).signedOut else OnlyOldUnanswered(Do(s, step), m, n)
  {
  }

  lemma {:induction false} MarkStaysDown(s: State, steps: seq<Step>)
    requires !s.signedOut && NoLoginOrSignOut(steps)
    ensures !Run(s, steps).signedOut
    decreases |steps|
  {
    if steps != [] {
      assert !steps[0].SignOut?;
      assert forall k :: 0 <= k < |steps[1..]| ==> steps[1..][k] == steps[k + 1];
      MarkStaysDown(Do(s, steps[0]), steps[1..]);
    }
  }

  lemma {:induction false} MarkLastsUnlessLateToken(s: State, steps: seq<Step>, m: nat, n: nat)
    requires OnlyOldUnanswered(s, m, n) && NoLoginOrSignOut(steps)
    ensures Run(s, steps).signedOut <==> !LateToken(s, steps, m, n)
    decreases |steps|
  {
    if steps != [] {
      assert !steps[0].Login?;
      assert forall k :: 0 <= k < |steps[1..]| ==> steps[1..][k] == steps[k + 1];
      MarkFallsByLateTokenOnly(s, steps[0], m, n);
      if BringsLateToken(s, steps[0], m, n) {
        MarkStaysDown(Do(s, steps[0]), steps[1..]);
      } else {
        MarkLastsUnlessLateToken(Do(s, steps[0]), steps[1..], m, n);
      }
    }
  }

  /** After an explicit sign-out, in every run without a login or another sign-out, the mark lasts exactly when no
   refresh that was begun before, by the interceptor or elsewhere, is answered with a token. */
  lemma {:induction false} SignOutLastsIffNoLateToken(s: State, steps: seq<Step>)
    requires NoLoginOrSignOut(steps)
    ensures Run(Do(s, SignOut), steps).signedOut <==> !LateToken(Do(s, SignOut), steps, |s.refreshes|, |s.outside|)
  {
    MarkLastsUnlessLateToken(Do(s, SignOut), steps, |s.refreshes|, |s.outside|);
  }

  /** Both ways to be signed in again are reachable: a late answer to the interceptor, and one to other code. */
  lemma {:induction false} LateRefreshUndoesSignOut(token: nat)
    ensures var s := Run(INIT, [Send(0, false), Reply(0, Unauthorized), SignOut, RefreshAnswer(Fresh(token))]);
      !s.signedOut && s.token == Some(token)
    ensures var s := Run(INIT, [OutsideRefresh, SignOut, OutsideAnswer(0, Fresh(token))]);
      !s.signedOut && s.token == Some(token)
  {
    LateInterceptorAnswer(token);
    var other := OutsideAnswer(0, Fresh(token));
    RunOfTwo(Do(INIT, OutsideRefresh), SignOut, other);
    assert [OutsideRefresh, SignOut, other][1..] == [SignOut, other];
  }

  lemma {:induction false} LateInterceptorAnswer(token: nat)
    ensures var s := Run(INIT, [Send(0, false), Reply(0, Unauthorized), SignOut, RefreshAnswer(Fresh(token))]);
      !s.signedOut && s.token == Some(token)
  {
    var late := RefreshAnswer(Fresh(token));
    var waiting := Do(Do(INIT, Send(0, false)), Reply(0, Unauthorized));
    assert Unanswered(Do(waiting, SignOut));
    RunOfTwo(waiting, SignOut, late);
    assert [Send(0, false), Reply(0, Unauthorized), SignOut, late]
      == [Send(0, false), Reply(0, Unauthorized)] + [SignOut, late];
    RunAfterTwo(INIT, Send(0, false), Reply(0, Unauthorized), [SignOut, late]);
  }

  lemma RunAfterTwo(s: State, a: Step, b: Step, rest: seq<Step>)
    ensures Run(s, [a, b] + rest) == Run(Do(Do(s, a), b), rest)
  {
    assert ([a, b] + rest)[1..] == [b] + rest && ([b] + rest)[1..] == rest;
  }

  lemma RunOfTwo(s: State, a: Step, b: Step)
    ensures Run(s, [a, b]) == Do(Do(s, a), b)
  {
    assert [a, b][1..] == [b];
    assert Run(Do(s, a), [b]) == Run(Do(Do(s, a), b), []);
  }

  // ----- The interceptor as it runs -----

  class Client {
    var isRefreshing: bool
    var failedQueue: seq<nat>
    var authFailureLatched: bool
    var signedOut: bool
    var token: Option<nat>
    var requests: map<nat, Request>
    var refreshes: seq<Refresh>
    var outside: seq<Option<Outcome>>

    function View(): State
      reads this
    {
      State(isRefreshing, failedQueue, authFailureLatched, signedOut, token, requests, refreshes, outside)
    }

    constructor ()
      ensures View() == INIT
    {
      isRefreshing, failedQueue, authFailureLatched, signedOut, token := false, [], false, false, None;
      requests, refreshes, outside := map[], [], [];
    }

    /** Settles every waiting promise, then forgets them. */
    method ProcessQueue(o: Outcome)
      requires refreshes != []
      modifies this`requests, this`failedQueue
      ensures failedQueue == [] && requests == SettleAll(old(requests), old(failedQueue), |refreshes| - 1, o)
    {
      ghost var all := SettleAll(requests, failedQueue, |refreshes| - 1, o);
      for k := 0 to |failedQueue|
        invariant failedQueue == old(failedQueue)
        invariant SettleAll(requests, failedQueue[k..], |refreshes| - 1, o) == all
      {
        var r := failedQueue[k];
        if r in requests { requests := requests[r := Settled(requests[r], |refreshes| - 1, o)]; }
      }
      failedQueue := [];
    }

    /** A 401 for a request that was sent. */
    method OnUnauthorized(r: nat)
      requires RefreshInv(View()) && r in requests && requests[r].phase == Sent
      modifies this
      ensures View() == Intercept(old(View()), r)
    {
      if requests[r].retry || requests[r].exempt || authFailureLatched {
        requests := requests[r := requests[r].(phase := Rejected)];
        return;
      }
      requests := requests[r := requests[r].(retry := true)];
      if isRefreshing {
        var n := |refreshes| - 1;
        failedQueue := failedQueue + [r];
        requests := requests[r := requests[r].(phase := Waiting(n), joined := Some(n))];
        return;
      }
      isRefreshing := true;
      requests := requests[r := requests[r].(phase := Leading(|refreshes|))];
      refreshes := refreshes + [Refresh(r, if signedOut then Some(Unavailable) else None, false)];
    }

    /** The rest of the interceptor for the request that led the refresh. */
    method OnRefreshSettled()
      requires InFlight(View()) && refreshes[|refreshes| - 1].outcome.Some?
      modifies this
      ensures View() == LeaderGoesOn(old(View()))
    {
      var f := refreshes[|refreshes| - 1];
      var o := f.outcome.value;
      ProcessQueue(o);
      if o.Refused? { authFailureLatched, token := true, None; }
      if f.leader in requests { requests := requests[f.leader := Continued(requests[f.leader], o)]; }
      isRefreshing := false;
      refreshes := refreshes[|refreshes| - 1 := f.(closed := true)];
    }
  }
}
