/**
 What every serial run of the authentication calls guarantees.
 */
module AuthProofs {
  import opened Wrappers
  import opened Auth

  /** The hash is free of collisions. */
  ghost predicate Injective(env: Env) { forall x, y :: env.hash(x) == env.hash(y) ==> x == y }

  // ----- Reading the log -----

  function LastSigned(log: seq<Event>, sid: nat): Option<Token> {
    if log == [] then None
    else
      var e := log[|log| - 1];
      if e.Signed? && e.signed.sid == sid then Some(e.signed) else LastSigned(log[..|log| - 1], sid)
  }

  predicate Issues(e: Event, p: Purpose, a: nat) { e.Issued? && e.purpose == p && e.account == a }

  /** The position of the latest code issued for the purpose and account, or -1. */
  function LatestIssue(log: seq<Event>, p: Purpose, a: nat): (i: int)
    ensures -1 <= i < |log|
    ensures i >= 0 ==> Issues(log[i], p, a)
    ensures forall k :: i < k < |log| ==> !Issues(log[k], p, a)
  {
    if log == [] then -1
    else if Issues(log[|log| - 1], p, a) then |log| - 1
    else LatestIssue(log[..|log| - 1], p, a)
  }

  /** The position of the account's latest verification of a reset code, or -1. */
  function LatestVerified(log: seq<Event>, a: nat): (j: int)
    ensures -1 <= j < |log|
    ensures j >= 0 ==> log[j].Verified? && log[j].account == a
  {
    if log == [] then -1
    else if log[|log| - 1].Verified? && log[|log| - 1].account == a then |log| - 1
    else LatestVerified(log[..|log| - 1], a)
  }

  /** Wrong guesses since the latest issue. */
  function WrongSince(log: seq<Event>, p: Purpose, a: nat): nat {
    if log == [] || Issues(log[|log| - 1], p, a) then 0
    else WrongSince(log[..|log| - 1], p, a) + if log[|log| - 1] == Wrong(p, a) then 1 else 0
  }

  predicate Used(log: seq<Event>, token: nat) {
    exists k :: 0 <= k < |log| && log[k].ResetDone? && log[k].token == token
  }

  lemma {:induction false} LastSignedIsSigned(log: seq<Event>, sid: nat)
    ensures LastSigned(log, sid).Some? ==>
      Signed(LastSigned(log, sid).value) in log && LastSigned(log, sid).value.sid == sid
  {
    if log != [] {
      LastSignedIsSigned(log[..|log| - 1], sid);
    }
  }

  lemma Appended(log: seq<Event>, e: Event)
    ensures (log + [e])[|log|] == e && (log + [e])[..|log|] == log
  {
  }

  // ----- Refresh tokens -----

  ghost predicate SessionInv(env: Env, s: State) {
    && (forall i :: i in s.sessions ==>
          i < s.nonce && LastSigned(s.log, i).Some?
            && s.sessions[i].hash == env.hash(RefreshText(LastSigned(s.log, i).value)))
    && (forall t :: Signed(t) in s.log ==>
          t.jti < s.nonce && t.sid in s.sessions && s.sessions[t.sid].account == t.sub)
  }

  /** A presented token is accepted exactly when it is the last one signed for its session, has not expired, and the
   session is neither revoked nor expired and belongs to a usable account. */
  lemma {:induction false} RefreshAcceptedIff(env: Env, s: State, token: Token)
    requires SessionInv(env, s) && Injective(env)
    ensures RefreshError(env, s, token).None? <==>
      && LastSigned(s.log, token.sid) == Some(token) && s.clock < token.exp
      && token.sid in s.sessions && !s.sessions[token.sid].revoked && s.clock < s.sessions[token.sid].expiresAt
      && Usable(s, token.sub)
  {
    LastSignedIsSigned(s.log, token.sid);
  }

  lemma {:induction false} SignedKeepsSessionInv(env: Env, s: State, t: State, token: Token)
    requires SessionInv(env, s)
    requires t.log == s.log + [Signed(token)] && s.nonce < t.nonce && token.jti < t.nonce && token.sid < t.nonce
    requires token.sid in s.sessions ==> s.sessions[token.sid].account == token.sub
    requires forall i :: i in s.sessions ==> i in t.sessions && (i != token.sid ==> t.sessions[i] == s.sessions[i])
    requires forall i :: i in t.sessions ==> i in s.sessions || i == token.sid
    requires token.sid in t.sessions && t.sessions[token.sid].account == token.sub
    requires t.sessions[token.sid].hash == env.hash(RefreshText(token))
    ensures SessionInv(env, t)
  {
    Appended(s.log, Signed(token));
  }

  /** Calls that sign nothing change neither the accounts nor the hashes of sessions. */
  lemma {:induction false} UnsignedKeepsSessionInv(env: Env, s: State, t: State)
    requires SessionInv(env, s) && s.nonce <= t.nonce
    requires t.log == s.log || (|t.log| == |s.log| + 1 && t.log[..|s.log|] == s.log && !t.log[|s.log|].Signed?)
    requires t.sessions.Keys == s.sessions.Keys
    requires forall i :: i in s.sessions ==>
      t.sessions[i].account == s.sessions[i].account && t.sessions[i].hash == s.sessions[i].hash
    ensures SessionInv(env, t)
  {
    forall i | i in t.sessions
      ensures LastSigned(t.log, i) == LastSigned(s.log, i)
    {
    }
    forall k | Signed(k) in t.log
      ensures Signed(k) in s.log
    {
      var n :| 0 <= n < |t.log| && t.log[n] == Signed(k);
      assert t.log[n] == s.log[n];
    }
  }

  lemma {:induction false} IssueKeepsSessionInv(env: Env, s: State, a: nat)
    requires SessionInv(env, s)
    ensures SessionInv(env, IssueSession(env, s, a))
  {
    SignedKeepsSessionInv(env, s, IssueSession(env, s, a), Token(a, s.nonce, s.nonce + 1, s.clock + env.sessionTtl));
  }

  lemma {:induction false} CheckKeepsSessions(env: Env, s: State, p: Purpose, a: nat, code: nat)
    ensures var t := CheckCode(env, s, p, a, code).0;
      && t.sessions == s.sessions && t.nonce == s.nonce && t.accounts == s.accounts && t.clock == s.clock
      && (t.log == s.log || t.log == s.log + [Wrong(p, a)])
  {
  }

  lemma {:induction false} VerifyEmailKeepsSessionInv(env: Env, s: State, a: nat, code: nat)
    requires SessionInv(env, s)
    ensures SessionInv(env, VerifyEmail(env, s, a, code).0)
  {
    if a in s.accounts && s.accounts[a].tourist && !s.accounts[a].verified {
      var (t, e) := CheckCode(env, s, EMAIL, a, code);
      CheckKeepsSessions(env, s, EMAIL, a, code);
      if e.Some? {
        UnsignedKeepsSessionInv(env, s, t);
      } else {
        var verified := t.(accounts := t.accounts[a := t.accounts[a].(verified := true)]);
        var v := Logged(WithoutOtp(verified, EMAIL, a), Confirmed(a, code, s.clock));
        UnsignedKeepsSessionInv(env, s, v);
        IssueKeepsSessionInv(env, v, a);
      }
    }
  }

  lemma {:induction false} StepKeepsSessionInv(env: Env, s: State, step: Step)
    requires SessionInv(env, s)
    ensures SessionInv(env, Do(env, s, step))
  {
    var t := Do(env, s, step);
    match step
    case DoLogin(a, password) => if t != s { IssueKeepsSessionInv(env, s, a); }
    case DoRefresh(token) => RefreshKeepsSessionInv(env, s, token);
    case DoVerifyEmail(a, code) => VerifyEmailKeepsSessionInv(env, s, a, code);
    case DoVerifyResetCode(a, code) =>
      CheckKeepsSessions(env, s, RESET, a, code);
      UnsignedKeepsSessionInv(env, s, t);
    case _ => UnsignedKeepsSessionInv(env, s, t);
  }

  lemma {:induction false} RefreshKeepsSessionInv(env: Env, s: State, token: Token)
    requires SessionInv(env, s)
    ensures SessionInv(env, Refresh(env, s, token).0)
  {
    var t := Refresh(env, s, token).0;
    if t != s {
      assert Signed(token) in s.log;
      SignedKeepsSessionInv(env, s, t,
        Token(s.sessions[token.sid].account, token.sid, s.nonce, s.clock + env.sessionTtl));
    }
  }

  /** Signed once, and since then rotated away or its session revoked. */
  predicate Dead(s: State, token: Token) {
    Signed(token) in s.log && token.sid in s.sessions
      && (LastSigned(s.log, token.sid) != Some(token) || s.sessions[token.sid].revoked)
  }

  lemma {:induction false} DeadAfterSigning(s: State, t: State, next: Token, token: Token)
    requires Dead(s, token) && token.jti < s.nonce && next.jti >= s.nonce
    requires t.log == s.log + [Signed(next)] && token.sid in t.sessions
    requires s.sessions[token.sid].revoked ==> t.sessions[token.sid].revoked
    ensures Dead(t, token)
  {
    Appended(s.log, Signed(next));
  }

  lemma {:induction false} DeadWithoutSigning(s: State, t: State, token: Token)
    requires Dead(s, token) && token.sid in t.sessions
    requires t.log == s.log || (|t.log| == |s.log| + 1 && t.log[..|s.log|] == s.log && !t.log[|s.log|].Signed?)
    requires s.sessions[token.sid].revoked ==> t.sessions[token.sid].revoked
    ensures Dead(t, token)
  {
    assert t.log[..|s.log|] == s.log;
    var n :| 0 <= n < |s.log| && s.log[n] == Signed(token);
    assert t.log[n] == s.log[n];
  }

  lemma {:induction false} StepKeepsDead(env: Env, s: State, step: Step, token: Token)
    requires SessionInv(env, s) && Dead(s, token)
    ensures Dead(Do(env, s, step), token)
  {
    var t := Do(env, s, step);
    match step
    case DoLogin(a, _) =>
      if t != s { DeadAfterSigning(s, t, Token(a, s.nonce, s.nonce + 1, s.clock + env.sessionTtl), token); }
    case DoRefresh(shown) =>
      if t != s {
        var next := Token(s.sessions[shown.sid].account, shown.sid, s.nonce, s.clock + env.sessionTtl);
        DeadAfterSigning(s, t, next, token);
      }
    case DoVerifyEmail(a, code) => VerifyEmailKeepsDead(env, s, a, code, token);
    case DoVerifyResetCode(a, code) =>
      CheckKeepsSessions(env, s, RESET, a, code);
      DeadWithoutSigning(s, t, token);
    case _ => DeadWithoutSigning(s, t, token);
  }

  lemma {:induction false} VerifyEmailKeepsDead(env: Env, s: State, a: nat, code: nat, token: Token)
    requires SessionInv(env, s) && Dead(s, token)
    ensures Dead(VerifyEmail(env, s, a, code).0, token)
  {
    if a in s.accounts && s.accounts[a].tourist && !s.accounts[a].verified {
      var (t, e) := CheckCode(env, s, EMAIL, a, code);
      CheckKeepsSessions(env, s, EMAIL, a, code);
      if e.Some? {
        DeadWithoutSigning(s, t, token);
      } else {
        var verified := t.(accounts := t.accounts[a := t.accounts[a].(verified := true)]);
        var v := Logged(WithoutOtp(verified, EMAIL, a), Confirmed(a, code, s.clock));
        DeadWithoutSigning(s, v, token);
        DeadAfterSigning(v, IssueSession(env, v, a), Token(a, v.nonce, v.nonce + 1, v.clock + env.sessionTtl), token);
      }
    }
  }

  /** A token that was rotated away, or whose session was revoked, is never accepted again in any run. */
  lemma {:induction false} DeadForever(env: Env, s: State, steps: seq<Step>, token: Token)
    requires SessionInv(env, s) && Injective(env) && Dead(s, token)
    ensures RefreshError(env, Run(env, s, steps), token).Some?
    decreases |steps|
  {
    if steps == [] {
      RefreshAcceptedIff(env, s, token);
    } else {
      StepKeepsSessionInv(env, s, steps[0]);
      StepKeepsDead(env, s, steps[0], token);
      DeadForever(env, Do(env, s, steps[0]), steps[1..], token);
    }
  }

  /** An accepted token is dead from then on: each token is accepted at most once. */
  lemma {:induction false} AcceptedOnce(env: Env, s: State, token: Token, steps: seq<Step>)
    requires SessionInv(env, s) && Injective(env) && RefreshError(env, s, token).None?
    ensures RefreshError(env, Run(env, Refresh(env, s, token).0, steps), token).Some?
  {
    var t := Refresh(env, s, token).0;
    var next := Token(s.sessions[token.sid].account, token.sid, s.nonce, s.clock + env.sessionTtl);
    StepKeepsSessionInv(env, s, DoRefresh(token));
    Appended(s.log, Signed(next));
    assert token.jti < s.nonce;
    DeadForever(env, t, steps, token);
  }

  /** A password reset ends every session of the account: no token signed before it is ever accepted again. */
  lemma {:induction false} ResetEndsSessions(env: Env, s: State, a: nat, resetToken: nat, password: nat, token: Token,
      steps: seq<Step>)
    requires SessionInv(env, s) && Injective(env) && ResetPassword(env, s, a, resetToken, password).1.None?
    requires Signed(token) in s.log && token.sub == a
    ensures RefreshError(env, Run(env, ResetPassword(env, s, a, resetToken, password).0, steps), token).Some?
  {
    var t := ResetPassword(env, s, a, resetToken, password).0;
    StepKeepsSessionInv(env, s, DoResetPassword(a, resetToken, password));
    assert Signed(token) in t.log;
    DeadForever(env, t, steps, token);
  }

  lemma {:induction false} RunKeepsSessionInv(env: Env, s: State, steps: seq<Step>)
    requires SessionInv(env, s)
    ensures SessionInv(env, Run(env, s, steps))
    decreases |steps|
  {
    if steps != [] {
      StepKeepsSessionInv(env, s, steps[0]);
      RunKeepsSessionInv(env, Do(env, s, steps[0]), steps[1..]);
    }
  }

  /** In every run a presented token is accepted exactly when it is the last one signed for its live session and its
   account is usable; and whatever follows the acceptance, that token is never accepted again. */
  lemma {:induction false} RefreshInRuns(env: Env, steps: seq<Step>, token: Token, later: seq<Step>)
    requires Injective(env)
    ensures var s := Run(env, INIT, steps);
      && (RefreshError(env, s, token).None? <==>
            && LastSigned(s.log, token.sid) == Some(token) && s.clock < token.exp
            && token.sid in s.sessions && !s.sessions[token.sid].revoked && s.clock < s.sessions[token.sid].expiresAt
            && Usable(s, token.sub))
      && (RefreshError(env, s, token).None? ==>
            RefreshError(env, Run(env, Refresh(env, s, token).0, later), token).Some?)
  {
    RunKeepsSessionInv(env, INIT, steps);
    var s := Run(env, INIT, steps);
    RefreshAcceptedIff(env, s, token);
    if RefreshError(env, s, token).None? { AcceptedOnce(env, s, token, later); }
  }
}
