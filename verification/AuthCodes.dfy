/**
 One-time codes over every serial run: who may reset a password, how often a code can be guessed, and what is used once.
 */
module AuthCodes {
  import opened Wrappers
  import opened Auth
  import opened AuthProofs

  // ----- The trace property -----

  /** What must precede an event in the log. */
  ghost predicate Justified(env: Env, before: seq<Event>, e: Event) {
    match e
    case Confirmed(a, code, at) =>
      var i := LatestIssue(before, EMAIL, a);
      i >= 0 && before[i].code == code && before[i].at <= at < before[i].at + env.ttl
    case Verified(a, code, token, at) =>
      var i := LatestIssue(before, RESET, a);
      i >= 0 && before[i].code == code && before[i].at <= at < before[i].at + env.ttl
    case ResetDone(a, token, at) =>
      var i, j := LatestIssue(before, RESET, a), LatestVerified(before, a);
      && 0 <= i < j && before[j].token == token && before[j].code == before[i].code
      && before[i].at <= before[j].at < before[i].at + env.ttl
      && before[j].at <= at < before[j].at + env.ttl
      && !Used(before, token)
    case _ => true
  }

  ghost predicate Traced(env: Env, log: seq<Event>) {
    && (forall k :: 0 <= k < |log| ==> Justified(env, log[..k], log[k]))
    && (forall k, p, a :: 0 <= k <= |log| ==> WrongSince(log[..k], p, a) <= env.maxAttempts)
  }

  lemma {:induction false} TracedAppends(env: Env, log: seq<Event>, e: Event)
    requires Traced(env, log) && Justified(env, log, e)
    requires e.Wrong? ==> WrongSince(log, e.purpose, e.account) < env.maxAttempts
    ensures Traced(env, log + [e])
  {
    var next := log + [e];
    forall k | 0 <= k < |next|
      ensures Justified(env, next[..k], next[k])
    {
      assert next[..k] == if k < |log| then log[..k] else log;
    }
    forall k, p, a | 0 <= k <= |next|
      ensures WrongSince(next[..k], p, a) <= env.maxAttempts
    {
      WrongStaysWithin(env, log, e, p, a);
      assert next[..k] == if k <= |log| then log[..k] else next;
    }
  }

  lemma {:induction false} WrongStaysWithin(env: Env, log: seq<Event>, e: Event, p: Purpose, a: nat)
    requires Traced(env, log) && (e.Wrong? ==> WrongSince(log, e.purpose, e.account) < env.maxAttempts)
    ensures WrongSince(log + [e], p, a) <= env.maxAttempts
  {
    Appended(log, e);
    assert log[..|log|] == log;
    assert WrongSince(log[..|log|], p, a) <= env.maxAttempts;
  }

  // ----- The records against the log -----

  /** What a stored code's record says, it says of the latest code issued. */
  ghost predicate OtpInv(env: Env, s: State, p: Purpose, a: nat, o: Otp) {
    var i := LatestIssue(s.log, p, a);
    && i >= 0
    && o.codeHash == env.hash(CodeText(p, a, s.log[i].code))
    && s.log[i].at <= s.clock && o.expiresAt == s.log[i].at + env.ttl
    && o.attempts == WrongSince(s.log, p, a) && (o.attempts > 0 ==> o.attempts < env.maxAttempts)
    && (o.verifiedAt.None? ==> o.resetHash.None? && (p == RESET ==> LatestVerified(s.log, a) < i))
    && (o.verifiedAt.Some? ==>
          var j := LatestVerified(s.log, a);
          && p == RESET && i < j && s.log[j].code == s.log[i].code
          && s.log[i].at <= s.log[j].at < s.log[i].at + env.ttl && s.log[j].at <= s.clock
          && o.resetHash == Some(env.hash(ResetText(s.log[j].token))) && o.tokenExpiresAt == s.log[j].at + env.ttl
          && !Used(s.log, s.log[j].token))
  }

  ghost predicate TokensDrawn(s: State) {
    && (forall k :: 0 <= k < |s.log| && (s.log[k].Verified? || s.log[k].ResetDone?) ==> s.log[k].token < s.nonce)
    && (forall j, k :: 0 <= j < k < |s.log| && s.log[j].Verified? && s.log[k].Verified? ==>
      s.log[j].token != s.log[k].token)
  }

  ghost predicate CodeInv(env: Env, s: State) {
    && Traced(env, s.log) && TokensDrawn(s)
    && (forall p, a :: (p, a) in s.otps ==> OtpInv(env, s, p, a, s.otps[(p, a)]))
  }

  /** An event that does not concern a record leaves it in step with the log. */
  predicate Concerns(e: Event, p: Purpose, a: nat) {
    match e
    case Issued(q, b, _, _) => q == p && b == a
    case Wrong(q, b) => q == p && b == a
    case Confirmed(_, _, _) => false
    case Verified(b, _, _, _) => p == RESET && b == a
    case ResetDone(b, _, _) => p == RESET && b == a
    case Signed(_) => false
  }

  lemma {:induction false} OtherEventKeepsOtp(env: Env, s: State, t: State, e: Event, p: Purpose, a: nat, o: Otp)
    requires OtpInv(env, s, p, a, o) && TokensDrawn(s) && !Concerns(e, p, a)
    requires t.log == s.log + [e] && s.clock <= t.clock
    requires e.ResetDone? && o.verifiedAt.Some? ==> e.token != s.log[LatestVerified(s.log, a)].token
    ensures OtpInv(env, t, p, a, o)
  {
    Appended(s.log, e);
    assert LatestIssue(t.log, p, a) == LatestIssue(s.log, p, a);
    if o.verifiedAt.Some? {
      assert LatestVerified(t.log, a) == LatestVerified(s.log, a);
    }
  }

  /** One event, at most one record changed by it. */
  lemma {:induction false} EventKeepsCodeInv(env: Env, s: State, t: State, e: Event, p: Purpose, a: nat)
    requires CodeInv(env, s) && t.log == s.log + [e] && s.clock <= t.clock && TokensDrawn(t)
    requires Justified(env, s.log, e) && (e.Wrong? ==> WrongSince(s.log, e.purpose, e.account) < env.maxAttempts)
    requires e.ResetDone? ==>
      e.account == a && LatestVerified(s.log, a) >= 0 && e.token == s.log[LatestVerified(s.log, a)].token
    requires forall q, b :: (q, b) in t.otps && (q, b) != (p, a) ==>
      (q, b) in s.otps && t.otps[(q, b)] == s.otps[(q, b)] && !Concerns(e, q, b)
    requires (p, a) in t.otps ==> OtpInv(env, t, p, a, t.otps[(p, a)])
    requires e.ResetDone? ==> p == RESET && (p, a) !in t.otps
    ensures CodeInv(env, t)
  {
    TracedAppends(env, s.log, e);
    forall q, b | (q, b) in t.otps
      ensures OtpInv(env, t, q, b, t.otps[(q, b)])
    {
      if (q, b) != (p, a) {
        OtherRecordKept(env, s, t, e, p, a, q, b);
      }
    }
  }

  lemma {:induction false} OtherRecordKept(env: Env, s: State, t: State, e: Event, p: Purpose, a: nat, q: Purpose,
      b: nat)
    requires (q, b) in s.otps && OtpInv(env, s, q, b, s.otps[(q, b)]) && TokensDrawn(s) && !Concerns(e, q, b)
    requires t.log == s.log + [e] && s.clock <= t.clock
    requires e.ResetDone? ==> p == RESET && e.account == a && LatestVerified(s.log, a) >= 0
    requires e.ResetDone? ==> e.token == s.log[LatestVerified(s.log, a)].token
    ensures OtpInv(env, t, q, b, s.otps[(q, b)])
  {
    if e.ResetDone? && s.otps[(q, b)].verifiedAt.Some? {
      assert s.log[LatestVerified(s.log, b)].account == b && s.log[LatestVerified(s.log, a)].account == a;
    }
    OtherEventKeepsOtp(env, s, t, e, q, b, s.otps[(q, b)]);
  }

  lemma {:induction false} QuietKeepsCodeInv(env: Env, s: State, t: State)
    requires CodeInv(env, s) && t.log == s.log && s.clock <= t.clock && s.nonce <= t.nonce
    requires forall q, b :: (q, b) in t.otps ==> (q, b) in s.otps && t.otps[(q, b)] == s.otps[(q, b)]
    ensures CodeInv(env, t)
  {
    forall q, b | (q, b) in t.otps
      ensures OtpInv(env, t, q, b, t.otps[(q, b)])
    {
      assert OtpInv(env, s, q, b, s.otps[(q, b)]);
    }
  }

  lemma {:induction false} SignedKeepsCodeInv(env: Env, s: State, t: State, token: Token)
    requires CodeInv(env, s) && t.log == s.log + [Signed(token)] && t.clock == s.clock && s.nonce <= t.nonce
             && t.otps == s.otps
    ensures CodeInv(env, t)
  {
    var e := Signed(token);
    TracedAppends(env, s.log, e);
    forall q, b | (q, b) in t.otps
      ensures OtpInv(env, t, q, b, t.otps[(q, b)])
    {
      OtherEventKeepsOtp(env, s, t, e, q, b, s.otps[(q, b)]);
    }
  }

  lemma {:induction false} RequestKeepsCodeInv(env: Env, s: State, p: Purpose, a: nat, code: nat, mailed: bool)
    requires CodeInv(env, s)
    ensures CodeInv(env, RequestCode(env, s, p, a, code, mailed))
  {
    var t := RequestCode(env, s, p, a, code, mailed);
    if t != s {
      var e := Issued(p, a, code, s.clock);
      Appended(s.log, e);
      EventKeepsCodeInv(env, s, t, e, p, a);
    }
  }

  lemma {:induction false} WrongIsCounted(env: Env, s: State, t: State, p: Purpose, a: nat, o: Otp)
    requires OtpInv(env, s, p, a, o) && TokensDrawn(s) && o.attempts + 1 < env.maxAttempts
    requires t.log == s.log + [Wrong(p, a)] && t.clock == s.clock
    ensures OtpInv(env, t, p, a, o.(attempts := o.attempts + 1))
  {
    Appended(s.log, Wrong(p, a));
    assert LatestIssue(t.log, p, a) == LatestIssue(s.log, p, a) && LatestVerified(t.log, a) == LatestVerified(s.log, a);
    assert WrongSince(t.log, p, a) == o.attempts + 1;
  }

  lemma {:induction false} WrongDrawsNoToken(s: State, t: State, p: Purpose, a: nat)
    requires TokensDrawn(s) && t.log == s.log + [Wrong(p, a)] && t.nonce == s.nonce
    ensures TokensDrawn(t)
  {
    Appended(s.log, Wrong(p, a));
  }

  /** A wrong guess is counted, and the guess that reaches the limit closes the record. */
  lemma {:induction false} WrongKeepsCodeInv(env: Env, s: State, t: State, p: Purpose, a: nat, o: Otp)
    requires CodeInv(env, s) && (p, a) in s.otps && s.otps[(p, a)] == o && o.attempts < env.maxAttempts
    requires t.log == s.log + [Wrong(p, a)] && t.clock == s.clock && t.nonce == s.nonce
    requires t.otps == if o.attempts + 1 >= env.maxAttempts then s.otps - {(p, a)}
             else s.otps[(p, a) := o.(attempts := o.attempts + 1)]
    ensures CodeInv(env, t)
  {
    assert OtpInv(env, s, p, a, o);
    WrongDrawsNoToken(s, t, p, a);
    if o.attempts + 1 < env.maxAttempts {
      WrongIsCounted(env, s, t, p, a, o);
    }
    EventKeepsCodeInv(env, s, t, Wrong(p, a), p, a);
  }

  lemma {:induction false} CheckKeepsCodeInv(env: Env, s: State, p: Purpose, a: nat, code: nat)
    requires CodeInv(env, s)
    ensures CodeInv(env, CheckCode(env, s, p, a, code).0)
  {
    var (t, e) := CheckCode(env, s, p, a, code);
    if e == Some(OTP_INVALID) {
      WrongKeepsCodeInv(env, s, t, p, a, s.otps[(p, a)]);
    } else {
      QuietKeepsCodeInv(env, s, t);
    }
  }

  /** A code is accepted exactly when it is the one last issued, within its lifetime, after fewer wrong guesses than
   allowed. */
  lemma {:induction false} CodeAcceptedIff(env: Env, s: State, p: Purpose, a: nat, code: nat)
    requires CodeInv(env, s) && Injective(env)
    ensures CheckCode(env, s, p, a, code).1.None? <==>
      && (p, a) in s.otps
      && var i := LatestIssue(s.log, p, a);
         i >= 0 && s.log[i].code == code && s.log[i].at <= s.clock < s.log[i].at + env.ttl
           && WrongSince(s.log, p, a) < env.maxAttempts
  {
    if (p, a) in s.otps {
      assert OtpInv(env, s, p, a, s.otps[(p, a)]);
    }
  }

  lemma {:induction false} VerifyEmailKeepsCodeInv(env: Env, s: State, a: nat, code: nat)
    requires CodeInv(env, s) && Injective(env)
    ensures CodeInv(env, VerifyEmail(env, s, a, code).0)
  {
    if a in s.accounts && s.accounts[a].tourist && !s.accounts[a].verified {
      CheckKeepsCodeInv(env, s, EMAIL, a, code);
      CodeAcceptedIff(env, s, EMAIL, a, code);
      if CheckCode(env, s, EMAIL, a, code).1.None? {
        var v := WithoutOtp(s.(accounts := s.accounts[a := s.accounts[a].(verified := true)]), EMAIL, a);
        var e := Confirmed(a, code, s.clock);
        EventKeepsCodeInv(env, s, Logged(v, e), e, EMAIL, a);
        SignedKeepsCodeInv(env, Logged(v, e), IssueSession(env, Logged(v, e), a),
          Token(a, v.nonce, v.nonce + 1, v.clock + env.sessionTtl));
      }
    }
  }

  lemma {:induction false} VerificationIsRecorded(env: Env, s: State, t: State, a: nat, code: nat, o: Otp)
    requires OtpInv(env, s, RESET, a, o) && TokensDrawn(s)
    requires var i := LatestIssue(s.log, RESET, a); s.log[i].code == code && s.clock < s.log[i].at + env.ttl
    requires t.log == s.log + [Verified(a, code, s.nonce, s.clock)] && t.clock == s.clock && t.nonce == s.nonce + 1
    ensures OtpInv(env, t, RESET, a,
      o.(verifiedAt := Some(s.clock), resetHash := Some(env.hash(ResetText(s.nonce))),
         tokenExpiresAt := s.clock + env.ttl))
  {
    Appended(s.log, Verified(a, code, s.nonce, s.clock));
    FreshIsUnused(s, t, Verified(a, code, s.nonce, s.clock));
    assert LatestIssue(t.log, RESET, a) == LatestIssue(s.log, RESET, a);
    assert LatestVerified(t.log, a) == |s.log|;
  }

  lemma {:induction false} VerifiedKeepsCodeInv(env: Env, s: State, t: State, a: nat, code: nat, o: Otp)
    requires CodeInv(env, s) && (RESET, a) in s.otps && s.otps[(RESET, a)] == o
    requires var i := LatestIssue(s.log, RESET, a);
      i >= 0 && s.log[i].code == code && s.log[i].at <= s.clock < s.log[i].at + env.ttl
    requires t.log == s.log + [Verified(a, code, s.nonce, s.clock)] && t.clock == s.clock && t.nonce == s.nonce + 1
    requires t.otps == s.otps[(RESET, a) :=
      o.(verifiedAt := Some(s.clock), resetHash := Some(env.hash(ResetText(s.nonce))),
         tokenExpiresAt := s.clock + env.ttl)]
    ensures CodeInv(env, t)
  {
    VerificationIsRecorded(env, s, t, a, code, o);
    FreshIsUnused(s, t, Verified(a, code, s.nonce, s.clock));
    EventKeepsCodeInv(env, s, t, Verified(a, code, s.nonce, s.clock), RESET, a);
  }

  lemma {:induction false} VerifyResetKeepsCodeInv(env: Env, s: State, a: nat, code: nat)
    requires CodeInv(env, s) && Injective(env)
    ensures CodeInv(env, VerifyResetCode(env, s, a, code).0)
  {
    if a in s.accounts && s.accounts[a].active {
      CheckKeepsCodeInv(env, s, RESET, a, code);
      CodeAcceptedIff(env, s, RESET, a, code);
      if CheckCode(env, s, RESET, a, code).1.None? {
        VerifiedKeepsCodeInv(env, s, VerifyResetCode(env, s, a, code).0, a, code, s.otps[(RESET, a)]);
      }
    }
  }

  lemma {:induction false} FreshIsUnused(s: State, t: State, e: Event)
    requires TokensDrawn(s) && t.log == s.log + [e] && e.Verified? && e.token == s.nonce && t.nonce == s.nonce + 1
    ensures TokensDrawn(t) && !Used(t.log, s.nonce)
  {
  }

  lemma {:induction false} ResetKeepsCodeInv(env: Env, s: State, a: nat, token: nat, password: nat)
    requires CodeInv(env, s) && Injective(env)
    ensures CodeInv(env, ResetPassword(env, s, a, token, password).0)
  {
    var t := ResetPassword(env, s, a, token, password).0;
    if ResetPassword(env, s, a, token, password).1.None? {
      var e := ResetDone(a, token, s.clock);
      Appended(s.log, e);
      assert OtpInv(env, s, RESET, a, s.otps[(RESET, a)]);
      EventKeepsCodeInv(env, s, t, e, RESET, a);
    }
  }

  lemma {:induction false} StepKeepsCodeInv(env: Env, s: State, step: Step)
    requires CodeInv(env, s) && Injective(env)
    ensures CodeInv(env, Do(env, s, step))
  {
    var t := Do(env, s, step);
    match step
    case DoLogin(a, _) =>
      if t != s { SignedKeepsCodeInv(env, s, t, Token(a, s.nonce, s.nonce + 1, s.clock + env.sessionTtl)); }
    case DoRefresh(shown) =>
      if t != s {
        var next := Token(s.sessions[shown.sid].account, shown.sid, s.nonce, s.clock + env.sessionTtl);
        SignedKeepsCodeInv(env, s, t, next);
      }
    case DoRequestCode(p, a, code, mailed) => RequestKeepsCodeInv(env, s, p, a, code, mailed);
    case DoVerifyEmail(a, code) => VerifyEmailKeepsCodeInv(env, s, a, code);
    case DoVerifyResetCode(a, code) => VerifyResetKeepsCodeInv(env, s, a, code);
    case DoResetPassword(a, token, password) => ResetKeepsCodeInv(env, s, a, token, password);
    case _ => QuietKeepsCodeInv(env, s, t);
  }

  lemma {:induction false} RunKeepsCodeInv(env: Env, s: State, steps: seq<Step>)
    requires CodeInv(env, s) && Injective(env)
    ensures CodeInv(env, Run(env, s, steps))
    decreases |steps|
  {
    if steps != [] {
      StepKeepsCodeInv(env, s, steps[0]);
      RunKeepsCodeInv(env, Do(env, s, steps[0]), steps[1..]);
    }
  }

  lemma InitHasCodeInv(env: Env)
    ensures CodeInv(env, INIT)
  {
    assert INIT.log[..0] == [];
    assert forall p, a :: WrongSince([], p, a) == 0;
  }

  // ----- What every run guarantees -----

  /** Each successful reset was preceded by the right code for the latest issue, given within the code's lifetime, with
   no later issue in between; it came within the token's lifetime; and no other reset used the token. */
  lemma {:induction false} ResetHasItsCode(env: Env, steps: seq<Step>, k: nat) returns (i: nat, j: nat)
    requires Injective(env)
    requires k < |Run(env, INIT, steps).log| && Run(env, INIT, steps).log[k].ResetDone?
    ensures var log := Run(env, INIT, steps).log;
      && i < j < k && log[j].Verified? && log[j].account == log[k].account && log[j].token == log[k].token
      && Issues(log[i], RESET, log[k].account) && log[j].code == log[i].code
      && (forall m :: i < m < k ==> !Issues(log[m], RESET, log[k].account))
      && log[i].at <= log[j].at < log[i].at + env.ttl && log[j].at <= log[k].at < log[j].at + env.ttl
      && (forall m :: 0 <= m < |log| && m != k && log[m].ResetDone? ==> log[m].token != log[k].token)
  {
    InitHasCodeInv(env);
    RunKeepsCodeInv(env, INIT, steps);
    var log := Run(env, INIT, steps).log;
    var before := log[..k];
    assert Justified(env, before, log[k]);
    i := LatestIssue(before, RESET, log[k].account);
    j := LatestVerified(before, log[k].account);
    forall m | i < m < k
      ensures !Issues(log[m], RESET, log[k].account)
    {
      assert log[m] == before[m];
    }
    forall m | 0 <= m < |log| && m != k && log[m].ResetDone?
      ensures log[m].token != log[k].token
    {
      assert Justified(env, log[..m], log[m]);
      if m < k { assert before[m] == log[m]; } else { assert log[..m][k] == log[k]; }
    }
  }

  /** An e-mail address is confirmed only by the code last issued for it, within its lifetime. */
  lemma {:induction false} ConfirmationHasItsCode(env: Env, steps: seq<Step>, k: nat) returns (i: nat)
    requires Injective(env)
    requires k < |Run(env, INIT, steps).log| && Run(env, INIT, steps).log[k].Confirmed?
    ensures var log := Run(env, INIT, steps).log;
      && i < k && Issues(log[i], EMAIL, log[k].account) && log[i].code == log[k].code
      && (forall m :: i < m < k ==> !Issues(log[m], EMAIL, log[k].account))
      && log[i].at <= log[k].at < log[i].at + env.ttl
  {
    InitHasCodeInv(env);
    RunKeepsCodeInv(env, INIT, steps);
    var log := Run(env, INIT, steps).log;
    var before := log[..k];
    assert Justified(env, before, log[k]);
    i := LatestIssue(before, EMAIL, log[k].account);
    forall m | i < m < k
      ensures !Issues(log[m], EMAIL, log[k].account)
    {
      assert log[m] == before[m];
    }
  }

  /** At every moment of every run a code of either kind has met at most the maximum number of wrong guesses, and once
   it has met that many no guess is accepted until a new code is issued. */
  lemma {:induction false} GuessesAreLimited(env: Env, steps: seq<Step>, k: nat, p: Purpose, a: nat)
    requires Injective(env) && k <= |Run(env, INIT, steps).log|
    ensures WrongSince(Run(env, INIT, steps).log[..k], p, a) <= env.maxAttempts
    ensures WrongSince(Run(env, INIT, steps).log, p, a) == env.maxAttempts ==>
      forall code :: CheckCode(env, Run(env, INIT, steps), p, a, code).1.Some?
  {
    InitHasCodeInv(env);
    RunKeepsCodeInv(env, INIT, steps);
    var s := Run(env, INIT, steps);
    forall code
      ensures WrongSince(s.log, p, a) == env.maxAttempts ==> CheckCode(env, s, p, a, code).1.Some?
    {
      CodeAcceptedIff(env, s, p, a, code);
    }
  }

  /** A reset code is not used up by its verification: the same code can be verified again, and then only the newer
   token is valid. */
  lemma {:induction false} VerifyingAgainReplacesTheToken(env: Env, s: State, a: nat, code: nat)
    requires Injective(env) && VerifyResetCode(env, s, a, code).1.None?
    ensures var t := VerifyResetCode(env, s, a, code).0; var u := VerifyResetCode(env, t, a, code).0;
      && VerifyResetCode(env, t, a, code).1.None?
      && !TokenValid(env, u, a, s.nonce) && (TokenValid(env, u, a, s.nonce + 1) <==> env.ttl > 0)
  {
  }

  /** A reset is accepted exactly when the account is active, its code is still on record and was verified since its
   latest issue, and the token is that of the latest verification, within the token's lifetime. */
  lemma {:induction false} ResetAcceptedIff(env: Env, s: State, a: nat, token: nat, password: nat)
    requires CodeInv(env, s) && Injective(env)
    ensures ResetPassword(env, s, a, token, password).1.None? <==>
      && a in s.accounts && s.accounts[a].active && (RESET, a) in s.otps
      && var i, j := LatestIssue(s.log, RESET, a), LatestVerified(s.log, a);
         i < j && s.log[j].token == token && s.clock < s.log[j].at + env.ttl
  {
    if (RESET, a) in s.otps {
      assert OtpInv(env, s, RESET, a, s.otps[(RESET, a)]);
    }
  }

  /** In every run a reset is accepted exactly under that condition. */
  lemma {:induction false} ResetInRuns(env: Env, steps: seq<Step>, a: nat, token: nat, password: nat)
    requires Injective(env)
    ensures var s := Run(env, INIT, steps);
      ResetPassword(env, s, a, token, password).1.None? <==>
        && a in s.accounts && s.accounts[a].active && (RESET, a) in s.otps
        && var i, j := LatestIssue(s.log, RESET, a), LatestVerified(s.log, a);
           i < j && s.log[j].token == token && s.clock < s.log[j].at + env.ttl
  {
    InitHasCodeInv(env);
    RunKeepsCodeInv(env, INIT, steps);
    ResetAcceptedIff(env, Run(env, INIT, steps), a, token, password);
  }

  /** The run of one account that asks for a code, verifies it after `wait` and resets its password `wait` later. */
  function PatientRun(a: nat, code: nat, wait: nat): seq<Step> {
    [DoRegister(a, false, 1), DoRequestCode(RESET, a, code, true)]
    + [DoTick(wait), DoVerifyResetCode(a, code)] + [DoTick(wait), DoResetPassword(a, 0, 2)]
  }

  lemma RunTwo(env: Env, s: State, x: Step, y: Step, rest: seq<Step>)
    ensures Run(env, s, [x, y] + rest) == Run(env, Do(env, Do(env, s, x), y), rest)
  {
    assert ([x, y] + rest)[1..] == [y] + rest && ([y] + rest)[1..] == rest;
  }

  function Asked(env: Env, a: nat, code: nat): State {
    State(map[a := Account(true, false, false, 1)], map[],
          map[(RESET, a) := Otp(env.hash(CodeText(RESET, a, code)), env.ttl, 0, 0, None, None, 0)], 0, 0,
            [Issued(RESET, a, code, 0)])
  }

  lemma AskingFromInit(env: Env, a: nat, code: nat)
    ensures Do(env, Do(env, INIT, DoRegister(a, false, 1)), DoRequestCode(RESET, a, code, true)) == Asked(env, a, code)
  {
  }

  lemma VerifyingLate(env: Env, a: nat, code: nat, wait: nat)
    requires wait < env.ttl && env.maxAttempts >= 1
    ensures var s := Do(env, Do(env, Asked(env, a, code), DoTick(wait)), DoVerifyResetCode(a, code));
      && s.log == [Issued(RESET, a, code, 0), Verified(a, code, 0, wait)] && s.clock == wait
      && a in s.accounts && s.accounts[a].active && (RESET, a) in s.otps
      && s.otps[(RESET, a)].verifiedAt == Some(wait) && s.otps[(RESET, a)].tokenExpiresAt == wait + env.ttl
      && s.otps[(RESET, a)].resetHash == Some(env.hash(ResetText(0)))
  {
  }

  /** A password can be reset almost two lifetimes after the code was issued, when the code itself is long out of date:
   the token's lifetime starts at verification. */
  lemma {:induction false} ResetCanOutliveItsCode(env: Env, a: nat, code: nat)
    requires env.ttl >= 2 && env.maxAttempts >= 1
    ensures Run(env, INIT, PatientRun(a, code, env.ttl - 1)).log ==
      [Issued(RESET, a, code, 0), Verified(a, code, 0, env.ttl - 1), ResetDone(a, 0, 2 * env.ttl - 2)]
  {
    var wait := env.ttl - 1;
    var verify, reset := [DoTick(wait), DoVerifyResetCode(a, code)], [DoTick(wait), DoResetPassword(a, 0, 2)];
    var asked := Asked(env, a, code);
    AskingFromInit(env, a, code);
    var ask := [DoRegister(a, false, 1), DoRequestCode(RESET, a, code, true)];
    assert PatientRun(a, code, wait) == ask + (verify + reset);
    RunTwo(env, INIT, DoRegister(a, false, 1), DoRequestCode(RESET, a, code, true), verify + reset);
    RunTwo(env, asked, DoTick(wait), DoVerifyResetCode(a, code), reset);
    VerifyingLate(env, a, code, wait);
    var verified := Do(env, Do(env, asked, DoTick(wait)), DoVerifyResetCode(a, code));
    assert reset == reset + [];
    RunTwo(env, verified, DoTick(wait), DoResetPassword(a, 0, 2), []);
    assert TokenValid(env, Do(env, verified, DoTick(wait)), a, 0);
  }
}
