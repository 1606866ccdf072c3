/**
 What each authentication call changes, and for whom: logging in, rotating, logging out, confirming and resetting. */
module AuthEffects {
  import opened Wrappers
  import opened Auth
  import opened AuthProofs
  import opened AuthCodes

  predicate Accepts(env: Env, s: State, token: Token) { RefreshError(env, s, token).None? }

  /** The server signed the token and its time has not passed. */
  predicate Valid(s: State, token: Token) { Signed(token) in s.log && s.clock < token.exp }

  predicate Revoked(s: State, sid: nat) { sid in s.sessions && s.sessions[sid].revoked }

  // ----- Logging out -----

  lemma {:induction false} RevokedStays(env: Env, s: State, step: Step, sid: nat)
    requires SessionInv(env, s) && Revoked(s, sid)
    ensures Revoked(Do(env, s, step), sid)
  {
    match step
    case DoVerifyEmail(a, code) => CheckKeepsSessions(env, s, EMAIL, a, code);
    case DoVerifyResetCode(a, code) => CheckKeepsSessions(env, s, RESET, a, code);
    case _ =>
  }

  /** A revoked session stays revoked over every run, and no token of it, signed before or presented later, is ever
   accepted. */
  lemma {:induction false} RevokedForever(env: Env, s: State, steps: seq<Step>, token: Token)
    requires SessionInv(env, s) && Revoked(s, token.sid)
    ensures Revoked(Run(env, s, steps), token.sid) && !Accepts(env, Run(env, s, steps), token)
    decreases |steps|
  {
    if steps != [] {
      StepKeepsSessionInv(env, s, steps[0]);
      RevokedStays(env, s, steps[0], token.sid);
      RevokedForever(env, Do(env, s, steps[0]), steps[1..], token);
    }
  }

  /** After a logout with any valid token of a session, the last one signed or an older one, no token of the session is
   ever accepted. */
  lemma {:induction false} LogoutEndsSession(env: Env, s: State, token: Token, steps: seq<Step>, k: Token)
    requires SessionInv(env, s) && Valid(s, token) && k.sid == token.sid
    ensures !Accepts(env, Run(env, Do(env, s, DoLogout(token)), steps), k)
  {
    StepKeepsSessionInv(env, s, DoLogout(token));
    RevokedForever(env, Do(env, s, DoLogout(token)), steps, k);
  }

  /** A logout revokes the session of its token and changes nothing else; a token that is not valid changes nothing.
   Tokens of other sessions are accepted as before. */
  lemma {:induction false} LogoutEndsOnlyIt(env: Env, s: State, token: Token, k: Token)
    requires SessionInv(env, s)
    ensures var t := Do(env, s, DoLogout(token));
      && t == s.(sessions := t.sessions) && t.sessions.Keys == s.sessions.Keys
      && (Valid(s, token) ==>
            Revoked(t, token.sid) && forall i | i in s.sessions && i != token.sid :: t.sessions[i] == s.sessions[i])
      && (!Valid(s, token) ==> t == s)
      && (k.sid != token.sid ==> (Accepts(env, t, k) <==> Accepts(env, s, k)))
  {
  }

  // ----- Logging in and rotating -----

  /** Only a fresh session of the account was added, and the token just signed is its token. */
  predicate Opens(s: State, t: State, a: nat, token: Token) {
    && Signed(token) !in s.log && token.sub == a && token.sid !in s.sessions && token.sid in t.sessions
    && t.sessions[token.sid].account == a && !t.sessions[token.sid].revoked
    && t.sessions.Keys == s.sessions.Keys + {token.sid}
    && (forall i | i in s.sessions :: t.sessions[i] == s.sessions[i])
  }

  /** A login is accepted exactly with the password of a usable account; it opens one session, whose token is accepted
   as long as sessions last at all. */
  lemma {:induction false} LoginIff(env: Env, s: State, a: nat, password: nat)
    requires SessionInv(env, s) && Injective(env)
    ensures Login(env, s, a, password).1.None? <==> Usable(s, a) && s.accounts[a].password == password
    ensures Login(env, s, a, password).1.Some? ==> Login(env, s, a, password).0 == s
    ensures Login(env, s, a, password).1.None? ==>
      var t := Login(env, s, a, password).0;
      && |t.log| == |s.log| + 1 && t.log[|s.log|].Signed?
      && var token := t.log[|s.log|].signed;
         Opens(s, t, a, token) && t.accounts == s.accounts && t.otps == s.otps
           && (Accepts(env, t, token) <==> env.sessionTtl > 0)
  {
    if Login(env, s, a, password).1.None? {
      var t := Login(env, s, a, password).0;
      StepKeepsSessionInv(env, s, DoLogin(a, password));
      Appended(s.log, t.log[|s.log|]);
      RefreshAcceptedIff(env, t, t.log[|s.log|].signed);
    }
  }

  /** An accepted refresh hands over to a new token of the same session: that one is accepted, the old one is not, and
   tokens of other sessions are accepted as before. */
  lemma {:induction false} RefreshHandsOver(env: Env, s: State, token: Token, k: Token)
    requires SessionInv(env, s) && Injective(env) && Accepts(env, s, token) && env.sessionTtl > 0
    ensures var t := Refresh(env, s, token).0;
      && |t.log| == |s.log| + 1 && t.log[|s.log|].Signed?
      && var next := t.log[|s.log|].signed;
         && next != token && next.sub == token.sub && next.sid == token.sid
         && Accepts(env, t, next) && !Accepts(env, t, token)
         && t.accounts == s.accounts && t.otps == s.otps
         && (k.sid != token.sid ==> (Accepts(env, t, k) <==> Accepts(env, s, k)))
  {
    var t := Refresh(env, s, token).0;
    StepKeepsSessionInv(env, s, DoRefresh(token));
    Appended(s.log, t.log[|s.log|]);
    var next := t.log[|s.log|].signed;
    assert token.jti < s.nonce;
    RefreshAcceptedIff(env, s, token);
    RefreshAcceptedIff(env, t, next);
    RefreshAcceptedIff(env, t, token);
    RefreshAcceptedIff(env, s, k);
    RefreshAcceptedIff(env, t, k);
  }

  // ----- Codes -----

  predicate Qualifies(s: State, p: Purpose, a: nat) {
    && a in s.accounts
    && (p == RESET ==> s.accounts[a].active)
    && (p == EMAIL ==> s.accounts[a].tourist && !s.accounts[a].verified)
  }

  predicate Waits(env: Env, s: State, p: Purpose, a: nat) {
    (p, a) in s.otps && s.clock < s.otps[(p, a)].lastSentAt + env.cooldown
  }

  /** A code is drawn exactly for an account that qualifies and was sent none within the cooldown. If it was mailed it
   is the one accepted code; if not, none is. Other codes, accounts and sessions stay. */
  lemma {:induction false} CodeSentIff(env: Env, s: State, p: Purpose, a: nat, code: nat, mailed: bool, guess: nat)
    requires Injective(env)
    ensures var t := RequestCode(env, s, p, a, code, mailed);
      if Qualifies(s, p, a) && !Waits(env, s, p, a)
      then
        && t.log == s.log + [Issued(p, a, code, s.clock)]
        && (CheckCode(env, t, p, a, guess).1.None? <==>
              mailed && guess == code && env.ttl > 0 && env.maxAttempts > 0)
        && t == s.(log := t.log, otps := t.otps)
        && forall q | q in s.otps && q != (p, a) :: q in t.otps && t.otps[q] == s.otps[q]
      else t == s
  {
  }

  /** An e-mail address is confirmed exactly for an unconfirmed tourist with the code last issued, in its lifetime,
   after fewer wrong guesses than allowed. Then the account counts as confirmed, its code is used up, and a session is
   opened. */
  lemma {:induction false} VerifyEmailIff(env: Env, s: State, a: nat, code: nat)
    requires CodeInv(env, s) && SessionInv(env, s) && Injective(env)
    ensures VerifyEmail(env, s, a, code).1.None? <==>
      && a in s.accounts && s.accounts[a].tourist && !s.accounts[a].verified && (EMAIL, a) in s.otps
      && var i := LatestIssue(s.log, EMAIL, a);
         i >= 0 && s.log[i].code == code && s.log[i].at <= s.clock < s.log[i].at + env.ttl
           && WrongSince(s.log, EMAIL, a) < env.maxAttempts
    ensures VerifyEmail(env, s, a, code).1.None? ==>
      var t := VerifyEmail(env, s, a, code).0;
      && t.accounts == s.accounts[a := s.accounts[a].(verified := true)] && t.otps == s.otps - {(EMAIL, a)}
      && |t.log| > 0 && t.log[|t.log| - 1].Signed? && Opens(s, t, a, t.log[|t.log| - 1].signed)
  {
    CodeAcceptedIff(env, s, EMAIL, a, code);
  }

  /** A reset code is accepted for an active account under the same condition; the token it yields is valid, and the one
   before it no longer. */
  lemma {:induction false} VerifyResetIff(env: Env, s: State, a: nat, code: nat, other: nat)
    requires CodeInv(env, s) && Injective(env)
    ensures VerifyResetCode(env, s, a, code).1.None? <==>
      && a in s.accounts && s.accounts[a].active && (RESET, a) in s.otps
      && var i := LatestIssue(s.log, RESET, a);
         i >= 0 && s.log[i].code == code && s.log[i].at <= s.clock < s.log[i].at + env.ttl
           && WrongSince(s.log, RESET, a) < env.maxAttempts
    ensures VerifyResetCode(env, s, a, code).1.None? ==>
      var t := VerifyResetCode(env, s, a, code).0;
      && t.log == s.log + [Verified(a, code, s.nonce, s.clock)]
      && (TokenValid(env, t, a, other) <==> other == s.nonce && env.ttl > 0)
      && t.accounts == s.accounts && t.sessions == s.sessions
      && forall q | q in s.otps && q != (RESET, a) :: q in t.otps && t.otps[q] == s.otps[q]
  {
    CodeAcceptedIff(env, s, RESET, a, code);
  }

  /** After a reset the account's password is the new one and its record is used up; other accounts log in as before and
   keep their sessions. */
  lemma {:induction false} ResetChangesPassword(env: Env, s: State, a: nat, token: nat, password: nat, b: nat,
      guess: nat)
    requires ResetPassword(env, s, a, token, password).1.None?
    ensures var t := ResetPassword(env, s, a, token, password).0;
      && (Login(env, t, a, guess).1.None? <==> guess == password && Usable(s, a))
      && (b != a ==> (Login(env, t, b, guess).1.None? <==> Login(env, s, b, guess).1.None?))
      && !TokenValid(env, t, a, token) && (RESET, a) !in t.otps
      && t.sessions.Keys == s.sessions.Keys
      && forall i | i in s.sessions ::
           if s.sessions[i].account == a then t.sessions[i].revoked else t.sessions[i] == s.sessions[i]
  {
  }

  /** From the empty tables: whoever registers and is confirmed logs in, refreshes with the token, and after the logout
   neither token is accepted. */
  lemma {:induction false} SessionLife(env: Env, a: nat, password: nat, steps: seq<Step>, k: Token)
    requires Injective(env) && env.sessionTtl > 0
    ensures var s := Do(env, Do(env, INIT, DoRegister(a, false, password)), DoLogin(a, password));
      && |s.log| == 1 && s.log[0].Signed? && Accepts(env, s, s.log[0].signed)
      && var t := Do(env, s, DoRefresh(s.log[0].signed));
         && |t.log| == 2 && t.log[1].Signed? && Accepts(env, t, t.log[1].signed)
         && (k.sid == s.log[0].signed.sid ==>
               !Accepts(env, Run(env, Do(env, t, DoLogout(t.log[1].signed)), steps), k))
  {
    var r := Do(env, INIT, DoRegister(a, false, password));
    LoginIff(env, r, a, password);
    var s := Do(env, r, DoLogin(a, password));
    var token := s.log[0].signed;
    StepKeepsSessionInv(env, r, DoLogin(a, password));
    RefreshHandsOver(env, s, token, token);
    var t := Do(env, s, DoRefresh(token));
    StepKeepsSessionInv(env, s, DoRefresh(token));
    RefreshAcceptedIff(env, t, t.log[1].signed);
    if k.sid == token.sid { LogoutEndsSession(env, t, t.log[1].signed, steps, k); }
  }
}
