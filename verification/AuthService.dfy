/**
 The authentication calls as they run: each check in order, then the records are updated one after another.
 */
module AuthService {
  import opened Wrappers
  import opened Auth

  class Repository {
    const env: Env
    var accounts: map<nat, Account>
    var sessions: map<nat, Session>
    var otps: map<(Purpose, nat), Otp>
    var nonce: nat
    var clock: nat
    var log: seq<Event>

    function View(): State
      reads this
    {
      State(accounts, sessions, otps, nonce, clock, log)
    }

    constructor (env: Env)
      ensures this.env == env && View() == INIT
    {
      this.env := env;
      accounts, sessions, otps, nonce, clock, log := map[], map[], map[], 0, 0, [];
    }

    method CreateSession(a: nat) returns (refreshToken: Token)
      modifies this`sessions, this`nonce, this`log
      ensures View() == IssueSession(env, old(View()), a) && log == old(log) + [Signed(refreshToken)]
    {
      var sessionId := nonce;
      refreshToken := Token(a, sessionId, nonce + 1, clock + env.sessionTtl);
      nonce := nonce + 2;
      sessions := sessions[sessionId := Session(a, env.hash(RefreshText(refreshToken)), clock + env.sessionTtl, false)];
      log := log + [Signed(refreshToken)];
    }

    method Refresh(token: Token) returns (e: Option<Error>, next: Option<Token>)
      modifies this`sessions, this`nonce, this`log
      ensures (View(), e) == Auth.Refresh(env, old(View()), token)
      ensures next.Some? <==> e.None?
      ensures next.Some? ==> log == old(log) + [Signed(next.value)]
    {
      if Signed(token) !in log || token.exp <= clock { return Some(INVALID_TOKEN), None; }
      if token.sid !in sessions { return Some(SESSION_INVALID), None; }
      var session := sessions[token.sid];
      var tokenMatches := session.hash == env.hash(RefreshText(token));
      if !tokenMatches || session.revoked || session.expiresAt <= clock || session.account != token.sub {
        return Some(SESSION_INVALID), None;
      }
      if session.account !in accounts || !accounts[session.account].active { return Some(ACCOUNT_INACTIVE), None; }
      if accounts[session.account].tourist && !accounts[session.account].verified {
        return Some(VERIFICATION_REQUIRED), None;
      }
      var rotated := Token(session.account, token.sid, nonce, clock + env.sessionTtl);
      nonce := nonce + 1;
      sessions := sessions[token.sid :=
        session.(hash := env.hash(RefreshText(rotated)), expiresAt := clock + env.sessionTtl)];
      log := log + [Signed(rotated)];
      return None, Some(rotated);
    }

    method Logout(token: Token)
      modifies this`sessions
      ensures View() == Auth.Logout(old(View()), token)
    {
      if Signed(token) !in log || token.exp <= clock { return; }
      if token.sid in sessions { sessions := sessions[token.sid := sessions[token.sid].(revoked := true)]; }
    }

    method CheckCode(p: Purpose, a: nat, code: nat) returns (e: Option<Error>)
      modifies this`otps, this`log
      ensures (View(), e) == Auth.CheckCode(env, old(View()), p, a, code)
    {
      if (p, a) !in otps { return Some(OTP_EXPIRED); }
      var record := otps[(p, a)];
      if record.expiresAt <= clock {
        otps := otps - {(p, a)};
        return Some(OTP_EXPIRED);
      }
      if record.attempts >= env.maxAttempts {
        otps := otps - {(p, a)};
        return Some(OTP_ATTEMPTS_EXCEEDED);
      }
      if env.hash(CodeText(p, a, code)) != record.codeHash {
        log := log + [Wrong(p, a)];
        otps := otps[(p, a) := record.(attempts := record.attempts + 1)];
        if otps[(p, a)].attempts >= env.maxAttempts { otps := otps - {(p, a)}; }
        assert record.attempts + 1 >= env.maxAttempts ==> otps == old(otps) - {(p, a)};
        return Some(OTP_INVALID);
      }
      return None;
    }

    method VerifyEmail(a: nat, code: nat) returns (e: Option<Error>)
      modifies this
      ensures (View(), e) == Auth.VerifyEmail(env, old(View()), a, code)
    {
      if a !in accounts || !accounts[a].tourist { return Some(OTP_INVALID); }
      if accounts[a].verified { return Some(ALREADY_VERIFIED); }
      e := CheckCode(EMAIL, a, code);
      if e.Some? { return; }
      accounts := accounts[a := accounts[a].(verified := true)];
      otps := otps - {(EMAIL, a)};
      log := log + [Confirmed(a, code, clock)];
      var _ := CreateSession(a);
    }

    method VerifyPasswordResetOtp(a: nat, code: nat) returns (e: Option<Error>, resetToken: Option<nat>)
      modifies this
      ensures (View(), e) == VerifyResetCode(env, old(View()), a, code)
      ensures resetToken == if e.None? then Some(old(nonce)) else None
    {
      if a !in accounts || !accounts[a].active { return Some(OTP_INVALID), None; }
      e := CheckCode(RESET, a, code);
      if e.Some? { return e, None; }
      var token := nonce;
      nonce := nonce + 1;
      otps := otps[(RESET, a) :=
        otps[(RESET, a)].(verifiedAt := Some(clock), resetHash := Some(env.hash(ResetText(token))),
                                                  tokenExpiresAt := clock + env.ttl)];
      log := log + [Verified(a, code, token, clock)];
      return None, Some(token);
    }

    method ResetPassword(a: nat, resetToken: nat, password: nat) returns (e: Option<Error>)
      modifies this
      ensures (View(), e) == Auth.ResetPassword(env, old(View()), a, resetToken, password)
    {
      if a !in accounts || !accounts[a].active { return Some(SESSION_INVALID); }
      if (RESET, a) !in otps { return Some(SESSION_INVALID); }
      var record := otps[(RESET, a)];
      var tokenValid := record.verifiedAt.Some? && record.resetHash.Some? && record.tokenExpiresAt > clock
        && env.hash(ResetText(resetToken)) == record.resetHash.value;
      if !tokenValid { return Some(SESSION_INVALID); }
      accounts := accounts[a := accounts[a].(password := password)];
      sessions := RevokeAll(sessions, a);
      otps := otps - {(RESET, a)};
      log := log + [ResetDone(a, resetToken, clock)];
      return None;
    }
  }
}
