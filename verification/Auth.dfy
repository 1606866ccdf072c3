/**
 Sessions with rotating refresh tokens, and one-time codes for e-mail verification and password reset.
 Calls are serial; the hash is any function, and random values are drawn from `nonce`, so they never repeat.
 The log records what happened, for stating properties of whole runs.
 */
module Auth {
  import opened Wrappers

  datatype Purpose = EMAIL | RESET

  /** A refresh token as the server signs it. */
  datatype Token = Token(sub: nat, sid: nat, jti: nat, exp: nat)

  /** The texts that are hashed. */
  datatype Text =
    | CodeText(purpose: Purpose, account: nat, code: nat)
    | ResetText(nonce: nat)
    | RefreshText(token: Token)

  datatype Env = Env(hash: Text -> nat, ttl: nat, cooldown: nat, maxAttempts: nat, sessionTtl: nat)

  datatype Account = Account(active: bool, tourist: bool, verified: bool, password: nat)

  datatype Session = Session(account: nat, hash: nat, expiresAt: nat, revoked: bool)

  datatype Otp = Otp(
    codeHash: nat, expiresAt: nat, attempts: nat, lastSentAt: nat,
    verifiedAt: Option<nat>, resetHash: Option<nat>, tokenExpiresAt: nat)

  datatype Event =
    | Issued(purpose: Purpose, account: nat, code: nat, at: nat)
    | Wrong(purpose: Purpose, account: nat)
    | Confirmed(account: nat, code: nat, at: nat)
    | Verified(account: nat, code: nat, token: nat, at: nat)
    | ResetDone(account: nat, token: nat, at: nat)
    | Signed(signed: Token)

  datatype State = State(
    accounts: map<nat, Account>, sessions: map<nat, Session>, otps: map<(Purpose, nat), Otp>,
    nonce: nat, clock: nat, log: seq<Event>)

  const INIT := State(map[], map[], map[], 0, 0, [])

  datatype Error =
    | OTP_INVALID | OTP_EXPIRED | OTP_ATTEMPTS_EXCEEDED | ALREADY_VERIFIED | SESSION_INVALID
    | INVALID_CREDENTIALS | ACCOUNT_INACTIVE | VERIFICATION_REQUIRED | INVALID_TOKEN

  function Logged(s: State, e: Event): State { s.(log := s.log + [e]) }

  // ----- Sessions -----

  /** A new session and its first refresh token. */
  function IssueSession(env: Env, s: State, a: nat): State {
    var token := Token(a, s.nonce, s.nonce + 1, s.clock + env.sessionTtl);
    var session := Session(a, env.hash(RefreshText(token)), s.clock + env.sessionTtl, false);
    Logged(s.(sessions := s.sessions[s.nonce := session],
              nonce := s.nonce + 2), Signed(token))
  }

  predicate Usable(s: State, a: nat) {
    a in s.accounts && s.accounts[a].active && (s.accounts[a].tourist ==> s.accounts[a].verified)
  }

  function Login(env: Env, s: State, a: nat, password: nat): (State, Option<Error>) {
    if a !in s.accounts || s.accounts[a].password != password then (s, Some(INVALID_CREDENTIALS))
    else if !s.accounts[a].active then (s, Some(ACCOUNT_INACTIVE))
    else if s.accounts[a].tourist && !s.accounts[a].verified then (s, Some(VERIFICATION_REQUIRED))
    else (IssueSession(env, s, a), None)
  }

  /** The signature check: the server signed the token and it has not expired. */
  predicate Genuine(s: State, token: Token) { Signed(token) in s.log && s.clock < token.exp }

  function RefreshError(env: Env, s: State, token: Token): Option<Error> {
    if !Genuine(s, token) then Some(INVALID_TOKEN)
    else if token.sid !in s.sessions then Some(SESSION_INVALID)
    else
      var session := s.sessions[token.sid];
      if session.hash != env.hash(RefreshText(token)) || session.revoked || session.expiresAt <= s.clock
        || session.account != token.sub
      then Some(SESSION_INVALID)
      else if session.account !in s.accounts || !s.accounts[session.account].active then Some(ACCOUNT_INACTIVE)
      else if s.accounts[session.account].tourist && !s.accounts[session.account].verified
      then Some(VERIFICATION_REQUIRED)
      else None
  }

  function Refresh(env: Env, s: State, token: Token): (State, Option<Error>) {
    if RefreshError(env, s, token).Some? then (s, RefreshError(env, s, token))
    else
      var next := Token(s.sessions[token.sid].account, token.sid, s.nonce, s.clock + env.sessionTtl);
      var rotated := s.sessions[token.sid].(hash := env.hash(RefreshText(next)), expiresAt := s.clock + env.sessionTtl);
      (Logged(s.(sessions := s.sessions[token.sid := rotated], nonce := s.nonce + 1), Signed(next)), None)
  }

  function Logout(s: State, token: Token): State {
    if !Genuine(s, token) || token.sid !in s.sessions then s
    else s.(sessions := s.sessions[token.sid := s.sessions[token.sid].(revoked := true)])
  }

  // ----- One-time codes -----

  function WithOtp(s: State, p: Purpose, a: nat, o: Otp): State { s.(otps := s.otps[(p, a) := o]) }

  function WithoutOtp(s: State, p: Purpose, a: nat): State { s.(otps := s.otps - {(p, a)}) }

  /** A code is sent unless the account does not qualify or the last one was sent a moment ago; a failed mail withdraws
   it. */
  function RequestCode(env: Env, s: State, p: Purpose, a: nat, code: nat, mailed: bool): State {
    if a !in s.accounts then s
    else if p == RESET && !s.accounts[a].active then s
    else if p == EMAIL && (!s.accounts[a].tourist || s.accounts[a].verified) then s
    else if (p, a) in s.otps && s.otps[(p, a)].lastSentAt + env.cooldown > s.clock then s
    else
      var o := Otp(env.hash(CodeText(p, a, code)), s.clock + env.ttl, 0, s.clock, None, None, 0);
      var t := Logged(WithOtp(s, p, a, o), Issued(p, a, code, s.clock));
      if mailed then t else WithoutOtp(t, p, a)
  }

  /** The checks both verifications share: the record's lifetime, its attempts, and the code. */
  function CheckCode(env: Env, s: State, p: Purpose, a: nat, code: nat): (r: (State, Option<Error>))
    ensures r.1.None? ==> r.0 == s && (p, a) in s.otps
  {
    if (p, a) !in s.otps then (s, Some(OTP_EXPIRED))
    else
      var o := s.otps[(p, a)];
      if o.expiresAt <= s.clock then (WithoutOtp(s, p, a), Some(OTP_EXPIRED))
      else if o.attempts >= env.maxAttempts then (WithoutOtp(s, p, a), Some(OTP_ATTEMPTS_EXCEEDED))
      else if env.hash(CodeText(p, a, code)) != o.codeHash then
        var t := Logged(s, Wrong(p, a));
        var counted := WithOtp(t, p, a, o.(attempts := o.attempts + 1));
        (if o.attempts + 1 >= env.maxAttempts then WithoutOtp(t, p, a) else counted, Some(OTP_INVALID))
      else (s, None)
  }

  function VerifyEmail(env: Env, s: State, a: nat, code: nat): (State, Option<Error>) {
    if a !in s.accounts || !s.accounts[a].tourist then (s, Some(OTP_INVALID))
    else if s.accounts[a].verified then (s, Some(ALREADY_VERIFIED))
    else
      var (t, e) := CheckCode(env, s, EMAIL, a, code);
      if e.Some? then (t, e)
      else
        var v := WithoutOtp(t.(accounts := t.accounts[a := t.accounts[a].(verified := true)]), EMAIL, a);
        (IssueSession(env, Logged(v, Confirmed(a, code, s.clock)), a), None)
  }

  function VerifyResetCode(env: Env, s: State, a: nat, code: nat): (State, Option<Error>) {
    if a !in s.accounts || !s.accounts[a].active then (s, Some(OTP_INVALID))
    else
      var (t, e) := CheckCode(env, s, RESET, a, code);
      if e.Some? then (t, e)
      else
        var token := t.nonce;
        var o := t.otps[(RESET, a)].(verifiedAt := Some(s.clock), resetHash := Some(env.hash(ResetText(token))),
                                     tokenExpiresAt := s.clock + env.ttl);
        (Logged(WithOtp(t, RESET, a, o).(nonce := t.nonce + 1), Verified(a, code, token, s.clock)), None)
  }

  predicate TokenValid(env: Env, s: State, a: nat, token: nat) {
    && (RESET, a) in s.otps
    && var o := s.otps[(RESET, a)];
       o.verifiedAt.Some? && o.resetHash == Some(env.hash(ResetText(token))) && o.tokenExpiresAt > s.clock
  }

  function RevokeAll(sessions: map<nat, Session>, a: nat): map<nat, Session> {
    map i | i in sessions :: if sessions[i].account == a then sessions[i].(revoked := true) else sessions[i]
  }

  function ResetPassword(env: Env, s: State, a: nat, token: nat, password: nat): (State, Option<Error>) {
    if a !in s.accounts || !s.accounts[a].active || !TokenValid(env, s, a, token) then (s, Some(SESSION_INVALID))
    else
      var t := s.(accounts := s.accounts[a := s.accounts[a].(password := password)],
                  sessions := RevokeAll(s.sessions, a));
      (Logged(WithoutOtp(t, RESET, a), ResetDone(a, token, s.clock)), None)
  }

  // ----- Runs -----

  datatype Step =
    | DoRegister(a: nat, tourist: bool, password: nat)
    | DoSetActive(a: nat, active: bool)
    | DoTick(ms: nat)
    | DoLogin(a: nat, password: nat)
    | DoRefresh(token: Token)
    | DoLogout(token: Token)
    | DoRequestCode(purpose: Purpose, a: nat, code: nat, mailed: bool)
    | DoVerifyEmail(a: nat, code: nat)
    | DoVerifyResetCode(a: nat, code: nat)
    | DoResetPassword(a: nat, resetToken: nat, password: nat)

  function Do(env: Env, s: State, step: Step): State {
    match step
    case DoRegister(a, tourist, password) =>
      if a in s.accounts then s else s.(accounts := s.accounts[a := Account(true, tourist, false, password)])
    case DoSetActive(a, active) =>
      if a in s.accounts then s.(accounts := s.accounts[a := s.accounts[a].(active := active)]) else s
    case DoTick(ms) => s.(clock := s.clock + ms)
    case DoLogin(a, password) => Login(env, s, a, password).0
    case DoRefresh(token) => Refresh(env, s, token).0
    case DoLogout(token) => Logout(s, token)
    case DoRequestCode(p, a, code, mailed) => RequestCode(env, s, p, a, code, mailed)
    case DoVerifyEmail(a, code) => VerifyEmail(env, s, a, code).0
    case DoVerifyResetCode(a, code) => VerifyResetCode(env, s, a, code).0
    case DoResetPassword(a, token, password) => ResetPassword(env, s, a, token, password).0
  }

  function Run(env: Env, s: State, steps: seq<Step>): State
    decreases |steps|
  {
    if steps == [] then s else Run(env, Do(env, s, steps[0]), steps[1..])
  }
}
