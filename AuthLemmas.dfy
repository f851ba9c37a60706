/**
 * Properties of the AuthService operations: what each one stores, rejects and leaves
 * alone, how they combine (login then refresh, two logins, logout then refresh), and an
 * invariant of the session store kept by every sequence of operations.
 */
module AuthLemmas {
  import opened Wrappers
  import opened Jwt
  import opened SessionStore
  import opened Auth

  /** Distinct names give distinct session keys: the prefix cannot make two keys collide. */
  lemma {:induction false} SessionKeyInjective(a: string, b: string)
    ensures SessionKey(a) == SessionKey(b) <==> a == b
  {
    if SessionKey(a) == SessionKey(b) {
      assert a == SessionKey(a)[|SESSION_KEY_PREFIX|..];
      assert b == SessionKey(b)[|SESSION_KEY_PREFIX|..];
    }
  }

  // ---------------------------------------------------------------- signup

  /** A taken username is refused and nothing changes. */
  lemma SignupRejectsDuplicate(s: State, enc: PasswordEncoder, req: SignupRequest)
    requires req.username in s.users
    ensures SignupStep(s, enc, req) == (s, Err(DuplicateUsername))
  {
  }

  /**
   * A fresh username is added with the encoded password, the requested email, no OAuth
   * provider and the requested roles, or exactly {"ROLE_USER"} when none are requested;
   * no other account and no session changes.
   */
  lemma SignupStoresUser(s: State, enc: PasswordEncoder, req: SignupRequest)
    requires req.username !in s.users
    ensures SignupStep(s, enc, req).1 == Ok(())
    ensures var s' := SignupStep(s, enc, req).0;
      s'.sessions == s.sessions &&
      s'.users.Keys == s.users.Keys + {req.username} &&
      (forall n :: n in s.users ==> s'.users[n] == s.users[n]) &&
      s'.users[req.username].password == enc.encode(req.password) &&
      s'.users[req.username].email == req.email &&
      s'.users[req.username].oauthProvider == None &&
      (req.roles.Some? && req.roles.value != {} ==> s'.users[req.username].roles == req.roles.value) &&
      (req.roles.None? || req.roles.value == {} ==> s'.users[req.username].roles == {"ROLE_USER"})
  {
  }

  // ---------------------------------------------------------------- login

  /** A login that fails leaves both the directory and the store as they were. */
  lemma LoginFailureChangesNothing(s: State, enc: PasswordEncoder, req: LoginRequest, now: int)
    ensures var (s', r) := LoginStep(s, enc, req, now);
      (req.username !in s.users ==> r == Err(UserNotFound)) &&
      (req.username in s.users && !enc.matches(req.password, s.users[req.username].password) ==>
        r == Err(PasswordMismatch)) &&
      (r.Err? ==> s' == s)
  {
  }

  /**
   * A successful login returns the access and refresh tokens it generated, stores exactly
   * that refresh token under the user's key with the refresh lifetime, and changes no other
   * key and no account.
   */
  lemma LoginStoresRefreshToken(s: State, enc: PasswordEncoder, req: LoginRequest, now: int, at: int)
    requires req.username in s.users && enc.matches(req.password, s.users[req.username].password)
    ensures var (s', r) := LoginStep(s, enc, req, now);
      r == Ok(TokenResponse(GenerateAccessToken(req.username, s.users[req.username].roles, now),
                            GenerateRefreshToken(req.username, now))) &&
      s'.users == s.users &&
      s'.sessions[SessionKey(req.username)] == Entry(r.value.refreshToken, now + RefreshTokenExpiration()) &&
      (forall k :: k != SessionKey(req.username) ==> Get(s'.sessions, k, at) == Get(s.sessions, k, at)) &&
      (Get(s'.sessions, SessionKey(req.username), at).Some? <==> at <= now + 604800000)
  {
  }

  /** With the right password the account created by `signup` logs in. */
  lemma SignupThenLogin(s: State, enc: PasswordEncoder, req: SignupRequest, now: int)
    requires EncoderSound(enc)
    requires req.username !in s.users
    ensures LoginStep(SignupStep(s, enc, req).0, enc, LoginRequest(req.username, req.password), now).1.Ok?
  {
  }

  // ---------------------------------------------------------------- refresh

  /**
   * A refresh succeeds exactly when the presented token is authentic, unexpired at both
   * clock readings, is the live token stored under its subject's key, and the subject still
   * has an account; the new access token is for that subject with its current roles.
   */
  lemma RefreshSucceedsExactly(s: State, token: Token, now: int, later: int)
    ensures var r := RefreshStep(s, token, now, later);
      (r.Ok? <==>
        token.authentic && now <= token.exp && later <= token.exp &&
        Get(s.sessions, SessionKey(token.sub), now) == Some(token) &&
        token.sub in s.users) &&
      (r.Ok? ==> r.value == GenerateAccessToken(token.sub, s.users[token.sub].roles, later))
  {
  }

  /**
   * The checks run in order. A token that does not parse is rejected with the parser's
   * error before the store is read, so the outcome does not depend on the state at all;
   * then a missing record, then another stored token, then failed validation, then a
   * missing account.
   */
  lemma RefreshRejectionOrder(s: State, s2: State, token: Token, now: int, later: int)
    ensures ExtractUsername(token, now).Err? ==>
      RefreshStep(s, token, now, later) == RefreshStep(s2, token, now, later) == Err(TokenRejected(ExtractUsername(token, now).error))
    ensures ExtractUsername(token, now).Ok? && !Live(s.sessions, SessionKey(token.sub), now) ==>
      RefreshStep(s, token, now, later) == Err(SessionAbsent)
    ensures ExtractUsername(token, now).Ok? && Live(s.sessions, SessionKey(token.sub), now) &&
            s.sessions[SessionKey(token.sub)].value != token ==>
      RefreshStep(s, token, now, later) == Err(SessionMismatch)
    ensures ExtractUsername(token, now).Ok? && Get(s.sessions, SessionKey(token.sub), now) == Some(token) &&
            !ValidateToken(token, later) ==>
      RefreshStep(s, token, now, later) == Err(SessionInvalid)
    ensures ValidateToken(token, now) && ValidateToken(token, later) &&
            Get(s.sessions, SessionKey(token.sub), now) == Some(token) && token.sub !in s.users ==>
      RefreshStep(s, token, now, later) == Err(RefreshUserNotFound)
  {
  }

  /** With a single clock reading the "invalid" rejection cannot happen: both checks use one parser. */
  lemma RefreshInvalidNeedsClockAdvance(s: State, token: Token, now: int)
    ensures RefreshStep(s, token, now, now) != Err(SessionInvalid)
  {
  }

  /** The refresh token a login returns can be exchanged right away, for the same subject. */
  lemma LoginThenRefresh(s: State, enc: PasswordEncoder, req: LoginRequest, issued: int, now: int, later: int)
    requires LoginStep(s, enc, req, issued).1.Ok?
    requires issued <= now && now <= later && later <= issued + 604800000
    ensures var (s', r) := LoginStep(s, enc, req, issued);
      RefreshStep(s', r.value.refreshToken, now, later) ==
        Ok(GenerateAccessToken(req.username, s.users[req.username].roles, later))
  {
  }

  /**
   * Two logins for one username issuing different refresh tokens: only the second one is
   * accepted afterwards; the first is rejected as a mismatch.
   */
  lemma SupersededTokenRejected(s: State, enc: PasswordEncoder, req: LoginRequest, t1: int, t2: int, now: int, later: int)
    requires LoginStep(s, enc, req, t1).1.Ok?
    requires t1 <= t2 <= now <= later && now <= t1 + 604800000 && later <= t2 + 604800000
    ensures var (s1, r1) := LoginStep(s, enc, req, t1);
      var (s2, r2) := LoginStep(s1, enc, req, t2);
      r2.Ok? &&
      (r1.value.refreshToken != r2.value.refreshToken ==>
        RefreshStep(s2, r1.value.refreshToken, now, later) == Err(SessionMismatch)) &&
      RefreshStep(s2, r2.value.refreshToken, now, later).Ok?
  {
  }

  // ---------------------------------------------------------------- logout

  /**
   * Logout looks the identifier up as a username first and as an email only when that
   * fails; when neither resolves it fails and deletes nothing; otherwise it deletes exactly
   * the user's session key (the email key for an OAuth identity) and succeeds whether or
   * not a record existed.
   */
  lemma LogoutDeletesSessionKey(s: State, identifier: string, now: int)
    ensures var (s', r) := LogoutStep(s, identifier, now);
      s'.users == s.users &&
      (identifier in s.users ==>
        r == Ok(()) && s'.sessions == s.sessions - {UserSessionKey(identifier, s.users[identifier])}) &&
      (identifier !in s.users && FindByEmail(s.users, identifier).Match? ==>
        var n := FindByEmail(s.users, identifier).username;
        r == Ok(()) && s'.sessions == s.sessions - {UserSessionKey(n, s.users[n])}) &&
      (identifier !in s.users && FindByEmail(s.users, identifier).Ambiguous? ==>
        r == Err(AmbiguousEmail) && s' == s) &&
      (identifier !in s.users && (forall n :: n in s.users ==> s.users[n].email != Some(identifier)) ==>
        r == Err(LogoutUserNotFound) && s' == s) &&
      (r.Err? ==> s' == s) &&
      (r.Ok? ==> exists n :: n in s.users && s'.sessions == s.sessions - {UserSessionKey(n, s.users[n])})
  {
  }

  /** The key logout deletes: `"refresh_token:" + email` for an OAuth identity, else `"refresh_token:" + username`. */
  lemma UserSessionKeyRule(username: string, user: User)
    ensures user.oauthProvider.None? ==> UserSessionKey(username, user) == "refresh_token:" + username
    ensures user.oauthProvider.Some? && user.email.Some? ==> UserSessionKey(username, user) == "refresh_token:" + user.email.value
    ensures user.oauthProvider.Some? && user.email.None? ==> UserSessionKey(username, user) == "refresh_token:null"
  {
  }

  /**
   * After a user without an OAuth provider logs out, by username or by email, any token for
   * them is refused as absent.
   */
  lemma LogoutThenRefreshAbsent(s: State, identifier: string, username: string, t: int, token: Token, now: int, later: int)
    requires ResolveIdentifier(s.users, identifier) == Match(username)
    requires s.users[username].oauthProvider.None?
    requires ExtractUsername(token, now) == Ok(username)
    ensures RefreshStep(LogoutStep(s, identifier, t).0, token, now, later) == Err(SessionAbsent)
  {
  }

  /**
   * The asymmetry between login and logout: login always writes the username key, but
   * logout of an OAuth identity deletes the email key, so a username session of such an
   * identity (whose email differs from its username) survives the logout.
   */
  lemma {:induction false} OAuthLogoutKeepsUsernameSession(s: State, username: string, t: int, at: int)
    requires username in s.users && s.users[username].oauthProvider.Some?
    requires JavaString(s.users[username].email) != username
    ensures Get(LogoutStep(s, username, t).0.sessions, SessionKey(username), at) ==
            Get(s.sessions, SessionKey(username), at)
  {
    SessionKeyInjective(JavaString(s.users[username].email), username);
  }

  // ---------------------------------------------------------------- sequences of operations

  /** One request to the service. */
  datatype Op =
    | SignupOp(signup: SignupRequest)
    | LoginOp(login: LoginRequest, loginNow: int)
    | RefreshOp(token: Token, refreshNow: int, refreshLater: int)
    | LogoutOp(identifier: string, logoutNow: int)

  ghost function Apply(s: State, enc: PasswordEncoder, op: Op): State
  {
    match op
    case SignupOp(req) => SignupStep(s, enc, req).0
    case LoginOp(req, now) => LoginStep(s, enc, req, now).0
    case RefreshOp(_, _, _) => s
    case LogoutOp(identifier, now) => LogoutStep(s, identifier, now).0
  }

  ghost function Run(s: State, enc: PasswordEncoder, ops: seq<Op>): State
    decreases |ops|
  {
    if ops == [] then s else Run(Apply(s, enc, ops[0]), enc, ops[1..])
  }

  /**
   * Every record under the session key of a username is the refresh token issued to that
   * user, stored with the token's own expiry as its TTL.
   */
  ghost predicate SessionsConsistent(s: State)
  {
    forall u :: SessionKey(u) in s.sessions ==>
      s.sessions[SessionKey(u)] ==
        Entry(GenerateRefreshToken(u, s.sessions[SessionKey(u)].expiresAt - RefreshTokenExpiration()),
              s.sessions[SessionKey(u)].expiresAt)
  }

  lemma {:induction false} ApplyPreservesConsistency(s: State, enc: PasswordEncoder, op: Op)
    requires SessionsConsistent(s)
    ensures SessionsConsistent(Apply(s, enc, op))
  {
    match op
    case SignupOp(req) =>
    case RefreshOp(_, _, _) =>
    case LogoutOp(identifier, now) =>
    case LoginOp(req, now) =>
      var s' := Apply(s, enc, op);
      forall u | SessionKey(u) in s'.sessions
        ensures s'.sessions[SessionKey(u)] ==
          Entry(GenerateRefreshToken(u, s'.sessions[SessionKey(u)].expiresAt - RefreshTokenExpiration()),
                s'.sessions[SessionKey(u)].expiresAt)
      {
        SessionKeyInjective(u, req.username);
      }
  }

  /** The invariant holds after any sequence of requests. */
  lemma {:induction false} RunPreservesConsistency(s: State, enc: PasswordEncoder, ops: seq<Op>)
    requires SessionsConsistent(s)
    ensures SessionsConsistent(Run(s, enc, ops))
    decreases |ops|
  {
    if ops != [] {
      ApplyPreservesConsistency(s, enc, ops[0]);
      RunPreservesConsistency(Apply(s, enc, ops[0]), enc, ops[1..]);
    }
  }

  /** An access token is never accepted as a refresh token: the stored ones carry no roles claim. */
  lemma AccessTokenNeverRefreshes(s: State, username: string, roles: set<string>, issued: int, now: int, later: int)
    requires SessionsConsistent(s)
    ensures RefreshStep(s, GenerateAccessToken(username, roles, issued), now, later).Err?
  {
  }

  /**
   * In a consistent state the live token stored for a user with an account is always
   * accepted while it lives: whatever the service stores, it can exchange.
   */
  lemma StoredTokenRefreshes(s: State, username: string, now: int, later: int)
    requires SessionsConsistent(s)
    requires Live(s.sessions, SessionKey(username), now) && username in s.users
    requires now <= later <= s.sessions[SessionKey(username)].expiresAt
    ensures RefreshStep(s, s.sessions[SessionKey(username)].value, now, later) ==
            Ok(GenerateAccessToken(username, s.users[username].roles, later))
  {
  }

  /**
   * After any sequence of requests from a consistent state, a token accepted by refresh is
   * a refresh token issued to its subject (by a login, or already in the initial state),
   * and it is the token still stored under its subject's key.
   */
  lemma AcceptedTokensWereIssued(s: State, enc: PasswordEncoder, ops: seq<Op>, token: Token, now: int, later: int)
    requires SessionsConsistent(s)
    requires RefreshStep(Run(s, enc, ops), token, now, later).Ok?
    ensures exists issued :: token == GenerateRefreshToken(token.sub, issued)
    ensures Get(Run(s, enc, ops).sessions, SessionKey(token.sub), now) == Some(token)
  {
    RunPreservesConsistency(s, enc, ops);
    var s' := Run(s, enc, ops);
    var e := s'.sessions[SessionKey(token.sub)];
    assert token == GenerateRefreshToken(token.sub, e.expiresAt - RefreshTokenExpiration());
  }
}
