/**
 * AuthService: sign-up, login, refresh and logout over two collaborators that it changes in
 * place, the user directory (`UserRepository`, keyed by username) and the session store
 * (Redis), holding at most one refresh token per session key `"refresh_token:" + name`.
 *
 * Each operation is given twice: as a ghost step function from the old state to the new
 * state and the outcome (the specification), and as a method of the class `AuthService`
 * that changes its fields step by step as the service does and is proved to agree with it.
 * Thrown exceptions are `Err` outcomes; clock readings are parameters.
 */
module Auth {
  import opened Wrappers
  import opened Jwt
  import opened SessionStore

  /** The role a new account gets when the request names none. */
  const DEFAULT_ROLE: string := "ROLE_USER"

  const SESSION_KEY_PREFIX: string := "refresh_token:"

  /** The fields of the `User` entity that the service reads. `None` is Java's null. */
  datatype User = User(password: string, email: Option<string>, roles: set<string>, oauthProvider: Option<string>)

  /** The request DTOs and the response pair of the service. */
  datatype SignupRequest = SignupRequest(username: string, password: string, email: Option<string>, roles: Option<set<string>>)
  datatype LoginRequest = LoginRequest(username: string, password: string)
  datatype TokenResponse = TokenResponse(accessToken: Token, refreshToken: Token)

  /** The injected `PasswordEncoder`: a one-way encoding and the check that goes with it. */
  datatype PasswordEncoder = PasswordEncoder(encode: string -> string, matches: (string, string) -> bool)

  /** What any sound encoder promises: a password matches its own encoding. */
  ghost predicate EncoderSound(enc: PasswordEncoder)
  {
    forall p :: enc.matches(p, enc.encode(p))
  }

  /**
   * Every way an operation ends other than normally. The comment on each gives the
   * exception the service throws.
   */
  datatype AuthError =
    | DuplicateUsername              // RuntimeException in signup
    | UserNotFound                   // RuntimeException in login
    | PasswordMismatch               // RuntimeException in login
    | TokenRejected(cause: JwtError) // JwtException from extractUsername in refreshToken
    | SessionAbsent                  // UNAUTHORIZED: no stored refresh token, or it expired
    | SessionMismatch                // UNAUTHORIZED: the stored refresh token is another one
    | SessionInvalid                 // UNAUTHORIZED: validateToken answered false
    | RefreshUserNotFound            // NOT_FOUND in refreshToken
    | LogoutUserNotFound             // RuntimeException in logout
    | AmbiguousEmail                 // IncorrectResultSizeDataAccessException from findByEmail

  /** The two collaborators' contents. */
  datatype State = State(users: map<string, User>, sessions: Store)

  /** Java's rendering of a possibly null string in a concatenation. */
  function JavaString(s: Option<string>): string
  {
    match s
    case Some(v) => v
    case None => "null"
  }

  /** The session store key `"refresh_token:" + name`. */
  function SessionKey(name: string): string
  {
    SESSION_KEY_PREFIX + name
  }

  /** The outcome of a single-result query `findByEmail`. */
  datatype EmailLookup = NoMatch | Match(username: string) | Ambiguous

  /** `findByEmail`: no user, the one user, or more than one user with that email. */
  ghost function FindByEmail(users: map<string, User>, email: string): (r: EmailLookup)
    ensures r.Match? ==> r.username in users && users[r.username].email == Some(email)
    ensures r.Match? ==> forall n :: n in users && users[n].email == Some(email) ==> n == r.username
    ensures r.NoMatch? <==> forall n :: n in users ==> users[n].email != Some(email)
    ensures r.Ambiguous? <==>
      exists a, b :: a in users && b in users && a != b && users[a].email == Some(email) && users[b].email == Some(email)
  {
    var matching := set n | n in users && users[n].email == Some(email);
    if matching == {} then
      assert forall n :: n in users ==> n in matching || users[n].email != Some(email);
      NoMatch
    else
      var n :| n in matching;
      if matching == {n} then
        assert forall n' :: n' in users && users[n'].email == Some(email) ==> n' in matching;
        Match(n)
      else
        var m :| m in matching && m != n;
        Ambiguous
  }

  /** The session key of a user: the email for an identity from a social login, else the username. */
  function UserSessionKey(username: string, user: User): string
  {
    if user.oauthProvider.Some? then SessionKey(JavaString(user.email)) else SessionKey(username)
  }

  /** The roles a new account gets: the requested ones, or the default role when none are given. */
  function SignupRoles(requested: Option<set<string>>): set<string>
  {
    var roles := match requested case Some(rs) => rs case None => {};
    if roles == {} then {DEFAULT_ROLE} else roles
  }

  /** `signup`. */
  ghost function SignupStep(s: State, enc: PasswordEncoder, req: SignupRequest): (State, Result<(), AuthError>)
  {
    if req.username in s.users then (s, Err(DuplicateUsername))
    else
      var user := User(enc.encode(req.password), req.email, SignupRoles(req.roles), None);
      (s.(users := s.users[req.username := user]), Ok(()))
  }

  /** `login` at clock reading `now`. */
  ghost function LoginStep(s: State, enc: PasswordEncoder, req: LoginRequest, now: int): (State, Result<TokenResponse, AuthError>)
  {
    if req.username !in s.users then (s, Err(UserNotFound))
    else
      var user := s.users[req.username];
      if !enc.matches(req.password, user.password) then (s, Err(PasswordMismatch))
      else
        var refresh := GenerateRefreshToken(req.username, now);
        var sessions := Set(s.sessions, SessionKey(req.username), refresh, RefreshTokenExpiration(), now);
        (s.(sessions := sessions),
         Ok(TokenResponse(GenerateAccessToken(req.username, user.roles, now), refresh)))
  }

  /**
   * `refreshToken`: `now` is the clock when the token is parsed and the store is read,
   * `later` the clock when the token is validated again and the access token issued.
   * It changes nothing.
   */
  ghost function RefreshStep(s: State, token: Token, now: int, later: int): Result<Token, AuthError>
  {
    match ExtractUsername(token, now)
    case Err(e) => Err(TokenRejected(e))
    case Ok(username) =>
      var stored := Get(s.sessions, SessionKey(username), now);
      if stored.None? then Err(SessionAbsent)
      else if stored.value != token then Err(SessionMismatch)
      else if !ValidateToken(token, later) then Err(SessionInvalid)
      else if username !in s.users then Err(RefreshUserNotFound)
      else Ok(GenerateAccessToken(username, s.users[username].roles, later))
  }

  /** Whom `logout` acts on: the identifier as a username first, then as an email. */
  ghost function ResolveIdentifier(users: map<string, User>, identifier: string): (r: EmailLookup)
    ensures r.Match? ==> r.username in users
    ensures identifier in users ==> r == Match(identifier)
    ensures identifier !in users ==> r == FindByEmail(users, identifier)
  {
    if identifier in users then Match(identifier) else FindByEmail(users, identifier)
  }

  /** `logout` at clock reading `now`. */
  ghost function LogoutStep(s: State, identifier: string, now: int): (State, Result<(), AuthError>)
  {
    match ResolveIdentifier(s.users, identifier)
    case NoMatch => (s, Err(LogoutUserNotFound))
    case Ambiguous => (s, Err(AmbiguousEmail))
    case Match(username) =>
      var key := UserSessionKey(username, s.users[username]);
      (s.(sessions := Delete(s.sessions, key, now).0), Ok(()))
  }

  class AuthService {
    const encoder: PasswordEncoder
    var users: map<string, User>
    var sessions: Store

    /** The collaborators' contents as a value. */
    ghost function Snapshot(): State
      reads this
    {
      State(users, sessions)
    }

    constructor (encoder: PasswordEncoder, users: map<string, User>, sessions: Store)
      ensures this.encoder == encoder
      ensures Snapshot() == State(users, sessions)
    {
      this.encoder := encoder;
      this.users := users;
      this.sessions := sessions;
    }

    method Signup(req: SignupRequest) returns (result: Result<(), AuthError>)
      modifies this
      ensures (Snapshot(), result) == SignupStep(old(Snapshot()), encoder, req)
    {
      if req.username in users {
        return Err(DuplicateUsername);
      }
      var roles: set<string> := if req.roles.Some? then req.roles.value else {};
      if roles == {} {
        roles := {DEFAULT_ROLE};
      }
      var user := User(encoder.encode(req.password), req.email, roles, None);
      users := users[req.username := user];
      return Ok(());
    }

    method Login(req: LoginRequest, now: int) returns (result: Result<TokenResponse, AuthError>)
      modifies this
      ensures (Snapshot(), result) == LoginStep(old(Snapshot()), encoder, req, now)
    {
      if req.username !in users {
        return Err(UserNotFound);
      }
      var user := users[req.username];
      if !encoder.matches(req.password, user.password) {
        return Err(PasswordMismatch);
      }
      var accessToken := GenerateAccessToken(req.username, user.roles, now);
      var refreshToken := GenerateRefreshToken(req.username, now);
      var key := SessionKey(req.username);
      var (afterDelete, _) := Delete(sessions, key, now);
      sessions := afterDelete;
      sessions := Set(sessions, key, refreshToken, RefreshTokenExpiration(), now);
      assert sessions == Set(old(sessions), key, refreshToken, RefreshTokenExpiration(), now);
      return Ok(TokenResponse(accessToken, refreshToken));
    }

    /** Reads the directory and the store and changes neither: the refresh token is not rotated. */
    method RefreshToken(token: Token, now: int, later: int) returns (result: Result<Token, AuthError>)
      ensures result == RefreshStep(Snapshot(), token, now, later)
    {
      var name := ExtractUsername(token, now);
      if name.Err? {
        return Err(TokenRejected(name.error));
      }
      var username := name.value;
      var stored := Get(sessions, SessionKey(username), now);
      if stored.None? {
        return Err(SessionAbsent);
      }
      if stored.value != token {
        return Err(SessionMismatch);
      }
      if !ValidateToken(token, later) {
        return Err(SessionInvalid);
      }
      if username !in users {
        return Err(RefreshUserNotFound);
      }
      return Ok(GenerateAccessToken(username, users[username].roles, later));
    }

    method Logout(identifier: string, now: int) returns (result: Result<(), AuthError>)
      modifies this
      ensures (Snapshot(), result) == LogoutStep(old(Snapshot()), identifier, now)
    {
      var username: string;
      if identifier in users {
        username := identifier;
      } else {
        var matching := set n | n in users && users[n].email == Some(identifier);
        if matching == {} {
          return Err(LogoutUserNotFound);
        }
        var n :| n in matching;
        if matching != {n} {
          return Err(AmbiguousEmail);
        }
        username := n;
      }
      var user := users[username];
      var key := UserSessionKey(username, user);
      var (afterDelete, _) := Delete(sessions, key, now);
      sessions := afterDelete;
      return Ok(());
    }
  }
}
