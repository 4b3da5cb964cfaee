/**
 * The state the authentication routes share: the `User` and `Session`
 * tables, the server's JWT secret and the clock, together with the pure
 * rules both generations of the routes apply to that state (who may sign
 * in, how a refresh token is checked, what signing out removes).
 *
 * Sessions are keyed by their refresh token, as the `refreshToken` column is
 * unique. The clock is one integer count of seconds, read by token signing,
 * token verification and the session expiry alike.
 */
module AuthDb {
  import opened Wrappers
  import opened Crypto
  import opened Envelopes

  type UserId = string

  /** A row of the `User` table. */
  datatype User = User(
    id: UserId,
    email: string,
    username: string,
    password: Digest,
    firstName: Option<string>,
    lastName: Option<string>,
    role: string,
    isActive: bool,
    createdAt: int,
    lastLogin: Option<int>)

  /** A row of the `Session` table. */
  datatype Session = Session(userId: UserId, refreshToken: Token, expiresAt: int)

  /** The user object the routes return: no password, no activity fields. */
  datatype PublicUser = PublicUser(
    id: UserId,
    email: string,
    username: string,
    firstName: Option<string>,
    lastName: Option<string>,
    role: string)

  /** The `select` of registration and `/me`: the public fields and `createdAt`. */
  datatype Profile = Profile(
    id: UserId,
    email: string,
    username: string,
    firstName: Option<string>,
    lastName: Option<string>,
    role: string,
    createdAt: int)

  function PublicOf(u: User): PublicUser {
    PublicUser(u.id, u.email, u.username, u.firstName, u.lastName, u.role)
  }

  function ProfileOf(u: User): Profile {
    Profile(u.id, u.email, u.username, u.firstName, u.lastName, u.role, u.createdAt)
  }

  /** The claims signed into both tokens of a user. */
  function ClaimsOf(u: User): Claims {
    Claims(u.id, u.email, u.username, u.role)
  }

  /** `expiresAt.setDate(expiresAt.getDate() + 7)`, in seconds. */
  const SessionLifetime: nat := 7 * 24 * 60 * 60

  /** What the routes put in a reply's data. */
  datatype AuthData =
    | UserPayload(user: PublicUser)
    | ProfilePayload(profile: Profile)
    | NullPayload
    | EmptyPayload
    | TokensPayload(accessToken: Token, refreshToken: Token, owner: PublicUser)
    | AccessPayload(accessToken: Token)
    | MessagePayload(text: string)

  datatype CookieOp = SetCookie(name: string, value: Token) | ClearCookie(name: string)

  /** A reply body: the response envelope of the split routes, the ad-hoc
      `{ success, error, data }` object of the older routes (an absent key
      is `None`), or the framework's reply to an uncaught error. */
  datatype Body =
    | Enveloped(envelope: ApiResponse<AuthData>)
    | Legacy(success: Option<bool>, error: Option<string>, data: Option<AuthData>)
    | InternalError

  datatype HttpReply = HttpReply(code: int, body: Body, cookies: seq<CookieOp>)

  /** An envelope reply, with the cookies set alongside it. */
  function Sent(r: Reply<AuthData>, cookies: seq<CookieOp>): HttpReply {
    HttpReply(r.code, Enveloped(r.body), cookies)
  }

  /** Prisma's unique-constraint violation, uncaught, becomes status 500. */
  const ServerError := HttpReply(500, InternalError, [])

  // ---------------------------------------------------------------------
  // The store invariant

  predicate KeyedById(users: map<UserId, User>) {
    forall id :: id in users ==> users[id].id == id
  }

  /** The `email` and `username` columns are unique. */
  predicate UniqueLogins(users: map<UserId, User>) {
    forall a, b :: a in users && b in users && a != b ==>
      users[a].email != users[b].email && users[a].username != users[b].username
  }

  /** A stored session belongs to an existing user, is keyed by its own
      refresh token, that token was issued to the session's user, and the
      session expires when the token does. */
  predicate SessionOf(users: map<UserId, User>, t: Token, s: Session) {
    s.refreshToken == t && s.userId in users && t.claims.sub == s.userId && s.expiresAt == t.exp
  }

  predicate SessionsOwned(users: map<UserId, User>, sessions: map<Token, Session>) {
    forall t :: t in sessions ==> sessions[t].userId in users
  }

  predicate Consistent(users: map<UserId, User>, sessions: map<Token, Session>) {
    && KeyedById(users)
    && UniqueLogins(users)
    && SessionsOwned(users, sessions)
    && (forall t :: t in sessions ==> SessionOf(users, t, sessions[t]))
  }

  // ---------------------------------------------------------------------
  // Registration

  /** `findFirst({ where: { OR: [{ email }, { username }] } })` finds a row. */
  predicate Taken(users: map<UserId, User>, email: string, username: string) {
    exists id :: id in users && (users[id].email == email || users[id].username == username)
  }

  /** The row `user.create` inserts: hashed password, the schema's default
      role, active, created now, never signed in. */
  function NewUser(id: UserId, email: string, username: string, password: string, salt: nat,
                   firstName: Option<string>, lastName: Option<string>, role: string, now: int): User
  {
    User(id, email, username, Hash(password, salt), firstName, lastName, role, true, now, None)
  }

  /** Adding a user whose email and username are both unused keeps the
      invariant, and the new user can sign in with the password it chose. */
  lemma RegisterKeepsConsistent(users: map<UserId, User>, sessions: map<Token, Session>, u: User, password: string)
    requires Consistent(users, sessions)
    requires u.id !in users && !Taken(users, u.email, u.username)
    requires u.password == Hash(password, u.password.salt) && u.isActive
    ensures Consistent(users[u.id := u], sessions)
    ensures u.id in Candidates(users[u.id := u], u.email) && u.id in Candidates(users[u.id := u], u.username)
    ensures Compare(password, u.password)
  {
    var users' := users[u.id := u];
    forall a, b | a in users' && b in users' && a != b
      ensures users'[a].email != users'[b].email && users'[a].username != users'[b].username
    {
      if a == u.id {
        assert b in users;
      } else if b == u.id {
        assert a in users;
      }
    }
  }

  /** A user who does not exist yet owns no session, so the refresh token
      signed for it is not a key of the session table. */
  lemma FreshUserFreshToken(users: map<UserId, User>, sessions: map<Token, Session>, u: User, secret: string, now: int)
    requires Consistent(users, sessions) && u.id !in users
    ensures RefreshTokenFor(secret, u, now) !in sessions
  {
    var t := RefreshTokenFor(secret, u, now);
    assert t.claims.sub == u.id;
  }

  // ---------------------------------------------------------------------
  // Signing in

  /** A row `findFirst({ where: { OR: [{ email: ident }, { username: ident }], isActive: true } })`
      may return. */
  predicate IsCandidate(u: User, ident: string) {
    u.isActive && (u.email == ident || u.username == ident)
  }

  function Candidates(users: map<UserId, User>, ident: string): set<UserId> {
    set id | id in users && IsCandidate(users[id], ident)
  }

  function AccessTokenFor(secret: string, u: User, now: int): Token {
    Sign(secret, ClaimsOf(u), now, AccessTtl)
  }

  function RefreshTokenFor(secret: string, u: User, now: int): Token {
    Sign(secret, ClaimsOf(u), now, RefreshTtl)
  }

  /** The session row a successful sign-in stores. */
  function NewSession(secret: string, u: User, now: int): Session {
    Session(u.id, RefreshTokenFor(secret, u, now), now + SessionLifetime)
  }

  /** `user.update({ data: { lastLogin: new Date() } })`. */
  function Touched(u: User, now: int): User {
    u.(lastLogin := Some(now))
  }

  /** An inactive user is never signed in, whatever the identifier; an
      active one is found by its email and by its username. */
  lemma CandidateRules(users: map<UserId, User>, id: UserId, ident: string)
    requires id in users
    ensures !users[id].isActive ==> id !in Candidates(users, ident)
    ensures users[id].isActive ==> (id in Candidates(users, ident) <==> ident in {users[id].email, users[id].username})
  {
  }

  /** Storing the session a sign-in opens for an existing user keeps the
      invariant. */
  lemma AddSessionKeepsConsistent(users: map<UserId, User>, sessions: map<Token, Session>, id: UserId, secret: string, now: int)
    requires Consistent(users, sessions) && id in users
    ensures Consistent(users, sessions[RefreshTokenFor(secret, users[id], now) := NewSession(secret, users[id], now)])
  {
    var t := RefreshTokenFor(secret, users[id], now);
    var sessions' := sessions[t := NewSession(secret, users[id], now)];
    forall k | k in sessions' ensures SessionOf(users, k, sessions'[k]) {
      if k != t {
        assert SessionOf(users, k, sessions[k]);
      }
    }
  }

  /** Stamping a user's last sign-in keeps the invariant and leaves the set
      of users each identifier reaches, and the claims signed for the user,
      unchanged. */
  lemma TouchKeepsConsistent(users: map<UserId, User>, sessions: map<Token, Session>, id: UserId, now: int)
    requires Consistent(users, sessions) && id in users
    ensures Consistent(users[id := Touched(users[id], now)], sessions)
    ensures forall ident :: Candidates(users[id := Touched(users[id], now)], ident) == Candidates(users, ident)
    ensures ClaimsOf(Touched(users[id], now)) == ClaimsOf(users[id])
  {
    var users' := users[id := Touched(users[id], now)];
    forall a, b | a in users' && b in users' && a != b
      ensures users'[a].email != users'[b].email && users'[a].username != users'[b].username
    {
      assert users'[a].email == users[a].email && users'[a].username == users[a].username;
      assert users'[b].email == users[b].email && users'[b].username == users[b].username;
    }
    forall k | k in sessions ensures SessionOf(users', k, sessions[k]) {
      assert SessionOf(users, k, sessions[k]);
    }
  }

  // ---------------------------------------------------------------------
  // Refreshing

  /** Why a refresh is refused, or the access token it issues. */
  datatype Outcome = Granted(access: Token) | Refused(reason: string)

  /** The guard chain of `/refresh`, shared by both generations of the
      route: the token must verify, its session must exist and must not
      have expired (`expiresAt < now` rejects, so a session is still good
      in the second it expires); the new access token carries the claims of
      the session's owner as stored now. */
  function RefreshCheck(secret: string, users: map<UserId, User>, sessions: map<Token, Session>, t: Token, now: int): (r: Outcome)
    requires SessionsOwned(users, sessions)
    ensures r.Granted? <==> Verify(secret, t, now).Some? && t in sessions && now <= sessions[t].expiresAt
    ensures r.Granted? ==>
              Verify(secret, r.access, now) == Some(ClaimsOf(users[sessions[t].userId])) && r.access.exp == now + AccessTtl
    ensures r.Refused? && Verify(secret, t, now).None? ==> r.reason == "Invalid refresh token"
    ensures r.Refused? && Verify(secret, t, now).Some? ==> r.reason == "Refresh token expired or invalid"
  {
    if Verify(secret, t, now).None? then Refused("Invalid refresh token")
    else if t !in sessions || sessions[t].expiresAt < now then Refused("Refresh token expired or invalid")
    else Granted(AccessTokenFor(secret, users[sessions[t].userId], now))
  }

  /** In a consistent store the session's own expiry never decides: a token
      that verifies has not reached its `exp`, which is the session's
      `expiresAt`. An expired session is always refused as an invalid
      token, and a stored token is refreshed exactly while it verifies. */
  lemma SessionExpiryFollowsToken(users: map<UserId, User>, sessions: map<Token, Session>, secret: string, t: Token, now: int)
    requires Consistent(users, sessions) && t in sessions
    ensures RefreshCheck(secret, users, sessions, t, now).Granted? <==> Verify(secret, t, now).Some?
    ensures now > sessions[t].expiresAt ==> RefreshCheck(secret, users, sessions, t, now) == Refused("Invalid refresh token")
  {
    assert SessionOf(users, t, sessions[t]);
  }

  /** Read in isolation, the session check lets a session through in the
      very second it expires. */
  lemma SessionGoodUntilExpiry(users: map<UserId, User>, sessions: map<Token, Session>, secret: string, t: Token, now: int)
    requires SessionsOwned(users, sessions)
    requires Verify(secret, t, now).Some? && t in sessions && sessions[t].expiresAt == now
    ensures RefreshCheck(secret, users, sessions, t, now).Granted?
  {
  }

  /** A refresh token signed now keeps refreshing until its expiry and not
      a second longer. */
  lemma RefreshLifetime(users: map<UserId, User>, sessions: map<Token, Session>, secret: string, id: UserId, issued: int, now: int)
    requires Consistent(users, sessions) && id in users
    requires RefreshTokenFor(secret, users[id], issued) in sessions
    ensures RefreshCheck(secret, users, sessions, RefreshTokenFor(secret, users[id], issued), now).Granted?
        <==> now < issued + SessionLifetime
  {
    VerifySigned(secret, ClaimsOf(users[id]), issued, RefreshTtl, now);
    SessionExpiryFollowsToken(users, sessions, secret, RefreshTokenFor(secret, users[id], issued), now);
  }

  // ---------------------------------------------------------------------
  // Signing out

  /** `session.delete({ where: { refreshToken } })` when a token is given;
      an unknown token deletes nothing. */
  function LoggedOut(sessions: map<Token, Session>, token: Option<Token>): (r: map<Token, Session>)
    ensures forall t :: t in r <==> t in sessions && token != Some(t)
    ensures forall t :: t in r ==> r[t] == sessions[t]
  {
    if token.Some? then sessions - {token.value} else sessions
  }

  /** Signing out twice with the same token is signing out once. */
  lemma LogoutIdempotent(sessions: map<Token, Session>, token: Option<Token>)
    ensures LoggedOut(LoggedOut(sessions, token), token) == LoggedOut(sessions, token)
  {
    var once := LoggedOut(sessions, token);
    assert LoggedOut(once, token).Keys == once.Keys;
  }

  /** Signing out keeps the invariant, and a refresh token that was signed
      out is refused from then on. */
  lemma LogoutRevokes(users: map<UserId, User>, sessions: map<Token, Session>, secret: string, t: Token, now: int)
    requires Consistent(users, sessions)
    ensures Consistent(users, LoggedOut(sessions, Some(t)))
    ensures RefreshCheck(secret, users, LoggedOut(sessions, Some(t)), t, now).Refused?
  {
    var s' := LoggedOut(sessions, Some(t));
    forall k | k in s' ensures SessionOf(users, k, s'[k]) {
      assert SessionOf(users, k, sessions[k]);
    }
  }

  // ---------------------------------------------------------------------
  // The current user

  /** `user.findUnique({ where: { id: sub }, select })`: the profile, or
      `null` once the user is gone. */
  function MeData(users: map<UserId, User>, sub: UserId): (r: AuthData)
    ensures r.ProfilePayload? <==> sub in users
    ensures r.ProfilePayload? ==> r.profile.id == users[sub].id && r.profile.createdAt == users[sub].createdAt
    ensures r.ProfilePayload? ==> r.profile.email == users[sub].email && r.profile.username == users[sub].username
    ensures r.ProfilePayload? ==> r.profile.firstName == users[sub].firstName && r.profile.lastName == users[sub].lastName
    ensures r.ProfilePayload? ==> r.profile.role == users[sub].role
    ensures !r.ProfilePayload? ==> r == NullPayload
  {
    if sub in users then ProfilePayload(ProfileOf(users[sub])) else NullPayload
  }

  // ---------------------------------------------------------------------
  // The database object

  /** The two tables, the secret the JWT plugin signs with, the role the
      schema assigns to new users, and the clock. */
  class Store {
    const secret: string
    const defaultRole: string
    var users: map<UserId, User>
    var sessions: map<Token, Session>
    var now: int

    ghost predicate Valid()
      reads this
    {
      Consistent(users, sessions)
    }

    constructor (secret: string, defaultRole: string, now: int)
      ensures this.secret == secret && this.defaultRole == defaultRole && this.now == now
      ensures users == map[] && sessions == map[]
      ensures Valid()
    {
      this.secret := secret;
      this.defaultRole := defaultRole;
      this.now := now;
      users := map[];
      sessions := map[];
    }

    /** Time passes. */
    method Tick(seconds: nat)
      modifies this`now
      ensures now == old(now) + seconds
    {
      now := now + seconds;
    }
  }
}
