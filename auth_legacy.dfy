/**
 * The earlier, body-based authentication routes (the single `auth` plugin
 * the server registers). They share the store and its rules with the
 * cookie-based routes but answer with ad-hoc `{ success, error, data }`
 * objects: registration opens no session, sign-in returns both tokens in
 * the body, refresh and logout take the refresh token from the body, and
 * `/me` reads a bearer token.
 */
module AuthLegacy {
  import opened Wrappers
  import opened Crypto
  import opened AuthDb

  function Failure(code: int, error: string): HttpReply {
    HttpReply(code, Legacy(Some(false), Some(error), None), [])
  }

  function Success(code: int, data: AuthData): HttpReply {
    HttpReply(code, Legacy(Some(true), None, Some(data)), [])
  }

  /** `POST /register`: as the cookie-based route for the conflict and the
      new row, but no tokens and no session; the data is the created row's
      profile, with status 201. */
  method Register(db: Store, email: string, username: string, password: string,
                  firstName: Option<string>, lastName: Option<string>, newId: UserId, salt: nat)
    returns (reply: HttpReply)
    requires db.Valid() && newId !in db.users
    modifies db`users
    ensures db.Valid()
    ensures Taken(old(db.users), email, username) ==>
              reply == Failure(409, "Email or username already exists") && db.users == old(db.users)
    ensures !Taken(old(db.users), email, username) ==>
              var u := NewUser(newId, email, username, password, salt, firstName, lastName, db.defaultRole, db.now);
              && db.users == old(db.users)[newId := u]
              && reply == Success(201, ProfilePayload(ProfileOf(u)))
  {
    if exists id :: id in db.users && (db.users[id].email == email || db.users[id].username == username) {
      reply := Failure(409, "Email or username already exists");
      return;
    }
    var u := NewUser(newId, email, username, password, salt, firstName, lastName, db.defaultRole, db.now);
    RegisterKeepsConsistent(db.users, db.sessions, u, password);
    db.users := db.users[newId := u];
    reply := Success(201, ProfilePayload(ProfileOf(u)));
  }

  /** `POST /login` with `usernameOrEmail`: the same lookup, password check
      and session as the cookie-based route, with the same clash on a
      repeated sign-in in one second; the tokens travel in the body. */
  method Login(db: Store, usernameOrEmail: string, password: string) returns (reply: HttpReply, ghost chosen: Option<UserId>)
    requires db.Valid()
    modifies db`users, db`sessions
    ensures db.Valid()
    ensures chosen.None? <==> Candidates(old(db.users), usernameOrEmail) == {}
    ensures chosen.Some? ==> chosen.value in Candidates(old(db.users), usernameOrEmail)
    ensures chosen.None? ==>
              reply == Failure(401, "Invalid credentials") && db.users == old(db.users) && db.sessions == old(db.sessions)
    ensures chosen.Some? ==>
              var u := old(db.users)[chosen.value];
              var refresh := RefreshTokenFor(db.secret, u, db.now);
              if !Compare(password, u.password) then
                reply == Failure(401, "Invalid credentials") && db.users == old(db.users) && db.sessions == old(db.sessions)
              else if refresh in old(db.sessions) then
                reply == ServerError && db.users == old(db.users) && db.sessions == old(db.sessions)
              else
                && db.users == old(db.users)[u.id := Touched(u, db.now)]
                && db.sessions == old(db.sessions)[refresh := NewSession(db.secret, u, db.now)]
                && reply == Success(200, TokensPayload(AccessTokenFor(db.secret, u, db.now), refresh, PublicOf(u)))
  {
    if !exists id :: id in db.users && IsCandidate(db.users[id], usernameOrEmail) {
      chosen := None;
      assert Candidates(db.users, usernameOrEmail) == {};
      reply := Failure(401, "Invalid credentials");
      return;
    }
    var id :| id in db.users && IsCandidate(db.users[id], usernameOrEmail);
    chosen := Some(id);
    assert id in Candidates(db.users, usernameOrEmail);
    var u := db.users[id];
    if !Compare(password, u.password) {
      reply := Failure(401, "Invalid credentials");
      return;
    }

    var access := AccessTokenFor(db.secret, u, db.now);
    var refresh := RefreshTokenFor(db.secret, u, db.now);
    if refresh in db.sessions {
      reply := ServerError;
      return;
    }
    AddSessionKeepsConsistent(db.users, db.sessions, id, db.secret, db.now);
    db.sessions := db.sessions[refresh := NewSession(db.secret, u, db.now)];
    TouchKeepsConsistent(db.users, db.sessions, id, db.now);
    db.users := db.users[id := Touched(u, db.now)];

    reply := Success(200, TokensPayload(access, refresh, PublicOf(u)));
  }

  /** `POST /refresh` with the token in the body: the shared guard chain;
      a granted refresh returns the new access token in the body. */
  method Refresh(db: Store, refreshToken: Token) returns (reply: HttpReply)
    requires db.Valid()
    ensures match RefreshCheck(db.secret, db.users, db.sessions, refreshToken, db.now)
            case Granted(access) => reply == Success(200, AccessPayload(access))
            case Refused(reason) => reply == Failure(401, reason)
  {
    var payload := Verify(db.secret, refreshToken, db.now);
    if payload.None? {
      reply := Failure(401, "Invalid refresh token");
      return;
    }
    if refreshToken !in db.sessions || db.sessions[refreshToken].expiresAt < db.now {
      reply := Failure(401, "Refresh token expired or invalid");
      return;
    }
    var session := db.sessions[refreshToken];
    var access := AccessTokenFor(db.secret, db.users[session.userId], db.now);
    reply := Success(200, AccessPayload(access));
  }

  /** `POST /logout` with the token in the body. The delete is not guarded:
      a token without a session makes it throw, and the reply is a server
      error. */
  method Logout(db: Store, refreshToken: Token) returns (reply: HttpReply)
    requires db.Valid()
    modifies db`sessions
    ensures db.Valid()
    ensures refreshToken in old(db.sessions) ==>
              db.sessions == LoggedOut(old(db.sessions), Some(refreshToken))
              && reply == Success(200, MessagePayload("Logged out successfully"))
    ensures refreshToken !in old(db.sessions) ==> db.sessions == old(db.sessions) && reply == ServerError
  {
    if refreshToken !in db.sessions {
      reply := ServerError;
      return;
    }
    LogoutRevokes(db.users, db.sessions, db.secret, refreshToken, db.now);
    db.sessions := db.sessions - {refreshToken};
    reply := Success(200, MessagePayload("Logged out successfully"));
  }

  /** `GET /me` with `Authorization: Bearer`: a missing or failing token is
      answered with a bare `{ error: "Unauthorized" }`; otherwise the data
      is the subject's profile, or null once the user is gone. */
  method Me(db: Store, bearer: Option<Token>) returns (reply: HttpReply)
    ensures bearer.None? || Verify(db.secret, bearer.value, db.now).None? ==>
              reply == HttpReply(401, Legacy(None, Some("Unauthorized"), None), [])
    ensures bearer.Some? && Verify(db.secret, bearer.value, db.now).Some? ==>
              reply == Success(200, MeData(db.users, Verify(db.secret, bearer.value, db.now).value.sub))
  {
    var decoded := if bearer.Some? then Verify(db.secret, bearer.value, db.now) else None;
    if decoded.None? {
      reply := HttpReply(401, Legacy(None, Some("Unauthorized"), None), []);
      return;
    }
    var sub := decoded.value.sub;
    var user := if sub in db.users then ProfilePayload(ProfileOf(db.users[sub])) else NullPayload;
    reply := Success(200, user);
  }

  /** Unlike the cookie-based route, signing out twice with one token is
      not harmless: the second attempt fails with a server error. */
  method LogoutTwice(db: Store, refreshToken: Token) returns (first: HttpReply, second: HttpReply)
    requires db.Valid() && refreshToken in db.sessions
    modifies db`sessions
    ensures db.Valid()
    ensures first.code == 200 && second == ServerError
    ensures db.sessions == LoggedOut(old(db.sessions), Some(refreshToken))
  {
    first := Logout(db, refreshToken);
    second := Logout(db, refreshToken);
  }

  /** A registration through these routes opens no session: the new user
      has to sign in, and the first sign-in with the chosen password and
      the new email succeeds when no other active user answers to it. */
  method RegisterThenLogin(db: Store, email: string, username: string, password: string, newId: UserId, salt: nat)
    returns (registered: HttpReply, signedIn: HttpReply)
    requires db.Valid() && newId !in db.users && !Taken(db.users, email, username)
    requires forall id :: id in db.users ==> !IsCandidate(db.users[id], email)
    modifies db`users, db`sessions
    ensures db.Valid()
    ensures registered.code == 201 && signedIn.code == 200
  {
    registered := Register(db, email, username, password, None, None, newId, salt);
    ghost var users1 := db.users;
    assert Candidates(users1, email) == {newId};
    ghost var chosen;
    signedIn, chosen := Login(db, email, password);
    FreshUserFreshToken(old(db.users), old(db.sessions), users1[newId], db.secret, db.now);
  }
}
