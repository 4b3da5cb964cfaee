/**
 * The cookie-based authentication routes (`/register`, `/login`,
 * `/refresh`, `/logout`, `/me`): each handler reads the request and the
 * store, answers with a response envelope, and sets or clears the
 * `accessToken` and `refreshToken` cookies.
 *
 * The store assigns a fresh id to a new user and bcrypt draws a salt; both
 * are parameters of `Register`.
 */
module AuthRoutes {
  import opened Wrappers
  import opened Crypto
  import opened Envelopes
  import opened AuthDb

  /** The two cookies a successful registration or sign-in sets. */
  function TokenCookies(access: Token, refresh: Token): seq<CookieOp> {
    [SetCookie("accessToken", access), SetCookie("refreshToken", refresh)]
  }

  /** `POST /register`. An email or username already in use is a conflict
      and changes nothing. Otherwise the user is created, a session is
      opened for its refresh token (which can never clash with a stored
      one: the token names the new user), both cookies are set, and the
      public user is returned with status 201. */
  method Register(db: Store, email: string, username: string, password: string,
                  firstName: Option<string>, lastName: Option<string>, newId: UserId, salt: nat)
    returns (reply: HttpReply)
    requires db.Valid() && newId !in db.users
    modifies db`users, db`sessions
    ensures db.Valid()
    ensures Taken(old(db.users), email, username) ==>
              && reply == Sent(SendConflict(db.now, "Email or username already exists"), [])
              && db.users == old(db.users) && db.sessions == old(db.sessions)
    ensures !Taken(old(db.users), email, username) ==>
              var u := NewUser(newId, email, username, password, salt, firstName, lastName, db.defaultRole, db.now);
              var refresh := RefreshTokenFor(db.secret, u, db.now);
              && db.users == old(db.users)[newId := u]
              && refresh !in old(db.sessions)
              && db.sessions == old(db.sessions)[refresh := NewSession(db.secret, u, db.now)]
              && reply == Sent(SendSuccess(UserPayload(PublicOf(u)), db.now, "User registered successfully", 201),
                               TokenCookies(AccessTokenFor(db.secret, u, db.now), refresh))
  {
    if exists id :: id in db.users && (db.users[id].email == email || db.users[id].username == username) {
      reply := Sent(SendConflict(db.now, "Email or username already exists"), []);
      return;
    }
    var u := NewUser(newId, email, username, password, salt, firstName, lastName, db.defaultRole, db.now);
    FreshUserFreshToken(db.users, db.sessions, u, db.secret, db.now);
    RegisterKeepsConsistent(db.users, db.sessions, u, password);
    db.users := db.users[newId := u];

    var access := AccessTokenFor(db.secret, u, db.now);
    var refresh := RefreshTokenFor(db.secret, u, db.now);
    AddSessionKeepsConsistent(db.users, db.sessions, newId, db.secret, db.now);
    db.sessions := db.sessions[refresh := NewSession(db.secret, u, db.now)];

    reply := Sent(SendSuccess(UserPayload(PublicOf(u)), db.now, "User registered successfully", 201),
                  TokenCookies(access, refresh));
  }

  /** `POST /login`. The identifier is matched against both the email and
      the username of active users; `chosen` is the row the store returned,
      if any. No row, or a wrong password, is "Invalid credentials" and
      changes nothing. Otherwise a session is opened and the last sign-in
      stamped, unless a session with the very same refresh token already
      exists (same user, same second): then the insert fails, nothing
      changes, and the reply is a server error. */
  method Login(db: Store, email: string, password: string) returns (reply: HttpReply, ghost chosen: Option<UserId>)
    requires db.Valid()
    modifies db`users, db`sessions
    ensures db.Valid()
    ensures chosen.None? <==> Candidates(old(db.users), email) == {}
    ensures chosen.Some? ==> chosen.value in Candidates(old(db.users), email)
    ensures chosen.None? ==>
              && reply == Sent(SendUnauthorized(db.now, "Invalid credentials"), [])
              && db.users == old(db.users) && db.sessions == old(db.sessions)
    ensures chosen.Some? ==>
              var u := old(db.users)[chosen.value];
              var refresh := RefreshTokenFor(db.secret, u, db.now);
              if !Compare(password, u.password) then
                && reply == Sent(SendUnauthorized(db.now, "Invalid credentials"), [])
                && db.users == old(db.users) && db.sessions == old(db.sessions)
              else if refresh in old(db.sessions) then
                && reply == ServerError
                && db.users == old(db.users) && db.sessions == old(db.sessions)
              else
                && db.users == old(db.users)[u.id := Touched(u, db.now)]
                && db.sessions == old(db.sessions)[refresh := NewSession(db.secret, u, db.now)]
                && reply == Sent(SendSuccess(UserPayload(PublicOf(u)), db.now, "Login successful"),
                                 TokenCookies(AccessTokenFor(db.secret, u, db.now), refresh))
  {
    if !exists id :: id in db.users && IsCandidate(db.users[id], email) {
      chosen := None;
      assert Candidates(db.users, email) == {};
      reply := Sent(SendUnauthorized(db.now, "Invalid credentials"), []);
      return;
    }
    var id :| id in db.users && IsCandidate(db.users[id], email);
    chosen := Some(id);
    assert id in Candidates(db.users, email);
    var u := db.users[id];
    if !Compare(password, u.password) {
      reply := Sent(SendUnauthorized(db.now, "Invalid credentials"), []);
      return;
    }

    var access := AccessTokenFor(db.secret, u, db.now);
    var refresh := RefreshTokenFor(db.secret, u, db.now);
    if refresh in db.sessions {
      reply := ServerError;
      return;
    }
    AddSessionKeepsConsistent(db.users, db.sessions, id, db.secret, db.now);
    db.sessions := db.sessions[refresh := NewSession(db.secret, u, db.now)];
    TouchKeepsConsistent(db.users, db.sessions, id, db.now);
    db.users := db.users[id := Touched(u, db.now)];

    reply := Sent(SendSuccess(UserPayload(PublicOf(u)), db.now, "Login successful"), TokenCookies(access, refresh));
  }

  /** `POST /refresh`. Without a refresh cookie the request is refused;
      otherwise the guard chain decides, and a granted refresh sets a new
      access cookie and answers with empty data. The store is not changed. */
  method Refresh(db: Store, cookie: Option<Token>) returns (reply: HttpReply)
    requires db.Valid()
    ensures cookie.None? ==> reply == Sent(SendUnauthorized(db.now, "No refresh token provided"), [])
    ensures cookie.Some? ==>
              match RefreshCheck(db.secret, db.users, db.sessions, cookie.value, db.now)
              case Granted(access) =>
                reply == Sent(SendSuccess(EmptyPayload, db.now, "Token refreshed"), [SetCookie("accessToken", access)])
              case Refused(reason) =>
                reply == Sent(SendUnauthorized(db.now, reason), [])
  {
    if cookie.None? {
      reply := Sent(SendUnauthorized(db.now, "No refresh token provided"), []);
      return;
    }
    var refreshToken := cookie.value;
    var payload := Verify(db.secret, refreshToken, db.now);
    if payload.None? {
      reply := Sent(SendUnauthorized(db.now, "Invalid refresh token"), []);
      return;
    }
    if refreshToken !in db.sessions || db.sessions[refreshToken].expiresAt < db.now {
      reply := Sent(SendUnauthorized(db.now, "Refresh token expired or invalid"), []);
      return;
    }
    var session := db.sessions[refreshToken];
    var access := AccessTokenFor(db.secret, db.users[session.userId], db.now);
    reply := Sent(SendSuccess(EmptyPayload, db.now, "Token refreshed"), [SetCookie("accessToken", access)]);
  }

  /** `POST /logout`. The session of the refresh cookie is deleted if there
      is one (a missing session is ignored), both cookies are cleared, and
      the reply is always a success. */
  method Logout(db: Store, cookie: Option<Token>) returns (reply: HttpReply)
    requires db.Valid()
    modifies db`sessions
    ensures db.Valid()
    ensures db.sessions == LoggedOut(old(db.sessions), cookie)
    ensures reply == Sent(SendSuccess(EmptyPayload, db.now, "Logged out successfully"),
                          [ClearCookie("accessToken"), ClearCookie("refreshToken")])
  {
    if cookie.Some? {
      LogoutRevokes(db.users, db.sessions, db.secret, cookie.value, db.now);
      if cookie.value in db.sessions {
        db.sessions := db.sessions - {cookie.value};
      } else {
        assert db.sessions == LoggedOut(db.sessions, cookie);
      }
    }
    reply := Sent(SendSuccess(EmptyPayload, db.now, "Logged out successfully"),
                  [ClearCookie("accessToken"), ClearCookie("refreshToken")]);
  }

  /** `GET /me`. A missing or failing access cookie is refused; otherwise
      the reply carries the profile of the token's subject as stored now,
      or null data once that user is gone. Sessions play no part. */
  method Me(db: Store, cookie: Option<Token>) returns (reply: HttpReply)
    ensures cookie.None? || Verify(db.secret, cookie.value, db.now).None? ==>
              reply == Sent(SendUnauthorized(db.now, "Unauthorized"), [])
    ensures cookie.Some? && Verify(db.secret, cookie.value, db.now).Some? ==>
              reply == Sent(SendSuccess(MeData(db.users, Verify(db.secret, cookie.value, db.now).value.sub), db.now,
                                        "Current user retrieved"), [])
  {
    if cookie.None? {
      reply := Sent(SendUnauthorized(db.now, "Unauthorized"), []);
      return;
    }
    var decoded := Verify(db.secret, cookie.value, db.now);
    if decoded.None? {
      reply := Sent(SendUnauthorized(db.now, "Unauthorized"), []);
      return;
    }
    var sub := decoded.value.sub;
    var user := if sub in db.users then ProfilePayload(ProfileOf(db.users[sub])) else NullPayload;
    reply := Sent(SendSuccess(user, db.now, "Current user retrieved"), []);
  }

  // ---------------------------------------------------------------------
  // Sequences of requests

  /** After signing out, the same refresh cookie no longer refreshes. */
  method LogoutThenRefresh(db: Store, refresh: Token) returns (out: HttpReply, again: HttpReply)
    requires db.Valid()
    modifies db`sessions
    ensures db.Valid()
    ensures out.code == 200
    ensures again.code == 401 && refresh !in db.sessions
  {
    out := Logout(db, Some(refresh));
    again := Refresh(db, Some(refresh));
    LogoutRevokes(db.users, old(db.sessions), db.secret, refresh, db.now);
  }

  /** Signing out twice leaves the store as signing out once, and both
      replies are successes. */
  method LogoutTwice(db: Store, cookie: Option<Token>) returns (first: HttpReply, second: HttpReply)
    requires db.Valid()
    modifies db`sessions
    ensures db.Valid()
    ensures db.sessions == LoggedOut(old(db.sessions), cookie)
    ensures first == second && first.code == 200
  {
    first := Logout(db, cookie);
    second := Logout(db, cookie);
    LogoutIdempotent(old(db.sessions), cookie);
  }

  /** Signing out does not end the access token: `/me` keeps answering
      with the profile until the token expires. */
  method MeAfterLogout(db: Store, access: Token, refresh: Token) returns (r: HttpReply)
    requires db.Valid()
    requires Verify(db.secret, access, db.now).Some? && access.claims.sub in db.users
    modifies db`sessions
    ensures db.Valid()
    ensures r.code == 200
    ensures r == Sent(SendSuccess(ProfilePayload(ProfileOf(db.users[access.claims.sub])), db.now,
                                  "Current user retrieved"), [])
  {
    var out := Logout(db, Some(refresh));
    r := Me(db, Some(access));
  }

  /** Two sign-ins of an account in the same second: the first opens a
      session, and the second signs the same refresh token again, so its
      insert clashes and it fails with a server error. */
  method LoginTwiceInOneSecond(db: Store, ident: string, password: string, ghost owner: UserId)
    returns (first: HttpReply, second: HttpReply)
    requires db.Valid()
    requires Candidates(db.users, ident) == {owner}
    modifies db`users, db`sessions
    ensures db.Valid()
    ensures first.code == 200 ==> second == ServerError
  {
    ghost var users0 := db.users;
    ghost var c1, c2;
    first, c1 := Login(db, ident, password);
    if first.code == 200 {
      var id := c1.value;
      TouchKeepsConsistent(users0, old(db.sessions), id, db.now);
      assert Candidates(db.users, ident) == Candidates(users0, ident);
      second, c2 := Login(db, ident, password);
    } else {
      second, c2 := Login(db, ident, password);
    }
  }
}
