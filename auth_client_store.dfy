/**
 * The browser's record of who is signed in: one `user` cell, persisted by
 * the store library, set after a sign-in or registration and cleared on
 * sign-out.
 */
module AuthClientStore {
  import opened Wrappers

  /** The user as the client keeps it. */
  datatype ClientUser = ClientUser(
    id: string,
    email: string,
    username: string,
    firstName: Option<string>,
    lastName: Option<string>,
    role: string)

  class AuthStore {
    var user: Option<ClientUser>

    constructor ()
      ensures user == None && !IsAuthenticated()
    {
      user := None;
    }

    /** `isAuthenticated`: someone is signed in. */
    predicate IsAuthenticated()
      reads this
    {
      user.Some?
    }

    /** `setUser`; it also accepts `null`. */
    method SetUser(u: Option<ClientUser>)
      modifies this
      ensures user == u
      ensures IsAuthenticated() <==> u.Some?
    {
      user := u;
    }

    method ClearUser()
      modifies this
      ensures user == None && !IsAuthenticated()
    {
      user := None;
    }
  }
}
