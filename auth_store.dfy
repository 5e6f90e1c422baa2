/** The signed-in session (frontend/src/store/authStore.ts): three fields
    that `setAuth` and `logout` overwrite. */
module Auth {
  import opened Wrappers
  import opened Permissions

  /** How the backend `POST /auth/logout` call ended. */
  datatype BackendLogout = LoggedOut | Rejected(reason: string)

  class AuthStore {
    var user: Option<User>
    var token: Option<string>
    var isAuthenticated: bool

    /** The session is authenticated exactly when both a user and a token are held. */
    ghost predicate Valid()
      reads this
    {
      isAuthenticated <==> user.Some? && token.Some?
    }

    constructor ()
      ensures user == None && token == None && !isAuthenticated
      ensures Valid()
    {
      user, token, isAuthenticated := None, None, false;
    }

    /** Stores a fresh login, replacing whatever was there. */
    method SetAuth(newUser: User, newToken: string)
      modifies this
      ensures user == Some(newUser) && token == Some(newToken) && isAuthenticated
      ensures Valid()
    {
      user, token, isAuthenticated := Some(newUser), Some(newToken), true;
    }

    /** Calls the backend, logs a failure instead of rethrowing it, and
        clears the session either way. `logged` is what goes to the console. */
    method Logout(backend: BackendLogout) returns (logged: Option<string>)
      modifies this
      ensures user == None && token == None && !isAuthenticated
      ensures Valid()
      ensures logged == if backend.Rejected? then Some(backend.reason) else None
    {
      logged := None;
      if backend.Rejected? {
        logged := Some(backend.reason);
      }
      user, token, isAuthenticated := None, None, false;
    }
  }

  /** A login followed by a logout, whatever the backend answers, leaves the
      store as it started. */
  method LoginLogoutRoundTrip(u: User, t: string, backend: BackendLogout)
    returns (user: Option<User>, token: Option<string>, isAuthenticated: bool)
    ensures user == None && token == None && !isAuthenticated
  {
    var store := new AuthStore();
    store.SetAuth(u, t);
    assert store.isAuthenticated;
    var _ := store.Logout(backend);
    user, token, isAuthenticated := store.user, store.token, store.isAuthenticated;
  }
}
