/**
 * The admin session table behind `/login`, `/logout` and `is_logged_in`: a
 * dictionary from session id to user name, filled by a successful login and
 * emptied one id at a time by logout. The configured credentials are the
 * table's constants, and the session id a login hands out is a parameter
 * standing for the `uuid4` string.
 */
module Sessions {
  import opened Wrappers

  /** The JSON answer of `/login` and `/logout`, with its HTTP status and the cookie it sets or clears. */
  datatype Cookie = SetSession(id: string) | DeleteSession | NoCookie
  datatype Response = Response(success: bool, status: nat, cookie: Cookie)

  class SessionTable {
    /** `ADMIN_USERNAME` and `ADMIN_PASSWORD`. */
    const adminUsername: string
    const adminPassword: string
    /** The module-level `sessions` dictionary. */
    var sessions: map<string, string>

    /** Every session in the table was opened by a login with the configured user name. */
    predicate Valid()
      reads this
    {
      forall id :: id in sessions ==> sessions[id] == adminUsername
    }

    constructor(adminUsername: string, adminPassword: string)
      ensures this.adminUsername == adminUsername && this.adminPassword == adminPassword
      ensures sessions == map[] && Valid()
    {
      this.adminUsername := adminUsername;
      this.adminPassword := adminPassword;
      sessions := map[];
    }

    /**
     * `is_logged_in`: the request's session cookie, when it has one, is a key
     * of the table; in a valid table that session belongs to the admin.
     */
    predicate IsLoggedIn(cookie: Option<string>): (r: bool)
      reads this
      ensures r <==> exists id :: cookie == Some(id) && id in sessions
      ensures r && Valid() ==> sessions[cookie.value] == adminUsername
    {
      cookie.Some? && cookie.value in sessions
    }

    /**
     * `login`: `username` and `password` are the fields of the JSON body
     * (None when missing) and `freshId` the new session id. Both fields must
     * equal the configured pair; then the id is mapped to the user name and
     * set as the cookie. Any other body is answered with 401 and changes nothing.
     */
    method Login(username: Option<string>, password: Option<string>, freshId: string) returns (r: Response)
      requires Valid()
      modifies this
      ensures Valid()
      ensures r.success <==> username == Some(adminUsername) && password == Some(adminPassword)
      ensures r.success ==> r == Response(true, 200, SetSession(freshId))
      ensures r.success ==> sessions == old(sessions)[freshId := adminUsername] && IsLoggedIn(Some(freshId))
      ensures !r.success ==> r == Response(false, 401, NoCookie) && sessions == old(sessions)
    {
      if username == Some(adminUsername) && password == Some(adminPassword) {
        sessions := sessions[freshId := username.value];
        r := Response(true, 200, SetSession(freshId));
      } else {
        r := Response(false, 401, NoCookie);
      }
    }

    /**
     * `logout`: the cookie's id leaves the table when it is there, and the
     * answer is a success that clears the cookie either way.
     */
    method Logout(cookie: Option<string>) returns (r: Response)
      requires Valid()
      modifies this
      ensures Valid()
      ensures r == Response(true, 200, DeleteSession)
      ensures old(IsLoggedIn(cookie)) ==> sessions == old(sessions) - {cookie.value}
      ensures !old(IsLoggedIn(cookie)) ==> sessions == old(sessions)
      ensures !IsLoggedIn(cookie)
    {
      if cookie.Some? && cookie.value in sessions {
        sessions := sessions - {cookie.value};
      }
      r := Response(true, 200, DeleteSession);
    }
  }

  /**
   * Logging in with the configured pair under an id not yet in use, then
   * logging out with that id as the cookie, leaves the table as it was.
   */
  method LoginThenLogout(t: SessionTable, freshId: string)
    requires t.Valid() && freshId !in t.sessions
    modifies t
    ensures t.Valid() && t.sessions == old(t.sessions)
  {
    var a := t.Login(Some(t.adminUsername), Some(t.adminPassword), freshId);
    assert t.IsLoggedIn(Some(freshId));
    var b := t.Logout(Some(freshId));
    assert t.sessions == old(t.sessions)[freshId := t.adminUsername] - {freshId};
  }

  /** A wrong password is refused, and the caller stays logged out. */
  method WrongPasswordStaysLoggedOut(t: SessionTable, password: string, freshId: string)
    requires t.Valid() && password != t.adminPassword && freshId !in t.sessions
    modifies t
    ensures t.Valid() && t.sessions == old(t.sessions) && !t.IsLoggedIn(Some(freshId))
  {
    var r := t.Login(Some(t.adminUsername), Some(password), freshId);
  }
}
