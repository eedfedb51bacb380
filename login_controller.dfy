/**
 * backend/src/controllers/login.ts: POST `/login` checks a username and
 * password and, on success, sends the user's public fields with an access
 * token set as a cookie.
 */
module LoginController {
  import opened Wrappers
  import opened Js
  import opened Errors
  import opened Store
  import opened UserUtils
  import opened UserQueries
  import opened AuthUtils
  import opened UserAuth
  import opened AuthMiddleware
  import opened Responses

  const USERNAME_REQUIRED := "Username is required."
  const PASSWORD_REQUIRED := "Password is required."
  /** bcrypt.compare's error for an argument that is not a string. */
  const COMPARE_ARGUMENT_ERROR := "data and hash must be strings"

  /** A request field given as a non-empty string. */
  predicate Given(v: JsValue) {
    v.Str? && v.s != ""
  }

  /** The route handler; `compare` is bcrypt.compare and `body` the parsed request body. */
  function Login(users: Table, compare: (string, string) -> bool, jwt: Jwt, key: Option<string>, body: Obj): (r: Response)
    requires Consistent(users)
    ensures !Truthy(Get(body, "username")) ==> r == Forwarded(BadRequest(USERNAME_REQUIRED))
    ensures Truthy(Get(body, "username")) && !Truthy(Get(body, "password")) ==> r == Forwarded(BadRequest(PASSWORD_REQUIRED))
    ensures r.Sent? <==>
      && Given(Get(body, "username")) && Given(Get(body, "password")) && KeyConfigured(key)
      && exists id :: Matches(users, compare, Get(body, "username").s, Get(body, "password").s, id)
    ensures r.Sent? ==> exists id ::
      && Matches(users, compare, Get(body, "username").s, Get(body, "password").s, id)
      && r == Sent(UserBody(WithoutPassword(users[id])), Some(AccessCookie(jwt.sign(id, key.value))))
    ensures Truthy(Get(body, "username")) && Truthy(Get(body, "password")) && !KeyConfigured(key) ==> r.Forwarded?
    ensures Given(Get(body, "username")) && Given(Get(body, "password"))
            && !(exists id :: Matches(users, compare, Get(body, "username").s, Get(body, "password").s, id)) ==>
      r == Forwarded(Unauthorized(INVALID_CREDENTIALS))
  {
    var username, password := Get(body, "username"), Get(body, "password");
    if !Truthy(username) then Forwarded(BadRequest(USERNAME_REQUIRED))
    else if !Truthy(password) then Forwarded(BadRequest(PASSWORD_REQUIRED))
    // the store rejects a username that is not a string; bcrypt.compare a password that is not one, once a record was found
    else if !username.Str? then Forwarded(Database(InvalidValue("username")))
    else if !password.Str? then
      (if HasUsername(users, username.s) then Forwarded(Other(COMPARE_ARGUMENT_ERROR))
       else Forwarded(Unauthorized(INVALID_CREDENTIALS)))
    else
      match AuthenticateUser(users, compare, username.s, password.s)
      case Failure(e) => Forwarded(e)
      case Success(user) =>
        match SignToken(jwt, key, Get(user, "id").s)
        case Failure(e) => Forwarded(e)
        case Success(token) => Sent(UserBody(user), Some(AccessCookie(token)))
  }

  /**
   * Matching credentials log in, and the cookie the login sets authenticates,
   * through `auth` and `authOptional`, as that user with that user's role.
   */
  lemma LoginCookieAuthenticates(users: Table, compare: (string, string) -> bool, jwt: Jwt, key: Option<string>, body: Obj,
                                 id: string, optional: bool)
    requires Consistent(users) && WellBehaved(jwt) && KeyConfigured(key)
    requires Given(Get(body, "username")) && Given(Get(body, "password"))
    requires Matches(users, compare, Get(body, "username").s, Get(body, "password").s, id)
    ensures var r := Login(users, compare, jwt, key, body);
      && r.Sent? && r.payload == UserBody(WithoutPassword(users[id]))
      && Decide(VerifyToken(jwt, key, Some([("accessToken", Str(r.cookie.value.value))])), userId => IsAdmin(users, userId), optional)
           == SetLocals(id, users[id].isAdmin)
  {
    var r := Login(users, compare, jwt, key, body);
    var username, password := Get(body, "username").s, Get(body, "password").s;
    var other :| Matches(users, compare, username, password, other)
      && r == Sent(UserBody(WithoutPassword(users[other])), Some(AccessCookie(jwt.sign(other, key.value))));
    assert other == id;
    IssuedTokenAuthenticates(jwt, key, users, id, optional);
  }
}
