/**
 * backend/src/controllers/users.ts: the user routes. Reading one user is open
 * to anyone; deleting or updating a user is for that user or an admin, and
 * only an admin may set `isAdmin`.
 */
module UsersController {
  import opened Wrappers
  import opened Js
  import opened Errors
  import opened Store
  import opened UserUtils
  import opened UserQueries
  import opened AuthUtils
  import opened UserMutations
  import opened AuthMiddleware
  import opened Responses
  import Bcrypt

  const USERNAME_MISSING := "Username is missing."
  const PASSWORD_MISSING := "Password is missing."

  /** The self-or-admin guard: `if (userId !== id && !isAdmin)` rejects. */
  function MayActOn(userId: Option<string>, isAdmin: Option<bool>, id: string): (ok: bool)
    ensures ok <==> userId == Some(id) || isAdmin == Some(true)
  {
    !(userId != Some(id) && isAdmin != Some(true))
  }

  /** The escalation guard: `if (data.isAdmin && !isAdmin)` rejects, whoever the target is. */
  function Escalates(data: Obj, isAdmin: Option<bool>): (bad: bool)
    ensures bad <==> isAdmin != Some(true) && Get(data, "isAdmin") !in {Undefined, Null, Bool(false), Num(0), Str("")}
  {
    Truthy(Get(data, "isAdmin")) && !(isAdmin == Some(true))
  }

  /** Neither guard lets a non-admin touch another user, nor grant `isAdmin` to anyone, their own record included. */
  lemma NonAdminLimits(userId: Option<string>, id: string, data: Obj)
    ensures userId != Some(id) ==> !MayActOn(userId, Some(false), id) && !MayActOn(userId, None, id)
    ensures Get(data, "isAdmin") == Bool(true) ==> Escalates(data, Some(false)) && Escalates(data, None)
    ensures !Truthy(Get(data, "isAdmin")) ==> !Escalates(data, Some(false))
  {
  }

  /** GET `/:id`: no authentication; the record without its password, or null. */
  function GetUser(users: Table, id: string): (r: Response)
    ensures r.Sent? && r.cookie.None?
    ensures r.payload == NullBody <==> id !in users
    ensures id in users ==> r.payload == UserBody(WithoutPassword(users[id]))
  {
    match GetUserById(users, id)
    case None => Sent(NullBody, None)
    case Some(user) => Sent(UserBody(user), None)
  }

  /** POST `/`: check the arguments, then create the user and sign a token for the new id. */
  method CreateUserRoute(db: Database, h: Bcrypt.Hasher, saltRounds: Option<string>, draws: seq<string>, now: string,
                         jwt: Jwt, key: Option<string>, body: Obj) returns (r: Response)
    requires db.Valid()
    requires exists i :: 0 <= i < |draws| && Candidate(draws[i]) !in db.users
    modifies db
    ensures db.Valid()
    ensures !Truthy(Get(body, "username")) ==> r == Forwarded(ArgumentMissing(USERNAME_MISSING))
    ensures Truthy(Get(body, "username")) && !Truthy(Get(body, "password")) ==> r == Forwarded(ArgumentMissing(PASSWORD_MISSING))
    ensures var username, password := Get(body, "username"), Get(body, "password");
      && (!(Truthy(username) && Truthy(password) && username.Str? && password.Str?) ==> r.Forwarded? && db.users == old(db.users))
      && (Truthy(username) && Truthy(password) && !(username.Str? && password.Str?) ==>
            r == Forwarded(if !SaltConfigured(saltRounds) then Config(SALT_ROUNDS_MISSING)
                           else if !password.Str? then Other(HASH_ARGUMENT_ERROR)
                           else Database(InvalidValue("username"))))
      && (Truthy(username) && Truthy(password) && username.Str? && password.Str? ==>
            RegisterOutcome(old(db.users), db.users, saltRounds, jwt, key, username.s, r))
  {
    var username, password := Get(body, "username"), Get(body, "password");
    if !Truthy(username) {
      return Forwarded(ArgumentMissing(USERNAME_MISSING));
    }
    if !Truthy(password) {
      return Forwarded(ArgumentMissing(PASSWORD_MISSING));
    }
    if !username.Str? || !password.Str? {
      // the environment check comes first; then bcrypt rejects a non-string password, then the store a non-string username
      if !SaltConfigured(saltRounds) {
        return Forwarded(Config(SALT_ROUNDS_MISSING));
      }
      if !password.Str? {
        return Forwarded(Other(HASH_ARGUMENT_ERROR));
      }
      return Forwarded(Database(InvalidValue("username")));
    }
    r := Register(db, h, saltRounds, draws, now, jwt, key, username.s, password.s);
  }

  /** The outcome of a successful registration: one new record under `id`, its public fields sent with a token for `id` that is also set as the cookie. */
  ghost predicate Registered(before: Table, after: Table, id: string, username: string, jwt: Jwt, key: Option<string>, r: Response) {
    && KeyConfigured(key)
    && id in after && after == before[id := after[id]]
    && after[id].username == username && !after[id].isAdmin
    && var token := jwt.sign(id, key.value);
       r == Sent(CreatedBody(WithoutPassword(after[id]), token), Some(AccessCookie(token)))
  }

  /**
   * The outcome of registering `username`: the configuration and the
   * username's uniqueness are checked before any write; once the record is
   * written it stays, even when signing the token fails.
   */
  ghost predicate RegisterOutcome(before: Table, after: Table, saltRounds: Option<string>, jwt: Jwt, key: Option<string>,
                                  username: string, r: Response) {
    && (!SaltConfigured(saltRounds) ==> r == Forwarded(Config(SALT_ROUNDS_MISSING)) && after == before)
    && (SaltConfigured(saltRounds) && HasUsername(before, username) ==> r == Forwarded(UsernameTaken) && after == before)
    && (SaltConfigured(saltRounds) && !HasUsername(before, username) ==>
          && |after| == |before| + 1
          && (r.Sent? <==> KeyConfigured(key))
          && (!KeyConfigured(key) ==> r == Forwarded(Config(KEY_MISSING))))
    && (r.Sent? ==> exists id :: id !in before && Registered(before, after, id, username, jwt, key, r))
  }

  /** The cookie set on registration authenticates, through `auth` and `authOptional`, as the new user, who is not an admin. */
  lemma RegistrationCookieAuthenticates(before: Table, after: Table, id: string, username: string, jwt: Jwt, key: Option<string>,
                                        r: Response, optional: bool)
    requires WellBehaved(jwt) && Registered(before, after, id, username, jwt, key, r)
    ensures Decide(VerifyToken(jwt, key, Some([("accessToken", Str(r.cookie.value.value))])), userId => IsAdmin(after, userId), optional)
              == SetLocals(id, false)
  {
    IssuedTokenAuthenticates(jwt, key, after, id, optional);
  }

  /** Once the new record `u` is stored, the registration's outcome depends only on whether the key is configured. */
  lemma RegistrationOutcome(before: Table, after: Table, saltRounds: Option<string>, jwt: Jwt, key: Option<string>,
                            username: string, u: User, r: Response)
    requires SaltConfigured(saltRounds) && !HasUsername(before, username)
    requires u.id !in before && u.username == username && !u.isAdmin && after == before[u.id := u]
    requires KeyConfigured(key) ==>
      var token := jwt.sign(u.id, key.value); r == Sent(CreatedBody(WithoutPassword(u), token), Some(AccessCookie(token)))
    requires !KeyConfigured(key) ==> r == Forwarded(Config(KEY_MISSING))
    ensures RegisterOutcome(before, after, saltRounds, jwt, key, username, r)
  {
    assert |after| == |before| + 1;
    if r.Sent? {
      assert Registered(before, after, u.id, username, jwt, key, r);
    }
  }

  /** The `try` block of POST `/` for string arguments: `createUser`, then `signToken` on the new id. */
  method Register(db: Database, h: Bcrypt.Hasher, saltRounds: Option<string>, draws: seq<string>, now: string,
                  jwt: Jwt, key: Option<string>, username: string, password: string) returns (r: Response)
    requires db.Valid()
    requires exists i :: 0 <= i < |draws| && Candidate(draws[i]) !in db.users
    modifies db
    ensures db.Valid()
    ensures RegisterOutcome(old(db.users), db.users, saltRounds, jwt, key, username, r)
  {
    var created := CreateUser(db, h, saltRounds, draws, now, username, password);
    if created.Failure? {
      return Forwarded(created.error);
    }
    var user := created.value;
    ghost var id :| id !in old(db.users) &&
      var u := User(id, username, h.hash(password, saltRounds.value), now, false);
      db.users == old(db.users)[id := u] && user == WithoutPassword(u);
    ghost var u := User(id, username, h.hash(password, saltRounds.value), now, false);
    assert user == WithoutPassword(u);
    assert Get(WithoutPassword(u), "id") == Str(u.id);
    var accessToken := SignToken(jwt, key, Get(user, "id").s);
    if accessToken.Failure? {
      r := Forwarded(accessToken.error);
    } else {
      r := Sent(CreatedBody(user, accessToken.value), Some(AccessCookie(accessToken.value)));
    }
    RegistrationOutcome(old(db.users), db.users, saltRounds, jwt, key, username, u, r);
  }

  /** The outcome of DELETE `/:id` for a caller: refused, UserNotFoundError, or the record removed and `{}` sent. */
  ghost predicate DeleteOutcome(before: Table, after: Table, userId: Option<string>, isAdmin: Option<bool>, id: string, r: Response) {
    && (!MayActOn(userId, isAdmin, id) ==> r == Forwarded(Unauthorized(UNAUTHORIZED)) && after == before)
    && (MayActOn(userId, isAdmin, id) && id !in before ==> r == Forwarded(UserNotFound) && after == before)
    && (MayActOn(userId, isAdmin, id) && id in before ==> r == Sent(EmptyBody, None) && after == before - {id})
  }

  /** DELETE `/:id`, after `auth`: only the user themself or an admin may delete. */
  method DeleteUserHandler(db: Database, locals: Locals, id: string) returns (r: Response)
    requires db.Valid()
    modifies db
    ensures db.Valid()
    ensures DeleteOutcome(old(db.users), db.users, locals.userId, locals.isAdmin, id, r)
  {
    if !MayActOn(locals.userId, locals.isAdmin, id) {
      return Forwarded(Unauthorized(UNAUTHORIZED));
    }
    var deleted := DeleteUser(db, id);
    if deleted.Failure? {
      return Forwarded(deleted.error);
    }
    return Sent(EmptyBody, None);
  }

  /** How a handler replies with what `updateUser` returned or threw. */
  function Reply(res: Result<Obj, Err>): Response {
    match res
    case Success(user) => Sent(UserBody(user), None)
    case Failure(e) => Forwarded(e)
  }

  /**
   * The outcome of PATCH `/:id` for a caller: both guards run before the body
   * or the store is touched; past them, exactly what `updateUser` does.
   */
  ghost predicate PatchOutcome(before: Table, after: Table, dataBefore: Obj, dataAfter: Obj, userId: Option<string>, isAdmin: Option<bool>,
                               h: Bcrypt.Hasher, saltRounds: Option<string>, id: string, r: Response) {
    if !MayActOn(userId, isAdmin, id) || Escalates(dataBefore, isAdmin) then
      r == Forwarded(Unauthorized(UNAUTHORIZED)) && after == before && dataAfter == dataBefore
    else
      var o := UpdateOutcome(before, h, saltRounds, id, dataBefore);
      r == Reply(o.0) && dataAfter == o.1 && after == o.2
  }

  /** A caller who is not an admin never makes a record an admin through PATCH, their own record included. */
  lemma NonAdminKeepsRole(before: Table, after: Table, dataBefore: Obj, dataAfter: Obj, userId: Option<string>, isAdmin: Option<bool>,
                          h: Bcrypt.Hasher, saltRounds: Option<string>, id: string, r: Response)
    requires PatchOutcome(before, after, dataBefore, dataAfter, userId, isAdmin, h, saltRounds, id, r)
    requires isAdmin != Some(true) && r.Sent?
    ensures id in before && id in after && (after[id].isAdmin ==> before[id].isAdmin)
  {
    FalsyIsAdminNeverGrants(before, h, saltRounds, id, dataBefore);
  }

  /** An admin's PATCH `{ isAdmin: true }` of a stored record succeeds and makes it an admin, keeping its username. */
  lemma AdminGrantsAdmin(before: Table, after: Table, dataAfter: Obj, userId: Option<string>, h: Bcrypt.Hasher,
                         saltRounds: Option<string>, id: string, r: Response)
    requires Consistent(before) && SaltConfigured(saltRounds) && id in before
    requires PatchOutcome(before, after, [("isAdmin", Bool(true))], dataAfter, userId, Some(true), h, saltRounds, id, r)
    ensures r.Sent? && id in after && after[id].isAdmin && after[id].username == before[id].username
  {
    ValidUpdateSucceeds(before, h, saltRounds, id, [("isAdmin", Bool(true))]);
  }

  /** PATCH `/:id`, after `auth`: the self-or-admin guard, then the escalation guard, then the update. */
  method UpdateUserHandler(db: Database, locals: Locals, h: Bcrypt.Hasher, saltRounds: Option<string>, id: string, data: Body)
    returns (r: Response)
    requires db.Valid()
    modifies db, data
    ensures db.Valid()
    ensures PatchOutcome(old(db.users), db.users, old(data.entries), data.entries, locals.userId, locals.isAdmin, h, saltRounds, id, r)
    ensures locals.isAdmin != Some(true) && r.Sent? ==>
      id in old(db.users) && id in db.users && (db.users[id].isAdmin ==> old(db.users)[id].isAdmin)
  {
    if !MayActOn(locals.userId, locals.isAdmin, id) {
      return Forwarded(Unauthorized(UNAUTHORIZED));
    }
    if Escalates(data.entries, locals.isAdmin) {
      return Forwarded(Unauthorized(UNAUTHORIZED));
    }
    var updated := UpdateUser(db, h, saltRounds, id, data);
    r := Reply(updated);
    if locals.isAdmin != Some(true) && r.Sent? {
      NonAdminKeepsRole(old(db.users), db.users, old(data.entries), data.entries, locals.userId, locals.isAdmin, h, saltRounds, id, r);
    }
  }

  /** DELETE `/:id` with its `auth` middleware: the handler runs only for an authenticated caller, with the caller's id and role. */
  method DeleteUserRoute(db: Database, locals: Locals, jwt: Jwt, key: Option<string>, cookies: Option<Obj>, id: string)
    returns (r: Response)
    requires db.Valid()
    modifies db, locals
    ensures db.Valid()
    ensures var d := Decide(VerifyToken(jwt, key, cookies), userId => IsAdmin(old(db.users), userId), false);
      && (!d.SetLocals? ==> r == Forwarded(d.error) && db.users == old(db.users))
      && (d.SetLocals? ==> locals.userId == Some(d.userId) && locals.isAdmin == Some(d.isAdmin)
                           && DeleteOutcome(old(db.users), db.users, Some(d.userId), Some(d.isAdmin), id, r))
  {
    var users := db.users;
    var failed := Auth(locals, jwt, key, cookies, userId => IsAdmin(users, userId));
    if failed.Some? {
      return Forwarded(failed.value);
    }
    r := DeleteUserHandler(db, locals, id);
  }

  /** PATCH `/:id` with its `auth` middleware. */
  method UpdateUserRoute(db: Database, locals: Locals, jwt: Jwt, key: Option<string>, cookies: Option<Obj>,
                         h: Bcrypt.Hasher, saltRounds: Option<string>, id: string, data: Body) returns (r: Response)
    requires db.Valid()
    modifies db, locals, data
    ensures db.Valid()
    ensures var d := Decide(VerifyToken(jwt, key, cookies), userId => IsAdmin(old(db.users), userId), false);
      && (!d.SetLocals? ==> r == Forwarded(d.error) && db.users == old(db.users) && data.entries == old(data.entries))
      && (d.SetLocals? ==> locals.userId == Some(d.userId) && locals.isAdmin == Some(d.isAdmin)
                           && PatchOutcome(old(db.users), db.users, old(data.entries), data.entries,
                                           Some(d.userId), Some(d.isAdmin), h, saltRounds, id, r))
  {
    var users := db.users;
    var failed := Auth(locals, jwt, key, cookies, userId => IsAdmin(users, userId));
    if failed.Some? {
      return Forwarded(failed.value);
    }
    r := UpdateUserHandler(db, locals, h, saltRounds, id, data);
  }

  /** GET `/me` with its `auth` middleware: the caller's own record. */
  method GetMeRoute(db: Database, locals: Locals, jwt: Jwt, key: Option<string>, cookies: Option<Obj>) returns (r: Response)
    modifies locals
    ensures var users := db.users; var d := Decide(VerifyToken(jwt, key, cookies), userId => IsAdmin(users, userId), false);
      && (!d.SetLocals? ==> r == Forwarded(d.error))
      && (d.SetLocals? ==> d.userId in db.users && r == Sent(UserBody(WithoutPassword(db.users[d.userId])), None))
  {
    var users := db.users;
    var failed := Auth(locals, jwt, key, cookies, userId => IsAdmin(users, userId));
    if failed.Some? {
      return Forwarded(failed.value);
    }
    var user := GetUserById(users, locals.userId.value);
    r := if user.Some? then Sent(UserBody(user.value), None) else Sent(NullBody, None);
  }
}
