/**
 * backend/src/middleware/auth.ts: resolving the access token of a request to
 * a user id and role, written to `res.locals`, in required or optional mode.
 * The admin lookup is a parameter so that any failure of it can be modelled;
 * the routes pass `isAdmin` over the user table.
 */
module AuthMiddleware {
  import opened Wrappers
  import opened Js
  import opened Errors
  import opened Store
  import opened UserQueries
  import opened AuthUtils

  /** `res.locals`: what the route handlers learn about the caller. */
  class Locals {
    var userId: Option<string>
    var isAdmin: Option<bool>

    constructor ()
      ensures userId == None && isAdmin == None
    {
      userId, isAdmin := None, None;
    }
  }

  /** The error that leaves the `try` block of `authenticate`, if any: the token's first, then the lookup's. */
  function Raised(token: Result<string, Err>, lookup: string -> Result<bool, Err>): (e: Option<Err>)
    ensures e.None? <==> token.Success? && lookup(token.value).Success?
    ensures token.Failure? ==> e == Some(token.error)
    ensures e.Some? && token.Success? ==> e.value == lookup(token.value).error
  {
    match token
    case Failure(err) => Some(err)
    case Success(userId) =>
      match lookup(userId)
      case Failure(err) => Some(err)
      case Success(_) => None
  }

  /** What `authenticate` does: write the locals, swallow a token error, or rethrow. */
  datatype Decision = SetLocals(userId: string, isAdmin: bool) | Swallow(error: Err) | Rethrow(error: Err)

  function Decide(token: Result<string, Err>, lookup: string -> Result<bool, Err>, optional: bool): (d: Decision)
    ensures d.SetLocals? <==> Raised(token, lookup).None?
    ensures d.SetLocals? ==> d.userId == token.value && lookup(token.value) == Success(d.isAdmin)
    ensures d.Swallow? <==> optional && Raised(token, lookup).Some? && Raised(token, lookup).value.InvalidAccessToken?
    ensures !d.SetLocals? ==> Raised(token, lookup) == Some(d.error)
  {
    match Raised(token, lookup)
    case None => SetLocals(token.value, lookup(token.value).value)
    case Some(error) =>
      if !error.InvalidAccessToken? then Rethrow(error)
      else if !optional then Rethrow(error)
      else Swallow(error)
  }

  /**
   * `authenticate(req, res, optional)`: returns the error it throws, if any.
   * The locals are written only when both the token and the lookup succeed.
   */
  method Authenticate(locals: Locals, jwt: Jwt, key: Option<string>, cookies: Option<Obj>,
                      lookup: string -> Result<bool, Err>, optional: bool) returns (thrown: Option<Err>)
    modifies locals
    ensures var d := Decide(VerifyToken(jwt, key, cookies), lookup, optional);
      && thrown == (if d.Rethrow? then Some(d.error) else None)
      && (d.SetLocals? ==> locals.userId == Some(d.userId) && locals.isAdmin == Some(d.isAdmin))
      && (!d.SetLocals? ==> locals.userId == old(locals.userId) && locals.isAdmin == old(locals.isAdmin))
  {
    var error: Err;
    var token := VerifyToken(jwt, key, cookies);
    if token.Success? {
      var admin := lookup(token.value);
      if admin.Success? {
        locals.userId := Some(token.value);
        locals.isAdmin := Some(admin.value);
        return None;
      }
      error := admin.error;
    } else {
      error := token.error;
    }
    if !error.InvalidAccessToken? {
      return Some(error);
    }
    if !optional {
      return Some(error);
    }
    return None;
  }

  /** `auth`: `next` is called once, with the error `authenticate` threw or with nothing. */
  method Auth(locals: Locals, jwt: Jwt, key: Option<string>, cookies: Option<Obj>, lookup: string -> Result<bool, Err>)
    returns (nextArg: Option<Err>)
    modifies locals
    ensures var d := Decide(VerifyToken(jwt, key, cookies), lookup, false);
      && nextArg == (if d.SetLocals? then None else Some(d.error))
      && (d.SetLocals? ==> locals.userId == Some(d.userId) && locals.isAdmin == Some(d.isAdmin))
      && (!d.SetLocals? ==> locals.userId == old(locals.userId) && locals.isAdmin == old(locals.isAdmin))
  {
    nextArg := Authenticate(locals, jwt, key, cookies, lookup, false);
  }

  /** `authOptional`: `next()` is called with nothing, whatever `authenticate` threw. */
  method AuthOptional(locals: Locals, jwt: Jwt, key: Option<string>, cookies: Option<Obj>, lookup: string -> Result<bool, Err>)
    returns (nextArg: Option<Err>)
    modifies locals
    ensures nextArg == None
    ensures var d := Decide(VerifyToken(jwt, key, cookies), lookup, true);
      && (d.SetLocals? ==> locals.userId == Some(d.userId) && locals.isAdmin == Some(d.isAdmin))
      && (!d.SetLocals? ==> locals.userId == old(locals.userId) && locals.isAdmin == old(locals.isAdmin))
  {
    var _ := Authenticate(locals, jwt, key, cookies, lookup, true);
    nextArg := None;
  }

  /** A missing or invalid token is rethrown in required mode and swallowed in optional mode. */
  lemma TokenErrorsDependOnMode(jwt: Jwt, key: Option<string>, cookies: Option<Obj>, lookup: string -> Result<bool, Err>)
    requires KeyConfigured(key)
    requires VerifyToken(jwt, key, cookies).Failure?
    ensures Decide(VerifyToken(jwt, key, cookies), lookup, false) == Rethrow(VerifyToken(jwt, key, cookies).error)
    ensures Decide(VerifyToken(jwt, key, cookies), lookup, true) == Swallow(VerifyToken(jwt, key, cookies).error)
  {
  }

  /** An error not about the token (the key's configuration, a failed lookup) is rethrown in both modes. */
  lemma OtherErrorsRethrown(token: Result<string, Err>, lookup: string -> Result<bool, Err>, optional: bool)
    requires Raised(token, lookup).Some? && !Raised(token, lookup).value.InvalidAccessToken?
    ensures Decide(token, lookup, optional) == Rethrow(Raised(token, lookup).value)
  {
  }

  /**
   * With the admin lookup over the user table, the token `signToken` issued
   * for a stored user authenticates as that user with that user's role, and
   * the token of a user that is no longer stored fails with UserNotFoundError in both modes.
   */
  lemma IssuedTokenAuthenticates(jwt: Jwt, key: Option<string>, users: Table, id: string, optional: bool)
    requires WellBehaved(jwt) && KeyConfigured(key)
    ensures var cookies := Some([("accessToken", Str(SignToken(jwt, key, id).value))]);
      Decide(VerifyToken(jwt, key, cookies), userId => IsAdmin(users, userId), optional)
        == if id in users then SetLocals(id, users[id].isAdmin) else Rethrow(UserNotFound)
  {
    SignThenVerify(jwt, key, id);
  }
}
