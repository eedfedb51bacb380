/**
 * backend/src/utils/auth.ts: issuing and checking the access token. The JSON
 * Web Token library (RFC 7519) is seen only through `sign` and `verify`; the
 * signing key is JWT_PRIVATE_KEY, read once when the module loads.
 */
module AuthUtils {
  import opened Wrappers
  import opened Js
  import opened Errors

  datatype Jwt = Jwt(
    sign: (string, string) -> string,            // jwt.sign({ userId }, key)
    verify: (string, string) -> Option<string>)  // jwt.verify(token, key).userId, None when it throws

  /** What the library promises: a token it signed is non-empty and verifies to its payload under the same key. */
  ghost predicate WellBehaved(jwt: Jwt) {
    forall userId, key :: jwt.sign(userId, key) != "" && jwt.verify(jwt.sign(userId, key), key) == Some(userId)
  }

  const KEY_MISSING := "JWT_PRIVATE_KEY is not defined"
  const TOKEN_MISSING := "Access token is missing"
  const TOKEN_INVALID := "Invalid access token"

  /** `if (!JWT_PRIVATE_KEY)` fails for an unset and for an empty variable. */
  predicate KeyConfigured(key: Option<string>) {
    key.Some? && key.value != ""
  }

  /** `cookies?.accessToken`. */
  function AccessToken(cookies: Option<Obj>): JsValue {
    if cookies.None? then Undefined else Get(cookies.value, "accessToken")
  }

  /** `signToken(userId)`. */
  function SignToken(jwt: Jwt, key: Option<string>, userId: string): (r: Result<string, Err>)
    ensures r.Failure? <==> !KeyConfigured(key)
    ensures r.Failure? ==> r.error == Config(KEY_MISSING)
    ensures WellBehaved(jwt) && r.Success? ==> jwt.verify(r.value, key.value) == Some(userId)
  {
    if !KeyConfigured(key) then Failure(Config(KEY_MISSING))
    else Success(jwt.sign(userId, key.value))
  }

  /** `verifyToken(cookies)`: the key is checked first, then the token's presence, then its signature. */
  function VerifyToken(jwt: Jwt, key: Option<string>, cookies: Option<Obj>): (r: Result<string, Err>)
    ensures !KeyConfigured(key) ==> r == Failure(Config(KEY_MISSING))
    ensures KeyConfigured(key) && !Truthy(AccessToken(cookies)) ==> r == Failure(InvalidAccessToken(TOKEN_MISSING))
    ensures r.Success? <==> KeyConfigured(key) && AccessToken(cookies).Str? && AccessToken(cookies).s != "" &&
                            jwt.verify(AccessToken(cookies).s, key.value).Some?
    ensures r.Success? ==> jwt.verify(AccessToken(cookies).s, key.value) == Some(r.value)
    ensures r.Failure? && KeyConfigured(key) && Truthy(AccessToken(cookies)) ==> r.error == InvalidAccessToken(TOKEN_INVALID)
  {
    if !KeyConfigured(key) then Failure(Config(KEY_MISSING))
    else
      var token := AccessToken(cookies);
      if !Truthy(token) then Failure(InvalidAccessToken(TOKEN_MISSING))
      else if !token.Str? then Failure(InvalidAccessToken(TOKEN_INVALID))  // jwt.verify throws on a non-string
      else match jwt.verify(token.s, key.value)
        case Some(userId) => Success(userId)
        case None => Failure(InvalidAccessToken(TOKEN_INVALID))
  }

  /** A token `signToken` issued, presented as the `accessToken` cookie, verifies to the same user id. */
  lemma SignThenVerify(jwt: Jwt, key: Option<string>, userId: string)
    requires WellBehaved(jwt)
    requires KeyConfigured(key)
    ensures SignToken(jwt, key, userId).Success?
    ensures VerifyToken(jwt, key, Some([("accessToken", Str(SignToken(jwt, key, userId).value))])) == Success(userId)
  {
    var token := SignToken(jwt, key, userId).value;
    assert jwt.sign(userId, key.value) != "";
    assert AccessToken(Some([("accessToken", Str(token))])) == Str(token);
  }
}
