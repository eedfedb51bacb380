/** What a route handler produces: a body sent with an optional cookie, or an error passed to `next`. */
module Responses {
  import opened Wrappers
  import opened Js
  import opened Errors

  /** `COOKIE_AGE` as written: four weeks counted in seconds. */
  const COOKIE_AGE := 60 * 60 * 24 * 7 * 4

  /** The cookie age that lasts four weeks once read in milliseconds. */
  const COOKIE_AGE_MS := COOKIE_AGE * 1000

  datatype Cookie = Cookie(name: string, value: string, maxAge: nat)

  datatype Payload =
    | UserBody(user: Obj)                        // res.send(user)
    | NullBody                                   // res.send(null)
    | EmptyBody                                  // res.send({})
    | CreatedBody(user: Obj, accessToken: string)  // res.send({ user, accessToken })

  datatype Response = Sent(payload: Payload, cookie: Option<Cookie>) | Forwarded(error: Err)

  /** Express reads a cookie's `maxAge` in milliseconds: the whole seconds the cookie lives. */
  function LifetimeSeconds(maxAge: nat): (s: nat)
    ensures s * 1000 <= maxAge < s * 1000 + 1000
  {
    maxAge / 1000
  }

  /** `res.cookie('accessToken', token, { maxAge: COOKIE_AGE })`, as the routes call it. */
  function AccessCookie(token: string): (c: Cookie)
    ensures c.name == "accessToken" && c.value == token
    ensures c.maxAge == COOKIE_AGE
  {
    Cookie("accessToken", token, COOKIE_AGE)
  }

  /** The cookie the routes evidently mean to set: `COOKIE_AGE` converted to milliseconds. */
  function IntendedAccessCookie(token: string): (c: Cookie)
    ensures c.name == "accessToken" && c.value == token
    ensures c.maxAge == COOKIE_AGE_MS
  {
    Cookie("accessToken", token, COOKIE_AGE_MS)
  }

  /** The access cookie the routes set expires after 2419 seconds, about forty minutes. */
  lemma CookieAgeAsWrittenLastsMinutes(token: string)
    ensures LifetimeSeconds(AccessCookie(token).maxAge) == 2419
    ensures LifetimeSeconds(AccessCookie(token).maxAge) < 60 * 60
  {
  }

  /** With the age in milliseconds, the cookie lives the four weeks `COOKIE_AGE` counts. */
  lemma CookieLastsFourWeeks(token: string)
    ensures LifetimeSeconds(IntendedAccessCookie(token).maxAge) == COOKIE_AGE == 4 * 7 * 24 * 60 * 60
  {
  }
}
