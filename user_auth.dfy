/**
 * backend/src/utils/users/userAuth.ts: checking a username and password
 * against the stored hash. An unknown username and a wrong password fail
 * with the same error, so a caller cannot learn which usernames exist.
 */
module UserAuth {
  import opened Wrappers
  import opened Js
  import opened Errors
  import opened Store
  import opened UserUtils
  import opened UserQueries
  import Bcrypt

  const INVALID_CREDENTIALS := "Invalid username or password."

  /** A stored record with this username whose hash matches the password. */
  predicate Matches(users: Table, compare: (string, string) -> bool, username: string, password: string, id: string) {
    id in users && users[id].username == username && compare(password, users[id].password)
  }

  /** `authenticateUser(username, password)`; `compare` is bcrypt.compare. */
  function AuthenticateUser(users: Table, compare: (string, string) -> bool, username: string, password: string): (r: Result<Obj, Err>)
    requires Consistent(users)
    ensures r.Failure? ==> r.error == Unauthorized(INVALID_CREDENTIALS)
    ensures r.Success? <==> exists id :: Matches(users, compare, username, password, id)
    ensures r.Success? ==> exists id :: Matches(users, compare, username, password, id) && r.value == WithoutPassword(users[id])
  {
    var unauthorized := Unauthorized(INVALID_CREDENTIALS);
    var user := GetUserByUsername(users, username, true);
    if user.None? then Failure(unauthorized)
    else
      var u := FindByUsername(users, username).value;
      assert user.value == ToObject(u);
      assert forall id :: Matches(users, compare, username, password, id) ==> id == u.id;
      if !Get(user.value, "password").Str? then Failure(unauthorized)
      else if !compare(password, Get(user.value, "password").s) then Failure(unauthorized)
      else
        assert Matches(users, compare, username, password, u.id);
        Success(ExcludeProperties(user.value, ["password"]))
  }

  /** Enumeration resistance: an unknown username and a known one with a wrong password give the same error and message. */
  lemma UnknownUserLikeWrongPassword(users: Table, compare: (string, string) -> bool, unknown: string, known: string, wrong: string, any: string)
    requires Consistent(users)
    requires !HasUsername(users, unknown)
    requires HasUsername(users, known) && FindByUsername(users, known).Some? && !compare(wrong, FindByUsername(users, known).value.password)
    ensures AuthenticateUser(users, compare, unknown, any) == AuthenticateUser(users, compare, known, wrong)
    ensures AuthenticateUser(users, compare, unknown, any) == Failure(Unauthorized(INVALID_CREDENTIALS))
  {
  }

  /** `compare` is consulted only once a record was found: for an unknown username the outcome does not depend on it. */
  lemma UnknownUserSkipsCompare(users: Table, c1: (string, string) -> bool, c2: (string, string) -> bool, username: string, password: string)
    requires Consistent(users)
    requires !HasUsername(users, username)
    ensures AuthenticateUser(users, c1, username, password) == AuthenticateUser(users, c2, username, password)
  {
  }

  /** A record whose stored hash was made from `password` authenticates with it, and comes back without the hash. */
  lemma HashedPasswordAuthenticates(users: Table, h: Bcrypt.Hasher, id: string, password: string, rounds: string)
    requires Consistent(users) && Bcrypt.Sound(h)
    requires id in users && users[id].password == h.hash(password, rounds)
    ensures AuthenticateUser(users, h.compare, users[id].username, password) == Success(WithoutPassword(users[id]))
  {
    assert Matches(users, h.compare, users[id].username, password, id);
  }
}
