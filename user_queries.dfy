/**
 * backend/src/utils/users/userQueries.ts: the three read-only lookups over the
 * user table. Each is a function of the table, so none can change it.
 */
module UserQueries {
  import opened Wrappers
  import opened Js
  import opened Errors
  import opened Store
  import opened UserUtils

  /** `isAdmin(id)`: the record's role flag, or UserNotFoundError. */
  function IsAdmin(users: Table, id: string): (r: Result<bool, Err>)
    ensures r.Failure? <==> id !in users
    ensures r.Failure? ==> r.error == UserNotFound
    ensures r.Success? ==> r.value == users[id].isAdmin
  {
    if id !in users then Failure(UserNotFound) else Success(users[id].isAdmin)
  }

  /** `getUserByUsername(username, withPassword)`: null when unknown; the password only on request. */
  function GetUserByUsername(users: Table, username: string, withPassword: bool): (r: Option<Obj>)
    requires Consistent(users)
    ensures r.None? <==> !HasUsername(users, username)
    ensures r.Some? ==> exists id :: id in users && users[id].username == username &&
                          r.value == if withPassword then ToObject(users[id]) else WithoutPassword(users[id])
  {
    match FindByUsername(users, username)
    case None => None
    case Some(u) =>
      ExcludeNothing(ToObject(u));
      Some(ExcludeProperties(ToObject(u), if withPassword then [] else ["password"]))
  }

  /** `getUserById(id)`: null when unknown, otherwise the record without its password. */
  function GetUserById(users: Table, id: string): (r: Option<Obj>)
    ensures r.None? <==> id !in users
    ensures r.Some? ==> r.value == WithoutPassword(users[id]) && Get(r.value, "password") == Undefined
  {
    if id !in users then None else Some(ExcludeProperties(ToObject(users[id]), ["password"]))
  }
}
