/**
 * The user table behind the database client, as an in-memory map from id to
 * record, with the three writes the user utilities issue. The table's own
 * guarantees (primary key, unique username, typed columns) are part of it.
 */
module Store {
  import opened Wrappers
  import opened Js
  import opened Errors

  datatype User = User(id: string, username: string, password: string, createdAt: string, isAdmin: bool)

  type Table = map<string, User>

  /** The record as the client returns it: every column, in declaration order. */
  function ToObject(u: User): (o: Obj)
    ensures Keys(o) == ["id", "username", "password", "createdAt", "isAdmin"]
    ensures Get(o, "password") == Str(u.password)
  {
    var o := [("id", Str(u.id)), ("username", Str(u.username)), ("password", Str(u.password)),
              ("createdAt", Str(u.createdAt)), ("isAdmin", Bool(u.isAdmin))];
    assert Get(o[2..], "password") == Str(u.password);
    o
  }

  /** Each record is stored under its own id, and no two records share a username. */
  ghost predicate Consistent(users: Table) {
    && (forall id :: id in users ==> users[id].id == id)
    && (forall a, b :: a in users && b in users && users[a].username == users[b].username ==> a == b)
  }

  predicate HasUsername(users: Table, username: string) {
    exists id :: id in users && users[id].username == username
  }

  /** `findUnique({ where: { username } })`. */
  function FindByUsername(users: Table, username: string): (r: Option<User>)
    requires Consistent(users)
    ensures r.None? <==> !HasUsername(users, username)
    ensures r.Some? ==> r.value.id in users && users[r.value.id] == r.value && r.value.username == username
  {
    if HasUsername(users, username) then
      var id :| id in users && users[id].username == username;
      Some(users[id])
    else None
  }

  /** `create({ data: u })`: both the id and the username must be new. */
  function Create(users: Table, u: User): (r: Result<Table, DbError>)
    ensures r.Failure? <==> u.id in users || HasUsername(users, u.username)
    ensures r.Failure? ==> r.error == UniqueViolation
    ensures r.Success? ==> r.value.Keys == users.Keys + {u.id} && u.id !in users
    ensures r.Success? ==> r.value[u.id] == u && forall id :: id in users ==> r.value[id] == users[id]
    ensures Consistent(users) && r.Success? ==> Consistent(r.value)
  {
    if u.id in users || HasUsername(users, u.username) then Failure(UniqueViolation)
    else Success(users[u.id := u])
  }

  /** `delete({ where: { id } })`. */
  function Delete(users: Table, id: string): (r: Result<Table, DbError>)
    ensures r.Failure? <==> id !in users
    ensures r.Failure? ==> r.error == RecordNotFound
    ensures r.Success? ==> r.value.Keys == users.Keys - {id}
    ensures r.Success? ==> forall k :: k in r.value ==> r.value[k] == users[k]
    ensures Consistent(users) && r.Success? ==> Consistent(r.value)
  {
    if id !in users then Failure(RecordNotFound) else Success(users - {id})
  }

  /** The columns an update may write, with the type each one holds. */
  predicate Writable(k: string, v: JsValue) {
    || ((k == "username" || k == "password") && v.Str?)
    || (k == "isAdmin" && v.Bool?)
  }

  /** The first entry of an update's data that the client's validation rejects; `undefined` values are skipped. */
  function BadField(data: Obj): (r: Option<string>)
    ensures r.None? <==> forall i :: 0 <= i < |data| ==> data[i].1 == Undefined || Writable(data[i].0, data[i].1)
    ensures r.Some? ==> r.value in Keys(data)
  {
    if data == [] then None
    else if data[0].1 == Undefined || Writable(data[0].0, data[0].1) then BadField(data[1..])
    else Some(data[0].0)
  }

  /** In accepted data, every key reads as `undefined` or as a value that fits its column. */
  lemma {:induction false} BadFieldGet(data: Obj, k: string)
    requires BadField(data).None?
    ensures Get(data, k) == Undefined || Writable(k, Get(data, k))
  {
    if data != [] && data[0].0 != k {
      BadFieldGet(data[1..], k);
    }
  }

  /** Writing a well-typed value keeps an update's data well-typed. */
  lemma {:induction false} SetKeepsWritable(data: Obj, k: string, v: JsValue)
    requires BadField(data).None? && Writable(k, v)
    ensures BadField(Set(data, k, v)).None?
  {
    if data != [] && data[0].0 != k {
      SetKeepsWritable(data[1..], k, v);
    }
  }

  /** The record after writing the columns `data` names; the others keep their value. */
  function Apply(u: User, data: Obj): (r: User)
    ensures r.id == u.id && r.createdAt == u.createdAt
    ensures Get(data, "username").Str? ==> r.username == Get(data, "username").s
    ensures Get(data, "password").Str? ==> r.password == Get(data, "password").s
    ensures Get(data, "isAdmin").Bool? ==> r.isAdmin == Get(data, "isAdmin").b
    ensures Get(data, "username") == Undefined ==> r.username == u.username
    ensures Get(data, "password") == Undefined ==> r.password == u.password
    ensures Get(data, "isAdmin") == Undefined ==> r.isAdmin == u.isAdmin
  {
    var name := Get(data, "username");
    var pass := Get(data, "password");
    var admin := Get(data, "isAdmin");
    u.(username := if name.Str? then name.s else u.username,
       password := if pass.Str? then pass.s else u.password,
       isAdmin := if admin.Bool? then admin.b else u.isAdmin)
  }

  /** Some record other than `id` already holds `username`. */
  predicate Clash(users: Table, id: string, username: string) {
    exists other :: other in users && other != id && users[other].username == username
  }

  /** `update({ where: { id }, data })`: validate the data, find the record, keep usernames unique. */
  function Update(users: Table, id: string, data: Obj): (r: Result<(Table, User), DbError>)
    ensures BadField(data).Some? ==> r == Failure(InvalidValue(BadField(data).value))
    ensures BadField(data).None? && id !in users ==> r == Failure(RecordNotFound)
    ensures r.Success? <==> BadField(data).None? && id in users && !Clash(users, id, Apply(users[id], data).username)
    ensures BadField(data).None? && id in users && Clash(users, id, Apply(users[id], data).username) ==> r == Failure(UniqueViolation)
    ensures r.Success? ==> r.value.1 == Apply(users[id], data) && r.value.0 == users[id := r.value.1]
    ensures Consistent(users) && r.Success? ==> Consistent(r.value.0)
    ensures Consistent(users) && BadField(data).None? && id in users && Apply(users[id], data).username == users[id].username
      ==> r.Success?
  {
    if BadField(data).Some? then Failure(InvalidValue(BadField(data).value))
    else if id !in users then Failure(RecordNotFound)
    else
      var u := Apply(users[id], data);
      if Clash(users, id, u.username) then Failure(UniqueViolation)
      else Success((users[id := u], u))
  }

  /** The database the utilities share; the methods that write it are in UserMutations. */
  class Database {
    var users: Table

    ghost predicate Valid() reads this {
      Consistent(users)
    }

    constructor (users: Table)
      requires Consistent(users)
      ensures Valid() && this.users == users
    {
      this.users := users;
    }
  }
}
