/**
 * backend/src/utils/users/userMutations.ts: creating, deleting and updating
 * user records, with the database's failures translated into the backend's
 * errors. The older backend/src/utils/users.ts has the same three bodies.
 */
module UserMutations {
  import opened Wrappers
  import opened Js
  import opened Errors
  import opened Store
  import opened UserUtils
  import opened UserQueries
  import Bcrypt

  const ALLOWED_USER_FIELDS := ["username", "password", "isAdmin"]
  const IMMUTABLE_USER_FIELDS := ["id", "createdAt"]

  const SALT_ROUNDS_MISSING := "BCRYPT_SALT_ROUNDS is not defined in the environment variables."
  /** What bcrypt.hash throws when the value to hash is not a string. */
  const HASH_ARGUMENT_ERROR := "data must be a string or Buffer and salt must either be a salt string or a number of rounds"

  /** `if (!process.env.BCRYPT_SALT_ROUNDS)` fails for an unset and for an empty variable. */
  predicate SaltConfigured(saltRounds: Option<string>) {
    saltRounds.Some? && saltRounds.value != ""
  }

  /** The keys `updateUser` refuses because they are immutable, in key order. */
  function ImmutableProps(keys: seq<string>): (r: seq<string>)
    ensures forall k :: k in r <==> k in keys && k in IMMUTABLE_USER_FIELDS
  {
    Filter(keys, k => k in IMMUTABLE_USER_FIELDS)
  }

  /** The keys `updateUser` refuses because they are not allowed, in key order. */
  function UnknownProps(keys: seq<string>): (r: seq<string>)
    ensures forall k :: k in r <==> k in keys && k !in ALLOWED_USER_FIELDS
  {
    Filter(keys, k => k !in ALLOWED_USER_FIELDS)
  }

  /** `immutableProps.concat(unknownProps)`: the immutable keys first, then the keys not allowed, each in key order. */
  function InvalidProps(keys: seq<string>): (r: seq<string>)
    ensures forall k :: k in r <==> k in keys && (k in IMMUTABLE_USER_FIELDS || k !in ALLOWED_USER_FIELDS)
    ensures r == [] <==> forall k :: k in keys ==> k in ALLOWED_USER_FIELDS
  {
    var immutableProps := ImmutableProps(keys);
    var unknownProps := UnknownProps(keys);
    assert immutableProps + unknownProps != [] ==> (immutableProps + unknownProps)[0] in immutableProps + unknownProps;
    immutableProps + unknownProps
  }

  /** The report is the immutable keys in key order, followed by the keys not allowed in key order. */
  lemma InvalidPropsOrder(keys: seq<string>)
    ensures |ImmutableProps(keys)| <= |InvalidProps(keys)|
    ensures InvalidProps(keys)[..|ImmutableProps(keys)|] == ImmutableProps(keys)
    ensures InvalidProps(keys)[|ImmutableProps(keys)|..] == UnknownProps(keys)
  {
    var immutableProps, unknownProps := ImmutableProps(keys), UnknownProps(keys);
    assert (immutableProps + unknownProps)[..|immutableProps|] == immutableProps;
    assert (immutableProps + unknownProps)[|immutableProps|..] == unknownProps;
  }

  /** The message of the BadRequestError for the invalid keys: singular wording for exactly one key, plural otherwise. */
  function InvalidPropsMessage(invalid: seq<string>): (m: string)
    ensures |invalid| == 1 <==> |m| >= 18 && m[..18] == "Invalid property: "
    ensures |invalid| == 1 ==> m == "Invalid property: " + invalid[0]
    ensures |invalid| != 1 ==> |m| >= 20 && m[..20] == "Invalid properties: "
    ensures |invalid| != 1 ==> m[20..] == Join(invalid, ", ")
  {
    var prefix := if |invalid| == 1 then "Invalid property: " else "Invalid properties: ";
    var m := prefix + Join(invalid, ", ");
    assert m[..|prefix|] == prefix;
    assert |invalid| != 1 ==> m[15] == 'i';
    assert m[|prefix|..] == Join(invalid, ", ");
    m
  }

  /**
   * How often each key is reported: an allowed key never, an unknown key once
   * per occurrence, and `id` or `createdAt` twice, since neither is allowed either.
   */
  lemma ReportCount(keys: seq<string>, k: string)
    ensures multiset(InvalidProps(keys))[k] ==
      if k in IMMUTABLE_USER_FIELDS then 2 * multiset(keys)[k]
      else if k !in ALLOWED_USER_FIELDS then multiset(keys)[k]
      else 0
  {
    FilterCount(keys, k => k in IMMUTABLE_USER_FIELDS, k);
    FilterCount(keys, k => k !in ALLOWED_USER_FIELDS, k);
  }

  /** `updateUser(id, { id })` is refused with 'Invalid properties: id, id'. */
  lemma IdReportedTwice()
    ensures InvalidProps(["id"]) == ["id", "id"]
    ensures InvalidPropsMessage(InvalidProps(["id"])) == "Invalid properties: id, id"
  {
    assert Filter(["id"], k => k in IMMUTABLE_USER_FIELDS) == ["id"];
    assert Filter(["id"], k => k !in ALLOWED_USER_FIELDS) == ["id"];
    assert Join(["id", "id"], ", ") == "id, id" by {
      assert ["id", "id"][1..] == ["id"];
    }
  }

  /** A single unknown key among allowed ones gets the singular wording. */
  lemma SingleUnknownKey(keys: seq<string>, k: string)
    requires k !in ALLOWED_USER_FIELDS && k !in IMMUTABLE_USER_FIELDS
    requires multiset(keys)[k] == 1
    requires forall j :: j in keys && j != k ==> j in ALLOWED_USER_FIELDS
    ensures InvalidProps(keys) == [k]
    ensures InvalidPropsMessage(InvalidProps(keys)) == "Invalid property: " + k
  {
    var r := InvalidProps(keys);
    ReportCount(keys, k);
    forall j
      ensures multiset(r)[j] == multiset{k}[j]
    {
      if j != k {
        assert j !in r;
      }
    }
    assert multiset(r) == multiset{k};
    assert |r| == 1;
    assert r[0] in r;
  }

  /** The immutable keys come first: `{ foo, id }` is refused with 'Invalid properties: id, foo, id'. */
  lemma ImmutableReportedFirst()
    ensures InvalidProps(["foo", "id"]) == ["id", "foo", "id"]
    ensures InvalidPropsMessage(InvalidProps(["foo", "id"])) == "Invalid properties: id, foo, id"
  {
    assert ImmutableProps(["foo", "id"]) == ["id"] by {
      assert ["foo", "id"][1..] == ["id"];
    }
    assert UnknownProps(["foo", "id"]) == ["foo", "id"] by {
      assert ["foo", "id"][1..] == ["id"];
    }
    var invalid := ["id", "foo", "id"];
    assert Join(invalid, ", ") == "id, foo, id" by {
      assert invalid[1..] == ["foo", "id"] && invalid[1..][1..] == ["id"];
    }
  }

  /**
   * The singular wording appears exactly for one unknown key, occurring once,
   * among allowed keys; `id` or `createdAt` always gives the plural.
   */
  lemma SingularWording(keys: seq<string>)
    ensures |InvalidProps(keys)| == 1 <==> exists k :: && k !in ALLOWED_USER_FIELDS && k !in IMMUTABLE_USER_FIELDS
                                                      && multiset(keys)[k] == 1
                                                      && forall j :: j in keys && j != k ==> j in ALLOWED_USER_FIELDS
    ensures forall k :: k in keys && k in IMMUTABLE_USER_FIELDS ==> |InvalidProps(keys)| >= 2
  {
    var r := InvalidProps(keys);
    forall k | k in keys && k in IMMUTABLE_USER_FIELDS
      ensures |r| >= 2
    {
      ReportCount(keys, k);
    }
    if |r| == 1 {
      var k := r[0];
      assert k in r;
      ReportCount(keys, k);
      assert r == [k];
      assert k !in IMMUTABLE_USER_FIELDS;
    }
    if exists k :: && k !in ALLOWED_USER_FIELDS && k !in IMMUTABLE_USER_FIELDS && multiset(keys)[k] == 1
                  && forall j :: j in keys && j != k ==> j in ALLOWED_USER_FIELDS {
      var k :| && k !in ALLOWED_USER_FIELDS && k !in IMMUTABLE_USER_FIELDS && multiset(keys)[k] == 1
               && forall j :: j in keys && j != k ==> j in ALLOWED_USER_FIELDS;
      SingleUnknownKey(keys, k);
    }
  }

  /** How `createUser` translates a failure of the store: a unique violation becomes UsernameAlreadyTakenError, anything else is rethrown. */
  function CreateError(e: DbError): (err: Err)
    ensures err == UsernameTaken <==> e == UniqueViolation
    ensures e != UniqueViolation ==> err == Database(e)
  {
    if e == UniqueViolation then UsernameTaken else Database(e)
  }

  /** `createUser({ username, password })`; `draws` feeds generateUserId, `now` is the clock. */
  method CreateUser(db: Database, h: Bcrypt.Hasher, saltRounds: Option<string>, draws: seq<string>, now: string,
                    username: string, password: string) returns (r: Result<Obj, Err>)
    requires db.Valid()
    requires exists i :: 0 <= i < |draws| && Candidate(draws[i]) !in db.users
    modifies db
    ensures db.Valid()
    ensures !SaltConfigured(saltRounds) ==> r == Failure(Config(SALT_ROUNDS_MISSING))
    ensures SaltConfigured(saltRounds) && HasUsername(old(db.users), username) ==> r == Failure(UsernameTaken)
    ensures r.Failure? ==> db.users == old(db.users)
    ensures r.Success? <==> SaltConfigured(saltRounds) && !HasUsername(old(db.users), username)
    ensures r.Success? ==> exists id :: (
      && id !in old(db.users) && |id| <= USER_ID_LENGTH
      && (exists k :: 0 <= k < |draws| && id == Candidate(draws[k]) && forall j :: 0 <= j < k ==> Candidate(draws[j]) in old(db.users))
      && var u := User(id, username, h.hash(password, saltRounds.value), now, false);
         db.users == old(db.users)[id := u] && r.value == WithoutPassword(u))
  {
    if !SaltConfigured(saltRounds) {
      return Failure(Config(SALT_ROUNDS_MISSING));
    }
    var hashedPassword := h.hash(password, saltRounds.value);
    var users := db.users;
    var id, _ := GenerateUserId(id => GetUserById(users, id), draws);
    var user := User(id, username, hashedPassword, now, false);
    match Create(users, user)
    case Failure(e) =>
      r := Failure(CreateError(e));
    case Success(next) =>
      db.users := next;
      r := Success(ExcludeProperties(ToObject(user), ["password"]));
      assert r.value == WithoutPassword(user);
      assert next == old(db.users)[id := user];
  }

  /** `deleteUser(id)`: true once the record is gone, UserNotFoundError when there was none. */
  method DeleteUser(db: Database, id: string) returns (r: Result<bool, Err>)
    requires db.Valid()
    modifies db
    ensures db.Valid()
    ensures r.Success? <==> id in old(db.users)
    ensures r.Success? ==> r.value && db.users == old(db.users) - {id}
    ensures r.Failure? ==> r.error == UserNotFound && db.users == old(db.users)
  {
    match Delete(db.users, id)
    case Failure(e) =>
      r := Failure(StoreError(e));
    case Success(next) =>
      db.users := next;
      r := Success(true);
  }

  /** How `updateUser` translates a failure of the store: a missing record becomes UserNotFoundError, anything else is rethrown. */
  function StoreError(e: DbError): (err: Err)
    ensures err == UserNotFound <==> e == RecordNotFound
    ensures e != RecordNotFound ==> err == Database(e)
  {
    if e == RecordNotFound then UserNotFound else Database(e)
  }

  /**
   * What `updateUser(id, data)` does from a table: its result, the caller's
   * data object afterwards, and the table afterwards.
   */
  function UpdateOutcome(users: Table, h: Bcrypt.Hasher, saltRounds: Option<string>, id: string, data: Obj)
    : (o: (Result<Obj, Err>, Obj, Table))
    ensures Consistent(users) ==> Consistent(o.2)
    ensures !SaltConfigured(saltRounds) ==> o == (Failure(Config(SALT_ROUNDS_MISSING)), data, users)
    ensures SaltConfigured(saltRounds) && InvalidProps(Keys(data)) != [] ==>
      o == (Failure(BadRequest(InvalidPropsMessage(InvalidProps(Keys(data))))), data, users)
    ensures var pass := Get(data, "password");
      var checked := SaltConfigured(saltRounds) && InvalidProps(Keys(data)) == [];
      && o.1 == (if checked && Truthy(pass) && pass.Str? then Set(data, "password", Str(h.hash(pass.s, saltRounds.value))) else data)
      && (checked && Truthy(pass) && !pass.Str? ==> o.0 == Failure(Other(HASH_ARGUMENT_ERROR)))
      && (checked && (!Truthy(pass) || pass.Str?) && Update(users, id, o.1).Failure? ==>
            o.0 == Failure(StoreError(Update(users, id, o.1).error)))
      && (o.0.Success? <==> checked && (!Truthy(pass) || pass.Str?) && Update(users, id, o.1).Success?)
    ensures o.0.Failure? ==> o.2 == users
    ensures o.0.Success? ==> id in users && o.2 == users[id := Apply(users[id], o.1)] && o.0.value == WithoutPassword(o.2[id])
  {
    if !SaltConfigured(saltRounds) then (Failure(Config(SALT_ROUNDS_MISSING)), data, users)
    else if InvalidProps(Keys(data)) != [] then (Failure(BadRequest(InvalidPropsMessage(InvalidProps(Keys(data))))), data, users)
    else
      var pass := Get(data, "password");
      if Truthy(pass) && !pass.Str? then (Failure(Other(HASH_ARGUMENT_ERROR)), data, users)
      else
        var written := if Truthy(pass) then Set(data, "password", Str(h.hash(pass.s, saltRounds.value))) else data;
        match Update(users, id, written)
        case Failure(e) => (Failure(StoreError(e)), written, users)
        case Success((next, user)) => (Success(WithoutPassword(user)), written, next)
  }

  /**
   * An update of a stored record with allowed keys and well-typed values,
   * leaving the username alone, succeeds and writes the role it names.
   */
  lemma ValidUpdateSucceeds(users: Table, h: Bcrypt.Hasher, saltRounds: Option<string>, id: string, data: Obj)
    requires Consistent(users) && SaltConfigured(saltRounds) && id in users
    requires forall k :: k in Keys(data) ==> k in ALLOWED_USER_FIELDS && k != "username"
    requires BadField(data).None?
    ensures var o := UpdateOutcome(users, h, saltRounds, id, data);
      && o.0.Success? && id in o.2
      && o.2[id].isAdmin == (if Get(data, "isAdmin").Bool? then Get(data, "isAdmin").b else users[id].isAdmin)
  {
    var o := UpdateOutcome(users, h, saltRounds, id, data);
    var pass := Get(data, "password");
    assert InvalidProps(Keys(data)) == [];
    BadFieldGet(data, "password");
    if Truthy(pass) {
      SetKeepsWritable(data, "password", Str(h.hash(pass.s, saltRounds.value)));
    }
    assert BadField(o.1).None?;
    assert Get(o.1, "username") == Undefined;
    assert Update(users, id, o.1).Success?;
    UpdateStoresFields(users, h, saltRounds, id, data);
  }

  /**
   * What a successful update stores: a truthy password as its hash, an empty
   * password as it is, and the username and role as given; a column the data
   * does not name keeps its value.
   */
  lemma UpdateStoresFields(users: Table, h: Bcrypt.Hasher, saltRounds: Option<string>, id: string, data: Obj)
    ensures var o := UpdateOutcome(users, h, saltRounds, id, data);
      var name, pass, admin := Get(data, "username"), Get(data, "password"), Get(data, "isAdmin");
      o.0.Success? ==>
        && id in users && id in o.2
        && o.2[id].id == users[id].id && o.2[id].createdAt == users[id].createdAt
        && o.2[id].password == (if Truthy(pass) then h.hash(pass.s, saltRounds.value) else if pass.Str? then pass.s else users[id].password)
        && o.2[id].username == (if name.Str? then name.s else users[id].username)
        && o.2[id].isAdmin == (if admin.Bool? then admin.b else users[id].isAdmin)
  {
    var o := UpdateOutcome(users, h, saltRounds, id, data);
    if o.0.Success? {
      var pass := Get(data, "password");
      BadFieldGet(o.1, "password");
      BadFieldGet(o.1, "username");
      BadFieldGet(o.1, "isAdmin");
      if Truthy(pass) {
        assert Get(o.1, "password") == Str(h.hash(pass.s, saltRounds.value));
      }
      assert Get(o.1, "username") == Get(data, "username");
      assert Get(o.1, "isAdmin") == Get(data, "isAdmin");
    }
  }

  /** An update whose `isAdmin` is falsy never makes a record an admin. */
  lemma FalsyIsAdminNeverGrants(users: Table, h: Bcrypt.Hasher, saltRounds: Option<string>, id: string, data: Obj)
    requires !Truthy(Get(data, "isAdmin"))
    ensures var o := UpdateOutcome(users, h, saltRounds, id, data);
      o.0.Success? && o.2[id].isAdmin ==> users[id].isAdmin
  {
  }

  /**
   * `updateUser(id, data)`. A truthy password in `data` is replaced by its
   * hash in the caller's object itself before the record is written.
   */
  method UpdateUser(db: Database, h: Bcrypt.Hasher, saltRounds: Option<string>, id: string, data: Body)
    returns (r: Result<Obj, Err>)
    requires db.Valid()
    modifies db, data
    ensures db.Valid()
    ensures (r, data.entries, db.users) == UpdateOutcome(old(db.users), h, saltRounds, id, old(data.entries))
  {
    if !SaltConfigured(saltRounds) {
      return Failure(Config(SALT_ROUNDS_MISSING));
    }
    var invalidProps := InvalidProps(Keys(data.entries));
    if |invalidProps| > 0 {
      var message := if |invalidProps| == 1 then "Invalid property: " else "Invalid properties: ";
      message := message + Join(invalidProps, ", ");
      return Failure(BadRequest(message));
    }
    var pass := Get(data.entries, "password");
    if Truthy(pass) {
      if !pass.Str? {
        return Failure(Other(HASH_ARGUMENT_ERROR));
      }
      data.entries := Set(data.entries, "password", Str(h.hash(pass.s, saltRounds.value)));
    }
    match Update(db.users, id, data.entries)
    case Failure(e) =>
      r := Failure(StoreError(e));
    case Success((next, user)) =>
      db.users := next;
      r := Success(ExcludeProperties(ToObject(user), ["password"]));
  }
}
