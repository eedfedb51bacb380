/**
 * backend/src/utils/users/userSchema.ts: the validation schema of a user's
 * fields, with the bounds of userConstants.ts and the messages of
 * userErrorMessages.ts. Parsing reports every failing check, field by field.
 */
module UserSchema {
  import opened Wrappers
  import opened Js

  const MIN_USERNAME_LENGTH := 3
  const MAX_USERNAME_LENGTH := 20
  const MIN_PASSWORD_LENGTH := 8
  const MAX_PASSWORD_LENGTH := 30

  const USERNAME_REQUIRED := "Username is required."
  const PASSWORD_REQUIRED := "Password is required."
  const USERNAME_MIN_LENGTH := "Username must be at least 3 characters."
  const USERNAME_MAX_LENGTH := "Username must be less than 20 characters."
  const PASSWORD_MIN_LENGTH := "Password must be at least 8 characters."
  const PASSWORD_MAX_LENGTH := "Password must be less than 30 characters."

  /** One problem the schema reports. */
  datatype Issue =
    | FieldIssue(path: string, message: string)  // a string check, with the schema's own message
    | NotBoolean(path: string)                   // the boolean check, with the library's default message
    | UnrecognizedKeys(keys: seq<string>)        // a strict schema met keys it does not declare

  /** `string({ message: required }).min(min, { message: tooShort }).max(max, { message: tooLong })`. */
  function StringIssues(path: string, v: JsValue, min: nat, max: nat, required: string, tooShort: string, tooLong: string): seq<Issue> {
    if !v.Str? then [FieldIssue(path, required)]
    else
      var short := if |v.s| < min then [FieldIssue(path, tooShort)] else [];
      var long := if |v.s| > max then [FieldIssue(path, tooLong)] else [];
      short + long
  }

  /** The `username` field: a string of 3 to 20 characters, both bounds included. */
  function UsernameIssues(v: JsValue): (r: seq<Issue>)
    ensures r == [] <==> v.Str? && MIN_USERNAME_LENGTH <= |v.s| <= MAX_USERNAME_LENGTH
    ensures !v.Str? ==> r == [FieldIssue("username", USERNAME_REQUIRED)]
    ensures v.Str? && |v.s| < MIN_USERNAME_LENGTH ==> r == [FieldIssue("username", USERNAME_MIN_LENGTH)]
    ensures v.Str? && |v.s| > MAX_USERNAME_LENGTH ==> r == [FieldIssue("username", USERNAME_MAX_LENGTH)]
  {
    StringIssues("username", v, MIN_USERNAME_LENGTH, MAX_USERNAME_LENGTH, USERNAME_REQUIRED, USERNAME_MIN_LENGTH, USERNAME_MAX_LENGTH)
  }

  /** The `password` field: a string of 8 to 30 characters, both bounds included. */
  function PasswordIssues(v: JsValue): (r: seq<Issue>)
    ensures r == [] <==> v.Str? && MIN_PASSWORD_LENGTH <= |v.s| <= MAX_PASSWORD_LENGTH
    ensures !v.Str? ==> r == [FieldIssue("password", PASSWORD_REQUIRED)]
    ensures v.Str? && |v.s| < MIN_PASSWORD_LENGTH ==> r == [FieldIssue("password", PASSWORD_MIN_LENGTH)]
    ensures v.Str? && |v.s| > MAX_PASSWORD_LENGTH ==> r == [FieldIssue("password", PASSWORD_MAX_LENGTH)]
  {
    StringIssues("password", v, MIN_PASSWORD_LENGTH, MAX_PASSWORD_LENGTH, PASSWORD_REQUIRED, PASSWORD_MIN_LENGTH, PASSWORD_MAX_LENGTH)
  }

  /** The `isAdmin` field: a boolean. */
  function IsAdminIssues(v: JsValue): (r: seq<Issue>)
    ensures r == [] <==> v.Bool?
    ensures r != [] ==> r == [NotBoolean("isAdmin")]
  {
    if v.Bool? then [] else [NotBoolean("isAdmin")]
  }

  datatype UserInput = UserInput(username: string, password: string, isAdmin: bool)

  /** `userSchema.parse(data)`: keys the schema does not declare are dropped, not rejected. */
  function ParseUser(data: Obj): (r: Result<UserInput, seq<Issue>>)
    ensures r.Success? <==> UsernameIssues(Get(data, "username")) == [] && PasswordIssues(Get(data, "password")) == [] && Get(data, "isAdmin").Bool?
    ensures r.Success? ==> Get(data, "username") == Str(r.value.username) && Get(data, "password") == Str(r.value.password)
                           && Get(data, "isAdmin") == Bool(r.value.isAdmin)
    ensures r.Failure? ==> r.error != []
  {
    var name, pass, admin := Get(data, "username"), Get(data, "password"), Get(data, "isAdmin");
    var issues := UsernameIssues(name) + PasswordIssues(pass) + IsAdminIssues(admin);
    if issues != [] then Failure(issues)
    else Success(UserInput(name.s, pass.s, admin.b))
  }

  /** The upper bound is inclusive: a 20-character username passes, although its message speaks of "less than 20". */
  lemma LongestUsernameAccepted(s: string)
    requires |s| == MAX_USERNAME_LENGTH
    ensures UsernameIssues(Str(s)) == []
    ensures UsernameIssues(Str(s + "x")) == [FieldIssue("username", USERNAME_MAX_LENGTH)]
  {
  }
}
