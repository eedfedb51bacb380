/**
 * backend/src/utils/login/loginUtils.ts: the login body must hold a valid
 * username and password and nothing else.
 */
module LoginUtils {
  import opened Wrappers
  import opened Js
  import opened UserSchema

  /** The keys of `data` that the login schema does not declare. */
  function ExtraKeys(data: Obj): (r: seq<string>)
    ensures forall k :: k in r <==> k in Keys(data) && k != "username" && k != "password"
  {
    Filter(Keys(data), k => k != "username" && k != "password")
  }

  /** `userSchema.pick({ username, password }).strict().parse(data)`. */
  function ValidateLoginInput(data: Obj): (r: Result<Obj, seq<Issue>>)
    ensures r.Success? <==> UsernameIssues(Get(data, "username")) == [] && PasswordIssues(Get(data, "password")) == []
                            && forall k :: k in Keys(data) ==> k == "username" || k == "password"
    ensures r.Success? ==> r.value == [("username", Get(data, "username")), ("password", Get(data, "password"))]
                           && Get(data, "username").Str? && Get(data, "password").Str?
    ensures r.Failure? ==> r.error != []
  {
    var name, pass := Get(data, "username"), Get(data, "password");
    var extra := ExtraKeys(data);
    assert extra != [] ==> extra[0] in Keys(data) && extra[0] != "username" && extra[0] != "password";
    var issues := UsernameIssues(name) + PasswordIssues(pass) + (if extra == [] then [] else [UnrecognizedKeys(extra)]);
    if issues != [] then Failure(issues)
    else Success([("username", name), ("password", pass)])
  }

  /** A login body that carries `isAdmin`, whatever its value, is rejected. */
  lemma IsAdminRejected(data: Obj)
    requires "isAdmin" in Keys(data)
    ensures ValidateLoginInput(data).Failure?
    ensures UnrecognizedKeys(ExtraKeys(data)) in ValidateLoginInput(data).error
  {
    assert "isAdmin" in ExtraKeys(data);
  }
}
