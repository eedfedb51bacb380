/**
 * backend/src/utils/users/userUtils.ts: filtering properties out of a record,
 * and drawing a random user id that the store does not hold yet.
 */
module UserUtils {
  import opened Wrappers
  import opened Js
  import opened Store

  const USER_ID_LENGTH := 10

  /** `excludeProperties(o, keys)`: a new object with the entries of `o` whose key is not in `keys`, in order. */
  function ExcludeProperties(o: Obj, keys: seq<string>): (r: Obj)
    ensures |r| <= |o|
  {
    if o == [] then []
    else if o[0].0 in keys then ExcludeProperties(o[1..], keys)
    else [o[0]] + ExcludeProperties(o[1..], keys)
  }

  /** The result holds exactly the entries of `o` whose key is not excluded: none is added, none is changed. */
  lemma {:induction false} ExcludeEntries(o: Obj, keys: seq<string>)
    ensures forall e :: e in ExcludeProperties(o, keys) <==> e in o && e.0 !in keys
  {
    if o != [] {
      ExcludeEntries(o[1..], keys);
    }
  }

  /** Reading the result: an excluded key is absent, any other key has its original value. */
  lemma {:induction false} ExcludeGet(o: Obj, keys: seq<string>, k: string)
    ensures Get(ExcludeProperties(o, keys), k) == if k in keys then Undefined else Get(o, k)
  {
    if o != [] {
      ExcludeGet(o[1..], keys, k);
    }
  }

  /** Excluding nothing gives back an object equal to the input. */
  lemma {:induction false} ExcludeNothing(o: Obj)
    ensures ExcludeProperties(o, []) == o
  {
    if o != [] {
      ExcludeNothing(o[1..]);
    }
  }

  /** Excluding the same keys a second time changes nothing. */
  lemma {:induction false} ExcludeIdempotent(o: Obj, keys: seq<string>)
    ensures ExcludeProperties(ExcludeProperties(o, keys), keys) == ExcludeProperties(o, keys)
  {
    if o != [] {
      ExcludeIdempotent(o[1..], keys);
    }
  }

  /** The order of the surviving keys is that of the input. */
  lemma {:induction false} ExcludeKeepsOrder(o: Obj, keys: seq<string>)
    ensures Keys(ExcludeProperties(o, keys)) == Filter(Keys(o), k => k !in keys)
  {
    if o != [] {
      ExcludeKeepsOrder(o[1..], keys);
      assert Keys(o)[1..] == Keys(o[1..]);
    }
  }

  /** A record as every lookup hands it out: `excludeProperties(user, ['password'])`. */
  function WithoutPassword(u: User): (o: Obj)
    ensures o == [("id", Str(u.id)), ("username", Str(u.username)), ("createdAt", Str(u.createdAt)), ("isAdmin", Bool(u.isAdmin))]
    ensures Get(o, "password") == Undefined
    ensures Get(o, "id") == Str(u.id)
  {
    var full, keys := ToObject(u), ["password"];
    assert ExcludeProperties(full[4..], keys) == full[4..];
    assert ExcludeProperties(full[3..], keys) == full[3..];
    assert ExcludeProperties(full[2..], keys) == full[3..];
    assert ExcludeProperties(full[1..], keys) == [full[1]] + full[3..];
    ExcludeGet(full, keys, "password");
    ExcludeProperties(full, keys)
  }

  /** `Math.random().toString().slice(2, USER_ID_LENGTH + 2)`: `draw` is the random number's decimal text. */
  function Candidate(draw: string): (id: string)
    ensures |id| <= USER_ID_LENGTH
    ensures |draw| >= USER_ID_LENGTH + 2 ==> id == draw[2..USER_ID_LENGTH + 2]
  {
    var from := if |draw| < 2 then |draw| else 2;
    var to := if |draw| < USER_ID_LENGTH + 2 then |draw| else USER_ID_LENGTH + 2;
    draw[from..to]
  }

  /**
   * `generateUserId()`: draw a candidate, ask `getUserById` whether it is taken,
   * and draw again until it is not. `draws` are the random numbers drawn, in
   * order; the source recurses without bound, so the model takes as given that
   * some draw is free. `lookups` is the number of store lookups made.
   */
  method GenerateUserId(getUserById: string -> Option<Obj>, draws: seq<string>) returns (id: string, lookups: nat)
    requires exists i :: 0 <= i < |draws| && getUserById(Candidate(draws[i])).None?
    ensures 1 <= lookups <= |draws|
    ensures id == Candidate(draws[lookups - 1]) && |id| <= USER_ID_LENGTH
    ensures getUserById(id).None?
    ensures forall j :: 0 <= j < lookups - 1 ==> getUserById(Candidate(draws[j])).Some?
  {
    var i := 0;
    while true
      invariant 0 <= i < |draws|
      invariant forall j :: 0 <= j < i ==> getUserById(Candidate(draws[j])).Some?
      invariant exists k :: i <= k < |draws| && getUserById(Candidate(draws[k])).None?
      decreases |draws| - i
    {
      var candidate := Candidate(draws[i]);
      var found := getUserById(candidate);
      if found.None? {
        return candidate, i + 1;
      }
      i := i + 1;
    }
  }
}
