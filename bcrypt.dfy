/**
 * The password hashing library, seen only through its two calls. Salting makes
 * the real `hash` non-deterministic; the model fixes one hash per password and
 * cost setting, which is all the account logic relies on.
 */
module Bcrypt {

  datatype Hasher = Hasher(
    hash: (string, string) -> string,   // hash(plaintext, BCRYPT_SALT_ROUNDS)
    compare: (string, string) -> bool)  // compare(plaintext, storedHash)

  /** The library's promise: a password always matches its own hash. */
  ghost predicate Sound(h: Hasher) {
    forall p, rounds :: h.compare(p, h.hash(p, rounds))
  }
}
