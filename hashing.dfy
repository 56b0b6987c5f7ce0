/** Salted password hashing as both web applications use it (bcrypt in the
    back end, werkzeug in the portal): the stored hash keeps the salt it was
    made with, and checking a password digests it again under that salt and
    compares. The digest itself is supplied by the caller. */
module Hashing {

  /** A digest of a password under a salt. */
  type Digest = (string, string) -> string

  /** What is stored for a password: the salt and the digest made with it. */
  datatype PasswordHash = PasswordHash(salt: string, digest: string)

  /** `hashpw(password, salt)` / `generate_password_hash(password)`. */
  function HashPassword(digest: Digest, salt: string, password: string): (h: PasswordHash)
    ensures h.salt == salt
    ensures CheckPassword(digest, h, password)
  {
    PasswordHash(salt, digest(salt, password))
  }

  /** `checkpw(password, stored)` / `check_password_hash(stored, password)`. */
  predicate CheckPassword(digest: Digest, stored: PasswordHash, password: string)
  {
    digest(stored.salt, password) == stored.digest
  }

  /** A digest that tells different passwords apart under every salt. */
  ghost predicate Injective(digest: Digest)
  {
    forall salt, a, b :: digest(salt, a) == digest(salt, b) ==> a == b
  }

  /** A password checks against the hash made from it. */
  lemma CheckAcceptsHashedPassword(digest: Digest, salt: string, password: string)
    ensures CheckPassword(digest, HashPassword(digest, salt, password), password)
  {
  }

  /** With an injective digest, only that password checks. */
  lemma CheckRejectsOtherPasswords(digest: Digest, salt: string, password: string, other: string)
    requires Injective(digest)
    ensures CheckPassword(digest, HashPassword(digest, salt, password), other) <==> other == password
  {
  }
}
