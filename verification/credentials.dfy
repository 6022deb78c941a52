/**
 * Password storage of the account schema. The adaptive hash is a foreign
 * library; here it is an arbitrary function `Hasher` of a salt and a
 * plaintext, and the per-record salt is an input of the save.
 */
module Credentials {

  type Hasher = (nat, string) -> string

  /** What an account stores in place of its password: the salt and the digest. */
  datatype PasswordHash = PasswordHash(salt: nat, digest: string)

  /**
   * The password field of an account document about to be saved: either the
   * hash loaded from the store (not modified) or a plaintext just assigned to
   * it (modified).
   */
  datatype PasswordField = Loaded(hash: PasswordHash) | Assigned(plain: string)

  /** `comparePassword`: does `candidate` hash, under the stored salt, to the stored digest? */
  predicate ComparePassword(h: Hasher, candidate: string, stored: PasswordHash) {
    h(stored.salt, candidate) == stored.digest
  }

  /** The hash function is one-way in the sense the login needs: two plaintexts never share a digest under one salt. */
  ghost predicate Injective(h: Hasher) {
    forall salt, a, b :: h(salt, a) == h(salt, b) ==> a == b
  }

  /**
   * The pre-save hook: a modified password is hashed with a fresh salt; an
   * unmodified one keeps the stored hash untouched.
   */
  function PreSave(h: Hasher, salt: nat, field: PasswordField): (r: PasswordHash)
    ensures field.Loaded? ==> r == field.hash
    ensures field.Assigned? ==> r.salt == salt && ComparePassword(h, field.plain, r)
  {
    match field
    case Loaded(hash) => hash
    case Assigned(plain) => PasswordHash(salt, h(salt, plain))
  }

  /**
   * After a save that assigned `password`, the comparison accepts exactly that
   * password (for an injective hash) whatever salt was drawn.
   */
  lemma CompareAfterSave(h: Hasher, salt: nat, password: string, candidate: string)
    requires Injective(h)
    ensures ComparePassword(h, candidate, PreSave(h, salt, Assigned(password))) <==> candidate == password
  {
  }
}
