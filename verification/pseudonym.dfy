/**
 * The pseudonymous queue reference of a citizen: the hex SHA-256 digest of the
 * CPR number followed directly by the first name (the name acts as a salt).
 * The digest itself is not modelled; it is passed in as an arbitrary function.
 */
module Pseudonym {

  /** The hex digest of a string (SHA-256 in the source). */
  type Hash = string -> string

  function EncryptData(hash: Hash, cpr: string, firstName: string): (key: string)
  {
    hash(cpr + firstName)
  }

  /** The key depends on the two fields only through their concatenation. */
  lemma KeyDependsOnConcatenationOnly(hash: Hash, cpr1: string, name1: string, cpr2: string, name2: string)
    requires cpr1 + name1 == cpr2 + name2
    ensures EncryptData(hash, cpr1, name1) == EncryptData(hash, cpr2, name2)
  {
  }

  /**
   * For CPR numbers of one fixed length (ten digits in practice) and a digest
   * with no collision on the two salted inputs, two citizens share a key
   * exactly when they share both the CPR number and the first name.
   */
  lemma {:induction false} SameKeyIffSamePerson(hash: Hash, cpr1: string, name1: string, cpr2: string, name2: string)
    requires hash(cpr1 + name1) == hash(cpr2 + name2) ==> cpr1 + name1 == cpr2 + name2
    requires |cpr1| == |cpr2|
    ensures EncryptData(hash, cpr1, name1) == EncryptData(hash, cpr2, name2)
            <==> cpr1 == cpr2 && name1 == name2
  {
    if EncryptData(hash, cpr1, name1) == EncryptData(hash, cpr2, name2) {
      var s := cpr1 + name1;
      assert s == cpr2 + name2;
      assert cpr1 == s[..|cpr1|] == cpr2;
      assert name1 == s[|cpr1|..] == name2;
    }
  }

  /**
   * Without the fixed length the concatenation is ambiguous: a shorter CPR
   * with a longer name can give the same key as a different person.
   */
  lemma ConcatenationIsAmbiguous(hash: Hash)
    ensures EncryptData(hash, "12", "3a") == EncryptData(hash, "123", "a")
  {
    assert "12" + "3a" == "123" + "a";
  }
}
