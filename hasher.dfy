/** An idealised bcrypt: `hash` is salted, and `compare(p, d)` holds exactly
    when `p` agrees with the hashed password on the part bcrypt reads. */
module Hasher {

  /** bcrypt reads at most this many leading units of a password. */
  const KeyLimit: nat := 72

  /** A stored password digest: the salt drawn for it and the key it accepts. */
  datatype Digest = Digest(salt: nat, key: string)

  /** The part of a password that bcrypt reads. */
  function Key(password: string): (k: string)
    ensures |k| <= KeyLimit && k <= password
    ensures |password| <= KeyLimit ==> k == password
  {
    if |password| <= KeyLimit then password else password[..KeyLimit]
  }

  /** `bcrypt.compare(password, digest)`. */
  predicate Compare(password: string, digest: Digest)
    ensures |password| > KeyLimit ==> (Compare(password, digest) <==> Compare(password[..KeyLimit], digest))
    ensures Compare(password, digest) ==> |digest.key| <= KeyLimit
  {
    Key(password) == digest.key
  }

  /** `bcrypt.hash(password, 10)` with `salt` the random salt it draws. */
  function Hash(password: string, salt: nat): (d: Digest)
    ensures Compare(password, d)
    ensures d.salt == salt
  {
    Digest(salt, Key(password))
  }

  /** A digest accepts a password exactly when the password agrees with the
      hashed one on its first `KeyLimit` units; for short passwords, when they are equal. */
  lemma CompareHash(p: string, q: string, salt: nat)
    ensures Compare(q, Hash(p, salt)) <==> Key(q) == Key(p)
    ensures |p| <= KeyLimit && |q| <= KeyLimit ==> (Compare(q, Hash(p, salt)) <==> q == p)
  {
  }
}
