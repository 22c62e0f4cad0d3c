/**
 * The argon2 password hasher, seen only through its two operations.
 *
 * The model is an ideal salted hash: a digest records the salt it was made with and
 * is verified by exactly one plaintext (no collisions). The memory-hard computation
 * itself is not modelled.
 */
module Argon {

  datatype Hashed = Hashed(salt: nat, preimage: string)

  /** argon.verify(h, plain): true iff h was produced from plain; never fails on a mismatch. */
  predicate Verify(h: Hashed, plain: string) {
    h.preimage == plain
  }

  /** A hash verifies at most one plaintext. */
  lemma VerifyUnique(h: Hashed, a: string, b: string)
    requires Verify(h, a) && Verify(h, b)
    ensures a == b
  {
  }

  /** argon.hash(plain) once the random salt has been drawn. */
  function Hash(plain: string, salt: nat): (h: Hashed)
    ensures Verify(h, plain)
    ensures forall other :: Verify(h, other) ==> other == plain
    ensures h.salt == salt
  {
    Hashed(salt, plain)
  }

  /** A hash verifies a plaintext exactly when hashing that plaintext with its salt produced it. */
  lemma VerifyIffProduced(h: Hashed, plain: string)
    ensures Verify(h, plain) <==> h == Hash(plain, h.salt)
  {
  }
}

/**
 * JSON Web Token signing, seen only through the claims the service signs and the
 * options it passes. The signer is a parameter of the service: nothing is assumed
 * about it, in particular not that two calls yield different tokens.
 */
module Jwt {

  type Token = string

  /** signAsync(claims, { secret, expiresIn }) issued at a given second. */
  type Signer<!C> = (C, string, nat, nat) -> Token

  /** Lifetime of an access token in seconds: 15 minutes. */
  const AccessTtl: nat := 60 * 15

  /** Lifetime of a refresh token in seconds: 7 days. */
  const RefreshTtl: nat := 60 * 60 * 24 * 7
}
