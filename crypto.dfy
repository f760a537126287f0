/** The cryptographic library calls of the core, as symbolic terms: crypto's SHA-256 hex
    digest (FIPS 180-4), bcryptjs's hash and compare, and the claims jsonwebtoken signs
    (RFC 7519). A digest is a free term over its input, so two digests agree exactly when
    their inputs do, and a bcrypt hash can only be checked through BcryptCompare. The salt,
    the cost's running time and the signature bytes are not modelled. */
module Crypto {

  /** crypto.createHash('sha256').update(s).digest('hex') */
  datatype Digest = Sha256Hex(input: string)

  function Sha256(s: string): Digest {
    Sha256Hex(s)
  }

  /** Distinct inputs give distinct digests, so a stored digest identifies one reset token. */
  lemma Sha256Injective(a: string, b: string)
    ensures Sha256(a) == Sha256(b) ==> a == b
  {
  }

  /** The result of bcrypt.hash(secret, cost). */
  datatype BcryptHash = BcryptOf(secret: string, cost: nat)

  /** bcrypt.hash(plain, cost): the hash accepts exactly the plaintext it was made from. */
  function Bcrypt(plain: string, cost: nat): (h: BcryptHash)
    ensures forall c :: BcryptCompare(c, h) <==> c == plain
  {
    BcryptOf(plain, cost)
  }

  /** bcrypt.compare(candidate, h) */
  predicate BcryptCompare(candidate: string, h: BcryptHash) {
    h.secret == candidate
  }

  /** The payload of a session token: the user id and the issue time in whole seconds
      (the `iat` claim of section 4.1.6 of RFC 7519). */
  datatype Claims = Claims(id: string, iat: nat)

  /** What jwt.verify(token, secret) does with a token string: it yields the signed claims,
      or throws because the token is malformed or wrongly signed, or because it has expired. */
  datatype Verified = Decoded(claims: Claims) | BadToken | ExpiredToken

  /** jsonwebtoken's `iat` for a token signed at Date.now() == nowMs. */
  function IssuedAt(nowMs: nat): (iat: nat)
    ensures iat * 1000 <= nowMs < (iat + 1) * 1000
  {
    nowMs / 1000
  }
}
