/**
 * The cryptography the auth handlers call, as idealised functions.
 *
 * Password hashing (bcrypt with cost 10): `Hash` is salted and one-way,
 * `Compare` accepts exactly the password that was hashed. The digest keeps
 * its preimage only so that `Compare` can be written down; nothing else in
 * the model reads it.
 *
 * Token signing (HMAC-signed JWTs): a token carries its claims, the issue
 * time `iat` and the expiry `exp`, and a signature that is a function of the
 * server secret and those three fields. `Verify` succeeds exactly when the
 * signature matches the fields under the secret and the token has not
 * expired; a tampered or foreign token and an expired one fail alike.
 */
module Crypto {
  import opened Wrappers

  // ---------------------------------------------------------------------
  // bcrypt

  datatype Digest = Digest(salt: nat, preimage: string)

  /** `bcrypt.hash(password, 10)` with the salt it drew. */
  function Hash(password: string, salt: nat): Digest {
    Digest(salt, password)
  }

  /** `bcrypt.compare(password, digest)`. */
  predicate Compare(password: string, d: Digest) {
    d.preimage == password
  }

  lemma CompareAcceptsHashed(password: string, salt: nat)
    ensures Compare(password, Hash(password, salt))
  {
  }

  lemma CompareRejectsOthers(password: string, other: string, salt: nat)
    requires other != password
    ensures !Compare(other, Hash(password, salt))
  {
  }

  // ---------------------------------------------------------------------
  // JWT

  /** The claims every token carries: `sub` is the user id. */
  datatype Claims = Claims(sub: string, email: string, username: string, role: string)

  /** An idealised HMAC over the signed fields. */
  datatype Mac = Mac(key: string, claims: Claims, iat: int, exp: int)

  datatype Token = Token(claims: Claims, iat: int, exp: int, signature: Mac)

  /** `expiresIn` defaults, in seconds: "15m" and "7d". */
  const AccessTtl: nat := 15 * 60
  const RefreshTtl: nat := 7 * 24 * 60 * 60

  /** `server.jwt.sign(claims, { expiresIn: ttl })` at time `now`. */
  function Sign(secret: string, claims: Claims, now: int, ttl: nat): Token {
    Token(claims, now, now + ttl, Mac(secret, claims, now, now + ttl))
  }

  /** `server.jwt.verify(token)` at time `now`: the claims, or failure. */
  function Verify(secret: string, t: Token, now: int): Option<Claims> {
    if t.signature == Mac(secret, t.claims, t.iat, t.exp) && now < t.exp then Some(t.claims) else None
  }

  /** Round trip: a signed token verifies to its claims until it expires,
      and fails from its expiry on. */
  lemma VerifySigned(secret: string, claims: Claims, issued: int, ttl: nat, now: int)
    ensures Verify(secret, Sign(secret, claims, issued, ttl), now)
         == if now < issued + ttl then Some(claims) else None
  {
  }

  /** Changing any signed field of a token without re-signing it makes it
      fail verification. */
  lemma VerifyRejectsTampering(secret: string, t: Token, claims: Claims, exp: int, now: int)
    requires t.signature == Mac(secret, t.claims, t.iat, t.exp)
    requires claims != t.claims || exp != t.exp
    ensures Verify(secret, t.(claims := claims, exp := exp), now) == None
  {
  }

  /** A token signed under another secret never verifies. */
  lemma VerifyRejectsForeignKey(secret: string, other: string, claims: Claims, issued: int, ttl: nat, now: int)
    requires other != secret
    ensures Verify(secret, Sign(other, claims, issued, ttl), now) == None
  {
  }

  /** Signing is deterministic: the same claims signed in the same second
      with the same lifetime give the same token, while the access and the
      refresh token of one sign-in differ. */
  lemma AccessAndRefreshDiffer(secret: string, claims: Claims, now: int)
    ensures Sign(secret, claims, now, AccessTtl) != Sign(secret, claims, now, RefreshTtl)
  {
  }
}
