/**
 * The claims of an access token. Signing, parsing and verification (jjwt with an HS256 key)
 * are not part of this model; what is kept is the claim set and its lifetime.
 */
module JwtTokens {
  import opened Basics

  /** The decoded claims of a signed access token. */
  datatype Claims = Claims(subject: string, issuedAt: Time, expiration: Time)

  /** `1000 * 60 * 60 * 3` milliseconds: three hours. */
  const AccessTokenLifetime: nat := 1000 * 60 * 60 * 3

  /** `generateToken(subject)` at clock reading `now`. */
  function GenerateToken(subject: string, now: Time): (c: Claims)
    ensures c.subject == subject && c.issuedAt == now
    ensures c.expiration == now + 10800000
  {
    Claims(subject, now, now + AccessTokenLifetime)
  }
}
