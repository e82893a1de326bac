/**
 * Access-token claims. Signing and verification are left abstract: a token string
 * decodes to its claims, to "expired", or to "malformed" (bad signature, bad shape).
 */
module Tokens {
  import opened Models

  /** timedelta(hours=5), the lifetime of the token issued at registration. */
  const REGISTRATION_TTL: int := 5 * 60 * 60
  /** timedelta(minutes=30), the lifetime of the token issued at authorization. */
  const AUTHORIZATION_TTL: int := 30 * 60

  /** The payload of an access token: `user_login`, `user_id` and `exp`. */
  datatype Claims = Claims(userLogin: string, userId: int, exp: Timestamp)

  /** What decoding a token string yields. */
  datatype Decoded = Ok(claims: Claims) | Expired | Malformed

  /** The token decoder, with the secret key fixed. */
  type Decoder = string -> Decoded

  /** The claims of a fresh token: the subject's login and id and an expiry `expiresDelta` after `now`. */
  function CreateAccessToken(login: string, userId: int, expiresDelta: int, now: Timestamp): (c: Claims)
    ensures c.userLogin == login && c.userId == userId
    ensures c.exp - now == expiresDelta
  {
    Claims(login, userId, now + expiresDelta)
  }
}
