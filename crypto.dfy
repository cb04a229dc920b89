/**
 * The libraries the handlers call but whose insides are not modelled:
 * bcrypt (`genSalt`, `hash`, `compare`) and jsonwebtoken (`sign`, `verify`,
 * RFC 7519). Each is a value of function type handed to the handlers, so
 * every property proved holds for any implementation; where a lemma needs
 * more, it says so with `BcryptSound` or `JwtSound`.
 */
module Crypto {
  import opened Wrappers
  import opened UserSchema

  /** `genSalt(rounds)` draws randomness, given here as `entropy`. */
  datatype Bcrypt = Bcrypt(
    genSalt: (nat, nat) -> string,      // (rounds, entropy) -> salt
    hash: (string, string) -> string,   // (plaintext, salt) -> hash
    compare: (string, string) -> bool)  // (plaintext, hash) -> match

  /** The cost factor registration asks `genSalt` for. */
  const SaltRounds: nat := 10

  /** Length of a bcrypt hash string. */
  const BcryptHashLength: nat := 60

  /**
   * What bcrypt guarantees and the model relies on: a hash verifies against
   * its own plaintext, and it is a 60-character string with no white space
   * at either end.
   */
  ghost predicate BcryptSound(bc: Bcrypt) {
    forall p, salt :: && bc.compare(p, bc.hash(p, salt))
                      && |bc.hash(p, salt)| == BcryptHashLength
                      && IsTrimmed(bc.hash(p, salt))
  }

  /** The payloads the handlers sign: `{ UserInfo: {email, name, roles} }` and `{ email }`. */
  datatype Claims =
    | AccessClaims(email: string, name: string, roles: seq<int>)
    | RefreshClaims(email: string)

  /** `decoded.email`: only the refresh payload has a top-level `email`. */
  function TopLevelEmail(c: Claims): (r: Option<string>)
    ensures r.Some? <==> c.RefreshClaims?
    ensures c.RefreshClaims? ==> r == Some(c.email)
  {
    match c
    case AccessClaims(_, _, _) => None
    case RefreshClaims(e) => Some(e)
  }

  /** `sign(payload, secret, expiresIn)` and `verify(token, secret)`; `verify` is `None` on any error. */
  datatype Jwt = Jwt(
    sign: (Claims, string, string) -> string,
    verify: (string, string) -> Option<Claims>)

  /** `ACCESS_TOKEN_SECRET` and `REFRESH_TOKEN_SECRET` from the environment. */
  datatype Secrets = Secrets(access: string, refresh: string)

  const AccessExpiry: string := "5m"
  const RefreshExpiry: string := "1d"

  /**
   * A signature check that ignores expiry: a token verifies under the secret
   * it was signed with, giving back its payload, and under no other secret.
   */
  ghost predicate JwtSound(jwt: Jwt) {
    forall c, key, key', exp :: jwt.verify(jwt.sign(c, key, exp), key') == if key == key' then Some(c) else None
  }
}
