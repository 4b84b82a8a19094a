/** The JSON Web Token pair the application uses: `sign(payload, PRIVATE_KEY,
    { algorithm: "ES256", expiresIn })` and `verify(token, PUBLIC_KEY,
    { algorithms: ["ES256"] })`. The cryptography is not modelled: a codec is
    a pair of functions, and `Sound` states what the application relies on. */
module Jwt {
  import opened Js

  /** `sign(payload, exp)` is the compact token for `payload` expiring at the
      instant `exp` (seconds); `verify(token, now)` is the payload when the
      token verifies at instant `now`, and `None` when `verify` throws
      (bad signature, other key or algorithm, expired, malformed). */
  datatype Codec = Codec(sign: (Value, int) -> string, verify: (string, int) -> Option<Value>)

  const Day: int := 60 * 60 * 24

  /** `expiresIn: "1y"`: jsonwebtoken reads it with the `ms` library, whose
      year is 365.25 days. */
  const OneYear: int := 31557600

  /** `expiresIn: "30d"`. */
  const ThirtyDays: int := 30 * Day

  /** A compact token is never the empty string. */
  ghost predicate NonEmptyTokens(c: Codec) {
    forall p, exp :: c.sign(p, exp) != ""
  }

  /** Before its expiry a signed token verifies to the payload that was signed. */
  ghost predicate RoundTrip(c: Codec) {
    forall p, exp, now :: now < exp ==> c.verify(c.sign(p, exp), now) == Some(p)
  }

  /** From its expiry instant on, a token no longer verifies. */
  ghost predicate Expires(c: Codec) {
    forall p, exp, now :: exp <= now ==> c.verify(c.sign(p, exp), now) == None
  }

  /** Only tokens signed with the application's private key under ES256 verify:
      any string that verifies is the signature of some payload. */
  ghost predicate Unforgeable(c: Codec) {
    forall t, now :: c.verify(t, now).Some? ==> exists p, exp :: t == c.sign(p, exp)
  }

  ghost predicate Sound(c: Codec) {
    NonEmptyTokens(c) && RoundTrip(c) && Expires(c) && Unforgeable(c)
  }

  /** Whatever verifies was signed, for the payload it verifies to, with an
      expiry still in the future. */
  lemma {:induction false} VerifiedMeansSigned(c: Codec, t: string, now: int)
    requires Sound(c)
    requires c.verify(t, now).Some?
    ensures exists exp :: now < exp && t == c.sign(c.verify(t, now).value, exp)
  {
    var p, exp :| t == c.sign(p, exp);
    assert c.verify(c.sign(p, exp), now) == c.verify(t, now);
  }
}
