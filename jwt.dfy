/**
 * An abstract model of the signed tokens that `jsonwebtoken` produces and
 * checks. A token carries a claim, the key it was signed with and its expiry
 * in whole seconds since the epoch; no cryptography is modelled. The key tag
 * stands for the signature: only a holder of the key can make a token with
 * that tag, and verification with any other key fails.
 */
module Jwt {
  import opened Wrappers

  /** The payload every token of this system carries. */
  datatype Claim = Claim(userId: string, role: string)

  /**
   * A token string as it travels in a cookie. `Signed` is the string that
   * signing `claim` with `key` produced; every other string, including the
   * empty one, is `Garbage`.
   */
  datatype TokenText = Signed(claim: Claim, key: string, exp: int) | Garbage(text: string)

  datatype VerifyError = Malformed | InvalidSignature | Expired

  /** The clock in whole seconds, as the library reads `Date.now()`. */
  function Seconds(nowMs: nat): (sec: nat)
    ensures sec * 1000 <= nowMs < (sec + 1) * 1000
  {
    nowMs / 1000
  }

  /** `jwt.sign(claim, key, {expiresIn: ttl})` at time `nowMs`. */
  function Sign(claim: Claim, key: string, nowMs: nat, ttlSeconds: nat): (t: TokenText)
    ensures t.Signed? && t.claim == claim && t.key == key
    ensures Verify(t, key, nowMs) == if ttlSeconds > 0 then Success(claim) else Failure(Expired)
  {
    Signed(claim, key, Seconds(nowMs) + ttlSeconds)
  }

  /**
   * `jwt.verify(token, key)` at time `nowMs`: a malformed string, a token
   * signed with another key, and a token whose expiry second has been reached
   * are rejected; otherwise the claim is returned.
   */
  function Verify(t: TokenText, key: string, nowMs: nat): (r: Result<Claim, VerifyError>)
    ensures r.Success? ==> t.Signed? && t.key == key && r.value == t.claim && nowMs < t.exp * 1000
  {
    match t
    case Garbage(_) => Failure(Malformed)
    case Signed(claim, k, exp) =>
      if k != key then Failure(InvalidSignature)
      else if Seconds(nowMs) >= exp then Failure(Expired)
      else Success(claim)
  }

  /** Signing then verifying with the same key gives back the claim until the expiry second. */
  lemma SignVerifyRoundTrip(claim: Claim, key: string, issuedMs: nat, ttlSeconds: nat, nowMs: nat)
    ensures Verify(Sign(claim, key, issuedMs, ttlSeconds), key, nowMs)
         == if Seconds(nowMs) < Seconds(issuedMs) + ttlSeconds then Success(claim) else Failure(Expired)
  {
  }

  /** A token is accepted only under the key it was signed with. */
  lemma WrongKeyRejected(t: TokenText, key: string, nowMs: nat)
    ensures t.Signed? && t.key != key ==> Verify(t, key, nowMs) == Failure(InvalidSignature)
    ensures t.Garbage? ==> Verify(t, key, nowMs) == Failure(Malformed)
    ensures Verify(t, key, nowMs).Success? ==> t.Signed? && t.key == key && Verify(t, key, nowMs).value == t.claim
  {
  }

  /** Once a token has expired it stays expired. */
  lemma {:induction false} ExpiryIsFinal(t: TokenText, key: string, nowMs: nat, laterMs: nat)
    requires nowMs <= laterMs
    requires Verify(t, key, nowMs) == Failure(Expired)
    ensures Verify(t, key, laterMs) == Failure(Expired)
  {
    assert Seconds(nowMs) <= Seconds(laterMs);
  }
}
