/**
 * An abstract model of the `jsonwebtoken` library as the password-reset flow
 * uses it: `sign(payload, secret, {expiresIn})` and `verify(token, secret)`.
 *
 * Signing is modelled symbolically (an ideal signature scheme): a token
 * records the claims, the key it was signed with and its expiry instant, and
 * only the same key verifies it. No cryptography is modelled. Time is an
 * explicit parameter in whole seconds, as in the `iat`/`exp` claims.
 */
module Jwt {

  /** The claims a reset token carries: `{email, id}`. */
  datatype Payload = Payload(email: string, id: nat)

  /** A signed token: claims, signing key and the `exp` claim (seconds). */
  datatype Token = Token(claims: Payload, key: string, exp: int)

  /** Why `verify` throws: a bad signature, or a token past its `exp`. */
  datatype VerifyError = InvalidSignature | TokenExpired

  datatype Verification = Verified(claims: Payload) | Rejected(reason: VerifyError)

  /** `sign(claims, key, {expiresIn})` at clock reading `now`. */
  function Sign(claims: Payload, key: string, now: int, expiresIn: nat): (token: Token)
    ensures forall at :: now <= at < now + expiresIn ==> Verify(token, key, at) == Verified(claims)
    ensures forall at :: at >= now + expiresIn ==> Verify(token, key, at) == Rejected(TokenExpired)
    ensures forall other, at :: other != key ==> Verify(token, other, at) == Rejected(InvalidSignature)
  {
    Token(claims, key, now + expiresIn)
  }

  /**
   * `verify(token, key)` at clock reading `now`: the signature is checked
   * first, then expiry; a token is expired once `now >= exp`.
   */
  function Verify(token: Token, key: string, now: int): (v: Verification)
    ensures v.Verified? <==> key == token.key && now < token.exp
    ensures v.Verified? ==> v.claims == token.claims
    ensures v == Rejected(TokenExpired) ==> key == token.key
  {
    if token.key != key then Rejected(InvalidSignature)
    else if now >= token.exp then Rejected(TokenExpired)
    else Verified(token.claims)
  }

  /** A token verifies under its own key, with its own claims, until it expires. */
  lemma SignThenVerify(claims: Payload, key: string, now: int, expiresIn: nat, at: int)
    requires now <= at < now + expiresIn
    ensures Verify(Sign(claims, key, now, expiresIn), key, at) == Verified(claims)
  {
  }

  /** From the moment of expiry on, even the right key is refused. */
  lemma ExpiredTokenRejected(claims: Payload, key: string, now: int, expiresIn: nat, at: int)
    requires at >= now + expiresIn
    ensures Verify(Sign(claims, key, now, expiresIn), key, at) == Rejected(TokenExpired)
  {
  }

  /** Any key other than the signing key is refused, at every instant. */
  lemma OtherKeyRejected(token: Token, key: string, at: int)
    requires key != token.key
    ensures Verify(token, key, at) == Rejected(InvalidSignature)
  {
  }
}
