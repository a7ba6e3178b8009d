/** The signed session token, as a value: a JSON Web Token is its issuer, audience and
    claim set together with an HMAC-SHA256 signature over them. The signature is kept
    symbolic -- it records the key and the signed content -- so a token validates under a
    key exactly when it was signed with that key over the same content. A string that does
    not parse as a JWT at all is `Malformed`. */
module SecurityTokens {
  import opened Wrappers

  /** The claims the service reads back. `sub` and `exp` hold the parsed integer value of
      the claim, `None` when the claim is missing or does not parse; `email` is
      `ClaimTypes.Email`, `nameIdentifier` is `ClaimTypes.NameIdentifier`. */
  datatype Claims = Claims(
    sub: Option<int>,
    jti: string,
    iat: int,
    exp: Option<int>,
    email: Option<string>,
    nameIdentifier: Option<int>,
    purpose: Option<string>)

  datatype Signature = HmacSha256(key: string, issuer: string, audience: string, claims: Claims)

  datatype Jwt =
    | Signed(issuer: string, audience: string, claims: Claims, signature: Signature)
    | Malformed(text: string)

  /** True when `token` is a signed token whose `jti` claim is `jti`. */
  predicate CarriesJti(token: Jwt, jti: string)
  {
    token.Signed? && token.claims.jti == jti
  }
}
