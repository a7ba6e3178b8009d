/** Minting and validating the three kinds of signed token. The configuration values
    `JWT:Key`, `JWT:Issuer`, `JWT:Audience`, `JWT:AccessTokenExpiry` and
    `JWT:RefreshTokenExpiry` are a `Config`; `now` is `DateTime.UtcNow` in whole seconds and
    `jti` is the `Guid.NewGuid()` the token is minted with. */
module TokenUtil {
  import opened Wrappers
  import opened SecurityTokens
  import opened Entities

  datatype TokenType = REFRESH | ACCESS | RESET

  datatype Config = Config(
    key: string,
    issuer: string,
    audience: string,
    accessTokenExpiry: int,
    refreshTokenExpiry: int)

  /** `AuthResponseDto`. */
  datatype AuthTokens = AuthTokens(access: Jwt, refresh: Jwt)

  const SecondsPerMinute: int := 60
  const SecondsPerHour: int := 3600
  const SecondsPerDay: int := 86400

  /** Reset tokens live a fixed ten minutes. */
  const ResetTokenLifetime: int := 10 * SecondsPerMinute

  /** The `purpose` claim value written into reset tokens. */
  const ResetPurpose: string := "reset-password"

  /** `GenerateToken`: every kind carries `sub`, a fresh `jti` and `iat`; the kind decides
      the expiry and the extra claims. The token is signed with the configured key for the
      configured issuer and audience. */
  function GenerateToken(user: User, cfg: Config, kind: TokenType, now: int, jti: string): (t: Jwt)
    ensures t.Signed? && t.issuer == cfg.issuer && t.audience == cfg.audience
    ensures t.signature == HmacSha256(cfg.key, cfg.issuer, cfg.audience, t.claims)
    ensures t.claims.sub == Some(user.base.id) && t.claims.jti == jti && t.claims.iat == now
    ensures kind == REFRESH ==>
      && t.claims.exp == Some(now + cfg.refreshTokenExpiry * SecondsPerHour)
      && t.claims.email.None? && t.claims.nameIdentifier.None? && t.claims.purpose.None?
    ensures kind == ACCESS ==>
      && t.claims.exp == Some(now + cfg.accessTokenExpiry * SecondsPerHour)
      && t.claims.email == Some(user.email) && t.claims.nameIdentifier == Some(user.base.id)
      && t.claims.purpose.None?
    ensures kind == RESET ==>
      && t.claims.exp == Some(now + ResetTokenLifetime)
      && t.claims.purpose == Some(ResetPurpose) && t.claims.email == Some(user.email)
      && t.claims.nameIdentifier.None?
  {
    var base := Claims(Some(user.base.id), jti, now, None, None, None, None);
    var claims :=
      match kind
      case REFRESH =>
        base.(exp := Some(now + cfg.refreshTokenExpiry * SecondsPerHour))
      case ACCESS =>
        base.(exp := Some(now + cfg.accessTokenExpiry * SecondsPerHour),
              email := Some(user.email), nameIdentifier := Some(user.base.id))
      case RESET =>
        base.(exp := Some(now + ResetTokenLifetime),
              purpose := Some(ResetPurpose), email := Some(user.email));
    Signed(cfg.issuer, cfg.audience, claims, HmacSha256(cfg.key, cfg.issuer, cfg.audience, claims))
  }

  /** The two GUIDs `GenerateTokens` draws, one per token. */
  datatype Guids = Guids(access: string, refresh: string)

  /** `GenerateTokens`: an ACCESS token as `Access` and a REFRESH token as `Refresh`. */
  function GenerateTokens(user: User, cfg: Config, now: int, guids: Guids): (r: AuthTokens)
    ensures r.access.Signed? && r.refresh.Signed?
    ensures r.access.issuer == cfg.issuer && r.access.audience == cfg.audience
    ensures r.access.signature == HmacSha256(cfg.key, cfg.issuer, cfg.audience, r.access.claims)
    ensures r.refresh.issuer == cfg.issuer && r.refresh.audience == cfg.audience
    ensures r.refresh.signature == HmacSha256(cfg.key, cfg.issuer, cfg.audience, r.refresh.claims)
    ensures r.access.claims == Claims(Some(user.base.id), guids.access, now,
                                      Some(now + cfg.accessTokenExpiry * SecondsPerHour),
                                      Some(user.email), Some(user.base.id), None)
    ensures r.refresh.claims == Claims(Some(user.base.id), guids.refresh, now,
                                       Some(now + cfg.refreshTokenExpiry * SecondsPerHour),
                                       None, None, None)
  {
    AuthTokens(GenerateToken(user, cfg, ACCESS, now, guids.access),
               GenerateToken(user, cfg, REFRESH, now, guids.refresh))
  }

  /** `ValidateToken`: the claim set of a token signed with the configured key for the
      configured issuer and audience whose lifetime has not run out; `None` -- never an
      exception -- for everything else. The kind of token is not checked. */
  function ValidateToken(cfg: Config, token: Jwt, now: int): (r: Option<Claims>)
    ensures r.Some? ==> token.Signed? && r.value == token.claims
    ensures r.Some? ==> token.claims.exp.Some? && now <= token.claims.exp.value
    ensures r.Some? ==> token.signature == HmacSha256(cfg.key, token.issuer, token.audience, token.claims)
    ensures r.Some? ==> token.issuer == cfg.issuer && token.audience == cfg.audience
    ensures && token.Signed?
            && token.signature == HmacSha256(cfg.key, token.issuer, token.audience, token.claims)
            && token.issuer == cfg.issuer && token.audience == cfg.audience
            && token.claims.exp.Some? && now <= token.claims.exp.value
            ==> r == Some(token.claims)
  {
    match token
    case Malformed(_) => None
    case Signed(iss, aud, claims, sig) =>
      if sig == HmacSha256(cfg.key, iss, aud, claims)
         && iss == cfg.issuer && aud == cfg.audience
         && claims.exp.Some? && now <= claims.exp.value
      then Some(claims)
      else None
  }

  /** The expiry `GenerateToken` gives a kind of token. */
  function Lifetime(cfg: Config, kind: TokenType): int
  {
    match kind
    case REFRESH => cfg.refreshTokenExpiry * SecondsPerHour
    case ACCESS => cfg.accessTokenExpiry * SecondsPerHour
    case RESET => ResetTokenLifetime
  }

  /** Round trip: a token minted with the configured key validates, with exactly the
      claims it was minted with, until its expiry and not after -- whatever its kind. */
  lemma GeneratedTokenValidates(user: User, cfg: Config, kind: TokenType, mintedAt: int, jti: string, now: int)
    ensures var t := GenerateToken(user, cfg, kind, mintedAt, jti);
      ValidateToken(cfg, t, now) == (if now <= mintedAt + Lifetime(cfg, kind) then Some(t.claims) else None)
  {
  }

  /** A token minted under another key, issuer or audience never validates. */
  lemma ForeignTokenRejected(user: User, cfg: Config, other: Config, kind: TokenType, mintedAt: int, jti: string, now: int)
    requires other.key != cfg.key || other.issuer != cfg.issuer || other.audience != cfg.audience
    ensures ValidateToken(cfg, GenerateToken(user, other, kind, mintedAt, jti), now).None?
  {
  }

  /** Changing any claim of a signed token without re-signing it makes it invalid. */
  lemma TamperedTokenRejected(cfg: Config, t: Jwt, forged: Claims, now: int)
    requires t.Signed? && forged != t.claims
    requires ValidateToken(cfg, t, now).Some?
    ensures ValidateToken(cfg, t.(claims := forged), now).None?
  {
  }

  /** Validation ignores the kind: an access token and a refresh token minted for the
      same user at the same time are both accepted where either is. */
  lemma ValidateIgnoresKind(user: User, cfg: Config, mintedAt: int, jti: string, now: int)
    requires cfg.accessTokenExpiry == cfg.refreshTokenExpiry
    ensures ValidateToken(cfg, GenerateToken(user, cfg, ACCESS, mintedAt, jti), now).Some?
        <==> ValidateToken(cfg, GenerateToken(user, cfg, REFRESH, mintedAt, jti), now).Some?
  {
  }
}
