/** `AuthService`: register, login, logout, refresh, prune, forgot-password and
    reset-password as transitions of the store. Each call is one atomic step; `now` is
    the wall clock in seconds, `guids` the GUIDs drawn for new token ids, `storeFails`
    an exception raised by the database inside a try block, and `send` what the mail
    transport does. */
module AuthService {
  import opened Wrappers
  import opened Passwords
  import opened SecurityTokens
  import opened Entities
  import opened DataContext
  import opened TokenUtil
  import opened Responses
  import opened EmailService

  /** `AuthRegisterDto` (the password confirmation is the request layer's concern). */
  datatype RegisterRequest = RegisterRequest(
    userName: string,
    firstName: string,
    lastName: string,
    email: string,
    password: string)

  /** `AuthLoginDto`. */
  datatype LoginRequest = LoginRequest(email: string, password: string)

  /** A call's effect on the store and its answer. */
  datatype Step<R> = Step(store: Store, result: R)

  /** The reset-link mail `ForgotPasswordAsync` hands to the mail service; the link it
      carries embeds `token`. */
  datatype ResetMail = ResetMail(recipients: seq<string>, subject: string, token: Jwt)

  /** How an awaited call ends: with a returned value, or with an exception that escapes
      it (which the controller's catch answers with a 500 problem response). */
  datatype Completion<R> = Returned(value: R) | Threw

  /** How `ForgotPasswordAsync` ends and the mail it attempted, if any. */
  datatype ForgotOutcome = ForgotOutcome(response: Completion<ApiResponse<Jwt>>, mail: Option<ResetMail>)

  /** Refresh tokens closer than this to their expiry are rotated. */
  const RotationWindow: int := 10 * SecondsPerMinute

  /** The `purpose` value `ResetPasswordAsync` insists on. */
  const PasswordResetPurpose: string := "password-reset"

  const ResetMailSubject: string := "Password Reset Request"

  // ---------------------------------------------------------------------------
  // The responses the service returns, with their validation-error dictionaries.

  function EmailAlreadyUsed(): ApiResponse<AuthTokens>
  {
    ErrorResponse(ValidationError, map["email" := "Invalid email address."])
  }

  function CreationFailed(): ApiResponse<AuthTokens>
  {
    ErrorResponse(InternalServerError, map[])
  }

  function InvalidCredentials<T>(): ApiResponse<T>
  {
    ErrorResponse(Unauthorized, map["user" := "Invalid credentials."])
  }

  function InvalidRefreshToken(): ApiResponse<AuthTokens>
  {
    ErrorResponse(Unauthorized, map["token" := "Invalid refresh token."])
  }

  function StaleRefreshToken(): ApiResponse<AuthTokens>
  {
    ErrorResponse(Unauthorized, map["Token" := "Refresh token is already expired or invalid."])
  }

  function ResetMailFailed(): ApiResponse<Jwt>
  {
    ErrorResponse(BadRequest, map["email" := "Failed to send email for password reset."])
  }

  function InvalidTokenPayload(): ApiResponse<string>
  {
    ErrorResponse(Unauthorized, map["token" := "Invalid token payload."])
  }

  function ResetFailed(): ApiResponse<string>
  {
    ErrorResponse(InternalServerError, map["transaction" := "An error occurred during password reset."])
  }

  // ---------------------------------------------------------------------------
  // Row helpers.

  /** The persisted expiration of a new session row: `RefreshTokenExpiry` DAYS from now. */
  function SessionExpiration(cfg: Config, now: int): int
  {
    now + cfg.refreshTokenExpiry * SecondsPerDay
  }

  /** Inserts the session row for `refresh`, owned by `userId`, with the next token key. */
  function AddSession(s: Store, userId: int, refresh: Jwt, cfg: Config, now: int): Store
  {
    s.(tokens := s.tokens + [Token(Inserted(s.nextTokenId, now), userId, refresh, false, SessionExpiration(cfg, now))],
       nextTokenId := s.nextTokenId + 1)
  }

  /** `token.IsRevoked = true`, saved at `now`. */
  function Revoke(t: Token, now: int): (r: Token)
    ensures r.isRevoked
    ensures r.base.id == t.base.id && r.base.createdAt == t.base.createdAt && r.base.updatedAt == now
    ensures r.userId == t.userId && r.refresh == t.refresh && r.expiration == t.expiration
  {
    t.(isRevoked := true, base := Touched(t.base, now))
  }

  /** The guard logout and refresh apply to a stored row: not revoked, and not
      `Expiration < now`. */
  predicate Usable(t: Token, now: int)
  {
    !t.isRevoked && !(t.expiration < now)
  }

  /** The guard reset-password applies: not revoked and `Expiration > now`. */
  predicate Active(t: Token, now: int)
  {
    !t.isRevoked && t.expiration > now
  }

  // ---------------------------------------------------------------------------
  // Post-state descriptions.

  /** `s'` is `s` with exactly one new session row appended: unrevoked, owned by
      `userId`, holding `refresh`, expiring `RefreshTokenExpiry` days after `now`, stamped
      as inserted at `now`; the existing rows are untouched. */
  predicate SessionAdded(s: Store, s': Store, userId: int, refresh: Jwt, cfg: Config, now: int)
  {
    && |s'.tokens| == |s.tokens| + 1
    && s'.tokens[..|s.tokens|] == s.tokens
    && s'.tokens[|s.tokens|].base == Base(s.nextTokenId, now, now)
    && s'.tokens[|s.tokens|].userId == userId
    && s'.tokens[|s.tokens|].refresh == refresh
    && !s'.tokens[|s.tokens|].isRevoked
    && s'.tokens[|s.tokens|].expiration == now + cfg.refreshTokenExpiry * SecondsPerDay
    && s'.nextTokenId == s.nextTokenId + 1
  }

  /** `s'` differs from `s` only in row `i` of the token table, which is revoked. */
  predicate RevokedOnly(s: Store, s': Store, i: nat, now: int)
    requires i < |s.tokens|
  {
    && s'.users == s.users
    && s'.nextUserId == s.nextUserId && s'.nextTokenId == s.nextTokenId
    && |s'.tokens| == |s.tokens|
    && s'.tokens[i] == Revoke(s.tokens[i], now)
    && forall j :: 0 <= j < |s.tokens| && j != i ==> s'.tokens[j] == s.tokens[j]
  }

  // ---------------------------------------------------------------------------
  // RegisterAsync

  function Register(s: Store, req: RegisterRequest, cfg: Config, now: int, guids: Guids, storeFails: bool)
    : (out: Step<ApiResponse<AuthTokens>>)
    ensures EmailTaken(s.users, req.email) ==> out == Step(s, EmailAlreadyUsed())
    ensures !EmailTaken(s.users, req.email) && storeFails ==> out == Step(s, CreationFailed())
    ensures !EmailTaken(s.users, req.email) && !storeFails ==>
      && |out.store.users| == |s.users| + 1
      && out.store.users[..|s.users|] == s.users
      && out.store.nextUserId == s.nextUserId + 1
      && RegisteredUser(out.store.users[|s.users|], req, s.nextUserId, now)
      && out.result == SuccessResponse(Some(GenerateTokens(out.store.users[|s.users|], cfg, now, guids)))
      && SessionAdded(s, out.store, s.nextUserId, out.result.data.value.refresh, cfg, now)
  {
    if EmailTaken(s.users, req.email) then Step(s, EmailAlreadyUsed())
    else if storeFails then Step(s, CreationFailed())
    else
      var user := User(Inserted(s.nextUserId, now), req.email, req.userName,
                       Some(req.firstName), Some(req.lastName), HashPassword(req.password));
      var withUser := s.(users := s.users + [user], nextUserId := s.nextUserId + 1);
      var authDto := GenerateTokens(user, cfg, now, guids);
      Step(AddSession(withUser, user.base.id, authDto.refresh, cfg, now), SuccessResponse(Some(authDto)))
  }

  /** The user row a registration inserts: the request's fields, the hash of its password,
      the next user key, stamped at `now`. */
  predicate RegisteredUser(u: User, req: RegisterRequest, id: int, now: int)
  {
    && u.base == Base(id, now, now)
    && u.email == req.email && u.username == req.userName
    && u.firstName == Some(req.firstName) && u.lastName == Some(req.lastName)
    && VerifyPassword(u.password, req.password)
  }

  // ---------------------------------------------------------------------------
  // LoginAsync

  /** Some user has `email`, and the first such user's hash verifies `password`. */
  predicate CredentialsMatch(users: seq<User>, email: string, password: string)
  {
    var i := FindUserByEmail(users, email);
    i.Some? && VerifyPassword(users[i.value].password, password)
  }

  function Login(s: Store, req: LoginRequest, cfg: Config, now: int, guids: Guids)
    : (out: Step<ApiResponse<AuthTokens>>)
    ensures !CredentialsMatch(s.users, req.email, req.password) ==> out == Step(s, InvalidCredentials())
    ensures CredentialsMatch(s.users, req.email, req.password) ==>
      var u := s.users[FindUserByEmail(s.users, req.email).value];
      && out.result == SuccessResponse(Some(GenerateTokens(u, cfg, now, guids)))
      && out.store.users == s.users && out.store.nextUserId == s.nextUserId
      && SessionAdded(s, out.store, u.base.id, out.result.data.value.refresh, cfg, now)
  {
    match FindUserByEmail(s.users, req.email)
    case None => Step(s, InvalidCredentials())
    case Some(i) =>
      var user := s.users[i];
      if !VerifyPassword(user.password, req.password) then Step(s, InvalidCredentials())
      else
        var authDto := GenerateTokens(user, cfg, now, guids);
        Step(AddSession(s, user.base.id, authDto.refresh, cfg, now), SuccessResponse(Some(authDto)))
  }

  // ---------------------------------------------------------------------------
  // LogoutAsync

  /** The row a token string finds, if that row passes the logout/refresh guard. */
  predicate UsableRow(s: Store, refresh: Jwt, now: int)
  {
    var i := FindTokenByRefresh(s.tokens, refresh);
    i.Some? && Usable(s.tokens[i.value], now)
  }

  function Logout(s: Store, refresh: Jwt, now: int): (out: Step<bool>)
    ensures !UsableRow(s, refresh, now) ==> out == Step(s, false)
    ensures UsableRow(s, refresh, now) ==>
      out.result && RevokedOnly(s, out.store, FindTokenByRefresh(s.tokens, refresh).value, now)
  {
    match FindTokenByRefresh(s.tokens, refresh)
    case None => Step(s, false)
    case Some(i) =>
      var token := s.tokens[i];
      if token.isRevoked || token.expiration < now then Step(s, false)
      else Step(s.(tokens := s.tokens[i := Revoke(token, now)]), true)
  }

  // ---------------------------------------------------------------------------
  // RefreshUserTokensAsync

  /** The near-expiry test on the presented token's claims: rotate when `exp` is missing or
      unreadable, or earlier than ten minutes from now. */
  predicate NeedsRotation(claims: Claims, now: int)
  {
    claims.exp.None? || claims.exp.value < now + RotationWindow
  }

  /** The presented token's row (found with its owner, as the query's `Include` join does)
      passes the refresh guard. */
  predicate SessionUsable(s: Store, refresh: Jwt, now: int)
  {
    var i := FindTokenByRefresh(s.tokens, refresh);
    && i.Some? && Usable(s.tokens[i.value], now)
    && FindUserById(s.users, s.tokens[i.value].userId).Some?
  }

  /** The owner of the row `refresh` finds. */
  function SessionOwner(s: Store, refresh: Jwt, now: int): User
    requires SessionUsable(s, refresh, now)
  {
    s.users[FindUserById(s.users, s.tokens[FindTokenByRefresh(s.tokens, refresh).value].userId).value]
  }

  function RefreshUserTokens(s: Store, presented: Jwt, cfg: Config, now: int, guids: Guids)
    : (out: Step<ApiResponse<AuthTokens>>)
    ensures ValidateToken(cfg, presented, now).None? ==> out == Step(s, InvalidRefreshToken())
    ensures ValidateToken(cfg, presented, now).Some? && !SessionUsable(s, presented, now) ==>
      out == Step(s, StaleRefreshToken())
    ensures ValidateToken(cfg, presented, now).Some? && SessionUsable(s, presented, now)
            && NeedsRotation(presented.claims, now) ==>
      var i := FindTokenByRefresh(s.tokens, presented).value;
      var u := SessionOwner(s, presented, now);
      && out.result == SuccessResponse(Some(GenerateTokens(u, cfg, now, guids)))
      && out.store.users == s.users && out.store.nextUserId == s.nextUserId
      && SessionAdded(s.(tokens := s.tokens[i := Revoke(s.tokens[i], now)]), out.store,
                      u.base.id, out.result.data.value.refresh, cfg, now)
      && out.store.tokens[i] == Revoke(s.tokens[i], now)
      && (forall j :: 0 <= j < |s.tokens| && j != i ==> out.store.tokens[j] == s.tokens[j])
    ensures ValidateToken(cfg, presented, now).Some? && SessionUsable(s, presented, now)
            && !NeedsRotation(presented.claims, now) ==>
      var u := SessionOwner(s, presented, now);
      && out.store == s
      && out.result == SuccessResponse(Some(AuthTokens(
           GenerateToken(u, cfg, ACCESS, now, guids.access),
           GenerateToken(u, cfg, REFRESH, now, guids.refresh))))
  {
    match ValidateToken(cfg, presented, now)
    case None => Step(s, InvalidRefreshToken())
    case Some(principal) =>
      match FindTokenByRefresh(s.tokens, presented)
      case None => Step(s, StaleRefreshToken())
      case Some(i) =>
        var token := s.tokens[i];
        match FindUserById(s.users, token.userId)
        case None => Step(s, StaleRefreshToken())
        case Some(k) =>
          if token.isRevoked || token.expiration < now then Step(s, StaleRefreshToken())
          else
            var user := s.users[k];
            if NeedsRotation(principal, now) then
              var newTokensGenerated := GenerateTokens(user, cfg, now, guids);
              var revoked := s.(tokens := s.tokens[i := Revoke(token, now)]);
              Step(AddSession(revoked, user.base.id, newTokensGenerated.refresh, cfg, now),
                   SuccessResponse(Some(newTokensGenerated)))
            else
              Step(s, SuccessResponse(Some(AuthTokens(
                GenerateToken(user, cfg, ACCESS, now, guids.access),
                GenerateToken(user, cfg, REFRESH, now, guids.refresh)))))
  }

  // ---------------------------------------------------------------------------
  // RemoveRevokedTokenAsync

  function RemoveRevokedTokens(s: Store, now: int): (s': Store)
    ensures s'.users == s.users && s'.nextUserId == s.nextUserId && s'.nextTokenId == s.nextTokenId
    ensures forall i :: 0 <= i < |s'.tokens| ==> s'.tokens[i] in s.tokens && Usable(s'.tokens[i], now)
    ensures forall i :: 0 <= i < |s.tokens| && Usable(s.tokens[i], now) ==> s.tokens[i] in s'.tokens
  {
    // The source skips the save when no row is dead; removing nothing leaves the same table.
    s.(tokens := Seqs.Filter(s.tokens, (t: Token) => !(t.isRevoked || t.expiration < now)))
  }

  // ---------------------------------------------------------------------------
  // ForgotPasswordAsync -- reads the store and never writes it.

  function ForgotPassword(s: Store, email: string, cfg: Config, now: int, jti: string, send: SendOutcome)
    : (out: ForgotOutcome)
    ensures !EmailTaken(s.users, email) ==> out == ForgotOutcome(Returned(SuccessResponse(None)), None)
    ensures EmailTaken(s.users, email) ==>
      var u := s.users[FindUserByEmail(s.users, email).value];
      out.mail == Some(ResetMail([email], ResetMailSubject, GenerateToken(u, cfg, RESET, now, jti)))
    ensures EmailTaken(s.users, email) && send == Sent ==>
      out.response == Returned(SuccessResponse(Some(out.mail.value.token)))
    ensures EmailTaken(s.users, email) && send == Refused ==> out.response == Returned(ResetMailFailed())
    // The send is awaited outside any try, so whatever it throws escapes the service.
    ensures out.response.Threw? <==> EmailTaken(s.users, email) && !send.Answered()
  {
    match FindUserByEmail(s.users, email)
    case None => ForgotOutcome(Returned(SuccessResponse(None)), None)
    case Some(i) =>
      var resetToken := GenerateToken(s.users[i], cfg, RESET, now, jti);
      var mail := ResetMail([email], ResetMailSubject, resetToken);
      match send
      case Sent => ForgotOutcome(Returned(SuccessResponse(Some(resetToken))), Some(mail))
      case Refused => ForgotOutcome(Returned(ResetMailFailed()), Some(mail))
      case Canceled => ForgotOutcome(Threw, Some(mail))
      case Faulted => ForgotOutcome(Threw, Some(mail))
  }

  // ---------------------------------------------------------------------------
  // ResetPasswordAsync

  /** The token validates and carries the expected `purpose` and an integer `sub`. */
  predicate ResetPayloadValid(cfg: Config, token: Jwt, purpose: string, now: int)
  {
    var principal := ValidateToken(cfg, token, now);
    && principal.Some?
    && principal.value.purpose == Some(purpose)
    && principal.value.sub.Some?
  }

  /** Revokes every row of `userId` that is `Active`, leaving all other rows alone. */
  function RevokeActive(tokens: seq<Token>, userId: int, now: int): (r: seq<Token>)
    ensures |r| == |tokens|
    ensures forall j :: 0 <= j < |tokens| && tokens[j].userId == userId && Active(tokens[j], now) ==>
      r[j] == Revoke(tokens[j], now)
    ensures forall j :: 0 <= j < |tokens| && !(tokens[j].userId == userId && Active(tokens[j], now)) ==>
      r[j] == tokens[j]
  {
    seq(|tokens|, j requires 0 <= j < |tokens| =>
      if tokens[j].userId == userId && Active(tokens[j], now) then Revoke(tokens[j], now) else tokens[j])
  }

  /** The body of `ResetPasswordAsync`, for a given expected `purpose` value. */
  function ResetPasswordExpecting(s: Store, presented: Jwt, purpose: string, newPassword: string,
                                  cfg: Config, now: int, storeFails: bool)
    : (out: Step<ApiResponse<string>>)
    ensures !ResetPayloadValid(cfg, presented, purpose, now) ==> out == Step(s, InvalidTokenPayload())
    ensures ResetPayloadValid(cfg, presented, purpose, now) && !UserExists(s.users, presented.claims.sub.value) ==>
      out == Step(s, InvalidCredentials())
    ensures ResetPayloadValid(cfg, presented, purpose, now) && UserExists(s.users, presented.claims.sub.value)
            && storeFails ==>
      out == Step(s, ResetFailed())
    ensures ResetPayloadValid(cfg, presented, purpose, now) && UserExists(s.users, presented.claims.sub.value)
            && !storeFails ==>
      var userId := presented.claims.sub.value;
      var k := FindUserById(s.users, userId).value;
      && out.result == SuccessResponse(None)
      && |out.store.users| == |s.users|
      && (forall j :: 0 <= j < |s.users| && j != k ==> out.store.users[j] == s.users[j])
      && out.store.users[k] == s.users[k].(password := out.store.users[k].password,
                                           base := out.store.users[k].base)
      && out.store.users[k].base == Touched(s.users[k].base, now)
      && VerifyPassword(out.store.users[k].password, newPassword)
      && out.store.tokens == RevokeActive(s.tokens, userId, now)
      && out.store.nextUserId == s.nextUserId && out.store.nextTokenId == s.nextTokenId
  {
    match ValidateToken(cfg, presented, now)
    case None => Step(s, InvalidTokenPayload())
    case Some(principal) =>
      if principal.purpose != Some(purpose) || principal.sub.None? then
        Step(s, InvalidTokenPayload())
      else
        var userId := principal.sub.value;
        match FindUserById(s.users, userId)
        case None => Step(s, InvalidCredentials())
        case Some(k) =>
          if storeFails then Step(s, ResetFailed())
          else
            var user := s.users[k];
            var updated := user.(password := HashPassword(newPassword), base := Touched(user.base, now));
            Step(s.(users := s.users[k := updated], tokens := RevokeActive(s.tokens, userId, now)),
                 SuccessResponse(None))
  }

  /** `ResetPasswordAsync` as written: it demands `purpose == "password-reset"`. */
  function ResetPassword(s: Store, presented: Jwt, newPassword: string, cfg: Config, now: int, storeFails: bool)
    : (out: Step<ApiResponse<string>>)
    ensures out.result.SuccessResponse? ==>
      presented.Signed? && presented.claims.purpose == Some(PasswordResetPurpose)
  {
    ResetPasswordExpecting(s, presented, PasswordResetPurpose, newPassword, cfg, now, storeFails)
  }

  /** `ResetPasswordAsync` checking the `purpose` value reset tokens are minted with. */
  function ResetPasswordIntended(s: Store, presented: Jwt, newPassword: string, cfg: Config, now: int, storeFails: bool)
    : (out: Step<ApiResponse<string>>)
    ensures out.result.SuccessResponse? ==>
      presented.Signed? && presented.claims.purpose == Some(ResetPurpose)
  {
    ResetPasswordExpecting(s, presented, ResetPurpose, newPassword, cfg, now, storeFails)
  }
}
