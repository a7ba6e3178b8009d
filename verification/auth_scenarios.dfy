/** Consequences of the session lifecycle as the service implements it, each relating two
    or more calls: what a second call sees after a first one. */
module AuthScenarios {
  import opened Wrappers
  import opened Passwords
  import opened SecurityTokens
  import opened Entities
  import opened DataContext
  import opened TokenUtil
  import opened Responses
  import opened AuthService
  import opened AuthProperties
  import opened EmailService

  // ---------------------------------------------------------------------------
  // Reset tokens and the purpose check.

  /** No token the service mints is accepted by reset-password: reset tokens carry
      `purpose = "reset-password"`, the other kinds no purpose at all, while
      `ResetPasswordAsync` demands `"password-reset"`. */
  lemma ResetRejectsMintedTokens(s: Store, user: User, cfg: Config, kind: TokenType, mintedAt: int,
                                 jti: string, newPassword: string, now: int, storeFails: bool)
    ensures ResetPassword(s, GenerateToken(user, cfg, kind, mintedAt, jti), newPassword, cfg, now, storeFails)
         == Step(s, InvalidTokenPayload())
  {
    assert ResetPurpose[0] != PasswordResetPurpose[0];
  }

  /** With the purpose check matching the minted value, a reset token used within its ten
      minutes for an existing user changes that user's password and revokes the user's
      active sessions. */
  lemma {:induction false} IntendedResetAcceptsResetToken(s: Store, k: nat, cfg: Config, mintedAt: int,
                                                          jti: string, newPassword: string, now: int)
    requires Valid(s)
    requires k < |s.users|
    requires mintedAt <= now <= mintedAt + ResetTokenLifetime
    ensures var out := ResetPasswordIntended(s, GenerateToken(s.users[k], cfg, RESET, mintedAt, jti),
                                             newPassword, cfg, now, false);
      && out.result == SuccessResponse(None)
      && VerifyPassword(out.store.users[k].password, newPassword)
      && out.store.tokens == RevokeActive(s.tokens, s.users[k].base.id, now)
  {
    var token := GenerateToken(s.users[k], cfg, RESET, mintedAt, jti);
    assert ValidateToken(cfg, token, now) == Some(token.claims);
    assert UserExists(s.users, s.users[k].base.id);
    var i := FindUserById(s.users, s.users[k].base.id).value;
    assert i == k;
  }

  // ---------------------------------------------------------------------------
  // Refresh lifetime: hours in the token, days in the row.

  /** The refresh token minted at registration expires `RefreshTokenExpiry` hours after
      `now`, its row `RefreshTokenExpiry` days after. In between, the row still lets the
      token log out, but the token itself no longer refreshes. */
  lemma {:induction false} RegisteredRefreshExpiresBeforeItsRow(s: Store, req: RegisterRequest, cfg: Config, now: int,
                                                               guids: Guids, later: int, guids': Guids)
    requires Valid(s)
    requires JtiFresh(s, guids.refresh)
    requires !EmailTaken(s.users, req.email)
    requires now + cfg.refreshTokenExpiry * SecondsPerHour < later <= now + cfg.refreshTokenExpiry * SecondsPerDay
    ensures var out := Register(s, req, cfg, now, guids, false);
      var refresh := out.result.data.value.refresh;
      && RefreshUserTokens(out.store, refresh, cfg, later, guids') == Step(out.store, InvalidRefreshToken())
      && Logout(out.store, refresh, later).result
  {
    var out := Register(s, req, cfg, now, guids, false);
    RegisterPreservesValid(s, req, cfg, now, guids, false);
    FindTokenByRefreshUnique(out.store.tokens, |s.tokens|);
  }

  // ---------------------------------------------------------------------------
  // Refresh without rotation.

  /** Away from expiry, refresh returns a brand-new refresh token that is never stored:
      it is not in the table, and presenting it later never refreshes. */
  lemma {:induction false} SlidingRefreshIsNotPersisted(s: Store, presented: Jwt, cfg: Config, now: int, guids: Guids,
                                                        later: int, guids': Guids)
    requires JtiFresh(s, guids.refresh)
    requires ValidateToken(cfg, presented, now).Some? && SessionUsable(s, presented, now)
    requires !NeedsRotation(presented.claims, now)
    ensures var out := RefreshUserTokens(s, presented, cfg, now, guids);
      var minted := out.result.data.value.refresh;
      && out.store == s
      && FindTokenByRefresh(s.tokens, minted).None?
      && RefreshUserTokens(s, minted, cfg, later, guids').store == s
      && RefreshUserTokens(s, minted, cfg, later, guids').result.ErrorResponse?
  {
    var out := RefreshUserTokens(s, presented, cfg, now, guids);
    var minted := out.result.data.value.refresh;
    assert CarriesJti(minted, guids.refresh);
    assert forall j :: 0 <= j < |s.tokens| ==> s.tokens[j].refresh != minted;
  }

  // ---------------------------------------------------------------------------
  // Single use of rotated and logged-out tokens.

  /** A refresh token, once rotated, never refreshes again. */
  lemma {:induction false} RotatedTokenIsSpent(s: Store, presented: Jwt, cfg: Config, now: int, guids: Guids,
                                               later: int, guids': Guids)
    requires ValidateToken(cfg, presented, now).Some? && SessionUsable(s, presented, now)
    requires NeedsRotation(presented.claims, now)
    ensures var s' := RefreshUserTokens(s, presented, cfg, now, guids).store;
      RefreshUserTokens(s', presented, cfg, later, guids').store == s'
      && RefreshUserTokens(s', presented, cfg, later, guids').result.ErrorResponse?
  {
    var s' := RefreshUserTokens(s, presented, cfg, now, guids).store;
    var i := FindTokenByRefresh(s.tokens, presented).value;
    assert s'.tokens[i].isRevoked;
    assert FindTokenByRefresh(s'.tokens, presented) == Some(i) by {
      assert forall j :: 0 <= j < i ==> s'.tokens[j] == s.tokens[j];
    }
  }

  /** Logging out the same token twice, the second time no earlier than the first: the
      second call reports failure and changes nothing. */
  lemma {:induction false} SecondLogoutFails(s: Store, refresh: Jwt, now: int, later: int)
    requires now <= later
    ensures var s' := Logout(s, refresh, now).store;
      Logout(s', refresh, later) == Step(s', false)
  {
    var s' := Logout(s, refresh, now).store;
    if UsableRow(s, refresh, now) {
      var i := FindTokenByRefresh(s.tokens, refresh).value;
      assert s'.tokens[i].isRevoked;
      assert FindTokenByRefresh(s'.tokens, refresh) == Some(i) by {
        assert forall j :: 0 <= j < i ==> s'.tokens[j] == s.tokens[j];
      }
      assert !UsableRow(s', refresh, later);
    }
  }

  // ---------------------------------------------------------------------------
  // The expiration boundary.

  /** A row whose expiration is exactly `now` is still accepted by logout, survives the
      prune, and is not revoked by a password reset, whose guard is `Expiration > now`. */
  lemma {:induction false} ExpiringNowBoundary(s: Store, i: nat, now: int)
    requires Valid(s)
    requires i < |s.tokens| && s.tokens[i].expiration == now && !s.tokens[i].isRevoked
    ensures Logout(s, s.tokens[i].refresh, now).result
    ensures s.tokens[i] in RemoveRevokedTokens(s, now).tokens
    ensures RevokeActive(s.tokens, s.tokens[i].userId, now)[i] == s.tokens[i]
  {
    FindTokenByRefreshUnique(s.tokens, i);
  }

  // ---------------------------------------------------------------------------
  // Register, login and the generic error.

  /** After a registration, logging in with the same credentials succeeds and returns a
      refresh token that validates. */
  lemma {:induction false} RegisterThenLogin(s: Store, req: RegisterRequest, cfg: Config, now: int, guids: Guids,
                                             guids': Guids)
    requires Valid(s)
    requires JtiFresh(s, guids.refresh)
    requires !EmailTaken(s.users, req.email)
    requires cfg.refreshTokenExpiry >= 0
    ensures var s' := Register(s, req, cfg, now, guids, false).store;
      var out := Login(s', LoginRequest(req.email, req.password), cfg, now, guids');
      && out.result.SuccessResponse?
      && ValidateToken(cfg, out.result.data.value.refresh, now).Some?
  {
    var s' := Register(s, req, cfg, now, guids, false).store;
    RegisterPreservesValid(s, req, cfg, now, guids, false);
    FindUserByEmailUnique(s'.users, |s.users|);
    assert CredentialsMatch(s'.users, req.email, req.password);
  }

  /** Registering an email twice: the second attempt is a validation error keyed "email"
      and leaves the single user with that email in place. */
  lemma DuplicateRegistrationRejected(s: Store, first: RegisterRequest, second: RegisterRequest, cfg: Config,
                                      now: int, guids: Guids, later: int, guids': Guids, storeFails: bool)
    requires !EmailTaken(s.users, first.email)
    requires second.email == first.email
    ensures var s' := Register(s, first, cfg, now, guids, false).store;
      Register(s', second, cfg, later, guids', storeFails) == Step(s', EmailAlreadyUsed())
  {
    var s' := Register(s, first, cfg, now, guids, false).store;
    assert s'.users[|s.users|].email == second.email;
  }

  /** Login answers an unknown email and a wrong password identically. */
  lemma LoginFailuresIndistinguishable(s: Store, unknown: LoginRequest, wrong: LoginRequest, cfg: Config, now: int,
                                       guids: Guids)
    requires !EmailTaken(s.users, unknown.email)
    requires EmailTaken(s.users, wrong.email)
    requires !VerifyPassword(s.users[FindUserByEmail(s.users, wrong.email).value].password, wrong.password)
    ensures Login(s, unknown, cfg, now, guids) == Login(s, wrong, cfg, now, guids) == Step(s, InvalidCredentials())
  {
  }

  /** Forgot-password answers a registered email with the reset token itself and an
      unknown one with no data, so the two answers differ. */
  lemma ForgotPasswordRevealsAccounts(s: Store, known: string, unknown: string, cfg: Config, now: int, jti: string)
    requires EmailTaken(s.users, known) && !EmailTaken(s.users, unknown)
    ensures ForgotPassword(s, known, cfg, now, jti, Sent).response.value.data.Some?
    ensures ForgotPassword(s, unknown, cfg, now, jti, Sent).response.value.data.None?
    ensures ForgotPassword(s, known, cfg, now, jti, Sent).response != ForgotPassword(s, unknown, cfg, now, jti, Sent).response
  {
  }

  // ---------------------------------------------------------------------------
  // What a successful reset does to the user's sessions and credentials.

  /** After a successful reset, every row of the user that was active no longer logs out,
      and the user's credentials are exactly the passwords BCrypt cannot tell apart from the
      new one. */
  lemma {:induction false} ResetEndsSessions(s: Store, presented: Jwt, purpose: string, newPassword: string,
                                             cfg: Config, now: int, later: int)
    requires Valid(s)
    requires ResetPayloadValid(cfg, presented, purpose, now)
    requires UserExists(s.users, presented.claims.sub.value)
    ensures var s' := ResetPasswordExpecting(s, presented, purpose, newPassword, cfg, now, false).store;
      var k := FindUserById(s.users, presented.claims.sub.value).value;
      && (forall j :: 0 <= j < |s.tokens| && s.tokens[j].userId == s.users[k].base.id && Active(s.tokens[j], now) ==>
            !Logout(s', s.tokens[j].refresh, later).result)
      && (forall pw :: CredentialsMatch(s'.users, s.users[k].email, pw) <==> KeyStream(pw) == KeyStream(newPassword))
  {
    var s' := ResetPasswordExpecting(s, presented, purpose, newPassword, cfg, now, false).store;
    var k := FindUserById(s.users, presented.claims.sub.value).value;
    ResetPreservesValid(s, presented, purpose, newPassword, cfg, now, false);
    forall j | 0 <= j < |s.tokens| && s.tokens[j].userId == s.users[k].base.id && Active(s.tokens[j], now)
      ensures !Logout(s', s.tokens[j].refresh, later).result
    {
      assert s'.tokens[j].refresh == s.tokens[j].refresh;
      FindTokenByRefreshUnique(s'.tokens, j);
    }
    assert s'.users[k].email == s.users[k].email;
    FindUserByEmailUnique(s'.users, k);
  }
}
