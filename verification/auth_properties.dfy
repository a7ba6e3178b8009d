/** Properties that relate several calls of `AuthService`, or a call and the schema's
    constraints: every operation keeps the store valid and never rewrites an init-only
    column, and the consequences of the code as written. */
module AuthProperties {
  import opened Wrappers
  import opened Passwords
  import opened SecurityTokens
  import opened Entities
  import opened DataContext
  import opened TokenUtil
  import opened Responses
  import opened AuthService

  // ---------------------------------------------------------------------------
  // Init-only columns.

  /** `UserId` and `Expiration` are `init`: a row that survives a step keeps them, and so
      does its `Refresh` string, which no operation assigns after insertion. */
  predicate InitOnlyKept(s: Store, s': Store)
  {
    forall i, j :: 0 <= i < |s.tokens| && 0 <= j < |s'.tokens| && s.tokens[i].base.id == s'.tokens[j].base.id ==>
      && s'.tokens[j].userId == s.tokens[i].userId
      && s'.tokens[j].expiration == s.tokens[i].expiration
      && s'.tokens[j].refresh == s.tokens[i].refresh
  }

  /** A step that keeps every old row at its position with the same init-only columns and
      only appends rows with fresh keys keeps the init-only columns. */
  lemma {:induction false} InitOnlyKeptByAppend(s: Store, s': Store)
    requires Valid(s)
    requires |s'.tokens| >= |s.tokens|
    requires forall j :: 0 <= j < |s.tokens| ==>
      && s'.tokens[j].base.id == s.tokens[j].base.id && s'.tokens[j].userId == s.tokens[j].userId
      && s'.tokens[j].expiration == s.tokens[j].expiration && s'.tokens[j].refresh == s.tokens[j].refresh
    requires forall j :: |s.tokens| <= j < |s'.tokens| ==> s'.tokens[j].base.id >= s.nextTokenId
    ensures InitOnlyKept(s, s')
  {
    forall i, j | 0 <= i < |s.tokens| && 0 <= j < |s'.tokens| && s.tokens[i].base.id == s'.tokens[j].base.id
      ensures s'.tokens[j].userId == s.tokens[i].userId
      ensures s'.tokens[j].expiration == s.tokens[i].expiration
      ensures s'.tokens[j].refresh == s.tokens[i].refresh
    {
    }
  }

  // ---------------------------------------------------------------------------
  // Appending a session row keeps the schema's constraints.

  lemma {:induction false} AddSessionValid(s: Store, userId: int, refresh: Jwt, cfg: Config, now: int, jti: string)
    requires Valid(s)
    requires UserExists(s.users, userId)
    requires CarriesJti(refresh, jti) && JtiFresh(s, jti)
    ensures Valid(AddSession(s, userId, refresh, cfg, now))
    ensures InitOnlyKept(s, AddSession(s, userId, refresh, cfg, now))
  {
    var s' := AddSession(s, userId, refresh, cfg, now);
    forall i, j | 0 <= i < j < |s'.tokens|
      ensures s'.tokens[i].refresh != s'.tokens[j].refresh
    {
      if j == |s.tokens| {
        assert !CarriesJti(s.tokens[i].refresh, jti);
      }
    }
    InitOnlyKeptByAppend(s, s');
  }

  /** Adding a user keeps the old owners' existence. */
  lemma {:induction false} UserExistsGrows(users: seq<User>, u: User, id: int)
    requires UserExists(users, id)
    ensures UserExists(users + [u], id)
  {
    var i :| 0 <= i < |users| && users[i].base.id == id;
    assert (users + [u])[i] == users[i];
  }

  // ---------------------------------------------------------------------------
  // Every operation keeps the store valid.

  lemma {:induction false} RegisterPreservesValid(s: Store, req: RegisterRequest, cfg: Config, now: int, guids: Guids, storeFails: bool)
    requires Valid(s)
    requires JtiFresh(s, guids.refresh)
    ensures Valid(Register(s, req, cfg, now, guids, storeFails).store)
    ensures InitOnlyKept(s, Register(s, req, cfg, now, guids, storeFails).store)
  {
    var out := Register(s, req, cfg, now, guids, storeFails);
    if !EmailTaken(s.users, req.email) && !storeFails {
      var u := out.store.users[|s.users|];
      var withUser := s.(users := s.users + [u], nextUserId := s.nextUserId + 1);
      forall i | 0 <= i < |withUser.tokens|
        ensures UserExists(withUser.users, withUser.tokens[i].userId)
      {
        UserExistsGrows(s.users, u, s.tokens[i].userId);
      }
      assert UserExists(withUser.users, u.base.id) by {
        assert withUser.users[|s.users|] == u;
      }
      assert UniqueEmails(withUser.users) by {
        forall i, j | 0 <= i < j < |withUser.users|
          ensures withUser.users[i].email != withUser.users[j].email
        {
          if j == |s.users| {
            assert s.users[i].email != req.email;
          }
        }
      }
      assert Valid(withUser);
      assert JtiFresh(withUser, guids.refresh);
      AddSessionValid(withUser, u.base.id, out.result.data.value.refresh, cfg, now, guids.refresh);
      assert out.store == AddSession(withUser, u.base.id, out.result.data.value.refresh, cfg, now);
    }
  }

  lemma {:induction false} LoginPreservesValid(s: Store, req: LoginRequest, cfg: Config, now: int, guids: Guids)
    requires Valid(s)
    requires JtiFresh(s, guids.refresh)
    ensures Valid(Login(s, req, cfg, now, guids).store)
    ensures InitOnlyKept(s, Login(s, req, cfg, now, guids).store)
  {
    var out := Login(s, req, cfg, now, guids);
    if CredentialsMatch(s.users, req.email, req.password) {
      var u := s.users[FindUserByEmail(s.users, req.email).value];
      assert UserExists(s.users, u.base.id);
      AddSessionValid(s, u.base.id, out.result.data.value.refresh, cfg, now, guids.refresh);
    }
  }

  /** Revoking one row keeps the store valid and its init-only columns. */
  lemma {:induction false} RevokeAtValid(s: Store, i: nat, now: int)
    requires Valid(s)
    requires i < |s.tokens|
    ensures Valid(s.(tokens := s.tokens[i := Revoke(s.tokens[i], now)]))
    ensures InitOnlyKept(s, s.(tokens := s.tokens[i := Revoke(s.tokens[i], now)]))
  {
    var s' := s.(tokens := s.tokens[i := Revoke(s.tokens[i], now)]);
    assert forall j :: 0 <= j < |s.tokens| ==>
      s'.tokens[j].refresh == s.tokens[j].refresh && s'.tokens[j].base.id == s.tokens[j].base.id
      && s'.tokens[j].userId == s.tokens[j].userId;
    InitOnlyKeptByAppend(s, s');
  }

  lemma {:induction false} LogoutPreservesValid(s: Store, refresh: Jwt, now: int)
    requires Valid(s)
    ensures Valid(Logout(s, refresh, now).store)
    ensures InitOnlyKept(s, Logout(s, refresh, now).store)
  {
    if UsableRow(s, refresh, now) {
      RevokeAtValid(s, FindTokenByRefresh(s.tokens, refresh).value, now);
    } else {
      InitOnlyKeptByAppend(s, s);
    }
  }

  lemma {:induction false} RefreshPreservesValid(s: Store, presented: Jwt, cfg: Config, now: int, guids: Guids)
    requires Valid(s)
    requires JtiFresh(s, guids.refresh)
    ensures Valid(RefreshUserTokens(s, presented, cfg, now, guids).store)
    ensures InitOnlyKept(s, RefreshUserTokens(s, presented, cfg, now, guids).store)
  {
    var out := RefreshUserTokens(s, presented, cfg, now, guids);
    if ValidateToken(cfg, presented, now).Some? && SessionUsable(s, presented, now)
       && NeedsRotation(presented.claims, now) {
      var i := FindTokenByRefresh(s.tokens, presented).value;
      var u := SessionOwner(s, presented, now);
      var revoked := s.(tokens := s.tokens[i := Revoke(s.tokens[i], now)]);
      RevokeAtValid(s, i, now);
      assert UserExists(revoked.users, u.base.id);
      assert JtiFresh(revoked, guids.refresh) by {
        assert forall j :: 0 <= j < |s.tokens| ==> revoked.tokens[j].refresh == s.tokens[j].refresh;
      }
      AddSessionValid(revoked, u.base.id, out.result.data.value.refresh, cfg, now, guids.refresh);
      assert out.store == AddSession(revoked, u.base.id, out.result.data.value.refresh, cfg, now);
      InitOnlyKeptByAppend(s, out.store);
    } else {
      InitOnlyKeptByAppend(s, s);
    }
  }

  lemma {:induction false} PrunePreservesValid(s: Store, now: int)
    requires Valid(s)
    ensures Valid(RemoveRevokedTokens(s, now))
    ensures InitOnlyKept(s, RemoveRevokedTokens(s, now))
  {
    var s' := RemoveRevokedTokens(s, now);
    PrunedRowsDistinct(s, s'.tokens, now);
    forall i | 0 <= i < |s'.tokens|
      ensures s'.tokens[i].base.id < s'.nextTokenId
      ensures UserExists(s'.users, s'.tokens[i].userId)
    {
      var k :| 0 <= k < |s.tokens| && s.tokens[k] == s'.tokens[i];
    }
    forall i, j | 0 <= i < |s.tokens| && 0 <= j < |s'.tokens| && s.tokens[i].base.id == s'.tokens[j].base.id
      ensures s'.tokens[j] == s.tokens[i]
    {
      SameKeySameRow(s, s'.tokens[j], i);
    }
  }

  /** In a valid store, a row with the key of row `i` is row `i`. */
  lemma {:induction false} SameKeySameRow(s: Store, t: Token, i: nat)
    requires Valid(s)
    requires i < |s.tokens| && t in s.tokens && t.base.id == s.tokens[i].base.id
    ensures t == s.tokens[i]
  {
    var k :| 0 <= k < |s.tokens| && s.tokens[k] == t;
  }

  /** A repetition-free selection of rows of a valid store keeps keys and refresh strings
      unique. */
  lemma {:induction false} PrunedRowsDistinct(s: Store, kept: seq<Token>, now: int)
    requires Valid(s)
    requires kept == Seqs.Filter(s.tokens, (t: Token) => !(t.isRevoked || t.expiration < now))
    ensures UniqueRefresh(kept)
    ensures forall i, j :: 0 <= i < j < |kept| ==> kept[i].base.id != kept[j].base.id
  {
    assert Seqs.Distinct(s.tokens);
    Seqs.FilterDistinct(s.tokens, (t: Token) => !(t.isRevoked || t.expiration < now));
    assert forall i :: 0 <= i < |kept| ==> kept[i] in s.tokens;
    forall i, j | 0 <= i < j < |kept|
      ensures kept[i].refresh != kept[j].refresh && kept[i].base.id != kept[j].base.id
    {
      DistinctRowsDiffer(s, kept[i], kept[j]);
    }
  }

  /** Two different rows of a valid store differ in key and in refresh string. */
  lemma {:induction false} DistinctRowsDiffer(s: Store, t: Token, u: Token)
    requires Valid(s)
    requires t in s.tokens && u in s.tokens && t != u
    ensures t.refresh != u.refresh && t.base.id != u.base.id
  {
    var a :| 0 <= a < |s.tokens| && s.tokens[a] == t;
    var b :| 0 <= b < |s.tokens| && s.tokens[b] == u;
    if a < b {
      assert s.tokens[a].refresh != s.tokens[b].refresh;
    } else {
      assert s.tokens[b].refresh != s.tokens[a].refresh;
    }
  }

  lemma {:induction false} ResetPreservesValid(s: Store, presented: Jwt, purpose: string, newPassword: string,
                                               cfg: Config, now: int, storeFails: bool)
    requires Valid(s)
    ensures Valid(ResetPasswordExpecting(s, presented, purpose, newPassword, cfg, now, storeFails).store)
    ensures InitOnlyKept(s, ResetPasswordExpecting(s, presented, purpose, newPassword, cfg, now, storeFails).store)
  {
    var s' := ResetPasswordExpecting(s, presented, purpose, newPassword, cfg, now, storeFails).store;
    if s' != s {
      assert forall j :: 0 <= j < |s.users| ==>
        s'.users[j].email == s.users[j].email && s'.users[j].base.id == s.users[j].base.id;
      assert forall j :: 0 <= j < |s.tokens| ==>
        s'.tokens[j].refresh == s.tokens[j].refresh && s'.tokens[j].base.id == s.tokens[j].base.id
        && s'.tokens[j].userId == s.tokens[j].userId && s'.tokens[j].expiration == s.tokens[j].expiration;
      forall i | 0 <= i < |s'.tokens|
        ensures UserExists(s'.users, s'.tokens[i].userId)
      {
        var k :| 0 <= k < |s.users| && s.users[k].base.id == s.tokens[i].userId;
        assert s'.users[k].base.id == s.tokens[i].userId;
      }
    }
    InitOnlyKeptByAppend(s, s');
  }
}
