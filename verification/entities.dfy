/** The two tables of the service (`User`, `Token`, both deriving from `BaseEntity`) and
    the store that holds them. The store is a pair of row sequences plus the database's
    identity counters; the unique indexes and the foreign key become the invariant `Valid`. */
module Entities {
  import opened Wrappers
  import opened Seqs
  import opened Passwords
  import opened SecurityTokens

  /** `BaseEntity`: identity column and the two timestamps. Times are whole seconds. */
  datatype Base = Base(id: int, createdAt: int, updatedAt: int)

  /** `User`: email, username and password are required, the names optional. The
      `Tokens` navigation collection is derived from the token table (`TokensOf`). */
  datatype User = User(
    base: Base,
    email: string,
    username: string,
    firstName: Option<string>,
    lastName: Option<string>,
    password: PasswordHash)

  /** `Token`: one persisted refresh-token row. `refresh` is the signed token itself. */
  datatype Token = Token(
    base: Base,
    userId: int,
    refresh: Jwt,
    isRevoked: bool,
    expiration: int)

  datatype Store = Store(
    users: seq<User>,
    tokens: seq<Token>,
    nextUserId: int,
    nextTokenId: int)

  /** `[Index(nameof(Email), IsUnique = true)]` on `User`. */
  predicate UniqueEmails(users: seq<User>)
  {
    forall i, j :: 0 <= i < j < |users| ==> users[i].email != users[j].email
  }

  /** `[Index(nameof(Refresh), IsUnique = true)]` on `Token`. */
  predicate UniqueRefresh(tokens: seq<Token>)
  {
    forall i, j :: 0 <= i < j < |tokens| ==> tokens[i].refresh != tokens[j].refresh
  }

  /** `[Key] Id` on both tables: primary keys are distinct and below the identity counter. */
  predicate KeysIssued(s: Store)
  {
    && (forall i :: 0 <= i < |s.users| ==> s.users[i].base.id < s.nextUserId)
    && (forall i :: 0 <= i < |s.tokens| ==> s.tokens[i].base.id < s.nextTokenId)
    && (forall i, j :: 0 <= i < j < |s.users| ==> s.users[i].base.id != s.users[j].base.id)
    && (forall i, j :: 0 <= i < j < |s.tokens| ==> s.tokens[i].base.id != s.tokens[j].base.id)
  }

  predicate UserExists(users: seq<User>, id: int)
  {
    exists i :: 0 <= i < |users| && users[i].base.id == id
  }

  /** `[ForeignKey("User")] UserId`: every token row is owned by an existing user. */
  predicate OwnersExist(s: Store)
  {
    forall i :: 0 <= i < |s.tokens| ==> UserExists(s.users, s.tokens[i].userId)
  }

  /** The constraints the database schema enforces on the store. */
  predicate Valid(s: Store)
  {
    && UniqueEmails(s.users)
    && UniqueRefresh(s.tokens)
    && KeysIssued(s)
    && OwnersExist(s)
  }

  predicate EmailTaken(users: seq<User>, email: string)
  {
    exists i :: 0 <= i < |users| && users[i].email == email
  }

  /** No stored refresh token carries `jti`: what a fresh GUID guarantees. */
  predicate JtiFresh(s: Store, jti: string)
  {
    forall i :: 0 <= i < |s.tokens| ==> !CarriesJti(s.tokens[i].refresh, jti)
  }

  /** `Users.FirstOrDefault(u => u.Email.Equals(email))`. */
  function FindUserByEmail(users: seq<User>, email: string): (r: Option<nat>)
    ensures r.Some? ==> r.value < |users| && users[r.value].email == email
    ensures r.Some? ==> forall j :: 0 <= j < r.value ==> users[j].email != email
    ensures r.None? <==> !EmailTaken(users, email)
  {
    FindFirst(users, (u: User) => u.email == email)
  }

  /** `Users.FirstOrDefault(u => u.Id == id)`. */
  function FindUserById(users: seq<User>, id: int): (r: Option<nat>)
    ensures r.Some? ==> r.value < |users| && users[r.value].base.id == id
    ensures r.Some? ==> forall j :: 0 <= j < r.value ==> users[j].base.id != id
    ensures r.None? <==> !UserExists(users, id)
  {
    FindFirst(users, (u: User) => u.base.id == id)
  }

  /** `Tokens.FirstOrDefault(t => t.Refresh == refresh)`. */
  function FindTokenByRefresh(tokens: seq<Token>, refresh: Jwt): (r: Option<nat>)
    ensures r.Some? ==> r.value < |tokens| && tokens[r.value].refresh == refresh
    ensures r.Some? ==> forall j :: 0 <= j < r.value ==> tokens[j].refresh != refresh
    ensures r.None? <==> forall j :: 0 <= j < |tokens| ==> tokens[j].refresh != refresh
  {
    FindFirst(tokens, (t: Token) => t.refresh == refresh)
  }

  /** The `User.Tokens` navigation collection: the rows whose foreign key is `userId`. */
  function TokensOf(s: Store, userId: int): (r: seq<Token>)
    ensures forall i :: 0 <= i < |r| ==> r[i] in s.tokens && r[i].userId == userId
    ensures forall i :: 0 <= i < |s.tokens| && s.tokens[i].userId == userId ==> s.tokens[i] in r
  {
    Filter(s.tokens, (t: Token) => t.userId == userId)
  }

  /** Under the foreign key and the identity counter, no row is owned by a user whose
      key has not been issued yet: a freshly inserted user starts with no tokens. */
  lemma {:induction false} NewUserOwnsNoTokens(s: Store)
    requires Valid(s)
    ensures forall i :: 0 <= i < |s.tokens| ==> s.tokens[i].userId < s.nextUserId
    ensures TokensOf(s, s.nextUserId) == []
  {
    forall i | 0 <= i < |s.tokens|
      ensures s.tokens[i].userId < s.nextUserId
    {
      assert UserExists(s.users, s.tokens[i].userId);
    }
  }

  /** With a unique refresh index, a refresh token finds exactly its own row. */
  lemma FindTokenByRefreshUnique(tokens: seq<Token>, i: nat)
    requires UniqueRefresh(tokens)
    requires i < |tokens|
    ensures FindTokenByRefresh(tokens, tokens[i].refresh) == Some(i)
  {
  }

  /** With a unique email index, an email finds exactly its own user. */
  lemma FindUserByEmailUnique(users: seq<User>, i: nat)
    requires UniqueEmails(users)
    requires i < |users|
    ensures FindUserByEmail(users, users[i].email) == Some(i)
  {
  }
}
