/** Password hashing, idealised: a digest of the key BCrypt's key schedule reads. BCrypt (the
    `$2a` revision BCrypt.Net's `HashPassword` produces) appends a NUL to the password and
    reads the result cyclically until it has 72 key bytes, so two passwords with the same 72
    key bytes verify against each other's hash: a password longer than 72 bytes is cut, and
    a short one repeated behind a NUL equals the original. Characters stand for bytes here;
    the salt and cost factor are not modelled. */
module Passwords {

  /** The number of key bytes BCrypt's key schedule reads. */
  const BCryptKeyBytes: nat := 72

  /** The terminator BCrypt appends to the password. */
  const Nul: char := '\0'

  /** `data` read from its start again and again until `n` characters have been taken. */
  function Cycle(data: string, n: nat): (r: string)
    requires |data| > 0
    ensures |r| == n
    ensures forall i :: 0 <= i < n && i < |data| ==> r[i] == data[i]
    ensures forall i :: |data| <= i < n ==> r[i] == r[i - |data|]
    decreases n
  {
    if n <= |data| then data[..n] else data + Cycle(data, n - |data|)
  }

  /** Reading a sequence twice over is reading it once. */
  lemma {:induction false} CycleTwice(data: string, n: nat)
    requires |data| > 0
    ensures Cycle(data + data, n) == Cycle(data, n)
    decreases n
  {
    var m := |data|;
    if n <= m {
      assert (data + data)[..n] == data[..n];
    } else if n <= 2 * m {
      assert (data + data)[..n] == data + data[..n - m];
    } else {
      CycleTwice(data, n - 2 * m);
      assert Cycle(data, n - m) == data + Cycle(data, n - 2 * m);
      assert Cycle(data + data, n) == (data + data) + Cycle(data, n - 2 * m);
    }
  }

  /** The 72 key bytes BCrypt derives from `password`. */
  function KeyStream(password: string): (r: string)
    ensures |r| == BCryptKeyBytes
    ensures forall i :: 0 <= i < BCryptKeyBytes && i < |password| ==> r[i] == password[i]
    ensures |password| < BCryptKeyBytes ==> r[|password|] == Nul
    ensures forall i :: |password| + 1 <= i < BCryptKeyBytes ==> r[i] == r[i - (|password| + 1)]
    ensures |password| >= BCryptKeyBytes ==> r == password[..BCryptKeyBytes]
  {
    Cycle(password + [Nul], BCryptKeyBytes)
  }

  predicate NulFree(s: string)
  {
    forall i :: 0 <= i < |s| ==> s[i] != Nul
  }

  datatype PasswordHash = BCryptDigest(secret: string)

  function HashPassword(password: string): (h: PasswordHash)
    ensures VerifyPassword(h, password)
  {
    BCryptDigest(KeyStream(password))
  }

  predicate VerifyPassword(hash: PasswordHash, password: string)
  {
    hash.secret == KeyStream(password)
  }

  /** Without NUL characters and within 72 bytes, different passwords have different keys:
      the NUL BCrypt appends marks where each one ends. */
  lemma {:induction false} KeyStreamInjective(p: string, q: string)
    requires NulFree(p) && NulFree(q)
    requires |p| <= BCryptKeyBytes && |q| <= BCryptKeyBytes
    ensures KeyStream(p) == KeyStream(q) <==> p == q
  {
    if KeyStream(p) == KeyStream(q) {
      if |p| == |q| {
        forall i | 0 <= i < |p|
          ensures p[i] == q[i]
        {
          assert KeyStream(p)[i] == KeyStream(q)[i];
        }
      }
    }
  }

  /** A hash verifies exactly the passwords with the same key bytes as its own; for
      NUL-free passwords of at most 72 bytes, that is its own password and no other. */
  lemma VerifyHashIff(p: string, q: string)
    ensures VerifyPassword(HashPassword(p), q) <==> KeyStream(p) == KeyStream(q)
    ensures NulFree(p) && NulFree(q) && |p| <= BCryptKeyBytes && |q| <= BCryptKeyBytes ==>
      (VerifyPassword(HashPassword(p), q) <==> p == q)
  {
    if NulFree(p) && NulFree(q) && |p| <= BCryptKeyBytes && |q| <= BCryptKeyBytes {
      KeyStreamInjective(p, q);
    }
  }

  /** Passwords that share their first 72 characters verify against each other's hash,
      whatever follows: 72 times "a" followed by "bbbbbbbb" and by "cccccccc" are both
      within the accepted 8 to 100 characters and are interchangeable. */
  lemma {:induction false} LongPasswordsCollide(prefix: string, p: string, q: string)
    requires |prefix| == BCryptKeyBytes
    ensures VerifyPassword(HashPassword(prefix + p), prefix + q)
  {
    assert (prefix + p)[..BCryptKeyBytes] == prefix;
    assert (prefix + q)[..BCryptKeyBytes] == prefix;
  }

  /** A password repeated behind a NUL verifies against the hash of the password itself:
      "abcdefgh\0abcdefgh" logs in where "abcdefgh" was registered. */
  lemma {:induction false} NulRepeatCollides(p: string)
    ensures VerifyPassword(HashPassword(p), p + [Nul] + p)
  {
    var once := p + [Nul];
    assert (p + [Nul] + p) + [Nul] == once + once;
    CycleTwice(once, BCryptKeyBytes);
  }
}
