/** `RateLimitUtil.IsRateLimitExceeded`: a per-key request counter held in a memory cache
    whose entries live one minute after they were last written. The cache is passed in
    and returned instead of living in a process-wide static. */
module RateLimitUtil {
  import opened Wrappers

  /** A cached count and the absolute time (seconds) at which the entry expires. */
  datatype CacheEntry = CacheEntry(count: int, expiresAt: int)

  type Cache = map<string, CacheEntry>

  datatype Verdict = Verdict(cache: Cache, exceeded: bool)

  const Limit: int := 3
  const Window: int := 60

  /** The cache key `$"{userIp}:{endpoint}"`. */
  function Key(userIp: string, endpoint: string): string
  {
    userIp + ":" + endpoint
  }

  /** `TryGetValue`: an entry is visible until its absolute expiration is reached. */
  function Lookup(cache: Cache, key: string, now: int): (r: Option<int>)
    ensures r.Some? <==> key in cache && now < cache[key].expiresAt
    ensures r.Some? ==> r.value == cache[key].count
  {
    if key in cache && now < cache[key].expiresAt then Some(cache[key].count) else None
  }

  /** One call for an already-formed key. */
  function Hit(cache: Cache, key: string, now: int): (v: Verdict)
    ensures Lookup(cache, key, now).None? ==>
      v == Verdict(cache[key := CacheEntry(1, now + Window)], false)
    ensures Lookup(cache, key, now).Some? && Lookup(cache, key, now).value >= Limit ==>
      v == Verdict(cache, true)
    ensures Lookup(cache, key, now).Some? && Lookup(cache, key, now).value < Limit ==>
      v == Verdict(cache[key := CacheEntry(Lookup(cache, key, now).value + 1, now + Window)], false)
    ensures forall k :: k != key ==> (k in v.cache <==> k in cache)
    ensures forall k :: k != key && k in cache ==> v.cache[k] == cache[k]
  {
    match Lookup(cache, key, now)
    case Some(currentCount) =>
      if currentCount >= Limit then Verdict(cache, true)
      else Verdict(cache[key := CacheEntry(currentCount + 1, now + Window)], false)
    case None => Verdict(cache[key := CacheEntry(1, now + Window)], false)
  }

  function IsRateLimitExceeded(cache: Cache, userIp: string, endpoint: string, now: int): (v: Verdict)
    ensures v.exceeded <==> (Lookup(cache, Key(userIp, endpoint), now).Some?
                             && Lookup(cache, Key(userIp, endpoint), now).value >= Limit)
    ensures forall k :: k != Key(userIp, endpoint) && k in cache ==> k in v.cache && v.cache[k] == cache[k]
  {
    Hit(cache, Key(userIp, endpoint), now)
  }

  /** The key is not injective: an IPv6 address contains ':' and so the loopback address
      calling `login` shares its counter with address ":" calling `1:login`. */
  lemma KeyCollides()
    ensures Key("::1", "login") == Key(":", "1:login")
    ensures ("::1", "login") != (":", "1:login")
  {
  }

  /** A sequence of calls on one key at the given times; the verdicts in order. */
  function Run(cache: Cache, key: string, times: seq<int>): (r: seq<bool>)
    ensures |r| == |times|
    decreases |times|
  {
    if |times| == 0 then []
    else
      var v := Hit(cache, key, times[0]);
      [v.exceeded] + Run(v.cache, key, times[1..])
  }

  /** The counter for `key` after `n` accepted calls inside the window opened at `start`. */
  predicate CountedSince(cache: Cache, key: string, n: nat, start: int)
  {
    if n == 0 then key !in cache || cache[key].expiresAt <= start
    else key in cache && cache[key].count == n && cache[key].expiresAt >= start + Window
  }

  /** After `n` counted calls, the `i`-th further call in the same window is refused
      exactly when `n + i` has reached the limit. */
  lemma {:induction false} RunFromCount(cache: Cache, key: string, times: seq<int>, n: nat, start: int)
    requires n <= Limit
    requires CountedSince(cache, key, n, start)
    requires forall i :: 0 <= i < |times| ==> start <= times[i] < start + Window
    ensures forall i :: 0 <= i < |times| ==> Run(cache, key, times)[i] == (n + i >= Limit)
    decreases |times|
  {
    if |times| > 0 {
      var v := Hit(cache, key, times[0]);
      var n' := if n < Limit then n + 1 else n;
      assert CountedSince(v.cache, key, n', start);
      assert v.exceeded == (n >= Limit);
      RunFromCount(v.cache, key, times[1..], n', start);
      var r := Run(cache, key, times);
      assert r == [v.exceeded] + Run(v.cache, key, times[1..]);
      forall i | 0 <= i < |times|
        ensures r[i] == (n + i >= Limit)
      {
        if i > 0 {
          assert r[i] == Run(v.cache, key, times[1..])[i - 1];
          assert times[1..][i - 1] == times[i];
        }
      }
    }
  }

  /** Without an expiry in between, exactly the first three calls for a key pass and
      every later one is refused. */
  lemma FirstThreePass(cache: Cache, key: string, times: seq<int>, start: int)
    requires key !in cache || cache[key].expiresAt <= start
    requires forall i :: 0 <= i < |times| ==> start <= times[i] < start + Window
    ensures forall i :: 0 <= i < |times| ==> Run(cache, key, times)[i] == (i >= Limit)
  {
    RunFromCount(cache, key, times, 0, start);
  }
}
