// ProxyPoolCursor, and what a rotation does to the set of proxies in use.
module ProxyPool {
  import opened Types

  // The pool's URLs, its cursor, and the time until which each URL cools down.
  datatype Pool = Pool(urls: seq<string>, cursor: nat, cooldown: int, coolingUntil: map<string, Time>)

  predicate Valid(pool: Pool) {
    if pool.urls == [] then pool.cursor == 0 else pool.cursor < |pool.urls|
  }

  predicate Cooling(pool: Pool, url: string, now: Time) {
    (if url in pool.coolingUntil then pool.coolingUntil[url] else 0) > now
  }

  predicate Usable(pool: Pool, exclude: set<string>, url: string, now: Time) {
    url !in exclude && !Cooling(pool, url, now)
  }

  function Marked(pool: Pool, url: string, now: Time): Pool {
    pool.(coolingUntil := pool.coolingUntil[url := now + pool.cooldown])
  }

  // A position around a ring of n, for positions below 2 * n.
  function Wrap(i: nat, n: nat): nat {
    if i < n then i else i - n
  }

  // The i-th URL from the cursor on, around the pool.
  function At(pool: Pool, i: nat): string
    requires Valid(pool) && i < |pool.urls|
  {
    pool.urls[Wrap(pool.cursor + i, |pool.urls|)]
  }

  // `url` is what next gives, and `after` is how it leaves the pool: the first usable URL from the
  // cursor on, with the cursor behind it; or nothing, when there is none, with the cursor back where
  // it was.
  ghost predicate NextGives(pool: Pool, exclude: set<string>, now: Time, url: Option<string>, after: Pool)
    requires Valid(pool)
  {
    match url
    case None => after == pool && forall u | u in pool.urls :: !Usable(pool, exclude, u, now)
    case Some(u) =>
      && pool.urls != []
      && exists i: nat :: && i < |pool.urls| && At(pool, i) == u && Usable(pool, exclude, u, now)
                          && (forall j: nat | j < i :: !Usable(pool, exclude, At(pool, j), now))
                          && after == pool.(cursor := Wrap(Wrap(pool.cursor + i, |pool.urls|) + 1, |pool.urls|))
  }

  class ProxyPoolCursor {
    const urls: seq<string>
    const cooldown: int
    var cursor: nat
    var coolingUntil: map<string, Time>

    function Value(): Pool
      reads this
    {
      Pool(urls, cursor, cooldown, coolingUntil)
    }

    constructor (urls: seq<string>, startIndex: int, cooldown: int)
      ensures this.urls == urls && this.cooldown == cooldown && coolingUntil == map[]
      ensures Valid(Value()) && (urls != [] ==> cursor == startIndex % |urls|)
    {
      this.urls, this.cooldown := urls, cooldown;
      cursor, coolingUntil := if urls == [] then 0 else startIndex % |urls|, map[];
    }

    method MarkFailed(url: string, now: Time)
      modifies this`coolingUntil
      ensures Value() == Marked(old(Value()), url, now)
    {
      coolingUntil := coolingUntil[url := now + cooldown];
    }

    method Next(exclude: set<string>, now: Time) returns (url: Option<string>)
      requires Valid(Value())
      modifies this`cursor
      ensures Valid(Value()) && NextGives(old(Value()), exclude, now, url, Value())
    {
      ghost var pool := Value();
      for i := 0 to |urls|
        invariant urls != [] ==> cursor == if i < |urls| then Wrap(pool.cursor + i, |urls|) else pool.cursor
        invariant Valid(Value()) && coolingUntil == old(coolingUntil)
        invariant forall j: nat | j < i :: !Usable(pool, exclude, At(pool, j), now)
      {
        var candidate := urls[cursor];
        assert candidate == At(pool, i);
        SmallRemainder(cursor + 1, |urls|);
        cursor := (cursor + 1) % |urls|;
        if candidate in exclude {
          continue;
        }
        if (if candidate in coolingUntil then coolingUntil[candidate] else 0) > now {
          continue;
        }
        return Some(candidate);
      }
      if urls != [] {
        EverywhereUnusable(pool, exclude, now);
      }
      return None;
    }
  }

  lemma Grows(n: nat, k: int)
    requires k >= 1
    ensures n * k >= n
  {
  }

  lemma Shrinks(n: nat, k: int)
    requires k <= -1
    ensures n * k + n <= 0
  {
  }

  lemma RemainderIs(x: int, n: nat, q: int, r: int)
    requires n > 0 && x == n * q + r && 0 <= r < n
    ensures x % n == r
  {
    var d := x / n - q;
    assert n * d == n * (x / n) - n * q;
    if d >= 1 {
      Grows(n, d);
    } else if d <= -1 {
      Shrinks(n, d);
    }
  }

  lemma SmallRemainder(i: nat, n: nat)
    requires i < 2 * n
    ensures i % n == Wrap(i, n)
  {
    RemainderIs(i, n, if i < n then 0 else 1, Wrap(i, n));
  }

  // Going once around the pool meets every URL.
  lemma EverywhereUnusable(pool: Pool, exclude: set<string>, now: Time)
    requires Valid(pool) && pool.urls != []
    requires forall j: nat | j < |pool.urls| :: !Usable(pool, exclude, At(pool, j), now)
    ensures forall u | u in pool.urls :: !Usable(pool, exclude, u, now)
  {
    forall u | u in pool.urls
      ensures !Usable(pool, exclude, u, now)
    {
      var k :| 0 <= k < |pool.urls| && pool.urls[k] == u;
      var j: nat := if k >= pool.cursor then k - pool.cursor else k + |pool.urls| - pool.cursor;
      assert At(pool, j) == u;
    }
  }

  // A proxy marked as failed is not given out again before its cooldown is over, whatever is excluded;
  // the others are not touched.
  lemma FailedStaysOut(pool: Pool, url: string, failedAt: Time, at: Time)
    requires Valid(pool)
    ensures var marked := Marked(pool, url, failedAt);
            && (forall u :: Cooling(marked, u, at) <==> if u == url then at < failedAt + pool.cooldown else Cooling(pool, u, at))
            && (forall exclude, after | NextGives(marked, exclude, at, Some(url), after) :: at >= failedAt + pool.cooldown)
  {
    var marked := Marked(pool, url, failedAt);
    forall exclude, after | NextGives(marked, exclude, at, Some(url), after)
      ensures at >= failedAt + pool.cooldown
    {
      NextIsUsable(marked, exclude, at, Some(url), after);
    }
  }

  // ---------------------------------------------------------------- proxies in use

  ghost predicate Distinct(urls: seq<string>) {
    forall i, j | 0 <= i < j < |urls| :: urls[i] != urls[j]
  }

  // A failed (or merely outlived) lane gives its proxy up for the next one of the pool; all proxies
  // in use, its own among them, are excluded.
  ghost predicate Rotates(pool: Pool, active: seq<string>, lane: nat, failed: bool, now: Time,
                          after: Pool, url: Option<string>)
    requires Valid(pool) && lane < |active|
  {
    var marked := if failed then Marked(pool, active[lane], now) else pool;
    NextGives(marked, InUse(active), now, url, after)
  }

  ghost function InUse(active: seq<string>): set<string> {
    set i | 0 <= i < |active| :: active[i]
  }

  // The proxies of the lanes other than the one at `lane`.
  function Others(active: seq<string>, lane: nat): set<string> {
    set i | 0 <= i < |active| && i != lane :: active[i]
  }

  lemma OthersAndOwn(active: seq<string>, lane: nat)
    requires lane < |active|
    ensures Others(active, lane) + {active[lane]} == InUse(active)
  {
    forall u | u in InUse(active)
      ensures u in Others(active, lane) + {active[lane]}
    {
      var i :| 0 <= i < |active| && active[i] == u;
    }
  }

  lemma NextIsUsable(pool: Pool, exclude: set<string>, now: Time, url: Option<string>, after: Pool)
    requires Valid(pool) && NextGives(pool, exclude, now, url, after)
    ensures Valid(after) && after.urls == pool.urls && after.coolingUntil == pool.coolingUntil
    ensures url.Some? ==> url.value in pool.urls && Usable(pool, exclude, url.value, now)
  {
    if url.Some? {
      var i: nat :| i < |pool.urls| && At(pool, i) == url.value && Usable(pool, exclude, url.value, now)
                    && after == pool.(cursor := Wrap(Wrap(pool.cursor + i, |pool.urls|) + 1, |pool.urls|));
    }
  }

  // A rotation keeps the proxies in use pairwise distinct and within the pool, and puts in one that
  // was not in use and is not cooling down. It comes away empty-handed only if every proxy of the
  // pool is in use or cooling down.
  lemma RotationKeepsDistinct(pool: Pool, active: seq<string>, lane: nat, failed: bool, now: Time,
                              after: Pool, url: Option<string>)
    requires Valid(pool) && lane < |active| && Distinct(active) && Rotates(pool, active, lane, failed, now, after, url)
    ensures Valid(after) && after.urls == pool.urls
    ensures url.Some? ==> && Distinct(active[lane := url.value]) && url.value in pool.urls
                          && url.value !in active && !Cooling(after, url.value, now)
    ensures url.None? ==> forall u | u in pool.urls :: u in active || Cooling(after, u, now)
  {
    var marked := if failed then Marked(pool, active[lane], now) else pool;
    NextIsUsable(marked, InUse(active), now, url, after);
    if url.Some? {
      assert url.value !in active;
    } else {
      forall u | u in pool.urls
        ensures u in active || Cooling(after, u, now)
      {
        assert !Usable(marked, InUse(active), u, now);
      }
    }
  }

  // The lanes a client starts with: consecutive URLs of the pool, from a configured index on.
  function FirstProxies(urls: seq<string>, index: int, lanes: nat): seq<string>
    requires urls != []
  {
    seq(lanes, i => urls[(index + i) % |urls|])
  }

  // As many lanes as the pool has URLs, at most, so they start with distinct proxies.
  lemma {:induction false} FirstProxiesDistinct(urls: seq<string>, index: int, lanes: nat)
    requires urls != [] && Distinct(urls) && lanes <= |urls|
    ensures Distinct(FirstProxies(urls, index, lanes))
  {
    var first := FirstProxies(urls, index, lanes);
    forall i, j | 0 <= i < j < |first|
      ensures first[i] != first[j]
    {
      FirstProxyAt(urls, index, i);
      FirstProxyAt(urls, index, j);
    }
  }

  lemma FirstProxyAt(urls: seq<string>, index: int, i: nat)
    requires urls != [] && i < |urls|
    ensures (index + i) % |urls| == Wrap(index % |urls| + i, |urls|)
  {
    var n, q := |urls|, index / |urls|;
    var r := index % n;
    assert index == n * q + r;
    if r + i < n {
      RemainderIs(index + i, n, q, r + i);
    } else {
      assert n * (q + 1) == n * q + n;
      RemainderIs(index + i, n, q + 1, r + i - n);
    }
  }
}
