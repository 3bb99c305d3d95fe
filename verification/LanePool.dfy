// The Zakup adapter's pool of session lanes: concurrent requests take lanes, wait for lanes, give
// them back and have them replaced behind their backs.
module LanePool {
  import opened Types
  import opened ProxyPool

  // A strategy stack. `id` is the object's identity.
  datatype Stack = Stack(id: nat, proxy: Option<string>)

  // Where a request stands: looking for a lane (again), asleep on the condition, holding a lane (for
  // a call of its stack, or only to have an outlived lane replaced), or returned.
  datatype Phase = Seeking | Waiting | Holding(lane: nat, calling: bool) | Returned

  datatype Request = Request(phase: Phase, attempted: set<nat>, attempts: nat)

  // The adapter's lanes, when each was last renewed, and the proxy pool; without one, `proxies` has no
  // URLs. `rotateUrl` says that the provider can be asked for another address behind a proxy.
  datatype Pool = Lanes(stacks: seq<Stack>, inUse: seq<bool>, startedAt: seq<Time>, next: nat, proxies: ProxyPool.Pool,
                        nextId: nat, rotateUrl: bool, ttl: int)

  // What an adapter is made from.
  datatype Settings = Settings(urls: seq<string>, index: int, proxyUrl: Option<string>, maxLanes: nat, browserLanes: nat,
                               cooldown: int, rotateUrl: bool, ttl: int)

  function LaneCount(cfg: Settings): (lanes: nat)
    ensures lanes >= 1 && (cfg.urls != [] ==> lanes <= |cfg.urls|)
  {
    Max(1, if cfg.urls != [] then Min(cfg.maxLanes, |cfg.urls|)
           else if cfg.proxyUrl.Some? then cfg.maxLanes
           else cfg.browserLanes)
  }

  // The proxy a lane starts with: one of the pool, or the configured one, or none.
  function FirstProxy(cfg: Settings, lane: nat): Option<string>
    requires lane < LaneCount(cfg)
  {
    if cfg.urls != [] then Some(FirstProxies(cfg.urls, cfg.index, LaneCount(cfg))[lane]) else cfg.proxyUrl
  }

  // The lanes of a new adapter.
  function Opened(cfg: Settings, now: Time): Pool {
    var lanes := LaneCount(cfg);
    Lanes(seq(lanes, i requires 0 <= i < lanes => Stack(i, FirstProxy(cfg, i))), seq(lanes, _ => false), seq(lanes, _ => now), 0,
          ProxyPool.Pool(cfg.urls, if cfg.urls == [] then 0 else (cfg.index + lanes) % |cfg.urls|, cfg.cooldown, map[]),
          lanes, cfg.rotateUrl, cfg.ttl)
  }

  predicate Rotatable(pool: Pool) {
    pool.proxies.urls != [] || pool.rotateUrl
  }

  // _lane_ttl_expired
  predicate Expired(pool: Pool, lane: nat, now: Time)
    requires lane < |pool.startedAt|
  {
    pool.ttl > 0 && Rotatable(pool) && now - pool.startedAt[lane] >= pool.ttl
  }

  // ---------------------------------------------------------------- one scan for a lane

  datatype Scan = Found(lane: nat) | NoLane | MustWait

  // The lane looked at in round i of a scan.
  function LaneAt(pool: Pool, i: nat): nat
    requires pool.next < |pool.stacks| && i < |pool.stacks|
  {
    Wrap(pool.next + i, |pool.stacks|)
  }

  predicate Untried(pool: Pool, attempted: set<nat>, lane: nat)
    requires lane < |pool.stacks|
  {
    pool.stacks[lane].id !in attempted
  }

  ghost predicate Shaped(pool: Pool) {
    && pool.stacks != [] && |pool.inUse| == |pool.startedAt| == |pool.stacks| && pool.next < |pool.stacks|
  }

  // A lane the scan may take: not tried, not in use, its breaker available.
  ghost predicate Takeable(pool: Pool, attempted: set<nat>, available: set<nat>, lane: nat)
    requires Shaped(pool) && lane < |pool.stacks|
  {
    Untried(pool, attempted, lane) && !pool.inUse[lane] && lane in available
  }

  // What a scan means: it takes the first takeable lane from the cursor on; if there is none, the
  // request has to wait just when a lane it has not tried is in use.
  ghost predicate ScanGives(pool: Pool, attempted: set<nat>, available: set<nat>, scan: Scan)
    requires Shaped(pool)
  {
    match scan
    case Found(lane) =>
      exists i: nat :: && i < |pool.stacks| && LaneAt(pool, i) == lane && Takeable(pool, attempted, available, lane)
                       && forall j: nat | j < i :: !Takeable(pool, attempted, available, LaneAt(pool, j))
    case NoLane =>
      && (forall l | 0 <= l < |pool.stacks| :: !Takeable(pool, attempted, available, l))
      && (forall l | 0 <= l < |pool.stacks| :: Untried(pool, attempted, l) ==> !pool.inUse[l])
    case MustWait =>
      && (forall l | 0 <= l < |pool.stacks| :: !Takeable(pool, attempted, available, l))
      && (exists l :: 0 <= l < |pool.stacks| && Untried(pool, attempted, l) && pool.inUse[l])
  }

  // The bookkeeping of the adapter, as it updates it.
  class Adapter {
    var stacks: seq<Stack>
    var inUse: seq<bool>
    var startedAt: seq<Time>
    var next: nat
    var nextId: nat
    const cursor: ProxyPoolCursor
    const rotateUrl: bool
    const ttl: int

    ghost function Value(): Pool
      reads this, cursor
    {
      Lanes(stacks, inUse, startedAt, next, cursor.Value(), nextId, rotateUrl, ttl)
    }

    constructor (cfg: Settings, now: Time)
      ensures fresh(cursor) && Value() == Opened(cfg, now)
    {
      var lanes := cfg.browserLanes;
      if cfg.urls != [] {
        lanes := Min(cfg.maxLanes, |cfg.urls|);
      } else if cfg.proxyUrl.Some? {
        lanes := cfg.maxLanes;
      }
      lanes := Max(1, lanes);
      stacks := seq(lanes, i requires 0 <= i < lanes =>
                  Stack(i, if cfg.urls != [] then Some(cfg.urls[(cfg.index + i) % |cfg.urls|]) else cfg.proxyUrl));
      inUse := seq(lanes, _ => false);
      startedAt := seq(lanes, _ => now);
      next := 0;
      nextId := lanes;
      rotateUrl, ttl := cfg.rotateUrl, cfg.ttl;
      cursor := new ProxyPoolCursor(cfg.urls, cfg.index + lanes, cfg.cooldown);
    }

    // One pass of the loop in _acquire_stack, up to the wait.
    method TryAcquire(attempted: set<nat>, available: set<nat>) returns (scan: Scan)
      requires Shaped(Value())
      modifies this`inUse, this`next
      ensures ScanGives(old(Value()), attempted, available, scan)
      ensures Value() == if scan.Found? then Take(old(Value()), scan.lane) else old(Value())
    {
      ghost var pool := Value();
      var untriedExists, busyExists := false, false;
      for i := 0 to |stacks|
        invariant next == if i < |stacks| then LaneAt(pool, i) else pool.next
        invariant inUse == pool.inUse
        invariant forall j: nat | j < i :: !Takeable(pool, attempted, available, LaneAt(pool, j))
        invariant busyExists <==> BusySeen(pool, attempted, i)
        invariant busyExists ==> untriedExists
      {
        var lane := next;
        SmallRemainder(next + 1, |stacks|);
        next := (next + 1) % |stacks|;
        if stacks[lane].id in attempted {
          continue;
        }
        untriedExists := true;
        if inUse[lane] {
          busyExists := true;
          assert BusySeen(pool, attempted, i + 1);
          continue;
        }
        if lane in available {
          inUse := inUse[lane := true];
          return Found(lane);
        }
      }
      ScanEnds(pool, attempted, available);
      if !untriedExists {
        return NoLane;
      }
      if !busyExists {
        return NoLane;
      }
      return MustWait;
    }

    // _release_stack with _replacement_stack. `provided` says whether the provider's rotation succeeds,
    // `buildable` whether making the replacement does, when it comes to that. `giveBack` is the event
    // this was.
    method ReleaseStack(lane: nat, exhausted: bool, failed: bool, provided: bool, buildable: bool, now: Time)
        returns (replaced: bool, ghost giveBack: GiveBack)
      requires Shaped(Value()) && Valid(cursor.Value()) && lane < |stacks|
      modifies this`inUse, this`stacks, this`startedAt, this`nextId, cursor
      ensures GivesBack(old(Value()), lane, exhausted, failed, giveBack)
      ensures Value() == GivenBack(old(Value()), lane, giveBack)
      ensures giveBack.Rotate? ==> giveBack.now == now && giveBack.built == buildable
      ensures giveBack.Provide? ==> giveBack.now == now && giveBack.success == (provided && buildable)
      ensures replaced <==> (giveBack.Rotate? && giveBack.url.Some? && buildable) || (giveBack.Provide? && provided && buildable)
    {
      giveBack, replaced := Keep, false;
      var current := stacks[lane].proxy;
      if exhausted && current.Some? && (cursor.urls != [] || rotateUrl) {
        var nextProxy: Option<string>;
        if cursor.urls != [] {
          if failed {
            cursor.MarkFailed(current.value, now);
          }
          OthersAndOwn(Proxies(stacks), lane);
          nextProxy := cursor.Next(Others(Proxies(stacks), lane) + {current.value}, now);
          giveBack := Rotate(failed, now, cursor.Value(), nextProxy, buildable);
        } else {
          nextProxy := if provided then current else None;
          giveBack := Provide(failed, now, provided && buildable);
        }
        replaced := nextProxy.Some? && buildable;
        if replaced {
          stacks := stacks[lane := Stack(nextId, nextProxy)];
          nextId := nextId + 1;
          startedAt := startedAt[lane := now];
        } else if !failed {
          startedAt := startedAt[lane := now];
        }
      }
      inUse := inUse[lane := false];
    }
  }

  // One of the first `rounds` lanes of the scan is untried and in use.
  ghost predicate BusySeen(pool: Pool, attempted: set<nat>, rounds: nat)
    requires Shaped(pool) && rounds <= |pool.stacks|
  {
    exists j: nat :: j < rounds && Untried(pool, attempted, LaneAt(pool, j)) && pool.inUse[LaneAt(pool, j)]
  }

  // A scan over as many rounds as there are lanes meets every lane.
  lemma ScanEnds(pool: Pool, attempted: set<nat>, available: set<nat>)
    requires Shaped(pool)
    requires forall j: nat | j < |pool.stacks| :: !Takeable(pool, attempted, available, LaneAt(pool, j))
    ensures ScanGives(pool, attempted, available, if BusySeen(pool, attempted, |pool.stacks|) then MustWait else NoLane)
  {
    forall l: nat | l < |pool.stacks|
      ensures !Takeable(pool, attempted, available, l)
      ensures Untried(pool, attempted, l) && pool.inUse[l] ==> BusySeen(pool, attempted, |pool.stacks|)
    {
      var j: nat := if l >= pool.next then l - pool.next else l + |pool.stacks| - pool.next;
      assert LaneAt(pool, j) == l;
    }
  }

  function Take(pool: Pool, lane: nat): Pool
    requires lane < |pool.stacks| && |pool.inUse| == |pool.stacks|
  {
    pool.(inUse := pool.inUse[lane := true], next := Wrap(lane + 1, |pool.stacks|))
  }

  // ---------------------------------------------------------------- all requests together

  // The adapter, the requests under way or returned, and _request's bound on stack calls.
  datatype Sys = Sys(pool: Pool, requests: map<nat, Request>, maxAttempts: nat)

  // What a request that gives its lane back does with it: keep it; have it replaced by a lane on the
  // next proxy of the pool, if one is to be had; or by one on the same proxy, whose provider was asked
  // for another address. `after` and `url` are what the proxy cursor gives; `built` is false when the
  // replacement raised an exception after that, which is logged and dropped.
  datatype GiveBack =
    | Keep
    | Rotate(failed: bool, now: Time, after: ProxyPool.Pool, url: Option<string>, built: bool)
    | Provide(failed: bool, now: Time, success: bool)

  datatype Event =
    | Arrive(request: nat)
    // A scan at a certain time.
    | Seek(request: nat, available: set<nat>, scan: Scan, at: Time)
    // The end of a stack call (or of the replacement of an outlived lane); `answered` says whether
    // the request has its answer.
    | Release(request: nat, exhausted: bool, giveBack: GiveBack, answered: bool)

  // The proxies of the lanes; only asked for when every lane has one.
  function Proxies(stacks: seq<Stack>): seq<string> {
    seq(|stacks|, i requires 0 <= i < |stacks| => if stacks[i].proxy.Some? then stacks[i].proxy.value else "")
  }

  // notify_all
  function WakeAll(requests: map<nat, Request>): map<nat, Request> {
    map r | r in requests :: if requests[r].phase == Waiting then requests[r].(phase := Seeking) else requests[r]
  }

  // A lane is replaced when it is exhausted and has a proxy that can be exchanged.
  ghost predicate GivesBack(pool: Pool, lane: nat, exhausted: bool, failed: bool, giveBack: GiveBack)
    requires Valid(pool.proxies) && lane < |pool.stacks|
  {
    if !(exhausted && pool.stacks[lane].proxy.Some? && Rotatable(pool)) then giveBack.Keep?
    else if pool.proxies.urls == [] then giveBack.Provide? && giveBack.failed == failed
    else && giveBack.Rotate? && giveBack.failed == failed
         && Rotates(pool.proxies, Proxies(pool.stacks), lane, failed, giveBack.now, giveBack.after, giveBack.url)
  }

  ghost predicate Possible(s: Sys, e: Event)
    requires Shaped(s.pool) && Valid(s.pool.proxies)
  {
    match e
    case Arrive(r) => r !in s.requests
    case Seek(r, available, scan, at) =>
      && r in s.requests && s.requests[r].phase == Seeking && s.requests[r].attempts < s.maxAttempts
      && ScanGives(s.pool, s.requests[r].attempted, available, scan)
    case Release(r, exhausted, giveBack, answered) =>
      && r in s.requests && s.requests[r].phase.Holding? && s.requests[r].phase.lane < |s.pool.stacks|
      && (!s.requests[r].phase.calling ==> exhausted && !answered)
      && GivesBack(s.pool, s.requests[r].phase.lane, exhausted, s.requests[r].phase.calling, giveBack)
  }

  // A lane that was not replaced starts anew only if it had merely been outlived.
  function Renewed(pool: Pool, lane: nat, failed: bool, now: Time): Pool
    requires lane < |pool.startedAt|
  {
    if failed then pool else pool.(startedAt := pool.startedAt[lane := now])
  }

  function Replaced(pool: Pool, lane: nat, proxy: Option<string>, now: Time): Pool
    requires lane < |pool.startedAt| && lane < |pool.stacks|
  {
    pool.(nextId := pool.nextId + 1, stacks := pool.stacks[lane := Stack(pool.nextId, proxy)],
          startedAt := pool.startedAt[lane := now])
  }

  // The pool after the lane has been given back.
  function GivenBack(pool: Pool, lane: nat, giveBack: GiveBack): Pool
    requires lane < |pool.stacks| && |pool.inUse| == |pool.startedAt| == |pool.stacks|
  {
    var freed := pool.(inUse := pool.inUse[lane := false]);
    match giveBack
    case Keep => freed
    case Rotate(failed, now, after, url, built) =>
      var rotated := freed.(proxies := after);
      if url.Some? && built then Replaced(rotated, lane, url, now) else Renewed(rotated, lane, failed, now)
    case Provide(failed, now, success) =>
      if success then Replaced(freed, lane, pool.stacks[lane].proxy, now) else Renewed(freed, lane, failed, now)
  }

  // A request leaves the loop when it has its answer, has used up its attempts, or finds no lane.
  function Continues(s: Sys, request: Request): Phase {
    if request.attempts < s.maxAttempts then Seeking else Returned
  }

  ghost function Next(s: Sys, e: Event): Sys
    requires Shaped(s.pool) && Valid(s.pool.proxies) && Possible(s, e)
  {
    match e
    case Arrive(r) =>
      s.(requests := s.requests[r := Request(Continues(s, Request(Seeking, {}, 0)), {}, 0)])
    case Seek(r, available, scan, at) =>
      var request := s.requests[r];
      (match scan
       case NoLane => s.(requests := s.requests[r := request.(phase := Returned)])
       case MustWait => s.(requests := s.requests[r := request.(phase := Waiting)])
       case Found(lane) =>
         var holding := if Expired(s.pool, lane, at) then request.(phase := Holding(lane, false))
                        else Request(Holding(lane, true), request.attempted + {s.pool.stacks[lane].id}, request.attempts + 1);
         s.(pool := Take(s.pool, lane), requests := s.requests[r := holding]))
    case Release(r, exhausted, giveBack, answered) =>
      var request := s.requests[r];
      var phase := if answered then Returned else Continues(s, request);
      s.(pool := GivenBack(s.pool, request.phase.lane, giveBack),
         requests := WakeAll(s.requests)[r := request.(phase := phase)])
  }

  // ---------------------------------------------------------------- the invariant

  ghost predicate StacksFit(pool: Pool) {
    && Shaped(pool) && Valid(pool.proxies)
    && (forall l | 0 <= l < |pool.stacks| :: pool.stacks[l].id < pool.nextId)
    && (forall l, m | 0 <= l < m < |pool.stacks| :: pool.stacks[l].id != pool.stacks[m].id)
  }

  ghost predicate LaneInv(s: Sys) {
    && StacksFit(s.pool)
    // A lane in use is held by exactly one request, a request holds a lane that is in use.
    && (forall r | r in s.requests && s.requests[r].phase.Holding? ::
          s.requests[r].phase.lane < |s.pool.stacks| && s.pool.inUse[s.requests[r].phase.lane])
    && (forall l | 0 <= l < |s.pool.stacks| && s.pool.inUse[l] :: exists r :: Holds(s, r, l))
    && (forall q, r, l | Holds(s, q, l) && Holds(s, r, l) :: q == r)
  }

  ghost predicate Holds(s: Sys, r: nat, lane: nat) {
    r in s.requests && s.requests[r].phase.Holding? && s.requests[r].phase.lane == lane
  }

  // A request has tried as many different stacks as it has made calls, at most maxAttempts.
  ghost predicate TryInv(s: Sys) {
    forall r | r in s.requests ::
      && |s.requests[r].attempted| == s.requests[r].attempts <= s.maxAttempts
      && (forall id | id in s.requests[r].attempted :: id < s.pool.nextId)
      && (s.requests[r].phase == Seeking || s.requests[r].phase == Waiting ==> s.requests[r].attempts < s.maxAttempts)
  }

  // A sleeping request sleeps on a lane it has not tried and that another request holds.
  ghost predicate SleepsRightly(s: Sys, r: nat)
    requires r in s.requests && Shaped(s.pool)
  {
    exists lane, q :: && 0 <= lane < |s.pool.stacks| && Untried(s.pool, s.requests[r].attempted, lane)
                      && Holds(s, q, lane) && q != r
  }

  ghost predicate SleepInv(s: Sys)
    requires Shaped(s.pool)
  {
    forall r | r in s.requests && s.requests[r].phase == Waiting :: SleepsRightly(s, r)
  }

  // However the lanes are connected.
  ghost predicate Inv(s: Sys) {
    LaneInv(s) && TryInv(s) && SleepInv(s)
  }

  // On a proxy pool every lane has a proxy of its own.
  ghost predicate ProxyInv(s: Sys) {
    && (forall l | 0 <= l < |s.pool.stacks| :: s.pool.stacks[l].proxy.Some? && s.pool.stacks[l].proxy.value in s.pool.proxies.urls)
    && Distinct(Proxies(s.pool.stacks))
  }

  lemma OpenedProxies(cfg: Settings, now: Time, maxAttempts: nat)
    requires cfg.urls != [] && Distinct(cfg.urls)
    ensures ProxyInv(Sys(Opened(cfg, now), map[], maxAttempts))
  {
    var s := Sys(Opened(cfg, now), map[], maxAttempts);
    FirstProxiesDistinct(cfg.urls, cfg.index, LaneCount(cfg));
    assert Proxies(s.pool.stacks) == FirstProxies(cfg.urls, cfg.index, LaneCount(cfg));
  }

  lemma LaneStep(s: Sys, e: Event)
    requires Inv(s) && Possible(s, e)
    ensures LaneInv(Next(s, e))
  {
    var after := Next(s, e);
    match e {
      case Arrive(r) =>
        HoldersStay(s, after, r);
      case Seek(r, available, scan, at) =>
        if scan.Found? {
          FoundIsFree(s.pool, s.requests[r].attempted, available, scan.lane);
          forall l | 0 <= l < |after.pool.stacks| && after.pool.inUse[l]
            ensures exists q :: Holds(after, q, l)
          {
            if l == scan.lane {
              assert Holds(after, r, l);
            } else {
              var q :| Holds(s, q, l);
              assert Holds(after, q, l);
            }
          }
          forall p, q, l | Holds(after, p, l) && Holds(after, q, l)
            ensures p == q
          {
            assert p != r ==> Holds(s, p, l);
            assert q != r ==> Holds(s, q, l);
          }
        } else {
          HoldersStay(s, after, r);
        }
      case Release(r, exhausted, giveBack, answered) =>
        ReleaseKeepsLanes(s, e);
    }
  }

  lemma FoundIsFree(pool: Pool, attempted: set<nat>, available: set<nat>, lane: nat)
    requires Shaped(pool) && ScanGives(pool, attempted, available, Found(lane))
    ensures lane < |pool.stacks| && Takeable(pool, attempted, available, lane)
  {
  }

  // A request that holds nothing before and after changes nothing about who holds what.
  lemma HoldersStay(s: Sys, after: Sys, r: nat)
    requires LaneInv(s) && after.pool == s.pool
    requires r in s.requests ==> !s.requests[r].phase.Holding?
    requires r in after.requests && !after.requests[r].phase.Holding?
    requires forall q | q != r :: (q in s.requests <==> q in after.requests) && (q in s.requests ==> after.requests[q] == s.requests[q])
    ensures LaneInv(after)
  {
    forall q, l
      ensures Holds(after, q, l) <==> Holds(s, q, l)
    {
    }
  }

  lemma RotationIsValid(pool: Pool, lane: nat, exhausted: bool, failed: bool, giveBack: GiveBack)
    requires Valid(pool.proxies) && lane < |pool.stacks| && GivesBack(pool, lane, exhausted, failed, giveBack)
    ensures giveBack.Rotate? ==> Valid(giveBack.after) && giveBack.after.urls == pool.proxies.urls
  {
    if giveBack.Rotate? {
      var marked := if failed then Marked(pool.proxies, Proxies(pool.stacks)[lane], giveBack.now) else pool.proxies;
      NextIsUsable(marked, InUse(Proxies(pool.stacks)), giveBack.now, giveBack.url, giveBack.after);
    }
  }

  lemma GivingBackKeepsStacks(pool: Pool, lane: nat, exhausted: bool, failed: bool, giveBack: GiveBack)
    requires StacksFit(pool) && lane < |pool.stacks| && GivesBack(pool, lane, exhausted, failed, giveBack)
    ensures StacksFit(GivenBack(pool, lane, giveBack)) && GivenBack(pool, lane, giveBack).inUse == pool.inUse[lane := false]
    ensures |GivenBack(pool, lane, giveBack).stacks| == |pool.stacks|
  {
    RotationIsValid(pool, lane, exhausted, failed, giveBack);
  }

  lemma ReleasedHolders(s: Sys, e: Event)
    requires Inv(s) && Possible(s, e) && e.Release?
    ensures forall q, l :: Holds(Next(s, e), q, l) <==> q != e.request && Holds(s, q, l)
  {
  }

  lemma ReleaseKeepsLanes(s: Sys, e: Event)
    requires Inv(s) && Possible(s, e) && e.Release?
    ensures LaneInv(Next(s, e))
  {
    var after, r := Next(s, e), e.request;
    var lane := s.requests[r].phase.lane;
    GivingBackKeepsStacks(s.pool, lane, e.exhausted, s.requests[r].phase.calling, e.giveBack);
    ReleasedHolders(s, e);
    assert Holds(s, r, lane);
    forall l | 0 <= l < |after.pool.stacks| && after.pool.inUse[l]
      ensures exists q :: Holds(after, q, l)
    {
      var q :| Holds(s, q, l);
      assert Holds(after, q, l);
    }
    forall q | q in after.requests && after.requests[q].phase.Holding?
      ensures after.requests[q].phase.lane < |after.pool.stacks| && after.pool.inUse[after.requests[q].phase.lane]
    {
      assert Holds(after, q, after.requests[q].phase.lane);
      assert Holds(s, q, after.requests[q].phase.lane);
    }
  }

  lemma TryStep(s: Sys, e: Event)
    requires Inv(s) && Possible(s, e)
    ensures TryInv(Next(s, e))
  {
    var after := Next(s, e);
    if e.Seek? && e.scan.Found? {
      FoundIsFree(s.pool, s.requests[e.request].attempted, e.available, e.scan.lane);
    }
  }

  lemma SleepStep(s: Sys, e: Event)
    requires Inv(s) && Possible(s, e) && LaneInv(Next(s, e))
    ensures SleepInv(Next(s, e))
  {
    var after := Next(s, e);
    forall r | r in after.requests && after.requests[r].phase == Waiting
      ensures SleepsRightly(after, r)
    {
      if e.Seek? && e.request == r {
        var lane :| 0 <= lane < |s.pool.stacks| && Untried(s.pool, s.requests[r].attempted, lane) && s.pool.inUse[lane];
        var q :| Holds(s, q, lane);
        assert Holds(after, q, lane);
      } else {
        assert SleepsRightly(s, r);
        var lane, q :| 0 <= lane < |s.pool.stacks| && Untried(s.pool, s.requests[r].attempted, lane) && Holds(s, q, lane) && q != r;
        assert Holds(after, q, lane);
      }
    }
  }

  lemma ProxyStep(s: Sys, e: Event)
    requires Inv(s) && ProxyInv(s) && s.pool.proxies.urls != [] && Possible(s, e)
    ensures ProxyInv(Next(s, e)) && Next(s, e).pool.proxies.urls == s.pool.proxies.urls
  {
    if e.Release? && e.giveBack.Rotate? {
      var lane := s.requests[e.request].phase.lane;
      var active := Proxies(s.pool.stacks);
      RotationKeepsDistinct(s.pool.proxies, active, lane, e.giveBack.failed, e.giveBack.now, e.giveBack.after, e.giveBack.url);
      if e.giveBack.url.Some? && e.giveBack.built {
        assert Proxies(Next(s, e).pool.stacks) == active[lane := e.giveBack.url.value];
      }
    } else {
      assert Next(s, e).pool.stacks == s.pool.stacks;
    }
  }

  // A run: every event is possible in the state it meets.
  ghost predicate Runs(s: Sys, events: seq<Event>, end: Sys)
    decreases |events|
  {
    if events == [] then end == s
    else Shaped(s.pool) && Valid(s.pool.proxies) && Possible(s, events[0]) && Runs(Next(s, events[0]), events[1..], end)
  }

  lemma {:induction false} InvAlways(s: Sys, events: seq<Event>, end: Sys)
    requires Inv(s) && Runs(s, events, end)
    ensures Inv(end)
    decreases |events|
  {
    if events != [] {
      LaneStep(s, events[0]);
      TryStep(s, events[0]);
      SleepStep(s, events[0]);
      InvAlways(Next(s, events[0]), events[1..], end);
    }
  }

  lemma {:induction false} ProxiesAlways(s: Sys, events: seq<Event>, end: Sys)
    requires Inv(s) && ProxyInv(s) && s.pool.proxies.urls != [] && Runs(s, events, end)
    ensures ProxyInv(end) && end.pool.proxies.urls == s.pool.proxies.urls
    decreases |events|
  {
    if events != [] {
      LaneStep(s, events[0]);
      TryStep(s, events[0]);
      SleepStep(s, events[0]);
      ProxyStep(s, events[0]);
      ProxiesAlways(Next(s, events[0]), events[1..], end);
    }
  }

  // Whatever requests come and however they interleave, on a proxy pool, on one proxy or on none: a
  // lane is held by one request at most, and by none that sleeps or has returned; a request makes at
  // most maxAttempts stack calls, each on a stack of its own; and a request sleeps only while another
  // request holds a lane it has not tried, so that somebody is always left to wake it.
  lemma {:induction false} LanesAreShared(cfg: Settings, now: Time, maxAttempts: nat, events: seq<Event>, end: Sys)
    requires Runs(Sys(Opened(cfg, now), map[], maxAttempts), events, end)
    ensures forall q, r, l | Holds(end, q, l) && Holds(end, r, l) :: q == r
    ensures forall l | 0 <= l < |end.pool.stacks| :: l < |end.pool.inUse| && (end.pool.inUse[l] <==> exists r :: Holds(end, r, l))
    ensures forall r | r in end.requests :: |end.requests[r].attempted| == end.requests[r].attempts <= maxAttempts
    ensures forall r | r in end.requests && end.requests[r].phase == Waiting :: Shaped(end.pool) && SleepsRightly(end, r)
  {
    var start := Sys(Opened(cfg, now), map[], maxAttempts);
    assert Inv(start);
    InvAlways(start, events, end);
    RunKeepsBound(start, events, end);
    forall l | 0 <= l < |end.pool.stacks|
      ensures end.pool.inUse[l] <==> exists r :: Holds(end, r, l)
    {
      if r :| Holds(end, r, l) {
        assert end.pool.inUse[end.requests[r].phase.lane];
      }
    }
  }

  lemma {:induction false} RunKeepsBound(s: Sys, events: seq<Event>, end: Sys)
    requires Runs(s, events, end)
    ensures end.maxAttempts == s.maxAttempts
    decreases |events|
  {
    if events != [] {
      RunKeepsBound(Next(s, events[0]), events[1..], end);
    }
  }

  // Through every interleaving of rotations on a proxy pool the lanes have pairwise distinct proxies
  // of the pool, and a lane that is replaced gets one that is neither in use nor cooling down.
  lemma {:induction false} ProxiesStayDistinct(cfg: Settings, now: Time, maxAttempts: nat, events: seq<Event>,
                                               end: Sys, e: Event)
    requires cfg.urls != [] && Distinct(cfg.urls)
    requires Runs(Sys(Opened(cfg, now), map[], maxAttempts), events, end)
    requires Shaped(end.pool) && Valid(end.pool.proxies) && Possible(end, e)
    ensures forall l | 0 <= l < |end.pool.stacks| :: end.pool.stacks[l].proxy.Some? && end.pool.stacks[l].proxy.value in cfg.urls
    ensures forall l, m | 0 <= l < m < |end.pool.stacks| :: end.pool.stacks[l].proxy != end.pool.stacks[m].proxy
    ensures var after := Next(end, e);
            forall l | 0 <= l < |end.pool.stacks| && l < |after.pool.stacks| && after.pool.stacks[l] != end.pool.stacks[l] ::
              && e.Release? && e.giveBack.Rotate? && after.pool.stacks[l].proxy.Some?
              && after.pool.stacks[l].proxy.value !in Proxies(end.pool.stacks)
              && !Cooling(after.pool.proxies, after.pool.stacks[l].proxy.value, e.giveBack.now)
  {
    var start := Sys(Opened(cfg, now), map[], maxAttempts);
    assert Inv(start);
    OpenedProxies(cfg, now, maxAttempts);
    ProxiesAlways(start, events, end);
    forall l, m | 0 <= l < m < |end.pool.stacks|
      ensures end.pool.stacks[l].proxy != end.pool.stacks[m].proxy
    {
      assert Proxies(end.pool.stacks)[l] != Proxies(end.pool.stacks)[m];
    }
    if e.Release? && e.giveBack.Rotate? {
      var lane := end.requests[e.request].phase.lane;
      RotationKeepsDistinct(end.pool.proxies, Proxies(end.pool.stacks), lane, e.giveBack.failed, e.giveBack.now,
                            e.giveBack.after, e.giveBack.url);
    }
  }

  // A lane that a scan finds outlived is given back without a call. Afterwards it is no longer
  // outlived just when it has a proxy: without one, nothing sets its clock.
  lemma OutlivedLaneRenewsIff(s: Sys, e: Event, at: Time)
    requires Inv(s) && Possible(s, e) && e.Release? && !s.requests[e.request].phase.calling
    requires Expired(s.pool, s.requests[e.request].phase.lane, at)
    requires !e.giveBack.Keep? ==> e.giveBack.now == at
    ensures LaneInv(Next(s, e))
    ensures !Expired(Next(s, e).pool, s.requests[e.request].phase.lane, at)
            <==> s.pool.stacks[s.requests[e.request].phase.lane].proxy.Some?
  {
    LaneStep(s, e);
  }

  // A request that has found a lane calls its stack, and has then tried it, unless the lane is
  // outlived: it has been up for its time to live and could be exchanged.
  lemma FoundTells(s: Sys, e: Event)
    requires Inv(s) && Possible(s, e) && e.Seek? && e.scan.Found?
    ensures var before, after, lane := s.requests[e.request], Next(s, e).requests[e.request], e.scan.lane;
            var outlived := && s.pool.ttl > 0 && (s.pool.proxies.urls != [] || s.pool.rotateUrl)
                            && e.at >= s.pool.startedAt[lane] + s.pool.ttl;
            && after.phase == Holding(lane, !outlived)
            && after.attempts == before.attempts + (if outlived then 0 else 1)
            && after.attempted == before.attempted + (if outlived then {} else {s.pool.stacks[lane].id})
            && Next(s, e).pool.inUse == s.pool.inUse[lane := true]
  {
  }

  // A request comes to its end just when a call brings its answer, when its attempts are used up, or
  // when a scan finds no lane that it could take now or wait for.
  lemma ReturnsIff(s: Sys, e: Event, r: nat)
    requires Inv(s) && Possible(s, e) && r in Next(s, e).requests
    requires r in s.requests ==> s.requests[r].phase != Returned
    ensures Next(s, e).requests[r].phase == Returned <==>
              match e
              case Arrive(q) => q == r && s.maxAttempts == 0
              case Seek(q, available, scan, _) =>
                && q == r && scan == NoLane
                && forall l | 0 <= l < |s.pool.stacks| && Untried(s.pool, s.requests[r].attempted, l) ::
                     !s.pool.inUse[l] && l !in available
              case Release(q, _, _, answered) => q == r && (answered || s.requests[r].attempts == s.maxAttempts)
  {
    if e.Seek? && e.scan == NoLane {
      forall l | 0 <= l < |s.pool.stacks| && Untried(s.pool, s.requests[e.request].attempted, l)
        ensures !s.pool.inUse[l] && l !in e.available
      {
        assert !Takeable(s.pool, s.requests[e.request].attempted, e.available, l);
      }
    }
  }
}
