// The EEP client's lanes: requests look for an unlocked lane one lane at a time, hold its lock while
// they use it, and have it replaced by a lane on another proxy when it fails.
module EepLanes {
  import opened Types
  import opened ProxyPool

  // EepHttpLane. `id` is the object's identity, and names its lock.
  datatype Lane = Lane(id: nat, proxy: string, generation: nat)

  // `locked` has the lanes whose lock is taken; a lane that was replaced may be among them.
  datatype Pool = Lanes(lanes: seq<Lane>, next: nat, locked: set<nat>, proxies: ProxyPool.Pool, nextId: nat)

  // A scan under way: the lane it began with, how many lanes it has still to look at, and the
  // positions it found locked or whose breaker refused.
  datatype Scan = Scan(first: nat, left: nat, busy: set<nat>, refused: set<nat>)

  // Where a request stands. Asking: it found a lane unlocked and awaits its breaker's answer.
  // Rotating: it awaits the provider. Spent: its lane has been dealt with and only its lock is left.
  datatype Phase =
    | Seeking
    | Scanning(scan: Scan)
    | Asking(index: nat, lane: Lane, scan: Scan)
    | Holding(index: nat, lane: Lane)
    | Rotating(index: nat, lane: Lane)
    | Spent(lane: Lane)
    | Returned

  datatype Request = Request(phase: Phase, attempts: nat)

  // `selection` and `rotation` are the holders of the two locks of the client.
  datatype Sys = Sys(pool: Pool, requests: map<nat, Request>, selection: Option<nat>, rotation: Option<nat>, maxAttempts: nat)

  datatype Event =
    | Arrive(request: nat)
    | Enter(request: nat)
    | Look(request: nat)
    | Answer(request: nat, available: bool)
    // The scan has looked at every lane: CircuitOpenError, or another scan later on.
    | GiveUp(request: nat)
    // The lane failed and is swapped for one on the pool's next proxy, if there is one.
    | Swap(request: nat, now: Time, after: ProxyPool.Pool, url: Option<string>)
    | AskProvider(request: nat)
    | Provided(request: nat, success: bool)
    // The lane's lock is released; `ends` says that the request has its answer or its exception.
    | Release(request: nat, ends: bool)

  function Proxies(lanes: seq<Lane>): (urls: seq<string>)
    ensures |urls| == |lanes|
  {
    seq(|lanes|, i requires 0 <= i < |lanes| => lanes[i].proxy)
  }

  ghost predicate Shaped(pool: Pool) {
    pool.lanes != [] && pool.next < |pool.lanes| && Valid(pool.proxies)
  }

  ghost predicate HasLock(phase: Phase) {
    phase.Holding? || phase.Rotating? || phase.Spent?
  }

  // ---------------------------------------------------------------- steps

  ghost predicate Possible(s: Sys, e: Event) {
    && Shaped(s.pool)
    && (e.Arrive? <==> e.request !in s.requests)
    && (!e.Arrive? ==>
          var phase := s.requests[e.request].phase;
          match e
          case Enter(r) => phase == Seeking && s.requests[r].attempts < s.maxAttempts && s.selection.None?
          case Look(r) => phase.Scanning? && phase.scan.left > 0
          case Answer(r, available) => phase.Asking?
          case GiveUp(r) => phase.Scanning? && phase.scan.left == 0
          case Swap(r, now, after, url) =>
            && phase.Holding? && s.pool.proxies.urls != [] && s.rotation.None? && phase.index < |s.pool.lanes|
            && (s.pool.lanes[phase.index] == phase.lane ==>
                  Rotates(s.pool.proxies, Proxies(s.pool.lanes), phase.index, true, now, after, url))
          case AskProvider(r) => phase.Holding? && s.pool.proxies.urls == [] && s.rotation.None? && phase.index < |s.pool.lanes|
          case Provided(r, success) => phase.Rotating? && phase.index < |s.pool.lanes|
          case Release(r, ends) => phase.Holding? || phase.Spent?)
  }

  function Put(s: Sys, r: nat, phase: Phase): Sys
    requires r in s.requests
  {
    s.(requests := s.requests[r := s.requests[r].(phase := phase)])
  }

  function Again(s: Sys, attempts: nat): Phase {
    if attempts < s.maxAttempts then Seeking else Returned
  }

  // The pool after the lane at `index` has given way to a new one.
  function Replace(pool: Pool, index: nat, proxy: string, proxies: ProxyPool.Pool): Pool
    requires index < |pool.lanes|
  {
    pool.(lanes := pool.lanes[index := Lane(pool.nextId, proxy, pool.lanes[index].generation + 1)],
          nextId := pool.nextId + 1, proxies := proxies)
  }

  // The pool after _replace_lane in pool mode. A lane that is no longer the current one is left alone.
  function Swapped(pool: Pool, index: nat, lane: Lane, after: ProxyPool.Pool, url: Option<string>): Pool
    requires index < |pool.lanes|
  {
    if pool.lanes[index] != lane then pool
    else if url.None? then pool.(proxies := after)
    else Replace(pool, index, url.value, after)
  }

  function Unlocked(pool: Pool, lane: Lane): Pool {
    pool.(locked := pool.locked - {lane.id})
  }

  function LookPhase(pool: Pool, scan: Scan): Phase
    requires pool.next < |pool.lanes| && scan.left > 0
  {
    var rest := scan.(left := scan.left - 1);
    if pool.lanes[pool.next].id in pool.locked then Scanning(rest.(busy := scan.busy + {pool.next}))
    else Asking(pool.next, pool.lanes[pool.next], rest)
  }

  ghost function Step(s: Sys, e: Event): Sys
    requires Possible(s, e)
  {
    match e
    case Arrive(r) => s.(requests := s.requests[r := Request(Again(s, 0), 0)])
    case Enter(r) =>
      Put(s, r, Scanning(Scan(s.pool.next, |s.pool.lanes|, {}, {}))).(selection := Some(r))
    case Look(r) =>
      Put(s, r, LookPhase(s.pool, s.requests[r].phase.scan)).(pool := Moved(s.pool))
    case Answer(r, available) =>
      var phase := s.requests[r].phase;
      if available then
        Taken(s, r)
      else Put(s, r, Scanning(phase.scan.(refused := phase.scan.refused + {phase.index})))
    case GiveUp(r) =>
      Put(s, r, if s.requests[r].phase.scan.busy == {} then Returned else Seeking).(selection := None)
    case Swap(r, now, after, url) =>
      var phase := s.requests[r].phase;
      Put(s, r, Spent(phase.lane)).(pool := Swapped(s.pool, phase.index, phase.lane, after, url))
    case AskProvider(r) =>
      var phase := s.requests[r].phase;
      if s.pool.lanes[phase.index] != phase.lane then Put(s, r, Spent(phase.lane))
      else Put(s, r, Rotating(phase.index, phase.lane)).(rotation := Some(r))
    case Provided(r, success) =>
      var phase := s.requests[r].phase;
      Put(s, r, Spent(phase.lane)).(rotation := None,
        pool := if success then Replace(s.pool, phase.index, phase.lane.proxy, s.pool.proxies) else s.pool)
    case Release(r, ends) =>
      Put(s, r, if ends then Returned else Again(s, s.requests[r].attempts)).(pool := Unlocked(s.pool, s.requests[r].phase.lane))
  }

  function Moved(pool: Pool): Pool {
    pool.(next := Wrap(pool.next + 1, |pool.lanes|))
  }

  // The breaker said yes: the lane's lock is taken, the selection lock is not needed any more.
  function Taken(s: Sys, r: nat): Sys
    requires r in s.requests && s.requests[r].phase.Asking?
  {
    var Request(phase, attempts) := s.requests[r];
    s.(pool := s.pool.(locked := s.pool.locked + {phase.lane.id}), selection := None,
       requests := s.requests[r := Request(Holding(phase.index, phase.lane), attempts + 1)])
  }

  ghost function Next(s: Sys, e: Event): Sys {
    if Possible(s, e) then Step(s, e) else s
  }

  ghost function Exec(s: Sys, run: seq<Event>): Sys {
    if run == [] then s else Next(Exec(s, run[..|run| - 1]), run[|run| - 1])
  }

  // What a client is made from: a pool of proxies, or one proxy, or (with neither) no lanes at all.
  datatype Settings = Settings(urls: seq<string>, index: int, proxyUrl: Option<string>, maxLanes: int, cooldown: int)

  function LaneCount(cfg: Settings): (lanes: nat)
    ensures cfg.urls != [] ==> lanes <= |cfg.urls|
  {
    if cfg.urls != [] then Max(0, Min(cfg.maxLanes, |cfg.urls|)) else if cfg.proxyUrl.Some? then 1 else 0
  }

  function FirstLane(cfg: Settings, i: nat): Lane
    requires i < LaneCount(cfg)
  {
    Lane(i, if cfg.urls != [] then FirstProxies(cfg.urls, cfg.index, LaneCount(cfg))[i] else cfg.proxyUrl.value, 0)
  }

  // The client as it starts.
  function Opened(cfg: Settings): Pool {
    Lanes(seq(LaneCount(cfg), i requires 0 <= i < LaneCount(cfg) => FirstLane(cfg, i)), 0, {},
          ProxyPool.Pool(cfg.urls, if cfg.urls == [] then 0 else (cfg.index + Min(cfg.maxLanes, |cfg.urls|)) % |cfg.urls|,
                         cfg.cooldown, map[]),
          LaneCount(cfg))
  }

  function Begin(cfg: Settings, maxAttempts: nat): Sys {
    Sys(Opened(cfg), map[], None, None, maxAttempts)
  }

  // ---------------------------------------------------------------- the invariant

  ghost predicate Holds(s: Sys, r: nat, id: nat) {
    r in s.requests && HasLock(s.requests[r].phase) && s.requests[r].phase.lane.id == id
  }

  ghost predicate IdInv(s: Sys) {
    && Shaped(s.pool)
    && (forall i: nat | i < |s.pool.lanes| :: s.pool.lanes[i].id < s.pool.nextId)
    && (forall i: nat, j: nat | i < j < |s.pool.lanes| :: s.pool.lanes[i].id != s.pool.lanes[j].id)
    && (forall id | id in s.pool.locked :: id < s.pool.nextId)
  }

  // A lock that is taken is taken by exactly one request.
  ghost predicate LockInv(s: Sys) {
    && (forall id | id in s.pool.locked :: exists r :: Holds(s, r, id))
    && (forall r, id | Holds(s, r, id) :: id in s.pool.locked)
    && (forall q, r, id | Holds(s, q, id) && Holds(s, r, id) :: q == r)
  }

  ghost predicate Current(pool: Pool, index: nat, lane: Lane) {
    index < |pool.lanes| && pool.lanes[index] == lane
  }

  // The lane a request holds, or is about to take, is the current one at its position.
  ghost predicate RightLane(s: Sys, r: nat)
    requires r in s.requests
  {
    var phase := s.requests[r].phase;
    && (phase.Asking? || phase.Holding? || phase.Rotating? ==> Current(s.pool, phase.index, phase.lane))
    && (phase.Asking? ==> phase.lane.id !in s.pool.locked)
  }

  ghost predicate GuardInv(s: Sys) {
    && (forall r | r in s.requests :: RightLane(s, r))
    && (forall r | r in s.requests :: s.requests[r].phase.Scanning? || s.requests[r].phase.Asking? <==> s.selection == Some(r))
    && (forall r | r in s.requests :: s.requests[r].phase.Rotating? <==> s.rotation == Some(r))
    && (s.selection.Some? ==> s.selection.value in s.requests)
    && (s.rotation.Some? ==> s.rotation.value in s.requests)
  }

  // The j-th position after `first`.
  function Place(first: nat, j: nat, n: nat): nat {
    Wrap(first + j, n)
  }

  // A scan meets the lanes in turn, from the one it began with; `asked` is the one it awaits.
  ghost predicate ScanFits(pool: Pool, scan: Scan, asked: set<nat>) {
    var n := |pool.lanes|;
    && scan.first < n && scan.left <= n
    && pool.next == (if scan.left == 0 then scan.first else Wrap(scan.first + n - scan.left, n))
    && (forall j: nat | j < n - scan.left :: Place(scan.first, j, n) in scan.busy + scan.refused + asked)
  }

  ghost predicate ScanRight(s: Sys, r: nat)
    requires r in s.requests
  {
    match s.requests[r].phase
    case Scanning(scan) => ScanFits(s.pool, scan, {})
    case Asking(index, lane, scan) => ScanFits(s.pool, scan, {index})
    case _ => true
  }

  ghost predicate ScanInv(s: Sys) {
    forall r | r in s.requests :: ScanRight(s, r)
  }

  ghost predicate ProxyInv(s: Sys) {
    && Distinct(Proxies(s.pool.lanes))
    && (s.pool.proxies.urls != [] ==> forall i: nat | i < |s.pool.lanes| :: s.pool.lanes[i].proxy in s.pool.proxies.urls)
  }

  ghost predicate TryInv(s: Sys) {
    forall r | r in s.requests ::
      && s.requests[r].attempts <= s.maxAttempts
      && (!HasLock(s.requests[r].phase) && s.requests[r].phase != Returned ==> s.requests[r].attempts < s.maxAttempts)
  }

  ghost predicate Inv(s: Sys) {
    IdInv(s) && LockInv(s) && GuardInv(s) && ScanInv(s) && ProxyInv(s) && TryInv(s)
  }

  lemma OpenedInv(cfg: Settings, maxAttempts: nat)
    requires LaneCount(cfg) >= 1 && Distinct(cfg.urls)
    ensures Inv(Begin(cfg, maxAttempts))
  {
    if cfg.urls != [] {
      FirstProxiesDistinct(cfg.urls, cfg.index, LaneCount(cfg));
      assert Proxies(Opened(cfg).lanes) == FirstProxies(cfg.urls, cfg.index, LaneCount(cfg));
    }
  }

  // The rotation that a Swap of a current lane is.
  lemma SwapRotates(s: Sys, e: Event)
    requires IdInv(s) && GuardInv(s) && ProxyInv(s) && e.Swap? && Possible(s, e)
    ensures var index := s.requests[e.request].phase.index;
            && s.pool.lanes[index] == s.requests[e.request].phase.lane
            && Valid(e.after) && e.after.urls == s.pool.proxies.urls
            && (e.url.Some? ==> && Distinct(Proxies(s.pool.lanes)[index := e.url.value]) && e.url.value in s.pool.proxies.urls
                                && e.url.value !in Proxies(s.pool.lanes) && !Cooling(e.after, e.url.value, e.now))
            && (e.url.None? ==> forall u | u in s.pool.proxies.urls :: u in Proxies(s.pool.lanes) || Cooling(e.after, u, e.now))
  {
    assert RightLane(s, e.request);
    RotationKeepsDistinct(s.pool.proxies, Proxies(s.pool.lanes), s.requests[e.request].phase.index, true, e.now, e.after, e.url);
  }

  lemma IdStep(s: Sys, e: Event)
    requires Inv(s) && Possible(s, e)
    ensures IdInv(Step(s, e))
  {
    if e.Swap? {
      SwapRotates(s, e);
    } else if e.Answer? {
      assert RightLane(s, e.request);
    }
  }

  lemma LockStep(s: Sys, e: Event)
    requires Inv(s) && Possible(s, e)
    ensures LockInv(Step(s, e))
  {
    var after, r := Step(s, e), e.request;
    if r in s.requests {
      assert RightLane(s, r);
    }
    forall id | id in after.pool.locked
      ensures exists q :: Holds(after, q, id)
    {
      if e.Answer? && id == s.requests[r].phase.lane.id {
        assert Holds(after, r, id);
      } else {
        var q :| Holds(s, q, id);
        assert Holds(after, q, id);
      }
    }
    forall q, id | Holds(after, q, id)
      ensures id in after.pool.locked
      ensures Holds(s, q, id) || (q == r && id !in s.pool.locked)
    {
      if q != r || !e.Answer? {
        assert Holds(s, q, id);
      }
      if e.Release? {
        assert Holds(s, r, s.requests[r].phase.lane.id);
      }
    }
  }

  // A lane that another request waits for, or holds, is not the one this step replaces.
  lemma OthersKeepTheirLanes(s: Sys, e: Event, q: nat)
    requires Inv(s) && Possible(s, e) && q in s.requests && q != e.request
    ensures RightLane(Step(s, e), q)
  {
    var after, r := Step(s, e), e.request;
    assert RightLane(s, q);
    if (e.Swap? || e.Provided?) && (s.requests[q].phase.Asking? || s.requests[q].phase.Holding? || s.requests[q].phase.Rotating?) {
      assert RightLane(s, r);
      assert Holds(s, r, s.requests[r].phase.lane.id);
      if HasLock(s.requests[q].phase) {
        assert Holds(s, q, s.requests[q].phase.lane.id);
      }
      assert s.requests[q].phase.lane.id != s.requests[r].phase.lane.id;
      assert s.requests[q].phase.index != s.requests[r].phase.index;
    } else if e.Answer? {
      assert s.selection == Some(r);
    }
  }

  lemma OwnLane(s: Sys, e: Event)
    requires Inv(s) && Possible(s, e)
    ensures RightLane(Step(s, e), e.request)
  {
    if e.request in s.requests {
      assert RightLane(s, e.request);
    }
  }

  // The two locks have the holders they are said to have.
  lemma SelectionStep(s: Sys, e: Event)
    requires GuardInv(s) && Possible(s, e)
    ensures var after := Step(s, e);
            && (forall r | r in after.requests :: after.requests[r].phase.Scanning? || after.requests[r].phase.Asking? <==> after.selection == Some(r))
            && (after.selection.Some? ==> after.selection.value in after.requests)
  {
  }

  lemma RotationStep(s: Sys, e: Event)
    requires GuardInv(s) && Possible(s, e)
    ensures var after := Step(s, e);
            && (forall r | r in after.requests :: after.requests[r].phase.Rotating? <==> after.rotation == Some(r))
            && (after.rotation.Some? ==> after.rotation.value in after.requests)
  {
  }

  lemma GuardStep(s: Sys, e: Event)
    requires Inv(s) && Possible(s, e)
    ensures GuardInv(Step(s, e))
  {
    var after := Step(s, e);
    SelectionStep(s, e);
    RotationStep(s, e);
    forall q | q in after.requests
      ensures RightLane(after, q)
    {
      if q != e.request {
        OthersKeepTheirLanes(s, e, q);
      } else {
        OwnLane(s, e);
      }
    }
  }

  lemma ScanStep(s: Sys, e: Event)
    requires Inv(s) && Possible(s, e)
    ensures ScanInv(Step(s, e))
  {
    var after, r := Step(s, e), e.request;
    assert |after.pool.lanes| == |s.pool.lanes|;
    forall q | q in after.requests
      ensures ScanRight(after, q)
    {
      if q != r {
        assert ScanRight(s, q);
        assert e.Look? ==> s.selection == Some(r);
      } else if q in s.requests {
        assert ScanRight(s, r);
        if e.Look? {
          LookFits(s.pool, s.requests[r].phase.scan);
        }
      }
    }
  }

  lemma LookFits(pool: Pool, scan: Scan)
    requires Shaped(pool) && ScanFits(pool, scan, {}) && scan.left > 0
    ensures var phase := LookPhase(pool, scan);
            ScanFits(Moved(pool), phase.scan, if phase.Asking? then {phase.index} else {})
  {
    var phase, n := LookPhase(pool, scan), |pool.lanes|;
    var asked := if phase.Asking? then {phase.index} else {};
    forall j: nat | j < n - phase.scan.left
      ensures Place(scan.first, j, n) in phase.scan.busy + phase.scan.refused + asked
    {
      if j < n - scan.left {
        assert Place(scan.first, j, n) in scan.busy + scan.refused + {};
      }
    }
  }

  lemma ProxyStep(s: Sys, e: Event)
    requires Inv(s) && Possible(s, e)
    ensures ProxyInv(Step(s, e))
  {
    var after := Step(s, e);
    if e.Swap? {
      SwapRotates(s, e);
      var index := s.requests[e.request].phase.index;
      if e.url.Some? {
        assert Proxies(after.pool.lanes) == Proxies(s.pool.lanes)[index := e.url.value];
      }
    } else if e.Provided? {
      assert RightLane(s, e.request);
      assert Proxies(after.pool.lanes) == Proxies(s.pool.lanes);
    } else {
      assert after.pool.lanes == s.pool.lanes;
    }
  }

  lemma TryStep(s: Sys, e: Event)
    requires Inv(s) && Possible(s, e)
    ensures TryInv(Step(s, e))
  {
  }

  lemma InvStep(s: Sys, e: Event)
    requires Inv(s)
    ensures Inv(Next(s, e))
  {
    if Possible(s, e) {
      IdStep(s, e);
      LockStep(s, e);
      GuardStep(s, e);
      ScanStep(s, e);
      ProxyStep(s, e);
      TryStep(s, e);
    }
  }

  lemma {:induction false} InvAlways(s: Sys, run: seq<Event>)
    requires Inv(s)
    ensures Inv(Exec(s, run))
    decreases |run|
  {
    if run != [] {
      var mid, e := Exec(s, run[..|run| - 1]), run[|run| - 1];
      InvAlways(s, run[..|run| - 1]);
      InvStep(mid, e);
    }
  }

  // ---------------------------------------------------------------- over every run

  // However requests, scans, breaker answers and replacements interleave, a request that has taken a
  // lane and not yet replaced it holds the current lane of that position, and holds it alone: the
  // lane cannot have been replaced between the scan's look and the lock, nor since.
  lemma HeldLaneIsCurrent(s: Sys, run: seq<Event>, r: nat)
    requires Inv(s) && r in Exec(s, run).requests && Exec(s, run).requests[r].phase.Holding?
    ensures var end := Exec(s, run); var phase := end.requests[r].phase;
            && Current(end.pool, phase.index, phase.lane) && phase.lane.id in end.pool.locked
            && forall q | q != r :: !Holds(end, q, phase.lane.id)
  {
    var end := Exec(s, run);
    InvAlways(s, run);
    assert RightLane(end, r) && Holds(end, r, end.requests[r].phase.lane.id);
  }

  lemma SwapChangesOne(s: Sys, e: Event)
    requires Inv(s) && e.Swap? && Possible(s, e)
    ensures var i := s.requests[e.request].phase.index;
            var after := Next(s, e).pool;
            if e.url.Some? then
              && after.lanes == s.pool.lanes[i := Lane(s.pool.nextId, e.url.value, s.pool.lanes[i].generation + 1)]
              && e.url.value !in Proxies(s.pool.lanes) && !Cooling(after.proxies, e.url.value, e.now)
            else
              && after.lanes == s.pool.lanes
              && forall u | u in s.pool.proxies.urls :: u in Proxies(s.pool.lanes) || Cooling(after.proxies, u, e.now)
  {
    SwapRotates(s, e);
  }

  // On a pool of distinct URLs the lanes always have distinct proxies of the pool; a swap leaves
  // every other lane alone and puts in a proxy that no lane has and that is not cooling down, or
  // finds that every proxy is one or the other. A request makes at most maxAttempts attempts.
  lemma ProxiesStayDistinct(cfg: Settings, maxAttempts: nat, run: seq<Event>, e: Event)
    requires Distinct(cfg.urls)
    ensures var end := Exec(Begin(cfg, maxAttempts), run);
            && Distinct(Proxies(end.pool.lanes))
            && (forall r | r in end.requests :: end.requests[r].attempts <= end.maxAttempts)
            && (e.Swap? && Possible(end, e) ==>
                  var i := end.requests[e.request].phase.index;
                  var after := Next(end, e).pool;
                  if e.url.Some? then
                    && after.lanes == end.pool.lanes[i := Lane(end.pool.nextId, e.url.value, end.pool.lanes[i].generation + 1)]
                    && e.url.value !in Proxies(end.pool.lanes) && !Cooling(after.proxies, e.url.value, e.now)
                  else
                    && after.lanes == end.pool.lanes
                    && forall u | u in end.pool.proxies.urls :: u in Proxies(end.pool.lanes) || Cooling(after.proxies, u, e.now))
  {
    var start := Begin(cfg, maxAttempts);
    if LaneCount(cfg) == 0 {
      NothingHappens(start, run);
    } else {
      InvFromStart(cfg, maxAttempts, run);
      if e.Swap? && Possible(Exec(start, run), e) {
        SwapChangesOne(Exec(start, run), e);
      }
    }
  }

  lemma InvFromStart(cfg: Settings, maxAttempts: nat, run: seq<Event>)
    requires LaneCount(cfg) >= 1 && Distinct(cfg.urls)
    ensures Inv(Exec(Begin(cfg, maxAttempts), run))
  {
    OpenedInv(cfg, maxAttempts);
    InvAlways(Begin(cfg, maxAttempts), run);
  }

  lemma {:induction false} NothingHappens(s: Sys, run: seq<Event>)
    requires s.pool.lanes == []
    ensures Exec(s, run) == s
  {
    if run != [] {
      NothingHappens(s, run[..|run| - 1]);
    }
  }

  // The answer of a lane's breaker: yes, and the request holds that lane, has made one more attempt and
  // lets others scan; no, and it scans on.
  lemma AnswerTells(s: Sys, run: seq<Event>, r: nat, available: bool)
    requires Inv(s) && Possible(Exec(s, run), Answer(r, available))
    ensures var end, after := Exec(s, run), Next(Exec(s, run), Answer(r, available));
            var index, lane := end.requests[r].phase.index, end.requests[r].phase.lane;
            && end.selection == Some(r) && Current(end.pool, index, lane)
            && if available then
                 && after.requests[r] == Request(Holding(index, lane), end.requests[r].attempts + 1)
                 && after.selection.None? && after.pool.locked == end.pool.locked + {lane.id}
               else
                 && after.requests[r].phase.Scanning? && after.requests[r].attempts == end.requests[r].attempts
                 && after.selection == Some(r) && after.pool.locked == end.pool.locked
  {
    InvAlways(s, run);
    assert RightLane(Exec(s, run), r);
  }

  // A request comes to its end just when its attempts are used up, when it is told to with its lane's
  // release, or when its scan has found no lane locked and none available.
  lemma ReturnsIff(s: Sys, run: seq<Event>, e: Event, r: nat)
    requires Inv(s) && Possible(Exec(s, run), e) && r in Next(Exec(s, run), e).requests
    requires r in Exec(s, run).requests ==> Exec(s, run).requests[r].phase != Returned
    ensures var end, after := Exec(s, run), Next(Exec(s, run), e);
            after.requests[r].phase == Returned <==>
              match e
              case Arrive(q) => q == r && end.maxAttempts == 0
              case GiveUp(q) => q == r && end.requests[r].phase.scan.busy == {}
              case Release(q, ends) => q == r && (ends || end.requests[r].attempts == end.maxAttempts)
              case _ => false
  {
    InvAlways(s, run);
  }

  // Without a pool the lane of a request that asks the provider is rebuilt on its proxy if the provider
  // agrees, and else stays; no other lane is touched.
  lemma ProviderRenewsOne(s: Sys, run: seq<Event>, r: nat, success: bool)
    requires Inv(s) && Possible(Exec(s, run), AskProvider(r))
    ensures var end := Exec(s, run);
            var phase := end.requests[r].phase;
            var asked := Next(end, AskProvider(r));
            var after := Next(asked, Provided(r, success));
            && asked.rotation == Some(r) && asked.pool == end.pool
            && after.rotation.None? && after.requests[r].phase == Spent(phase.lane)
            && after.pool.lanes == if success then end.pool.lanes[phase.index := Lane(end.pool.nextId, phase.lane.proxy, phase.lane.generation + 1)]
                                   else end.pool.lanes
  {
    InvAlways(s, run);
    assert RightLane(Exec(s, run), r);
  }

  // A scan that gives up with CircuitOpenError has asked the breaker of every lane, and was refused
  // by each; one that goes to sleep has found a lane locked.
  lemma RefusedByAll(s: Sys, run: seq<Event>, r: nat)
    requires Inv(s) && Possible(Exec(s, run), GiveUp(r))
    ensures var end := Exec(s, run);
            if Next(end, GiveUp(r)).requests[r].phase == Returned
            then forall i: nat | i < |end.pool.lanes| :: i in end.requests[r].phase.scan.refused
            else end.requests[r].phase.scan.busy != {}
  {
    var end := Exec(s, run);
    InvAlways(s, run);
    assert ScanRight(end, r);
    var scan, n := end.requests[r].phase.scan, |end.pool.lanes|;
    if scan.busy == {} {
      forall i: nat | i < n
        ensures i in scan.refused
      {
        var j: nat := if i >= scan.first then i - scan.first else i + n - scan.first;
        assert Place(scan.first, j, n) in scan.busy + scan.refused + {};
      }
    }
  }

  // ---------------------------------------------------------------- one request's scan

  // A whole scan without interruption: the pool, and where the request is, after it.
  function Scanned(pool: Pool, scan: Scan, available: set<nat>): (Pool, Phase)
    requires scan.left > 0 ==> pool.next < |pool.lanes|
    decreases scan.left
  {
    if scan.left == 0 then (pool, if scan.busy == {} then Returned else Seeking)
    else
      var lane, rest := pool.lanes[pool.next], scan.(left := scan.left - 1);
      if lane.id in pool.locked then Scanned(Moved(pool), rest.(busy := scan.busy + {pool.next}), available)
      else if pool.next in available then (Moved(pool).(locked := pool.locked + {lane.id}), Holding(pool.next, lane))
      else Scanned(Moved(pool), rest.(refused := scan.refused + {pool.next}), available)
  }

  // A run that leaves the request, and the pool, where they are said to be.
  ghost predicate Reaches(s: Sys, run: seq<Event>, r: nat, pool: Pool, phase: Phase) {
    var end := Exec(s, run);
    end.pool == pool && r in end.requests && end.requests[r].phase == phase
  }

  lemma Extend(s: Sys, run: seq<Event>, e: Event)
    ensures Exec(s, run + [e]) == Next(Exec(s, run), e)
  {
    assert (run + [e])[..|run|] == run;
  }

  lemma EnterReaches(s: Sys, r: nat)
    requires Inv(s) && s.selection.None? && r in s.requests && s.requests[r].phase == Seeking
    ensures Reaches(s, [Enter(r)], r, s.pool, Scanning(Scan(s.pool.next, |s.pool.lanes|, {}, {})))
  {
    Extend(s, [], Enter(r));
    assert [] + [Enter(r)] == [Enter(r)];
  }

  lemma LookReaches(s: Sys, run: seq<Event>, r: nat, pool: Pool, scan: Scan, available: bool)
    requires Shaped(pool) && scan.left > 0 && Reaches(s, run, r, pool, Scanning(scan))
    ensures var lane, rest := pool.lanes[pool.next], scan.(left := scan.left - 1);
            if lane.id in pool.locked then
              Reaches(s, run + [Look(r)], r, Moved(pool), Scanning(rest.(busy := scan.busy + {pool.next})))
            else
              Reaches(s, run + [Look(r)] + [Answer(r, available)], r,
                      if available then Moved(pool).(locked := pool.locked + {lane.id}) else Moved(pool),
                      if available then Holding(pool.next, lane) else Scanning(rest.(refused := scan.refused + {pool.next})))
  {
    Extend(s, run, Look(r));
    Extend(s, run + [Look(r)], Answer(r, available));
    SmallStep(pool);
  }

  lemma SmallStep(pool: Pool)
    requires Shaped(pool)
    ensures Shaped(Moved(pool))
  {
  }

  lemma GiveUpReaches(s: Sys, run: seq<Event>, r: nat, pool: Pool, scan: Scan)
    requires Shaped(pool) && scan.left == 0 && Reaches(s, run, r, pool, Scanning(scan))
    ensures Reaches(s, run + [GiveUp(r)], r, pool, if scan.busy == {} then Returned else Seeking)
  {
    Extend(s, run, GiveUp(r));
  }

  // The machine above can do the whole scan, event by event.
  lemma {:induction false} ScanIsRun(s: Sys, run: seq<Event>, r: nat, pool: Pool, scan: Scan,
                                     available: set<nat>) returns (whole: seq<Event>)
    requires Shaped(pool) && Reaches(s, run, r, pool, Scanning(scan))
    ensures var (after, phase) := Scanned(pool, scan, available); Reaches(s, whole, r, after, phase)
    decreases scan.left
  {
    if scan.left == 0 {
      GiveUpReaches(s, run, r, pool, scan);
      whole := run + [GiveUp(r)];
    } else {
      var rest := scan.(left := scan.left - 1);
      LookReaches(s, run, r, pool, scan, pool.next in available);
      if pool.lanes[pool.next].id in pool.locked {
        whole := ScanIsRun(s, run + [Look(r)], r, Moved(pool), rest.(busy := scan.busy + {pool.next}), available);
      } else if pool.next in available {
        whole := run + [Look(r)] + [Answer(r, true)];
      } else {
        whole := ScanIsRun(s, run + [Look(r)] + [Answer(r, false)], r, Moved(pool), rest.(refused := scan.refused + {pool.next}), available);
      }
    }
  }

  // A request that scans without interruption does one of the machine's runs.
  lemma AcquireIsRun(s: Sys, r: nat, available: set<nat>) returns (run: seq<Event>)
    requires Inv(s) && s.selection.None? && r in s.requests && s.requests[r].phase == Seeking
    ensures var (after, phase) := Scanned(s.pool, Scan(s.pool.next, |s.pool.lanes|, {}, {}), available);
            Reaches(s, run, r, after, phase)
  {
    EnterReaches(s, r);
    run := ScanIsRun(s, [Enter(r)], r, s.pool, Scan(s.pool.next, |s.pool.lanes|, {}, {}), available);
  }

  // ---------------------------------------------------------------- the client

  class Client {
    var lanes: seq<Lane>
    var next: nat
    var locked: set<nat>
    var nextId: nat
    const cursor: ProxyPoolCursor
    // The provider can be asked for another address behind a proxy.
    const rotateUrl: bool

    ghost function Value(): Pool
      reads this, cursor
    {
      Lanes(lanes, next, locked, cursor.Value(), nextId)
    }

    constructor (cfg: Settings, rotateUrl: bool)
      ensures fresh(cursor) && Value() == Opened(cfg) && this.rotateUrl == rotateUrl
    {
      if cfg.urls != [] {
        var count: nat := Max(0, Min(cfg.maxLanes, |cfg.urls|));
        lanes := seq(count, i requires 0 <= i < count => Lane(i, cfg.urls[(cfg.index + i) % |cfg.urls|], 0));
        nextId := count;
      } else if cfg.proxyUrl.Some? {
        lanes, nextId := [Lane(0, cfg.proxyUrl.value, 0)], 1;
      } else {
        lanes, nextId := [], 0;
      }
      next, locked := 0, {};
      cursor := new ProxyPoolCursor(cfg.urls, cfg.index + Min(cfg.maxLanes, |cfg.urls|), cfg.cooldown);
      this.rotateUrl := rotateUrl;
    }

    // _acquire_lane up to its sleep, with nobody else at work meanwhile: None is CircuitOpenError,
    // or (busy) the sleep.
    method AcquireLane(available: set<nat>) returns (got: Option<nat>, busy: bool)
      requires lanes == [] || Shaped(Value())
      modifies this`next, this`locked
      ensures got.Some? ==> got.value < |lanes|
      ensures var phase := if got.Some? then Holding(got.value, lanes[got.value]) else if busy then Seeking else Returned;
              (Value(), phase) == Scanned(old(Value()), Scan(old(next), |lanes|, {}, {}), available)
    {
      busy := false;
      ghost var scan := Scan(next, |lanes|, {}, {});
      for i := 0 to |lanes|
        invariant (lanes == [] || Shaped(Value())) && scan.left == |lanes| - i && (busy <==> scan.busy != {})
        invariant Scanned(Value(), scan, available) == Scanned(old(Value()), Scan(old(next), |lanes|, {}, {}), available)
      {
        ghost var before := Value();
        var index := next;
        SmallRemainder(next + 1, |lanes|);
        next := (next + 1) % |lanes|;
        assert Value() == Moved(before);
        var lane := lanes[index];
        if lane.id in locked {
          busy, scan := true, scan.(left := scan.left - 1, busy := scan.busy + {index});
          continue;
        }
        if index !in available {
          scan := scan.(left := scan.left - 1, refused := scan.refused + {index});
          continue;
        }
        locked := locked + {lane.id};
        return Some(index), busy;
      }
      return None, busy;
    }

    // _replace_lane: on a pool, by its next proxy; else the provider is asked, whose refusal raises.
    method ReplaceLane(index: nat, lane: Lane, failed: bool, provided: bool, now: Time)
        returns (outcome: Outcome, ghost after: ProxyPool.Pool, ghost url: Option<string>)
      requires Shaped(Value()) && index < |lanes|
      modifies this`lanes, this`nextId, cursor
      ensures old(lanes)[index] != lane ==> outcome == Done && Value() == old(Value())
      ensures old(lanes)[index] == lane && cursor.urls != [] ==>
                && Rotates(old(cursor.Value()), Proxies(old(lanes)), index, failed, now, after, url)
                && Value() == Swapped(old(Value()), index, lane, after, url)
                && outcome == if url.Some? then Done else NotDone
      ensures old(lanes)[index] == lane && cursor.urls == [] ==>
                && outcome == (if !rotateUrl then NotDone else if provided then Done else Raised)
                && Value() == if outcome == Done then Replace(old(Value()), index, lane.proxy, old(cursor.Value())) else old(Value())
    {
      after, url := cursor.Value(), None;
      if lanes[index] != lane {
        return Done, after, url;
      }
      var nextProxy: Option<string> := None;
      if cursor.urls != [] {
        if failed {
          cursor.MarkFailed(lane.proxy, now);
        }
        OthersAndOwn(Proxies(lanes), index);
        nextProxy := cursor.Next(Others(Proxies(lanes), index) + {lane.proxy}, now);
      } else if rotateUrl {
        if !provided {
          return Raised, after, url;
        }
        nextProxy := Some(lane.proxy);
      }
      after, url := cursor.Value(), nextProxy;
      if nextProxy.None? {
        return NotDone, after, url;
      }
      lanes := lanes[index := Lane(nextId, nextProxy.value, lane.generation + 1)];
      nextId := nextId + 1;
      return Done, after, url;
    }
  }

  // Whether _replace_lane returned True or False, or raised.
  datatype Outcome = Done | NotDone | Raised
}
