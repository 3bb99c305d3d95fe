// ZakupStrategyStack: one request through the direct client, the browser and the fallbacks, and the
// verdict it records on the lane's breaker and on the breaker all lanes share.
module StrategyStack {
  import opened Types
  import opened Breakers

  const WAF: set<int> := {403, 418, 429}

  datatype Strategy = Direct | BrowserFetch | Intercept | Dom

  datatype Profile = Profile(browserOnly: bool)

  // What the outside world does with the request: how each call would end (None for an exception)
  // and which profile the browser has captured at each point the code looks.
  datatype World = World(
    known: Option<Profile>, direct: Option<int>, browserStarts: bool, captured: Option<Profile>,
    refreshed: Option<int>, intercepted: Option<int>, capturedLater: Option<Profile>,
    fetched: Option<int>, interceptedLater: Option<int>, dom: Option<int>)

  datatype Result = Refused | Raised | Response(status: int)

  // A strategy that was tried and came back.
  datatype Try = Try(strategy: Strategy, status: int)

  predicate Blocked(t: Try) {
    t.status in WAF
  }

  // A strategy and how its call ends.
  datatype Step = Step(strategy: Strategy, outcome: Option<int>)

  // _browser_request: the browser's fetch, then its intercept, and for catalog pages the DOM.
  function BrowserSteps(isFilter: bool, world: World): seq<Step> {
    [Step(BrowserFetch, world.fetched), Step(Intercept, world.interceptedLater)]
    + if isFilter then [Step(Dom, world.dom)] else []
  }

  // What is left when the direct client was blocked. The browser starts (if it does not, the request
  // ends there); then the direct client again with a profile captured now, unless that says that only a
  // browser will do; an intercept when there is none; and last the browser's own ways.
  function FallbackSteps(isFilter: bool, world: World): seq<Step> {
    if !world.browserStarts then [Step(BrowserFetch, None)]
    else if world.captured.None? then [Step(Intercept, world.intercepted)] + BrowserSteps(isFilter, world)
    else if world.captured.value.browserOnly then BrowserSteps(isFilter, world)
    else [Step(Direct, world.refreshed)] + BrowserSteps(isFilter, world)
  }

  // The strategies in their order, given what is known of the request. One that only a browser can
  // send is intercepted.
  function Ladder(known: Option<Profile>, isFilter: bool, world: World): seq<Step> {
    if known.Some? && known.value.browserOnly then [Step(Intercept, world.intercepted)]
    else [Step(Direct, world.direct)] + FallbackSteps(isFilter, world)
  }

  // The tries are the steps from the first on, each blocked but perhaps the last. The answer is the
  // last one's, blocked only if there is no further step; or the step after them raises.
  ghost predicate Climbs(ladder: seq<Step>, tries: seq<Try>, result: Result) {
    && |tries| <= |ladder|
    && (forall i | 0 <= i < |tries| :: ladder[i] == Step(tries[i].strategy, Some(tries[i].status)))
    && (forall i | 0 <= i < |tries| - 1 :: Blocked(tries[i]))
    && match result
       case Refused => false
       case Raised => |tries| < |ladder| && ladder[|tries|].outcome.None? && forall i | 0 <= i < |tries| :: Blocked(tries[i])
       case Response(status) =>
         tries != [] && status == tries[|tries| - 1].status && (status in WAF ==> |tries| == |ladder|)
  }

  // So the steps leave no choice of an answer.
  lemma {:induction false} ClimbsOneWay(ladder: seq<Step>, a: seq<Try>, b: seq<Try>, first: Result, second: Result)
    requires Climbs(ladder, a, first) && Climbs(ladder, b, second)
    ensures a == b && first == second
  {
    if |a| < |b| {
      ClimbStops(ladder, a, first, b, second);
    } else if |b| < |a| {
      ClimbStops(ladder, b, second, a, first);
    }
  }

  lemma ClimbStops(ladder: seq<Step>, a: seq<Try>, first: Result, b: seq<Try>, second: Result)
    requires Climbs(ladder, a, first) && Climbs(ladder, b, second)
    ensures |a| >= |b|
  {
  }

  // A climb goes on from a blocked step.
  lemma ClimbsOn(first: Try, ladder: seq<Step>, more: seq<Try>, result: Result)
    requires Blocked(first) && Climbs(ladder, more, result)
    ensures Climbs([Step(first.strategy, Some(first.status))] + ladder, [first] + more, result)
  {
  }

  // A request known to need a browser is answered by the intercept, whatever it says; any other by the
  // direct client, unless that is blocked. A blocked answer means that the fallbacks were used up.
  lemma LadderTells(known: Option<Profile>, isFilter: bool, world: World, tries: seq<Try>, result: Result)
    requires Climbs(Ladder(known, isFilter, world), tries, result)
    ensures if known.Some? && known.value.browserOnly then
              world.intercepted.Some? ==> tries == [Try(Intercept, world.intercepted.value)]
                                          && result == Response(world.intercepted.value)
            else
              world.direct.Some? && world.direct.value !in {403, 418, 429} ==>
                tries == [Try(Direct, world.direct.value)] && result == Response(world.direct.value)
    ensures result.Response? && result.status in {403, 418, 429} ==>
              || tries == [Try(Intercept, result.status)]
              || (|tries| >= 3 && tries[|tries| - 2].strategy == BrowserFetch && tries[|tries| - 1].strategy == Intercept && !isFilter)
              || (|tries| >= 4 && tries[|tries| - 3].strategy == BrowserFetch && tries[|tries| - 1].strategy == Dom && isFilter)
  {
    if !(known.Some? && known.value.browserOnly) && tries != [] {
      assert Ladder(known, isFilter, world)[0] == Step(Direct, world.direct);
      assert |tries| > 1 ==> Blocked(tries[0]);
    }
  }

  // The profile that is remembered after a request that was not refused: the one captured last.
  function LastSeen(known: Option<Profile>, world: World): Option<Profile> {
    if (known.Some? && known.value.browserOnly) || world.direct.None? || world.direct.value !in WAF || !world.browserStarts
    then known
    else if world.captured.Some? then world.captured
    else if world.intercepted.Some? && world.capturedLater.Some? then world.capturedLater
    else known
  }

  class Stack {
    const lane: CircuitBreaker
    const source: CircuitBreaker
    var profiles: map<string, Profile>

    ghost predicate Valid()
      reads this
    {
      lane != source && lane.cfg.blocked == WAF && source.cfg.blocked == WAF
    }

    constructor (lane: CircuitBreaker, source: CircuitBreaker)
      requires lane != source && lane.cfg.blocked == WAF && source.cfg.blocked == WAF
      ensures Valid() && this.lane == lane && this.source == source && profiles == map[]
    {
      this.lane, this.source, profiles := lane, source, map[];
    }

    // Records a response on both breakers.
    method RecordVerdict(status: int, now: Time)
      requires Valid()
      modifies lane, source
      ensures lane.Fields() == Status(old(lane.Fields()), lane.cfg, status, now).0
      ensures source.Fields() == Status(old(source.Fields()), source.cfg, status, now).0
    {
      if status in WAF {
        var _ := lane.RecordStatus(status, now);
        var _ := source.RecordStatus(status, now);
      } else {
        lane.RecordSuccess();
        source.RecordSuccess();
      }
    }

    // _browser_request
    method BrowserRequest(isFilter: bool, world: World, now: Time) returns (result: Result, tries: seq<Try>)
      requires Valid()
      modifies lane, source
      ensures Climbs(BrowserSteps(isFilter, world), tries, result)
      ensures result == Raised ==> source.Fields() == old(source.Fields()) && lane.Fields() == old(lane.Fields())
      ensures result.Response? ==> source.Fields() == Status(old(source.Fields()), source.cfg, result.status, now).0
                                   && lane.Fields() == Status(old(lane.Fields()), lane.cfg, result.status, now).0
    {
      tries := [];
      if world.fetched.None? { return Raised, tries; }
      var status := world.fetched.value;
      tries := [Try(BrowserFetch, status)];
      if status in WAF {
        if world.interceptedLater.None? { return Raised, tries; }
        status := world.interceptedLater.value;
        tries := tries + [Try(Intercept, status)];
      }
      if status in WAF && isFilter {
        if world.dom.None? { return Raised, tries; }
        status := world.dom.value;
        tries := tries + [Try(Dom, status)];
      }
      RecordVerdict(status, now);
      return Response(status), tries;
    }

    // What requests of other lanes do to the shared breaker.
    method OthersUse(events: seq<Event>)
      requires Valid()
      modifies source
      ensures source.Fields() == After(old(source.Fields()), source.cfg, events)
    {
      for i := 0 to |events|
        invariant source.Fields() == After(old(source.Fields()), source.cfg, events[..i])
      {
        assert events[..i + 1][..i] == events[..i];
        match events[i] {
          case Asked(at) => var _ := source.Allow(at);
          case StatusSeen(status, at) => var _ := source.RecordStatus(status, at);
          case TransportFailed(at) => var _ := source.RecordTransportFailure(at);
        }
      }
      assert events[..|events|] == events;
    }

    // _request_locked. A request that passes both breakers and returns records
    // exactly one verdict on each, its own status; one that raises records none; one that is refused
    // leaves the lane's breaker as allow leaves it, and the shared breaker has then been asked first.
    // `others` is what other lanes do to the shared breaker while the request is under way; the lane's
    // own breaker is behind the lane.
    method Request(key: string, isFilter: bool, world: World, asked: Time, now: Time, others: seq<Event>)
      returns (result: Result, tries: seq<Try>)
      requires Valid()
      modifies this`profiles, lane, source
      ensures var sourceAsked := Ask(old(source.Fields()), source.cfg, asked);
              var laneAsked := Ask(old(lane.Fields()), lane.cfg, asked);
              && (result == Refused <==> !(sourceAsked.1 && laneAsked.1))
              && (result == Refused ==> source.Fields() == sourceAsked.0
                                        && lane.Fields() == if sourceAsked.1 then laneAsked.0 else old(lane.Fields()))
              && (result == Raised ==> source.Fields() == After(sourceAsked.0, source.cfg, others) && lane.Fields() == laneAsked.0)
              && (result.Response? ==> source.Fields() == Status(After(sourceAsked.0, source.cfg, others), source.cfg, result.status, now).0
                                       && lane.Fields() == Status(laneAsked.0, lane.cfg, result.status, now).0)
      ensures result == Refused ==> tries == [] && profiles == old(profiles)
      // Otherwise it tries what is known of the request, and remembers the profile it saw last.
      ensures result != Refused ==>
                var known := if key in old(profiles) then Some(old(profiles)[key]) else world.known;
                && Climbs(Ladder(known, isFilter, world), tries, result)
                && profiles == match LastSeen(known, world) {
                     case Some(profile) => old(profiles)[key := profile]
                     case None => old(profiles)
                   }
      // So a request known to need a browser is answered by the intercept, whatever it says; any other
      // by the direct client, unless that is blocked.
      ensures result != Refused ==>
                var known := if key in old(profiles) then Some(old(profiles)[key]) else world.known;
                if known.Some? && known.value.browserOnly then
                  world.intercepted.Some? ==> tries == [Try(Intercept, world.intercepted.value)]
                                              && result == Response(world.intercepted.value)
                else
                  world.direct.Some? && world.direct.value !in {403, 418, 429} ==>
                    tries == [Try(Direct, world.direct.value)] && result == Response(world.direct.value)
      // A blocked answer means that the fallbacks were used up.
      ensures result.Response? && result.status in {403, 418, 429} ==>
                || tries == [Try(Intercept, result.status)]
                || (|tries| >= 3 && tries[|tries| - 2].strategy == BrowserFetch && tries[|tries| - 1].strategy == Intercept && !isFilter)
                || (|tries| >= 4 && tries[|tries| - 3].strategy == BrowserFetch && tries[|tries| - 1].strategy == Dom && isFilter)
    {
      tries := [];
      var allowed := source.Allow(asked);
      if !allowed {
        return Refused, tries;
      }
      allowed := lane.Allow(asked);
      if !allowed {
        return Refused, tries;
      }
      OthersUse(others);
      result, tries := UseStrategies(key, isFilter, world, now);
      LadderTells(if key in old(profiles) then Some(old(profiles)[key]) else world.known, isFilter, world, tries, result);
    }

    // The rest of _request_locked, when both breakers have let the request through.
    method UseStrategies(key: string, isFilter: bool, world: World, now: Time) returns (result: Result, tries: seq<Try>)
      requires Valid()
      modifies this`profiles, lane, source
      ensures var known := if key in old(profiles) then Some(old(profiles)[key]) else world.known;
              && Climbs(Ladder(known, isFilter, world), tries, result)
              && profiles == match LastSeen(known, world) {
                   case Some(profile) => old(profiles)[key := profile]
                   case None => old(profiles)
                 }
      ensures result == Raised ==> source.Fields() == old(source.Fields()) && lane.Fields() == old(lane.Fields())
      ensures result.Response? ==> source.Fields() == Status(old(source.Fields()), source.cfg, result.status, now).0
                                   && lane.Fields() == Status(old(lane.Fields()), lane.cfg, result.status, now).0
    {
      tries := [];
      var profile := if key in profiles then Some(profiles[key]) else world.known;
      if profile.Some? {
        profiles := profiles[key := profile.value];
      }
      if profile.Some? && profile.value.browserOnly {
        if world.intercepted.None? { return Raised, tries; }
        tries := [Try(Intercept, world.intercepted.value)];
        RecordVerdict(world.intercepted.value, now);
        return Response(world.intercepted.value), tries;
      }
      if world.direct.None? { return Raised, tries; }
      tries := [Try(Direct, world.direct.value)];
      if world.direct.value !in WAF {
        RecordVerdict(world.direct.value, now);
        return Response(world.direct.value), tries;
      }
      var more;
      result, more := FallBack(key, isFilter, world, now);
      ClimbsOn(tries[0], FallbackSteps(isFilter, world), more, result);
      tries := tries + more;
    }

    // The direct client was blocked.
    method FallBack(key: string, isFilter: bool, world: World, now: Time) returns (result: Result, tries: seq<Try>)
      requires Valid()
      modifies this`profiles, lane, source
      ensures Climbs(FallbackSteps(isFilter, world), tries, result)
      ensures profiles == if !world.browserStarts then old(profiles)
                          else if world.captured.Some? then old(profiles)[key := world.captured.value]
                          else if world.intercepted.Some? && world.capturedLater.Some? then
                            old(profiles)[key := world.capturedLater.value]
                          else old(profiles)
      ensures result == Raised ==> source.Fields() == old(source.Fields()) && lane.Fields() == old(lane.Fields())
      ensures result.Response? ==> source.Fields() == Status(old(source.Fields()), source.cfg, result.status, now).0
                                   && lane.Fields() == Status(old(lane.Fields()), lane.cfg, result.status, now).0
    {
      tries := [];
      if !world.browserStarts { return Raised, tries; }
      if world.captured.Some? {
        profiles := profiles[key := world.captured.value];
        if !world.captured.value.browserOnly {
          if world.refreshed.None? { return Raised, tries; }
          tries := [Try(Direct, world.refreshed.value)];
          if world.refreshed.value !in WAF {
            RecordVerdict(world.refreshed.value, now);
            return Response(world.refreshed.value), tries;
          }
        }
      } else {
        if world.intercepted.None? { return Raised, tries; }
        tries := [Try(Intercept, world.intercepted.value)];
        if world.capturedLater.Some? {
          profiles := profiles[key := world.capturedLater.value];
        }
        if world.intercepted.value !in WAF {
          RecordVerdict(world.intercepted.value, now);
          return Response(world.intercepted.value), tries;
        }
      }
      var more;
      result, more := BrowserRequest(isFilter, world, now);
      if tries != [] {
        ClimbsOn(tries[0], BrowserSteps(isFilter, world), more, result);
      }
      tries := tries + more;
    }
  }

  ghost predicate OnlyAsks(events: seq<Event>) {
    forall i: nat | i < |events| :: events[i].Asked?
  }

  // A probe that is out keeps the breaker as it is, whoever asks.
  lemma {:induction false} ProbeStaysOut(b: Breaker, cfg: Settings, asks: seq<Event>)
    requires b.state == HalfOpen && b.probe && OnlyAsks(asks)
    ensures After(b, cfg, asks) == b
  {
    if asks != [] {
      assert OnlyAsks(asks[..|asks| - 1]) && asks[|asks| - 1].Asked?;
      ProbeStaysOut(b, cfg, asks[..|asks| - 1]);
    }
  }

  // A request is let through by the shared breaker and records no verdict on it, because it raises or
  // because the lane's breaker refuses it. All later requests are refused, however many come and
  // whenever, as long as no result is recorded, exactly when the shared breaker was not closed.
  lemma {:induction false} LostProbeBlocks(b: Breaker, cfg: Settings, asked: Time)
    requires Ask(b, cfg, asked).1
    ensures (forall asks: seq<Event>, n: nat | OnlyAsks(asks) && n < |asks| :: !Answer(Ask(b, cfg, asked).0, cfg, asks, n))
            <==> b.state != Closed
  {
    var after := Ask(b, cfg, asked).0;
    if b.state == Closed {
      assert OnlyAsks([Asked(asked)]) && Answer(after, cfg, [Asked(asked)], 0);
    } else {
      forall asks: seq<Event>, n: nat | OnlyAsks(asks) && n < |asks|
        ensures !Answer(after, cfg, asks, n)
      {
        assert OnlyAsks(asks[..n]) && asks[n].Asked?;
        ProbeStaysOut(after, cfg, asks[..n]);
      }
    }
  }

  // A result ends that: a request that was let through before the breaker opened may still record
  // one. The first request after the result goes ahead just when it was not a failure, or the
  // cooldown that a failure begins anew is over.
  lemma {:induction false} ResultFreesProbe(b: Breaker, cfg: Settings, asked: Time, asks: seq<Event>, result: Event,
                                            at: Time)
    requires Ask(b, cfg, asked).1 && b.state != Closed && OnlyAsks(asks) && IsResult(result)
    ensures var events := asks + [result, Asked(at)];
            Answer(Ask(b, cfg, asked).0, cfg, events, |asks| + 1)
            <==> !IsFailure(result, cfg) || at - result.at >= cfg.cooldown
  {
    var after, events := Ask(b, cfg, asked).0, asks + [result, Asked(at)];
    ProbeStaysOut(after, cfg, asks);
    assert events[..|asks| + 1] == asks + [result];
    assert (asks + [result])[..|asks|] == asks;
    assert events[|asks| + 1] == Asked(at);
  }
}
