// CircuitBreaker: the transitions, what they amount to over a whole history of requests, and the
// snapshot that is saved and restored.
module Breakers {
  import opened Types

  datatype State = Closed | Open | HalfOpen

  // The fields of a breaker. `probe` is _half_open_probe_active.
  datatype Breaker = Breaker(state: State, blocks: int, openedAt: Option<Time>, probe: bool)

  datatype Settings = Settings(threshold: int, cooldown: int, blocked: set<int>)

  const Fresh := Breaker(Closed, 0, None, false)

  predicate Cooled(b: Breaker, cfg: Settings, now: Time) {
    b.openedAt.Some? && now - b.openedAt.value >= cfg.cooldown
  }

  // What allow does: the breaker afterwards, and whether the request may go ahead.
  function Ask(b: Breaker, cfg: Settings, now: Time): (Breaker, bool) {
    if b.state == Closed then (b, true)
    else if b.state == Open && !Cooled(b, cfg, now) then (b, false)
    else if b.probe then (b.(state := HalfOpen), false)
    else (b.(state := HalfOpen, probe := true), true)
  }

  function Available(b: Breaker, cfg: Settings, now: Time): bool {
    b.state != Open || Cooled(b, cfg, now)
  }

  function Success(b: Breaker): Breaker {
    Breaker(Closed, 0, None, false)
  }

  // record_transport_failure, and record_status for a blocked status.
  function Failed(b: Breaker, cfg: Settings, now: Time): (Breaker, bool) {
    var opens := b.state == HalfOpen || b.blocks + 1 >= cfg.threshold;
    (if opens then Breaker(Open, b.blocks + 1, Some(now), false)
     else b.(blocks := b.blocks + 1, probe := false), opens)
  }

  function Status(b: Breaker, cfg: Settings, status: int, now: Time): (Breaker, bool) {
    if status in cfg.blocked then Failed(b, cfg, now) else (Success(b), false)
  }

  // cooldown_until
  function CooldownUntil(b: Breaker, cfg: Settings): Option<Time> {
    if b.openedAt.None? || b.state != Open then None else Some(b.openedAt.value + cfg.cooldown)
  }

  class CircuitBreaker {
    const cfg: Settings
    var state: State
    var blocks: int
    var openedAt: Option<Time>
    var probe: bool

    function Fields(): Breaker
      reads this
    {
      Breaker(state, blocks, openedAt, probe)
    }

    constructor (cfg: Settings)
      ensures this.cfg == cfg && Fields() == Fresh
    {
      this.cfg := cfg;
      state, blocks, openedAt, probe := Closed, 0, None, false;
    }

    // Refusal is CircuitOpenError.
    method Allow(now: Time) returns (allowed: bool)
      modifies this
      ensures (Fields(), allowed) == Ask(old(Fields()), cfg, now)
    {
      if state == Closed {
        return true;
      }
      if state == Open {
        if openedAt.None? || now - openedAt.value < cfg.cooldown {
          return false;
        }
        state := HalfOpen;
      }
      if probe {
        return false;
      }
      probe := true;
      return true;
    }

    method IsAvailable(now: Time) returns (available: bool)
      ensures available == Available(Fields(), cfg, now)
    {
      if state != Open {
        return true;
      }
      return openedAt.Some? && now - openedAt.value >= cfg.cooldown;
    }

    method RecordSuccess()
      modifies this
      ensures Fields() == Success(old(Fields()))
    {
      state, blocks, openedAt, probe := Closed, 0, None, false;
    }

    method RecordStatus(status: int, now: Time) returns (tripped: bool)
      modifies this
      ensures (Fields(), tripped) == Status(old(Fields()), cfg, status, now)
    {
      if status !in cfg.blocked {
        RecordSuccess();
        return false;
      }
      tripped := RecordTransportFailure(now);
    }

    method RecordTransportFailure(now: Time) returns (tripped: bool)
      modifies this
      ensures (Fields(), tripped) == Failed(old(Fields()), cfg, now)
    {
      blocks := blocks + 1;
      probe := false;
      if state == HalfOpen || blocks >= cfg.threshold {
        state := Open;
        openedAt := Some(now);
        return true;
      }
      return false;
    }

    method Restore(state: State, blocks: int, cooldownUntil: Option<Time>)
      modifies this
      ensures Fields() == Restored(Snapshot(state, blocks, cooldownUntil), cfg)
    {
      this.state := state;
      this.blocks := blocks;
      openedAt := if cooldownUntil.Some? && state == Open then Some(cooldownUntil.value - cfg.cooldown) else None;
      probe := false;
    }
  }

  // ---------------------------------------------------------------- histories

  // What happens to a breaker: a request asks to go ahead, or a result is recorded.
  datatype Event = Asked(at: Time) | StatusSeen(status: int, at: Time) | TransportFailed(at: Time)

  predicate IsResult(e: Event) {
    !e.Asked?
  }

  predicate IsFailure(e: Event, cfg: Settings) {
    e.TransportFailed? || (e.StatusSeen? && e.status in cfg.blocked)
  }

  // The breaker after the event, and what the event's call answered.
  function Step(b: Breaker, cfg: Settings, e: Event): (Breaker, bool) {
    match e
    case Asked(at) => Ask(b, cfg, at)
    case StatusSeen(status, at) => Status(b, cfg, status, at)
    case TransportFailed(at) => Failed(b, cfg, at)
  }

  function After(b: Breaker, cfg: Settings, events: seq<Event>): Breaker {
    if events == [] then b
    else Step(After(b, cfg, events[..|events| - 1]), cfg, events[|events| - 1]).0
  }

  // The number of failures recorded since the last result that was not one.
  function TrailingFailures(events: seq<Event>, cfg: Settings): nat {
    if events == [] then 0
    else
      var front, e := events[..|events| - 1], events[|events| - 1];
      if !IsResult(e) then TrailingFailures(front, cfg)
      else if IsFailure(e, cfg) then TrailingFailures(front, cfg) + 1
      else 0
  }

  // When the last result was recorded.
  function LastResultAt(events: seq<Event>): Option<Time> {
    if events == [] then None
    else if IsResult(events[|events| - 1]) then Some(events[|events| - 1].at)
    else LastResultAt(events[..|events| - 1])
  }

  // Since the last result a request has asked at a time past the cooldown of that result.
  function ProbedSince(events: seq<Event>, cfg: Settings): bool {
    if events == [] then false
    else
      var front, e := events[..|events| - 1], events[|events| - 1];
      if IsResult(e) then false
      else ProbedSince(front, cfg)
           || (LastResultAt(front).Some? && e.at - LastResultAt(front).value >= cfg.cooldown)
  }

  // The breaker, told from the history alone.
  function Told(events: seq<Event>, cfg: Settings): Breaker {
    var n := TrailingFailures(events, cfg);
    if n < cfg.threshold then Breaker(Closed, n, None, false)
    else if ProbedSince(events, cfg) then Breaker(HalfOpen, n, LastResultAt(events), true)
    else Breaker(Open, n, LastResultAt(events), false)
  }

  // The state machine does nothing but look at the history: it counts the failures since the last
  // success, is closed exactly while they are below the threshold, and half-open exactly when a
  // probe has been let through since the last result.
  lemma {:induction false} BreakerTellsHistory(cfg: Settings, events: seq<Event>)
    requires cfg.threshold >= 1
    ensures After(Fresh, cfg, events) == Told(events, cfg)
    ensures TrailingFailures(events, cfg) > 0 ==> LastResultAt(events).Some?
  {
    if events != [] {
      BreakerTellsHistory(cfg, events[..|events| - 1]);
    }
  }

  // What a request is told: go ahead while the failures are below the threshold; otherwise go ahead
  // only when the cooldown of the last result is over and nobody has been let through since.
  lemma AllowTellsHistory(cfg: Settings, events: seq<Event>, now: Time)
    requires cfg.threshold >= 1
    ensures Ask(After(Fresh, cfg, events), cfg, now).1 <==>
            || TrailingFailures(events, cfg) < cfg.threshold
            || (!ProbedSince(events, cfg) && LastResultAt(events).Some? && now - LastResultAt(events).value >= cfg.cooldown)
  {
    BreakerTellsHistory(cfg, events);
  }

  // Whether a lane is worth a try: not while its breaker is open and cools down, and again from the end
  // of the cooldown on. A breaker that is asked lets the request through just when it is available and
  // no probe is out.
  lemma AvailableTellsHistory(cfg: Settings, events: seq<Event>, now: Time)
    requires cfg.threshold >= 1
    ensures var b := After(Fresh, cfg, events);
            && (Available(b, cfg, now) <==>
                  || TrailingFailures(events, cfg) < cfg.threshold || ProbedSince(events, cfg)
                  || (LastResultAt(events).Some? && now >= LastResultAt(events).value + cfg.cooldown))
            && (Ask(b, cfg, now).1 <==> Available(b, cfg, now) && !b.probe)
  {
    BreakerTellsHistory(cfg, events);
  }

  // From opening to the next result, however often and whenever it is asked, the breaker lets one
  // request through at most.
  lemma {:induction false} OneProbe(cfg: Settings, events: seq<Event>, asks: seq<Event>, i: nat, j: nat)
    requires cfg.threshold >= 1 && TrailingFailures(events, cfg) >= cfg.threshold
    requires forall e | e in asks :: e.Asked?
    requires i < j < |asks|
    ensures !(Step(After(Fresh, cfg, events + asks[..i]), cfg, asks[i]).1
              && Step(After(Fresh, cfg, events + asks[..j]), cfg, asks[j]).1)
  {
    AsksKeepCount(cfg, events, asks[..i + 1]);
    AsksKeepCount(cfg, events, asks[..j]);
    AsksKeepCount(cfg, events, asks[..i]);
    assert asks[..i + 1] == asks[..i] + [asks[i]];
    assert asks[i] in asks && asks[j] in asks;
    AllowTellsHistory(cfg, events + asks[..i], asks[i].at);
    AllowTellsHistory(cfg, events + asks[..j], asks[j].at);
    if Step(After(Fresh, cfg, events + asks[..i]), cfg, asks[i]).1 {
      assert (events + asks[..i + 1])[..|events| + i] == events + asks[..i];
      assert ProbedSince(events + asks[..i + 1], cfg);
      assert asks[..j] == asks[..i + 1] + asks[i + 1..j];
      assert events + asks[..j] == (events + asks[..i + 1]) + asks[i + 1..j];
      ProbedStays(cfg, events + asks[..i + 1], asks[i + 1..j]);
    }
  }

  lemma {:induction false} AsksKeepCount(cfg: Settings, events: seq<Event>, asks: seq<Event>)
    requires forall e | e in asks :: e.Asked?
    ensures TrailingFailures(events + asks, cfg) == TrailingFailures(events, cfg)
    ensures LastResultAt(events + asks) == LastResultAt(events)
  {
    if asks == [] {
      assert events + asks == events;
    } else {
      assert (events + asks)[..|events + asks| - 1] == events + asks[..|asks| - 1];
      AsksKeepCount(cfg, events, asks[..|asks| - 1]);
    }
  }

  lemma {:induction false} ProbedStays(cfg: Settings, events: seq<Event>, asks: seq<Event>)
    requires forall e | e in asks :: e.Asked?
    requires ProbedSince(events, cfg)
    ensures ProbedSince(events + asks, cfg)
  {
    if asks == [] {
      assert events + asks == events;
    } else {
      assert (events + asks)[..|events + asks| - 1] == events + asks[..|asks| - 1];
      ProbedStays(cfg, events, asks[..|asks| - 1]);
    }
  }

  // ---------------------------------------------------------------- snapshots

  // What save_lane writes and restore reads.
  datatype Snapshot = Snapshot(state: State, blocks: int, cooldownUntil: Option<Time>)

  function Saved(b: Breaker, cfg: Settings): Snapshot {
    Snapshot(b.state, b.blocks, CooldownUntil(b, cfg))
  }

  function Restored(s: Snapshot, cfg: Settings): Breaker {
    Breaker(s.state, s.blocks,
            if s.cooldownUntil.Some? && s.state == Open then Some(s.cooldownUntil.value - cfg.cooldown) else None, false)
  }

  // Two breakers that no sequence of calls can tell apart: openedAt only matters while open.
  predicate Bisimilar(a: Breaker, b: Breaker) {
    a.state == b.state && a.blocks == b.blocks && a.probe == b.probe && (a.state == Open ==> a.openedAt == b.openedAt)
  }

  lemma BisimilarStep(a: Breaker, b: Breaker, cfg: Settings, e: Event)
    requires Bisimilar(a, b)
    ensures Bisimilar(Step(a, cfg, e).0, Step(b, cfg, e).0) && Step(a, cfg, e).1 == Step(b, cfg, e).1
  {
  }

  lemma {:induction false} BisimilarAfter(a: Breaker, b: Breaker, cfg: Settings, events: seq<Event>)
    requires Bisimilar(a, b)
    ensures Bisimilar(After(a, cfg, events), After(b, cfg, events))
  {
    if events != [] {
      var front := events[..|events| - 1];
      BisimilarAfter(a, b, cfg, front);
      BisimilarStep(After(a, cfg, front), After(b, cfg, front), cfg, events[|events| - 1]);
    }
  }

  // What the n-th of the calls answers.
  function Answer(b: Breaker, cfg: Settings, events: seq<Event>, n: nat): bool
    requires n < |events|
  {
    Step(After(b, cfg, events[..n]), cfg, events[n]).1
  }

  lemma HalfOpenKeepsOpening(cfg: Settings, history: seq<Event>)
    requires cfg.threshold >= 1
    ensures var original := After(Fresh, cfg, history).(probe := false);
            var restored := Restored(Saved(After(Fresh, cfg, history), cfg), cfg);
            Bisimilar(restored, original) && (original.state == HalfOpen ==> restored.openedAt.None? && original.openedAt.Some?)
  {
    BreakerTellsHistory(cfg, history);
  }

  // Save and restore, from any state a fresh breaker can get into: later calls answer as they would
  // have with the original breaker and no probe outstanding, although a half-open breaker loses the
  // time it opened; and saving again gives the same snapshot.
  lemma {:induction false} RestoreIsFaithful(cfg: Settings, history: seq<Event>, later: seq<Event>, now: Time)
    requires cfg.threshold >= 1
    ensures var original := After(Fresh, cfg, history).(probe := false);
            var restored := Restored(Saved(After(Fresh, cfg, history), cfg), cfg);
            && (forall n: nat | n < |later| :: Answer(restored, cfg, later, n) == Answer(original, cfg, later, n))
            && Available(After(restored, cfg, later), cfg, now) == Available(After(original, cfg, later), cfg, now)
            && Saved(After(restored, cfg, later), cfg) == Saved(After(original, cfg, later), cfg)
            && (original.state == HalfOpen ==> restored.openedAt.None? && original.openedAt.Some?)
  {
    var original := After(Fresh, cfg, history).(probe := false);
    var restored := Restored(Saved(After(Fresh, cfg, history), cfg), cfg);
    HalfOpenKeepsOpening(cfg, history);
    BisimilarAfter(restored, original, cfg, later);
    forall n: nat | n < |later|
      ensures Answer(restored, cfg, later, n) == Answer(original, cfg, later, n)
    {
      BisimilarAfter(restored, original, cfg, later[..n]);
      BisimilarStep(After(restored, cfg, later[..n]), After(original, cfg, later[..n]), cfg, later[n]);
    }
  }
}
