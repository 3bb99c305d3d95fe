// Job leases: any number of scheduler processes claim and complete one job.
module Scheduler {
  import opened Arithmetic
  import opened Types

  // One scheduler_job_state row.
  datatype Job = Job(lastStarted: Option<Time>, leasedUntil: Option<Time>, lastSuccess: Option<Time>, lastError: Option<string>)

  // How a job is configured, and whether its first run may start at once.
  datatype Config = Config(interval: int, lease: int, immediate: bool)

  datatype JobKey = JobKey(source: Source, name: string)

  // ---------------------------------------------------------------- the two transactions

  // INSERT ... ON CONFLICT DO NOTHING
  function Known(job: Option<Job>, cfg: Config, now: Time): Job {
    if job.Some? then job.value else Job(if cfg.immediate then None else Some(now), None, None, None)
  }

  predicate Due(job: Job, cfg: Config, now: Time) {
    && (job.leasedUntil.None? || job.leasedUntil.value < now)
    && (job.lastStarted.None? || job.lastStarted.value <= now - cfg.interval)
  }

  // claim_scheduler_job: the row after it, and whether the job was claimed.
  function Claim(job: Option<Job>, cfg: Config, now: Time): (Job, bool) {
    var known := Known(job, cfg, now);
    if Due(known, cfg, now) then (known.(lastStarted := Some(now), leasedUntil := Some(now + cfg.lease), lastError := None), true)
    else (known, false)
  }

  // complete_scheduler_job: nothing says which run completes.
  function Complete(job: Job, error: Option<string>, now: Time): Job {
    job.(lastSuccess := if error.None? then Some(now) else job.lastSuccess, leasedUntil := None, lastError := error)
  }

  function Lookup(jobs: map<JobKey, Job>, key: JobKey): Option<Job> {
    if key in jobs then Some(jobs[key]) else None
  }

  class Maintenance {
    var jobs: map<JobKey, Job>

    constructor ()
      ensures jobs == map[]
    {
      jobs := map[];
    }

    method ClaimSchedulerJob(key: JobKey, cfg: Config, now: Time) returns (claimed: bool)
      modifies this
      ensures claimed == Claim(Lookup(old(jobs), key), cfg, now).1
      ensures jobs == old(jobs)[key := Claim(Lookup(old(jobs), key), cfg, now).0]
    {
      if key !in jobs {
        jobs := jobs[key := Job(if cfg.immediate then None else Some(now), None, None, None)];
      }
      var job := jobs[key];
      if (job.leasedUntil.Some? && job.leasedUntil.value >= now) || (job.lastStarted.Some? && job.lastStarted.value > now - cfg.interval) {
        return false;
      }
      jobs := jobs[key := job.(lastStarted := Some(now), leasedUntil := Some(now + cfg.lease), lastError := None)];
      return true;
    }

    method CompleteSchedulerJob(key: JobKey, error: Option<string>, now: Time)
      modifies this
      ensures jobs == if key in old(jobs) then old(jobs)[key := Complete(old(jobs)[key], error, now)] else old(jobs)
      ensures key in jobs ==>
                && jobs[key].leasedUntil == None && jobs[key].lastStarted == old(jobs)[key].lastStarted
                && (error == None ==> jobs[key].lastSuccess == Some(now) && jobs[key].lastError == None)
                && (error != None ==> jobs[key].lastSuccess == old(jobs)[key].lastSuccess && jobs[key].lastError == error)
    {
      if key in jobs {
        var job := jobs[key];
        jobs := jobs[key := job.(lastSuccess := if error.None? then Some(now) else job.lastSuccess,
                                 leasedUntil := None, lastError := error)];
      }
    }
  }

  // One job of a scheduler process.
  datatype JobSpec = JobSpec(name: string, cfg: Config)

  class Process {
    const source: Source
    const maintenance: Maintenance
    var running: set<string>

    constructor (source: Source, maintenance: Maintenance)
      ensures this.source == source && this.maintenance == maintenance && running == {}
    {
      this.source, this.maintenance, running := source, maintenance, {};
    }

    // One round of run_scheduler: the tasks that are done are dropped, and every job that this
    // process is not running is claimed if it can be.
    method Poll(specs: seq<JobSpec>, done: set<string>, now: Time)
      requires forall i, j | 0 <= i < j < |specs| :: specs[i].name != specs[j].name
      modifies this, maintenance
      ensures forall i | 0 <= i < |specs| && specs[i].name !in old(running) - done ::
                && Lookup(maintenance.jobs, JobKey(source, specs[i].name))
                   == Some(Claim(Lookup(old(maintenance.jobs), JobKey(source, specs[i].name)), specs[i].cfg, now).0)
                && (specs[i].name in running
                    <==> Claim(Lookup(old(maintenance.jobs), JobKey(source, specs[i].name)), specs[i].cfg, now).1)
      ensures forall key: JobKey | key.source != source || key.name in old(running) - done
                           || (forall i | 0 <= i < |specs| :: specs[i].name != key.name) ::
                Lookup(maintenance.jobs, key) == Lookup(old(maintenance.jobs), key)
      ensures old(running) - done <= running
    {
      running := running - done;
      for i := 0 to |specs|
        invariant old(running) - done <= running
        invariant forall name | name in running :: name in old(running) - done || exists j :: 0 <= j < i && specs[j].name == name
        invariant forall j | 0 <= j < i && specs[j].name !in old(running) - done ::
                    && Lookup(maintenance.jobs, JobKey(source, specs[j].name))
                       == Some(Claim(Lookup(old(maintenance.jobs), JobKey(source, specs[j].name)), specs[j].cfg, now).0)
                    && (specs[j].name in running
                        <==> Claim(Lookup(old(maintenance.jobs), JobKey(source, specs[j].name)), specs[j].cfg, now).1)
        invariant forall key: JobKey | key.source != source || key.name in old(running) - done
                               || (forall j | 0 <= j < i :: specs[j].name != key.name) ::
                    Lookup(maintenance.jobs, key) == Lookup(old(maintenance.jobs), key)
      {
        var spec := specs[i];
        if spec.name in running {
          continue;
        }
        var claimed := maintenance.ClaimSchedulerJob(JobKey(source, spec.name), spec.cfg, now);
        if claimed {
          running := running + {spec.name};
        }
      }
    }
  }

  // ---------------------------------------------------------------- one job over a whole run

  // `starts` has the time of every successful claim; a run is known by its position there. `seen` is
  // when the job was first asked for, `active` the runs that have neither completed nor crashed. Time
  // starts at 0.
  datatype Sys = Sys(job: Option<Job>, now: Time, seen: Option<Time>, starts: seq<Time>, active: set<nat>)

  datatype Event =
    | Ask(at: Time)
    | Finish(run: nat, error: Option<string>, at: Time)
    | Crash(run: nat)

  predicate Possible(s: Sys, e: Event) {
    match e
    case Ask(at) => at >= s.now
    case Finish(run, error, at) => at >= s.now && run in s.active && s.job.Some?
    case Crash(run) => run in s.active
  }

  function Step(s: Sys, cfg: Config, e: Event): Sys
    requires Possible(s, e)
  {
    match e
    case Ask(at) =>
      var (job, claimed) := Claim(s.job, cfg, at);
      var asked := s.(job := Some(job), now := at, seen := if s.seen.None? then Some(at) else s.seen);
      if claimed then asked.(starts := s.starts + [at], active := s.active + {|s.starts|}) else asked
    case Finish(run, error, at) => s.(job := Some(Complete(s.job.value, error, at)), now := at, active := s.active - {run})
    case Crash(run) => s.(active := s.active - {run})
  }

  function Next(s: Sys, cfg: Config, e: Event): Sys {
    if Possible(s, e) then Step(s, cfg, e) else s
  }

  function Exec(cfg: Config, run: seq<Event>): Sys {
    if run == [] then Sys(None, 0, None, [], {}) else Next(Exec(cfg, run[..|run| - 1]), cfg, run[|run| - 1])
  }

  ghost predicate SpaceInv(s: Sys, cfg: Config) {
    && (s.job.Some? <==> s.seen.Some?)
    && (s.starts != [] ==> s.job.Some? && s.job.value.lastStarted == Some(s.starts[|s.starts| - 1]))
    && (s.starts == [] && s.job.Some? ==> s.job.value.lastStarted == (if cfg.immediate then None else s.seen))
    && (s.starts == [] && s.job.Some? ==> s.job.value.leasedUntil == None)
    && (forall i: nat | i + 1 < |s.starts| :: Apart(s.starts, i, cfg))
    && (s.starts != [] && !cfg.immediate ==> s.starts[0] >= s.seen.value + cfg.interval)
  }

  ghost predicate Apart(starts: seq<Time>, i: nat, cfg: Config)
    requires i + 1 < |starts|
  {
    starts[i + 1] >= starts[i] + cfg.interval
  }

  lemma SpaceStep(s: Sys, cfg: Config, e: Event)
    requires SpaceInv(s, cfg) && (s.starts == [] ==> s.active == {})
    ensures SpaceInv(Next(s, cfg, e), cfg)
    ensures Next(s, cfg, e).starts == [] ==> Next(s, cfg, e).active == {}
  {
    var after := Next(s, cfg, e);
    forall i: nat | i + 1 < |after.starts|
      ensures Apart(after.starts, i, cfg)
    {
      if i + 1 < |s.starts| {
        assert Apart(s.starts, i, cfg);
      }
    }
  }

  lemma {:induction false} SpaceAlways(cfg: Config, run: seq<Event>)
    ensures SpaceInv(Exec(cfg, run), cfg)
    ensures Exec(cfg, run).starts == [] ==> Exec(cfg, run).active == {}
  {
    if run != [] {
      SpaceAlways(cfg, run[..|run| - 1]);
      SpaceStep(Exec(cfg, run[..|run| - 1]), cfg, run[|run| - 1]);
    }
  }

  // However many processes ask, complete and crash: between claim i and claim j there are at least
  // j - i intervals, so that a span of time holds at most one claim more than it has whole intervals.
  lemma {:induction false} ClaimsAreSpaced(cfg: Config, run: seq<Event>, i: nat, j: nat)
    requires i <= j < |Exec(cfg, run).starts|
    ensures Exec(cfg, run).starts[j] - Exec(cfg, run).starts[i] >= (j - i) * cfg.interval
    decreases j
  {
    if i < j {
      ClaimsAreSpaced(cfg, run, i, j - 1);
      SpaceAlways(cfg, run);
      assert Apart(Exec(cfg, run).starts, j - 1, cfg);
      assert (j - i) * cfg.interval == (j - 1 - i) * cfg.interval + cfg.interval;
    }
  }

  lemma {:induction false} ClaimsInSpan(cfg: Config, run: seq<Event>, i: nat, j: nat, span: nat)
    requires i <= j < |Exec(cfg, run).starts| && cfg.interval > 0
    requires Exec(cfg, run).starts[j] - Exec(cfg, run).starts[i] <= span
    ensures j - i + 1 <= 1 + span / cfg.interval
  {
    ClaimsAreSpaced(cfg, run, i, j);
    QuotientBound(j - i, cfg.interval, span);
  }

  lemma QuotientBound(n: nat, k: nat, span: nat)
    requires k > 0 && n * k <= span
    ensures n <= span / k
  {
    if n > span / k {
      Monotone(span / k + 1, n, k);
    }
  }

  // A run has completed since the latest start.
  ghost predicate FinishedSince(cfg: Config, run: seq<Event>) {
    run != []
    && var front, e := run[..|run| - 1], run[|run| - 1];
       if !Possible(Exec(cfg, front), e) then FinishedSince(cfg, front)
       else match e
            case Ask(_) => |Exec(cfg, run).starts| == |Exec(cfg, front).starts| && FinishedSince(cfg, front)
            case Finish(_, _, _) => true
            case Crash(_) => FinishedSince(cfg, front)
  }

  // The lease that is stored: that of the latest start, unless a run has completed since.
  ghost predicate StoresLease(s: Sys, cfg: Config, finished: bool) {
    s.job.Some? ==>
      s.job.value.leasedUntil == if s.starts == [] || finished then None else Some(s.starts[|s.starts| - 1] + cfg.lease)
  }

  lemma {:induction false} LeaseIsLatest(cfg: Config, run: seq<Event>)
    ensures StoresLease(Exec(cfg, run), cfg, FinishedSince(cfg, run))
  {
    if run != [] {
      LeaseIsLatest(cfg, run[..|run| - 1]);
      SpaceAlways(cfg, run[..|run| - 1]);
    }
  }

  // When exactly a request to start the job succeeds. A deferred job waits an interval from when it
  // was first asked for, another one starts at once; later runs wait an interval from the last start,
  // and until a run has completed since or the last start's lease is over.
  lemma {:induction false} ClaimedIff(cfg: Config, run: seq<Event>, at: Time)
    requires at >= Exec(cfg, run).now
    ensures var s := Exec(cfg, run);
            |Next(s, cfg, Ask(at)).starts| > |s.starts|
            <==> if s.starts == [] then
                   cfg.immediate || (if s.seen.None? then cfg.interval <= 0 else at >= s.seen.value + cfg.interval)
                 else
                   var last := s.starts[|s.starts| - 1];
                   at >= last + cfg.interval && (FinishedSince(cfg, run) || at > last + cfg.lease)
  {
    SpaceAlways(cfg, run);
    LeaseIsLatest(cfg, run);
  }

  // A deferred job is never started before an interval has passed since it was first asked for.
  lemma {:induction false} DeferredWaits(cfg: Config, run: seq<Event>, i: nat)
    requires !cfg.immediate && cfg.interval >= 0 && i < |Exec(cfg, run).starts|
    ensures Exec(cfg, run).seen.Some? && Exec(cfg, run).starts[i] >= Exec(cfg, run).seen.value + cfg.interval
  {
    SpaceAlways(cfg, run);
    ClaimsAreSpaced(cfg, run, 0, i);
    assert i * cfg.interval >= 0;
  }

  // ---------------------------------------------------------------- overlap

  // A run that is still within its lease.
  predicate InLease(s: Sys, cfg: Config, run: nat, at: Time)
    requires run < |s.starts|
  {
    at <= s.starts[run] + cfg.lease
  }

  // Every run that completes does so within its lease; crashes may come at any time.
  ghost predicate Timely(cfg: Config, run: seq<Event>) {
    forall n: nat | n < |run| && run[n].Finish? ::
      var s := Exec(cfg, run[..n]);
      run[n].run < |s.starts| ==> InLease(s, cfg, run[n].run, run[n].at)
  }

  // A run within its lease is the latest one, and the lease that is stored is its own.
  ghost predicate LeaseInv(s: Sys, cfg: Config) {
    forall r | r in s.active ::
      && r < |s.starts| && s.job.Some?
      && (InLease(s, cfg, r, s.now) ==> r == |s.starts| - 1 && s.job.value.leasedUntil == Some(s.starts[r] + cfg.lease))
  }

  lemma LeaseStep(s: Sys, cfg: Config, e: Event)
    requires LeaseInv(s, cfg) && (e.Finish? && e.run < |s.starts| ==> InLease(s, cfg, e.run, e.at))
    ensures LeaseInv(Next(s, cfg, e), cfg)
  {
  }

  lemma {:induction false} LeaseAlways(cfg: Config, run: seq<Event>)
    requires Timely(cfg, run)
    ensures LeaseInv(Exec(cfg, run), cfg)
  {
    if run != [] {
      var front, n := run[..|run| - 1], |run| - 1;
      forall k: nat | k < |front| && front[k].Finish?
        ensures var s := Exec(cfg, front[..k]); front[k].run < |s.starts| ==> InLease(s, cfg, front[k].run, front[k].at)
      {
        assert run[k] == front[k] && run[..k] == front[..k];
      }
      LeaseAlways(cfg, front);
      assert run[n].Finish? ==> (run[n].run < |Exec(cfg, run[..n]).starts| ==> InLease(Exec(cfg, run[..n]), cfg, run[n].run, run[n].at));
      LeaseStep(Exec(cfg, front), cfg, run[n]);
    }
  }

  // Starts come in order, the last one not in the future.
  ghost predicate StartsInOrder(s: Sys) {
    && (forall i: nat, j: nat | i <= j < |s.starts| :: s.starts[i] <= s.starts[j])
    && (forall i: nat | i < |s.starts| :: s.starts[i] <= s.now)
    && (forall r | r in s.active :: r < |s.starts|)
  }

  lemma {:induction false} OrderAlways(cfg: Config, run: seq<Event>)
    ensures StartsInOrder(Exec(cfg, run))
  {
    if run != [] {
      OrderAlways(cfg, run[..|run| - 1]);
    }
  }

  // When exactly the job is started a second time while a run is at work within its lease: when the
  // interval since the last start is over and some run has completed since that start. That run was
  // not the one the lease belonged to, or it would not be at work.
  lemma {:induction false} SecondStartIff(cfg: Config, run: seq<Event>, at: Time, r: nat)
    requires at >= Exec(cfg, run).now && r in Exec(cfg, run).active
    ensures var s := Exec(cfg, run);
            && r < |s.starts|
            && (InLease(s, cfg, r, at) ==>
                  (|Next(s, cfg, Ask(at)).starts| > |s.starts|
                   <==> at >= s.starts[|s.starts| - 1] + cfg.interval && FinishedSince(cfg, run)))
  {
    OrderAlways(cfg, run);
    ClaimedIff(cfg, run, at);
  }

  // If the runs that complete do so within their leases, whatever crashes, then no run starts while
  // another is within its lease: of two runs at work at once, the earlier has outlived its lease.
  lemma {:induction false} RunsDoNotOverlap(cfg: Config, run: seq<Event>, at: Time, r: nat)
    requires Timely(cfg, run) && at >= Exec(cfg, run).now && r in Exec(cfg, run).active
    ensures var s := Exec(cfg, run);
            && r < |s.starts|
            && (|Next(s, cfg, Ask(at)).starts| > |s.starts| ==> !InLease(s, cfg, r, at))
  {
    SecondStartIff(cfg, run, at, r);
    if InLease(Exec(cfg, run), cfg, r, at) {
      LeaseAlways(cfg, run);
      LeaseIsLatest(cfg, run);
    }
  }

  // The job is started while a run is at work within its lease.
  ghost predicate Overlaps(cfg: Config, run: seq<Event>, at: Time, r: nat) {
    var s := Exec(cfg, run);
    && at >= s.now && r in s.active && r < |s.starts| && InLease(s, cfg, r, at)
    && |Next(s, cfg, Ask(at)).starts| > |s.starts|
  }

  lemma Append(cfg: Config, run: seq<Event>, e: Event)
    ensures Exec(cfg, run + [e]) == Next(Exec(cfg, run), cfg, e)
  {
    assert (run + [e])[..|run|] == run;
  }

  // The job's first start, at time t.
  lemma FirstStart(cfg: Config) returns (run: seq<Event>, t: Time)
    ensures var s := Exec(cfg, run);
            && s.now == t && s.starts == [t] && s.active == {0}
            && s.job.Some? && s.job.value.lastStarted == Some(t) && s.job.value.leasedUntil == Some(t + cfg.lease)
  {
    Append(cfg, [], Ask(0));
    assert [] + [Ask(0)] == [Ask(0)];
    run, t := [Ask(0)], 0;
    if !cfg.immediate && cfg.interval > 0 {
      Append(cfg, run, Ask(cfg.interval));
      run, t := run + [Ask(cfg.interval)], cfg.interval;
    }
  }

  // A run that completes after its lease takes the lease of its successor away: with no token to
  // tell them apart, a third run starts while the second is at work within its lease, if the lease is
  // at least as long as the interval.
  lemma LateFinishOpensTheDoor(cfg: Config) returns (run: seq<Event>, at: Time)
    requires cfg.lease >= 0 && cfg.interval <= cfg.lease
    ensures Overlaps(cfg, run, at, 1)
  {
    var first, t := FirstStart(cfg);
    var t1 := t + cfg.lease + 1;
    Append(cfg, first, Ask(t1));
    var second := first + [Ask(t1)];
    assert Exec(cfg, second).starts == [t, t1] && Exec(cfg, second).active == {0, 1};
    Append(cfg, second, Finish(0, None, t1));
    run := second + [Finish(0, None, t1)];
    at := t1 + Max(0, cfg.interval);
  }

  // Which jobs the leases keep from overlapping, whatever their runs do: exactly those whose lease is
  // shorter than their interval. Such a job is never started while a run is at work within its lease;
  // any other job can be.
  lemma {:induction false} NeverOverlapsIff(cfg: Config)
    ensures (forall run, at, r :: !Overlaps(cfg, run, at, r)) <==> cfg.lease < 0 || cfg.lease < cfg.interval
  {
    if cfg.lease >= 0 && cfg.interval <= cfg.lease {
      var run, at := LateFinishOpensTheDoor(cfg);
    } else {
      forall run, at, r
        ensures !Overlaps(cfg, run, at, r)
      {
        if at >= Exec(cfg, run).now && r in Exec(cfg, run).active {
          SecondStartIff(cfg, run, at, r);
          OrderAlways(cfg, run);
        }
      }
    }
  }
}
