// The lease check is no fence: what comes after it is in order for as long as the lease lasts, and
// not a second longer.
module WriteFence {
  import opened Types
  import opened Frontier
  import opened EnqueueOrder
  import opened Extraction
  import opened Workers
  import opened Fencing
  import opened DrainSoundness
  import opened WriteOrder
  import LateErrors

  // An event in which the worker has no part.
  ghost predicate Foreign(e: Event, w: WorkerId) {
    e.Seed? || e.Tick? || e.Spawn? || e.ReleaseStaleLeases? || e.worker != w
  }

  ghost predicate AllForeign(events: seq<Event>, w: WorkerId) {
    forall i: nat | i < |events| :: Foreign(events[i], w)
  }

  // The time that passes.
  function Elapsed(events: seq<Event>): nat {
    if events == [] then 0
    else Elapsed(events[..|events| - 1]) + Passes(events[|events| - 1])
  }

  // The last persist is for a later attempt than every earlier one of its row.
  ghost predicate LastRises(tasks: seq<Task>) {
    tasks != []
    && forall i: nat | i < |tasks| - 1 && tasks[i].id == tasks[|tasks| - 1].id :: tasks[i].attempt < tasks[|tasks| - 1].attempt
  }

  // ---------------------------------------------------------------- while the lease lasts

  // The worker stands where it stood, and holds the row of its first task until `until`.
  ghost predicate HeldUntil(s: Sys, w: WorkerId, worker: Worker, until: Time) {
    && w in s.workers && s.workers[w] == worker && worker.queue != []
    && Owns(s.db, worker.queue[0], w) && s.db.rows[worker.queue[0].id].leasedUntil == Some(until)
  }

  lemma ForeignLeavesWorker(cfg: Config, s: Sys, e: Event, w: WorkerId)
    requires QueueInv(s) && w in s.workers && Foreign(e, w)
    ensures w in Next(cfg, s, e).workers && Next(cfg, s, e).workers[w] == s.workers[w]
  {
    if !e.Seed? && !e.Tick? && !e.Spawn? && !e.Poll? && !e.ReleaseTasks? && !e.Leave? && !e.Crash? && !e.ReleaseStaleLeases? {
      EventMovesOn(cfg, s, e);
    }
  }

  lemma ForeignKeepsHold(cfg: Config, s: Sys, e: Event, w: WorkerId, worker: Worker, until: Time)
    requires FenceInv(s) && QueueInv(s) && HeldUntil(s, w, worker, until) && s.now <= until && Foreign(e, w) && !e.Tick?
    ensures HeldUntil(Next(cfg, s, e), w, worker, until) && Next(cfg, s, e).now == s.now
  {
    ForeignLeavesWorker(cfg, s, e, w);
    ClockStays(cfg, s, e);
    if e.Seed? {
      EnqueueKeepsLeases(s.db, e.items);
    } else if e.EnqueueDiscovered? {
      if Busy(s, e.worker) && s.workers[e.worker].phase.Persisted? {
        EnqueueKeepsLeases(s.db, s.workers[e.worker].phase.batch.discovered);
      }
    } else {
      OthersLeaveHeldRow(cfg, s, e, w);
    }
  }

  function Passes(e: Event): nat {
    if e.Tick? then e.seconds else 0
  }

  lemma HoldStep(cfg: Config, s: Sys, e: Event, w: WorkerId, worker: Worker, until: Time)
    requires FenceInv(s) && QueueInv(s) && HeldUntil(s, w, worker, until) && s.now + Passes(e) <= until && Foreign(e, w)
    ensures HeldUntil(Next(cfg, s, e), w, worker, until) && Next(cfg, s, e).now == s.now + Passes(e)
  {
    if !e.Tick? {
      ForeignKeepsHold(cfg, s, e, w, worker, until);
    }
  }

  lemma Append(cfg: Config, run: seq<Event>, e: Event)
    ensures Exec(cfg, run + [e]) == Next(cfg, Exec(cfg, run), e)
  {
    assert (run + [e])[..|run|] == run;
  }

  ghost predicate HeldAfter(cfg: Config, run: seq<Event>, w: WorkerId, worker: Worker, until: Time, now: Time) {
    HeldUntil(Exec(cfg, run), w, worker, until) && Exec(cfg, run).now == now
  }

  lemma HoldOnceMore(cfg: Config, run: seq<Event>, e: Event, w: WorkerId, worker: Worker, until: Time, now: Time)
    requires HeldAfter(cfg, run, w, worker, until, now) && Foreign(e, w) && now + Passes(e) <= until
    ensures HeldAfter(cfg, run + [e], w, worker, until, now + Passes(e))
  {
    Append(cfg, run, e);
    InvAlways(cfg, run);
    HoldStep(cfg, Exec(cfg, run), e, w, worker, until);
  }

  lemma {:induction false} HoldLasts(cfg: Config, run: seq<Event>, others: seq<Event>, w: WorkerId, worker: Worker,
                                     until: Time, now: Time)
    requires HeldAfter(cfg, run, w, worker, until, now) && AllForeign(others, w) && now + Elapsed(others) <= until
    ensures HeldAfter(cfg, run + others, w, worker, until, now + Elapsed(others))
  {
    if others == [] {
      assert run + others == run;
    } else {
      var front, e := others[..|others| - 1], others[|others| - 1];
      assert AllForeign(front, w) && Foreign(e, w);
      HoldLasts(cfg, run, front, w, worker, until, now);
      HoldOnceMore(cfg, run + front, e, w, worker, until, now + Elapsed(front));
      assert run + others == (run + front) + [e];
    }
  }

  lemma HeldWriteIsLast(cfg: Config, s: Sys, w: WorkerId)
    requires FenceInv(s) && PersistsKnown(s) && Busy(s, w) && s.workers[w].phase.Checked? && Holds(s, w)
    ensures LastRises(Next(cfg, s, PersistBatch(w)).persists)
  {
    forall i: nat | i < |s.persists| && s.persists[i].id == Head(s, w).id
      ensures s.persists[i].attempt < Head(s, w).attempt
    {
      PersistComesLast(s, w, i);
    }
  }

  lemma HeldWriteRises(cfg: Config, run: seq<Event>, w: WorkerId, worker: Worker, until: Time)
    requires HeldUntil(Exec(cfg, run), w, worker, until) && Exec(cfg, run).now <= until && worker.phase.Checked?
    ensures LastRises(Exec(cfg, run + [PersistBatch(w)]).persists)
  {
    InvAlways(cfg, run);
    KnownAlways(cfg, run);
    Append(cfg, run, PersistBatch(w));
    HeldWriteIsLast(cfg, Exec(cfg, run), w);
  }

  // ---------------------------------------------------------------- when it is over

  // A row that is leased, or was and has not been given back, has come up.
  ghost predicate OwnedHasComeUp(db: Db, now: Time) {
    forall id | id in db.rows && db.rows[id].leaseOwner.Some? :: db.rows[id].availableAt <= now
  }

  lemma {:induction false} FoldKeepsComeUp(db: Db, items: seq<Item>, now: Time)
    requires OwnedHasComeUp(db, now)
    ensures OwnedHasComeUp(Fold(db, items), now)
  {
    if items != [] {
      FoldKeepsComeUp(db, items[..|items| - 1], now);
    }
  }

  lemma ComeUpStep(cfg: Config, s: Sys, e: Event)
    requires OwnedHasComeUp(s.db, s.now) && !e.Seed? && !e.EnqueueDiscovered?
    ensures OwnedHasComeUp(Next(cfg, s, e).db, Next(cfg, s, e).now)
  {
  }

  lemma {:induction false} ComeUpAlways(cfg: Config, run: seq<Event>)
    ensures OwnedHasComeUp(Exec(cfg, run).db, Exec(cfg, run).now)
  {
    if run != [] {
      var front, e := run[..|run| - 1], run[|run| - 1];
      var s := Exec(cfg, front);
      ComeUpAlways(cfg, front);
      if e.Seed? {
        FoldKeepsComeUp(s.db, Sorted(e.items), s.now);
      } else if e.EnqueueDiscovered? {
        if Busy(s, e.worker) && s.workers[e.worker].phase.Persisted? {
          FoldKeepsComeUp(s.db, Sorted(s.workers[e.worker].phase.batch.discovered), s.now);
        }
      } else {
        ComeUpStep(cfg, s, e);
      }
    }
  }

  lemma {:induction false} AnyOrder(ids: set<nat>) returns (order: seq<nat>)
    ensures Lists(order, ids)
    decreases |ids|
  {
    if ids == {} {
      order := [];
    } else {
      var id :| id in ids;
      var rest := AnyOrder(ids - {id});
      order := [id] + rest;
      forall other | other in ids
        ensures other in order
      {
        assert other == id || other in rest;
      }
    }
  }

  lemma OrderFrom(ids: set<nat>, first: nat) returns (order: seq<nat>)
    requires first in ids
    ensures order != [] && order[0] == first && Lists(order, ids)
  {
    var rest := AnyOrder(ids - {first});
    order := [first] + rest;
    forall other | other in ids
      ensures other in order
    {
      assert other == first || other in rest;
    }
  }

  // A claim without a limit to speak of takes every eligible row.
  lemma EveryoneChosen(db: Db, query: Query, now: Time, id: nat)
    requires id in EligibleIds(db, query, now) && query.limit >= |db.rows|
    ensures id in Chosen(db, query, now)
  {
    var ids := EligibleIds(db, query, now);
    assert Ahead(db, ids, id) <= db.rows.Keys - {id};
    SubsetSize(Ahead(db, ids, id), db.rows.Keys - {id});
    assert |db.rows| == |db.rows.Keys|;
  }

  // Another worker, `v`, stands with this first task, or idle; the first worker still stands where it
  // stood, and nothing has been persisted since.
  ghost predicate Rivals(s: Sys, w: WorkerId, worker: Worker, v: WorkerId, phase: Phase, task: Option<Task>,
                         persists: seq<Task>) {
    && w in s.workers && s.workers[w] == worker && s.persists == persists
    && v in s.workers && v != w && s.workers[v].source == worker.source && s.workers[v].phase == phase
    && (task.None? ==> s.workers[v].queue == [])
    && (task.Some? ==> Busy(s, v) && Head(s, v) == task.value && Owns(s.db, task.value, v))
  }

  ghost predicate RowIs(s: Sys, id: nat, row: Row, now: Time) {
    id in s.db.rows && s.db.rows[id] == row && s.now == now
  }

  lemma Rises(cfg: Config, s: Sys, w: WorkerId, worker: Worker, id: nat, row: Row)
    requires w in s.workers && s.workers[w] == worker && w < s.nextWorker && RowIs(s, id, row, s.now)
    ensures var after := Next(cfg, s, Spawn(worker.source));
            Rivals(after, w, worker, s.nextWorker, Working, None, s.persists) && RowIs(after, id, row, s.now)
  {
  }

  lemma Waits(cfg: Config, s: Sys, w: WorkerId, worker: Worker, v: WorkerId, id: nat, row: Row, d: nat)
    requires Rivals(s, w, worker, v, Working, None, s.persists) && RowIs(s, id, row, s.now)
    ensures var after := Next(cfg, s, Tick(d));
            Rivals(after, w, worker, v, Working, None, s.persists) && RowIs(after, id, row, s.now + d)
  {
  }

  // A worker that polls for the row gets it, for a new attempt.
  lemma PollTakes(cfg: Config, s: Sys, w: WorkerId, worker: Worker, v: WorkerId, id: nat, row: Row) returns (e: Event)
    requires Rivals(s, w, worker, v, Working, None, s.persists) && RowIs(s, id, row, s.now)
    requires row.key.source == worker.source && row.availableAt <= s.now && Unleased(row, s.now)
    ensures e.Poll? && e.worker == v
    ensures Rivals(Next(cfg, s, e), w, worker, v, Working, Some(Task(id, row.key, row.attempt + 1)), s.persists)
  {
    var query := Query(Some(worker.source), |s.db.rows|, false);
    assert id in EligibleIds(s.db, query, s.now);
    EveryoneChosen(s.db, query, s.now, id);
    var order := OrderFrom(Chosen(s.db, query, s.now), id);
    e := Poll(v, |s.db.rows|, false, order);
  }

  // ... and having extracted the entity as well, writes it.
  lemma CheckPasses(cfg: Config, s: Sys, w: WorkerId, worker: Worker, v: WorkerId, task: Task, batch: Batch)
    requires Rivals(s, w, worker, v, Working, Some(task), s.persists) && WellFormed(batch, task.key)
    ensures Rivals(Next(cfg, s, CheckLease(v, batch)), w, worker, v, Checked(batch), Some(task), s.persists)
  {
    AcceptedIffWellFormed(batch, task.key);
  }

  lemma BothPersist(cfg: Config, s: Sys, w: WorkerId, worker: Worker, v: WorkerId, batch: Batch, task: Task)
    requires Rivals(s, w, worker, v, Checked(batch), Some(task), s.persists) && worker.phase.Checked? && worker.queue != []
    ensures Next(cfg, Next(cfg, s, PersistBatch(v)), PersistBatch(w)).persists == s.persists + [task, worker.queue[0]]
  {
  }

  lemma LastFalls(persists: seq<Task>, newer: Task, older: Task)
    requires newer.id == older.id && newer.attempt > older.attempt
    ensures !LastRises(persists + [newer, older])
  {
    var all := persists + [newer, older];
    assert all[|persists|] == newer && all[|all| - 1] == older;
  }

  // When the lease is over, another worker can take the row, extract and persist it before the first
  // one persists.
  lemma Overtake(cfg: Config, run: seq<Event>, w: WorkerId, worker: Worker, until: Time,
                 d: nat) returns (others: seq<Event>)
    requires HeldUntil(Exec(cfg, run), w, worker, until) && worker.phase.Checked? && until < Exec(cfg, run).now + d
    ensures AllForeign(others, w) && Elapsed(others) == d
    ensures Exec(cfg, run + others + [PersistBatch(w)]).persists != []
    ensures !LastRises(Exec(cfg, run + others + [PersistBatch(w)]).persists)
  {
    HolderFacts(cfg, run, w, worker);
    var task, batch := worker.queue[0], worker.phase.batch;
    var v, row := Exec(cfg, run).nextWorker, Exec(cfg, run).db.rows[task.id];
    var newer := Task(task.id, row.key, row.attempt + 1);
    var waited := RivalWaits(cfg, run, w, worker, v, task.id, row, d);
    var poll := RivalTakes(cfg, waited, w, worker, v, task.id, row, batch);
    OvertakeEnds(cfg, waited + [poll] + [CheckLease(v, batch)], w, worker, v, batch, newer);
    others := [Spawn(worker.source), Tick(d), poll, CheckLease(v, batch), PersistBatch(v)];
    ElapsedOnce(Spawn(worker.source), d, poll, CheckLease(v, batch), PersistBatch(v));
    Appended(run, Spawn(worker.source), Tick(d), poll, CheckLease(v, batch), PersistBatch(v));
  }

  lemma Appended(run: seq<Event>, a: Event, b: Event, c: Event, d: Event, e: Event)
    ensures run + [a, b, c, d, e] == run + [a] + [b] + [c] + [d] + [e]
  {
  }

  // Another worker loop starts, and time passes.
  lemma RivalWaits(cfg: Config, run: seq<Event>, w: WorkerId, worker: Worker, v: WorkerId, id: nat, row: Row, d: nat)
      returns (waited: seq<Event>)
    requires w in Exec(cfg, run).workers && Exec(cfg, run).workers[w] == worker && w < Exec(cfg, run).nextWorker == v
    requires RowIs(Exec(cfg, run), id, row, Exec(cfg, run).now)
    ensures waited == run + [Spawn(worker.source)] + [Tick(d)]
    ensures Rivals(Exec(cfg, waited), w, worker, v, Working, None, Exec(cfg, waited).persists)
    ensures RowIs(Exec(cfg, waited), id, row, Exec(cfg, run).now + d)
  {
    var risen := run + [Spawn(worker.source)];
    Rises(cfg, Exec(cfg, run), w, worker, id, row);
    Append(cfg, run, Spawn(worker.source));
    Waits(cfg, Exec(cfg, risen), w, worker, v, id, row, d);
    Append(cfg, risen, Tick(d));
    waited := risen + [Tick(d)];
  }

  // It takes the row and passes its own lease check.
  lemma RivalTakes(cfg: Config, run: seq<Event>, w: WorkerId, worker: Worker, v: WorkerId, id: nat, row: Row,
                   batch: Batch)
      returns (poll: Event)
    requires Rivals(Exec(cfg, run), w, worker, v, Working, None, Exec(cfg, run).persists)
    requires RowIs(Exec(cfg, run), id, row, Exec(cfg, run).now) && WellFormed(batch, row.key)
    requires row.key.source == worker.source && row.availableAt <= Exec(cfg, run).now && Unleased(row, Exec(cfg, run).now)
    ensures poll.Poll? && poll.worker == v
    ensures var checked := Exec(cfg, run + [poll] + [CheckLease(v, batch)]);
            Rivals(checked, w, worker, v, Checked(batch), Some(Task(id, row.key, row.attempt + 1)), checked.persists)
  {
    poll := PollTakes(cfg, Exec(cfg, run), w, worker, v, id, row);
    Append(cfg, run, poll);
    CheckPasses(cfg, Exec(cfg, run + [poll]), w, worker, v, Task(id, row.key, row.attempt + 1), batch);
    Append(cfg, run + [poll], CheckLease(v, batch));
  }

  lemma OvertakeEnds(cfg: Config, run: seq<Event>, w: WorkerId, worker: Worker, v: WorkerId, batch: Batch, newer: Task)
    requires Rivals(Exec(cfg, run), w, worker, v, Checked(batch), Some(newer), Exec(cfg, run).persists)
    requires worker.phase.Checked? && worker.queue != [] && newer.id == worker.queue[0].id && newer.attempt > worker.queue[0].attempt
    ensures Exec(cfg, run + [PersistBatch(v)] + [PersistBatch(w)]).persists != []
    ensures !LastRises(Exec(cfg, run + [PersistBatch(v)] + [PersistBatch(w)]).persists)
  {
    BothPersist(cfg, Exec(cfg, run), w, worker, v, batch, newer);
    Append(cfg, run, PersistBatch(v));
    Append(cfg, run + [PersistBatch(v)], PersistBatch(w));
    LastFalls(Exec(cfg, run).persists, newer, worker.queue[0]);
  }

  // What the holder of a row knows of it and of its batch.
  lemma HolderFacts(cfg: Config, run: seq<Event>, w: WorkerId, worker: Worker)
    requires Busy(Exec(cfg, run), w) && Exec(cfg, run).workers[w] == worker && worker.phase.Checked?
    requires Owns(Exec(cfg, run).db, worker.queue[0], w)
    ensures var s := Exec(cfg, run); var task := worker.queue[0];
            && w < s.nextWorker && s.db.rows[task.id].availableAt <= s.now && s.db.rows[task.id].attempt == task.attempt
            && s.db.rows[task.id].key == task.key && task.key.source == worker.source && WellFormed(worker.phase.batch, task.key)
  {
    InvAlways(cfg, run);
    ComeUpAlways(cfg, run);
    var s := Exec(cfg, run);
    assert InQueue(s, w, 0) && GrantFits(s.db, worker.queue[0]);
  }

  lemma ElapsedAppend(events: seq<Event>, e: Event)
    ensures Elapsed(events + [e]) == Elapsed(events) + Passes(e)
  {
    assert (events + [e])[..|events|] == events;
  }

  lemma ElapsedOnce(a: Event, d: nat, b: Event, c: Event, e: Event)
    requires !a.Tick? && !b.Tick? && !c.Tick? && !e.Tick?
    ensures Elapsed([a, Tick(d), b, c, e]) == d
  {
    ElapsedAppend([], a);
    ElapsedAppend([a], Tick(d));
    ElapsedAppend([a, Tick(d)], b);
    ElapsedAppend([a, Tick(d), b], c);
    ElapsedAppend([a, Tick(d), b, c], e);
    assert [] + [a] == [a] && [a] + [Tick(d)] == [a, Tick(d)] && [a, Tick(d)] + [b] == [a, Tick(d), b];
    assert [a, Tick(d), b] + [c] == [a, Tick(d), b, c] && [a, Tick(d), b, c] + [e] == [a, Tick(d), b, c, e];
  }

  // ---------------------------------------------------------------- exactly when

  // A worker has passed its lease check and holds its row until `until`, in any state a run leads to.
  // Whatever everybody else does in the next d seconds, its persist is in order: that is so exactly
  // for the d seconds the lease has left.
  lemma {:induction false} WritesInOrderIff(cfg: Config, run: seq<Event>, w: WorkerId, d: nat)
    requires Busy(Exec(cfg, run), w) && Exec(cfg, run).workers[w].phase.Checked? && Holds(Exec(cfg, run), w)
    ensures var s := Exec(cfg, run);
            (forall others | AllForeign(others, w) && Elapsed(others) <= d ::
               LastRises(Exec(cfg, run + others + [PersistBatch(w)]).persists))
            <==> d <= s.db.rows[Head(s, w).id].leasedUntil.value - s.now
  {
    var s := Exec(cfg, run);
    var worker, until := s.workers[w], s.db.rows[Head(s, w).id].leasedUntil.value;
    assert HeldUntil(s, w, worker, until);
    if s.now + d <= until {
      forall others | AllForeign(others, w) && Elapsed(others) <= d
        ensures LastRises(Exec(cfg, run + others + [PersistBatch(w)]).persists)
      {
        HoldLasts(cfg, run, others, w, worker, until, s.now);
        HeldWriteRises(cfg, run + others, w, worker, until);
      }
    } else {
      var others := Overtake(cfg, run, w, worker, until, d);
      assert AllForeign(others, w) && Elapsed(others) <= d;
    }
  }

  // So any run that leads a worker past its lease check can go on to persist a later attempt of the
  // row before an earlier one, as soon as one second after the lease.
  lemma {:induction false} LateWriteComesSecond(cfg: Config, run: seq<Event>, w: WorkerId) returns (others: seq<Event>)
    requires Busy(Exec(cfg, run), w) && Exec(cfg, run).workers[w].phase.Checked? && Holds(Exec(cfg, run), w)
    ensures var s := Exec(cfg, run);
            AllForeign(others, w) && Elapsed(others) == s.db.rows[Head(s, w).id].leasedUntil.value - s.now + 1
    ensures !AttemptsRise(Exec(cfg, run + others + [PersistBatch(w)]).persists)
    ensures !Timely(cfg, run + others + [PersistBatch(w)])
  {
    var s := Exec(cfg, run);
    var worker, until := s.workers[w], s.db.rows[Head(s, w).id].leasedUntil.value;
    others := Overtake(cfg, run, w, worker, until, until - s.now + 1);
    var whole := run + others + [PersistBatch(w)];
    FallsSomewhere(Exec(cfg, whole).persists);
    if Timely(cfg, whole) {
      PersistsInAttemptOrder(cfg, whole);
    }
  }

  lemma FallsSomewhere(tasks: seq<Task>)
    requires tasks != [] && !LastRises(tasks)
    ensures !AttemptsRise(tasks)
  {
  }

  // There are such runs.
  lemma OrderCanBreak() returns (run: seq<Event>)
    ensures !AttemptsRise(Exec(LateErrors.CFG, run).persists)
  {
    run := LateErrors.Begins();
    var row := NewRow(LateErrors.SEED);
    run := LateErrors.Claims(run, map[0 := row], 1, 0, 0, 0);
    run := LateErrors.Checks(run, map[0 := row][0 := LateErrors.Leased(row, 0)], 1, 0, 1, Task(0, LateErrors.PARENT, 1));
    var others := LateWriteComesSecond(LateErrors.CFG, run, 0);
    run := run + others + [PersistBatch(0)];
  }
}
