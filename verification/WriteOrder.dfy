// Write order under leases. The lease check before persist protects the writes only if they are
// finished before that lease runs out; this is what holds when they are.
module WriteOrder {
  import opened Types
  import opened Frontier
  import opened EnqueueOrder
  import opened Extraction
  import opened Workers
  import opened Fencing
  import opened DrainSoundness

  // Between the lease check and the end of enqueue.
  ghost predicate Writing(s: Sys, w: WorkerId) {
    Busy(s, w) && (s.workers[w].phase.Checked? || s.workers[w].phase.Persisted?)
  }

  // The clock does not pass the leased_until of a row whose owner is writing.
  ghost predicate TimelyStep(s: Sys, e: Event) {
    e.Tick? ==>
      forall w | Writing(s, w) && Owns(s.db, Head(s, w), w) ::
        var until := s.db.rows[Head(s, w).id].leasedUntil;
        until.Some? ==> s.now + e.seconds <= until.value
  }

  ghost predicate Timely(cfg: Config, run: seq<Event>) {
    run == []
    || (Timely(cfg, run[..|run| - 1]) && TimelyStep(Exec(cfg, run[..|run| - 1]), run[|run| - 1]))
  }

  // The row is leased to the worker, for the attempt it works on, until `now` at least.
  ghost predicate Holds(s: Sys, w: WorkerId)
    requires Busy(s, w)
  {
    && Owns(s.db, Head(s, w), w)
    && s.db.rows[Head(s, w).id].leasedUntil.Some?
    && s.db.rows[Head(s, w).id].leasedUntil.value >= s.now
  }

  ghost predicate LeaseInv(s: Sys) {
    forall w | Writing(s, w) :: Holds(s, w)
  }

  // No transaction of another worker's task touches a row that its owner holds.
  lemma OthersMissHeldRow(cfg: Config, s: Sys, v: WorkerId, w: WorkerId)
    requires FenceInv(s) && QueueInv(s) && Busy(s, w) && Holds(s, w) && Busy(s, v) && v != w
    ensures !(Current(s.db, Head(s, v)) && Head(s, v).id == Head(s, w).id)
  {
    assert InQueue(s, w, 0) && InQueue(s, v, 0);
    assert !SameToken(Head(s, v), Head(s, w));
  }

  ghost predicate RowStays(before: Db, after: Db, id: nat)
    requires id in before.rows
  {
    id in after.rows && after.rows[id] == before.rows[id]
  }

  lemma SweepsMissHeldRow(cfg: Config, s: Sys, e: Event, w: WorkerId)
    requires Busy(s, w) && Holds(s, w)
    requires e.Spawn? || e.ReleaseStaleLeases? || ((e.Poll? || e.ReleaseTasks? || e.Leave? || e.Crash? || e.PersistBatch?) && e.worker != w)
    ensures RowStays(s.db, Next(cfg, s, e).db, Head(s, w).id)
  {
  }

  // Transactions with a task's token leave the rows alone that the token is not current for.
  lemma TokensMissRow(db: Db, task: Task, id: nat, owner: WorkerId, lease: nat, delay: int, outcome: Outcome, now: Time)
    requires id in db.rows && !(Current(db, task) && task.id == id)
    ensures RowStays(db, ExtendLease(db, task, owner, lease, now), id)
    ensures RowStays(db, Close(db, task, outcome), id)
    ensures RowStays(db, Retry(db, task, delay, now), id)
  {
  }

  // The event is one transaction with the first task of its worker, or none.
  lemma TaskEventIs(cfg: Config, s: Sys, e: Event)
    requires e.CheckLease? || e.Heartbeat? || e.CompleteTask? || e.GenericError? || e.RetriableError?
    ensures var after := Next(cfg, s, e).db;
            || after == s.db
            || (Busy(s, e.worker) && (|| after == ExtendLease(s.db, Head(s, e.worker), e.worker, cfg.lease, s.now)
                                      || (exists h :: after == Close(s.db, Head(s, e.worker), Success(h)))
                                      || after == Close(s.db, Head(s, e.worker), Failed)
                                      || exists delay :: after == Retry(s.db, Head(s, e.worker), delay, s.now)))
  {
  }

  lemma TasksMissHeldRow(cfg: Config, s: Sys, e: Event, w: WorkerId)
    requires FenceInv(s) && QueueInv(s) && Busy(s, w) && Holds(s, w)
    requires e.CheckLease? || e.Heartbeat? || e.CompleteTask? || e.GenericError? || e.RetriableError?
    requires e.worker != w
    ensures RowStays(s.db, Next(cfg, s, e).db, Head(s, w).id)
  {
    var after := Next(cfg, s, e).db;
    TaskEventIs(cfg, s, e);
    if after != s.db {
      var task, id := Head(s, e.worker), Head(s, w).id;
      OthersMissHeldRow(cfg, s, e.worker, w);
      if h :| after == Close(s.db, task, Success(h)) {
        TokensMissRow(s.db, task, id, e.worker, cfg.lease, 0, Success(h), s.now);
      }
      TokensMissRow(s.db, task, id, e.worker, cfg.lease, 0, Failed, s.now);
      if delay :| after == Retry(s.db, task, delay, s.now) {
        TokensMissRow(s.db, task, id, e.worker, cfg.lease, delay, Failed, s.now);
      }
    }
  }

  lemma OthersLeaveHeldRow(cfg: Config, s: Sys, e: Event, w: WorkerId)
    requires FenceInv(s) && QueueInv(s) && Busy(s, w) && Holds(s, w)
    requires !e.Tick? && !e.Seed? && !e.EnqueueDiscovered? && (Actor(e) != w || e.ReleaseStaleLeases? || e.Spawn?)
    ensures RowStays(s.db, Next(cfg, s, e).db, Head(s, w).id)
  {
    if e.CheckLease? || e.Heartbeat? || e.CompleteTask? || e.GenericError? || e.RetriableError? {
      TasksMissHeldRow(cfg, s, e, w);
    } else {
      SweepsMissHeldRow(cfg, s, e, w);
    }
  }

  // The worker's own steps keep its hold, as long as it is writing.
  lemma OwnStepsKeepHold(cfg: Config, s: Sys, e: Event, w: WorkerId)
    requires LeaseInv(s) && !e.Tick? && !e.Seed? && !e.EnqueueDiscovered? && !e.Spawn? && !e.ReleaseStaleLeases?
    requires e.worker == w && Writing(Next(cfg, s, e), w)
    ensures Holds(Next(cfg, s, e), w)
  {
    match e
    case Heartbeat(_) => assert Writing(s, w) && Holds(s, w);
    case PersistBatch(_) => assert Writing(s, w) && Holds(s, w);
    case Poll(_, _, _, _) => assert Writing(s, w) && Holds(s, w);
    case CheckLease(_, _) => if Writing(s, w) { assert Holds(s, w); }
    case CompleteTask(_) => assert Writing(s, w) && Holds(s, w);
    case _ =>
  }

  // A writer that this step does not concern was writing before, on the same task.
  lemma WriterStays(cfg: Config, s: Sys, e: Event, w: WorkerId)
    requires Writing(Next(cfg, s, e), w) && QueueInv(s)
    requires e.Tick? || e.Seed? || e.EnqueueDiscovered? || e.Spawn? || e.ReleaseStaleLeases? || e.worker != w
    ensures Writing(s, w) && Head(Next(cfg, s, e), w) == Head(s, w)
  {
    if e.EnqueueDiscovered? {
      PhaseMovesOn(cfg, s, e);
    } else if !e.Poll? && !e.Spawn? && !e.Tick? && !e.Seed? && !e.ReleaseStaleLeases? {
      assert PhasesChecked(s);
      StepMovesOne(cfg, s, e);
    }
  }

  lemma EnqueueHolds(cfg: Config, s: Sys, e: Event, w: WorkerId)
    requires FenceInv(s) && QueueInv(s) && LeaseInv(s) && (e.Seed? || e.EnqueueDiscovered?) && Writing(Next(cfg, s, e), w)
    ensures Holds(Next(cfg, s, e), w)
  {
    WriterStays(cfg, s, e, w);
    assert Holds(s, w);
    if e.Seed? {
      EnqueueKeepsLeases(s.db, e.items);
    } else if Busy(s, e.worker) && s.workers[e.worker].phase.Persisted? {
      EnqueueKeepsLeases(s.db, s.workers[e.worker].phase.batch.discovered);
    }
  }

  lemma OthersHold(cfg: Config, s: Sys, e: Event, w: WorkerId)
    requires FenceInv(s) && QueueInv(s) && LeaseInv(s) && Writing(Next(cfg, s, e), w)
    requires !e.Tick? && !e.Seed? && !e.EnqueueDiscovered? && (e.Spawn? || e.ReleaseStaleLeases? || e.worker != w)
    ensures Holds(Next(cfg, s, e), w)
  {
    WriterStays(cfg, s, e, w);
    assert Holds(s, w);
    OthersLeaveHeldRow(cfg, s, e, w);
    ClockStays(cfg, s, e);
  }

  lemma ClockStays(cfg: Config, s: Sys, e: Event)
    requires !e.Tick?
    ensures Next(cfg, s, e).now == s.now
  {
  }

  lemma LeaseStep(cfg: Config, s: Sys, e: Event)
    requires FenceInv(s) && QueueInv(s) && LeaseInv(s) && TimelyStep(s, e)
    ensures LeaseInv(Next(cfg, s, e))
  {
    var after := Next(cfg, s, e);
    forall w | Writing(after, w)
      ensures Holds(after, w)
    {
      if e.Tick? {
        assert Writing(s, w);
      } else if e.Seed? || e.EnqueueDiscovered? {
        EnqueueHolds(cfg, s, e, w);
      } else if e.Spawn? || e.ReleaseStaleLeases? || e.worker != w {
        OthersHold(cfg, s, e, w);
      } else {
        OwnStepsKeepHold(cfg, s, e, w);
      }
    }
  }

  // What was persisted had been handed out, and a task that is not past its persist has not been
  // persisted. This holds in every run, timely or not.
  ghost predicate PersistsKnown(s: Sys) {
    && (forall i | 0 <= i < |s.persists| :: s.persists[i] in s.grants)
    && (forall w, i: nat, j | InQueue(s, w, i) && (i > 0 || s.workers[w].phase.Working? || s.workers[w].phase.Checked?)
          && 0 <= j < |s.persists| :: !SameToken(s.workers[w].queue[i], s.persists[j]))
  }

  ghost predicate AttemptsRise(tasks: seq<Task>) {
    forall i, j | 0 <= i < j < |tasks| && tasks[i].id == tasks[j].id :: tasks[i].attempt < tasks[j].attempt
  }

  // A writer that holds its row has a later token than every persist of the row.
  lemma PersistComesLast(s: Sys, w: WorkerId, i: nat)
    requires FenceInv(s) && PersistsKnown(s) && Busy(s, w) && Holds(s, w)
    requires s.workers[w].phase.Checked? && i < |s.persists| && s.persists[i].id == Head(s, w).id
    ensures s.persists[i].attempt < Head(s, w).attempt
  {
    assert InQueue(s, w, 0);
    assert GrantFits(s.db, s.persists[i]);
    assert !SameToken(s.workers[w].queue[0], s.persists[i]);
  }

  lemma AttemptsRiseBy(tasks: seq<Task>, task: Task)
    requires AttemptsRise(tasks)
    requires forall i: nat | i < |tasks| && tasks[i].id == task.id :: tasks[i].attempt < task.attempt
    ensures AttemptsRise(tasks + [task])
  {
  }

  lemma PersistKeepsOrder(cfg: Config, s: Sys, w: WorkerId)
    requires FenceInv(s) && LeaseInv(s) && PersistsKnown(s) && AttemptsRise(s.persists)
    ensures AttemptsRise(Next(cfg, s, PersistBatch(w)).persists)
  {
    if Busy(s, w) && s.workers[w].phase.Checked? {
      assert Writing(s, w);
      forall i: nat | i < |s.persists| && s.persists[i].id == Head(s, w).id
        ensures s.persists[i].attempt < Head(s, w).attempt
      {
        PersistComesLast(s, w, i);
      }
      AttemptsRiseBy(s.persists, Head(s, w));
    }
  }

  lemma PersistStaysKnown(cfg: Config, s: Sys, w: WorkerId)
    requires QueueInv(s) && PersistsKnown(s)
    ensures PersistsKnown(Next(cfg, s, PersistBatch(w)))
  {
    if Busy(s, w) && s.workers[w].phase.Checked? {
      var after := Next(cfg, s, PersistBatch(w));
      assert InQueue(s, w, 0);
      forall v, i: nat, j | InQueue(after, v, i) && (i > 0 || after.workers[v].phase.Working? || after.workers[v].phase.Checked?)
                            && 0 <= j < |after.persists|
        ensures !SameToken(after.workers[v].queue[i], after.persists[j])
      {
        assert InQueue(s, v, i);
      }
    }
  }

  lemma PersistsStay(cfg: Config, s: Sys, e: Event)
    requires !e.PersistBatch?
    ensures s.grants <= Next(cfg, s, e).grants && Next(cfg, s, e).persists == s.persists
  {
  }

  lemma KnownStep(cfg: Config, s: Sys, e: Event)
    requires FenceInv(s) && QueueInv(s) && PersistsKnown(s)
    ensures PersistsKnown(Next(cfg, s, e))
  {
    var after := Next(cfg, s, e);
    if e.PersistBatch? {
      PersistStaysKnown(cfg, s, e.worker);
    } else {
      PersistsStay(cfg, s, e);
      forall w, i: nat, j | InQueue(after, w, i) && (i > 0 || after.workers[w].phase.Working? || after.workers[w].phase.Checked?)
                            && 0 <= j < |after.persists|
        ensures !SameToken(after.workers[w].queue[i], after.persists[j])
      {
        QueuedTaskComesFrom(cfg, s, e, w, i);
        assert s.persists[j] in s.grants;
      }
    }
  }

  lemma {:induction false} KnownAlways(cfg: Config, run: seq<Event>)
    ensures PersistsKnown(Exec(cfg, run))
  {
    if run != [] {
      InvAlways(cfg, run[..|run| - 1]);
      KnownAlways(cfg, run[..|run| - 1]);
      KnownStep(cfg, Exec(cfg, run[..|run| - 1]), run[|run| - 1]);
    }
  }

  // A queued task was queued before, at its place or one behind it, or has just been handed out;
  // and one that keeps its place does not fall back from Persisted to an earlier phase.
  ghost predicate KnownTask(before: Sys, after: Sys, w: WorkerId, i: nat)
    requires InQueue(after, w, i)
  {
    var task := after.workers[w].queue[i];
    || (InQueue(before, w, i) && task == before.workers[w].queue[i]
        && ((before.workers[w].phase.Persisted? || before.workers[w].phase.Enqueued?) ==>
              (after.workers[w].phase.Persisted? || after.workers[w].phase.Enqueued?)))
    || (InQueue(before, w, i + 1) && task == before.workers[w].queue[i + 1])
    || (forall known | known in before.grants :: !SameToken(task, known))
  }

  lemma QueuedTaskComesFrom(cfg: Config, s: Sys, e: Event, w: WorkerId, i: nat)
    requires FenceInv(s) && QueueInv(s) && InQueue(Next(cfg, s, e), w, i)
    ensures KnownTask(s, Next(cfg, s, e), w, i)
  {
    if e.Poll? {
      if e.worker == w && w in s.workers && s.workers[w].queue == [] {
        var query := Query(Some(s.workers[w].source), e.limit, e.backfillOnly);
        if Lists(e.order, Chosen(s.db, query, s.now)) {
          TakenTasksAreNew(s, w, query, cfg.lease, e.order);
        }
      }
    } else if e.Spawn? || w != Actor(e) {
      if !e.Spawn? {
        StepMovesOne(cfg, s, e);
      }
    } else {
      StepMovesOne(cfg, s, e);
      if Next(cfg, s, e).workers[w].queue == s.workers[w].queue
         && (s.workers[w].phase.Persisted? || s.workers[w].phase.Enqueued?) {
        PhasesGoForward(cfg, s, e, w);
      }
    }
  }

  lemma PhasesGoForward(cfg: Config, s: Sys, e: Event, w: WorkerId)
    requires w in s.workers && w in Next(cfg, s, e).workers && s.workers[w].queue != []
    requires Next(cfg, s, e).workers[w].queue == s.workers[w].queue && !e.Poll? && !e.Spawn?
    requires s.workers[w].phase.Persisted? || s.workers[w].phase.Enqueued?
    ensures Next(cfg, s, e).workers[w].phase.Persisted? || Next(cfg, s, e).workers[w].phase.Enqueued?
  {
    if !e.Seed? && !e.Tick? && !e.ReleaseTasks? && !e.Leave? && !e.Crash? && !e.ReleaseStaleLeases? {
      EventMovesOn(cfg, s, e);
      assert |s.workers[w].queue[1..]| < |s.workers[w].queue|;
    }
  }

  lemma {:induction false} TimelyAlways(cfg: Config, run: seq<Event>)
    requires Timely(cfg, run)
    ensures Inv(Exec(cfg, run)) && LeaseInv(Exec(cfg, run)) && AttemptsRise(Exec(cfg, run).persists)
  {
    InvAlways(cfg, run);
    if run != [] {
      var front, e := run[..|run| - 1], run[|run| - 1];
      TimelyAlways(cfg, front);
      LeaseStep(cfg, Exec(cfg, front), e);
      KnownAlways(cfg, front);
      if e.PersistBatch? {
        PersistKeepsOrder(cfg, Exec(cfg, front), e.worker);
      } else {
        PersistsStay(cfg, Exec(cfg, front), e);
      }
    }
  }

  // In a timely run the persists of one row happen in strictly increasing attempt order; and while
  // a worker is between its lease check and the end of enqueue, the row is leased to it, nobody has
  // been handed a later attempt of the row, and nobody else works on the same attempt.
  lemma {:induction false} PersistsInAttemptOrder(cfg: Config, run: seq<Event>)
    requires Timely(cfg, run)
    ensures AttemptsRise(Exec(cfg, run).persists)
    ensures var s := Exec(cfg, run);
            forall w | Writing(s, w) ::
              && Holds(s, w)
              && (forall task | task in s.grants && task.id == Head(s, w).id :: task.attempt <= Head(s, w).attempt)
              && (forall v, i: nat | InQueue(s, v, i) && s.workers[v].queue[i].id == Head(s, w).id && v != w ::
                    s.workers[v].queue[i].attempt < Head(s, w).attempt)
  {
    TimelyAlways(cfg, run);
    var s := Exec(cfg, run);
    forall w | Writing(s, w)
      ensures Holds(s, w)
      ensures forall task | task in s.grants && task.id == Head(s, w).id :: task.attempt <= Head(s, w).attempt
      ensures forall v, i: nat | InQueue(s, v, i) && s.workers[v].queue[i].id == Head(s, w).id && v != w ::
                s.workers[v].queue[i].attempt < Head(s, w).attempt
    {
      assert InQueue(s, w, 0);
      forall task | task in s.grants && task.id == Head(s, w).id
        ensures task.attempt <= Head(s, w).attempt
      {
        assert GrantFits(s.db, task);
      }
      forall v, i: nat | InQueue(s, v, i) && s.workers[v].queue[i].id == Head(s, w).id && v != w
        ensures s.workers[v].queue[i].attempt < Head(s, w).attempt
      {
        assert !SameToken(s.workers[v].queue[i], s.workers[w].queue[0]);
      }
    }
  }

  // ---------------------------------------------------------------- the writers of one entity

  // The rows an entity has had before have smaller ids than the one it has.
  ghost predicate IdsRise(db: Db) {
    forall n, id | 0 <= n < |db.history| && id in db.rows && db.history[n].key == db.rows[id].key :: db.history[n].rowId < id
  }

  lemma SettlingKeepsIdsRising(before: Db, after: Db)
    requires Shape(before) && Shape(after) && Settles(before, after) && IdsRise(before)
    ensures IdsRise(after)
  {
    forall n, id | 0 <= n < |after.history| && id in after.rows && after.history[n].key == after.rows[id].key
      ensures after.history[n].rowId < id
    {
      if n < |before.history| {
        assert after.history[n] == before.history[n];
      }
    }
  }

  lemma {:induction false} IdsAlwaysRise(cfg: Config, run: seq<Event>)
    ensures IdsRise(Exec(cfg, run).db)
  {
    if run != [] {
      var front, e := run[..|run| - 1], run[|run| - 1];
      IdsAlwaysRise(cfg, front);
      FenceAlways(cfg, front);
      if e.Poll? {
        PollKeepsKeys(cfg, Exec(cfg, front), e);
      } else {
        StepSettles(cfg, Exec(cfg, front), e);
        SettlingKeepsIdsRising(Exec(cfg, front).db, Exec(cfg, run).db);
      }
    }
  }

  lemma PollKeepsKeys(cfg: Config, s: Sys, e: Event)
    requires e.Poll?
    ensures var after := Next(cfg, s, e).db;
            && after.history == s.db.history && after.rows.Keys == s.db.rows.Keys
            && forall id | id in s.db.rows :: after.rows[id].key == s.db.rows[id].key
  {
  }

  // In a timely run no two workers are between lease check and end of enqueue for one entity.
  lemma {:induction false} OneWriterForEachEntity(cfg: Config, run: seq<Event>, v: WorkerId, w: WorkerId)
    requires Timely(cfg, run) && Writing(Exec(cfg, run), v) && Writing(Exec(cfg, run), w)
    requires Head(Exec(cfg, run), v).key == Head(Exec(cfg, run), w).key
    ensures v == w
  {
    TimelyAlways(cfg, run);
    var s := Exec(cfg, run);
    assert Holds(s, v) && Holds(s, w) && InQueue(s, v, 0) && InQueue(s, w, 0);
    assert GrantFits(s.db, Head(s, v)) && GrantFits(s.db, Head(s, w));
  }

  // The later of two persists of an entity is for a later row of it, or a later attempt of the row.
  ghost predicate Later(a: Task, b: Task) {
    a.key == b.key ==> a.id < b.id || (a.id == b.id && a.attempt < b.attempt)
  }

  lemma PersistIsLater(s: Sys, w: WorkerId, i: nat)
    requires FenceInv(s) && IdsRise(s.db) && PersistsKnown(s) && Busy(s, w) && Holds(s, w)
    requires s.workers[w].phase.Checked? && QueueInv(s) && i < |s.persists|
    ensures Later(s.persists[i], Head(s, w))
  {
    var p, task := s.persists[i], Head(s, w);
    assert InQueue(s, w, 0) && GrantFits(s.db, task) && GrantFits(s.db, p);
    if p.id == task.id {
      PersistComesLast(s, w, i);
    } else if p.key == task.key && p.id !in s.db.rows {
      assert InHistory(s.db, p.id);
    }
  }

  // In a timely run the persists of one entity come in increasing order of row id and attempt, over
  // all the rows it ever has on the frontier.
  lemma {:induction false} PersistsOfEntityRise(cfg: Config, run: seq<Event>)
    requires Timely(cfg, run)
    ensures forall i: nat, j: nat | i < j < |Exec(cfg, run).persists| :: Later(Exec(cfg, run).persists[i], Exec(cfg, run).persists[j])
  {
    if run != [] {
      var front, e := run[..|run| - 1], run[|run| - 1];
      var s := Exec(cfg, front);
      PersistsOfEntityRise(cfg, front);
      TimelyAlways(cfg, front);
      KnownAlways(cfg, front);
      IdsAlwaysRise(cfg, front);
      if e.PersistBatch? && Busy(s, e.worker) && s.workers[e.worker].phase.Checked? {
        assert Writing(s, e.worker);
        forall i: nat | i < |s.persists|
          ensures Later(s.persists[i], Head(s, e.worker))
        {
          PersistIsLater(s, e.worker, i);
        }
      } else if !e.PersistBatch? {
        PersistsStay(cfg, s, e);
      }
    }
  }

  // ---------------------------------------------------------------- an empty frontier stays empty

  ghost predicate NoSeedsOf(run: seq<Event>, source: Source) {
    forall n, key | 0 <= n < |run| && run[n].Seed? && key in Keys(run[n].items) :: key.source != source
  }

  lemma {:induction false} FoldElsewhere(db: Db, items: seq<Item>, source: Source)
    requires EmptyFrontier(db, source) && forall key | key in Keys(items) :: key.source != source
    ensures EmptyFrontier(Fold(db, items), source)
  {
    if items != [] {
      assert items[|items| - 1].key in Keys(items);
      forall key | key in Keys(items[..|items| - 1])
        ensures key in Keys(items)
      {
        var i :| 0 <= i < |items| - 1 && items[..|items| - 1][i].key == key;
        assert items[i].key == key;
      }
      FoldElsewhere(db, items[..|items| - 1], source);
    }
  }

  lemma EnqueueElsewhere(db: Db, items: seq<Item>, source: Source)
    requires EmptyFrontier(db, source) && forall key | key in Keys(items) :: key.source != source
    ensures EmptyFrontier(Upserts(db, items), source)
  {
    SortedSame(items);
    FoldElsewhere(db, Sorted(items), source);
  }

  // Nobody can be between persist and enqueue for a source without rows.
  lemma EmptyEnqueue(s: Sys, w: WorkerId, source: Source)
    requires Inv(s) && LeaseInv(s) && EmptyFrontier(s.db, source) && Busy(s, w) && s.workers[w].phase.Persisted?
    ensures EmptyFrontier(Upserts(s.db, s.workers[w].phase.batch.discovered), source)
  {
    assert Writing(s, w) && InQueue(s, w, 0);
    assert GrantFits(s.db, Head(s, w));
    var items := s.workers[w].phase.batch.discovered;
    forall key | key in Keys(items)
      ensures key.source != source
    {
      var i :| 0 <= i < |items| && items[i].key == key;
      assert items[i] in items;
    }
    EnqueueElsewhere(s.db, items, source);
  }

  lemma EmptyStays(cfg: Config, s: Sys, e: Event, source: Source)
    requires Shape(s.db) && EmptyFrontier(s.db, source) && !e.Seed? && !e.EnqueueDiscovered?
    ensures EmptyFrontier(Next(cfg, s, e).db, source)
  {
    RowsShrink(cfg, s, e);
  }

  lemma EmptyStep(cfg: Config, s: Sys, e: Event, source: Source)
    requires Inv(s) && LeaseInv(s) && EmptyFrontier(s.db, source)
    requires e.Seed? ==> forall key | key in Keys(e.items) :: key.source != source
    ensures EmptyFrontier(Next(cfg, s, e).db, source)
  {
    if e.Seed? {
      EnqueueElsewhere(s.db, e.items, source);
    } else if e.EnqueueDiscovered? {
      if Busy(s, e.worker) && s.workers[e.worker].phase.Persisted? {
        EmptyEnqueue(s, e.worker, source);
      }
    } else {
      EmptyStays(cfg, s, e, source);
    }
  }

  // Once a source's frontier is empty in a timely run, the workers never fill it again; so what a
  // drain has found settled is all there will be until the source is seeded anew.
  lemma {:induction false} EmptyStaysEmpty(cfg: Config, run: seq<Event>, more: seq<Event>, source: Source)
    requires Timely(cfg, run + more) && EmptyFrontier(Exec(cfg, run).db, source) && NoSeedsOf(more, source)
    ensures EmptyFrontier(Exec(cfg, run + more).db, source)
  {
    if more == [] {
      assert run + more == run;
    } else {
      var front := more[..|more| - 1];
      assert (run + more)[..|run + more| - 1] == run + front;
      assert forall n | 0 <= n < |front| :: front[n] == more[n];
      EmptyStaysEmpty(cfg, run, front, source);
      TimelyAlways(cfg, run + front);
      EmptyStep(cfg, Exec(cfg, run + front), more[|more| - 1], source);
    }
  }
}
