// Drain soundness: when no row of a source is left, everything that was ever asked for is settled,
// whatever crashed on the way.
module DrainSoundness {
  import opened Types
  import opened Frontier
  import opened EnqueueOrder
  import opened Extraction
  import opened Workers
  import opened Fencing

  // ---------------------------------------------------------------- worker queues

  ghost predicate SameToken(a: Task, b: Task) {
    a.id == b.id && a.attempt == b.attempt
  }

  ghost predicate InQueue(s: Sys, w: WorkerId, i: nat) {
    w in s.workers && i < |s.workers[w].queue|
  }

  // The workers' tasks were handed out to them and to nobody else, and a batch past the lease check
  // has been validated.
  ghost predicate QueueInv(s: Sys) {
    && (forall w | w in s.workers :: w < s.nextWorker)
    && (forall w, i: nat | InQueue(s, w, i) ::
          s.workers[w].queue[i] in s.grants && s.workers[w].queue[i].key.source == s.workers[w].source)
    && (forall v, i: nat, w, j: nat | InQueue(s, v, i) && InQueue(s, w, j)
          && SameToken(s.workers[v].queue[i], s.workers[w].queue[j]) :: v == w && i == j)
    && (forall w | w in s.workers && !s.workers[w].phase.Working? ::
          s.workers[w].queue != [] && WellFormed(s.workers[w].phase.batch, s.workers[w].queue[0].key))
  }

  // The workers of `after` are those of `before`, except that `w` may be gone, may have dropped its
  // first task, or may have changed phase.
  ghost predicate OneMoves(before: Sys, after: Sys, w: WorkerId) {
    && after.nextWorker == before.nextWorker
    && (forall v | v in after.workers && v != w :: v in before.workers && after.workers[v] == before.workers[v])
    && (w in after.workers ==> w in before.workers && after.workers[w].source == before.workers[w].source)
    && (w in after.workers && after.workers[w].queue != before.workers[w].queue ==>
          before.workers[w].queue != [] && after.workers[w].phase.Working?
          && after.workers[w].queue == before.workers[w].queue[1..])
    && (w in after.workers && !after.workers[w].phase.Working? ==>
          after.workers[w].queue != [] && WellFormed(after.workers[w].phase.batch, after.workers[w].queue[0].key))
  }

  lemma MoveKeepsQueues(before: Sys, after: Sys, w: WorkerId)
    requires QueueInv(before) && OneMoves(before, after, w) && after.grants == before.grants
    ensures QueueInv(after)
  {
    forall v, i: nat | InQueue(after, v, i)
      ensures InQueue(before, v, i) && (after.workers[v].queue != before.workers[v].queue ==> InQueue(before, v, i + 1))
    {
    }
  }

  lemma TakenTasksAreNew(s: Sys, w: WorkerId, query: Query, lease: nat, order: seq<nat>)
    requires FenceInv(s) && Lists(order, Chosen(s.db, query, s.now)) && query.source.Some?
    ensures var tasks := TasksOf(Claim(s.db, w, query, lease, s.now), order);
            && (forall i, task | 0 <= i < |tasks| && task in s.grants :: !SameToken(tasks[i], task))
            && (forall i | 0 <= i < |tasks| :: tasks[i].key.source == query.source.value)
            && (forall i, j | 0 <= i < |tasks| && 0 <= j < |tasks| && SameToken(tasks[i], tasks[j]) :: i == j)
  {
    var tasks := TasksOf(Claim(s.db, w, query, lease, s.now), order);
    forall i, task | 0 <= i < |tasks| && task in s.grants
      ensures !SameToken(tasks[i], task)
    {
      assert GrantFits(s.db, task);
    }
  }

  // An idle worker is handed tasks of its source that nobody has been handed before.
  lemma GrantKeepsQueues(before: Sys, after: Sys, w: WorkerId, tasks: seq<Task>)
    requires QueueInv(before) && w in before.workers
    requires after.grants == before.grants + tasks && after.nextWorker == before.nextWorker
    requires after.workers == before.workers[w := before.workers[w].(phase := Working, queue := tasks)]
    requires forall i, task | 0 <= i < |tasks| && task in before.grants :: !SameToken(tasks[i], task)
    requires forall i | 0 <= i < |tasks| :: tasks[i].key.source == before.workers[w].source
    requires forall i, j | 0 <= i < |tasks| && 0 <= j < |tasks| && SameToken(tasks[i], tasks[j]) :: i == j
    ensures QueueInv(after)
  {
    forall v, i: nat | InQueue(after, v, i)
      ensures after.workers[v].queue[i] in after.grants
      ensures v != w ==> InQueue(before, v, i) && after.workers[v].queue[i] in before.grants
    {
      if v == w {
        assert after.grants[|before.grants| + i] == tasks[i];
      } else {
        assert InQueue(before, v, i);
      }
    }
  }

  lemma PollKeepsQueues(cfg: Config, s: Sys, e: Event)
    requires e.Poll? && FenceInv(s) && QueueInv(s)
    ensures QueueInv(Next(cfg, s, e))
  {
    var w := e.worker;
    if w in s.workers && s.workers[w].queue == [] {
      var query := Query(Some(s.workers[w].source), e.limit, e.backfillOnly);
      if Lists(e.order, Chosen(s.db, query, s.now)) {
        TakenTasksAreNew(s, w, query, cfg.lease, e.order);
        GrantKeepsQueues(s, Next(cfg, s, e), w, TasksOf(Next(cfg, s, e).db, e.order));
      }
    }
  }

  ghost predicate PhasesChecked(s: Sys) {
    forall w | w in s.workers && !s.workers[w].phase.Working? ::
      s.workers[w].queue != [] && WellFormed(s.workers[w].phase.batch, s.workers[w].queue[0].key)
  }

  ghost function Actor(e: Event): WorkerId {
    if e.Seed? || e.Tick? || e.ReleaseStaleLeases? || e.Spawn? then 0 else e.worker
  }

  lemma StepMovesOne(cfg: Config, s: Sys, e: Event)
    requires PhasesChecked(s) && !e.Poll? && !e.Spawn?
    ensures OneMoves(s, Next(cfg, s, e), Actor(e)) && Next(cfg, s, e).grants == s.grants
  {
    match e
    case CheckLease(w, batch) =>
      if Busy(s, w) { AcceptedIffWellFormed(batch, Head(s, w).key); }
    case _ =>
  }

  lemma QueueStep(cfg: Config, s: Sys, e: Event)
    requires FenceInv(s) && QueueInv(s)
    ensures QueueInv(Next(cfg, s, e))
  {
    var after := Next(cfg, s, e);
    if e.Spawn? {
      forall v, i: nat | InQueue(after, v, i)
        ensures InQueue(s, v, i) && after.workers[v] == s.workers[v]
      {
      }
    } else if e.Poll? {
      PollKeepsQueues(cfg, s, e);
    } else {
      assert PhasesChecked(s);
      StepMovesOne(cfg, s, e);
      MoveKeepsQueues(s, after, Actor(e));
    }
  }

  function Ranks(phase: Phase): nat {
    match phase
    case Working => 0
    case Checked(_) => 1
    case Persisted(_) => 2
    case Enqueued(_) => 3
  }

  // The worker moves on to the next phase, or to the next task, or nothing happens.
  ghost predicate MovesOn(s: Sys, after: Sys, w: WorkerId) {
    && after.nextWorker == s.nextWorker && after.grants == s.grants
    && (after.workers == s.workers
        || (Busy(s, w) && after.workers == Advance(s, w))
        || (Busy(s, w) && w in after.workers && after.workers == Move(s, w, after.workers[w].phase)
            && Ranks(after.workers[w].phase) == Ranks(s.workers[w].phase) + 1))
  }

  lemma PhaseMovesOn(cfg: Config, s: Sys, e: Event)
    requires e.CheckLease? || e.PersistBatch? || e.EnqueueDiscovered?
    ensures MovesOn(s, Next(cfg, s, e), e.worker)
  {
  }

  lemma EventMovesOn(cfg: Config, s: Sys, e: Event)
    requires !e.Seed? && !e.Tick? && !e.Spawn? && !e.Poll? && !e.ReleaseTasks? && !e.Leave? && !e.Crash? && !e.ReleaseStaleLeases?
    ensures MovesOn(s, Next(cfg, s, e), e.worker)
  {
    if e.CheckLease? || e.PersistBatch? || e.EnqueueDiscovered? {
      PhaseMovesOn(cfg, s, e);
    }
  }

  // ---------------------------------------------------------------- settled entities

  ghost predicate Done(db: Db, key: Key) {
    key in db.succeeded || FailedOnce(db, key)
  }

  ghost predicate Settled(db: Db, key: Key) {
    Live(db, key) || Done(db, key)
  }

  // A row only goes when its entity is done.
  ghost predicate ClosesDone(before: Db, after: Db) {
    forall id | id in before.rows && id !in after.rows :: Done(after, before.rows[id].key)
  }

  lemma SettledStays(before: Db, after: Db, key: Key)
    requires before.succeeded <= after.succeeded && before.history <= after.history
    requires forall id | id in before.rows && id in after.rows :: after.rows[id].key == before.rows[id].key
    requires ClosesDone(before, after)
    requires Settled(before, key)
    ensures Settled(after, key)
    ensures Done(before, key) ==> Done(after, key)
  {
    if FailedOnce(before, key) {
      var n :| 0 <= n < |before.history| && before.history[n].key == key && before.history[n].outcome == Failed;
      assert after.history[n] == before.history[n];
    }
    if Live(before, key) {
      var id :| id in before.rows && before.rows[id].key == key;
      assert id in after.rows ==> after.rows[id].key == key;
    }
  }

  lemma UpsertKeepsLive(db: Db, item: Item)
    requires Keyed(db)
    ensures Settled(Upsert(db, item), item.key)
    ensures forall key | Settled(db, key) :: Settled(Upsert(db, item), key)
  {
    var after := Upsert(db, item);
    forall key | Live(db, key)
      ensures Live(after, key)
    {
      var id :| id in db.rows && db.rows[id].key == key;
      assert after.rows[id].key == key;
    }
    if !Skipped(db, item) && !Live(db, item.key) {
      assert after.rows[db.nextId].key == item.key;
    }
    forall key | FailedOnce(db, key)
      ensures FailedOnce(after, key)
    {
      assert after.history == db.history;
    }
  }

  // Whatever is enqueued has a live row or had been settled before.
  lemma {:induction false} FoldedIsSettled(db: Db, items: seq<Item>)
    requires Shape(db)
    ensures forall key | Settled(db, key) || key in Keys(items) :: Settled(Fold(db, items), key)
  {
    if items != [] {
      var front, last := items[..|items| - 1], items[|items| - 1];
      FoldedIsSettled(db, front);
      FoldSettles(db, front);
      UpsertKeepsLive(Fold(db, front), last);
      forall key | key in Keys(items) && key != last.key
        ensures key in Keys(front)
      {
        var i :| 0 <= i < |items| && items[i].key == key;
        assert front[i].key == key;
      }
    }
  }

  lemma EnqueuedIsSettled(db: Db, items: seq<Item>)
    requires Shape(db)
    ensures forall key | Settled(db, key) || key in Keys(items) :: Settled(Upserts(db, items), key)
  {
    SortedSame(items);
    FoldedIsSettled(db, Sorted(items));
  }

  // ---------------------------------------------------------------- the invariant

  ghost predicate PhaseFacts(s: Sys, worker: Worker) {
    && (worker.phase.Persisted? || worker.phase.Enqueued? ==> EntityKeys(worker.phase.batch) <= s.db.succeeded)
    && (worker.phase.Enqueued? ==> Keys(worker.phase.batch.discovered) <= s.offered)
  }

  ghost predicate CompletionFacts(s: Sys, c: Completion) {
    && WellFormed(c.batch, c.task.key)
    && c.task.key in s.db.succeeded
    && Keys(c.batch.discovered) <= s.offered
  }

  ghost predicate Recorded(s: Sys, h: HistoryRow) {
    exists c :: c in s.completions && c.task.id == h.rowId && c.task.key == h.key && c.task.attempt == h.attempt
              && h.outcome == Success(TaskHash(c.batch, h.key))
  }

  ghost predicate SoundInv(s: Sys) {
    && (forall key | key in s.offered :: Settled(s.db, key))
    && (forall w | w in s.workers :: PhaseFacts(s, s.workers[w]))
    && (forall c | c in s.completions :: CompletionFacts(s, c))
    && (forall n | 0 <= n < |s.db.history| && s.db.history[n].outcome.Success? :: Recorded(s, s.db.history[n]))
  }

  // A row completed by a worker belongs to an entity that has been persisted.
  lemma ClosingIsSettling(s: Sys, w: WorkerId, outcome: Outcome)
    requires FenceInv(s) && QueueInv(s) && SoundInv(s) && Busy(s, w)
    requires outcome == Failed || s.workers[w].phase.Enqueued?
    ensures ClosesDone(s.db, Close(s.db, Head(s, w), outcome))
    ensures outcome.Success? ==> Head(s, w).key in s.db.succeeded
    ensures Current(s.db, Head(s, w)) ==> s.db.rows[Head(s, w).id].key == Head(s, w).key
  {
    var task, after := Head(s, w), Close(s.db, Head(s, w), outcome);
    assert InQueue(s, w, 0);
    assert GrantFits(s.db, task);
    if outcome.Success? {
      var batch := s.workers[w].phase.batch;
      var e :| e in batch.entities && e.key == task.key;
      assert PhaseFacts(s, s.workers[w]);
      assert task.key in EntityKeys(batch);
    } else if Current(s.db, task) {
      assert after.history[|s.db.history|].key == task.key;
    }
  }

  lemma LogsGrow(cfg: Config, s: Sys, e: Event)
    requires Shape(s.db)
    ensures var after := Next(cfg, s, e);
            && s.db.succeeded <= after.db.succeeded && s.db.history <= after.db.history
            && s.offered <= after.offered && s.completions <= after.completions
  {
    if e.Seed? {
      UpsertsSettle(s.db, e.items);
    } else if e.EnqueueDiscovered? && Busy(s, e.worker) && s.workers[e.worker].phase.Persisted? {
      UpsertsSettle(s.db, s.workers[e.worker].phase.batch.discovered);
    }
  }

  lemma StepClosesDone(cfg: Config, s: Sys, e: Event)
    requires FenceInv(s) && QueueInv(s) && SoundInv(s) && !e.Seed? && !e.EnqueueDiscovered?
    ensures ClosesDone(s.db, Next(cfg, s, e).db)
  {
    if e.CompleteTask? {
      if Busy(s, e.worker) && s.workers[e.worker].phase.Enqueued? {
        ClosingIsSettling(s, e.worker, Success(TaskHash(s.workers[e.worker].phase.batch, Head(s, e.worker).key)));
      }
    } else if e.GenericError? {
      if Busy(s, e.worker) {
        ClosingIsSettling(s, e.worker, Failed);
      }
    } else {
      RowsStay(cfg, s, e);
    }
  }

  lemma TableStepSettles(cfg: Config, s: Sys, e: Event)
    requires FenceInv(s) && QueueInv(s) && SoundInv(s)
    ensures var after := Next(cfg, s, e);
            forall key | key in after.offered :: Settled(after.db, key)
  {
    var after := Next(cfg, s, e);
    if e.Seed? {
      EnqueuedIsSettled(s.db, e.items);
    } else if e.EnqueueDiscovered? {
      if Busy(s, e.worker) && s.workers[e.worker].phase.Persisted? {
        EnqueuedIsSettled(s.db, s.workers[e.worker].phase.batch.discovered);
      }
    } else {
      LogsGrow(cfg, s, e);
      RowsStay(cfg, s, e);
      StepClosesDone(cfg, s, e);
      forall key | key in after.offered
        ensures Settled(after.db, key)
      {
        assert key in s.offered;
        SettledStays(s.db, after.db, key);
      }
    }
  }

  lemma RowsStay(cfg: Config, s: Sys, e: Event)
    requires Shape(s.db) && !e.Seed? && !e.EnqueueDiscovered?
    ensures var after := Next(cfg, s, e).db;
            && (forall id | id in s.db.rows && id in after.rows :: after.rows[id].key == s.db.rows[id].key)
            && s.db.succeeded <= after.succeeded && s.db.history <= after.history
    ensures !e.CompleteTask? && !e.GenericError? ==> Next(cfg, s, e).db.rows.Keys == s.db.rows.Keys
  {
    StepSettles(cfg, s, e);
    if !e.Poll? && !e.CompleteTask? && !e.GenericError? {
      UpdateStepTouches(cfg, s, e);
    }
  }

  // Only enqueue adds rows.
  lemma RowsShrink(cfg: Config, s: Sys, e: Event)
    requires Shape(s.db) && !e.Seed? && !e.EnqueueDiscovered?
    ensures var after := Next(cfg, s, e).db;
            after.rows.Keys <= s.db.rows.Keys && forall id | id in after.rows :: after.rows[id].key == s.db.rows[id].key
  {
    RowsStay(cfg, s, e);
  }

  lemma FactsStay(before: Sys, after: Sys)
    requires before.db.succeeded <= after.db.succeeded && before.offered <= after.offered
    ensures forall worker | PhaseFacts(before, worker) :: PhaseFacts(after, worker)
    ensures forall c | CompletionFacts(before, c) :: CompletionFacts(after, c)
  {
  }

  lemma CompletionStep(cfg: Config, s: Sys, e: Event)
    requires FenceInv(s) && QueueInv(s) && SoundInv(s)
    ensures forall c | c in Next(cfg, s, e).completions :: CompletionFacts(Next(cfg, s, e), c)
  {
    var after := Next(cfg, s, e);
    LogsGrow(cfg, s, e);
    FactsStay(s, after);
    if e.CompleteTask? && Busy(s, e.worker) && s.workers[e.worker].phase.Enqueued? {
      ClosingIsSettling(s, e.worker, Success(TaskHash(s.workers[e.worker].phase.batch, Head(s, e.worker).key)));
      assert InQueue(s, e.worker, 0);
      assert PhaseFacts(s, s.workers[e.worker]);
      assert CompletionFacts(after, Completion(Head(s, e.worker), s.workers[e.worker].phase.batch));
    }
  }

  // A step writes a success only where it records the completion.
  lemma HistoryAdds(cfg: Config, s: Sys, e: Event, n: nat)
    requires Shape(s.db) && |s.db.history| <= n < |Next(cfg, s, e).db.history|
    requires Next(cfg, s, e).db.history[n].outcome.Success?
    ensures e.CompleteTask? && Busy(s, e.worker) && s.workers[e.worker].phase.Enqueued? && Current(s.db, Head(s, e.worker))
    ensures n == |s.db.history|
  {
    if e.Seed? {
      UpsertsSettle(s.db, e.items);
    } else if e.EnqueueDiscovered? && Busy(s, e.worker) && s.workers[e.worker].phase.Persisted? {
      UpsertsSettle(s.db, s.workers[e.worker].phase.batch.discovered);
    }
  }

  lemma HistoryStep(cfg: Config, s: Sys, e: Event)
    requires FenceInv(s) && QueueInv(s) && SoundInv(s)
    ensures var after := Next(cfg, s, e);
            forall n | 0 <= n < |after.db.history| && after.db.history[n].outcome.Success? :: Recorded(after, after.db.history[n])
  {
    var after := Next(cfg, s, e);
    LogsGrow(cfg, s, e);
    forall n | 0 <= n < |after.db.history| && after.db.history[n].outcome.Success?
      ensures Recorded(after, after.db.history[n])
    {
      if n < |s.db.history| {
        assert after.db.history[n] == s.db.history[n];
        assert Recorded(s, s.db.history[n]);
      } else {
        HistoryAdds(cfg, s, e, n);
        assert InQueue(s, e.worker, 0);
        assert GrantFits(s.db, Head(s, e.worker));
        assert after.completions[|s.completions|] == Completion(Head(s, e.worker), s.workers[e.worker].phase.batch);
      }
    }
  }

  // Where a worker's phase says something, it stood there before, or this step brought it there.
  lemma PhaseFrom(cfg: Config, s: Sys, e: Event, w: WorkerId)
    requires w in Next(cfg, s, e).workers
    ensures var worker := Next(cfg, s, e).workers[w];
            && (worker.phase.Persisted? ==>
                  || (w in s.workers && s.workers[w].phase == worker.phase)
                  || EntityKeys(worker.phase.batch) <= Next(cfg, s, e).db.succeeded)
            && (worker.phase.Enqueued? ==>
                  || (w in s.workers && s.workers[w].phase == worker.phase)
                  || (w in s.workers && s.workers[w].phase == Persisted(worker.phase.batch)
                      && Keys(worker.phase.batch.discovered) <= Next(cfg, s, e).offered))
  {
  }

  lemma PhaseOf(cfg: Config, s: Sys, e: Event, w: WorkerId)
    requires FenceInv(s) && SoundInv(s) && w in Next(cfg, s, e).workers
    ensures PhaseFacts(Next(cfg, s, e), Next(cfg, s, e).workers[w])
  {
    var after := Next(cfg, s, e);
    assert s.db.succeeded <= after.db.succeeded && s.offered <= after.offered by {
      LogsGrow(cfg, s, e);
    }
    PhaseFrom(cfg, s, e, w);
    assert w in s.workers ==> PhaseFacts(s, s.workers[w]);
  }

  lemma PhaseStep(cfg: Config, s: Sys, e: Event)
    requires FenceInv(s) && SoundInv(s)
    ensures forall w | w in Next(cfg, s, e).workers :: PhaseFacts(Next(cfg, s, e), Next(cfg, s, e).workers[w])
  {
    forall w | w in Next(cfg, s, e).workers
      ensures PhaseFacts(Next(cfg, s, e), Next(cfg, s, e).workers[w])
    {
      PhaseOf(cfg, s, e, w);
    }
  }

  ghost predicate Inv(s: Sys) {
    FenceInv(s) && QueueInv(s) && SoundInv(s)
  }

  lemma InvStep(cfg: Config, s: Sys, e: Event)
    requires Inv(s)
    ensures Inv(Next(cfg, s, e))
  {
    FenceStep(cfg, s, e);
    QueueStep(cfg, s, e);
    TableStepSettles(cfg, s, e);
    CompletionStep(cfg, s, e);
    HistoryStep(cfg, s, e);
    PhaseStep(cfg, s, e);
  }

  lemma {:induction false} InvAlways(cfg: Config, run: seq<Event>)
    ensures Inv(Exec(cfg, run))
    decreases |run|
  {
    if run != [] {
      InvAlways(cfg, run[..|run| - 1]);
      InvStep(cfg, Exec(cfg, run[..|run| - 1]), run[|run| - 1]);
    }
  }

  lemma StepOffers(cfg: Config, s: Sys, e: Event)
    ensures s.offered <= Next(cfg, s, e).offered
    ensures e.Seed? ==> Keys(e.items) <= Next(cfg, s, e).offered
  {
  }

  lemma {:induction false} SeedsAreOffered(cfg: Config, run: seq<Event>, n: nat)
    requires n < |run| && run[n].Seed?
    ensures Keys(run[n].items) <= Exec(cfg, run).offered
    decreases |run|
  {
    var front := run[..|run| - 1];
    StepOffers(cfg, Exec(cfg, front), run[|run| - 1]);
    if n < |front| {
      assert front[n] == run[n];
      SeedsAreOffered(cfg, front, n);
    }
  }

  ghost predicate EmptyFrontier(db: Db, source: Source) {
    forall id | id in db.rows :: db.rows[id].key.source != source
  }

  // Drain soundness. Take any run, with any interleaving and any crashes, that ends with no row of
  // `source` on the frontier. Then every entity of that source that was seeded has been stored or
  // has a failed history row; and so has every entity that a completed extraction of that source
  // listed as discovered.
  lemma {:induction false} DrainSound(cfg: Config, run: seq<Event>, source: Source)
    requires EmptyFrontier(Exec(cfg, run).db, source)
    ensures forall n, key | 0 <= n < |run| && run[n].Seed? && key in Keys(run[n].items) && key.source == source ::
              Done(Exec(cfg, run).db, key)
    ensures var s := Exec(cfg, run);
            forall n | 0 <= n < |s.db.history| && s.db.history[n].outcome.Success? && s.db.history[n].key.source == source ::
              exists c :: && c in s.completions
                          && c.task == Task(s.db.history[n].rowId, s.db.history[n].key, s.db.history[n].attempt)
                          && s.db.history[n].outcome == Success(TaskHash(c.batch, c.task.key))
                          && c.task.key in s.db.succeeded
                          && forall key | key in Keys(c.batch.discovered) :: Done(s.db, key)
  {
    InvAlways(cfg, run);
    var s := Exec(cfg, run);
    forall key | key in s.offered && key.source == source
      ensures Done(s.db, key)
    {
      assert Settled(s.db, key);
    }
    forall n, key | 0 <= n < |run| && run[n].Seed? && key in Keys(run[n].items) && key.source == source
      ensures Done(s.db, key)
    {
      SeedsAreOffered(cfg, run, n);
    }
    forall n | 0 <= n < |s.db.history| && s.db.history[n].outcome.Success? && s.db.history[n].key.source == source
      ensures exists c :: && c in s.completions
                          && c.task == Task(s.db.history[n].rowId, s.db.history[n].key, s.db.history[n].attempt)
                          && s.db.history[n].outcome == Success(TaskHash(c.batch, c.task.key))
                          && c.task.key in s.db.succeeded
                          && forall key | key in Keys(c.batch.discovered) :: Done(s.db, key)
    {
      var h := s.db.history[n];
      assert Recorded(s, h);
      var c :| c in s.completions && c.task.id == h.rowId && c.task.key == h.key && c.task.attempt == h.attempt
              && h.outcome == Success(TaskHash(c.batch, h.key));
      assert CompletionFacts(s, c);
      forall key | key in Keys(c.batch.discovered)
        ensures Done(s.db, key)
      {
        var i :| 0 <= i < |c.batch.discovered| && c.batch.discovered[i].key == key;
        assert c.batch.discovered[i] in c.batch.discovered;
      }
    }
  }
}
