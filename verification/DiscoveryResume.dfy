// Crash-and-resume discovery: resumed windows over a catalog whose contents do not change, while
// page fetches fail now and then and the process may die around the enqueue and the checkpoint.
module DiscoveryResume {
  import opened Types
  import opened Frontier
  import opened EnqueueOrder
  import opened Discovery

  // The catalog's pages, from page 1 on; the first empty page is `last`.
  type Pages = nat -> seq<Item>

  ghost predicate FirstEmptyPage(pages: Pages, last: nat) {
    last >= 1 && pages(last) == [] && forall p | 1 <= p < last :: pages(p) != []
  }

  // The checkpoint row and the pages whose items have been passed to enqueue.
  datatype State = State(checkpoint: Checkpoint, enqueued: set<nat>)

  const Fresh := State(Checkpoint(1, false), {})

  datatype Fate = Finishes | DiesBeforeEnqueue | DiesBeforeCheckpoint

  // One resumed window: how many pages it asks for (by concurrency and budget), which of them fail
  // to be fetched this time, and how far the process gets.
  datatype Window = Window(width: nat, failing: set<nat>, fate: Fate)

  // What the window's fetches give.
  function Fetches(pages: Pages, page: nat, w: Window): seq<PageResult> {
    seq(w.width, i requires 0 <= i < w.width => if page + i in w.failing then Failure else Items(pages(page + i)))
  }

  ghost function Span(from: nat, count: nat): set<nat> {
    if count == 0 then {} else Span(from, count - 1) + {from + count - 1}
  }

  // The window as DiscoveryService handles it: nothing happens after completion or when the first
  // stopping page is a failing one; else the pages before it are enqueued, and then the checkpoint
  // moves.
  ghost function Step(pages: Pages, s: State, w: Window): State {
    var page := s.checkpoint.nextPage;
    var results := Fetches(pages, page, w);
    var k := FirstStop(results);
    if s.checkpoint.completed || w.width == 0 || w.fate == DiesBeforeEnqueue then s
    else if k < w.width && results[k].Failure? then s
    else
      var enqueued := s.enqueued + Span(page, k);
      if w.fate == DiesBeforeCheckpoint then s.(enqueued := enqueued)
      else State(Checkpoint(page + k, k < w.width), enqueued)
  }

  // The catalog as this window's fetches see it.
  function CatalogOf(pages: Pages, failing: set<nat>): Catalog {
    (p: nat) => if p in failing then Failure else Items(pages(p))
  }

  // A window that lives does what a resumed run of DiscoveryService with that budget does, when its
  // windows are at least as large: it enqueues the pages up to where such a run ends, and leaves its
  // checkpoint.
  lemma StepIsRun(pages: Pages, s: State, w: Window, window: nat) returns (end: nat)
    requires w.width <= window && window >= 1 && w.fate == Finishes
    ensures var catalog, page := CatalogOf(pages, w.failing), s.checkpoint.nextPage;
            && EndsAt(catalog, page, Some(w.width), end)
            && var reach := Reach(catalog, page, Some(w.width), window, end);
               && page <= reach.0
               && (!s.checkpoint.completed ==>
                     Step(pages, s, w) == State(if reach.1 == Completed then Checkpoint(reach.0, true)
                                                else if reach.0 == page then s.checkpoint
                                                else Checkpoint(reach.0, false),
                                                s.enqueued + Span(page, reach.0 - page)))
  {
    var catalog, page := CatalogOf(pages, w.failing), s.checkpoint.nextPage;
    var results := Fetches(pages, page, w);
    var k := FirstStop(results);
    end := page + k;
    forall p | page <= p < end
      ensures !Stops(catalog(p))
    {
      assert results[p - page] == catalog(p) && !Stops(results[p - page]);
    }
    if k < w.width {
      assert results[k] == catalog(end);
      ShortOfWindow(k, window);
    }
  }

  lemma ShortOfWindow(k: nat, width: nat)
    requires k < width
    ensures width * (k / width) == 0
  {
  }

  // A run that ends where it starts has enqueued nothing.
  lemma NothingToDo(s: State, db: Db, catalog: Catalog, view: map<Key, Row>)
    requires Keyed(db) && IsView(db, view)
    ensures Walked(db, catalog, view, db, s.checkpoint.nextPage, s.checkpoint.nextPage, 0)
    ensures s.enqueued + Span(s.checkpoint.nextPage, 0) == s.enqueued
  {
  }

  // A step is taken from a checkpoint row to a checkpoint row, and enqueues the pages between.
  ghost predicate LeftBy(row: Option<Checkpoint>, before: State, after: State, rowAfter: Option<Checkpoint>) {
    var page, next := before.checkpoint.nextPage, after.checkpoint.nextPage;
    && rowAfter == (if after.checkpoint == before.checkpoint then row else Some(after.checkpoint))
    && page <= next && after.enqueued == before.enqueued + Span(page, next - page)
  }

  // A resumed run of DiscoveryService with a budget that fits its window is one such step: from the
  // checkpoint it finds, in the frontier and in the checkpoint it leaves.
  method ResumedRun(service: Service, pages: Pages, failing: set<nat>, budget: nat, ghost enqueued: set<nat>,
                    ghost view: map<Key, Row>) returns (stop: Stop, discovered: nat)
    requires service.Valid() && IsView(service.frontier.Table(), view) && budget <= service.concurrency
    modifies service`checkpoint, service.frontier
    ensures var before := State(if old(service.checkpoint).Some? then old(service.checkpoint).value else Fresh.checkpoint, enqueued);
            var after := Step(pages, before, Window(budget, failing, Finishes));
            && LeftBy(old(service.checkpoint), before, after, service.checkpoint)
            && Walked(service.frontier.Table(), CatalogOf(pages, failing), view, old(service.frontier.Table()),
                      before.checkpoint.nextPage, after.checkpoint.nextPage, discovered)
  {
    ghost var s := State(service.GetCheckpoint(), enqueued);
    NothingToDo(s, service.frontier.Table(), CatalogOf(pages, failing), view);
    ghost var end := StepIsRun(pages, s, Window(budget, failing, Finishes), service.concurrency);
    stop, discovered := service.Run(CatalogOf(pages, failing), None, Some(budget), true, end, view);
  }

  ghost function Resume(pages: Pages, windows: seq<Window>): State {
    if windows == [] then Fresh
    else Step(pages, Resume(pages, windows[..|windows| - 1]), windows[|windows| - 1])
  }

  lemma {:induction false} InSpan(from: nat, count: nat)
    ensures forall p: nat :: p in Span(from, count) <==> from <= p < from + count
  {
    if count > 0 {
      InSpan(from, count - 1);
    }
  }

  // The window never reaches past the first empty page.
  lemma StopIsBeforeLast(pages: Pages, last: nat, page: nat, w: Window)
    requires FirstEmptyPage(pages, last) && 1 <= page <= last
    ensures var results := Fetches(pages, page, w);
            var k := FirstStop(results);
            && page + k <= last
            && (k < w.width && !results[k].Failure? ==> page + k == last)
  {
    var results := Fetches(pages, page, w);
    var k := FirstStop(results);
    if last - page < w.width {
      assert Stops(results[last - page]);
      EndIsSeen(results, last - page);
    }
    if k < w.width {
      assert results[k] == if page + k in w.failing then Failure else Items(pages(page + k));
    }
  }

  ghost predicate ResumeInv(last: nat, s: State) {
    && 1 <= s.checkpoint.nextPage <= last
    && (s.checkpoint.completed ==> s.checkpoint.nextPage == last)
    && (forall p: nat | 1 <= p < s.checkpoint.nextPage :: p in s.enqueued)
    && (forall p | p in s.enqueued :: 1 <= p < last)
  }

  // After any mix of failed windows, crashes and budgets: every page below the checkpoint has been
  // enqueued; no page from the first empty one on has; and a completed checkpoint means that the
  // pages enqueued are exactly the pages before the first empty one.
  lemma {:induction false} ResumeIsSound(pages: Pages, last: nat, windows: seq<Window>)
    requires FirstEmptyPage(pages, last)
    ensures ResumeInv(last, Resume(pages, windows))
    ensures Resume(pages, windows).checkpoint.completed ==>
              forall p: nat :: p in Resume(pages, windows).enqueued <==> 1 <= p < last
  {
    if windows != [] {
      var front, w := windows[..|windows| - 1], windows[|windows| - 1];
      ResumeIsSound(pages, last, front);
      var s := Resume(pages, front);
      var page := s.checkpoint.nextPage;
      StopIsBeforeLast(pages, last, page, w);
      InSpan(page, FirstStop(Fetches(pages, page, w)));
    }
  }

  ghost predicate AskedFor(pages: Pages, s: State, key: Key) {
    exists p :: p in s.enqueued && key in Keys(pages(p))
  }

  ghost predicate ListedBefore(pages: Pages, last: nat, key: Key) {
    exists p: nat :: 1 <= p < last && key in Keys(pages(p))
  }

  // So the entities asked for by a completed discovery are exactly those listed before the first
  // empty page.
  lemma CompletedMeansAll(pages: Pages, last: nat, windows: seq<Window>)
    requires FirstEmptyPage(pages, last) && Resume(pages, windows).checkpoint.completed
    ensures forall key :: AskedFor(pages, Resume(pages, windows), key) <==> ListedBefore(pages, last, key)
  {
    ResumeIsSound(pages, last, windows);
  }

  // A window that meets no failure up to the first empty page and lives makes progress, so discovery
  // completes after at most `last` such windows.
  lemma GoodWindowAdvances(pages: Pages, last: nat, windows: seq<Window>, w: Window)
    requires FirstEmptyPage(pages, last) && w.width >= 1 && w.fate == Finishes
    requires forall p | p in w.failing :: p > last
    ensures var before := Resume(pages, windows).checkpoint;
            var after := Resume(pages, windows + [w]).checkpoint;
            before.completed || after.completed || before.nextPage < after.nextPage
  {
    var s := Resume(pages, windows);
    ResumeIsSound(pages, last, windows);
    assert (windows + [w])[..|windows + [w]| - 1] == windows;
    var page := s.checkpoint.nextPage;
    StopIsBeforeLast(pages, last, page, w);
    var results := Fetches(pages, page, w);
    var k := FirstStop(results);
    assert k < w.width ==> (results[k].Failure? <==> page + k in w.failing);
  }
}
