// Windowed speculative discovery: DiscoveryService fetches up to 64 catalog pages at once, keeps
// what a page-by-page walk would have kept, and moves the checkpoint.
module Discovery {
  import opened Arithmetic
  import opened Types
  import opened Frontier
  import opened EnqueueOrder
  import FrontierRepository

  // What fetching one page gives: its items (none past the end of the catalog), or an exception.
  datatype PageResult = Items(items: seq<Item>) | Failure

  // The pages as they are fetched during one run.
  type Catalog = nat -> PageResult

  predicate Empty(r: PageResult) {
    r == Items([])
  }

  // The page ends a sequential walk.
  predicate Stops(r: PageResult) {
    r.Failure? || Empty(r)
  }

  // ---------------------------------------------------------------- one window

  datatype PageSuccess = PageSuccess(page: nat, items: seq<Item>)

  datatype Analysis = Analysis(meaningful: seq<PageSuccess>, terminalPage: Option<nat>, speculativeEmpty: nat,
                               ignoredFailures: nat, failedPage: Option<nat>)

  // The first result that would end a sequential walk, or the number of results.
  function FirstStop(results: seq<PageResult>): (k: nat)
    ensures k <= |results|
    ensures forall i | 0 <= i < k :: !Stops(results[i])
    ensures k < |results| ==> Stops(results[k])
  {
    if results == [] || Stops(results[0]) then 0 else 1 + FirstStop(results[1..])
  }

  function CountEmpty(results: seq<PageResult>): nat {
    if results == [] then 0
    else CountEmpty(results[..|results| - 1]) + if Empty(results[|results| - 1]) then 1 else 0
  }

  function CountFailures(results: seq<PageResult>): nat {
    if results == [] then 0
    else CountFailures(results[..|results| - 1]) + if results[|results| - 1].Failure? then 1 else 0
  }

  // The first `k` pages with their items.
  ghost predicate ArePages(successes: seq<PageSuccess>, k: nat, pages: seq<nat>, results: seq<PageResult>)
    requires |pages| == |results|
  {
    && |successes| == k <= |results|
    && (forall i | 0 <= i < k :: results[i].Items? && successes[i] == PageSuccess(pages[i], results[i].items))
  }

  // classify_discovery_window: everything hangs on the first page that would have ended a
  // sequential walk. If it failed, the window failed there; if it was empty, it is the terminal
  // page and the rest of the window is only counted.
  method ClassifyWindow(pages: seq<nat>, results: seq<PageResult>) returns (a: Analysis)
    requires |pages| == |results|
    ensures var k := FirstStop(results);
            && ArePages(a.meaningful, k, pages, results)
            && a.failedPage == (if k < |results| && results[k].Failure? then Some(pages[k]) else None)
            && a.terminalPage == (if k < |results| && Empty(results[k]) then Some(pages[k]) else None)
            && a.speculativeEmpty == (if a.terminalPage.Some? then CountEmpty(results[k + 1..]) else 0)
            && a.ignoredFailures == (if a.terminalPage.Some? then CountFailures(results[k + 1..]) else 0)
  {
    ghost var k := FirstStop(results);
    var meaningful, terminalPage := [], None;
    var speculativeEmpty, ignoredFailures := 0, 0;
    for i := 0 to |results|
      invariant terminalPage.None? ==> i <= k && ArePages(meaningful, i, pages, results)
                                       && speculativeEmpty == 0 && ignoredFailures == 0
      invariant terminalPage.Some? ==> k < i && terminalPage == Some(pages[k]) && Empty(results[k])
                                       && ArePages(meaningful, k, pages, results)
      invariant terminalPage.Some? ==> speculativeEmpty == CountEmpty(results[k + 1..i])
                                       && ignoredFailures == CountFailures(results[k + 1..i])
    {
      if terminalPage.Some? {
        assert results[k + 1..i + 1][..i - k - 1] == results[k + 1..i];
        if results[i].Failure? {
          ignoredFailures := ignoredFailures + 1;
        } else if results[i].items == [] {
          speculativeEmpty := speculativeEmpty + 1;
        }
        continue;
      }
      if results[i].Failure? {
        return Analysis(meaningful, None, 0, 0, Some(pages[i]));
      }
      if results[i].items == [] {
        terminalPage := Some(pages[i]);
        continue;
      }
      meaningful := meaningful + [PageSuccess(pages[i], results[i].items)];
    }
    assert terminalPage.Some? ==> results[k + 1..|results|] == results[k + 1..];
    a := Analysis(meaningful, terminalPage, speculativeEmpty, ignoredFailures, None);
  }

  // ---------------------------------------------------------------- a whole run

  // The items of pages from .. until - 1, in order.
  ghost function ItemsOf(catalog: Catalog, from: nat, until: nat): seq<Item>
    requires from <= until
  {
    if from == until then []
    else ItemsOf(catalog, from, until - 1) + if catalog(until - 1).Items? then catalog(until - 1).items else []
  }

  lemma {:induction false} ItemsConcat(catalog: Catalog, from: nat, middle: nat, until: nat)
    requires from <= middle <= until
    ensures ItemsOf(catalog, from, until) == ItemsOf(catalog, from, middle) + ItemsOf(catalog, middle, until)
    decreases until
  {
    if middle < until {
      ItemsConcat(catalog, from, middle, until - 1);
    }
  }

  // The walk that starts at `start` ends at page `end`: there it meets its first empty or failing
  // page, or its page budget is used up.
  ghost predicate EndsAt(catalog: Catalog, start: nat, budget: Option<nat>, end: nat) {
    && start <= end
    && (forall p | start <= p < end :: !Stops(catalog(p)))
    && (Stops(catalog(end)) || budget.Some?)
    && (budget.Some? ==> end <= start + budget.value && (Stops(catalog(end)) || end == start + budget.value))
  }

  datatype Stop = OutOfBudget | Completed | FailedAt(page: nat)

  // How the walk that fetches one page at a time ends.
  ghost function Walk(catalog: Catalog, page: nat, budget: Option<nat>, end: nat): (nat, Stop)
    requires EndsAt(catalog, page, budget, end)
    decreases end - page
  {
    if budget == Some(0) then (page, OutOfBudget)
    else if catalog(page).Failure? then (page, FailedAt(page))
    else if Empty(catalog(page)) then (page, Completed)
    else Walk(catalog, page + 1, if budget.Some? then Some(budget.value - 1) else None, end)
  }

  // How the windowed run ends: the next page of the checkpoint, and why.
  ghost function Reach(catalog: Catalog, start: nat, budget: Option<nat>, window: nat, end: nat): (nat, Stop)
    requires window >= 1 && EndsAt(catalog, start, budget, end)
  {
    if budget.Some? && end == start + budget.value then (end, OutOfBudget)
    else if Empty(catalog(end)) then (end, Completed)
    else (start + window * ((end - start) / window), FailedAt(end))
  }

  // The windowed run stops where the page-by-page walk stops and for the same reason, except that
  // the window of a failing page is given up whole: the run then stands at a window's first page,
  // less than a window before the failing one.
  lemma WindowsRefineWalk(catalog: Catalog, start: nat, budget: Option<nat>, window: nat, end: nat)
    requires window >= 1 && EndsAt(catalog, start, budget, end)
    ensures var (next, stop) := Reach(catalog, start, budget, window, end);
            var walk := Walk(catalog, start, budget, end);
            && stop == walk.1
            && (!stop.FailedAt? ==> next == walk.0)
            && (stop.FailedAt? ==> stop.page == walk.0 && next <= walk.0 < next + window
                                   && exists windows: nat :: next == start + window * windows)
  {
    WalkEnds(catalog, start, budget, end);
    var windows: nat := (end - start) / window;
    assert end - start == window * windows + (end - start) % window;
  }

  lemma {:induction false} WalkEnds(catalog: Catalog, page: nat, budget: Option<nat>, end: nat)
    requires EndsAt(catalog, page, budget, end)
    ensures Walk(catalog, page, budget, end) ==
            if budget.Some? && end == page + budget.value then (end, OutOfBudget)
            else if Empty(catalog(end)) then (end, Completed)
            else (end, FailedAt(end))
    decreases end - page
  {
    if budget != Some(0) && !Stops(catalog(page)) {
      WalkEnds(catalog, page + 1, if budget.Some? then Some(budget.value - 1) else None, end);
    }
  }

  // Two failure-free runs, the second resumed from the checkpoint of the first, end like one run
  // with the sum of their budgets; and the pages they enqueue are together the pages of that run.
  lemma RunsCompose(catalog: Catalog, start: nat, a: nat, b: nat, window: nat, end: nat)
    requires window >= 1 && EndsAt(catalog, start, Some(a + b), end)
    requires end < start + a + b ==> Empty(catalog(end))
    ensures var middle := Min(end, start + a);
            && EndsAt(catalog, start, Some(a), middle)
            && var first := Reach(catalog, start, Some(a), window, middle);
               var whole := Reach(catalog, start, Some(a + b), window, end);
               && first.0 == middle
               && ItemsOf(catalog, start, whole.0) == ItemsOf(catalog, start, middle) + ItemsOf(catalog, middle, whole.0)
               && (first.1 == Completed ==> whole == first)
               && (first.1 != Completed ==> EndsAt(catalog, middle, Some(b), end)
                                            && Reach(catalog, middle, Some(b), window, end) == whole)
  {
    ItemsConcat(catalog, start, Min(end, start + a), end);
  }

  datatype Checkpoint = Checkpoint(nextPage: nat, completed: bool)

  class Service {
    const concurrency: nat
    const frontier: FrontierRepository.Repository
    // The discovery_checkpoints row of the source, entity type and scope, if there is one.
    var checkpoint: Option<Checkpoint>

    ghost predicate Valid()
      reads this, frontier
    {
      1 <= concurrency <= 64 && Keyed(frontier.Table())
    }

    constructor (concurrency: nat, frontier: FrontierRepository.Repository)
      requires 1 <= concurrency <= 64 && Keyed(frontier.Table())
      ensures Valid() && this.frontier == frontier && this.concurrency == concurrency && checkpoint == None
    {
      this.concurrency, this.frontier, checkpoint := concurrency, frontier, None;
    }

    function GetCheckpoint(): Checkpoint
      reads this
    {
      if checkpoint.Some? then checkpoint.value else Checkpoint(1, false)
    }

    // The page a run starts from.
    ghost function StartPage(startPage: Option<nat>, resume: bool): nat
      reads this
    {
      if startPage.None? && resume then GetCheckpoint().nextPage
      else if startPage.Some? && startPage.value != 0 then startPage.value else 1
    }

    // run. For every catalog and every window size, what the run enqueues is the items of the pages
    // from the start page up to the page Reach names, and the checkpoint stands there; a resumed
    // run of a completed checkpoint does nothing. `end` is where a sequential walk ends; a run
    // without a budget needs the catalog to have such a page.
    method Run(catalog: Catalog, startPage: Option<nat>, maxPages: Option<nat>, resume: bool, ghost end: nat,
               ghost view: map<Key, Row>)
      returns (stop: Stop, discovered: nat)
      requires Valid() && IsView(frontier.Table(), view)
      requires EndsAt(catalog, StartPage(startPage, resume), maxPages, end)
      modifies this`checkpoint, frontier
      ensures Valid()
      ensures startPage.None? && resume && old(checkpoint).Some? && old(checkpoint).value.completed ==>
                checkpoint == old(checkpoint) && frontier.Table() == old(frontier.Table()) && stop == Completed && discovered == 0
      ensures !(startPage.None? && resume && old(checkpoint).Some? && old(checkpoint).value.completed) ==>
                var start := if startPage.None? && resume && old(checkpoint).Some? then old(checkpoint).value.nextPage
                             else if startPage.None? || startPage == Some(0) then 1
                             else startPage.value;
                && EndsAt(catalog, start, maxPages, end)
                && var reach := Reach(catalog, start, maxPages, concurrency, end);
                && start <= reach.0
                && stop == reach.1
                && Walked(frontier.Table(), catalog, view, old(frontier.Table()), start, reach.0, discovered)
                && checkpoint == (if stop == Completed then Some(Checkpoint(reach.0, true))
                                  else if reach.0 == start then old(checkpoint)
                                  else Some(Checkpoint(reach.0, false)))
      // A resumed run never moves the checkpoint back.
      ensures startPage.None? && resume && old(checkpoint).Some? ==>
                checkpoint.Some? && old(checkpoint).value.nextPage <= checkpoint.value.nextPage
    {
      var page;
      if startPage.None? && resume {
        page := GetCheckpoint().nextPage;
        if GetCheckpoint().completed {
          return Completed, 0;
        }
      } else {
        page := if startPage.None? || startPage.value == 0 then 1 else startPage.value;
      }
      stop, discovered := RunFrom(catalog, page, maxPages, end, view);
    }

    // The loop of run.
    method RunFrom(catalog: Catalog, start: nat, maxPages: Option<nat>, ghost end: nat, ghost view: map<Key, Row>)
      returns (stop: Stop, discovered: nat)
      requires Valid() && IsView(frontier.Table(), view) && EndsAt(catalog, start, maxPages, end)
      modifies this`checkpoint, frontier
      ensures Valid()
      ensures var reach := Reach(catalog, start, maxPages, concurrency, end);
              && start <= reach.0
              && stop == reach.1
              && Walked(frontier.Table(), catalog, view, old(frontier.Table()), start, reach.0, discovered)
              && checkpoint == (if stop == Completed then Some(Checkpoint(reach.0, true))
                                else if reach.0 == start then old(checkpoint)
                                else Some(Checkpoint(reach.0, false)))
    {
      var page := start;
      discovered := 0;
      var processed := 0;
      ghost var windows := 0;
      while maxPages.None? || processed < maxPages.value
        invariant start <= page <= end && processed == page - start
        invariant page == start + Times(windows, concurrency) || (maxPages.Some? && processed == maxPages.value)
        invariant maxPages.Some? ==> processed <= maxPages.value
        invariant Walked(frontier.Table(), catalog, view, old(frontier.Table()), start, page, discovered)
        invariant checkpoint == if page == start then old(checkpoint) else Some(Checkpoint(page, false))
        decreases end - page
      {
        var width := if maxPages.None? then concurrency else Min(concurrency, maxPages.value - processed);
        ghost var from := page;
        stop, page, discovered := Round(catalog, page, width, discovered, start, maxPages, end, view, old(frontier.Table()));
        if stop.FailedAt? {
          FailedReach(catalog, start, maxPages, concurrency, end, windows, from);
          return;
        }
        processed := processed + width;
        windows := windows + 1;
        if stop.Completed? {
          CompletedReach(catalog, start, maxPages, concurrency, end);
          return;
        }
      }
      assert page == end && Reach(catalog, start, maxPages, concurrency, end) == (page, OutOfBudget);
      stop := OutOfBudget;
    }

    // One round of the loop.
    method Round(catalog: Catalog, page: nat, width: nat, discovered: nat, ghost start: nat, ghost budget: Option<nat>,
                 ghost end: nat, ghost view: map<Key, Row>, ghost before: Db)
      returns (result: Stop, next: nat, total: nat)
      requires width >= 1 && EndsAt(catalog, start, budget, end) && start <= page <= end
      requires budget.Some? ==> page + width <= start + budget.value
      requires Walked(frontier.Table(), catalog, view, before, start, page, discovered)
      modifies this`checkpoint, frontier
      ensures result == if width <= end - page then OutOfBudget else if Empty(catalog(end)) then Completed else FailedAt(end)
      ensures result.FailedAt? ==> next == page && total == discovered
      ensures result.FailedAt? ==> frontier.Table() == old(frontier.Table()) && checkpoint == old(checkpoint)
      ensures !result.FailedAt? ==> next == page + Min(width, end - page) && checkpoint == Some(Checkpoint(next, result.Completed?))
      ensures !result.FailedAt? ==> Walked(frontier.Table(), catalog, view, before, start, next, total)
    {
      var items;
      items, next, result := FetchWindow(catalog, page, width, start, budget, end);
      total := discovered;
      if result.FailedAt? {
        next := page;
        return;
      }
      WindowEnqueues(frontier.Table(), catalog, view, before, start, page, next, discovered);
      var enqueued := StoreWindow(items, next, result.Completed?);
      total := total + enqueued;
    }

    // The end of a round: enqueue, if there is anything to enqueue, and only then set_checkpoint.
    method StoreWindow(items: seq<Item>, nextPage: nat, completed: bool) returns (enqueued: nat)
      modifies this`checkpoint, frontier
      ensures frontier.Table() == Upserts(old(frontier.Table()), items)
      ensures enqueued == FrontierRepository.Taken(old(frontier.Table()), items)
      ensures checkpoint == Some(Checkpoint(nextPage, completed))
    {
      enqueued := 0;
      if items != [] {
        enqueued := frontier.Enqueue(items);
      } else {
        assert Sorted(items) == [];
      }
      checkpoint := Some(Checkpoint(nextPage, completed));
    }
  }

  // The start of a round: fetch a window and classify it. It fails as a whole, or it yields the
  // items of the pages up to the end of the walk or of the window, whichever comes first.
  method FetchWindow(catalog: Catalog, page: nat, width: nat, ghost start: nat, ghost budget: Option<nat>, ghost end: nat)
    returns (items: seq<Item>, nextPage: nat, result: Stop)
    requires width >= 1 && EndsAt(catalog, start, budget, end) && start <= page <= end
    requires budget.Some? ==> page + width <= start + budget.value
    ensures result == if width <= end - page then OutOfBudget else if Empty(catalog(end)) then Completed else FailedAt(end)
    ensures !result.FailedAt? ==> nextPage == page + Min(width, end - page) && items == ItemsOf(catalog, page, nextPage)
  {
    var pages, results := PagesOf(page, width), Fetch(catalog, page, width);
    var analysis := ClassifyWindow(pages, results);
    ghost var k := WindowMeetsEnd(catalog, page, width, end, budget, start);
    if analysis.failedPage.Some? {
      return [], page, FailedAt(analysis.failedPage.value);
    }
    PagesAreItems(catalog, page, k, analysis.meaningful, pages, results);
    items := Flatten(analysis.meaningful);
    assert k < width ==> Empty(catalog(end));
    nextPage := if analysis.terminalPage.Some? then analysis.terminalPage.value else page + width;
    result := if analysis.terminalPage.Some? then Completed else OutOfBudget;
  }

  function PagesOf(page: nat, width: nat): seq<nat> {
    seq(width, i requires 0 <= i < width => page + i)
  }

  function Fetch(catalog: Catalog, page: nat, width: nat): seq<PageResult> {
    seq(width, i requires 0 <= i < width => catalog(page + i))
  }

  // What the run has left when it has come to a page: the frontier is what it was, with the items of
  // the pages put in, in any order; and those not skipped have been counted.
  ghost predicate Walked(db: Db, catalog: Catalog, view: map<Key, Row>, before: Db, start: nat, page: nat,
                         discovered: nat)
    requires start <= page
  {
    && Keyed(db)
    && db.succeeded == before.succeeded && db.history == before.history
    && IsView(db, Puts(view, before.succeeded, ItemsOf(catalog, start, page)))
    && discovered == FrontierRepository.Taken(before, ItemsOf(catalog, start, page))
  }

  // Enqueueing the items of the next pages extends what has been enqueued by these pages.
  lemma WindowEnqueues(db: Db, catalog: Catalog, view: map<Key, Row>, before: Db, start: nat, page: nat, next: nat,
                       discovered: nat)
    requires start <= page <= next && Walked(db, catalog, view, before, start, page, discovered)
    ensures var items := ItemsOf(catalog, page, next);
            Walked(Upserts(db, items), catalog, view, before, start, next, discovered + FrontierRepository.Taken(db, items))
  {
    ItemsConcat(catalog, start, page, next);
    var items := ItemsOf(catalog, page, next);
    PutsConcat(view, db.succeeded, ItemsOf(catalog, start, page), items);
    EnqueueView(db, Puts(view, db.succeeded, ItemsOf(catalog, start, page)), items);
    FrontierRepository.TakenConcat(before, ItemsOf(catalog, start, page), items);
    FrontierRepository.TakenSame(db, before, items);
  }

  // Where the walk's end lies decides what the window looks like: `k` pages to keep, and then the
  // end, if it lies in the window.
  lemma WindowMeetsEnd(catalog: Catalog, page: nat, width: nat, end: nat, budget: Option<nat>,
                       start: nat) returns (k: nat)
    requires EndsAt(catalog, start, budget, end) && start <= page <= end && width >= 1
    requires budget.Some? ==> page + width <= start + budget.value
    ensures var pages, results := PagesOf(page, width), Fetch(catalog, page, width);
            && k == FirstStop(results) == Min(width, end - page)
            && (k < width ==> results[k] == catalog(end) && pages[k] == end)
  {
    var results := Fetch(catalog, page, width);
    k := FirstStop(results);
    if k < width {
      assert results[k] == catalog(page + k);
      assert page + k >= end;
    }
    if k > end - page {
      EndIsSeen(results, end - page);
    }
  }

  lemma PagesAreItems(catalog: Catalog, page: nat, k: nat, successes: seq<PageSuccess>, pages: seq<nat>,
                      results: seq<PageResult>)
    requires |pages| == |results| && results == Fetch(catalog, page, |results|) && ArePages(successes, k, pages, results)
    ensures Flatten(successes) == ItemsOf(catalog, page, page + k)
  {
    forall i: nat | i < k
      ensures Fetched(catalog, page, i, successes[i].items)
    {
      assert results[i] == catalog(page + i);
    }
    FlattenIsItemsOf(catalog, page, k, successes);
  }

  // No stopping result comes before the first one.
  lemma EndIsSeen(results: seq<PageResult>, i: nat)
    requires i < |results| && Stops(results[i])
    ensures FirstStop(results) <= i
  {
  }

  lemma WindowStart(window: nat, windows: nat, distance: nat)
    requires window >= 1 && Times(windows, window) <= distance < Times(windows, window) + window
    ensures window * (distance / window) == Times(windows, window)
  {
    TimesIsProduct(windows, window);
    QuotientIs(window, windows, distance);
  }

  lemma CompletedReach(catalog: Catalog, start: nat, budget: Option<nat>, window: nat, end: nat)
    requires window >= 1 && EndsAt(catalog, start, budget, end) && Empty(catalog(end))
    requires budget.Some? ==> end < start + budget.value
    ensures Reach(catalog, start, budget, window, end) == (end, Completed)
  {
  }

  // The page a run stands at when the window of the failing page is given up.
  lemma FailedReach(catalog: Catalog, start: nat, budget: Option<nat>, window: nat, end: nat, windows: nat, page: nat)
    requires window >= 1 && EndsAt(catalog, start, budget, end) && catalog(end).Failure?
    requires budget.Some? ==> end < start + budget.value
    requires page == start + Times(windows, window) && page <= end < page + window
    ensures Reach(catalog, start, budget, window, end) == (page, FailedAt(end))
  {
    WindowStart(window, windows, end - start);
  }

  lemma QuotientIs(window: nat, windows: nat, distance: nat)
    requires window >= 1 && window * windows <= distance < window * windows + window
    ensures distance / window == windows
  {
    var q, r := distance / window, distance % window;
    assert distance == window * q + r && 0 <= r < window;
    if q < windows {
      Monotone(q + 1, windows, window);
    } else if q > windows {
      Monotone(windows + 1, q, window);
    }
  }

  function Flatten(successes: seq<PageSuccess>): seq<Item> {
    if successes == [] then []
    else Flatten(successes[..|successes| - 1]) + successes[|successes| - 1].items
  }

  ghost predicate Fetched(catalog: Catalog, page: nat, i: nat, items: seq<Item>) {
    catalog(page + i) == Items(items)
  }

  lemma {:induction false} FlattenIsItemsOf(catalog: Catalog, page: nat, k: nat, successes: seq<PageSuccess>)
    requires |successes| == k
    requires forall i: nat | i < k :: Fetched(catalog, page, i, successes[i].items)
    ensures Flatten(successes) == ItemsOf(catalog, page, page + k)
  {
    if k > 0 {
      FlattenIsItemsOf(catalog, page, k - 1, successes[..k - 1]);
      assert Fetched(catalog, page, k - 1, successes[k - 1].items);
    }
  }
}
