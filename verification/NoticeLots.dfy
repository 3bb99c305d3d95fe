// The lots of a Zakup notice, collected page by page.
module NoticeLots {
  import opened Types
  import opened NoticeParser

  const PAGE_SIZE := 1000

  function Without(ids: seq<string>, gone: set<string>): seq<string> {
    if ids == [] then []
    else Without(ids[..|ids| - 1], gone) + if ids[|ids| - 1] in gone then [] else [ids[|ids| - 1]]
  }

  function IdSet(ids: seq<string>): set<string> {
    set id | id in ids
  }

  // The ids of some pages, each taken from the first page that has it.
  function Fresh(pages: seq<Page>): seq<string> {
    if pages == [] then []
    else
      var before := Fresh(pages[..|pages| - 1]);
      before + Without(pages[|pages| - 1].ids, IdSet(before))
  }

  datatype Verdict = Return | NoItems | StoppedEarly | Repeated | GoOn

  // What a round makes of the total its response reports, the number of different ids so far, and
  // the number of items it attached.
  function Decide(total: Option<int>, seen: nat, added: nat, anyNew: bool): Verdict {
    if total.Some? && seen >= total.value then Return
    else if added == 0 then if total.None? then NoItems else StoppedEarly
    else if !anyNew then Repeated
    else if total.None? && added < PAGE_SIZE then Return
    else GoOn
  }

  // The verdict of the round that fetched the last of these pages.
  function Round(pages: seq<Page>): Verdict
    requires pages != []
  {
    var last := pages[|pages| - 1];
    Decide(last.total, |IdSet(Fresh(pages))|, |last.ids|, IdSet(last.ids) - IdSet(Fresh(pages[..|pages| - 1])) != {})
  }

  ghost predicate AllGoOn(pages: seq<Page>) {
    forall n: nat | 0 < n <= |pages| :: Round(pages[..n]) == GoOn
  }

  function LotItem(id: string, now: Time): Item {
    Item(Key(ZakupSk, Lot, id), 10, false, now)
  }

  function LotRelation(notice: Key, id: string): Relation {
    Relation(ZakupSk, NoticeToLot, notice, Key(ZakupSk, Lot, id))
  }

  function LotItems(ids: seq<string>, now: Time): seq<Item> {
    seq(|ids|, i requires 0 <= i < |ids| => LotItem(ids[i], now))
  }

  function LotRelations(notice: Key, ids: seq<string>): seq<Relation> {
    seq(|ids|, i requires 0 <= i < |ids| => LotRelation(notice, ids[i]))
  }

  // ---------------------------------------------------------------- the loop

  // The notice endpoint: the response to each page, None where the request raises, and Python's str.
  datatype Server = Server(responses: nat -> Option<Json>, str: Json -> string)

  ghost predicate Answers(server: Server, p: nat, page: Page) {
    server.responses(p).Some? && page == PageOf(server.responses(p).value, server.str)
  }

  // These pages are the server's first ones.
  ghost predicate Fetched(server: Server, pages: seq<Page>) {
    forall p: nat | p < |pages| :: Answers(server, p, pages[p])
  }

  // The server never shows an id outside `universe`.
  ghost predicate Within(server: Server, universe: set<string>) {
    forall p: nat | server.responses(p).Some? :: IdSet(PageOf(server.responses(p).value, server.str).ids) <= universe
  }

  // Either the verdict that ended the loop, or the exception of a request.
  datatype Outcome = Ended(verdict: Verdict) | RequestFailed

  function ItemsBut(items: seq<Item>, ids: set<string>): seq<Item> {
    if items == [] then []
    else ItemsBut(items[..|items| - 1], ids) + if items[|items| - 1].key.id in ids then [] else [items[|items| - 1]]
  }

  function RelationsBut(relations: seq<Relation>, ids: set<string>): seq<Relation> {
    if relations == [] then []
    else RelationsBut(relations[..|relations| - 1], ids)
         + if relations[|relations| - 1].child.id in ids then [] else [relations[|relations| - 1]]
  }

  class NoticeBatch {
    var discovered: seq<Item>
    var relations: seq<Relation>

    // attach_notice_lots
    method AttachNoticeLots(notice: Key, payload: Json, str: Json -> string, now: Time)
      modifies this
      ensures discovered == old(discovered) + LotItems(PageOf(payload, str).ids, now)
      ensures relations == old(relations) + LotRelations(notice, PageOf(payload, str).ids)
    {
      var items := Items(payload);
      ghost var ids: seq<string> := [];
      for i := 0 to |items|
        invariant ids == LotIds(items[..i], str)
        invariant Collected(old(discovered), discovered, old(relations), relations, ids, notice, now)
      {
        LotIdsGrow(items, i, str);
        var id := LotId(items[i], str);
        if id.None? {
          continue;
        }
        CollectedOne(old(discovered), discovered, old(relations), relations, ids, id.value, notice, now);
        var lot := Key(ZakupSk, Lot, id.value);
        discovered := discovered + [Item(lot, 10, false, now)];
        relations := relations + [Relation(ZakupSk, NoticeToLot, notice, lot)];
        ids := ids + [id.value];
      }
      assert items[..|items|] == items;
    }

    // The part of a round that drops what earlier pages had; gives the page's ids, and how many
    // items it attached.
    method DropDuplicates(discoveredBefore: nat, relationsBefore: nat, seen: set<string>,
                          ghost items: seq<Item>, ghost links: seq<Relation>, ghost ids: seq<string>, notice: Key, now: Time)
        returns (pageIds: set<string>, added: nat)
      requires |items| == discoveredBefore && |links| == relationsBefore
      requires discovered == items + LotItems(ids, now) && relations == links + LotRelations(notice, ids)
      modifies this
      ensures pageIds == IdSet(ids) && added == |ids|
      ensures discovered == items + LotItems(Without(ids, seen), now)
      ensures relations == links + LotRelations(notice, Without(ids, seen))
    {
      var page := discovered[discoveredBefore..];
      pageIds := set item | item in page && item.key.kind == Lot :: item.key.id;
      added := |page|;
      AddedIds(page, ids, now, pageIds);
      var duplicates := pageIds * seen;
      ButIsWithout(ids, notice, now, seen, duplicates);
      if duplicates != {} {
        discovered := discovered[..discoveredBefore] + ItemsBut(page, duplicates);
        relations := relations[..relationsBefore] + RelationsBut(relations[relationsBefore..], duplicates);
      } else {
        WithoutNothing(ids, seen);
      }
    }

    // A round, from the response on, up to its verdict.
    method AttachPage(notice: Key, payload: Json, str: Json -> string, now: Time, seen: set<string>,
                      ghost ids: seq<string>, ghost items: seq<Item>, ghost links: seq<Relation>)
        returns (pageIds: set<string>, added: nat)
      requires seen == IdSet(ids) && Collected(items, discovered, links, relations, ids, notice, now)
      modifies this
      ensures pageIds == IdSet(PageOf(payload, str).ids) && added == |PageOf(payload, str).ids|
      ensures Collected(items, discovered, links, relations, ids + Without(PageOf(payload, str).ids, seen), notice, now)
    {
      ghost var itemsBefore, linksBefore := discovered, relations;
      ghost var pageOf := PageOf(payload, str).ids;
      var discoveredBefore, relationsBefore := |discovered|, |relations|;
      AttachNoticeLots(notice, payload, str, now);
      pageIds, added := DropDuplicates(discoveredBefore, relationsBefore, seen, itemsBefore, linksBefore, pageOf, notice, now);
      CollectedGrows(items, itemsBefore, links, linksBefore, ids, Without(pageOf, seen), notice, now);
    }

    // _attach_notice_lots. `universe` has every id the server ever shows; `pages` are those fetched.
    method AttachAllLots(notice: Key, server: Server, now: Time,
                         ghost universe: set<string>) returns (outcome: Outcome, ghost pages: seq<Page>)
      requires Within(server, universe)
      modifies this
      ensures Fetched(server, pages)
      ensures Collected(old(discovered), discovered, old(relations), relations, Fresh(pages), notice, now)
      ensures match outcome
              case RequestFailed => server.responses(|pages|).None? && AllGoOn(pages)
              case Ended(verdict) => EndsWith(pages, verdict) && Tells(pages, verdict)
    {
      var page: nat := 0;
      var seen: set<string> := {};
      pages := [];
      ghost var ids: seq<string>, trace := [], [[]];
      while true
        invariant page == |pages| && Fetched(server, pages) && Traced(pages, trace, ids)
        invariant seen == IdSet(ids) && seen <= universe
        invariant Collected(old(discovered), discovered, old(relations), relations, ids, notice, now)
        decreases universe - seen
      {
        var response := server.responses(page);
        if response.None? {
          TracedIsFresh(pages, trace, ids);
          return RequestFailed, pages;
        }
        ghost var fetched := PageOf(response.value, server.str);
        var pageIds, added := AttachPage(notice, response.value, server.str, now, seen, ids, old(discovered), old(relations));
        ghost var idsNow := ids + Without(fetched.ids, seen);
        FetchedGrows(server, pages, fetched);
        SeenAfter(ids, fetched.ids, seen);
        var newIds := pageIds - seen;
        seen := seen + newIds;
        var verdict := Decide(CatalogTotal(response.value), |seen|, added, newIds != {});
        if verdict != GoOn {
          LastRound(pages, trace, ids, fetched, idsNow);
          return Ended(verdict), pages + [fetched];
        }
        TraceGrows(pages, trace, ids, fetched, idsNow);
        pages, trace, ids, page := pages + [fetched], trace + [idsNow], idsNow, page + 1;
      }
    }
  }

  // The batch has gained these ids, as discovered lots and as relations, in one order.
  ghost predicate Collected(items: seq<Item>, itemsNow: seq<Item>, links: seq<Relation>, linksNow: seq<Relation>,
                            ids: seq<string>, notice: Key, now: Time) {
    itemsNow == items + LotItems(ids, now) && linksNow == links + LotRelations(notice, ids)
  }

  lemma CollectedOne(items0: seq<Item>, items: seq<Item>, links0: seq<Relation>, links: seq<Relation>,
                     ids: seq<string>, id: string, notice: Key, now: Time)
    requires Collected(items0, items, links0, links, ids, notice, now)
    ensures Collected(items0, items + [LotItem(id, now)], links0, links + [LotRelation(notice, id)], ids + [id], notice, now)
  {
  }

  lemma LotIdsGrow(items: seq<Json>, i: nat, str: Json -> string)
    requires i < |items|
    ensures LotIds(items[..i + 1], str)
            == LotIds(items[..i], str) + if LotId(items[i], str).Some? then [LotId(items[i], str).value] else []
  {
    assert items[..i + 1][..i] == items[..i];
  }

  lemma CollectedGrows(items0: seq<Item>, items: seq<Item>, links0: seq<Relation>, links: seq<Relation>,
                       ids: seq<string>, more: seq<string>, notice: Key, now: Time)
    requires Collected(items0, items, links0, links, ids, notice, now)
    ensures Collected(items0, items + LotItems(more, now), links0, links + LotRelations(notice, more), ids + more, notice, now)
  {
    LotsConcat(ids, more, notice, now);
  }

  lemma FetchedGrows(server: Server, pages: seq<Page>, page: Page)
    requires Fetched(server, pages) && Answers(server, |pages|, page)
    ensures Fetched(server, pages + [page])
  {
  }

  // The last of these pages is the first one that does not let the loop go on.
  ghost predicate EndsWith(pages: seq<Page>, verdict: Verdict) {
    pages != [] && verdict == Round(pages) != GoOn && AllGoOn(pages[..|pages| - 1])
  }

  // What was collected before each page, and finally; every page let the loop go on.
  ghost predicate Traced(pages: seq<Page>, trace: seq<seq<string>>, ids: seq<string>) {
    && |trace| == |pages| + 1 && trace[0] == [] && trace[|pages|] == ids
    && (forall p: nat | p < |pages| :: GoesOn(pages[p], trace[p], trace[p + 1]))
  }

  ghost predicate GoesOn(page: Page, before: seq<string>, after: seq<string>) {
    after == before + Without(page.ids, IdSet(before)) && Judged(page, before, after) == GoOn
  }

  function Judged(page: Page, before: seq<string>, after: seq<string>): Verdict {
    Decide(page.total, |IdSet(after)|, |page.ids|, IdSet(page.ids) - IdSet(before) != {})
  }

  lemma SeenAfter(ids: seq<string>, pageIds: seq<string>, seen: set<string>)
    requires seen == IdSet(ids)
    ensures IdSet(ids + Without(pageIds, seen)) == seen + (IdSet(pageIds) - seen)
  {
    forall id
      ensures id in IdSet(ids + Without(pageIds, seen)) <==> id in seen + IdSet(pageIds)
    {
      WithoutHas(pageIds, seen, id);
    }
  }

  lemma TraceGrows(pages: seq<Page>, trace: seq<seq<string>>, ids: seq<string>, page: Page, idsNow: seq<string>)
    requires Traced(pages, trace, ids) && idsNow == ids + Without(page.ids, IdSet(ids)) && Judged(page, ids, idsNow) == GoOn
    ensures Traced(pages + [page], trace + [idsNow], idsNow)
  {
  }

  lemma {:induction false} TracedIsFresh(pages: seq<Page>, trace: seq<seq<string>>, ids: seq<string>)
    requires Traced(pages, trace, ids)
    ensures Fresh(pages) == ids && AllGoOn(pages)
  {
    if pages == [] {
    } else {
      var n := |pages| - 1;
      TracedIsFresh(pages[..n], trace[..n + 1], trace[n]);
      assert pages == pages[..n] + [pages[n]];
      assert Round(pages) == GoOn;
      StillGoOn(pages[..n], pages[n]);
    }
  }

  lemma LastRound(pages: seq<Page>, trace: seq<seq<string>>, ids: seq<string>, page: Page, idsNow: seq<string>)
    requires Traced(pages, trace, ids) && idsNow == ids + Without(page.ids, IdSet(ids)) && Judged(page, ids, idsNow) != GoOn
    ensures Fresh(pages + [page]) == idsNow
    ensures EndsWith(pages + [page], Judged(page, ids, idsNow)) && Tells(pages + [page], Judged(page, ids, idsNow))
  {
    TracedIsFresh(pages, trace, ids);
    RoundTells(pages + [page]);
    assert (pages + [page])[..|pages|] == pages;
  }

  lemma LotsConcat(a: seq<string>, b: seq<string>, notice: Key, now: Time)
    ensures LotItems(a + b, now) == LotItems(a, now) + LotItems(b, now)
    ensures LotRelations(notice, a + b) == LotRelations(notice, a) + LotRelations(notice, b)
  {
  }

  lemma AddedIds(added: seq<Item>, ids: seq<string>, now: Time, pageIds: set<string>)
    requires added == LotItems(ids, now) && pageIds == set item | item in added && item.key.kind == Lot :: item.key.id
    ensures pageIds == IdSet(ids)
  {
    forall id | id in ids
      ensures id in pageIds
    {
      var i :| 0 <= i < |ids| && ids[i] == id;
      assert added[i] == LotItem(id, now);
    }
  }

  lemma {:induction false} WithoutNothing(ids: seq<string>, gone: set<string>)
    requires IdSet(ids) * gone == {}
    ensures Without(ids, gone) == ids
  {
    if ids != [] {
      var front, last := ids[..|ids| - 1], ids[|ids| - 1];
      assert ids == front + [last];
      assert last in IdSet(ids) && last !in IdSet(ids) * gone;
      assert IdSet(front) <= IdSet(ids);
      assert IdSet(front) * gone <= IdSet(ids) * gone;
      WithoutNothing(front, gone);
    }
  }

  // Dropping the page's duplicates is dropping whatever was seen.
  lemma {:induction false} ButIsWithout(ids: seq<string>, notice: Key, now: Time, seen: set<string>,
                                        duplicates: set<string>)
    requires forall id | id in ids :: id in duplicates <==> id in seen
    ensures ItemsBut(LotItems(ids, now), duplicates) == LotItems(Without(ids, seen), now)
    ensures RelationsBut(LotRelations(notice, ids), duplicates) == LotRelations(notice, Without(ids, seen))
  {
    if ids != [] {
      var front, last := ids[..|ids| - 1], ids[|ids| - 1];
      assert last in ids && ids == front + [last];
      ButIsWithout(front, notice, now, seen, duplicates);
      assert LotItems(ids, now)[..|ids| - 1] == LotItems(front, now);
      assert LotRelations(notice, ids)[..|ids| - 1] == LotRelations(notice, front);
    }
  }

  lemma {:induction false} WithoutHas(ids: seq<string>, gone: set<string>, id: string)
    ensures id in Without(ids, gone) <==> id in ids && id !in gone
    ensures multiset(Without(ids, gone))[id] == if id in gone then 0 else multiset(ids)[id]
  {
    if ids != [] {
      var front, last := ids[..|ids| - 1], ids[|ids| - 1];
      assert ids == front + [last];
      WithoutHas(front, gone, id);
    }
  }

  lemma StillGoOn(pages: seq<Page>, page: Page)
    requires AllGoOn(pages) && Round(pages + [page]) == GoOn
    ensures AllGoOn(pages + [page])
  {
    var all := pages + [page];
    forall n: nat | 0 < n <= |all|
      ensures Round(all[..n]) == GoOn
    {
      if n == |all| {
        assert all[..n] == all;
      } else {
        assert all[..n] == pages[..n];
      }
    }
  }

  // ---------------------------------------------------------------- what the loop collects

  ghost predicate Shown(pages: seq<Page>, id: string) {
    exists p: nat :: p < |pages| && id in pages[p].ids
  }

  lemma ShownBySplit(pages: seq<Page>, page: Page, id: string)
    ensures Shown(pages + [page], id) <==> Shown(pages, id) || id in page.ids
  {
    var all := pages + [page];
    if Shown(all, id) && id !in page.ids {
      var p: nat :| p < |all| && id in all[p].ids;
      assert pages[p] == all[p];
    }
    if Shown(pages, id) {
      var p: nat :| p < |pages| && id in pages[p].ids;
      assert all[p] == pages[p];
    }
    assert all[|pages|] == page;
  }

  // Every id the pages show is collected, and nothing else.
  lemma {:induction false} CollectsEveryId(pages: seq<Page>, id: string)
    ensures id in Fresh(pages) <==> Shown(pages, id)
  {
    if pages != [] {
      var front, last := pages[..|pages| - 1], pages[|pages| - 1];
      assert pages == front + [last];
      CollectsEveryId(front, id);
      ShownBySplit(front, last, id);
      WithoutHas(last.ids, IdSet(Fresh(front)), id);
    }
  }

  // An id is collected from the first page that shows it, as often as that page does, and from no
  // page after it.
  lemma {:induction false} CollectsFromOnePage(pages: seq<Page>, p: nat, id: string)
    requires p < |pages| && id in pages[p].ids && !Shown(pages[..p], id)
    ensures multiset(Fresh(pages))[id] == multiset(pages[p].ids)[id]
  {
    var front, last := pages[..|pages| - 1], pages[|pages| - 1];
    WithoutHas(last.ids, IdSet(Fresh(front)), id);
    CollectsEveryId(front, id);
    if p < |front| {
      assert front[..p] == pages[..p] && front[p] == pages[p];
      CollectsFromOnePage(front, p, id);
      assert Shown(front, id);
    } else {
      assert front == pages[..p];
      assert multiset(Fresh(front))[id] == 0;
    }
  }

  predicate NoRepeats(ids: seq<string>) {
    forall i: nat, j: nat | i < j < |ids| :: ids[i] != ids[j]
  }

  // What a page adds to the pages before it.
  function NewOn(pages: seq<Page>, p: nat): seq<string>
    requires p < |pages|
  {
    Without(pages[p].ids, IdSet(Fresh(pages[..p])))
  }

  lemma NewOnPrefix(front: seq<Page>, last: Page)
    ensures forall p: nat | p < |front| :: NewOn(front + [last], p) == NewOn(front, p)
    ensures NewOn(front + [last], |front|) == Without(last.ids, IdSet(Fresh(front)))
  {
    forall p: nat | p <= |front|
      ensures (front + [last])[..p] == front[..p]
    {
    }
    assert front[..|front|] == front;
  }

  // No lot is collected twice just when no page repeats an id that is new on it: across pages
  // repeats are removed, within a page they are not.
  lemma {:induction false} CollectsOnceIff(pages: seq<Page>)
    ensures NoRepeats(Fresh(pages)) <==> forall p: nat | p < |pages| :: NoRepeats(NewOn(pages, p))
  {
    if pages != [] {
      var front, last := pages[..|pages| - 1], pages[|pages| - 1];
      CollectsOnceIff(front);
      NewOnPrefix(front, last);
      assert front + [last] == pages;
      var added := Without(last.ids, IdSet(Fresh(front)));
      forall id | id in added
        ensures id !in Fresh(front)
      {
        WithoutHas(last.ids, IdSet(Fresh(front)), id);
      }
      ConcatNoRepeats(Fresh(front), added);
    }
  }

  lemma ConcatNoRepeats(a: seq<string>, b: seq<string>)
    requires forall id | id in b :: id !in a
    ensures NoRepeats(a + b) <==> NoRepeats(a) && NoRepeats(b)
  {
    var c := a + b;
    if NoRepeats(c) {
      forall i: nat, j: nat | i < j < |a|
        ensures a[i] != a[j]
      {
        assert c[i] == a[i] && c[j] == a[j];
      }
      forall i: nat, j: nat | i < j < |b|
        ensures b[i] != b[j]
      {
        assert c[|a| + i] == b[i] && c[|a| + j] == b[j];
      }
    }
    if NoRepeats(a) && NoRepeats(b) {
      forall i: nat, j: nat | i < j < |c|
        ensures c[i] != c[j]
      {
        if i < |a| <= j {
          assert c[j] == b[j - |a|] && c[j] in b && c[i] == a[i];
        }
      }
    }
  }

  // ---------------------------------------------------------------- how the loop ends

  ghost function ShownIds(pages: seq<Page>): set<string> {
    set p, id | 0 <= p < |pages| && id in pages[p].ids :: id
  }

  // The last response reports a total, and the pages have shown that many different ids.
  ghost predicate TotalReached(pages: seq<Page>)
    requires pages != []
  {
    pages[|pages| - 1].total.Some? && |ShownIds(pages)| >= pages[|pages| - 1].total.value
  }

  // The last page shows an id that no page before it did.
  ghost predicate ShowsNew(pages: seq<Page>)
    requires pages != []
  {
    var front, last := pages[..|pages| - 1], pages[|pages| - 1];
    exists id :: id in last.ids && !Shown(front, id)
  }

  // What each verdict on the last page means.
  ghost predicate Tells(pages: seq<Page>, verdict: Verdict)
    requires pages != []
  {
    var last := pages[|pages| - 1];
    && (verdict == Return <==> TotalReached(pages) || (last.total.None? && 0 < |last.ids| < 1000 && ShowsNew(pages)))
    && (verdict == NoItems <==> last.total.None? && last.ids == [])
    && (verdict == StoppedEarly <==> last.total.Some? && !TotalReached(pages) && last.ids == [])
    && (verdict == Repeated <==> !TotalReached(pages) && last.ids != [] && !ShowsNew(pages))
    && (verdict == GoOn <==> !TotalReached(pages) && ShowsNew(pages) && (last.total.Some? || |last.ids| >= 1000))
  }

  lemma FreshIsShown(pages: seq<Page>)
    ensures IdSet(Fresh(pages)) == ShownIds(pages)
  {
    forall id
      ensures id in Fresh(pages) <==> id in ShownIds(pages)
    {
      CollectsEveryId(pages, id);
      if Shown(pages, id) {
        var p: nat :| p < |pages| && id in pages[p].ids;
      }
    }
  }

  // The loop returns when the total of the last response is reached, or when it reports none and the
  // page is neither empty nor full and shows something new; each error has its condition, too.
  lemma RoundTells(pages: seq<Page>)
    requires pages != []
    ensures Tells(pages, Round(pages))
  {
    var front, last := pages[..|pages| - 1], pages[|pages| - 1];
    FreshIsShown(pages);
    forall id
      ensures id in Fresh(front) <==> Shown(front, id)
    {
      CollectsEveryId(front, id);
    }
    assert ShowsNew(pages) <==> IdSet(last.ids) - IdSet(Fresh(front)) != {} by {
      if id :| id in last.ids && !Shown(front, id) {
        assert id in IdSet(last.ids) - IdSet(Fresh(front));
      }
      if IdSet(last.ids) - IdSet(Fresh(front)) != {} {
        var id :| id in IdSet(last.ids) - IdSet(Fresh(front));
        assert id in last.ids && !Shown(front, id);
      }
    }
    if last.ids != [] {
      assert last.ids[0] in last.ids;
    }
  }

  // It goes on from a page just when this shows a new id and is full, or reports a total not reached.
  lemma AllGoOnIff(pages: seq<Page>)
    ensures AllGoOn(pages) <==>
            forall n: nat | 0 < n <= |pages| ::
              && ShowsNew(pages[..n])
              && if pages[n - 1].total.Some? then |ShownIds(pages[..n])| < pages[n - 1].total.value
                 else |pages[n - 1].ids| >= 1000
  {
    forall n: nat | 0 < n <= |pages|
      ensures Tells(pages[..n], Round(pages[..n])) && pages[..n][n - 1] == pages[n - 1]
    {
      RoundTells(pages[..n]);
    }
  }
}
