/** Reading every page of an unchanging annotation store by following its cursors. */
module AnnotationPages {
  import opened Annotations

  /** Every annotation made here has a non-empty identifier. */
  ghost predicate Pageable(items: seq<Annotation>) {
    && (forall i | 0 <= i < |items| :: items[i].id != 0)
    && (forall i, j | 0 <= i < j < |items| :: items[i].id != items[j].id)
  }

  /** A page holds what was asked for, and a hundred when that is not between one and a hundred. */
  lemma PageSize(items: seq<Annotation>, start: nat, limit: int, revision: int)
    requires start <= |items|
    ensures var size := if 1 <= limit <= 100 then limit else 100;
            var page := PageFrom(items, start, limit, revision);
            && |page.items| == (if |items| - start < size then |items| - start else size)
            && page.items == items[start..start + |page.items|]
            && page.total == |items| && page.globalRevision == revision
  {
  }

  /** The cursor of a page leads to the item after it, and is absent exactly on the last page. */
  lemma CursorLeadsOn(items: seq<Annotation>, start: nat, limit: int, revision: int)
    requires Pageable(items) && start <= |items|
    ensures var next := PageFrom(items, start, limit, revision).nextCursor;
            && (next != 0 <==> start + PageLimit(limit) < |items|)
            && (next != 0 ==> StartAt(items, next) == start + PageLimit(limit))
  {
    var next := PageFrom(items, start, limit, revision).nextCursor;
    if next != 0 {
      var last: nat := start + PageLimit(limit) - 1;
      assert items[last].id == next;
      StartAtMeans(items, next);
      var found := StartAt(items, next);
      if found > 0 {
        assert items[found - 1].id == items[last].id;
      }
    }
  }

  function AllItems(pages: seq<Page>): seq<Annotation> {
    if pages == [] then [] else pages[0].items + AllItems(pages[1..])
  }

  /** The pages from an index on, without cursors. */
  function PagesFrom(items: seq<Annotation>, start: nat, limit: int, revision: int): (pages: seq<Page>)
    requires start <= |items|
    ensures pages != []
    decreases |items| - start
  {
    [PageFrom(items, start, limit, revision)]
    + if start + PageLimit(limit) < |items| then PagesFrom(items, start + PageLimit(limit), limit, revision) else []
  }

  /** What a reader sees who goes on at `start` and follows every next cursor to the end. */
  ghost predicate IsReading(items: seq<Annotation>, start: nat, limit: int, revision: int, pages: seq<Page>)
    requires start <= |items|
    decreases |pages|
  {
    && pages != [] && pages[0] == PageFrom(items, start, limit, revision)
    && (if pages[0].nextCursor == 0 then pages[1..] == []
        else IsReading(items, StartAt(items, pages[0].nextCursor), limit, revision, pages[1..]))
  }

  lemma PagesFromSplits(items: seq<Annotation>, start: nat, limit: int, revision: int)
    requires start <= |items|
    ensures var pages := PagesFrom(items, start, limit, revision);
            && pages[0] == PageFrom(items, start, limit, revision)
            && pages[1..] == if start + PageLimit(limit) < |items|
                             then PagesFrom(items, start + PageLimit(limit), limit, revision) else []
  {
  }

  lemma SameFirstAndRest(xs: seq<Page>, ys: seq<Page>)
    requires xs != [] && ys != [] && xs[0] == ys[0] && xs[1..] == ys[1..]
    ensures xs == ys
  {
    assert xs == [xs[0]] + xs[1..] && ys == [ys[0]] + ys[1..];
  }

  /** There is one way to go on: by index. */
  lemma {:induction false} ReadingIsCounting(items: seq<Annotation>, start: nat, limit: int, revision: int,
                                             pages: seq<Page>)
    requires Pageable(items) && start <= |items| && IsReading(items, start, limit, revision, pages)
    ensures pages == PagesFrom(items, start, limit, revision)
    decreases |pages|
  {
    CursorLeadsOn(items, start, limit, revision);
    PagesFromSplits(items, start, limit, revision);
    if pages[0].nextCursor != 0 {
      ReadingIsCounting(items, start + PageLimit(limit), limit, revision, pages[1..]);
    }
    SameFirstAndRest(pages, PagesFrom(items, start, limit, revision));
  }

  /** And going on by index follows the cursors, so the reading ends. */
  lemma {:induction false} CountingIsReading(items: seq<Annotation>, start: nat, limit: int, revision: int)
    requires Pageable(items) && start <= |items|
    ensures IsReading(items, start, limit, revision, PagesFrom(items, start, limit, revision))
    decreases |items| - start
  {
    CursorLeadsOn(items, start, limit, revision);
    PagesFromSplits(items, start, limit, revision);
    if start + PageLimit(limit) < |items| {
      CountingIsReading(items, start + PageLimit(limit), limit, revision);
    }
  }

  /** The smallest number of pages, and at least one. */
  predicate Enough(pages: nat, items: nat, limit: nat) {
    items <= pages * limit && (pages == 1 || (pages > 1 && items > (pages - 1) * limit))
  }

  lemma {:induction false} PagesHoldTheRest(items: seq<Annotation>, start: nat, limit: int, revision: int)
    requires start <= |items|
    ensures AllItems(PagesFrom(items, start, limit, revision)) == items[start..]
    decreases |items| - start
  {
    var end := start + PageLimit(limit);
    var pages := PagesFrom(items, start, limit, revision);
    if end < |items| {
      PagesHoldTheRest(items, end, limit, revision);
      assert pages[1..] == PagesFrom(items, end, limit, revision);
      Split(items, start, end);
    } else {
      assert pages[1..] == [];
      Split(items, start, |items|);
    }
  }

  lemma Split(items: seq<Annotation>, a: nat, b: nat)
    requires a <= b <= |items|
    ensures items[a..] == items[a..b] + items[b..]
  {
  }

  lemma {:induction false} PagesAreFew(items: seq<Annotation>, start: nat, limit: int, revision: int)
    requires start <= |items|
    ensures Enough(|PagesFrom(items, start, limit, revision)|, |items| - start, PageLimit(limit))
    decreases |items| - start
  {
    var end := start + PageLimit(limit);
    if end < |items| {
      PagesAreFew(items, end, limit, revision);
      OnePageMore(|PagesFrom(items, end, limit, revision)|, |items| - start, PageLimit(limit));
    }
  }

  lemma OnePageMore(pages: nat, items: nat, limit: nat)
    requires items > limit && Enough(pages, items - limit, limit)
    ensures Enough(pages + 1, items, limit)
  {
    assert (pages + 1) * limit == pages * limit + limit;
    if pages > 1 { assert (pages - 1) * limit + limit == pages * limit; }
  }

  /**
  With no writes in between, following the cursors from the empty one ends, and visits every wanted annotation
  once, in ascending global revision, in as few pages as hold them all.
  */
  lemma PagesVisitEveryItemOnce(items: seq<Annotation>, rows: map<Name, Annotation>, snapshot: Name, limit: int,
                                revision: int)
    requires IsListing(items, rows, snapshot) && 0 !in rows
    ensures exists pages :: IsReading(items, 0, limit, revision, pages)
    ensures forall pages | IsReading(items, 0, limit, revision, pages) ::
              AllItems(pages) == items && Enough(|pages|, |items|, PageLimit(limit))
  {
    forall i | 0 <= i < |items| ensures items[i].id != 0 {
      assert items[i] in items;
    }
    CountingIsReading(items, 0, limit, revision);
    assert IsReading(items, 0, limit, revision, PagesFrom(items, 0, limit, revision));
    PagesHoldTheRest(items, 0, limit, revision);
    PagesAreFew(items, 0, limit, revision);
    forall pages | IsReading(items, 0, limit, revision, pages)
      ensures AllItems(pages) == items && Enough(|pages|, |items|, PageLimit(limit))
    {
      ReadingIsCounting(items, 0, limit, revision, pages);
    }
  }
}
