/**
The journalled walk over a paginated list (collectRepository in internal/investigation/core/collect.go,
githubWalk in internal/investigation/collect/client.go).  Every page is committed to the journal
before the next one is requested, so a walk that stops anywhere is resumed from its journal.
*/
module PageWalks {
  import opened Wrappers

  type Url = nat

  /** An item with no readable update time never ends the walk. */
  datatype Item = Item(id: nat, updatedAt: Option<int>)

  datatype Page = Page(items: seq<Item>, next: Option<Url>)

  /** What the provider answers, unchanged while the walk lasts; a URL it does not know is an error. */
  type Server = map<Url, Page>

  datatype Journal = Journal(items: seq<Item>, cursor: Option<Url>, pages: nat, complete: bool)

  const MAX_PAGES := 20

  const FRESH := Journal([], None, 0, false)

  /** What happens around one request. */
  datatype Outcome =
    | Fine
    | RequestFails     // also a crash before the page is committed
    | PutFails
    | StopsAfterPut    // checkpoint, audit or transfer budget fails, or a crash right after the put

  datatype Ending = Done | Failed | Exhausted

  // ----- The chain of pages -----

  predicate ReachesCutoff(items: seq<Item>, cutoff: Option<int>) {
    cutoff.Some? && exists i :: 0 <= i < |items| && items[i].updatedAt.Some? && items[i].updatedAt.value < cutoff.value
  }

  /** The page after this one; none after the page that reaches the cutoff. */
  function NextOf(page: Page, cutoff: Option<int>): Option<Url> {
    if ReachesCutoff(page.items, cutoff) then None else page.next
  }

  /** A walk: where it starts and where it may stop. */
  datatype Walk = Walk(server: Server, first: Url, cutoff: Option<int>) {

    /** The URL of page number n, counted from zero. */
    function Url(n: nat): Option<Url> {
      if n == 0 then Some(first)
      else
        var before := Url(n - 1);
        if before.None? || before.value !in server then None else NextOf(server[before.value], cutoff)
    }

    predicate HasPage(n: nat) {
      Url(n).Some? && Url(n).value in server
    }

    /** The items of the first n pages, each page once and in order. */
    function Items(n: nat): seq<Item> {
      if n == 0 then []
      else Items(n - 1) + if HasPage(n - 1) then server[Url(n - 1).value].items else []
    }

    ghost predicate Holds(j: Journal) {
      && j.pages <= MAX_PAGES
      && (forall i: nat | i < j.pages :: HasPage(i))
      && j.items == Items(j.pages)
      && j.cursor == (if j.pages == 0 then None else Url(j.pages))
      && (j.complete <==> j.pages > 0 && Url(j.pages).None?)
    }

    lemma {:induction false} NoPageAfterTheEnd(n: nat, m: nat)
      requires n <= m && Url(n).None?
      ensures Url(m).None?
    {
      if n < m { NoPageAfterTheEnd(n, m - 1); }
    }

    lemma EndIsLast(j: Journal, k: Journal)
      requires Holds(j) && Holds(k) && j.complete
      ensures k.pages <= j.pages
    {
      if j.pages < k.pages {
        var last: nat := k.pages - 1;
        assert HasPage(last);
        NoPageAfterTheEnd(j.pages, last);
        assert false;
      }
    }

    /** However it was interrupted, a journal is determined by its page count. */
    lemma JournalIsDetermined(j: Journal, k: Journal)
      requires Holds(j) && Holds(k)
      ensures j.pages == k.pages ==> j == k
      ensures j.complete && k.complete ==> j == k
      ensures j.complete ==> k.pages <= j.pages && k.items <= j.items
    {
      if j.complete { EndIsLast(j, k); }
      if k.complete { EndIsLast(k, j); }
      if k.pages <= j.pages { ItemsGrow(k.pages, j.pages); }
    }

    lemma {:induction false} ItemsGrow(n: nat, m: nat)
      requires n <= m
      ensures Items(n) <= Items(m)
    {
      if n < m { ItemsGrow(n, m - 1); }
    }

    /** A chain of more than twenty pages is never complete. */
    lemma LongChainStaysIncomplete(j: Journal)
      requires Holds(j) && Url(20).Some?
      ensures !j.complete
    {
      if j.complete { NoPageAfterTheEnd(j.pages, MAX_PAGES); }
    }

    predicate OlderItem(items: seq<Item>) {
      && cutoff.Some?
      && exists i :: 0 <= i < |items| && items[i].updatedAt.Some? && items[i].updatedAt.value < cutoff.value
    }

    /**
    A complete journal ends at the last page of the chain, or at the first page with an item older than the
    cutoff, and holds every item up to there.
    */
    lemma CompleteMeansTheEnd(j: Journal)
      requires Holds(j) && j.complete
      ensures j.pages <= 20 && HasPage(j.pages - 1)
      ensures var last := server[Url(j.pages - 1).value]; last.next.None? || OlderItem(last.items)
      ensures forall i: nat | i < j.pages - 1 ::
                HasPage(i) && !OlderItem(server[Url(i).value].items) && Url(i + 1) == server[Url(i).value].next
      ensures forall i: nat, item | i < j.pages && HasPage(i) && item in server[Url(i).value].items :: item in j.items
    {
      forall i: nat | i < j.pages - 1
        ensures HasPage(i) && !OlderItem(server[Url(i).value].items) && Url(i + 1) == server[Url(i).value].next
      {
        assert HasPage(i + 1);
      }
      forall i: nat, item | i < j.pages && HasPage(i) && item in server[Url(i).value].items ensures item in j.items {
        ItemsGrow(i + 1, j.pages);
        assert item in Items(i + 1);
      }
    }
  }

  // ----- Walking -----

  /** The stored journal of one walk. */
  class Store {
    var journal: Option<Journal>
    const walk: Walk

    constructor (walk: Walk)
      ensures journal == None && this.walk == walk && Valid()
    {
      this.walk := walk;
      journal := None;
    }

    ghost predicate Valid()
      reads this
    {
      journal.Some? ==> walk.Holds(journal.value)
    }

    function Stored(): Journal
      reads this
    {
      if journal.Some? then journal.value else FRESH
    }

    /** One session: resumes from the journal and walks until the end, an error or the page limit. */
    method Run(outcomes: seq<Outcome>) returns (ending: Ending, requests: nat)
      requires Valid() && |outcomes| >= MAX_PAGES
      modifies this`journal
      ensures Valid() && old(Stored()).pages <= Stored().pages && requests <= 20
      ensures forall i | 0 <= i < requests - 1 :: outcomes[i] == Fine
      ensures ending.Done? ==> Stored().complete
      ensures ending.Exhausted? ==> !Stored().complete && Stored().pages == 20
      ensures ending.Failed? ==> 0 < requests && (outcomes[requests - 1] != Fine || !walk.HasPage(Stored().pages))
      ensures var newPages := Stored().pages - old(Stored()).pages;
              newPages == requests
              || (ending.Failed? && newPages == requests - 1 && outcomes[requests - 1] != StopsAfterPut)
              || (ending.Failed? && newPages == requests - 1 && !walk.HasPage(Stored().pages))
    {
      var j := Stored();
      requests := 0;
      if j.complete || j.pages >= MAX_PAGES {
        ending := if j.complete then Done else Exhausted;
        return;
      }
      var limit := MAX_PAGES - j.pages;
      var u := if j.cursor.Some? then j.cursor else Some(walk.first);
      while u.Some? && requests < limit
        invariant walk.Holds(j) && j == Stored() && Valid()
        invariant requests == j.pages - old(Stored()).pages <= limit
        invariant u == walk.Url(j.pages)
        invariant forall i | 0 <= i < requests :: outcomes[i] == Fine
        decreases limit - requests
      {
        var outcome := outcomes[requests];
        requests := requests + 1;
        if outcome.RequestFails? || u.value !in walk.server {
          assert !walk.HasPage(j.pages) || outcome != Fine;
          return Failed, requests;
        }
        var page := walk.server[u.value];
        var next := NextOf(page, walk.cutoff);
        if outcome.PutFails? {
          return Failed, requests;
        }
        assert walk.HasPage(j.pages);
        j := Journal(j.items + page.items, next, j.pages + 1, next.None?);
        journal := Some(j);
        if outcome.StopsAfterPut? {
          return Failed, requests;
        }
        u := next;
      }
      ending := if j.complete then Done else Exhausted;
    }
  }

  // ----- The open walk and the bounded walk together -----

  predicate SeenIn(items: seq<Item>, id: nat) {
    id != 0 && exists i :: 0 <= i < |items| && items[i].id == id
  }

  function Unseen(bounded: seq<Item>, open: seq<Item>): seq<Item> {
    if open == [] then []
    else (if SeenIn(bounded, open[0].id) then [] else [open[0]]) + Unseen(bounded, open[1..])
  }

  /** The bounded walk is newer: its version of an item wins. An item without an ID is always kept. */
  method Merge(bounded: seq<Item>, open: seq<Item>) returns (items: seq<Item>)
    ensures items == bounded + Unseen(bounded, open)
    ensures bounded <= items
    ensures forall item :: item in items <==>
      item in bounded || (item in open && (item.id == 0 || forall b | b in bounded :: b.id != item.id))
  {
    items := bounded;
    var seen: set<nat> := {};
    for i := 0 to |bounded|
      invariant forall id :: id in seen <==> SeenIn(bounded[..i], id)
    {
      assert bounded[..i + 1] == bounded[..i] + [bounded[i]];
      forall id ensures SeenIn(bounded[..i + 1], id) <==> SeenIn(bounded[..i], id) || (id != 0 && id == bounded[i].id) {
        if id == bounded[i].id && id != 0 { assert bounded[..i + 1][i].id == id; }
        if SeenIn(bounded[..i], id) {
          var k :| 0 <= k < i && bounded[..i][k].id == id;
          assert bounded[..i + 1][k].id == id;
        }
      }
      if bounded[i].id != 0 {
        seen := seen + {bounded[i].id};
      }
    }
    assert bounded[..|bounded|] == bounded;
    for i := 0 to |open|
      invariant items + Unseen(bounded, open[i..]) == bounded + Unseen(bounded, open)
    {
      assert open[i..][1..] == open[i + 1..];
      if open[i].id == 0 || open[i].id !in seen {
        items := items + [open[i]];
      }
    }
    assert items == bounded + Unseen(bounded, open);
    forall item ensures item in items <==>
      item in bounded || (item in open && (item.id == 0 || forall b | b in bounded :: b.id != item.id))
    {
      UnseenIs(bounded, open, item);
      SeenMeans(bounded, item.id);
    }
  }

  lemma SeenMeans(items: seq<Item>, id: nat)
    ensures SeenIn(items, id) <==> id != 0 && exists b | b in items :: b.id == id
  {
    if id != 0 && exists b | b in items :: b.id == id {
      var b :| b in items && b.id == id;
      var i :| 0 <= i < |items| && items[i] == b;
      assert items[i].id == id;
    }
  }

  lemma {:induction false} UnseenIs(bounded: seq<Item>, open: seq<Item>, item: Item)
    ensures item in Unseen(bounded, open) <==> item in open && !SeenIn(bounded, item.id)
  {
    if open != [] { UnseenIs(bounded, open[1..], item); }
  }

  predicate DistinctIds(items: seq<Item>) {
    forall i, j :: 0 <= i < j < |items| && items[i].id == items[j].id ==> items[i].id == 0
  }

  /**
  Nothing either walk saw is lost, an item seen by both is counted once, and each identifier is counted once
  exactly when neither walk repeats one by itself: repeats inside the open walk are not looked for.
  */
  lemma {:induction false} MergeCountsOnce(bounded: seq<Item>, open: seq<Item>)
    ensures forall item :: item in bounded + Unseen(bounded, open) <==>
                           item in bounded || (item in open && !SeenIn(bounded, item.id))
    ensures forall id | SeenIn(bounded, id) || SeenIn(open, id) :: SeenIn(bounded + Unseen(bounded, open), id)
    ensures DistinctIds(bounded + Unseen(bounded, open)) <==> DistinctIds(bounded) && DistinctIds(Unseen(bounded, open))
    ensures DistinctIds(open) ==> DistinctIds(Unseen(bounded, open))
  {
    var rest := Unseen(bounded, open);
    var merged := bounded + rest;
    forall item ensures item in merged <==> item in bounded || (item in open && !SeenIn(bounded, item.id)) {
      UnseenIs(bounded, open, item);
    }
    forall id | SeenIn(bounded, id) || SeenIn(open, id) ensures SeenIn(merged, id) {
      MergedIsSeen(bounded, open, id);
    }
    if DistinctIds(open) { UnseenDistinct(bounded, open); }
    forall i, j | 0 <= i < |bounded| && 0 <= j < |rest| && bounded[i].id == rest[j].id ensures rest[j].id == 0 {
      assert rest[j] in rest;
      UnseenIs(bounded, open, rest[j]);
    }
    DistinctParts(bounded, rest);
  }

  lemma MergedIsSeen(bounded: seq<Item>, open: seq<Item>, id: nat)
    requires SeenIn(bounded, id) || SeenIn(open, id)
    ensures SeenIn(bounded + Unseen(bounded, open), id)
  {
    var merged := bounded + Unseen(bounded, open);
    if SeenIn(bounded, id) {
      var i :| 0 <= i < |bounded| && bounded[i].id == id;
      assert merged[i].id == id;
    } else {
      var i :| 0 <= i < |open| && open[i].id == id;
      UnseenIs(bounded, open, open[i]);
      assert open[i] in merged;
    }
  }

  lemma DistinctParts(xs: seq<Item>, ys: seq<Item>)
    requires forall i, j | 0 <= i < |xs| && 0 <= j < |ys| && xs[i].id == ys[j].id :: ys[j].id == 0
    ensures DistinctIds(xs + ys) <==> DistinctIds(xs) && DistinctIds(ys)
  {
    var both := xs + ys;
    if DistinctIds(both) {
      assert forall i | 0 <= i < |xs| :: both[i] == xs[i];
      forall i, j | 0 <= i < j < |ys| && ys[i].id == ys[j].id ensures ys[i].id == 0 {
        assert both[|xs| + i] == ys[i] && both[|xs| + j] == ys[j];
      }
    }
  }

  /** An item that moves from one page of the open walk to the next is listed, and counted, twice. */
  lemma OpenWalkRepeatsAreKept(item: Item)
    requires item.id != 0
    ensures [] + Unseen([], [item, item]) == [item, item]
    ensures !DistinctIds([] + Unseen([], [item, item]))
  {
    assert [item, item][1..] == [item];
    assert Unseen([], [item]) == [item] by { assert [item][1..] == []; }
    var merged := [] + Unseen([], [item, item]);
    assert merged == [item, item];
    assert merged[0].id == merged[1].id;
  }

  lemma {:induction false} UnseenDistinct(bounded: seq<Item>, open: seq<Item>)
    requires DistinctIds(open)
    ensures DistinctIds(Unseen(bounded, open))
  {
    if open != [] {
      UnseenDistinct(bounded, open[1..]);
      var rest := Unseen(bounded, open[1..]);
      forall j | 0 <= j < |rest| && rest[j].id == open[0].id ensures rest[j].id == 0 {
        assert rest[j] in rest;
        UnseenIs(bounded, open[1..], rest[j]);
        var k :| 0 <= k < |open[1..]| && open[1..][k] == rest[j];
        assert open[k + 1] == rest[j];
      }
    }
  }
}
