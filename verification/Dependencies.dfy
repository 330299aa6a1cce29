/**
Dependencies between issues: from mirrored timeline events to links
(internal/investigation/core/github_dependencies.go), and from links to counted facts
(internal/investigation/analysisfacts/analysis.go).
*/
module Dependencies {
  import opened Wrappers
  import opened Sorting

  /** Identifiers, and timestamps compared as text, are ordered values; zero is the empty string. */
  type Name = nat

  datatype Edge = Edge(source: Name, target: Name)

  datatype Event = Event(id: int, at: Name, edge: Edge, active: bool)

  // ----- Reading a timeline -----

  /** An entry of another kind is passed over; one that cannot be decoded is Unreadable. */
  datatype Kind = BlockedByAdded | BlockedByRemoved | BlockingAdded | BlockingRemoved | OtherKind | Unreadable

  /** `other` is the number of the issue on the far side, absent when the entry does not name it. */
  datatype Entry = Entry(id: int, kind: Kind, at: Name, validTime: bool, inWindow: bool, other: Option<int>,
                         sameRepository: bool)

  datatype Parsed = Ignored | Invalid | OutsideWindow | Parsed(event: Event)

  /** `issues` maps the repository's issue numbers to entities. */
  function Parse(target: Name, issues: map<int, Name>, e: Entry): Parsed {
    if e.kind.Unreadable? then Invalid
    else if e.kind.OtherKind? then Ignored
    else if e.id <= 0 || e.at == 0 || e.other.None? || e.other.value <= 0 || !e.sameRepository || !e.validTime then
      Invalid
    else if !e.inWindow then OutsideWindow
    else if e.other.value !in issues || issues[e.other.value] == 0 || issues[e.other.value] == target then Invalid
    else
      var other := issues[e.other.value];
      var blocked := e.kind.BlockedByAdded? || e.kind.BlockedByRemoved?;
      Parsed(Event(e.id, e.at, if blocked then Edge(target, other) else Edge(other, target),
                   e.kind.BlockedByAdded? || e.kind.BlockingAdded?))
  }

  /** The events of a timeline, in its order. */
  function EventsOf(target: Name, issues: map<int, Name>, items: seq<Entry>): seq<Event> {
    if items == [] then []
    else
      var before := EventsOf(target, issues, items[..|items| - 1]);
      match Parse(target, issues, items[|items| - 1])
      case Parsed(event) => before + [event]
      case _ => before
  }

  predicate IsDependency(k: Kind) {
    !k.OtherKind? && !k.Unreadable?
  }

  /** Every dependency entry is observed, usable or not. */
  function Observed(items: seq<Entry>): nat {
    if items == [] then 0
    else Observed(items[..|items| - 1]) + if IsDependency(items[|items| - 1].kind) then 1 else 0
  }

  lemma {:induction false} ObservedIsCount(items: seq<Entry>)
    ensures Observed(items) == |set i | 0 <= i < |items| && IsDependency(items[i].kind)|
  {
    var all := set i | 0 <= i < |items| && IsDependency(items[i].kind);
    if items == [] {
      assert all == {};
    } else {
      var n := |items| - 1;
      ObservedIsCount(items[..n]);
      var before := set i | 0 <= i < n && IsDependency(items[..n][i].kind);
      assert all == before + if IsDependency(items[n].kind) then {n} else {};
    }
  }

  /**
  What makes a timeline invalid: an entry that cannot be decoded, or a dependency entry without an identifier, a
  time or another issue of the same repository; or, inside the window, one whose other issue is not known or is
  the timeline's own.
  */
  predicate Unusable(target: Name, issues: map<int, Name>, e: Entry) {
    || e.kind.Unreadable?
    || (IsDependency(e.kind)
        && (e.id <= 0 || e.at == 0 || !e.validTime || !e.sameRepository || e.other == None || e.other.value <= 0
            || (e.inWindow && (e.other.value !in issues || issues[e.other.value] in {0, target}))))
  }

  /** Every entry is ignored, unusable, outside the window, or an event. */
  lemma ParseDivides(target: Name, issues: map<int, Name>, e: Entry)
    ensures Parse(target, issues, e).Invalid? <==> Unusable(target, issues, e)
    ensures Parse(target, issues, e).Ignored? <==> e.kind.OtherKind?
    ensures Parse(target, issues, e).Parsed? <==>
      IsDependency(e.kind) && !Unusable(target, issues, e) && e.inWindow
  {
  }

  predicate Adds(k: Kind) {
    k.BlockedByAdded? || k.BlockingAdded?
  }

  predicate TellsOfOwnBlocker(k: Kind) {
    k.BlockedByAdded? || k.BlockedByRemoved?
  }

  /**
  What an event says about the entry it was read from: the edge joins the timeline's own issue and the one the
  entry names, and points from the blocked issue to its blocker.
  */
  ghost predicate Reports(target: Name, issues: map<int, Name>, e: Entry, event: Event) {
    var own := if TellsOfOwnBlocker(e.kind) then event.edge.source else event.edge.target;
    var far := if TellsOfOwnBlocker(e.kind) then event.edge.target else event.edge.source;
    && own == target && far != own && far != 0
    && e.other.Some? && e.other.value in issues && far == issues[e.other.value]
    && event.id == e.id > 0 && event.at == e.at != 0
    && (event.active <==> Adds(e.kind))
  }

  lemma ParsedReports(target: Name, issues: map<int, Name>, e: Entry)
    ensures Parse(target, issues, e).Parsed? ==>
          e.inWindow && Reports(target, issues, e, Parse(target, issues, e).event)
  {
  }

  /** Nothing is made up, and unless an entry was invalid, nothing inside the window is missed. */
  lemma {:induction false} EventsReportEntries(target: Name, issues: map<int, Name>, items: seq<Entry>)
    ensures forall event | event in EventsOf(target, issues, items) ::
              exists e | e in items :: e.inWindow && Reports(target, issues, e, event)
    ensures (forall i | 0 <= i < |items| :: !Parse(target, issues, items[i]).Invalid?) ==>
              forall e | e in items && IsDependency(e.kind) && e.inWindow ::
                exists event | event in EventsOf(target, issues, items) :: Reports(target, issues, e, event)
  {
    if items != [] {
      var n := |items| - 1;
      var fewer, last := items[..n], items[n];
      EventsReportEntries(target, issues, fewer);
      ParsedReports(target, issues, last);
      assert items == fewer + [last];
      var before, events := EventsOf(target, issues, fewer), EventsOf(target, issues, items);
      assert forall event | event in before :: event in events;
      assert Parse(target, issues, last).Parsed? ==> Parse(target, issues, last).event in events;
      forall event | event in events
        ensures exists e | e in items :: e.inWindow && Reports(target, issues, e, event)
      {
        if event in before {
          var e :| e in fewer && e.inWindow && Reports(target, issues, e, event);
          assert e in items;
        } else {
          assert last in items;
        }
      }
      if forall i | 0 <= i < |items| :: !Parse(target, issues, items[i]).Invalid? {
        assert forall i | 0 <= i < n :: fewer[i] == items[i];
        forall e | e in items && IsDependency(e.kind) && e.inWindow
          ensures exists event | event in events :: Reports(target, issues, e, event)
        {
          if e in fewer {
            var event :| event in before && Reports(target, issues, e, event);
            assert event in events;
          }
        }
      }
    }
  }

  method ParseEvents(target: Name, issues: map<int, Name>, items: seq<Entry>)
    returns (events: seq<Event>, observed: nat, invalid: bool)
    ensures events == EventsOf(target, issues, items)
    ensures observed == |set i | 0 <= i < |items| && IsDependency(items[i].kind)|
    ensures invalid <==> exists e | e in items :: Unusable(target, issues, e)
    ensures forall event | event in events :: exists e | e in items :: e.inWindow && Reports(target, issues, e, event)
    ensures !invalid ==> forall e | e in items && IsDependency(e.kind) && e.inWindow ::
                           exists event | event in events :: Reports(target, issues, e, event)
  {
    EventsReportEntries(target, issues, items);
    ObservedIsCount(items);
    events, observed, invalid := [], 0, false;
    for i := 0 to |items|
      invariant events == EventsOf(target, issues, items[..i]) && observed == Observed(items[..i])
      invariant invalid <==> exists j | 0 <= j < i :: Parse(target, issues, items[j]).Invalid?
    {
      var e := items[i];
      assert items[..i + 1][..i] == items[..i];
      ghost var parsed := Parse(target, issues, items[i]);
      if e.kind.Unreadable? {
        assert parsed.Invalid?;
        invalid := true;
        continue;
      }
      if e.kind.OtherKind? {
        continue;
      }
      observed := observed + 1;
      if e.id <= 0 || e.at == 0 || e.other.None? || e.other.value <= 0 || !e.sameRepository || !e.validTime {
        assert parsed.Invalid?;
        invalid := true;
        continue;
      }
      if !e.inWindow {
        continue;
      }
      var other := if e.other.value in issues then issues[e.other.value] else 0;
      if other == 0 || other == target {
        assert parsed.Invalid?;
        invalid := true;
        continue;
      }
      var source, sink := target, other;
      if e.kind.BlockingAdded? || e.kind.BlockingRemoved? {
        source, sink := other, target;
      }
      assert parsed.Parsed?;
      events := events + [Event(e.id, e.at, Edge(source, sink), e.kind.BlockedByAdded? || e.kind.BlockingAdded?)];
    }
    assert items[..|items|] == items;
    forall i | 0 <= i < |items|
      ensures Parse(target, issues, items[i]).Invalid? <==> Unusable(target, issues, items[i])
    {
      ParseDivides(target, issues, items[i]);
    }
  }

  function Mirror(k: Kind): Kind {
    match k
    case BlockedByAdded => BlockingAdded
    case BlockedByRemoved => BlockingRemoved
    case BlockingAdded => BlockedByAdded
    case BlockingRemoved => BlockedByRemoved
    case OtherKind => OtherKind
    case Unreadable => Unreadable
  }

  /** The other issue's telling of the same action has an identifier and a time of its own. */
  predicate IsMirror(e: Entry, mine: int, f: Entry) {
    f.kind == Mirror(e.kind) && f.other == Some(mine)
  }

  /** Either issue's timeline tells of the same edge and the same action, each with its own identifier and time. */
  lemma MirrorsAgree(issues: map<int, Name>, e: Entry, mine: int, entity: Name, f: Entry)
    requires mine > 0 && mine in issues && issues[mine] == entity != 0 && Parse(entity, issues, e).Parsed?
    requires IsMirror(e, mine, f)
    requires f.id > 0 && f.at != 0 && f.validTime && f.sameRepository
    ensures var event := Parse(entity, issues, e).event;
            Parse(issues[e.other.value], issues, f)
            == if f.inWindow then Parsed(Event(f.id, f.at, event.edge, event.active)) else OutsideWindow
  {
  }

  // ----- The newest event of each edge -----

  predicate Newer(e: Event, f: Event) {
    e.at > f.at || (e.at == f.at && e.id > f.id)
  }

  ghost predicate IsNewest(e: Event, events: seq<Event>) {
    e in events && forall f | f in events && f.edge == e.edge :: !Newer(f, e)
  }

  /** One event has one meaning, however often it was delivered. */
  ghost predicate Consistent(events: seq<Event>) {
    forall e, f | e in events && f in events && e.edge == f.edge && e.at == f.at && e.id == f.id :: e.active == f.active
  }

  ghost predicate IsLatest(latest: map<Edge, Event>, events: seq<Event>) {
    && (forall k | k in latest :: latest[k].edge == k && IsNewest(latest[k], events))
    && (forall e | e in events :: e.edge in latest)
  }

  /** No event of the edge is later, and none of the same time has a higher identifier. */
  lemma LatestMeans(latest: map<Edge, Event>, events: seq<Event>)
    requires IsLatest(latest, events)
    ensures forall e | e in events ::
      && e.edge in latest && latest[e.edge].edge == e.edge && latest[e.edge] in events
      && (e.at < latest[e.edge].at || (e.at == latest[e.edge].at && e.id <= latest[e.edge].id))
  {
    forall e | e in events
      ensures e.edge in latest && latest[e.edge].edge == e.edge && latest[e.edge] in events
      ensures e.at < latest[e.edge].at || (e.at == latest[e.edge].at && e.id <= latest[e.edge].id)
    {
      assert IsNewest(latest[e.edge], events);
    }
  }

  method Latest(events: seq<Event>) returns (latest: map<Edge, Event>)
    ensures IsLatest(latest, events)
    ensures forall e | e in events ::
      e.edge in latest
      && (e.at < latest[e.edge].at || (e.at == latest[e.edge].at && e.id <= latest[e.edge].id))
  {
    latest := map[];
    for i := 0 to |events|
      invariant IsLatest(latest, events[..i])
    {
      var event := events[i];
      assert events[..i + 1] == events[..i] + [event];
      ghost var before := latest;
      if event.edge !in latest || Newer(event, latest[event.edge]) {
        latest := latest[event.edge := event];
      }
      forall k | k in latest ensures latest[k].edge == k && IsNewest(latest[k], events[..i + 1]) {
        if k in before { assert IsNewest(before[k], events[..i]); }
      }
    }
    assert events[..|events|] == events;
    LatestMeans(latest, events);
  }

  /** Neither the order of the events nor how often one was delivered matters. */
  lemma LatestIsOrderIndependent(events: seq<Event>, others: seq<Event>, latest: map<Edge, Event>,
                                 otherLatest: map<Edge, Event>)
    requires forall e :: e in events <==> e in others
    requires Consistent(events) && IsLatest(latest, events) && IsLatest(otherLatest, others)
    ensures latest == otherLatest
  {
    forall k ensures k in latest <==> k in otherLatest {
      if k in latest { assert latest[k] in others; }
      if k in otherLatest { assert otherLatest[k] in events; }
    }
    forall k | k in latest ensures latest[k] == otherLatest[k] {
      assert IsNewest(latest[k], events) && IsNewest(otherLatest[k], others);
    }
  }

  // ----- Links -----

  /** A link's ID hashes its edge, injectively; the evidence names the event. */
  datatype Link = Link(edge: Edge, validFrom: Name, evidence: int)

  ghost predicate OnePerEdge(links: seq<Link>) {
    forall i, j | 0 <= i < j < |links| :: links[i].edge != links[j].edge
  }

  method UpsertLink(links: seq<Link>, v: Link) returns (updated: seq<Link>)
    requires OnePerEdge(links)
    ensures OnePerEdge(updated)
    ensures forall l :: l in updated <==> l == v || (l in links && l.edge != v.edge)
  {
    for i := 0 to |links|
      invariant forall j | 0 <= j < i :: links[j].edge != v.edge
    {
      if links[i].edge == v.edge {
        updated := links[i := v];
        forall l ensures l in updated <==> l == v || (l in links && l.edge != v.edge) {
          if l == v { assert updated[i] == l; }
          if l in links && l.edge != v.edge {
            var j :| 0 <= j < |links| && links[j] == l;
            assert updated[j] == l;
          }
          if l in updated {
            var j :| 0 <= j < |updated| && updated[j] == l;
            if j != i { assert links[j] == l; }
          }
        }
        return updated;
      }
    }
    return links + [v];
  }

  function LinkOf(e: Event): Link {
    Link(e.edge, e.at, e.id)
  }

  /** The link of an edge after projecting some edges: its newest addition, or what was there. */
  ghost predicate Expected(l: Link, before: seq<Link>, latest: map<Edge, Event>, done: set<Edge>) {
    if l.edge in done && l.edge in latest && latest[l.edge].active then l == LinkOf(latest[l.edge]) else l in before
  }

  /** The edges whose newest event is an addition have its link; links of other edges stay. */
  ghost predicate Projected(links: seq<Link>, before: seq<Link>, latest: map<Edge, Event>, done: set<Edge>) {
    OnePerEdge(links) && forall l :: l in links <==> Expected(l, before, latest, done)
  }

  lemma EdgeProjected(links: seq<Link>, updated: seq<Link>, before: seq<Link>, latest: map<Edge, Event>,
                      done: set<Edge>, k: Edge)
    requires Projected(links, before, latest, done) && k in latest && latest[k].edge == k
    requires if latest[k].active
             then
               && OnePerEdge(updated)
               && forall l :: l in updated <==> l == LinkOf(latest[k]) || (l in links && l.edge != k)
             else updated == links
    ensures Projected(updated, before, latest, done + {k})
  {
    forall l ensures l in updated <==> Expected(l, before, latest, done + {k}) {
      assert l in links <==> Expected(l, before, latest, done);
    }
  }

  /** The link of an edge whose newest event is an addition is valid from that event on, with it as evidence. */
  lemma LinkTells(events: seq<Event>, links: seq<Link>, before: seq<Link>, latest: map<Edge, Event>, l: Link)
    requires IsLatest(latest, events) && Projected(links, before, latest, latest.Keys)
    ensures l in links <==>
      if l.edge in latest && latest[l.edge].active
      then l.validFrom == latest[l.edge].at && l.evidence == latest[l.edge].id
      else l in before
  {
    assert l in links <==> Expected(l, before, latest, latest.Keys);
  }

  predicate EdgeBefore(a: Edge, b: Edge) {
    a.source < b.source || (a.source == b.source && a.target <= b.target)
  }

  method ProjectEvents(events: seq<Event>, before: seq<Link>) returns (links: seq<Link>)
    requires OnePerEdge(before)
    ensures exists latest :: IsLatest(latest, events) && Projected(links, before, latest, latest.Keys)
  {
    var newest := Latest(events);
    var keys := Keys(newest);
    links := before;
    ghost var done: set<Edge> := {};
    for i := 0 to |keys|
      invariant done == set k | k in keys[..i]
      invariant Projected(links, before, newest, done)
    {
      assert keys[..i + 1] == keys[..i] + [keys[i]];
      assert keys[i] in keys;
      var event := newest[keys[i]];
      ghost var were := links;
      if event.active {
        links := UpsertLink(links, Link(event.edge, event.at, event.id));
      }
      EdgeProjected(were, links, before, newest, done, keys[i]);
      done := done + {keys[i]};
    }
    assert keys[..|keys|] == keys;
    assert done == newest.Keys;
  }

  /** The edges in order. */
  method Keys(latest: map<Edge, Event>) returns (keys: seq<Edge>)
    ensures forall k :: k in keys <==> k in latest
    ensures forall i, j | 0 <= i < j < |keys| ::
      keys[i].source < keys[j].source || (keys[i].source == keys[j].source && keys[i].target <= keys[j].target)
  {
    var unsorted: seq<Edge> := [];
    var left := latest.Keys;
    while left != {}
      invariant left <= latest.Keys
      invariant forall k :: k in unsorted <==> k in latest.Keys - left
      decreases |left|
    {
      var k :| k in left;
      left := left - {k};
      unsorted := unsorted + [k];
    }
    var before := (a: Edge, b: Edge) => EdgeBefore(a, b);
    assert TotalOrder(before);
    keys := SortWith(unsorted, before);
    SameElements(keys, unsorted);
    forall i, j | 0 <= i < j < |keys| ensures EdgeBefore(keys[i], keys[j]) {
      assert before(keys[i], keys[j]);
    }
  }

  /**
  From a dataset without links of these edges: the projected links are exactly the edges whose newest event is
  an addition, one link each, whatever the order of the events.
  */
  lemma LinksAreNewestAdditions(events: seq<Event>, before: seq<Link>, links: seq<Link>, latest: map<Edge, Event>,
                                k: Edge)
    requires Consistent(events) && IsLatest(latest, events) && Projected(links, before, latest, latest.Keys)
    requires forall l | l in before :: l.edge != k
    ensures (exists l | l in links :: l.edge == k) <==>
          (exists e | e in events :: e.edge == k && e.active && IsNewest(e, events))
  {
    if exists e | e in events :: e.edge == k && e.active && IsNewest(e, events) {
      var e :| e in events && e.edge == k && e.active && IsNewest(e, events);
      assert IsNewest(latest[k], events);
      assert !Newer(latest[k], e) && !Newer(e, latest[k]);
      assert Expected(LinkOf(latest[k]), before, latest, latest.Keys);
    }
    if exists l | l in links :: l.edge == k {
      var l :| l in links && l.edge == k;
      assert Expected(l, before, latest, latest.Keys);
      assert IsNewest(latest[k], events);
    }
  }

  // ----- Two timelines of one edge -----

  /**
  A timeline's telling of what was done to an edge: one event for each action, additions being true, each newer
  than the one before.  The other issue's timeline tells the same actions with identifiers and times of its own.
  */
  ghost predicate Tells(t: seq<Event>, k: Edge, history: seq<bool>) {
    && |t| == |history|
    && (forall i | 0 <= i < |t| :: t[i].edge == k && t[i].active == history[i])
    && (forall i, j | 0 <= i < j < |t| :: Newer(t[j], t[i]))
  }

  /** The events of an edge are those that one telling, the other, or both of them delivered. */
  ghost predicate Delivered(events: seq<Event>, k: Edge, a: seq<Event>, b: seq<Event>) {
    forall e: Event | e.edge == k :: e in events <==> e in a || e in b
  }

  /** The newest event of an edge ends one of the two tellings. */
  lemma NewestEndsATelling(events: seq<Event>, latest: map<Edge, Event>, k: Edge, a: seq<Event>, b: seq<Event>,
                           told: seq<bool>, retold: seq<bool>)
    requires Tells(a, k, told) && Tells(b, k, retold) && Delivered(events, k, a, b) && IsLatest(latest, events)
    requires a != [] || b != []
    ensures k in latest
    ensures (a != [] && latest[k] == a[|a| - 1]) || (b != [] && latest[k] == b[|b| - 1])
    ensures a != [] ==> !Newer(a[|a| - 1], latest[k])
    ensures b != [] ==> !Newer(b[|b| - 1], latest[k])
  {
    var some := if a != [] then a[|a| - 1] else b[|b| - 1];
    assert some in events;
    assert a != [] ==> a[|a| - 1] in events;
    assert b != [] ==> b[|b| - 1] in events;
    assert IsNewest(latest[k], events);
    if latest[k] in a {
      var i :| 0 <= i < |a| && a[i] == latest[k];
    } else {
      var i :| 0 <= i < |b| && b[i] == latest[k];
    }
  }

  /**
  Whichever of the two timelines delivered the whole history, or both, in any order: the newest event tells the
  last action.
  */
  lemma EitherTimelineTellsTheLastAction(events: seq<Event>, latest: map<Edge, Event>, k: Edge,
                                         a: seq<Event>, b: seq<Event>, history: seq<bool>)
    requires history != [] && Tells(a, k, history) && Tells(b, k, history) && IsLatest(latest, events)
    requires Delivered(events, k, a, []) || Delivered(events, k, [], b) || Delivered(events, k, a, b)
    ensures k in latest && latest[k].active == history[|history| - 1]
  {
    if Delivered(events, k, a, []) {
      NewestEndsATelling(events, latest, k, a, [], history, []);
    } else if Delivered(events, k, [], b) {
      NewestEndsATelling(events, latest, k, [], b, [], history);
    } else {
      NewestEndsATelling(events, latest, k, a, b, history, history);
    }
  }

  /**
  One timeline stops earlier: it tells the first m of the n actions that the other tells.  The newest event then
  tells the last of the n exactly when the shorter telling does not end later, or ends with the same action.
  */
  lemma ShorterTellingMisleadsWhen(events: seq<Event>, latest: map<Edge, Event>, k: Edge,
                                   a: seq<Event>, b: seq<Event>, history: seq<bool>, m: nat)
    requires history != [] && m <= |history| && Tells(a, k, history) && Tells(b, k, history[..m])
    requires Delivered(events, k, a, b) && Consistent(events) && IsLatest(latest, events)
    ensures k in latest
    ensures latest[k].active == history[|history| - 1] <==>
            m == 0 || !Newer(b[m - 1], a[|a| - 1]) || history[m - 1] == history[|history| - 1]
  {
    NewestEndsATelling(events, latest, k, a, b, history, history[..m]);
    var last := a[|a| - 1];
    assert last in events && latest[k] in events;
    if m > 0 {
      assert b[m - 1] in events && b[m - 1].active == history[m - 1];
      if latest[k] == b[m - 1] && !Newer(b[m - 1], last) {
        assert last.at == latest[k].at && last.id == latest[k].id;
      }
    }
  }

  /** The events of an edge are those of both tellings before the end of the window, which it does not include. */
  ghost predicate DeliveredUntil(events: seq<Event>, k: Edge, a: seq<Event>, b: seq<Event>, end: Name) {
    forall e: Event | e.edge == k :: e in events <==> (e in a || e in b) && e.at < end
  }

  /** The window lets the first n events of a telling through. */
  ghost predicate LetsThrough(t: seq<Event>, end: Name, n: nat) {
    n <= |t| && forall i | 0 <= i < |t| :: t[i].at < end <==> i < n
  }

  /** A window end always cuts a telling like that: later events are told later. */
  lemma WindowCutsATelling(t: seq<Event>, k: Edge, history: seq<bool>, end: Name) returns (n: nat)
    requires Tells(t, k, history)
    ensures LetsThrough(t, end, n)
  {
    n := 0;
    while n < |t| && t[n].at < end
      invariant n <= |t| && forall i | 0 <= i < n :: t[i].at < end
    {
      n := n + 1;
    }
    forall i | 0 <= i < |t| ensures t[i].at < end <==> i < n {
      if i > n { assert Newer(t[i], t[n]); }
    }
  }

  lemma WindowDelivers(events: seq<Event>, k: Edge, a: seq<Event>, b: seq<Event>, end: Name, n: nat, m: nat)
    requires DeliveredUntil(events, k, a, b, end) && LetsThrough(a, end, n) && LetsThrough(b, end, m)
    ensures Delivered(events, k, a[..n], b[..m])
  {
    forall e: Event | e.edge == k ensures e in events <==> e in a[..n] || e in b[..m] {
      KeptByTheWindow(a, n, end, e);
      KeptByTheWindow(b, m, end, e);
    }
  }

  lemma TellsPart(t: seq<Event>, k: Edge, history: seq<bool>, n: nat)
    requires Tells(t, k, history) && n <= |t|
    ensures Tells(t[..n], k, history[..n])
  {
  }

  /**
  So a window end is one way for a timeline to stop earlier: of two tellings of one history it lets n events of
  one and m of the other through, and ShorterTellingMisleadsWhen says what the newest event then tells.
  */
  lemma WindowShortensATelling(events: seq<Event>, k: Edge, a: seq<Event>, b: seq<Event>, history: seq<bool>, end: Name)
    returns (n: nat, m: nat)
    requires Tells(a, k, history) && Tells(b, k, history) && DeliveredUntil(events, k, a, b, end)
    ensures LetsThrough(a, end, n) && LetsThrough(b, end, m) && Delivered(events, k, a[..n], b[..m])
    ensures Tells(a[..n], k, history[..n]) && Tells(b[..m], k, history[..m])
    ensures m <= n ==> history[..m] == history[..n][..m]
    ensures n <= m ==> history[..n] == history[..m][..n]
  {
    n := WindowCutsATelling(a, k, history, end);
    m := WindowCutsATelling(b, k, history, end);
    WindowDelivers(events, k, a, b, end, n, m);
    TellsPart(a, k, history, n);
    TellsPart(b, k, history, m);
  }

  /** The newest event tells the last action of the longer telling exactly when the shorter one does not mislead. */
  ghost predicate LastIsTold(latest: map<Edge, Event>, k: Edge, a: seq<Event>, b: seq<Event>, history: seq<bool>)
    requires |b| <= |a| == |history|
  {
    a != [] ==>
      && k in latest
      && (latest[k].active == history[|a| - 1] <==>
          b == [] || !Newer(b[|b| - 1], a[|a| - 1]) || history[|b| - 1] == history[|a| - 1])
  }

  lemma PartsMisleadWhen(events: seq<Event>, latest: map<Edge, Event>, k: Edge,
                         a: seq<Event>, b: seq<Event>, history: seq<bool>)
    requires |b| <= |history| && Tells(a, k, history) && Tells(b, k, history[..|b|])
    requires Delivered(events, k, a, b) && Consistent(events) && IsLatest(latest, events)
    ensures LastIsTold(latest, k, a, b, history)
    ensures k in latest <==> a != []
  {
    if history == [] {
      assert forall e | e in events :: e.edge != k;
    } else {
      ShorterTellingMisleadsWhen(events, latest, k, a, b, history, |b|);
    }
  }

  lemma DeliveredEitherWay(events: seq<Event>, k: Edge, a: seq<Event>, b: seq<Event>)
    requires Delivered(events, k, a, b)
    ensures Delivered(events, k, b, a)
  {
  }

  /**
  A window that ends before both tellings do: the newest event tells the last action that any telling gives
  before the end exactly when the telling that the end cuts shorter does not end later, or ends with the same
  action; without such an action there is no event.
  */
  lemma WindowMisleadsWhen(events: seq<Event>, latest: map<Edge, Event>, k: Edge,
                           a: seq<Event>, b: seq<Event>, history: seq<bool>, end: Name) returns (n: nat, m: nat)
    requires Tells(a, k, history) && Tells(b, k, history) && DeliveredUntil(events, k, a, b, end)
    requires Consistent(events) && IsLatest(latest, events)
    ensures LetsThrough(a, end, n) && LetsThrough(b, end, m)
    ensures m <= n ==> LastIsTold(latest, k, a[..n], b[..m], history[..n])
    ensures n <= m ==> LastIsTold(latest, k, b[..m], a[..n], history[..m])
    ensures k in latest <==> n > 0 || m > 0
  {
    n, m := WindowShortensATelling(events, k, a, b, history, end);
    DeliveredEitherWay(events, k, a[..n], b[..m]);
    if m <= n {
      PartsMisleadWhen(events, latest, k, a[..n], b[..m], history[..n]);
    }
    if n <= m {
      PartsMisleadWhen(events, latest, k, b[..m], a[..n], history[..m]);
    }
  }

  lemma KeptByTheWindow(t: seq<Event>, n: nat, end: Name, e: Event)
    requires LetsThrough(t, end, n)
    ensures e in t[..n] <==> e in t && e.at < end
  {
    if e in t && e.at < end {
      var i :| 0 <= i < |t| && t[i] == e;
      assert t[..n][i] == e;
    }
  }

  /** An edge is added and removed, and the other issue's timeline tells of both a little later. */
  function Removal(k: Edge): seq<Event> {
    [Event(1, 1000, k, true), Event(3, 1001, k, false)]
  }

  function LateRemoval(k: Edge): seq<Event> {
    [Event(2, 1002, k, true), Event(4, 1003, k, false)]
  }

  lemma RemovalsAreTellings(k: Edge)
    ensures Tells(Removal(k), k, [true, false]) && Tells(LateRemoval(k), k, [true, false])
    ensures Tells(LateRemoval(k)[..1], k, [true])
    ensures Consistent(Removal(k) + LateRemoval(k)[..1])
    ensures forall e | e in Removal(k) + LateRemoval(k) :: e.at < 1003 <==> e in Removal(k) + LateRemoval(k)[..1]
  {
  }

  /**
  The window ends at 1003, after one telling and at the other of the removal: the mirrored addition, told later than the
  removal, is the newest event, and the link of a removed edge is kept.
  */
  lemma LateMirrorKeepsALink(k: Edge, latest: map<Edge, Event>, links: seq<Link>)
    requires IsLatest(latest, Removal(k) + LateRemoval(k)[..1]) && Projected(links, [], latest, latest.Keys)
    ensures exists l | l in links :: l.edge == k
  {
    var a, b := Removal(k), LateRemoval(k)[..1];
    RemovalsAreTellings(k);
    assert [true, false][..1] == [true];
    ShorterTellingMisleadsWhen(a + b, latest, k, a, b, [true, false], 1);
    assert latest[k].active;
    assert Expected(LinkOf(latest[k]), [], latest, latest.Keys);
  }

  /** The link of an edge exists exactly when the last of its actions is an addition. */
  lemma LinkFollowsHistory(events: seq<Event>, latest: map<Edge, Event>, before: seq<Link>, links: seq<Link>, k: Edge,
                           a: seq<Event>, b: seq<Event>, history: seq<bool>)
    requires history != [] && Tells(a, k, history) && Tells(b, k, history) && IsLatest(latest, events)
    requires Delivered(events, k, a, []) || Delivered(events, k, [], b) || Delivered(events, k, a, b)
    requires Projected(links, before, latest, latest.Keys) && forall l | l in before :: l.edge != k
    ensures (exists l | l in links :: l.edge == k) <==> history[|history| - 1]
  {
    EitherTimelineTellsTheLastAction(events, latest, k, a, b, history);
    if history[|history| - 1] {
      assert Expected(LinkOf(latest[k]), before, latest, latest.Keys);
    }
    if exists l | l in links :: l.edge == k {
      var l :| l in links && l.edge == k;
      assert Expected(l, before, latest, latest.Keys);
    }
  }
}
