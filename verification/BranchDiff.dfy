/**
The branch inventory (internal/investigation/core/git_branches.go): a journalled listing is compared
with the map saved by the previous plan, every difference becomes one event, and the new map is saved.
*/
module BranchDiff {
  import opened Wrappers

  type Name = nat
  type Oid = nat
  type Heads = map<Name, Oid>

  datatype Head = Head(name: Name, oid: Oid)

  /** `complete` is false for a listing that was cut short. */
  datatype Journal = Journal(previous: Heads, listed: seq<Head>, complete: bool)

  datatype Kind = Created | Changed | Deleted

  datatype Event = Event(kind: Kind, name: Name, was: Option<Oid>, current: Option<Oid>)

  /** The event ID hashes the ref, the kind and the plan; the plan is fixed here. */
  datatype EventId = EventId(name: Name, kind: Kind)

  function Find(heads: Heads, n: Name): Option<Oid> {
    if n in heads then Some(heads[n]) else None
  }

  predicate DistinctNames(listed: seq<Head>) {
    forall i, j | 0 <= i < j < |listed| :: listed[i].name != listed[j].name
  }

  ghost function Listed(listed: seq<Head>): Heads
    requires DistinctNames(listed)
  {
    map h | h in listed :: h.name := h.oid
  }

  /** The map that is saved: after a cut listing, heads it does not mention stay. */
  ghost function Saved(j: Journal): Heads
    requires DistinctNames(j.listed)
  {
    if j.complete then Listed(j.listed) else j.previous + Listed(j.listed)
  }

  predicate Lists(listed: seq<Head>, n: Name) {
    exists i :: 0 <= i < |listed| && listed[i].name == n
  }

  /**
  Every listed head is saved with the commit it is listed with.  A head that is not listed is forgotten after a
  complete listing and keeps its commit after a cut one; nothing else is saved.
  */
  ghost predicate SavedAs(heads: Heads, previous: Heads, listed: seq<Head>, complete: bool) {
    && (forall i | 0 <= i < |listed| :: listed[i].name in heads && heads[listed[i].name] == listed[i].oid)
    && (forall n | n in previous && !Lists(listed, n) ::
          if complete then n !in heads else n in heads && heads[n] == previous[n])
    && (forall n | n in heads :: Lists(listed, n) || n in previous)
  }

  lemma SavedMeans(j: Journal)
    requires DistinctNames(j.listed)
    ensures SavedAs(Saved(j), j.previous, j.listed, j.complete)
  {
    forall i | 0 <= i < |j.listed|
      ensures j.listed[i].name in Saved(j) && Saved(j)[j.listed[i].name] == j.listed[i].oid
    {
      assert j.listed[i] in j.listed;
    }
    forall n ensures n in Listed(j.listed) <==> Lists(j.listed, n) {
      if n in Listed(j.listed) {
        var h :| h in j.listed && h.name == n;
      }
    }
  }

  // ----- What the events mean -----

  /** Applies one event, refusing one that does not fit the map. */
  function Apply(heads: Heads, e: Event): Option<Heads> {
    if Find(heads, e.name) != e.was then None
    else match e.kind
      case Created => if e.was.None? && e.current.Some? then Some(heads[e.name := e.current.value]) else None
      case Changed =>
        if e.was.Some? && e.current.Some? && e.was != e.current then Some(heads[e.name := e.current.value]) else None
      case Deleted => if e.was.Some? && e.current.None? then Some(heads - {e.name}) else None
  }

  function Fold(heads: Heads, events: seq<Event>): Option<Heads>
    decreases |events|
  {
    if events == [] then Some(heads)
    else
      match Fold(heads, events[..|events| - 1])
      case None => None
      case Some(m) => Apply(m, events[|events| - 1])
  }

  /** The change of one name between two maps, and nothing when there is none. */
  function Difference(before: Heads, after: Heads, n: Name): Option<Event> {
    var was, current := Find(before, n), Find(after, n);
    if was == current then None
    else Some(Event(if was.None? then Created else if current.None? then Deleted else Changed, n, was, current))
  }

  /** The events are the differences, each once, in some order. */
  ghost predicate Emits(j: Journal, events: seq<Event>) {
    && DistinctNames(j.listed)
    && (forall i | 0 <= i < |events| :: Difference(j.previous, Saved(j), events[i].name) == Some(events[i]))
    && (forall i, k | 0 <= i < k < |events| :: events[i].name != events[k].name)
    && (forall n: Name | Difference(j.previous, Saved(j), n).Some? :: Mentions(events, n))
  }

  ghost predicate Mentions(events: seq<Event>, n: Name) {
    exists i :: 0 <= i < |events| && events[i].name == n
  }

  lemma {:induction false} FoldPrefix(before: Heads, after: Heads, events: seq<Event>)
    requires forall i | 0 <= i < |events| :: Difference(before, after, events[i].name) == Some(events[i])
    requires forall i, k | 0 <= i < k < |events| :: events[i].name != events[k].name
    ensures Fold(before, events).Some?
    ensures forall n: Name ::
      Find(Fold(before, events).value, n) == (if Mentions(events, n) then Find(after, n) else Find(before, n))
    decreases |events|
  {
    if events != [] {
      var last := |events| - 1;
      var front, e := events[..last], events[last];
      FoldPrefix(before, after, front);
      assert forall i | 0 <= i < last :: front[i] == events[i];
      assert Find(Fold(before, front).value, e.name) == e.was;
      forall n: Name
        ensures Find(Fold(before, events).value, n) == (if Mentions(events, n) then Find(after, n) else Find(before, n))
      {
        if Mentions(events, n) && n != e.name {
          var i :| 0 <= i < |events| && events[i].name == n;
          assert front[i].name == n;
        }
      }
    }
  }

  /** Folding the emitted events over the journalled map gives exactly the saved map, in whatever order they come. */
  lemma EventsFoldToSaved(j: Journal, events: seq<Event>)
    requires Emits(j, events)
    ensures Fold(j.previous, events) == Some(Saved(j))
  {
    FoldPrefix(j.previous, Saved(j), events);
    var m := Fold(j.previous, events).value;
    forall n: Name ensures Find(m, n) == Find(Saved(j), n) {
      if Difference(j.previous, Saved(j), n).Some? {
        var i :| 0 <= i < |events| && events[i].name == n;
      }
    }
    forall n ensures n in m <==> n in Saved(j) {
      assert Find(m, n) == Find(Saved(j), n);
    }
    forall n | n in m ensures m[n] == Saved(j)[n] {
      assert Find(m, n) == Find(Saved(j), n);
    }
    assert m == Saved(j);
  }

  /** The one event of a name: created, changed or deleted, with the commits before and after; none when equal. */
  ghost predicate Tells(e: Event, previous: Heads, listed: seq<Head>, complete: bool) {
    match e.kind
    case Created => e.name !in previous && e.was == None && e.current.Some? && Head(e.name, e.current.value) in listed
    case Changed =>
      && e.name in previous && e.was == Some(previous[e.name]) && e.current.Some?
      && Head(e.name, e.current.value) in listed && e.current.value != previous[e.name]
    case Deleted =>
      && complete && !Lists(listed, e.name) && e.name in previous
      && e.was == Some(previous[e.name]) && e.current == None
  }

  /** Whether anything happened to a name. */
  ghost predicate Happened(n: Name, previous: Heads, listed: seq<Head>, complete: bool) {
    || (exists h | h in listed :: h.name == n && (n !in previous || previous[n] != h.oid))
    || (complete && n in previous && !Lists(listed, n))
  }

  /** An event is emitted for exactly the names to which something happened, and it tells what. */
  lemma EventsTell(j: Journal, events: seq<Event>)
    requires Emits(j, events)
    ensures forall e | e in events :: Tells(e, j.previous, j.listed, j.complete)
    ensures forall n: Name :: Mentions(events, n) <==> Happened(n, j.previous, j.listed, j.complete)
  {
    SavedMeans(j);
    forall e | e in events ensures Tells(e, j.previous, j.listed, j.complete) {
      assert Difference(j.previous, Saved(j), e.name) == Some(e);
      if Lists(j.listed, e.name) {
        var i :| 0 <= i < |j.listed| && j.listed[i].name == e.name;
        assert j.listed[i] == Head(e.name, Saved(j)[e.name]);
      }
    }
    forall n: Name ensures Mentions(events, n) <==> Happened(n, j.previous, j.listed, j.complete) {
      WhatHappened(j, n);
      if Mentions(events, n) {
        var i :| 0 <= i < |events| && events[i].name == n;
        assert Difference(j.previous, Saved(j), n) == Some(events[i]);
      }
    }
  }

  lemma WhatHappened(j: Journal, n: Name)
    requires DistinctNames(j.listed)
    ensures Difference(j.previous, Saved(j), n).Some? <==> Happened(n, j.previous, j.listed, j.complete)
  {
    SavedMeans(j);
    if Lists(j.listed, n) {
      var i :| 0 <= i < |j.listed| && j.listed[i].name == n;
      assert j.listed[i] in j.listed;
      assert forall h | h in j.listed && h.name == n :: h == j.listed[i];
    }
  }

  /** A cut listing emits no deletion. */
  lemma CutListingDeletesNothing(j: Journal, events: seq<Event>, i: nat)
    requires Emits(j, events) && !j.complete && i < |events|
    ensures !events[i].kind.Deleted? && events[i].current.Some?
  {
    assert Difference(j.previous, Saved(j), events[i].name) == Some(events[i]);
  }

  /** A complete listing deletes exactly the heads it no longer mentions. */
  lemma CompleteListingDeletes(j: Journal, events: seq<Event>, n: Name)
    requires Emits(j, events) && j.complete
    ensures (exists i :: 0 <= i < |events| && events[i].name == n && events[i].kind.Deleted?)
      <==> n in j.previous && n !in Listed(j.listed)
  {
    if n in j.previous && n !in Listed(j.listed) {
      assert Difference(j.previous, Saved(j), n).Some?;
      var i :| 0 <= i < |events| && events[i].name == n;
      assert events[i].kind.Deleted?;
    }
  }

  // ----- Running a plan, possibly more than once -----

  function Id(e: Event): EventId {
    EventId(e.name, e.kind)
  }

  /** upsertEvent: one event per ID. */
  function Upsert(dataset: map<EventId, Event>, events: seq<Event>): map<EventId, Event>
    decreases |events|
  {
    if events == [] then dataset else Upsert(dataset[Id(events[0]) := events[0]], events[1..])
  }

  lemma {:induction false} UpsertedIs(dataset: map<EventId, Event>, events: seq<Event>, id: EventId)
    requires forall i, k | 0 <= i < k < |events| :: events[i].name != events[k].name
    ensures id in Upsert(dataset, events) <==> id in dataset || exists i :: 0 <= i < |events| && Id(events[i]) == id
    ensures forall i | 0 <= i < |events| && Id(events[i]) == id :: Upsert(dataset, events)[id] == events[i]
    ensures id in dataset && (forall i | 0 <= i < |events| :: Id(events[i]) != id) ==>
          Upsert(dataset, events)[id] == dataset[id]
    decreases |events|
  {
    if events != [] {
      UpsertedIs(dataset[Id(events[0]) := events[0]], events[1..], id);
      assert forall i | 0 < i < |events| :: events[i] == events[1..][i - 1];
      forall i | 0 <= i < |events| && Id(events[i]) == id
        ensures Upsert(dataset, events)[id] == events[i]
      {
        if i == 0 {
          assert forall k | 0 <= k < |events[1..]| :: Id(events[1..][k]) != id;
        } else {
          assert events[1..][i - 1] == events[i];
        }
      }
    }
  }

  /** A rerun from the same journal adds nothing: same IDs, same values. */
  lemma RerunChangesNothing(j: Journal, dataset: map<EventId, Event>, first: seq<Event>, again: seq<Event>)
    requires Emits(j, first) && Emits(j, again)
    ensures Upsert(Upsert(dataset, first), again) == Upsert(dataset, first)
  {
    var once := Upsert(dataset, first);
    var twice := Upsert(once, again);
    forall id ensures (id in twice <==> id in once) && (id in once ==> twice[id] == once[id]) {
      UpsertedIs(dataset, first, id);
      UpsertedIs(once, again, id);
      forall k | 0 <= k < |again| && Id(again[k]) == id ensures id in once && once[id] == again[k] {
        assert Difference(j.previous, Saved(j), again[k].name).Some?;
        var i :| 0 <= i < |first| && first[i].name == again[k].name;
        assert first[i] == again[k];
      }
    }
    assert twice == once;
  }

  /** A run that stopped among the events leaves nothing that the rerun would not have stored. */
  lemma StoppedRunIsMadeGood(j: Journal, dataset: map<EventId, Event>, first: seq<Event>, n: nat, again: seq<Event>)
    requires Emits(j, first) && Emits(j, again) && n <= |first|
    ensures Upsert(Upsert(dataset, first[..n]), again) == Upsert(dataset, again)
  {
    var part := first[..n];
    var stopped := Upsert(dataset, part);
    var made, whole := Upsert(stopped, again), Upsert(dataset, again);
    assert forall i | 0 <= i < n :: part[i] == first[i];
    forall id ensures (id in made <==> id in whole) && (id in whole ==> made[id] == whole[id]) {
      UpsertedIs(dataset, part, id);
      UpsertedIs(stopped, again, id);
      UpsertedIs(dataset, again, id);
      forall i | 0 <= i < n && Id(part[i]) == id ensures exists k :: 0 <= k < |again| && Id(again[k]) == id {
        assert Difference(j.previous, Saved(j), first[i].name).Some?;
        var k :| 0 <= k < |again| && again[k].name == first[i].name;
        assert again[k] == first[i];
      }
    }
    assert made == whole;
  }

  // ----- The collector -----

  method ListingMap(listed: seq<Head>) returns (current: Option<Heads>)
    ensures current.Some? <==> DistinctNames(listed)
    ensures current.Some? ==> current.value == Listed(listed)
  {
    var m: Heads := map[];
    for i := 0 to |listed|
      invariant DistinctNames(listed[..i])
      invariant m == Listed(listed[..i])
    {
      assert listed[..i + 1] == listed[..i] + [listed[i]];
      if listed[i].name in m {
        assert exists k | 0 <= k < i :: listed[k].name == listed[i].name;
        return None;
      }
      assert forall k | 0 <= k < i :: listed[k] in listed[..i];
      m := m[listed[i].name := listed[i].oid];
    }
    assert listed[..|listed|] == listed;
    return Some(m);
  }

  /** The names of a set, each once, in ascending order. */
  method SortedNames(names: set<Name>) returns (sorted: seq<Name>)
    ensures forall n :: n in sorted <==> n in names
    ensures forall i, k | 0 <= i < k < |sorted| :: sorted[i] < sorted[k]
  {
    sorted := [];
    var rest := names;
    while rest != {}
      invariant forall n :: n in sorted <==> n in names && n !in rest
      invariant rest <= names
      invariant forall i, k | 0 <= i < k < |sorted| :: sorted[i] < sorted[k]
      invariant forall n, m | n in sorted && m in rest :: n < m
      decreases rest
    {
      var least := Least(rest);
      forall i | 0 <= i < |sorted| ensures sorted[i] < least {
        assert sorted[i] in sorted && least in rest;
      }
      sorted := sorted + [least];
      rest := rest - {least};
    }
  }

  method Least(names: set<Name>) returns (least: Name)
    requires names != {}
    ensures least in names && forall n | n in names :: least <= n
  {
    least :| least in names;
    var rest := names - {least};
    while rest != {}
      invariant least in names && rest <= names
      invariant forall n | n in names && n !in rest :: least <= n
      decreases rest
    {
      var n :| n in rest;
      if n < least { least := n; }
      rest := rest - {n};
    }
  }

  /** The diff of one journal: the events in the order they are projected, and the map to save. */
  method Project(j: Journal) returns (result: Option<(seq<Event>, Heads)>)
    ensures result.Some? <==> DistinctNames(j.listed)
    ensures result.Some? ==> Emits(j, result.value.0) && result.value.1 == Saved(j)
    ensures result.Some? ==> SavedAs(result.value.1, j.previous, j.listed, j.complete)
    ensures result.Some? ==> Fold(j.previous, result.value.0) == Some(result.value.1)
  {
    var listing := ListingMap(j.listed);
    if listing.None? {
      return None;
    }
    var current := listing.value;
    var names := SortedNames(current.Keys);
    var events: seq<Event> := [];
    for i := 0 to |names|
      invariant EmittedFor(j, events, names[..i])
    {
      assert names[..i + 1] == names[..i] + [names[i]];
      EmitOne(j, events, names[..i], names[i]);
      var e := Difference(j.previous, current, names[i]);
      if e.Some? {
        events := events + [e.value];
      }
    }
    assert names[..|names|] == names;
    if j.complete {
      events := ProjectDeleted(j, current, names, events);
    } else {
      current := j.previous + current;
      AllNamesSeen(j, events, names);
    }
    SavedMeans(j);
    EventsFoldToSaved(j, events);
    return Some((events, current));
  }

  /** The deletions of a complete listing. */
  method ProjectDeleted(j: Journal, current: Heads, names: seq<Name>, changes: seq<Event>) returns (events: seq<Event>)
    requires DistinctNames(j.listed) && j.complete && current == Listed(j.listed)
    requires (forall n :: n in names <==> n in current) && EmittedFor(j, changes, names)
    ensures Emits(j, events)
  {
    events := changes;
    var gone := SortedNames(j.previous.Keys - current.Keys);
    for i := 0 to |gone|
      invariant EmittedFor(j, events, names + gone[..i])
    {
      assert gone[i] in gone && gone[i] !in gone[..i];
      assert names + gone[..i + 1] == names + gone[..i] + [gone[i]];
      EmitOne(j, events, names + gone[..i], gone[i]);
      events := events + [Event(Deleted, gone[i], Some(j.previous[gone[i]]), None)];
    }
    assert gone[..|gone|] == gone;
    AllNamesSeen(j, events, names + gone);
  }

  lemma EmitOne(j: Journal, events: seq<Event>, names: seq<Name>, n: Name)
    requires DistinctNames(j.listed) && EmittedFor(j, events, names) && n !in names
    ensures var e := Difference(j.previous, Saved(j), n);
      EmittedFor(j, if e.Some? then events + [e.value] else events, names + [n])
  {
    var e := Difference(j.previous, Saved(j), n);
    if e.Some? {
      var more := events + [e.value];
      assert more[|events|].name == n;
      forall m | m in names + [n] && Difference(j.previous, Saved(j), m).Some? ensures Mentions(more, m) {
        MentionsGrows(events, e.value, m);
      }
    }
  }

  lemma MentionsGrows(events: seq<Event>, e: Event, n: Name)
    ensures Mentions(events + [e], n) <==> Mentions(events, n) || e.name == n
  {
    var more := events + [e];
    assert more[|events|] == e;
    if Mentions(events, n) {
      var i :| 0 <= i < |events| && events[i].name == n;
      assert more[i].name == n;
    }
  }

  /** The events are the differences of these names. */
  ghost predicate EmittedFor(j: Journal, events: seq<Event>, names: seq<Name>)
    requires DistinctNames(j.listed)
  {
    && (forall i | 0 <= i < |events| ::
          events[i].name in names && Difference(j.previous, Saved(j), events[i].name) == Some(events[i]))
    && (forall i, k | 0 <= i < k < |events| :: events[i].name != events[k].name)
    && (forall n | n in names && Difference(j.previous, Saved(j), n).Some? :: Mentions(events, n))
  }

  lemma AllNamesSeen(j: Journal, events: seq<Event>, names: seq<Name>)
    requires DistinctNames(j.listed) && EmittedFor(j, events, names)
    requires forall n | n in Listed(j.listed) :: n in names
    requires j.complete ==> forall n | n in j.previous :: n in names
    ensures Emits(j, events)
  {
    forall n: Name | Difference(j.previous, Saved(j), n).Some? ensures n in names {
    }
  }

  /** What is stored between plans, and the journal of the plan that runs. */
  class Inventory {
    var heads: Heads
    var journal: Option<Journal>
    var dataset: map<EventId, Event>

    constructor ()
      ensures heads == map[] && journal == None && dataset == map[]
    {
      heads, journal, dataset := map[], None, map[];
    }

    /**
    A journalled listing is compared with the map it recorded, not with the one saved since.  A run may stop
    after so many events have been projected: after the journal, among the events, or before the map is saved.
    */
    method Collect(listed: seq<Head>, complete: bool, stopsAfter: Option<nat>)
      returns (ok: bool, ghost events: seq<Event>)
      modifies this
      ensures journal == if old(journal).Some? then old(journal) else Some(Journal(old(heads), listed, complete))
      ensures ok <==> stopsAfter.None? && DistinctNames(journal.value.listed)
      ensures !DistinctNames(journal.value.listed) ==> heads == old(heads) && dataset == old(dataset)
      ensures DistinctNames(journal.value.listed) ==> Emits(journal.value, events)
      ensures ok ==> heads == Saved(journal.value) && dataset == Upsert(old(dataset), events)
      ensures ok ==> SavedAs(heads, journal.value.previous, journal.value.listed, journal.value.complete)
      ensures ok ==> Fold(journal.value.previous, events) == Some(heads)
      ensures !ok && DistinctNames(journal.value.listed) ==>
                && heads == old(heads)
                && dataset == Upsert(old(dataset), if stopsAfter.value <= |events| then events[..stopsAfter.value]
                                                   else events)
    {
      events := [];
      if journal.None? {
        journal := Some(Journal(heads, listed, complete));
      }
      var result := Project(journal.value);
      if result.None? {
        return false, events;
      }
      events := result.value.0;
      if stopsAfter.Some? {
        dataset := Upsert(dataset, Projected(result.value.0, stopsAfter.value));
        return false, events;
      }
      dataset := Upsert(dataset, result.value.0);
      heads := result.value.1;
      return true, events;
    }
  }

  /** The events of a run that stops. */
  function Projected(events: seq<Event>, stopsAfter: nat): seq<Event> {
    if stopsAfter <= |events| then events[..stopsAfter] else events
  }
}
