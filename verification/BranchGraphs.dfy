/**
The queue of branch graphs (internal/investigation/core/git_branch_graphs.go).

Each round fetches the graphs of at most three pending heads, starting after a cursor and wrapping
around.  The chosen heads and every fetched graph are journalled before the state changes, so a
round that stops halfway is finished, not restarted.
*/
module BranchGraphs {
  import opened Wrappers
  import opened Sorting

  type Name = nat  // a ref name; the order of names is the order of their bytes
  type Oid = nat

  const PER_ROUND := 3
  const NO_CURSOR := -1 // the empty cursor sorts before every name

  datatype Head = Head(name: Name, oid: Oid)

  // ----- The order of a round -----

  /** From a cursor, the names after it come first, then the others. */
  predicate Before(cursor: int, x: int, y: int) {
    if (x > cursor) == (y > cursor) then x < y else x > cursor
  }

  /** The first round starts at the first name. */
  lemma FirstRoundIsInOrder(x: Name, y: Name)
    ensures Before(NO_CURSOR, x, y) <==> x < y
  {
  }

  /** The first three pending names from the cursor, all of them when there are fewer. */
  ghost predicate Selects(pending: set<Name>, cursor: int, chosen: seq<Name>) {
    && |chosen| == (if |pending| < PER_ROUND then |pending| else PER_ROUND)
    && (forall i | 0 <= i < |chosen| :: chosen[i] in pending)
    && (forall i, j | 0 <= i < j < |chosen| :: Before(cursor, chosen[i], chosen[j]))
    && (forall i, y | 0 <= i < |chosen| && y in pending && y !in chosen :: Before(cursor, chosen[i], y))
  }

  function NextCursor(cursor: int, chosen: seq<Name>): int {
    if chosen == [] then cursor else chosen[|chosen| - 1]
  }

  ghost function ToSet(chosen: seq<Name>): set<Name> {
    set x | x in chosen
  }

  // ----- Fairness -----

  /** A completed round: what was chosen, and which of those graphs were fetched. */
  datatype Round = Round(chosen: seq<Name>, fetched: set<Name>)

  /** Completed rounds over one listing; a head leaves the queue only when it is fetched. */
  ghost predicate AreRounds(pending: set<Name>, cursor: int, rounds: seq<Round>)
    decreases |rounds|
  {
    rounds == [] ||
    (&& Selects(pending, cursor, rounds[0].chosen)
     && rounds[0].fetched <= ToSet(rounds[0].chosen)
     && AreRounds(pending - rounds[0].fetched, NextCursor(cursor, rounds[0].chosen), rounds[1..]))
  }

  ghost function PendingAfter(pending: set<Name>, rounds: seq<Round>): set<Name> {
    if rounds == [] then pending else PendingAfter(pending - rounds[0].fetched, rounds[1..])
  }

  ghost function Ahead(pending: set<Name>, cursor: int, h: Name): set<Name> {
    set x | x in pending && Before(cursor, x, h)
  }

  lemma {:induction false} SizeOfChosen(cursor: int, chosen: seq<Name>)
    requires forall i, j | 0 <= i < j < |chosen| :: Before(cursor, chosen[i], chosen[j])
    ensures |ToSet(chosen)| == |chosen|
  {
    if chosen != [] {
      var last := |chosen| - 1;
      SizeOfChosen(cursor, chosen[..last]);
      assert ToSet(chosen) == ToSet(chosen[..last]) + {chosen[last]};
      assert forall i | 0 <= i < last :: Before(cursor, chosen[i], chosen[last]);
    }
  }

  /** A pending head with fewer than three heads ahead of it is chosen. */
  lemma NearTheFront(pending: set<Name>, cursor: int, chosen: seq<Name>, h: Name)
    requires Selects(pending, cursor, chosen) && h in pending && h !in chosen
    ensures |chosen| == PER_ROUND && PER_ROUND <= |Ahead(pending, cursor, h)|
    ensures ToSet(chosen) <= Ahead(pending, cursor, h)
  {
    SizeOfChosen(cursor, chosen);
    assert ToSet(chosen) <= pending;
    if |chosen| == |pending| {
      SubsetOfSameSize(ToSet(chosen), pending);
    }
    SubsetSize(ToSet(chosen), Ahead(pending, cursor, h));
  }

  lemma SubsetSize(a: set<Name>, b: set<Name>)
    requires a <= b
    ensures |a| <= |b| && |b - a| == |b| - |a|
  {
    assert b == a + (b - a);
  }

  lemma SubsetOfSameSize(a: set<Name>, b: set<Name>)
    requires a <= b && |a| == |b|
    ensures a == b
  {
    assert b == a + (b - a);
  }

  /** A pending head that is not chosen has exactly three fewer heads ahead of it in the next round. */
  lemma RoundMovesUp(pending: set<Name>, cursor: int, round: Round, h: Name)
    requires Selects(pending, cursor, round.chosen) && round.fetched <= ToSet(round.chosen)
    requires h in pending && h !in round.chosen
    ensures |Ahead(pending - round.fetched, NextCursor(cursor, round.chosen), h)|
            == |Ahead(pending, cursor, h)| - PER_ROUND
  {
    NearTheFront(pending, cursor, round.chosen, h);
    SizeOfChosen(cursor, round.chosen);
    var next := NextCursor(cursor, round.chosen);
    forall x | x in pending
      ensures Before(next, x, h) && x !in round.fetched <==> Before(cursor, x, h) && x !in round.chosen
    {
      assert Before(cursor, round.chosen[2], h);
      if x in round.chosen {
        assert x == round.chosen[2] || Before(cursor, x, round.chosen[2]);
      } else {
        assert Before(cursor, round.chosen[2], x);
      }
    }
    assert Ahead(pending - round.fetched, next, h) == Ahead(pending, cursor, h) - ToSet(round.chosen);
    SubsetSize(ToSet(round.chosen), Ahead(pending, cursor, h));
  }

  lemma {:induction false} ChosenWithin(pending: set<Name>, cursor: int, rounds: seq<Round>, h: Name)
    requires AreRounds(pending, cursor, rounds) && h in pending
    requires |Ahead(pending, cursor, h)| / PER_ROUND < |rounds|
    ensures exists i | 0 <= i <= |Ahead(pending, cursor, h)| / PER_ROUND :: h in rounds[i].chosen
    decreases |rounds|
  {
    if h in rounds[0].chosen {
    } else {
      NearTheFront(pending, cursor, rounds[0].chosen, h);
      RoundMovesUp(pending, cursor, rounds[0], h);
      var pending', cursor' := pending - rounds[0].fetched, NextCursor(cursor, rounds[0].chosen);
      ChosenWithin(pending', cursor', rounds[1..], h);
      var i :| 0 <= i <= |Ahead(pending', cursor', h)| / PER_ROUND && h in rounds[1..][i].chosen;
      assert h in rounds[i + 1].chosen;
    }
  }

  function CeilThird(n: nat): nat {
    (n + PER_ROUND - 1) / PER_ROUND
  }

  /** Every pending head is chosen within ceil(n/3) completed rounds, whatever subset of fetches fails. */
  lemma EveryHeadIsChosen(pending: set<Name>, cursor: int, rounds: seq<Round>, h: Name)
    requires AreRounds(pending, cursor, rounds) && h in pending
    requires (|pending| + 2) / 3 <= |rounds|
    ensures exists i | 0 <= i < (|pending| + 2) / 3 :: h in rounds[i].chosen
  {
    assert Ahead(pending, cursor, h) <= pending - {h};
    SubsetSize(Ahead(pending, cursor, h), pending - {h});
    assert |pending - {h}| == |pending| - 1;
    ChosenWithin(pending, cursor, rounds, h);
  }

  /** When every chosen graph is fetched, the queue is empty after ceil(n/3) rounds. */
  lemma {:induction false} QueueDrains(pending: set<Name>, cursor: int, rounds: seq<Round>)
    requires AreRounds(pending, cursor, rounds)
    requires forall i | 0 <= i < |rounds| :: rounds[i].fetched == ToSet(rounds[i].chosen)
    ensures |PendingAfter(pending, rounds)|
            == if |pending| <= 3 * |rounds| then 0 else |pending| - 3 * |rounds|
    decreases |rounds|
  {
    if rounds != [] {
      SizeOfChosen(cursor, rounds[0].chosen);
      SubsetSize(rounds[0].fetched, pending);
      QueueDrains(pending - rounds[0].fetched, NextCursor(cursor, rounds[0].chosen), rounds[1..]);
    }
  }

  // ----- One round, journalled -----

  datatype Journal = Journal(selected: seq<Head>, observed: set<Name>)

  predicate DistinctNames(listing: seq<Head>) {
    forall i, j | 0 <= i < j < |listing| :: listing[i].name != listing[j].name
  }

  predicate IsPending(heads: map<Name, Oid>, default: Option<Name>, head: Head) {
    default != Some(head.name) && (head.name !in heads || heads[head.name] != head.oid)
  }

  ghost function Pending(heads: map<Name, Oid>, default: Option<Name>, listing: seq<Head>): set<Name> {
    set h | h in listing && IsPending(heads, default, h) :: h.name
  }

  function Names(selected: seq<Head>): (names: seq<Name>)
    ensures |names| == |selected| && forall i | 0 <= i < |names| :: names[i] == selected[i].name
  {
    seq(|selected|, i requires 0 <= i < |selected| => selected[i].name)
  }

  /** Each name once, in ascending order, as sorting the pending heads by name leaves them. */
  ghost predicate StrictlyAscending(sorted: seq<Head>) {
    forall i, j | 0 <= i < j < |sorted| :: sorted[i].name < sorted[j].name
  }

  lemma {:induction false} AtMostOnce(xs: seq<Head>, h: Head)
    requires DistinctNames(xs)
    ensures multiset(xs)[h] <= 1
    decreases |xs|
  {
    if xs != [] {
      var last := |xs| - 1;
      AtMostOnce(xs[..last], h);
      assert xs == xs[..last] + [xs[last]];
      if xs[last] == h {
        assert h !in xs[..last];
      }
    }
  }

  lemma Twice(xs: seq<Head>, i: nat, j: nat)
    requires i < j < |xs| && xs[i] == xs[j]
    ensures multiset(xs)[xs[i]] >= 2
  {
    assert xs == xs[..j] + [xs[j]] + xs[j + 1..];
    assert xs[i] in xs[..j];
  }

  lemma SortedIsStrict(pending: seq<Head>, sorted: seq<Head>)
    requires DistinctNames(pending) && multiset(sorted) == multiset(pending)
    requires Ascending(sorted, (h: Head) => h.name)
    ensures StrictlyAscending(sorted)
  {
    SameElements(sorted, pending);
    var key := (h: Head) => h.name;
    forall i, j | 0 <= i < j < |sorted| ensures sorted[i].name < sorted[j].name {
      assert key(sorted[i]) <= key(sorted[j]);
      if sorted[i].name == sorted[j].name {
        assert sorted[i] in pending && sorted[j] in pending;
        assert sorted[i] == sorted[j];
        Twice(sorted, i, j);
        AtMostOnce(pending, sorted[i]);
      }
    }
  }

  ghost function NameSet(heads: seq<Head>): set<Name> {
    set h | h in heads :: h.name
  }

  lemma NameSetSnoc(heads: seq<Head>, h: Head)
    ensures NameSet(heads + [h]) == NameSet(heads) + {h.name}
  {
  }

  lemma {:induction false} SizeOfNames(sorted: seq<Head>)
    requires StrictlyAscending(sorted)
    ensures |NameSet(sorted)| == |sorted|
    decreases |sorted|
  {
    if sorted != [] {
      var last := |sorted| - 1;
      SizeOfNames(sorted[..last]);
      assert sorted == sorted[..last] + [sorted[last]];
      NameSetSnoc(sorted[..last], sorted[last]);
    }
  }

  /** The first index whose name is after the cursor. */
  function SearchAfter(sorted: seq<Head>, cursor: int): (start: nat)
    requires StrictlyAscending(sorted)
    ensures start <= |sorted|
    ensures forall i | 0 <= i < |sorted| :: sorted[i].name > cursor <==> start <= i
  {
    if sorted == [] || sorted[0].name > cursor then 0 else 1 + SearchAfter(sorted[1..], cursor)
  }

  /** Position i of the rotation that starts at `start`. */
  function Rotated(sorted: seq<Head>, start: nat, i: nat): Head
    requires i < |sorted| && start <= |sorted|
  {
    var p := start + i;
    sorted[if p < |sorted| then p else p - |sorted|]
  }

  lemma Wrap(x: nat, n: nat)
    requires 0 < n && x < 2 * n
    ensures x % n == if x < n then x else x - n
  {
    if x >= n {
      assert x == n + (x - n);
    }
  }

  lemma RotationOrder(sorted: seq<Head>, cursor: int, start: nat, i: nat, j: nat)
    requires StrictlyAscending(sorted) && i < j < |sorted| && start == SearchAfter(sorted, cursor)
    ensures Before(cursor, Rotated(sorted, start, i).name, Rotated(sorted, start, j).name)
  {
  }

  /** Every position of the rotation is reached. */
  lemma RotationCovers(sorted: seq<Head>, start: nat, y: Name) returns (j: nat)
    requires start <= |sorted| && y in NameSet(sorted)
    ensures j < |sorted| && Rotated(sorted, start, j).name == y
  {
    var p :| 0 <= p < |sorted| && sorted[p].name == y;
    j := if p >= start then p - start else p + |sorted| - start;
  }

  lemma RotationSelects(sorted: seq<Head>, cursor: int, start: nat, selected: seq<Head>)
    requires StrictlyAscending(sorted) && start == SearchAfter(sorted, cursor)
    requires |selected| == if |sorted| < PER_ROUND then |sorted| else PER_ROUND
    requires forall i | 0 <= i < |selected| :: selected[i] == Rotated(sorted, start, i)
    ensures Selects(NameSet(sorted), cursor, Names(selected))
  {
    SizeOfNames(sorted);
    forall j | 0 <= j < |selected|
      ensures Names(selected)[j] in NameSet(sorted) && Rotated(sorted, start, j).name in Names(selected)
    {
      assert selected[j] in sorted && Names(selected)[j] == selected[j].name;
    }
    forall i, j | 0 <= i < j < |selected| ensures Before(cursor, Names(selected)[i], Names(selected)[j]) {
      RotationOrder(sorted, cursor, start, i, j);
    }
    forall i, y | 0 <= i < |selected| && y in NameSet(sorted) && y !in Names(selected)
      ensures Before(cursor, Names(selected)[i], y)
    {
      var j := RotationCovers(sorted, start, y);
      RotationOrder(sorted, cursor, start, i, j);
    }
  }

  /** The listed heads whose graph is missing or out of date, in listing order. */
  method CollectPending(listing: seq<Head>, default: Option<Name>, heads: map<Name, Oid>) returns (pending: seq<Head>)
    requires DistinctNames(listing)
    ensures DistinctNames(pending)
    ensures forall h :: h in pending <==> h in listing && IsPending(heads, default, h)
    ensures forall h :: h in pending <==>
      h in listing && default != Some(h.name) && !(h.name in heads && heads[h.name] == h.oid)
  {
    pending := [];
    for i := 0 to |listing|
      invariant DistinctNames(pending)
      invariant forall h :: h in pending <==> h in listing[..i] && IsPending(heads, default, h)
    {
      assert listing[..i + 1] == listing[..i] + [listing[i]];
      if IsPending(heads, default, listing[i]) {
        forall h | h in pending ensures h.name != listing[i].name {
          var j :| 0 <= j < i && listing[j] == h;
        }
        pending := pending + [listing[i]];
      }
    }
    assert listing[..|listing|] == listing;
  }

  /** At most three heads of the rotation. */
  method TakeRotated(sorted: seq<Head>, cursor: int) returns (selected: seq<Head>)
    requires StrictlyAscending(sorted)
    ensures Selects(NameSet(sorted), cursor, Names(selected))
    ensures forall h | h in selected :: h in sorted
  {
    var start := SearchAfter(sorted, cursor);
    selected := [];
    var i := 0;
    while i < |sorted| && i < PER_ROUND
      invariant 0 <= i <= |sorted| && i <= PER_ROUND && |selected| == i
      invariant forall j | 0 <= j < i :: selected[j] == Rotated(sorted, start, j)
    {
      Wrap(start + i, |sorted|);
      selected := selected + [sorted[(start + i) % |sorted|]];
      i := i + 1;
    }
    RotationSelects(sorted, cursor, start, selected);
  }

  method SelectRound(listing: seq<Head>, default: Option<Name>, heads: map<Name, Oid>, cursor: int)
    returns (selected: seq<Head>)
    requires DistinctNames(listing)
    ensures Selects(Pending(heads, default, listing), cursor, Names(selected))
    ensures forall h | h in selected ::
      h in listing && default != Some(h.name) && !(h.name in heads && heads[h.name] == h.oid)
    ensures |selected| <= 3
    ensures |selected| < 3 ==> forall h | h in listing && default != Some(h.name) && h !in selected ::
      h.name in heads && heads[h.name] == h.oid
  {
    var pending := CollectPending(listing, default, heads);
    var sorted := SortBy(pending, (h: Head) => h.name);
    SortedIsStrict(pending, sorted);
    SameElements(sorted, pending);
    SameNames(sorted, listing, default, heads);
    selected := TakeRotated(sorted, cursor);
    AllTaken(sorted, selected, cursor);
  }

  /** Fewer than three heads are selected only when there are no more. */
  lemma AllTaken(sorted: seq<Head>, selected: seq<Head>, cursor: int)
    requires StrictlyAscending(sorted) && Selects(NameSet(sorted), cursor, Names(selected))
    requires forall h | h in selected :: h in sorted
    ensures |selected| < PER_ROUND ==> forall h | h in sorted :: h in selected
  {
    if |selected| < PER_ROUND {
      SizeOfChosen(cursor, Names(selected));
      SubsetOfSameSize(ToSet(Names(selected)), NameSet(sorted));
      forall h | h in sorted ensures h in selected {
        assert h.name in ToSet(Names(selected));
        var i :| 0 <= i < |selected| && Names(selected)[i] == h.name;
        assert selected[i] in sorted;
      }
    }
  }

  lemma SameNames(sorted: seq<Head>, listing: seq<Head>, default: Option<Name>, heads: map<Name, Oid>)
    requires forall h :: h in sorted <==> h in listing && IsPending(heads, default, h)
    ensures NameSet(sorted) == Pending(heads, default, listing)
  {
  }

  /** The stored state of one repository's queue and the journal of the plan's round. */
  class Queue {
    var heads: map<Name, Oid>        // gitbranchgraphs: the fetched graphs
    var cursor: int
    var journal: Option<Journal>     // gitbranchgraphrounds
    /** History: what the journalled round had fetched when the state was last put. */
    ghost var kept: set<Name>

    constructor ()
      ensures heads == map[] && cursor == NO_CURSOR && journal == None && kept == {}
    {
      heads, cursor, journal, kept := map[], NO_CURSOR, None, {};
    }

    /** The state is the one the journalled round was selected from. */
    ghost predicate RoundOpen(listing: seq<Head>, default: Option<Name>)
      reads this
    {
      journal.Some? && Selects(Pending(heads, default, listing), cursor, Names(journal.value.selected))
    }

    /** The state has been put for the journalled round: the run failed after the put, or stopped there. */
    ghost predicate RoundSaved()
      reads this
    {
      && journal.Some?
      && cursor == NextCursor(cursor, Names(journal.value.selected))
      && (forall h | h in journal.value.selected && h.name in kept :: h.name in heads && heads[h.name] == h.oid)
    }

    ghost predicate Valid(listing: seq<Head>, default: Option<Name>)
      reads this
    {
      && DistinctNames(listing)
      && (journal.None? ==> kept == {})
      && (journal.Some? ==>
            && (forall h | h in journal.value.selected :: h in listing)
            && kept <= journal.value.observed <= ToSet(Names(journal.value.selected))
            && ((RoundOpen(listing, default) && kept == {}) || RoundSaved()))
    }

    /** Another plan starts: its round has no journal yet. */
    method NextPlan()
      modifies this`journal, this`kept
      ensures journal == None && kept == {}
    {
      journal, kept := None, {};
    }

    /**
     * One run of a plan's round.  `available` are the heads whose fetch succeeds; the process stops
     * for good before the head number `stopsAt`, if there is one, or before the state is put when
     * `putsState` is false.  A run that fails after the put is one that saved.
     */
    method Collect(listing: seq<Head>, default: Option<Name>, available: set<Name>, stopsAt: nat, putsState: bool)
      returns (saved: bool, fetched: set<Name>)
      requires Valid(listing, default)
      modifies this
      ensures journal.Some? && Valid(listing, default) && fetched == journal.value.observed
      ensures old(journal).Some? ==>
        journal.value.selected == old(journal).value.selected && old(journal).value.observed <= fetched
      ensures old(journal).None? || old(RoundOpen(listing, default)) ==>
        Selects(old(Pending(heads, default, listing)), old(cursor), Names(journal.value.selected))
      ensures old(journal).Some? && old(RoundSaved()) ==> cursor == old(cursor)
      ensures !saved ==> heads == old(heads) && cursor == old(cursor) && kept == old(kept)
      ensures saved <==> |journal.value.selected| <= stopsAt && putsState
      ensures saved ==>
        && RoundSaved() && kept == fetched && cursor == NextCursor(old(cursor), Names(journal.value.selected))
        && ToSet(Names(journal.value.selected)) * available <= fetched <= ToSet(Names(journal.value.selected))
        && fetched <= available + (if old(journal).Some? then old(journal).value.observed else {})
        && Fetched(heads, old(heads), journal.value.selected, fetched)
        && LeavesQueue(heads, old(heads), listing, default, fetched, old(kept))
    {
      OpenRound(listing, default);
      var fetchedAll, graphs := FetchSelected(listing, available, stopsAt);
      fetched := journal.value.observed;
      if !fetchedAll || !putsState {
        return false, fetched;
      }
      PutState(listing, default, graphs);
      return true, fetched;
    }

    /** The fetched graphs and the cursor after the round become the stored state. */
    method PutState(listing: seq<Head>, default: Option<Name>, graphs: map<Name, Oid>)
      requires DistinctNames(listing) && journal.Some? && forall h | h in journal.value.selected :: h in listing
      requires kept <= journal.value.observed <= ToSet(Names(journal.value.selected)) && (kept == {} || RoundSaved())
      requires Fetched(graphs, heads, journal.value.selected, journal.value.observed)
      modifies this`heads, this`cursor, this`kept
      ensures RoundSaved() && heads == graphs && kept == journal.value.observed
      ensures cursor == NextCursor(old(cursor), Names(journal.value.selected))
      ensures LeavesQueue(heads, old(heads), listing, default, kept, old(kept))
    {
      var selected := journal.value.selected;
      PutLeavesQueue(graphs, heads, listing, default, selected, journal.value.observed, kept, kept != {});
      if |selected| > 0 {
        cursor := selected[|selected| - 1].name;
      }
      heads := graphs;
      kept := journal.value.observed;
    }

    /** The plan's journalled round, selected and journalled now when there is none. */
    method OpenRound(listing: seq<Head>, default: Option<Name>)
      requires Valid(listing, default)
      modifies this`journal
      ensures journal.Some? && Valid(listing, default)
      ensures old(journal).Some? ==> journal == old(journal)
      ensures old(journal).None? ==> RoundOpen(listing, default) && journal.value.observed == {}
    {
      if journal.None? {
        var selected := SelectRound(listing, default, heads, cursor);
        journal := Some(Journal(selected, {}));
      }
    }

    /** A plan's round in one uninterrupted run. */
    method PlanRound(listing: seq<Head>, default: Option<Name>, available: set<Name>) returns (round: Round)
      requires DistinctNames(listing)
      modifies this
      ensures Selects(old(Pending(heads, default, listing)), old(cursor), round.chosen)
      ensures round.fetched == ToSet(round.chosen) * available
      ensures cursor == NextCursor(old(cursor), round.chosen)
      ensures Pending(heads, default, listing) == old(Pending(heads, default, listing)) - round.fetched
    {
      NextPlan();
      var _, fetched := Collect(listing, default, available, PER_ROUND, true);
      round := Round(Names(journal.value.selected), fetched);
    }

    /** Fetches what the journal does not hold yet, journalling every graph before the next one. */
    method FetchSelected(listing: seq<Head>, available: set<Name>, stopsAt: nat)
      returns (completed: bool, graphs: map<Name, Oid>)
      requires journal.Some? && DistinctNames(listing)
      requires forall h | h in journal.value.selected :: h in listing
      requires journal.value.observed <= ToSet(Names(journal.value.selected))
      modifies this`journal
      ensures journal.Some? && journal.value.selected == old(journal).value.selected
      ensures old(journal).value.observed <= journal.value.observed <= ToSet(Names(journal.value.selected))
      ensures journal.value.observed <= old(journal).value.observed + available
      ensures completed <==> |journal.value.selected| <= stopsAt
      ensures completed ==> ToSet(Names(journal.value.selected)) * available <= journal.value.observed
      ensures completed ==> Fetched(graphs, heads, journal.value.selected, journal.value.observed)
    {
      var selected, observed := journal.value.selected, journal.value.observed;
      graphs := heads;
      for i := 0 to |selected|
        invariant journal == Some(Journal(selected, observed))
        invariant old(journal).value.observed <= observed <= ToSet(Names(selected))
        invariant observed <= old(journal).value.observed + available
        invariant i <= stopsAt
        invariant Fetched(graphs, heads, selected[..i], observed)
        invariant forall j | 0 <= j < i && Names(selected)[j] in available :: Names(selected)[j] in observed
      {
        if i == stopsAt {
          return false, graphs;
        }
        var head := selected[i];
        FetchedStep(graphs, heads, selected, i, observed, listing);
        assert Names(selected)[i] == head.name;
        if head.name !in observed {
          if head.name !in available {
            continue;
          }
          observed := observed + {head.name};
          journal := Some(Journal(selected, observed));
        }
        assert observed + {head.name} == observed;
        graphs := graphs[head.name := head.oid];
      }
      assert selected[..|selected|] == selected;
      return true, graphs;
    }
  }

  /** The graphs after a prefix of the round: those observed carry the listed commit, the others are as before. */
  ghost predicate Fetched(graphs: map<Name, Oid>, before: map<Name, Oid>, done: seq<Head>, observed: set<Name>) {
    && (forall h | h in done && h.name in observed :: h.name in graphs && graphs[h.name] == h.oid)
    && (forall n | n in graphs ::
          (n in before && graphs[n] == before[n]) || (n in observed && exists h | h in done :: h.name == n))
    && (forall n | n in before ::
          n in graphs && (graphs[n] == before[n] || (n in observed && exists h | h in done :: h.name == n)))
  }

  lemma FetchedStep(graphs: map<Name, Oid>, before: map<Name, Oid>, selected: seq<Head>, i: nat, observed: set<Name>,
                    listing: seq<Head>)
    requires i < |selected| && Fetched(graphs, before, selected[..i], observed)
    requires DistinctNames(listing) && forall h | h in selected :: h in listing
    ensures selected[i].name !in observed ==> Fetched(graphs, before, selected[..i + 1], observed)
    ensures Fetched(graphs[selected[i].name := selected[i].oid], before, selected[..i + 1],
                    observed + {selected[i].name})
  {
    var done, more, head := selected[..i], selected[..i + 1], selected[i];
    assert more == done + [head];
    forall h | h in done && h.name == head.name ensures h == head {
      assert h in listing && head in listing;
    }
    assert head in more;
    forall h | h in done ensures h in more {
    }
  }

  lemma FetchedLeavesQueue(graphs: map<Name, Oid>, before: map<Name, Oid>, selected: seq<Head>, observed: set<Name>,
                           listing: seq<Head>, default: Option<Name>)
    requires DistinctNames(listing) && Fetched(graphs, before, selected, observed)
    requires observed <= ToSet(Names(selected)) && forall h | h in selected :: h in listing
    ensures Pending(graphs, default, listing) == Pending(before, default, listing) - observed
  {
    forall h | h in listing
      ensures IsPending(graphs, default, h) <==> IsPending(before, default, h) && h.name !in observed
    {
      if h.name in observed {
        var i :| 0 <= i < |selected| && Names(selected)[i] == h.name;
        assert selected[i] in listing && selected[i] == h;
      }
    }
  }

  /** What has been kept is not pending. */
  lemma KeptIsNotPending(heads: map<Name, Oid>, default: Option<Name>, listing: seq<Head>, selected: seq<Head>,
                         kept: set<Name>)
    requires DistinctNames(listing) && (forall h | h in selected :: h in listing) && kept <= ToSet(Names(selected))
    requires forall h | h in selected && h.name in kept :: h.name in heads && heads[h.name] == h.oid
    ensures Pending(heads, default, listing) !! kept
  {
    forall h | h in listing && h.name in kept ensures !IsPending(heads, default, h) {
      var i :| 0 <= i < |selected| && Names(selected)[i] == h.name;
      assert selected[i] in listing && selected[i] == h;
    }
  }

  /** The queue loses what was fetched, and of that exactly what had not been kept before. */
  ghost predicate LeavesQueue(after: map<Name, Oid>, before: map<Name, Oid>, listing: seq<Head>, default: Option<Name>,
                              fetched: set<Name>, kept: set<Name>)
  {
    && Pending(after, default, listing) == Pending(before, default, listing) - fetched
    && Pending(after, default, listing) == Pending(before, default, listing) - (fetched - kept)
  }

  lemma PutLeavesQueue(graphs: map<Name, Oid>, before: map<Name, Oid>, listing: seq<Head>, default: Option<Name>,
                       selected: seq<Head>, fetched: set<Name>, kept: set<Name>, saved: bool)
    requires DistinctNames(listing) && (forall h | h in selected :: h in listing)
    requires kept <= fetched <= ToSet(Names(selected)) && Fetched(graphs, before, selected, fetched)
    requires if saved then forall h | h in selected && h.name in kept :: h.name in before && before[h.name] == h.oid
             else kept == {}
    ensures LeavesQueue(graphs, before, listing, default, fetched, kept)
  {
    if saved { KeptIsNotPending(before, default, listing, selected, kept); }
    FetchedLeavesQueue(graphs, before, selected, fetched, listing, default);
  }

  /** One completed round per plan over an unchanged listing: exactly the rounds the fairness lemmas speak of. */
  method RunPlans(queue: Queue, listing: seq<Head>, default: Option<Name>, available: seq<set<Name>>)
    returns (rounds: seq<Round>)
    requires DistinctNames(listing)
    modifies queue
    ensures |rounds| == |available|
    ensures AreRounds(old(Pending(queue.heads, default, listing)), old(queue.cursor), rounds)
    ensures Pending(queue.heads, default, listing) == PendingAfter(old(Pending(queue.heads, default, listing)), rounds)
    ensures forall i | 0 <= i < |rounds| :: rounds[i].fetched == ToSet(rounds[i].chosen) * available[i]
    decreases |available|
  {
    if available == [] {
      return [];
    }
    var first := queue.PlanRound(listing, default, available[0]);
    var rest := RunPlans(queue, listing, default, available[1..]);
    rounds := [first] + rest;
    FirstRound(old(Pending(queue.heads, default, listing)), old(queue.cursor), first, rest);
  }

  lemma FirstRound(pending: set<Name>, cursor: int, first: Round, rest: seq<Round>)
    requires Selects(pending, cursor, first.chosen) && first.fetched <= ToSet(first.chosen)
    requires AreRounds(pending - first.fetched, NextCursor(cursor, first.chosen), rest)
    ensures AreRounds(pending, cursor, [first] + rest)
    ensures PendingAfter(pending, [first] + rest) == PendingAfter(pending - first.fetched, rest)
  {
    assert ([first] + rest)[1..] == rest;
  }
}
