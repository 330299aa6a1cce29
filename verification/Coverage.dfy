/**
Observed coverage (intervalsCover and requiredCoverageStatus in
internal/investigation/analysisfacts/analysis.go): when may "zero observed" be read as "none happened".
*/
module Coverage {
  import opened Wrappers
  import opened Sorting

  // ----- Intervals -----

  /** A half-open window; a bound that does not parse is absent. Instants count nanoseconds. */
  datatype Window = Window(start: Option<int>, end: Option<int>)

  datatype Span = Span(start: int, end: int)

  predicate Contains(w: Window, t: int) {
    w.start.Some? && w.end.Some? && w.start.value <= t < w.end.value
  }

  ghost predicate CoveredAt(windows: seq<Window>, t: int) {
    exists w | w in windows :: Contains(w, t)
  }

  /** Every instant of the window, and its first instant even when it is empty. */
  ghost predicate CoversAll(windows: seq<Window>, start: int, end: int) {
    forall t | start <= t < (if end > start then end else start + 1) :: CoveredAt(windows, t)
  }

  ghost predicate SpansOf(spans: seq<Span>, windows: seq<Window>) {
    && (forall s | s in spans :: s.start < s.end && Window(Some(s.start), Some(s.end)) in windows)
    && (forall w, t | w in windows && Contains(w, t) :: Span(w.start.value, w.end.value) in spans)
  }

  method ParsedSpans(windows: seq<Window>) returns (spans: seq<Span>)
    ensures SpansOf(spans, windows)
  {
    spans := [];
    for i := 0 to |windows|
      invariant SpansOf(spans, windows[..i])
    {
      var w := windows[i];
      assert windows[..i + 1] == windows[..i] + [w];
      if w.start.Some? && w.end.Some? && w.start.value < w.end.value {
        spans := spans + [Span(w.start.value, w.end.value)];
      }
    }
    assert windows[..|windows|] == windows;
  }

  /** The gap that a span starting after the cursor leaves is covered by nothing. */
  lemma GapIsUncovered(windows: seq<Window>, spans: seq<Span>, i: nat, cursor: int)
    requires SpansOf(spans, windows) && i < |spans| && cursor < spans[i].start
    requires forall j | 0 <= j < i :: spans[j].end <= cursor
    requires forall j | i <= j < |spans| :: spans[i].start <= spans[j].start
    ensures !CoveredAt(windows, cursor)
  {
  }

  lemma EndIsUncovered(windows: seq<Window>, spans: seq<Span>, cursor: int)
    requires SpansOf(spans, windows) && forall j | 0 <= j < |spans| :: spans[j].end <= cursor
    ensures !CoveredAt(windows, cursor)
  {
  }

  lemma SpanCovers(windows: seq<Window>, spans: seq<Span>, s: Span, t: int)
    requires SpansOf(spans, windows) && s in spans && s.start <= t < s.end
    ensures CoveredAt(windows, t)
  {
    assert Contains(Window(Some(s.start), Some(s.end)), t);
  }

  method IntervalsCover(windows: seq<Window>, start: int, end: int) returns (covered: bool)
    ensures covered <==> CoversAll(windows, start, end)
  {
    var parsed := ParsedSpans(windows);
    var spans := SortBy(parsed, (s: Span) => s.start);
    SameElements(spans, parsed);
    var cursor := start;
    for i := 0 to |spans|
      invariant start <= cursor
      invariant cursor == start || cursor < end
      invariant forall j | 0 <= j < i :: spans[j].end <= cursor
      invariant forall t | start <= t < cursor :: CoveredAt(windows, t)
    {
      var s := spans[i];
      if s.end <= cursor {
        continue;
      }
      if s.start > cursor {
        GapIsUncovered(windows, spans, i, cursor);
        return false;
      }
      forall t | cursor <= t < s.end ensures CoveredAt(windows, t) {
        SpanCovers(windows, spans, s, t);
      }
      if s.end > cursor {
        cursor := s.end;
      }
      if cursor >= end {
        return true;
      }
    }
    EndIsUncovered(windows, spans, cursor);
    return false;
  }

  // ----- Required collections -----

  type Name = nat

  datatype Status = Complete | Partial | NotSelected | Unsupported | Unknown

  datatype Resource = Resource(source: Name, id: Name)

  /** A coverage row of the bundle; a status other than the four named ones counts as partial. */
  datatype Row = Row(resource: Resource, collection: Name, status: Status, covered: seq<Window>)

  predicate IsFor(row: Row, r: Resource, collection: Name) {
    row.resource == r && row.collection == collection
  }

  /** Some row says that nothing can be said, or there is no row at all. */
  ghost predicate Undecidable(rows: seq<Row>, r: Resource, collection: Name) {
    || (forall row | row in rows :: !IsFor(row, r, collection))
    || exists row | row in rows ::
          IsFor(row, r, collection) && (row.status.NotSelected? || row.status.Unsupported? || row.status.Unknown?)
  }

  ghost predicate SomeRowCovers(rows: seq<Row>, r: Resource, collection: Name, t: int) {
    exists row | row in rows :: IsFor(row, r, collection) && CoveredAt(row.covered, t)
  }

  /** There are rows, they are all complete, and together they cover the window instant by instant. */
  ghost predicate WellCovered(rows: seq<Row>, r: Resource, collection: Name, start: int, end: int) {
    && (exists row | row in rows :: IsFor(row, r, collection))
    && (forall row | row in rows && IsFor(row, r, collection) :: row.status.Complete?)
    && (forall t | start <= t < (if end > start then end else start + 1) :: SomeRowCovers(rows, r, collection, t))
  }

  /** The first of the rows that decides nothing says why; without any row the status is unknown. */
  ghost predicate FirstUndecided(rows: seq<Row>, r: Resource, collection: Name, status: Status) {
    || (status.Unknown? && forall i | 0 <= i < |rows| :: rows[i].resource != r || rows[i].collection != collection)
    || exists i | 0 <= i < |rows| ::
         && rows[i].resource == r && rows[i].collection == collection && rows[i].status == status
         && (status.NotSelected? || status.Unsupported? || status.Unknown?)
         && forall j | 0 <= j < i && rows[j].resource == r && rows[j].collection == collection ::
              rows[j].status.Complete? || rows[j].status.Partial?
  }

  datatype Verdict = Decided(ok: bool) | Blocked(status: Status)

  /** What has been gathered from the rows of a collection: whether there are any, all complete, and what they cover. */
  ghost predicate Gathered(rows: seq<Row>, r: Resource, collection: Name, found: bool, allComplete: bool,
                           windows: seq<Window>)
  {
    && (found <==> exists row | row in rows :: IsFor(row, r, collection))
    && (allComplete <==> forall row | row in rows && IsFor(row, r, collection) :: row.status.Complete?)
    && (forall row | row in rows && IsFor(row, r, collection) :: row.status.Complete? || row.status.Partial?)
    && (forall w :: w in windows <==> exists row | row in rows :: IsFor(row, r, collection) && w in row.covered)
  }

  lemma GatherSnoc(rows: seq<Row>, r: Resource, collection: Name, found: bool, allComplete: bool,
                   windows: seq<Window>, row: Row)
    requires Gathered(rows, r, collection, found, allComplete, windows)
    ensures !IsFor(row, r, collection) ==> Gathered(rows + [row], r, collection, found, allComplete, windows)
    ensures IsFor(row, r, collection) && (row.status.Complete? || row.status.Partial?) ==>
      Gathered(rows + [row], r, collection, true, allComplete && row.status.Complete?, windows + row.covered)
  {
    var more := rows + [row];
    assert forall x :: x in more <==> x in rows || x == row;
    if IsFor(row, r, collection) {
      forall w
        ensures w in windows + row.covered <==> exists x | x in more :: IsFor(x, r, collection) && w in x.covered
      {
        if w in row.covered { assert row in more; }
        if w in windows {
          var x :| x in rows && IsFor(x, r, collection) && w in x.covered;
          assert x in more;
        }
      }
      assert row in more;
    } else {
      forall w ensures w in windows <==> exists x | x in more :: IsFor(x, r, collection) && w in x.covered {
        if w in windows {
          var x :| x in rows && IsFor(x, r, collection) && w in x.covered;
          assert x in more;
        }
      }
    }
  }

  /** The status of one required collection of one resource. */
  method Judge(rows: seq<Row>, r: Resource, collection: Name, start: int, end: int) returns (verdict: Verdict)
    ensures verdict.Blocked? <==> Undecidable(rows, r, collection)
    ensures verdict.Decided? ==> (verdict.ok <==> WellCovered(rows, r, collection, start, end))
    ensures verdict.Blocked? ==> FirstUndecided(rows, r, collection, verdict.status)
  {
    var found, allComplete, windows: seq<Window> := false, true, [];
    for i := 0 to |rows|
      invariant Gathered(rows[..i], r, collection, found, allComplete, windows)
    {
      var row := rows[i];
      assert rows[..i + 1] == rows[..i] + [row];
      GatherSnoc(rows[..i], r, collection, found, allComplete, windows, row);
      if row.resource != r || row.collection != collection {
        continue;
      }
      found := true;
      if row.status.NotSelected? || row.status.Unsupported? || row.status.Unknown? {
        assert row in rows;
        assert forall j | 0 <= j < i :: rows[j] in rows[..i];
        return Blocked(row.status);
      }
      if !row.status.Complete? {
        allComplete := false;
      }
      windows := windows + row.covered;
    }
    assert rows[..|rows|] == rows;
    if !found {
      return Blocked(Unknown);
    }
    var covered := IntervalsCover(windows, start, end);
    WindowsOfRows(rows, r, collection, windows);
    verdict := Decided(allComplete && covered);
  }

  lemma WindowsOfRows(rows: seq<Row>, r: Resource, collection: Name, windows: seq<Window>)
    requires forall w :: w in windows <==> exists row | row in rows :: IsFor(row, r, collection) && w in row.covered
    ensures forall t :: CoveredAt(windows, t) <==> SomeRowCovers(rows, r, collection, t)
  {
    forall t ensures CoveredAt(windows, t) <==> SomeRowCovers(rows, r, collection, t) {
      if CoveredAt(windows, t) {
        var w :| w in windows && Contains(w, t);
        var row :| row in rows && IsFor(row, r, collection) && w in row.covered;
        assert CoveredAt(row.covered, t);
      }
      if SomeRowCovers(rows, r, collection, t) {
        var row :| row in rows && IsFor(row, r, collection) && CoveredAt(row.covered, t);
        var w :| w in row.covered && Contains(w, t);
        assert w in windows;
      }
    }
  }

  /**
  Resources are visited in no fixed order, so which of the three undecided answers is given may vary;
  whether the answer is complete, or partial, or one of those three does not.
  */
  method RequiredCoverageStatus(rows: seq<Row>, resources: set<Resource>, start: int, end: int, collections: seq<Name>)
    returns (status: Status)
    ensures status.Complete? <==>
              resources != {} && forall r, c | r in resources && c in collections :: WellCovered(rows, r, c, start, end)
    ensures status.Complete? || status.Partial? <==>
              resources != {} && forall r, c | r in resources && c in collections :: !Undecidable(rows, r, c)
    ensures status.NotSelected? || status.Unsupported? || (status.Unknown? && resources != {}) ==>
              exists r, c | r in resources && c in collections :: FirstUndecided(rows, r, c, status)
  {
    if resources == {} {
      return Unknown;
    }
    status := Complete;
    var left := resources;
    while left != {}
      invariant left <= resources && (status.Complete? || status.Partial?)
      invariant forall r, c | r in resources - left && c in collections :: !Undecidable(rows, r, c)
      invariant status.Complete? <==>
            forall r, c | r in resources - left && c in collections :: WellCovered(rows, r, c, start, end)
      decreases |left|
    {
      var r :| r in left;
      ghost var before := status;
      for i := 0 to |collections|
        invariant status.Complete? || status.Partial?
        invariant forall c | c in collections[..i] :: !Undecidable(rows, r, c)
        invariant status.Complete? <==>
              before.Complete? && forall c | c in collections[..i] :: WellCovered(rows, r, c, start, end)
      {
        assert collections[..i + 1] == collections[..i] + [collections[i]];
        var verdict := Judge(rows, r, collections[i], start, end);
        if verdict.Blocked? {
          assert collections[i] in collections;
          WellCoveredIsDecidable(rows, r, collections[i], start, end);
          return verdict.status;
        }
        if !verdict.ok {
          status := Partial;
        }
      }
      assert collections[..|collections|] == collections;
      left := left - {r};
    }
  }

  lemma WellCoveredIsDecidable(rows: seq<Row>, r: Resource, collection: Name, start: int, end: int)
    ensures Undecidable(rows, r, collection) ==> !WellCovered(rows, r, collection, start, end)
  {
  }
}
