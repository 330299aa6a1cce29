/**
The event-sourced annotation store (internal/investigation/annotations/store.go): rows, versions and a
revision in memory, and an append-only journal of one record a line on disk.
*/
module Annotations {
  import opened Wrappers
  import opened Sorting
  import opened Tokens

  /** Identifiers and other short strings are ordered values; zero is the empty string. */
  type Name = nat

  datatype TargetType = Component | Finding | Report | SavedQuery | Snapshot | OtherTarget(name: Name)

  datatype Annotation = Annotation(id: Name, investigation: Name, snapshot: Name, targetType: TargetType, target: Name,
                                   body: string, operator: string, resolved: bool, revision: int, globalRevision: int,
                                   createdAt: int, updatedAt: int)

  datatype Action = Created | Updated | Resolved | Deleted

  datatype Event = Event(action: Action, annotation: Annotation)

  // ----- Memory -----

  datatype State = State(rows: map<Name, Annotation>, versions: seq<Annotation>, revision: int)

  const EMPTY := State(map[], [], 0)

  function Apply(s: State, e: Event): State {
    var a := e.annotation;
    var revision := if a.globalRevision > s.revision then a.globalRevision else s.revision;
    if e.action.Deleted? then State(s.rows - {a.id}, s.versions, revision)
    else State(s.rows[a.id := a], s.versions + [a], revision)
  }

  function Replay(events: seq<Event>): State {
    if events == [] then EMPTY else Apply(Replay(events[..|events| - 1]), events[|events| - 1])
  }

  lemma ReplaySnoc(events: seq<Event>, e: Event)
    ensures Replay(events + [e]) == Apply(Replay(events), e)
  {
    assert (events + [e])[..|events|] == events;
  }

  // ----- Requests -----

  const MAX_BODY := 8000
  const MAX_OPERATOR := 80

  datatype Error = Validation | NotFound | RevisionConflict | NoIdentifier | Storage

  /** `newId` is absent when no random identifier could be made. */
  datatype Op =
    | Create(investigation: Name, snapshot: Name, targetType: TargetType, target: Name, text: string, operator: string,
             newId: Option<Name>)
    | Update(id: Name, expected: int, text: string)
    | Resolve(id: Name, expected: int)

  predicate ValidBody(body: string) {
    0 < |body| <= MAX_BODY
  }

  predicate ValidCreate(op: Op)
    requires op.Create?
  {
    && op.investigation != 0 && op.snapshot != 0 && op.target != 0 && ValidBody(Trim(op.text))
    && 0 < |op.operator| <= MAX_OPERATOR && !op.targetType.OtherTarget?
  }

  /** What a request would append: the journal's next event, or the reason there is none. */
  function Attempt(s: State, op: Op, now: int): Result<Event, Error> {
    match op
    case Create(investigation, snapshot, targetType, target, text, operator, newId) =>
      if !ValidCreate(op) then Err(Validation)
      else if newId.None? then Err(NoIdentifier)
      else Ok(Event(Created, Annotation(newId.value, investigation, snapshot, targetType, target, Trim(text), operator,
                                        false, 1, s.revision + 1, now, now)))
    case Update(id, expected, text) =>
      if id !in s.rows then Err(NotFound)
      else if expected != s.rows[id].revision then Err(RevisionConflict)
      else if !ValidBody(Trim(text)) then Err(Validation)
      else Ok(Event(Updated, s.rows[id].(body := Trim(text), revision := expected + 1, globalRevision := s.revision + 1,
                                         updatedAt := now)))
    case Resolve(id, expected) =>
      if id !in s.rows then Err(NotFound)
      else if expected != s.rows[id].revision then Err(RevisionConflict)
      else Ok(Event(Resolved, s.rows[id].(resolved := true, revision := expected + 1, globalRevision := s.revision + 1,
                                          updatedAt := now)))
  }

  // ----- The journal on disk -----

  /** A line that ends in a newline: one record, or bytes that are not one. */
  datatype Line = Record(event: Event) | Garbage

  /** What follows the last newline: nothing, part of a record, or a whole record. */
  datatype Tail = NoTail | Torn | Whole(event: Event)

  datatype Disk = Disk(lines: seq<Line>, tail: Tail)

  /**
  What happens to one append.  A failed write may leave part of the record, even all of it but the
  newline; a failed sync or close leaves all of it.  Only Appended is reported as success.
  */
  datatype Outcome = Appended | NotWritten | CutShort(whole: bool) | Unsynced

  /** Bytes written after a tail become one line with it, and such a line is not a record. */
  function Written(d: Disk, e: Event, o: Outcome): Disk {
    match o
    case NotWritten => d
    case CutShort(whole) => Disk(d.lines, if d.tail.NoTail? && whole then Whole(e) else Torn)
    case Appended => Disk(d.lines + [if d.tail.NoTail? then Record(e) else Garbage], NoTail)
    case Unsynced => Disk(d.lines + [if d.tail.NoTail? then Record(e) else Garbage], NoTail)
  }

  predicate Readable(lines: seq<Line>) {
    forall i | 0 <= i < |lines| :: lines[i].Record?
  }

  function EventsOf(lines: seq<Line>): (events: seq<Event>)
    requires Readable(lines)
    ensures |events| == |lines|
  {
    if lines == [] then [] else EventsOf(lines[..|lines| - 1]) + [lines[|lines| - 1].event]
  }

  /** The records that a load applies, in order; the last may lack its newline. */
  function Records(d: Disk): seq<Event>
    requires Readable(d.lines)
  {
    EventsOf(d.lines) + if d.tail.Whole? then [d.tail.event] else []
  }

  lemma OneMoreLine(lines: seq<Line>, i: nat)
    requires i < |lines| && Readable(lines[..i]) && lines[i].Record?
    ensures Readable(lines[..i + 1])
    ensures Replay(EventsOf(lines[..i + 1])) == Apply(Replay(EventsOf(lines[..i])), lines[i].event)
  {
    assert lines[..i + 1][..i] == lines[..i];
    ReplaySnoc(EventsOf(lines[..i]), lines[i].event);
  }

  /** What opening the journal yields: nothing when a line in it is corrupt. */
  function Reopened(d: Disk): Option<State> {
    if Readable(d.lines) then Some(Replay(Records(d))) else None
  }

  lemma RecordsAre(d: Disk)
    requires Readable(d.lines)
    ensures var state := Replay(EventsOf(d.lines));
            Reopened(d) == Some(if d.tail.Whole? then Apply(state, d.tail.event) else state)
  {
    var events := EventsOf(d.lines);
    assert events + [] == events;
    if d.tail.Whole? { ReplaySnoc(events, d.tail.event); }
  }

  // ----- Steps -----

  datatype Machine = Machine(disk: Disk, mem: State)

  /** A request that passed its checks, and what happened to its append; any other request changes nothing. */
  datatype Step = Step(event: Event, outcome: Outcome)

  /** Disk first; memory only when the append is reported as done. */
  function Act(m: Machine, step: Step): Machine {
    Machine(Written(m.disk, step.event, step.outcome),
            if step.outcome.Appended? then Apply(m.mem, step.event) else m.mem)
  }

  function Run(m: Machine, steps: seq<Step>): Machine {
    if steps == [] then m else Act(Run(m, steps[..|steps| - 1]), steps[|steps| - 1])
  }

  /** What every event is that a request makes: the next global revision, and the next revision of its annotation. */
  predicate Follows(s: State, e: Event) {
    var a := e.annotation;
    && !e.action.Deleted? && a.globalRevision == s.revision + 1
    && (if e.action.Created? then a.id !in s.rows && a.revision == 1
        else a.id in s.rows && a.snapshot == s.rows[a.id].snapshot && a.revision == s.rows[a.id].revision + 1)
  }

  ghost predicate KeyedById(rows: map<Name, Annotation>) {
    forall id | id in rows :: rows[id].id == id
  }

  /** New identifiers are random and assumed not to repeat. */
  lemma AttemptFollows(s: State, op: Op, now: int)
    requires KeyedById(s.rows) && Attempt(s, op, now).Ok?
    requires op.Create? && op.newId.Some? ==> op.newId.value !in s.rows
    ensures Follows(s, Attempt(s, op, now).value)
    ensures !op.Create? ==>
              && Attempt(s, op, now).value.annotation.id == op.id
              && Attempt(s, op, now).value.annotation.revision == op.expected + 1
  {
  }

  // ----- Time travel -----

  /** The latest version of each annotation of a snapshot, among those up to a global revision. */
  function Latest(versions: seq<Annotation>, snapshot: Name, cutoff: int): map<Name, Annotation> {
    if versions == [] then map[]
    else
      var before := Latest(versions[..|versions| - 1], snapshot, cutoff);
      var a := versions[|versions| - 1];
      if a.snapshot == snapshot && a.globalRevision <= cutoff then before[a.id := a] else before
  }

  function Cutoff(s: State, cutoff: int): int {
    if cutoff <= 0 || cutoff > s.revision then s.revision else cutoff
  }

  function Rank(t: TargetType): nat {
    match t
    case Component => 0
    case Finding => 1
    case Report => 2
    case SavedQuery => 3
    case Snapshot => 4
    case OtherTarget(name) => 5 + name
  }

  function TypeName(t: TargetType): string
    requires !t.OtherTarget?
  {
    match t
    case Component => "component"
    case Finding => "finding"
    case Report => "report"
    case SavedQuery => "saved_query"
    case Snapshot => "snapshot"
  }

  /** The order of texts. */
  predicate TextBefore(a: string, b: string) {
    b != [] && (a == [] || a[0] < b[0] || (a[0] == b[0] && TextBefore(a[1..], b[1..])))
  }

  /** Target types come in the order of their names. */
  lemma RanksFollowNames(t: TargetType, u: TargetType)
    requires !t.OtherTarget? && !u.OtherTarget?
    ensures Rank(t) < Rank(u) <==> TextBefore(TypeName(t), TypeName(u))
  {
    if t.SavedQuery? && u.Snapshot? {
      assert TypeName(t)[1..][0] == 'a' && TypeName(u)[1..][0] == 'n';
    }
    if t.Snapshot? && u.SavedQuery? {
      assert TypeName(t)[1..][0] == 'n' && TypeName(u)[1..][0] == 'a';
    }
    if t == u { NotBeforeItself(TypeName(t)); }
  }

  lemma {:induction false} NotBeforeItself(a: string)
    ensures !TextBefore(a, a)
  {
    if a != [] { NotBeforeItself(a[1..]); }
  }

  predicate TargetBefore(a: Annotation, b: Annotation) {
    Rank(a.targetType) < Rank(b.targetType) || (Rank(a.targetType) == Rank(b.targetType) && a.target <= b.target)
  }

  /** By type, in the order of the names, and within a type by target. */
  lemma TargetsInOrder(a: Annotation, b: Annotation)
    requires !a.targetType.OtherTarget? && !b.targetType.OtherTarget?
    ensures TargetBefore(a, b) <==>
      || TextBefore(TypeName(a.targetType), TypeName(b.targetType))
      || (a.targetType == b.targetType && a.target <= b.target)
  {
    RanksFollowNames(a.targetType, b.targetType);
  }

  /** A listing of a map: every value once, in order. */
  ghost predicate ListsOnce(items: seq<Annotation>, rows: map<Name, Annotation>) {
    && (forall a :: a in items <==> a.id in rows && rows[a.id] == a)
    && (forall i, j | 0 <= i < j < |items| :: items[i].id != items[j].id)
  }

  /** A request that fails its checks changes nothing; any other is one step, answered by what its append reports. */
  ghost predicate Answered(before: Machine, op: Op, now: int, outcome: Outcome, after: Machine,
                           r: Result<Annotation, Error>)
  {
    match Attempt(before.mem, op, now)
    case Err(error) => after == before && r == Err(error)
    case Ok(e) =>
      after == Act(before, Step(e, outcome)) && r == if outcome.Appended? then Ok(e.annotation) else Err(Storage)
  }

  /** The annotation carries what the creation asked for. */
  predicate Carries(a: Annotation, op: Op)
    requires op.Create?
  {
    && a.investigation == op.investigation && a.snapshot == op.snapshot
    && a.targetType == op.targetType && a.target == op.target
    && a.body == Trim(op.text) && a.operator == op.operator
  }

  // ----- Pages -----

  const MAX_PAGE := 100

  /** A next cursor of zero, the empty string, says that there is no further page. */
  datatype Page = Page(items: seq<Annotation>, nextCursor: Name, total: nat, globalRevision: int)

  predicate RevisionBefore(a: Annotation, b: Annotation) {
    a.globalRevision < b.globalRevision || (a.globalRevision == b.globalRevision && a.id <= b.id)
  }

  predicate Wanted(a: Annotation, snapshot: Name) {
    snapshot == 0 || a.snapshot == snapshot
  }

  /** The wanted rows, each once, by ascending global revision and then identifier. */
  ghost predicate IsListing(items: seq<Annotation>, rows: map<Name, Annotation>, snapshot: Name) {
    && (forall a :: a in items <==> a.id in rows && rows[a.id] == a && Wanted(a, snapshot))
    && (forall i, j | 0 <= i < j < |items| :: items[i].id != items[j].id && RevisionBefore(items[i], items[j]))
  }

  /** The rows of the snapshot, or all of them without one, each once, in ascending global revision and identifier. */
  lemma ListingMeans(items: seq<Annotation>, rows: map<Name, Annotation>, snapshot: Name)
    ensures IsListing(items, rows, snapshot) <==>
      && (forall a :: a in items <==> a.id in rows && rows[a.id] == a && (snapshot == 0 || a.snapshot == snapshot))
      && (forall i, j | 0 <= i < j < |items| ::
            items[i].globalRevision < items[j].globalRevision
            || (items[i].globalRevision == items[j].globalRevision && items[i].id < items[j].id))
      && (forall i, j | 0 <= i < j < |items| :: items[i].id != items[j].id)
  {
    forall a ensures Wanted(a, snapshot) <==> snapshot == 0 || a.snapshot == snapshot {
    }
    forall a: Annotation, b: Annotation | a.id != b.id
      ensures RevisionBefore(a, b) <==>
        a.globalRevision < b.globalRevision || (a.globalRevision == b.globalRevision && a.id < b.id)
    {
    }
  }

  function PageLimit(limit: int): nat {
    if limit < 1 || limit > MAX_PAGE then MAX_PAGE else limit
  }

  /** Just after the cursor's annotation; the beginning when there is none. */
  function StartAt(items: seq<Annotation>, cursor: Name): (start: nat)
    ensures start <= |items|
  {
    if cursor == 0 || items == [] then 0
    else if items[0].id == cursor then 1
    else
      var rest := StartAt(items[1..], cursor);
      if rest == 0 then 0 else rest + 1
  }

  lemma {:induction false} StartAtMeans(items: seq<Annotation>, cursor: Name)
    ensures var start := StartAt(items, cursor);
            && (start > 0 ==> cursor != 0 && items[start - 1].id == cursor)
            && (start == 0 && cursor != 0 ==> forall i | 0 <= i < |items| :: items[i].id != cursor)
  {
    if items != [] && cursor != 0 && items[0].id != cursor {
      StartAtMeans(items[1..], cursor);
      assert forall i | 1 <= i < |items| :: items[i] == items[1..][i - 1];
    }
  }

  /** The page that starts at an index. */
  function PageFrom(items: seq<Annotation>, start: nat, limit: int, revision: int): Page
    requires start <= |items|
  {
    var end := if start + PageLimit(limit) > |items| then |items| else start + PageLimit(limit);
    Page(items[start..end], if end < |items| && end > start then items[end - 1].id else 0, |items|, revision)
  }

  function PageOf(items: seq<Annotation>, cursor: Name, limit: int, revision: int): Page {
    PageFrom(items, StartAt(items, cursor), limit, revision)
  }

  // ----- The store -----

  class Store {
    var disk: Disk
    var rows: map<Name, Annotation>
    var versions: seq<Annotation>
    var revision: int
    var warning: bool

    /** A store over an existing journal file, before it is loaded. */
    constructor (disk: Disk)
      ensures this.disk == disk && View() == EMPTY && !warning
    {
      this.disk, rows, versions, revision, warning := disk, map[], [], 0, false;
    }

    function View(): State
      reads this
    {
      State(rows, versions, revision)
    }

    function Contents(): Machine
      reads this
    {
      Machine(disk, View())
    }

    method ApplyEvent(e: Event)
      modifies this`rows, this`versions, this`revision
      ensures View() == Apply(old(View()), e)
    {
      if e.annotation.globalRevision > revision {
        revision := e.annotation.globalRevision;
      }
      if e.action.Deleted? {
        rows := rows - {e.annotation.id};
      } else {
        rows := rows[e.annotation.id := e.annotation];
        versions := versions + [e.annotation];
      }
    }

    method LoadLines() returns (ok: bool)
      requires View() == EMPTY
      modifies this`rows, this`versions, this`revision
      ensures ok <==> Readable(disk.lines)
      ensures ok ==> View() == Replay(EventsOf(disk.lines))
    {
      for i := 0 to |disk.lines|
        invariant Readable(disk.lines[..i])
        invariant View() == Replay(EventsOf(disk.lines[..i]))
      {
        if disk.lines[i].Garbage? {
          return false;
        }
        OneMoreLine(disk.lines, i);
        ApplyEvent(disk.lines[i].event);
      }
      assert disk.lines[..|disk.lines|] == disk.lines;
      return true;
    }

    /** Cutting a torn tail can fail; a corrupt line and a tail that stays are reported, not loaded. */
    method Load(canQuarantine: bool) returns (ok: bool)
      requires View() == EMPTY && !warning
      modifies this
      ensures ok <==> Readable(old(disk).lines) && (old(disk).tail.Torn? ==> canQuarantine)
      ensures ok ==> Reopened(old(disk)) == Some(View()) && Reopened(disk) == Some(View())
      ensures disk == if ok && old(disk).tail.Torn? then Disk(old(disk).lines, NoTail) else old(disk)
      ensures warning <==> ok && old(disk).tail.Torn?
    {
      ok := LoadLines();
      if !ok {
        return false;
      }
      RecordsAre(disk);
      match disk.tail {
        case NoTail =>
        case Torn =>
          if !canQuarantine {
            return false;
          }
          disk := Disk(disk.lines, NoTail);
          warning := true;
          RecordsAre(disk);
        case Whole(e) =>
          ApplyEvent(e);
      }
    }

    method Append(e: Event, outcome: Outcome) returns (ok: bool)
      modifies this`disk
      ensures disk == Written(old(disk), e, outcome)
      ensures ok <==> outcome.Appended?
    {
      var line := if disk.tail.NoTail? then Record(e) else Garbage;
      match outcome {
        case NotWritten =>
        case CutShort(whole) => disk := Disk(disk.lines, if disk.tail.NoTail? && whole then Whole(e) else Torn);
        case Appended => disk := Disk(disk.lines + [line], NoTail);
        case Unsynced => disk := Disk(disk.lines + [line], NoTail);
      }
      ok := outcome.Appended?;
    }

    method Commit(e: Event, outcome: Outcome) returns (r: Result<Annotation, Error>)
      modifies this`disk, this`rows, this`versions, this`revision
      ensures Contents() == Act(old(Contents()), Step(e, outcome))
      ensures r == if outcome.Appended? then Ok(e.annotation) else Err(Storage)
    {
      var ok := Append(e, outcome);
      if !ok {
        return Err(Storage);
      }
      ApplyEvent(e);
      return Ok(e.annotation);
    }

    method CreateAnnotation(op: Op, now: int, outcome: Outcome) returns (r: Result<Annotation, Error>)
      requires op.Create?
      modifies this`disk, this`rows, this`versions, this`revision
      ensures Answered(old(Contents()), op, now, outcome, Contents(), r)
      ensures r.Ok? ==>
        && op.newId.Some? && Carries(r.value, op) && r.value.id == op.newId.value
        && r.value.revision == 1 && !r.value.resolved && r.value.createdAt == r.value.updatedAt == now
        && r.value.globalRevision == old(revision) + 1 && rows == old(rows)[op.newId.value := r.value]
      ensures r.Err? ==> rows == old(rows)
      ensures r == Err(Validation) <==>
        || op.investigation == 0 || op.snapshot == 0 || op.target == 0 || op.targetType.OtherTarget?
        || Trim(op.text) == "" || |Trim(op.text)| > 8000 || op.operator == "" || |op.operator| > 80
      ensures r == Err(NoIdentifier) <==> op.newId.None? && r != Err(Validation)
    {
      if !ValidCreate(op) {
        return Err(Validation);
      }
      var body := Trim(op.text);
      if op.newId.None? {
        return Err(NoIdentifier);
      }
      var a := Annotation(op.newId.value, op.investigation, op.snapshot, op.targetType, op.target, body, op.operator,
                          false, 1, revision + 1, now, now);
      r := Commit(Event(Created, a), outcome);
    }

    method UpdateAnnotation(op: Op, now: int, outcome: Outcome) returns (r: Result<Annotation, Error>)
      requires op.Update?
      modifies this`disk, this`rows, this`versions, this`revision
      ensures Answered(old(Contents()), op, now, outcome, Contents(), r)
      ensures r.Ok? ==>
        && op.id in old(rows) && old(rows)[op.id].revision == op.expected
        && r.value == old(rows)[op.id].(body := Trim(op.text), revision := op.expected + 1,
                                        globalRevision := old(revision) + 1, updatedAt := now)
        && rows == old(rows)[r.value.id := r.value] && (KeyedById(old(rows)) ==> r.value.id == op.id)
      ensures r.Err? ==> rows == old(rows)
      ensures r == Err(NotFound) <==> op.id !in old(rows)
      ensures r == Err(RevisionConflict) <==> op.id in old(rows) && old(rows)[op.id].revision != op.expected
      ensures r == Err(Validation) <==>
        && op.id in old(rows) && old(rows)[op.id].revision == op.expected
        && (Trim(op.text) == "" || |Trim(op.text)| > 8000)
    {
      if op.id !in rows {
        return Err(NotFound);
      }
      var a := rows[op.id];
      if op.expected != a.revision {
        return Err(RevisionConflict);
      }
      var body := Trim(op.text);
      if !ValidBody(body) {
        return Err(Validation);
      }
      a := a.(body := body, revision := a.revision + 1, globalRevision := revision + 1, updatedAt := now);
      r := Commit(Event(Updated, a), outcome);
    }

    method ResolveAnnotation(op: Op, now: int, outcome: Outcome) returns (r: Result<Annotation, Error>)
      requires op.Resolve?
      modifies this`disk, this`rows, this`versions, this`revision
      ensures Answered(old(Contents()), op, now, outcome, Contents(), r)
      ensures r.Ok? ==>
        && op.id in old(rows) && old(rows)[op.id].revision == op.expected
        && r.value == old(rows)[op.id].(resolved := true, revision := op.expected + 1,
                                        globalRevision := old(revision) + 1, updatedAt := now)
        && rows == old(rows)[r.value.id := r.value] && (KeyedById(old(rows)) ==> r.value.id == op.id)
      ensures r.Err? ==> rows == old(rows)
      ensures r == Err(NotFound) <==> op.id !in old(rows)
      ensures r == Err(RevisionConflict) <==> op.id in old(rows) && old(rows)[op.id].revision != op.expected
    {
      if op.id !in rows {
        return Err(NotFound);
      }
      var a := rows[op.id];
      if a.revision != op.expected {
        return Err(RevisionConflict);
      }
      a := a.(resolved := true, revision := a.revision + 1, globalRevision := revision + 1, updatedAt := now);
      r := Commit(Event(Resolved, a), outcome);
    }

    method At(snapshot: Name, cutoff: int) returns (items: seq<Annotation>, used: int)
      ensures used == Cutoff(View(), cutoff)
      ensures ListsOnce(items, Latest(versions, snapshot, used))
      ensures forall i, j | 0 <= i < j < |items| :: TargetBefore(items[i], items[j])
    {
      used := if cutoff <= 0 || cutoff > revision then revision else cutoff;
      var latest: map<Name, Annotation> := map[];
      for i := 0 to |versions|
        invariant latest == Latest(versions[..i], snapshot, used)
        invariant KeyedById(latest)
      {
        assert versions[..i + 1][..i] == versions[..i];
        var a := versions[i];
        if a.snapshot != snapshot || a.globalRevision > used {
          continue;
        }
        latest := latest[a.id := a];
      }
      assert versions[..|versions|] == versions;
      var out := Values(latest);
      items := SortWith(out, (a: Annotation, b: Annotation) => TargetBefore(a, b));
      SortedListsOnce(out, items, latest);
      var before := (a: Annotation, b: Annotation) => TargetBefore(a, b);
      assert TotalOrder(before);
      forall i, j | 0 <= i < j < |items| ensures TargetBefore(items[i], items[j]) {
        assert before(items[i], items[j]);
      }
    }

    method List(snapshot: Name, cursor: Name, limit: int) returns (page: Page)
      requires KeyedById(rows)
      ensures exists listing :: IsListing(listing, rows, snapshot)
      ensures forall listing | IsListing(listing, rows, snapshot) :: page == PageOf(listing, cursor, limit, revision)
    {
      var bound := if limit < 1 || limit > MAX_PAGE then MAX_PAGE else limit;
      var items := Chosen(rows, snapshot);
      var start := 0;
      if cursor != 0 {
        start := AfterCursor(items, cursor);
      }
      var end := start + bound;
      if end > |items| {
        end := |items|;
      }
      page := Page(items[start..end], 0, |items|, revision);
      if end < |items| && end > start {
        page := page.(nextCursor := items[end - 1].id);
      }
      forall listing | IsListing(listing, rows, snapshot) ensures listing == items {
        ListingIsUnique(listing, items);
      }
    }
  }

  function Selected(rows: map<Name, Annotation>, snapshot: Name): map<Name, Annotation> {
    map id | id in rows && Wanted(rows[id], snapshot) :: rows[id]
  }

  lemma SelectedIsListing(items: seq<Annotation>, rows: map<Name, Annotation>, snapshot: Name)
    requires KeyedById(rows) && ListsOnce(items, Selected(rows, snapshot))
    requires forall i, j | 0 <= i < j < |items| :: RevisionBefore(items[i], items[j])
    ensures IsListing(items, rows, snapshot)
  {
  }

  method Chosen(rows: map<Name, Annotation>, snapshot: Name) returns (items: seq<Annotation>)
    requires KeyedById(rows)
    ensures IsListing(items, rows, snapshot)
  {
    var chosen := Selected(rows, snapshot);
    var unsorted := Values(chosen);
    items := SortWith(unsorted, (a: Annotation, b: Annotation) => RevisionBefore(a, b));
    SortedListsOnce(unsorted, items, chosen);
    SortedByRevision(unsorted);
    SelectedIsListing(items, rows, snapshot);
  }

  /** Two listings of the same rows are the same, so every page of an unchanging store is cut from one listing. */
  lemma {:induction false} ListingIsUnique(xs: seq<Annotation>, ys: seq<Annotation>)
    requires forall a :: a in xs <==> a in ys
    requires forall i, j | 0 <= i < j < |xs| :: xs[i].id != xs[j].id && RevisionBefore(xs[i], xs[j])
    requires forall i, j | 0 <= i < j < |ys| :: ys[i].id != ys[j].id && RevisionBefore(ys[i], ys[j])
    ensures xs == ys
  {
    assert ys != [] ==> ys[0] in ys;
    if xs != [] {
      assert xs[0] in ys;
      assert ys[0] in xs;
      var k :| 0 <= k < |xs| && xs[k] == ys[0];
      var l :| 0 <= l < |ys| && ys[l] == xs[0];
      assert xs[0] == ys[0];
      assert xs == [xs[0]] + xs[1..] && ys == [ys[0]] + ys[1..];
      forall a ensures a in xs[1..] <==> a in ys[1..] {
        if a == xs[0] {
        } else {
          assert a in xs <==> a in ys;
        }
      }
      ListingIsUnique(xs[1..], ys[1..]);
    }
  }

  lemma SortedByRevision(items: seq<Annotation>)
    ensures var sorted := SortWith(items, (a: Annotation, b: Annotation) => RevisionBefore(a, b));
            forall i, j | 0 <= i < j < |sorted| :: RevisionBefore(sorted[i], sorted[j])
  {
    var before := (a: Annotation, b: Annotation) => RevisionBefore(a, b);
    var sorted := SortWith(items, before);
    assert TotalOrder(before);
    forall i, j | 0 <= i < j < |sorted| ensures RevisionBefore(sorted[i], sorted[j]) {
      assert before(sorted[i], sorted[j]);
    }
  }

  method AfterCursor(items: seq<Annotation>, cursor: Name) returns (start: nat)
    requires cursor != 0 && forall i, j | 0 <= i < j < |items| :: items[i].id != items[j].id
    ensures start == StartAt(items, cursor)
  {
    StartAtMeans(items, cursor);
    for i := 0 to |items|
      invariant forall k | 0 <= k < i :: items[k].id != cursor
    {
      if items[i].id == cursor {
        return i + 1;
      }
    }
    return 0;
  }

  // ----- Listing a map -----

  /** The values of a map in some order. */
  method Values(rows: map<Name, Annotation>) returns (items: seq<Annotation>)
    requires KeyedById(rows)
    ensures ListsOnce(items, rows)
  {
    items := [];
    var keys := rows.Keys;
    while keys != {}
      invariant keys <= rows.Keys
      invariant forall a :: a in items <==> a.id in rows && a.id !in keys && rows[a.id] == a
      invariant forall i, j | 0 <= i < j < |items| :: items[i].id != items[j].id
      decreases |keys|
    {
      var id :| id in keys;
      keys := keys - {id};
      items := items + [rows[id]];
    }
  }

  lemma SortedListsOnce(items: seq<Annotation>, sorted: seq<Annotation>, rows: map<Name, Annotation>)
    requires ListsOnce(items, rows) && multiset(sorted) == multiset(items)
    ensures ListsOnce(sorted, rows)
  {
    SameElements(sorted, items);
    forall i, j | 0 <= i < j < |sorted| ensures sorted[i].id != sorted[j].id {
      if sorted[i].id == sorted[j].id {
        var a := sorted[i];
        assert a in items && sorted[j] in items && sorted[j] == a;
        TwiceInSorted(sorted, i, j);
        OnceInListing(items, a);
        assert false;
      }
    }
  }

  lemma TwiceInSorted(xs: seq<Annotation>, i: nat, j: nat)
    requires i < j < |xs| && xs[i] == xs[j]
    ensures multiset(xs)[xs[i]] >= 2
  {
    assert xs == xs[..j] + xs[j..];
    assert xs[i] in xs[..j] && xs[i] in xs[j..];
  }

  lemma {:induction false} OnceInListing(xs: seq<Annotation>, a: Annotation)
    requires forall i, j | 0 <= i < j < |xs| :: xs[i].id != xs[j].id
    ensures multiset(xs)[a] <= 1
  {
    if xs != [] {
      var n := |xs| - 1;
      OnceInListing(xs[..n], a);
      assert xs == xs[..n] + [xs[n]];
      assert forall i | 0 <= i < n :: xs[..n][i].id != xs[n].id;
    }
  }
}
