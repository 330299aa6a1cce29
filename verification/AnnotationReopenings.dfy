/**
The annotation store across reopenings: what a run leaves on disk is again a journal, and which of the run's
past revisions the reopened store still gives.
*/
module AnnotationReopenings {
  import opened Wrappers
  import opened Annotations
  import opened AnnotationTheorems
  import opened AnnotationRequests

  /** Every event of the steps, whatever became of its append. */
  function Tried(steps: seq<Step>): seq<Event> {
    if steps == [] then [] else Tried(steps[..|steps| - 1]) + [steps[|steps| - 1].event]
  }

  /** The events whose whole line was written, acknowledged or not. */
  function Kept(steps: seq<Step>): seq<Event> {
    if steps == [] then []
    else
      var last := steps[|steps| - 1];
      var before := Kept(steps[..|steps| - 1]);
      if last.outcome.Appended? || last.outcome.Unsynced? then before + [last.event] else before
  }

  lemma {:induction false} KeptWereTried(steps: seq<Step>)
    ensures forall e | e in Kept(steps) || e in Acknowledged(steps) :: e in Tried(steps)
  {
    if steps != [] { KeptWereTried(steps[..|steps| - 1]); }
  }

  /** New identifiers do not repeat one of a record that was loaded or ever tried, even one that memory lacks. */
  ghost predicate NewNames(loaded: seq<Event>, steps: seq<Step>) {
    forall i | 0 <= i < |steps| && steps[i].event.action.Created? ::
      forall e | e in loaded + Tried(steps[..i]) :: e.annotation.id != steps[i].event.annotation.id
  }

  /** What a run is made from: memory that replays its journal, and requests that pass their checks. */
  ghost predicate Session(m: Machine, loaded: seq<Event>, steps: seq<Step>) {
    && m.mem == Replay(loaded) && IsJournal(loaded)
    && IsRun(m, steps) && NewNames(loaded, steps)
  }

  lemma SessionPrefix(m: Machine, loaded: seq<Event>, steps: seq<Step>, k: nat)
    requires Session(m, loaded, steps) && k <= |steps|
    ensures Session(m, loaded, steps[..k])
  {
    IsRunOfPrefix(m, steps, k);
    assert forall i | 0 <= i < k :: steps[..k][..i] == steps[..i];
  }

  // ----- Requests -----

  /** Random identifiers are assumed not to repeat, not even that of a record that memory lacks. */
  ghost predicate NewName(r: Request, known: seq<Event>) {
    r.op.Create? && r.op.newId.Some? ==> forall e | e in known :: e.annotation.id != r.op.newId.value
  }

  ghost predicate AllNew(m: Machine, loaded: seq<Event>, requests: seq<Request>) {
    forall i | 0 <= i < |requests| :: NewName(requests[i], loaded + Tried(StepsOf(m, requests[..i])))
  }

  lemma AllNewPrefix(m: Machine, loaded: seq<Event>, requests: seq<Request>, n: nat)
    requires AllNew(m, loaded, requests) && n <= |requests|
    ensures AllNew(m, loaded, requests[..n])
  {
    assert forall i | 0 <= i < n :: requests[..n][..i] == requests[..i];
  }

  lemma NewNameIsFresh(loaded: seq<Event>, steps: seq<Step>, r: Request)
    requires IsJournal(loaded + Acknowledged(steps)) && NewName(r, loaded + Tried(steps))
    ensures var s := Replay(loaded + Acknowledged(steps)); KeyedById(s.rows) && IsFresh(s, r)
  {
    RowsComeFromEvents(loaded + Acknowledged(steps));
    KeptWereTried(steps);
  }

  lemma NamesExtend(loaded: seq<Event>, steps: seq<Step>, step: Step)
    requires NewNames(loaded, steps)
    requires step.event.action.Created? ==>
               forall e | e in loaded + Tried(steps) :: e.annotation.id != step.event.annotation.id
    ensures NewNames(loaded, steps + [step])
  {
    var longer := steps + [step];
    assert longer[..|steps|] == steps && forall i | 0 <= i < |steps| :: longer[..i] == steps[..i];
  }

  /** The next request's event continues the session. */
  lemma SessionExtends(m: Machine, loaded: seq<Event>, steps: seq<Step>, r: Request)
    requires Session(m, loaded, steps) && EventOf(Run(m, steps).mem, r).Some? && NewName(r, loaded + Tried(steps))
    ensures Session(m, loaded, steps + [Step(EventOf(Run(m, steps).mem, r).value, r.outcome)])
  {
    var s := Run(m, steps).mem;
    var step := Step(EventOf(s, r).value, r.outcome);
    RunIsReplay(m, loaded, steps);
    NewNameIsFresh(loaded, steps, r);
    EventFollows(s, r);
    ExtendsRun(m, steps, step);
    NamesExtend(loaded, steps, step);
  }

  /** Any sequence of requests over a store that replays its journal is a session. */
  lemma {:induction false} RequestsAreASession(m: Machine, loaded: seq<Event>, requests: seq<Request>)
    requires m.mem == Replay(loaded) && IsJournal(loaded) && AllNew(m, loaded, requests)
    ensures Session(m, loaded, StepsOf(m, requests))
    decreases |requests|
  {
    if requests != [] {
      var n := |requests| - 1;
      AllNewPrefix(m, loaded, requests, n);
      RequestsAreASession(m, loaded, requests[..n]);
      StepsSnoc(m, requests);
      var steps := StepsOf(m, requests[..n]);
      if EventOf(Run(m, steps).mem, requests[n]).Some? {
        SessionExtends(m, loaded, steps, requests[n]);
      }
    }
  }

  // ----- The journal after a run -----

  lemma FewerIsJournal(events: seq<Event>, fewer: seq<Event>)
    requires IsJournal(events) && forall e | e in fewer :: e in events
    ensures IsJournal(fewer)
  {
  }

  /** An edit keeps the snapshot of its row, and so of every record of its annotation. */
  lemma EditKeepsSnapshot(tried: seq<Event>, known: seq<Event>, e: Event)
    requires IsJournal(tried) && IsJournal(known) && forall f | f in known :: f in tried
    requires Follows(Replay(known), e) && !e.action.Created?
    ensures IsJournal(tried + [e])
  {
    RowsComeFromEvents(known);
    var was :| was in known && was.annotation == Replay(known).rows[e.annotation.id];
    forall f | f in tried && f.annotation.id == e.annotation.id ensures f.annotation.snapshot == e.annotation.snapshot {
      assert was in tried;
    }
  }

  lemma {:induction false} TriedIsJournal(m: Machine, loaded: seq<Event>, steps: seq<Step>)
    requires Session(m, loaded, steps)
    ensures IsJournal(loaded + Tried(steps))
  {
    if steps == [] {
      assert loaded + [] == loaded;
    } else {
      var n := |steps| - 1;
      SessionPrefix(m, loaded, steps, n);
      TriedIsJournal(m, loaded, steps[..n]);
      RunIsReplay(m, loaded, steps[..n]);
      KeptWereTried(steps[..n]);
      var tried, e := loaded + Tried(steps[..n]), steps[n].event;
      assert loaded + Tried(steps) == tried + [e];
      assert Follows(Run(m, steps[..n]).mem, e);
      if !e.action.Created? {
        EditKeepsSnapshot(tried, loaded + Acknowledged(steps[..n]), e);
      }
    }
  }

  predicate WasCut(steps: seq<Step>) {
    exists step | step in steps :: step.outcome.CutShort?
  }

  lemma WasCutSnoc(steps: seq<Step>)
    requires steps != []
    ensures WasCut(steps) <==> WasCut(steps[..|steps| - 1]) || steps[|steps| - 1].outcome.CutShort?
  {
    var n := |steps| - 1;
    assert steps == steps[..n] + [steps[n]];
    if steps[n].outcome.CutShort? { assert steps[n] in steps; }
  }

  /**
  What follows the last newline: as it was when nothing was written, and otherwise no record that was there, and
  at most one that memory lacks.
  */
  ghost predicate TailAfter(m: Machine, steps: seq<Step>) {
    var after := Run(m, steps);
    if Kept(steps) == [] && !WasCut(steps) then after.disk.tail == m.disk.tail
    else
      && (m.disk.tail.Whole? ==> Kept(steps) == [] && after.disk.tail.Torn?)
      && (after.disk.tail.Whole? ==>
            && after.disk.tail.event in Tried(steps)
            && after.disk.tail.event.annotation.globalRevision == after.mem.revision + 1)
  }

  lemma LastWrite(m: Machine, steps: seq<Step>)
    requires steps != [] && Follows(Run(m, steps[..|steps| - 1]).mem, steps[|steps| - 1].event)
    requires Readable(Run(m, steps).disk.lines) && TailAfter(m, steps[..|steps| - 1])
    ensures TailAfter(m, steps)
  {
    WasCutSnoc(steps);
    var n := |steps| - 1;
    var was, step := Run(m, steps[..n]), steps[n];
    if step.outcome.Appended? || step.outcome.Unsynced? {
      LinesSnoc(was.disk.lines, if was.disk.tail.NoTail? then Record(step.event) else Garbage);
    }
  }

  lemma ReadableBefore(d: Disk, e: Event, o: Outcome)
    requires Readable(Written(d, e, o).lines)
    ensures Readable(d.lines)
    ensures EventsOf(Written(d, e, o).lines)
            == EventsOf(d.lines) + if o.Appended? || o.Unsynced? then [e] else []
  {
    if o.Appended? || o.Unsynced? {
      LinesSnoc(d.lines, if d.tail.NoTail? then Record(e) else Garbage);
    } else {
      assert EventsOf(d.lines) + [] == EventsOf(d.lines);
    }
  }

  /** A readable journal has its old lines and then the whole lines that were written. */
  lemma {:induction false} LinesAfter(m: Machine, steps: seq<Step>)
    requires Readable(Run(m, steps).disk.lines)
    ensures Readable(m.disk.lines) && EventsOf(Run(m, steps).disk.lines) == EventsOf(m.disk.lines) + Kept(steps)
  {
    if steps == [] {
      assert EventsOf(m.disk.lines) + [] == EventsOf(m.disk.lines);
    } else {
      var n := |steps| - 1;
      var e, o := steps[n].event, steps[n].outcome;
      ReadableBefore(Run(m, steps[..n]).disk, e, o);
      LinesAfter(m, steps[..n]);
      var lines := EventsOf(m.disk.lines);
      assert lines + (Kept(steps[..n]) + [e]) == lines + Kept(steps[..n]) + [e];
      assert lines + Kept(steps[..n]) + [] == lines + Kept(steps[..n]);
    }
  }

  lemma {:induction false} TailsAfter(m: Machine, steps: seq<Step>)
    requires IsRun(m, steps) && Readable(Run(m, steps).disk.lines)
    ensures TailAfter(m, steps)
  {
    if steps != [] {
      var n := |steps| - 1;
      IsRunOfPrefix(m, steps, n);
      ReadableBefore(Run(m, steps[..n]).disk, steps[n].event, steps[n].outcome);
      TailsAfter(m, steps[..n]);
      LastWrite(m, steps);
    }
  }

  /** The loaded journal ended in a record without its newline, and a failed write then spoiled it. */
  predicate TailIsLost(d: Disk, steps: seq<Step>) {
    d.tail.Whole? && WasCut(steps)
  }

  /** The records a reopening finds: the old ones, the whole lines written since, and at most one that memory lacks. */
  lemma RecordsAfter(m: Machine, steps: seq<Step>) returns (unread: seq<Event>)
    requires IsRun(m, steps) && Readable(Run(m, steps).disk.lines)
    ensures Readable(m.disk.lines)
    ensures TailIsLost(m.disk, steps) ==>
              Kept(steps) == [] && Records(Run(m, steps).disk) == EventsOf(m.disk.lines)
    ensures !TailIsLost(m.disk, steps) ==> Records(Run(m, steps).disk) == Records(m.disk) + Kept(steps) + unread
    ensures |unread| <= 1
    ensures forall e | e in unread ::
              e in Tried(steps) && e.annotation.globalRevision == Run(m, steps).mem.revision + 1
  {
    LinesAfter(m, steps);
    TailsAfter(m, steps);
    var tail, lines := Run(m, steps).disk.tail, EventsOf(m.disk.lines);
    assert lines + [] == lines;
    if Kept(steps) == [] && !WasCut(steps) {
      unread := [];
      assert Records(m.disk) + [] + [] == Records(m.disk);
    } else {
      unread := if tail.Whole? then [tail.event] else [];
      if !m.disk.tail.Whole? { assert Records(m.disk) == lines; }
    }
  }

  /**
  A journal that a run leaves readable is a journal again, made of records that were there and of records the run
  tried to write; what new identifiers are compared with therefore covers it.
  */
  lemma JournalAgain(d: Disk, steps: seq<Step>)
    requires Reopened(d).Some? && Session(Loaded(d), Records(d), steps)
    requires Readable(Run(Loaded(d), steps).disk.lines)
    ensures IsJournal(Records(Run(Loaded(d), steps).disk))
    ensures forall e | e in Records(Run(Loaded(d), steps).disk) :: e in Records(d) + Tried(steps)
  {
    var m := Loaded(d);
    var unread := RecordsAfter(m, steps);
    KeptWereTried(steps);
    TriedIsJournal(m, Records(d), steps);
    FewerIsJournal(Records(d) + Tried(steps), Records(Run(m, steps).disk));
  }

  // ----- Hidden records -----

  /** The annotations with records on whole lines that memory lacks, since the last acknowledged append. */
  function Hidden(steps: seq<Step>): set<Name> {
    if steps == [] then {}
    else
      var last := steps[|steps| - 1];
      var before := Hidden(steps[..|steps| - 1]);
      match last.outcome
      case Appended => {}
      case Unsynced => before + {last.event.annotation.id}
      case NotWritten => before
      case CutShort(_) => before
  }

  /** No acknowledged append comes after a hidden record of another annotation. */
  ghost predicate NoneBuried(steps: seq<Step>) {
    forall i | 0 <= i < |steps| && steps[i].outcome.Appended? :: Hidden(steps[..i]) <= {steps[i].event.annotation.id}
  }

  lemma NoneBuriedPrefix(steps: seq<Step>, k: nat)
    requires NoneBuried(steps) && k <= |steps|
    ensures NoneBuried(steps[..k])
  {
    assert forall i | 0 <= i < k :: steps[..k][..i] == steps[..i];
  }

  lemma {:induction false} FirstBuried(steps: seq<Step>) returns (i: nat)
    requires !NoneBuried(steps)
    ensures i < |steps| && steps[i].outcome.Appended? && NoneBuried(steps[..i])
    ensures !(Hidden(steps[..i]) <= {steps[i].event.annotation.id})
  {
    var n := |steps| - 1;
    if NoneBuried(steps[..n]) {
      i := n;
      assert forall j | 0 <= j < n :: steps[..n][..j] == steps[..j];
    } else {
      i := FirstBuried(steps[..n]);
      assert steps[..n][..i] == steps[..i];
    }
  }

  /** The journal's rows are memory's, but for the hidden records, which are newer than memory. */
  ghost predicate AgreesBut(written: State, mem: State, hidden: set<Name>) {
    && (forall id | id !in hidden :: id in written.rows <==> id in mem.rows)
    && (forall id | id !in hidden && id in mem.rows :: written.rows[id] == mem.rows[id])
    && (forall id | id in hidden :: id in written.rows && written.rows[id].globalRevision > mem.revision)
    && (forall id | id in mem.rows :: mem.rows[id].globalRevision <= mem.revision)
  }

  lemma KeptSnoc(loaded: seq<Event>, steps: seq<Step>)
    requires steps != []
    ensures var before, last := Replay(loaded + Kept(steps[..|steps| - 1])), steps[|steps| - 1];
            Replay(loaded + Kept(steps))
            == if last.outcome.Appended? || last.outcome.Unsynced? then Apply(before, last.event) else before
  {
    var n := |steps| - 1;
    assert loaded + (Kept(steps[..n]) + [steps[n].event]) == loaded + Kept(steps[..n]) + [steps[n].event];
    ReplaySnoc(loaded + Kept(steps[..n]), steps[n].event);
  }

  lemma AckAgrees(written: State, mem: State, hidden: set<Name>, e: Event)
    requires AgreesBut(written, mem, hidden) && Follows(mem, e)
    ensures hidden <= {e.annotation.id} ==> AgreesBut(Apply(written, e), Apply(mem, e), {})
    ensures !(hidden <= {e.annotation.id}) ==> Apply(written, e).rows != Apply(mem, e).rows
  {
    if !(hidden <= {e.annotation.id}) {
      var id :| id in hidden && id != e.annotation.id;
      assert id in Apply(written, e).rows && Apply(written, e).rows[id].globalRevision > mem.revision;
    }
  }

  lemma HideAgrees(written: State, mem: State, hidden: set<Name>, e: Event)
    requires AgreesBut(written, mem, hidden) && Follows(mem, e)
    ensures AgreesBut(Apply(written, e), mem, hidden + {e.annotation.id})
  {
  }

  lemma {:induction false} WrittenAgrees(m: Machine, loaded: seq<Event>, steps: seq<Step>)
    requires m.mem == Replay(loaded) && IsJournal(loaded) && IsRun(m, steps) && NoneBuried(steps)
    ensures AgreesBut(Replay(loaded + Kept(steps)), Run(m, steps).mem, Hidden(steps))
  {
    if steps == [] {
      assert loaded + [] == loaded;
      NumbersAreBelow(loaded);
      RowsComeFromEvents(loaded);
    } else {
      var n := |steps| - 1;
      IsRunOfPrefix(m, steps, n);
      NoneBuriedPrefix(steps, n);
      WrittenAgrees(m, loaded, steps[..n]);
      KeptSnoc(loaded, steps);
      var written, mem := Replay(loaded + Kept(steps[..n])), Run(m, steps[..n]).mem;
      assert Follows(mem, steps[n].event);
      AckAgrees(written, mem, Hidden(steps[..n]), steps[n].event);
      HideAgrees(written, mem, Hidden(steps[..n]), steps[n].event);
    }
  }

  // ----- The past on disk -----

  /** How many steps there are up to the last acknowledged append. */
  function LastAck(steps: seq<Step>): (k: nat)
    ensures k <= |steps|
  {
    if steps == [] then 0
    else if steps[|steps| - 1].outcome.Appended? then |steps|
    else LastAck(steps[..|steps| - 1])
  }

  lemma {:induction false} NothingSinceLastAck(m: Machine, steps: seq<Step>)
    ensures var k := LastAck(steps);
            && Run(m, steps).mem == Run(m, steps[..k]).mem
            && (k > 0 ==> steps[k - 1].outcome.Appended?)
    decreases |steps|
  {
    if LastAck(steps) == |steps| {
      assert steps[..|steps|] == steps;
    } else {
      var n := |steps| - 1;
      NothingSinceLastAck(m, steps[..n]);
      assert steps[..n][..LastAck(steps)] == steps[..LastAck(steps)];
    }
  }

  /** Every written record is numbered at most one above memory, and none above it right after an acknowledgement. */
  lemma {:induction false} WrittenRevision(m: Machine, loaded: seq<Event>, steps: seq<Step>)
    requires m.mem == Replay(loaded) && IsRun(m, steps)
    ensures var revision, written := Run(m, steps).mem.revision, Replay(loaded + Kept(steps)).revision;
            && revision <= written <= revision + 1
            && (LastAck(steps) == |steps| ==> written == revision)
  {
    if steps == [] {
      assert loaded + [] == loaded;
    } else {
      var n := |steps| - 1;
      IsRunOfPrefix(m, steps, n);
      WrittenRevision(m, loaded, steps[..n]);
      KeptSnoc(loaded, steps);
      assert Follows(Run(m, steps[..n]).mem, steps[n].event);
    }
  }

  /** Records written from some step on are newer than memory was at it. */
  lemma {:induction false} WrittenLater(m: Machine, loaded: seq<Event>, steps: seq<Step>, k: nat, snapshot: Name)
    requires IsRun(m, steps) && k <= |steps|
    ensures var cutoff := Run(m, steps[..k]).mem.revision;
            Latest(Replay(loaded + Kept(steps)).versions, snapshot, cutoff)
            == Latest(Replay(loaded + Kept(steps[..k])).versions, snapshot, cutoff)
    decreases |steps|
  {
    if k == |steps| {
      assert steps[..k] == steps;
    } else {
      var n := |steps| - 1;
      IsRunOfPrefix(m, steps, n);
      assert steps[..n][..k] == steps[..k];
      WrittenLater(m, loaded, steps[..n], k, snapshot);
      LaterIsAbove(m, steps[..n], k);
      KeptSnoc(loaded, steps);
      assert Follows(Run(m, steps[..n]).mem, steps[n].event);
      LatestSnoc(Replay(loaded + Kept(steps[..n])).versions, steps[n].event.annotation, snapshot,
                 Run(m, steps[..k]).mem.revision);
    }
  }

  /** The records up to the last acknowledged append, among them those that it buried. */
  function Shown(loaded: seq<Event>, steps: seq<Step>): seq<Event> {
    loaded + Kept(steps[..LastAck(steps)])
  }

  /** For a revision of memory, the journal gives the rows of the records up to the acknowledgement that made it. */
  lemma JournalAsOf(m: Machine, loaded: seq<Event>, steps: seq<Step>, k: nat, snapshot: Name)
    requires Session(m, loaded, steps) && k <= |steps|
    ensures Latest(Replay(loaded + Kept(steps)).versions, snapshot, Run(m, steps[..k]).mem.revision)
            == InSnapshot(Replay(Shown(loaded, steps[..k])).rows, snapshot)
  {
    var a := LastAck(steps[..k]);
    NothingSinceLastAck(m, steps[..k]);
    assert steps[..k][..a] == steps[..a];
    WrittenLater(m, loaded, steps, a, snapshot);
    SessionPrefix(m, loaded, steps, a);
    LastAckOfPrefix(steps, k);
    WrittenRevision(m, loaded, steps[..a]);
    TriedIsJournal(m, loaded, steps[..a]);
    KeptWereTried(steps[..a]);
    FewerIsJournal(loaded + Tried(steps[..a]), loaded + Kept(steps[..a]));
    PresentIsLatest(loaded + Kept(steps[..a]), snapshot, Run(m, steps[..a]).mem.revision);
  }

  lemma LastAckOfPrefix(steps: seq<Step>, k: nat)
    requires k <= |steps|
    ensures var a := LastAck(steps[..k]); LastAck(steps[..a]) == a
  {
    NothingSinceLastAck(Machine(Disk([], NoTail), EMPTY), steps[..k]);
  }

  lemma OneIsNewer(events: seq<Event>, e: Event, snapshot: Name, cutoff: int)
    requires e.annotation.globalRevision > cutoff
    ensures Latest(Replay(events + [e]).versions, snapshot, cutoff)
            == Latest(Replay(events).versions, snapshot, cutoff)
    ensures Replay(events + [e]).revision >= Replay(events).revision
  {
    ReplaySnoc(events, e);
    LatestSnoc(Replay(events).versions, e.annotation, snapshot, cutoff);
  }

  /** A record that memory lacks at the end is newer than every revision that memory had. */
  lemma UnreadIsNewer(events: seq<Event>, unread: seq<Event>, snapshot: Name, cutoff: int)
    requires |unread| <= 1 && forall e | e in unread :: e.annotation.globalRevision > cutoff
    ensures Latest(Replay(events + unread).versions, snapshot, cutoff)
            == Latest(Replay(events).versions, snapshot, cutoff)
    ensures Replay(events + unread).revision >= Replay(events).revision
  {
    if unread == [] {
      assert events + unread == events;
    } else {
      assert unread == [unread[0]];
      OneIsNewer(events, unread[0], snapshot, cutoff);
    }
  }

  /** Asked as of a revision that the store had, it gives the rows of that time; revision zero asks for the present. */
  ghost predicate Remembers(now: State, past: State) {
    past.revision > 0 ==>
      forall snapshot :: Latest(now.versions, snapshot, Cutoff(now, past.revision)) == InSnapshot(past.rows, snapshot)
  }

  lemma SameInEverySnapshot(rows: map<Name, Annotation>, others: map<Name, Annotation>)
    ensures (forall snapshot :: InSnapshot(rows, snapshot) == InSnapshot(others, snapshot)) <==> rows == others
  {
    if forall snapshot :: InSnapshot(rows, snapshot) == InSnapshot(others, snapshot) {
      forall id ensures id in rows <==> id in others {
        if id in rows { assert id in InSnapshot(rows, rows[id].snapshot); }
        if id in others { assert id in InSnapshot(others, others[id].snapshot); }
      }
      forall id | id in rows ensures rows[id] == others[id] {
        assert InSnapshot(rows, rows[id].snapshot)[id] == InSnapshot(others, rows[id].snapshot)[id];
      }
    }
  }

  /** The reopened store, however long it has run since, as of a revision of the earlier session. */
  lemma ReopenedAsOf(d: Disk, steps: seq<Step>, k: nat, reopened: Machine, later: seq<Step>, snapshot: Name)
    requires Reopened(d).Some? && Session(Loaded(d), Records(d), steps) && k <= |steps| && !TailIsLost(d, steps)
    requires Reopened(Run(Loaded(d), steps).disk) == Some(reopened.mem) && IsRun(reopened, later)
    requires Run(Loaded(d), steps[..k]).mem.revision > 0
    ensures var now, revision := Run(reopened, later).mem, Run(Loaded(d), steps[..k]).mem.revision;
            Latest(now.versions, snapshot, Cutoff(now, revision))
            == InSnapshot(Replay(Shown(Records(d), steps[..k])).rows, snapshot)
  {
    var m, cutoff := Loaded(d), Run(Loaded(d), steps[..k]).mem.revision;
    var unread := RecordsAfter(m, steps);
    JournalAsOf(m, Records(d), steps, k, snapshot);
    LaterIsAbove(m, steps, k);
    UnreadIsNewer(Records(d) + Kept(steps), unread, snapshot, cutoff);
    WrittenRevision(m, Records(d), steps);
    assert later[..0] == [];
    LaterIsAbove(reopened, later, 0);
  }

  lemma RemembersWhen(d: Disk, steps: seq<Step>, k: nat, reopened: Machine, later: seq<Step>)
    requires Reopened(d).Some? && Session(Loaded(d), Records(d), steps) && k <= |steps| && !TailIsLost(d, steps)
    requires Reopened(Run(Loaded(d), steps).disk) == Some(reopened.mem) && IsRun(reopened, later)
    requires Run(Loaded(d), steps[..k]).mem.revision > 0
    ensures Remembers(Run(reopened, later).mem, Run(Loaded(d), steps[..k]).mem)
            <==> Replay(Shown(Records(d), steps[..k])).rows == Run(Loaded(d), steps[..k]).mem.rows
  {
    var now, past := Run(reopened, later).mem, Run(Loaded(d), steps[..k]).mem;
    var shown := Replay(Shown(Records(d), steps[..k])).rows;
    forall snapshot
      ensures Latest(now.versions, snapshot, Cutoff(now, past.revision)) == InSnapshot(shown, snapshot)
    {
      ReopenedAsOf(d, steps, k, reopened, later, snapshot);
    }
    SameInEverySnapshot(shown, past.rows);
  }

  lemma ShownWhenNoneBuried(m: Machine, loaded: seq<Event>, steps: seq<Step>)
    requires Session(m, loaded, steps) && NoneBuried(steps)
    ensures Replay(Shown(loaded, steps)).rows == Run(m, steps).mem.rows
  {
    var a := LastAck(steps);
    NothingSinceLastAck(m, steps);
    SessionPrefix(m, loaded, steps, a);
    NoneBuriedPrefix(steps, a);
    WrittenAgrees(m, loaded, steps[..a]);
    NothingHiddenAtAck(steps);
    AgreesEverywhere(Replay(Shown(loaded, steps)), Run(m, steps).mem);
  }

  lemma NothingHiddenAtAck(steps: seq<Step>)
    ensures Hidden(steps[..LastAck(steps)]) == {}
  {
    NothingSinceLastAck(Machine(Disk([], NoTail), EMPTY), steps);
  }

  lemma AgreesEverywhere(written: State, mem: State)
    requires AgreesBut(written, mem, {})
    ensures written.rows == mem.rows
  {
  }

  /** An acknowledgement that buries a record of another annotation makes it part of the revision it makes. */
  lemma LastAckBuries(m: Machine, loaded: seq<Event>, steps: seq<Step>)
    requires steps != [] && steps[|steps| - 1].outcome.Appended? && NoneBuried(steps[..|steps| - 1])
    requires m.mem == Replay(loaded) && IsJournal(loaded) && IsRun(m, steps)
    requires !(Hidden(steps[..|steps| - 1]) <= {steps[|steps| - 1].event.annotation.id})
    ensures Replay(loaded + Kept(steps)).rows != Run(m, steps).mem.rows
  {
    var n := |steps| - 1;
    IsRunOfPrefix(m, steps, n);
    WrittenAgrees(m, loaded, steps[..n]);
    KeptSnoc(loaded, steps);
    assert Follows(Run(m, steps[..n]).mem, steps[n].event);
    AckAgrees(Replay(loaded + Kept(steps[..n])), Run(m, steps[..n]).mem, Hidden(steps[..n]), steps[n].event);
  }

  lemma AckRaisesRevision(m: Machine, loaded: seq<Event>, steps: seq<Step>)
    requires steps != [] && steps[|steps| - 1].outcome.Appended? && m.mem == Replay(loaded) && IsRun(m, steps)
    ensures Run(m, steps).mem.revision > 0
  {
    var n := |steps| - 1;
    NumbersAreBelow(loaded);
    IsRunOfPrefix(m, steps, n);
    LaterIsAbove(m, steps[..n], 0);
    assert Follows(Run(m, steps[..n]).mem, steps[n].event);
  }

  lemma BuriedIsShown(m: Machine, loaded: seq<Event>, steps: seq<Step>, i: nat)
    requires Session(m, loaded, steps) && i < |steps| && steps[i].outcome.Appended? && NoneBuried(steps[..i])
    requires !(Hidden(steps[..i]) <= {steps[i].event.annotation.id})
    ensures Replay(Shown(loaded, steps[..i + 1])).rows != Run(m, steps[..i + 1]).mem.rows
    ensures Run(m, steps[..i + 1]).mem.revision > 0
  {
    var upto := steps[..i + 1];
    assert upto[..i] == steps[..i] && upto[..i + 1] == upto;
    SessionPrefix(m, loaded, steps, i + 1);
    LastAckBuries(m, loaded, upto);
    AckRaisesRevision(m, loaded, upto);
  }

  /**
  Time travel across a reopening.  However long the reopened store has run, it gives every revision of the
  earlier session as it was, if and only if no acknowledged append of that session came after a hidden record
  of another annotation.
  */
  lemma PastSurvivesReopening(d: Disk, steps: seq<Step>, reopened: Machine, later: seq<Step>)
    requires Reopened(d).Some? && Session(Loaded(d), Records(d), steps) && !TailIsLost(d, steps)
    requires Reopened(Run(Loaded(d), steps).disk) == Some(reopened.mem) && IsRun(reopened, later)
    ensures (forall k | 0 <= k <= |steps| :: Remembers(Run(reopened, later).mem, Run(Loaded(d), steps[..k]).mem))
            <==> NoneBuried(steps)
  {
    var m, now := Loaded(d), Run(reopened, later).mem;
    if NoneBuried(steps) {
      forall k | 0 <= k <= |steps| ensures Remembers(now, Run(m, steps[..k]).mem) {
        if Run(m, steps[..k]).mem.revision > 0 {
          RemembersWhen(d, steps, k, reopened, later);
          SessionPrefix(m, Records(d), steps, k);
          NoneBuriedPrefix(steps, k);
          ShownWhenNoneBuried(m, Records(d), steps[..k]);
        }
      }
    } else {
      var i := FirstBuried(steps);
      BuriedIsShown(m, Records(d), steps, i);
      RemembersWhen(d, steps, i + 1, reopened, later);
    }
  }

  /**
  A journal that was opened with an unterminated record and then spoiled it gives its revisions back, when it is
  reopened, exactly when that record said nothing new.
  */
  lemma PastAfterLostTail(d: Disk, steps: seq<Step>)
    requires Reopened(d).Some? && Session(Loaded(d), Records(d), steps) && TailIsLost(d, steps)
    requires Readable(Run(Loaded(d), steps).disk.lines)
    ensures (forall k | 0 <= k <= |steps| ::
               Remembers(Replay(Records(Run(Loaded(d), steps).disk)), Run(Loaded(d), steps[..k]).mem))
            <==> Loaded(d).mem.revision == 0 || Replay(EventsOf(d.lines)).rows == Loaded(d).mem.rows
  {
    var unread := RecordsAfter(Loaded(d), steps);
    var mem := Loaded(d).mem;
    WithoutTail(d);
    RemembersWithout(EventsOf(d.lines), mem);
    forall k | 0 <= k <= |steps| ensures Run(Loaded(d), steps[..k]).mem == mem {
      NothingAcknowledged(Loaded(d), steps, k);
    }
    assert Run(Loaded(d), steps[..0]).mem == mem;
  }

  lemma WithoutTail(d: Disk)
    requires Reopened(d).Some? && d.tail.Whole? && IsJournal(Records(d))
    ensures IsJournal(EventsOf(d.lines)) && 0 <= Replay(EventsOf(d.lines)).revision <= Loaded(d).mem.revision
  {
    FewerIsJournal(Records(d), EventsOf(d.lines));
    RecordsAre(d);
    NumbersAreBelow(EventsOf(d.lines));
  }

  lemma RemembersWithout(left: seq<Event>, mem: State)
    requires IsJournal(left) && mem.revision >= Replay(left).revision
    ensures Remembers(Replay(left), mem) <==> mem.revision <= 0 || Replay(left).rows == mem.rows
  {
    forall snapshot
      ensures Latest(Replay(left).versions, snapshot, Cutoff(Replay(left), mem.revision))
              == InSnapshot(Replay(left).rows, snapshot)
    {
      PresentIsLatest(left, snapshot, Cutoff(Replay(left), mem.revision));
    }
    SameInEverySnapshot(Replay(left).rows, mem.rows);
  }

  lemma {:induction false} NothingAcknowledged(m: Machine, steps: seq<Step>, k: nat)
    requires Kept(steps) == [] && k <= |steps|
    ensures Run(m, steps[..k]).mem == m.mem
    decreases |steps|
  {
    var n := |steps| - 1;
    if k < |steps| {
      NothingAcknowledged(m, steps[..n], k);
      assert steps[..n][..k] == steps[..k];
    } else if k > 0 {
      NothingAcknowledged(m, steps[..n], n);
      assert steps[..k] == steps && steps[..n][..n] == steps[..n];
    }
  }

  // ----- A past that changes -----

  function Note(id: Name): Annotation {
    Annotation(id, 1, 1, Finding, 1, "note", "operator", false, 1, 1, 0, 0)
  }

  function Creation(id: Name): Event {
    Event(Created, Note(id))
  }

  const EMPTY_DISK := Disk([], NoTail)

  /** The first creation fails to sync, the second is acknowledged. */
  const RETRIED := [Step(Creation(1), Unsynced), Step(Creation(2), Appended)]

  lemma RetriedRun()
    ensures Run(Loaded(EMPTY_DISK), RETRIED[..1]) == Machine(Disk([Record(Creation(1))], NoTail), EMPTY)
    ensures Run(Loaded(EMPTY_DISK), RETRIED)
            == Machine(Disk([Record(Creation(1)), Record(Creation(2))], NoTail), Apply(EMPTY, Creation(2)))
  {
    assert RETRIED[..1] == [RETRIED[0]] && RETRIED[..1][..0] == [];
    assert Loaded(EMPTY_DISK) == Machine(EMPTY_DISK, EMPTY);
    assert Run(Loaded(EMPTY_DISK), RETRIED[..1]) == Act(Machine(EMPTY_DISK, EMPTY), RETRIED[0]);
    assert [] + [Record(Creation(1))] == [Record(Creation(1))];
    assert [Record(Creation(1))] + [Record(Creation(2))] == [Record(Creation(1)), Record(Creation(2))];
  }

  lemma RetriedNames()
    ensures NewNames([], RETRIED)
  {
    assert RETRIED[..0] == [] && RETRIED[..1] == [RETRIED[0]] && RETRIED[..1][..0] == [];
    assert [] + Tried(RETRIED[..1]) == [Creation(1)];
  }

  lemma RetriedSession()
    ensures Session(Loaded(EMPTY_DISK), [], RETRIED)
  {
    RetriedRun();
    RetriedNames();
    assert RETRIED[..0] == [];
    forall i | 0 <= i < |RETRIED| ensures Follows(Run(Loaded(EMPTY_DISK), RETRIED[..i]).mem, RETRIED[i].event) {
      assert i == 0 || i == 1;
    }
  }

  lemma ReplayOfTwo()
    ensures EventsOf([Record(Creation(1)), Record(Creation(2))]) == [Creation(1), Creation(2)]
    ensures Replay([Creation(1), Creation(2)]).versions == [Note(1), Note(2)]
    ensures Replay([Creation(1), Creation(2)]).revision == 1
    ensures Latest([Note(1), Note(2)], 1, 1) == map[1 := Note(1), 2 := Note(2)]
  {
    assert [Record(Creation(1)), Record(Creation(2))][..1] == [Record(Creation(1))];
    assert [Record(Creation(1))][..0] == [];
    assert [Creation(1), Creation(2)][..1] == [Creation(1)] && [Creation(1)][..0] == [];
    assert [Note(1), Note(2)][..1] == [Note(1)] && [Note(1)][..0] == [];
  }

  /**
  In an empty store a creation fails to sync and the next one is acknowledged.  Memory at revision one held the
  second annotation alone; the reopened store gives both as of that revision, and two records have one number.
  */
  lemma UnsyncedRecordChangesThePast()
    ensures Session(Loaded(EMPTY_DISK), Records(EMPTY_DISK), RETRIED)
    ensures var after := Run(Loaded(EMPTY_DISK), RETRIED);
            && Readable(after.disk.lines) && !IsGapless(Records(after.disk))
            && after.mem.revision == 1 && InSnapshot(after.mem.rows, 1) == map[2 := Note(2)]
            && Latest(Replay(Records(after.disk)).versions, 1, Cutoff(Replay(Records(after.disk)), 1))
               == map[1 := Note(1), 2 := Note(2)]
  {
    RetriedRun();
    RetriedSession();
    ReplayOfTwo();
    var events := [Creation(1), Creation(2)];
    assert Records(Run(Loaded(EMPTY_DISK), RETRIED).disk) == events + [] == events;
    assert events[1].annotation.globalRevision == 1;
  }
}
