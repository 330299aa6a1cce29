/**
What the annotation journal promises over whole runs: when reopening it rebuilds exactly what was in
memory, what a past revision looked like, and that no edit is lost.
*/
module AnnotationTheorems {
  import opened Wrappers
  import opened Annotations

  // ----- Reopening -----

  /** How the disk stands to memory after a run, as the outcomes alone tell it. */
  datatype Phase =
    | Clean        // whole lines, and memory has them all
    | TornTail     // a failed write left part of a record; memory has all whole lines
    | OpenTail     // the last record has no newline, and memory has it
    | HiddenTail   // a failed write left a record without its newline; memory lacks it
    | Diverged

  function Start(d: Disk): Phase {
    if d.tail.Whole? then OpenTail else if d.tail.Torn? then TornTail else Clean
  }

  function Next(p: Phase, o: Outcome): Phase {
    match o
    case NotWritten => p
    case CutShort(whole) =>
      (match p
       case Clean => if whole then HiddenTail else TornTail
       case TornTail => TornTail
       case HiddenTail => TornTail
       case OpenTail => Diverged
       case Diverged => Diverged)
    case Appended => if p.Clean? then Clean else Diverged
    case Unsynced => Diverged
  }

  function PhaseAfter(d: Disk, steps: seq<Step>): Phase {
    if steps == [] then Start(d)
    else Next(PhaseAfter(d, steps[..|steps| - 1]), steps[|steps| - 1].outcome)
  }

  predicate InStep(p: Phase) {
    p.Clean? || p.TornTail? || p.OpenTail?
  }

  function Loaded(d: Disk): (m: Machine)
    requires Reopened(d).Some?
  {
    Machine(d, Reopened(d).value)
  }

  /** How many versions the whole lines of the journal hold. */
  function VersionsOnDisk(d: Disk): nat
    requires Readable(d.lines)
  {
    |Replay(EventsOf(d.lines)).versions|
  }

  ghost predicate Stands(m: Machine, p: Phase) {
    match p
    case Clean => Readable(m.disk.lines) && m.disk.tail.NoTail? && Replay(EventsOf(m.disk.lines)) == m.mem
    case TornTail => Readable(m.disk.lines) && m.disk.tail.Torn? && Replay(EventsOf(m.disk.lines)) == m.mem
    case HiddenTail =>
      Readable(m.disk.lines) && m.disk.tail.Whole? && !m.disk.tail.event.action.Deleted?
      && Replay(EventsOf(m.disk.lines)) == m.mem
    case OpenTail => Readable(m.disk.lines) && m.disk.tail.Whole? && Reopened(m.disk) == Some(m.mem)
    case Diverged =>
      Readable(m.disk.lines) ==>
        VersionsOnDisk(m.disk) > |m.mem.versions| || (VersionsOnDisk(m.disk) < |m.mem.versions| && m.disk.tail.Torn?)
  }

  lemma LinesSnoc(lines: seq<Line>, line: Line)
    ensures Readable(lines + [line]) <==> Readable(lines) && line.Record?
    ensures Readable(lines + [line]) ==> EventsOf(lines + [line]) == EventsOf(lines) + [line.event]
  {
    assert (lines + [line])[..|lines|] == lines;
    assert (lines + [line])[|lines|] == line;
    if Readable(lines + [line]) {
      forall i | 0 <= i < |lines| ensures lines[i].Record? { assert (lines + [line])[i].Record?; }
    }
  }

  lemma AppendedLine(d: Disk, e: Event)
    ensures Readable(Written(d, e, Appended).lines) <==> Readable(d.lines) && d.tail.NoTail?
    ensures Readable(Written(d, e, Appended).lines) ==>
              Replay(EventsOf(Written(d, e, Appended).lines)) == Apply(Replay(EventsOf(d.lines)), e)
  {
    var line := if d.tail.NoTail? then Record(e) else Garbage;
    LinesSnoc(d.lines, line);
    if Readable(d.lines + [line]) { ReplaySnoc(EventsOf(d.lines), e); }
  }

  lemma PartialWriteMoves(d: Disk, mem: State, p: Phase, e: Event, o: Outcome)
    requires Stands(Machine(d, mem), p) && !p.Diverged? && !e.action.Deleted? && (o.NotWritten? || o.CutShort?)
    requires p.OpenTail? ==> !d.tail.event.action.Deleted?
    ensures Stands(Machine(Written(d, e, o), mem), Next(p, o))
  {
    RecordsAre(d);
  }

  lemma FullWriteMoves(d: Disk, mem: State, p: Phase, e: Event, o: Outcome)
    requires Stands(Machine(d, mem), p) && !p.Diverged? && !e.action.Deleted? && (o.Appended? || o.Unsynced?)
    ensures Stands(Machine(Written(d, e, o), if o.Appended? then Apply(mem, e) else mem), Next(p, o))
  {
    AppendedLine(d, e);
  }

  /** One write, from a disk that can still be reconciled with memory. */
  lemma WriteMoves(d: Disk, mem: State, p: Phase, e: Event, o: Outcome)
    requires Stands(Machine(d, mem), p) && !p.Diverged? && !e.action.Deleted?
    requires p.OpenTail? ==> !d.tail.event.action.Deleted?
    ensures Stands(Machine(Written(d, e, o), if o.Appended? then Apply(mem, e) else mem), Next(p, o))
  {
    if o.Appended? || o.Unsynced? {
      FullWriteMoves(d, mem, p, e, o);
    } else {
      PartialWriteMoves(d, mem, p, e, o);
    }
  }

  /** Once disk and memory disagree, no later write makes them agree. */
  lemma DivergenceStays(d: Disk, mem: State, e: Event, o: Outcome)
    requires Stands(Machine(d, mem), Diverged) && !e.action.Deleted?
    ensures Stands(Machine(Written(d, e, o), if o.Appended? then Apply(mem, e) else mem), Diverged)
  {
    AppendedLine(d, e);
  }

  /** A journal's own records are never deletions: nothing in the store writes one. */
  ghost predicate NoDeletions(d: Disk) {
    && (forall i | 0 <= i < |d.lines| :: d.lines[i].Record? ==> !d.lines[i].event.action.Deleted?)
    && (d.tail.Whole? ==> !d.tail.event.action.Deleted?)
  }

  /** Every step's event is one that a request could make of the state at that time. */
  ghost predicate IsRun(m: Machine, steps: seq<Step>) {
    forall i | 0 <= i < |steps| :: Follows(Run(m, steps[..i]).mem, steps[i].event)
  }

  lemma IsRunOfPrefix(m: Machine, steps: seq<Step>, k: nat)
    requires IsRun(m, steps) && k <= |steps|
    ensures IsRun(m, steps[..k])
  {
    forall i | 0 <= i < k ensures steps[..k][..i] == steps[..i] {
    }
  }

  /** One step, wherever disk and memory stand. */
  lemma StepStands(m: Machine, p: Phase, step: Step)
    requires Stands(m, p) && NoDeletions(m.disk) && !step.event.action.Deleted?
    ensures Stands(Act(m, step), Next(p, step.outcome)) && NoDeletions(Act(m, step).disk)
  {
    StepWritesNoDeletion(m.disk, step);
    if p.Diverged? {
      DivergenceStays(m.disk, m.mem, step.event, step.outcome);
    } else {
      WriteMoves(m.disk, m.mem, p, step.event, step.outcome);
    }
  }

  lemma StepWritesNoDeletion(d: Disk, step: Step)
    requires NoDeletions(d) && !step.event.action.Deleted?
    ensures NoDeletions(Written(d, step.event, step.outcome))
  {
  }

  lemma {:induction false} RunStands(d: Disk, steps: seq<Step>)
    requires Reopened(d).Some? && NoDeletions(d) && IsRun(Loaded(d), steps)
    ensures Stands(Run(Loaded(d), steps), PhaseAfter(d, steps))
    ensures NoDeletions(Run(Loaded(d), steps).disk)
  {
    if steps == [] {
      RecordsAre(d);
    } else {
      var n := |steps| - 1;
      IsRunOfPrefix(Loaded(d), steps, n);
      RunStands(d, steps[..n]);
      StepStands(Run(Loaded(d), steps[..n]), PhaseAfter(d, steps[..n]), steps[n]);
    }
  }

  lemma StandsMeans(m: Machine, p: Phase)
    requires Stands(m, p)
    ensures Reopened(m.disk) == Some(m.mem) <==> InStep(p)
  {
    if Readable(m.disk.lines) { RecordsAre(m.disk); }
  }

  /**
  Reopening the journal rebuilds exactly the rows, versions and revision that were in memory if and only if
  the outcomes of the appends left the two in step.
  */
  lemma ReopenRebuilds(d: Disk, steps: seq<Step>)
    requires Reopened(d).Some? && NoDeletions(d) && IsRun(Loaded(d), steps)
    ensures Reopened(Run(Loaded(d), steps).disk) == Some(Run(Loaded(d), steps).mem) <==> InStep(PhaseAfter(d, steps))
  {
    RunStands(d, steps);
    StandsMeans(Run(Loaded(d), steps), PhaseAfter(d, steps));
  }

  lemma {:induction false} PhaseStaysClean(d: Disk, steps: seq<Step>)
    requires d.tail.NoTail? && forall i | 0 <= i < |steps| :: steps[i].outcome.Appended? || steps[i].outcome.NotWritten?
    ensures PhaseAfter(d, steps) == Clean
  {
    if steps != [] { PhaseStaysClean(d, steps[..|steps| - 1]); }
  }

  /** When every append either succeeds or writes nothing, a journal that ended in a newline stays in step. */
  lemma CleanOutcomesStayInStep(d: Disk, steps: seq<Step>)
    requires Reopened(d).Some? && NoDeletions(d) && d.tail.NoTail? && IsRun(Loaded(d), steps)
    requires forall i | 0 <= i < |steps| :: steps[i].outcome.Appended? || steps[i].outcome.NotWritten?
    ensures Reopened(Run(Loaded(d), steps).disk) == Some(Run(Loaded(d), steps).mem)
  {
    ReopenRebuilds(d, steps);
    PhaseStaysClean(d, steps);
  }

  /** A failed sync is not reported as done, and yet its record is there when the journal is reopened. */
  lemma UnsyncedRecordResurfaces(d: Disk, e: Event)
    requires Reopened(d).Some? && d.tail.NoTail?
    ensures var m := Act(Loaded(d), Step(e, Unsynced));
            m.mem == Loaded(d).mem && Reopened(m.disk) == Some(Apply(m.mem, e))
  {
    RecordsAre(d);
    AppendedLine(d, e);
    RecordsAre(Written(d, e, Appended));
  }

  /**
  A last record without its newline is loaded, but the next append that is reported as done shares its line,
  and the journal can never be opened again.
  */
  lemma OpenTailIsFatal(d: Disk, e: Event)
    requires Reopened(d).Some?
    ensures Reopened(Act(Loaded(d), Step(e, Appended)).disk) == None <==> !d.tail.NoTail?
  {
    AppendedLine(d, e);
  }

  // ----- Histories -----

  /** The events acknowledged during a run. */
  function Acknowledged(steps: seq<Step>): seq<Event> {
    if steps == [] then []
    else
      var last := steps[|steps| - 1];
      var before := Acknowledged(steps[..|steps| - 1]);
      if last.outcome.Appended? then before + [last.event] else before
  }

  /** No deletions, and each annotation stays in its snapshot: numbers may repeat or leave gaps. */
  ghost predicate IsJournal(events: seq<Event>) {
    (forall e | e in events :: !e.action.Deleted?) && SnapshotsAreStable(events)
  }

  ghost predicate SnapshotsAreStable(events: seq<Event>) {
    forall e, f | e in events && f in events && e.annotation.id == f.annotation.id ::
      e.annotation.snapshot == f.annotation.snapshot
  }

  /** Numbered from one without gaps. */
  ghost predicate IsGapless(events: seq<Event>) {
    forall i | 0 <= i < |events| :: events[i].annotation.globalRevision == i + 1
  }

  lemma {:induction false} RowsComeFromEvents(events: seq<Event>)
    requires forall i | 0 <= i < |events| :: !events[i].action.Deleted?
    ensures KeyedById(Replay(events).rows)
    ensures forall id | id in Replay(events).rows :: exists e | e in events :: e.annotation == Replay(events).rows[id]
    ensures forall e | e in events :: e.annotation.id in Replay(events).rows
  {
    if events != [] {
      var n := |events| - 1;
      RowsComeFromEvents(events[..n]);
      var before, s := Replay(events[..n]), Replay(events);
      assert events == events[..n] + [events[n]];
      forall id | id in s.rows ensures exists e | e in events :: e.annotation == s.rows[id] {
        if id == events[n].annotation.id {
          assert events[n] in events;
        } else {
          var e :| e in events[..n] && e.annotation == before.rows[id];
          assert e in events;
        }
      }
    }
  }

  lemma {:induction false} GaplessCounts(events: seq<Event>)
    requires IsGapless(events)
    ensures Replay(events).revision == |events|
  {
    if events != [] { GaplessCounts(events[..|events| - 1]); }
  }

  /** No event has a number above the revision of their replay. */
  lemma {:induction false} NumbersAreBelow(events: seq<Event>)
    ensures Replay(events).revision >= 0
    ensures forall e | e in events :: e.annotation.globalRevision <= Replay(events).revision
  {
    if events != [] {
      NumbersAreBelow(events[..|events| - 1]);
      assert events == events[..|events| - 1] + [events[|events| - 1]];
    }
  }

  /** The next event keeps a journal a journal, and a gapless one gapless. */
  lemma JournalExtends(events: seq<Event>, e: Event)
    requires IsJournal(events) && Follows(Replay(events), e)
    ensures IsJournal(events + [e])
    ensures IsGapless(events + [e]) <==> IsGapless(events)
  {
    RowsComeFromEvents(events);
    if IsGapless(events) { GaplessCounts(events); }
    if IsGapless(events + [e]) {
      forall i | 0 <= i < |events| ensures events[i].annotation.globalRevision == i + 1 {
        assert (events + [e])[i] == events[i];
      }
    }
  }

  /**
  Memory is the replay of what was loaded and what was acknowledged since, whatever numbers the loaded records
  have; it is numbered without gaps exactly when the loaded records are.
  */
  lemma {:induction false} RunIsReplay(m: Machine, loaded: seq<Event>, steps: seq<Step>)
    requires m.mem == Replay(loaded) && IsJournal(loaded) && IsRun(m, steps)
    ensures Run(m, steps).mem == Replay(loaded + Acknowledged(steps))
    ensures IsJournal(loaded + Acknowledged(steps))
    ensures IsGapless(loaded + Acknowledged(steps)) <==> IsGapless(loaded)
  {
    if steps == [] {
      assert loaded + [] == loaded;
    } else {
      var n := |steps| - 1;
      IsRunOfPrefix(m, steps, n);
      RunIsReplay(m, loaded, steps[..n]);
      var events, e := loaded + Acknowledged(steps[..n]), steps[n].event;
      if steps[n].outcome.Appended? {
        assert loaded + Acknowledged(steps) == events + [e];
        ReplaySnoc(events, e);
        JournalExtends(events, e);
      }
    }
  }

  // ----- Time travel -----

  /** The events up to a global revision, deletions left out. */
  function Upto(events: seq<Event>, cutoff: int): seq<Event> {
    if events == [] then []
    else
      var e := events[|events| - 1];
      var before := Upto(events[..|events| - 1], cutoff);
      if e.action.Deleted? || e.annotation.globalRevision > cutoff then before else before + [e]
  }

  function InSnapshot(rows: map<Name, Annotation>, snapshot: Name): map<Name, Annotation> {
    map id | id in rows && rows[id].snapshot == snapshot :: rows[id]
  }

  lemma {:induction false} UptoIsPart(events: seq<Event>, cutoff: int)
    ensures forall e | e in Upto(events, cutoff) :: e in events && !e.action.Deleted?
  {
    if events != [] { UptoIsPart(events[..|events| - 1], cutoff); }
  }

  lemma InSnapshotOfUpdate(rows: map<Name, Annotation>, a: Annotation, snapshot: Name)
    requires a.id in rows ==> rows[a.id].snapshot == a.snapshot
    ensures InSnapshot(rows[a.id := a], snapshot)
            == if a.snapshot == snapshot then InSnapshot(rows, snapshot)[a.id := a] else InSnapshot(rows, snapshot)
  {
  }

  /** An event's annotation has the snapshot that its earlier versions have. */
  lemma SnapshotOfRow(events: seq<Event>, cutoff: int)
    requires events != [] && SnapshotsAreStable(events)
    ensures var kept, a := Upto(events[..|events| - 1], cutoff), events[|events| - 1].annotation;
            a.id in Replay(kept).rows ==> Replay(kept).rows[a.id].snapshot == a.snapshot
  {
    var n := |events| - 1;
    var kept, a := Upto(events[..n], cutoff), events[n].annotation;
    UptoIsPart(events[..n], cutoff);
    RowsComeFromEvents(kept);
    if a.id in Replay(kept).rows {
      var was :| was in kept && was.annotation == Replay(kept).rows[a.id];
      var i :| 0 <= i < n && events[..n][i] == was;
      assert events[i] == was;
    }
  }

  lemma LatestSnoc(versions: seq<Annotation>, a: Annotation, snapshot: Name, cutoff: int)
    ensures Latest(versions + [a], snapshot, cutoff)
            == if a.snapshot == snapshot && a.globalRevision <= cutoff
               then Latest(versions, snapshot, cutoff)[a.id := a]
               else Latest(versions, snapshot, cutoff)
  {
    assert (versions + [a])[..|versions|] == versions;
  }

  ghost predicate PastAgrees(events: seq<Event>, snapshot: Name, cutoff: int) {
    Latest(Replay(events).versions, snapshot, cutoff) == InSnapshot(Replay(Upto(events, cutoff)).rows, snapshot)
  }

  /** The last event is not counted: it deletes, or it came later. */
  lemma PastIgnores(events: seq<Event>, snapshot: Name, cutoff: int)
    requires events != [] && PastAgrees(events[..|events| - 1], snapshot, cutoff)
    requires var e := events[|events| - 1]; e.action.Deleted? || e.annotation.globalRevision > cutoff
    ensures PastAgrees(events, snapshot, cutoff)
  {
    var n := |events| - 1;
    if !events[n].action.Deleted? {
      LatestSnoc(Replay(events[..n]).versions, events[n].annotation, snapshot, cutoff);
    }
  }

  lemma PastCounts(events: seq<Event>, snapshot: Name, cutoff: int)
    requires events != [] && SnapshotsAreStable(events) && PastAgrees(events[..|events| - 1], snapshot, cutoff)
    requires var e := events[|events| - 1]; !e.action.Deleted? && e.annotation.globalRevision <= cutoff
    ensures PastAgrees(events, snapshot, cutoff)
  {
    var n := |events| - 1;
    var kept, e := Upto(events[..n], cutoff), events[n];
    LatestSnoc(Replay(events[..n]).versions, e.annotation, snapshot, cutoff);
    ReplaySnoc(kept, e);
    SnapshotOfRow(events, cutoff);
    InSnapshotOfUpdate(Replay(kept).rows, e.annotation, snapshot);
  }

  /** For every journal: a past revision is what replaying only the events up to it gives. */
  lemma {:induction false} AtIsReplay(events: seq<Event>, snapshot: Name, cutoff: int)
    requires SnapshotsAreStable(events)
    ensures Latest(Replay(events).versions, snapshot, cutoff) == InSnapshot(Replay(Upto(events, cutoff)).rows, snapshot)
  {
    if events != [] {
      AtIsReplay(events[..|events| - 1], snapshot, cutoff);
      var e := events[|events| - 1];
      if e.action.Deleted? || e.annotation.globalRevision > cutoff {
        PastIgnores(events, snapshot, cutoff);
      } else {
        PastCounts(events, snapshot, cutoff);
      }
    }
  }

  lemma {:induction false} UptoAll(events: seq<Event>, cutoff: int)
    requires forall e | e in events :: !e.action.Deleted? && e.annotation.globalRevision <= cutoff
    ensures Upto(events, cutoff) == events
  {
    if events != [] {
      UptoAll(events[..|events| - 1], cutoff);
      assert events == events[..|events| - 1] + [events[|events| - 1]];
    }
  }

  /** The latest versions up to a journal's last revision are its rows. */
  lemma PresentIsLatest(events: seq<Event>, snapshot: Name, cutoff: int)
    requires IsJournal(events) && cutoff >= Replay(events).revision
    ensures Latest(Replay(events).versions, snapshot, cutoff) == InSnapshot(Replay(events).rows, snapshot)
  {
    NumbersAreBelow(events);
    UptoAll(events, cutoff);
    AtIsReplay(events, snapshot, cutoff);
  }

  /** What comes later has higher numbers, so it changes no answer about the revisions up to now. */
  lemma {:induction false} LaterIsAbove(m: Machine, steps: seq<Step>, k: nat)
    requires IsRun(m, steps) && k <= |steps|
    ensures Run(m, steps).mem.revision >= Run(m, steps[..k]).mem.revision
    ensures forall cutoff, snapshot | cutoff <= Run(m, steps[..k]).mem.revision ::
              Latest(Run(m, steps).mem.versions, snapshot, cutoff)
              == Latest(Run(m, steps[..k]).mem.versions, snapshot, cutoff)
    decreases |steps|
  {
    if k == |steps| {
      assert steps[..k] == steps;
    } else {
      var n := |steps| - 1;
      IsRunOfPrefix(m, steps, n);
      assert steps[..n][..k] == steps[..k];
      LaterIsAbove(m, steps[..n], k);
      var was, e := Run(m, steps[..n]).mem, steps[n].event;
      assert Follows(was, e);
      forall cutoff, snapshot | cutoff <= Run(m, steps[..k]).mem.revision
        ensures Latest(Run(m, steps).mem.versions, snapshot, cutoff) == Latest(was.versions, snapshot, cutoff)
      {
        LatestSnoc(was.versions, e.annotation, snapshot, cutoff);
      }
    }
  }

  /**
  Asking for the global revision that the store had after its first k steps gives the rows it had then, however
  many came after; asking for revision zero, the empty store's, gives the rows it has now.
  */
  lemma TimeTravel(m: Machine, loaded: seq<Event>, steps: seq<Step>, k: nat, snapshot: Name)
    requires m.mem == Replay(loaded) && IsJournal(loaded) && IsRun(m, steps) && k <= |steps|
    ensures var past, now := Run(m, steps[..k]).mem, Run(m, steps).mem;
            Latest(now.versions, snapshot, Cutoff(now, past.revision))
            == InSnapshot(if past.revision > 0 then past.rows else now.rows, snapshot)
  {
    IsRunOfPrefix(m, steps, k);
    RunIsReplay(m, loaded, steps);
    RunIsReplay(m, loaded, steps[..k]);
    LaterIsAbove(m, steps, k);
    PresentIsLatest(loaded + Acknowledged(steps), snapshot, Run(m, steps).mem.revision);
    PresentIsLatest(loaded + Acknowledged(steps[..k]), snapshot, Run(m, steps[..k]).mem.revision);
  }

  // ----- Edits -----

  lemma StepKeepsRow(m: Machine, step: Step, id: Name)
    requires Follows(m.mem, step.event) && id in m.mem.rows
    ensures id in Act(m, step).mem.rows && Act(m, step).mem.rows[id].revision >= m.mem.rows[id].revision
  {
  }

  /** The row is there, with at least this revision. */
  predicate AtLeast(s: State, id: Name, revision: int) {
    id in s.rows && s.rows[id].revision >= revision
  }

  lemma LastStepKeepsRow(m: Machine, steps: seq<Step>, id: Name, revision: int)
    requires steps != [] && Follows(Run(m, steps[..|steps| - 1]).mem, steps[|steps| - 1].event)
    requires AtLeast(Run(m, steps[..|steps| - 1]).mem, id, revision)
    ensures AtLeast(Run(m, steps).mem, id, revision)
  {
    StepKeepsRow(Run(m, steps[..|steps| - 1]), steps[|steps| - 1], id);
  }

  lemma {:induction false} RevisionsOnlyGrow(m: Machine, steps: seq<Step>, i: nat, id: Name, revision: int)
    requires IsRun(m, steps) && i <= |steps| && AtLeast(Run(m, steps[..i]).mem, id, revision)
    ensures AtLeast(Run(m, steps).mem, id, revision)
    decreases |steps|
  {
    if i == |steps| {
      assert steps[..i] == steps;
    } else {
      var n := |steps| - 1;
      IsRunOfPrefix(m, steps, n);
      assert steps[..n][..i] == steps[..i];
      RevisionsOnlyGrow(m, steps[..n], i, id, revision);
      assert Follows(Run(m, steps[..n]).mem, steps[n].event);
      LastStepKeepsRow(m, steps, id, revision);
    }
  }

  /**
  The acknowledged events of one annotation have ever higher revisions, so of two edits that expect the same
  revision only one is acknowledged: the later of two saw the earlier.
  */
  lemma NoEditIsLost(m: Machine, steps: seq<Step>, i: nat, j: nat)
    requires IsRun(m, steps) && i < j < |steps|
    requires steps[i].outcome.Appended? && steps[j].outcome.Appended?
    requires steps[i].event.annotation.id == steps[j].event.annotation.id
    ensures !steps[j].event.action.Created?
    ensures steps[i].event.annotation.revision < steps[j].event.annotation.revision
  {
    var e := steps[i].event;
    assert steps[..i + 1][..i] == steps[..i];
    assert Run(m, steps[..i + 1]) == Act(Run(m, steps[..i]), steps[i]);
    assert Follows(Run(m, steps[..i]).mem, e);
    IsRunOfPrefix(m, steps, j);
    assert steps[..j][..i + 1] == steps[..i + 1];
    RevisionsOnlyGrow(m, steps[..j], i + 1, e.annotation.id, e.annotation.revision);
    assert Follows(Run(m, steps[..j]).mem, steps[j].event);
  }
}
