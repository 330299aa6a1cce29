/**
Whole sequences of requests: they are runs of the journal, and no acknowledged edit overwrites one it did not
see.
*/
module AnnotationRequests {
  import opened Wrappers
  import opened Annotations
  import opened AnnotationTheorems
  import opened Tokens

  datatype Request = Request(op: Op, now: int, outcome: Outcome)

  /** The event a request makes of the state, if it passes its checks. */
  function EventOf(s: State, r: Request): Option<Event> {
    match Attempt(s, r.op, r.now)
    case Ok(e) => Some(e)
    case Err(_) => None
  }

  /** The steps that a sequence of requests makes: one for each that passes its checks. */
  function StepsOf(m: Machine, requests: seq<Request>): seq<Step> {
    if requests == [] then []
    else
      var n := |requests| - 1;
      var before := StepsOf(m, requests[..n]);
      match EventOf(Run(m, before).mem, requests[n])
      case Some(e) => before + [Step(e, requests[n].outcome)]
      case None => before
  }

  function After(m: Machine, requests: seq<Request>): Machine {
    Run(m, StepsOf(m, requests))
  }

  /** New identifiers are new: random ones are assumed not to repeat. */
  ghost predicate IsFresh(s: State, r: Request) {
    r.op.Create? && r.op.newId.Some? ==> r.op.newId.value !in s.rows
  }

  ghost predicate AllFresh(m: Machine, requests: seq<Request>) {
    forall i | 0 <= i < |requests| :: IsFresh(After(m, requests[..i]).mem, requests[i])
  }

  /** What an event says about the request that made it. */
  lemma EventFollows(s: State, r: Request)
    requires KeyedById(s.rows) && IsFresh(s, r) && EventOf(s, r).Some?
    ensures Follows(s, EventOf(s, r).value)
    ensures !r.op.Create? ==> EventOf(s, r).value.annotation.id == r.op.id
    ensures !r.op.Create? ==> EventOf(s, r).value.annotation.revision == r.op.expected + 1
  {
    AttemptFollows(s, r.op, r.now);
  }

  lemma StepsSnoc(m: Machine, requests: seq<Request>)
    requires requests != []
    ensures var n := |requests| - 1;
            var before := StepsOf(m, requests[..n]);
            var e := EventOf(Run(m, before).mem, requests[n]);
            StepsOf(m, requests) == if e.Some? then before + [Step(e.value, requests[n].outcome)] else before
  {
  }

  lemma ExtendsRun(m: Machine, steps: seq<Step>, step: Step)
    requires IsRun(m, steps) && KeyedById(Run(m, steps).mem.rows) && Follows(Run(m, steps).mem, step.event)
    ensures IsRun(m, steps + [step]) && KeyedById(Run(m, steps + [step]).mem.rows)
    ensures Run(m, steps + [step]) == Act(Run(m, steps), step)
  {
    var longer := steps + [step];
    assert longer[..|steps|] == steps;
    forall i | 0 <= i < |longer| ensures Follows(Run(m, longer[..i]).mem, longer[i].event) {
      if i < |steps| { assert longer[..i] == steps[..i]; }
    }
  }

  /**
  Any sequence of creations, edits and resolutions is a run of the steps it makes, and keeps rows under their
  identifiers.
  */
  lemma {:induction false} RequestsAreARun(m: Machine, requests: seq<Request>)
    requires KeyedById(m.mem.rows) && AllFresh(m, requests)
    ensures IsRun(m, StepsOf(m, requests)) && KeyedById(After(m, requests).mem.rows)
    decreases |requests|
  {
    if requests != [] {
      var n := |requests| - 1;
      FreshPrefix(m, requests, n);
      RequestsAreARun(m, requests[..n]);
      StepsSnoc(m, requests);
      var s := After(m, requests[..n]).mem;
      if EventOf(s, requests[n]).Some? {
        EventFollows(s, requests[n]);
        ExtendsRun(m, StepsOf(m, requests[..n]), Step(EventOf(s, requests[n]).value, requests[n].outcome));
      }
    }
  }

  lemma FreshPrefix(m: Machine, requests: seq<Request>, n: nat)
    requires AllFresh(m, requests) && n <= |requests|
    ensures AllFresh(m, requests[..n])
  {
    forall i | 0 <= i < n ensures IsFresh(After(m, requests[..n][..i]).mem, requests[..n][i]) {
      assert requests[..n][..i] == requests[..i];
    }
  }

  /** Longer sequences of requests make longer sequences of steps. */
  lemma {:induction false} StepsGrow(m: Machine, requests: seq<Request>, i: nat)
    requires i <= |requests|
    ensures StepsOf(m, requests[..i]) <= StepsOf(m, requests)
    decreases |requests|
  {
    if i == |requests| {
      assert requests[..i] == requests;
    } else {
      var n := |requests| - 1;
      StepsGrow(m, requests[..n], i);
      assert requests[..n][..i] == requests[..i];
      StepsSnoc(m, requests);
    }
  }

  predicate IsEdit(r: Request, id: Name) {
    !r.op.Create? && r.op.id == id
  }

  /** The request passed its checks, and its append was reported as done. */
  predicate Acknowledges(s: State, r: Request) {
    EventOf(s, r).Some? && r.outcome.Appended?
  }

  /** An acknowledged edit leaves its row one revision after the one it expected. */
  lemma EditRaisesRevision(m: Machine, steps: seq<Step>, r: Request, id: Name)
    requires IsRun(m, steps) && KeyedById(Run(m, steps).mem.rows) && IsEdit(r, id)
    requires Acknowledges(Run(m, steps).mem, r)
    ensures AtLeast(Run(m, steps + [Step(EventOf(Run(m, steps).mem, r).value, r.outcome)]).mem, id, r.op.expected + 1)
  {
    EventFollows(Run(m, steps).mem, r);
    ExtendsRun(m, steps, Step(EventOf(Run(m, steps).mem, r).value, r.outcome));
  }

  /** An edit that passes its checks expected the revision of its row. */
  lemma EditExpectsRevision(s: State, r: Request, id: Name, revision: int)
    requires IsEdit(r, id) && EventOf(s, r).Some? && AtLeast(s, id, revision)
    ensures r.op.expected >= revision
  {
  }

  lemma RevisionStays(m: Machine, requests: seq<Request>, i: nat, id: Name, revision: int)
    requires KeyedById(m.mem.rows) && AllFresh(m, requests) && i <= |requests|
    requires AtLeast(After(m, requests[..i]).mem, id, revision)
    ensures AtLeast(After(m, requests).mem, id, revision)
  {
    RequestsAreARun(m, requests);
    StepsGrow(m, requests, i);
    var early, steps := StepsOf(m, requests[..i]), StepsOf(m, requests);
    assert steps[..|early|] == early;
    RevisionsOnlyGrow(m, steps, |early|, id, revision);
  }

  /** Request number i is an edit of the annotation, and it was acknowledged. */
  ghost predicate EditedBy(m: Machine, requests: seq<Request>, i: nat, id: Name) {
    i < |requests| && IsEdit(requests[i], id) && Acknowledges(After(m, requests[..i]).mem, requests[i])
  }

  /**
  Of two acknowledged edits of one annotation, the later expected a revision that the earlier one, or a still
  later edit, had made: it saw the earlier edit.
  */
  lemma LaterEditSawTheEarlier(m: Machine, requests: seq<Request>, i: nat, j: nat, id: Name)
    requires KeyedById(m.mem.rows) && AllFresh(m, requests)
    requires i < j && EditedBy(m, requests, i, id) && EditedBy(m, requests, j, id)
    ensures requests[j].op.expected >= requests[i].op.expected + 1
  {
    FreshPrefix(m, requests, i);
    RequestsAreARun(m, requests[..i]);
    EditRaisesRevision(m, StepsOf(m, requests[..i]), requests[i], id);
    assert requests[..i + 1][..i] == requests[..i];
    StepsSnoc(m, requests[..i + 1]);
    FreshPrefix(m, requests, j);
    assert requests[..j][..i + 1] == requests[..i + 1];
    RevisionStays(m, requests[..j], i + 1, id, requests[i].op.expected + 1);
    EditExpectsRevision(After(m, requests[..j]).mem, requests[j], id, requests[i].op.expected + 1);
  }

  // ----- What an acknowledged request leaves -----

  /** The row an acknowledged request makes of the one it finds. */
  ghost predicate Leaves(before: map<Name, Annotation>, after: map<Name, Annotation>, op: Op, revision: int, now: int) {
    match op
    case Create(_, _, _, _, _, _, newId) =>
      && newId.Some? && newId.value in after && after == before[newId.value := after[newId.value]]
      && Carries(after[newId.value], op) && !after[newId.value].resolved && after[newId.value].revision == 1
      && after[newId.value].globalRevision == revision
    case Update(id, expected, text) =>
      && id in before
      && after == before[id := before[id].(body := Trim(text), revision := before[id].revision + 1,
                                           globalRevision := revision, updatedAt := now)]
    case Resolve(id, expected) =>
      && id in before
      && after == before[id := before[id].(resolved := true, revision := before[id].revision + 1,
                                           globalRevision := revision, updatedAt := now)]
  }

  lemma AcknowledgedLeaves(s: State, r: Request)
    requires KeyedById(s.rows) && Acknowledges(s, r)
    ensures Leaves(s.rows, Apply(s, EventOf(s, r).value).rows, r.op, s.revision + 1, r.now)
  {
  }

  /** The annotation an acknowledged request is about. */
  predicate Touches(s: State, r: Request, id: Name) {
    Acknowledges(s, r) && (if r.op.Create? then r.op.newId == Some(id) else r.op.id == id)
  }

  /** One more request is one more step, or none. */
  lemma NextRequest(m: Machine, requests: seq<Request>)
    requires requests != [] && KeyedById(m.mem.rows) && AllFresh(m, requests)
    ensures var n := |requests| - 1; var was := After(m, requests[..n]);
            && KeyedById(was.mem.rows)
            && After(m, requests) == match EventOf(was.mem, requests[n])
                                     case Some(e) => Act(was, Step(e, requests[n].outcome))
                                     case None => was
  {
    var n := |requests| - 1;
    FreshPrefix(m, requests, n);
    RequestsAreARun(m, requests[..n]);
    StepsSnoc(m, requests);
    var s := After(m, requests[..n]).mem;
    if EventOf(s, requests[n]).Some? {
      EventFollows(s, requests[n]);
      ExtendsRun(m, StepsOf(m, requests[..n]), Step(EventOf(s, requests[n]).value, requests[n].outcome));
    }
  }

  /** A request that is not acknowledged for an annotation leaves its row as it was. */
  lemma OthersLeaveRow(m: Machine, requests: seq<Request>, id: Name)
    requires requests != [] && KeyedById(m.mem.rows) && AllFresh(m, requests)
    requires var n := |requests| - 1; !Touches(After(m, requests[..n]).mem, requests[n], id)
    ensures var was, now := After(m, requests[..|requests| - 1]).mem.rows, After(m, requests).mem.rows;
            (id in now <==> id in was) && (id in was ==> now[id] == was[id])
  {
    var n := |requests| - 1;
    NextRequest(m, requests);
    var s := After(m, requests[..n]).mem;
    if Acknowledges(s, requests[n]) { AcknowledgedLeaves(s, requests[n]); }
  }

  lemma {:induction false} RowStays(m: Machine, requests: seq<Request>, i: nat, id: Name)
    requires KeyedById(m.mem.rows) && AllFresh(m, requests) && i <= |requests|
    requires forall j | i <= j < |requests| :: !Touches(After(m, requests[..j]).mem, requests[j], id)
    ensures var was, now := After(m, requests[..i]).mem.rows, After(m, requests).mem.rows;
            (id in now <==> id in was) && (id in was ==> now[id] == was[id])
    decreases |requests|
  {
    if i == |requests| {
      assert requests[..i] == requests;
    } else {
      var n := |requests| - 1;
      FreshPrefix(m, requests, n);
      assert forall j | i <= j < n :: requests[..n][..j] == requests[..j];
      assert requests[..n][..i] == requests[..i];
      RowStays(m, requests[..n], i, id);
      OthersLeaveRow(m, requests, id);
    }
  }

  /** What one acknowledged request leaves after the requests before it. */
  lemma RequestLeaves(m: Machine, requests: seq<Request>)
    requires requests != [] && KeyedById(m.mem.rows) && AllFresh(m, requests)
    requires var n := |requests| - 1; Acknowledges(After(m, requests[..n]).mem, requests[n])
    ensures var n := |requests| - 1; var s := After(m, requests[..n]).mem;
            Leaves(s.rows, After(m, requests).mem.rows, requests[n].op, s.revision + 1, requests[n].now)
  {
    var n := |requests| - 1;
    NextRequest(m, requests);
    AcknowledgedLeaves(After(m, requests[..n]).mem, requests[n]);
  }

  /**
  The text of an acknowledged edit is the row's text, whatever else was requested, until a request about the same
  annotation is acknowledged; a resolution keeps the text and stays as long.
  */
  lemma EditStays(m: Machine, requests: seq<Request>, i: nat, id: Name)
    requires KeyedById(m.mem.rows) && AllFresh(m, requests) && EditedBy(m, requests, i, id)
    requires forall j | i < j < |requests| :: !Touches(After(m, requests[..j]).mem, requests[j], id)
    ensures var was, now := After(m, requests[..i]).mem.rows, After(m, requests).mem.rows;
            && id in was && id in now && now[id].revision == was[id].revision + 1
            && now[id].body == (if requests[i].op.Update? then Trim(requests[i].op.text) else was[id].body)
            && now[id].resolved == (if requests[i].op.Resolve? then true else was[id].resolved)
  {
    var done := requests[..i + 1];
    FreshPrefix(m, requests, i + 1);
    assert done[..i] == requests[..i];
    RequestLeaves(m, done);
    RowStays(m, requests, i + 1, id);
  }
}
