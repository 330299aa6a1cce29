/** Two short runs in which a request that stops early breaks what a finished one keeps. */
module RateHoldsGaps {
  import opened Wrappers
  import opened RateHolds
  import opened RateHoldsInvariant
  import opened RateHoldsTheorems

  lemma Then(s: State, events: seq<Event>, e: Event) returns (longer: seq<Event>)
    requires IsRun(s, events) && Enabled(Run(s, events), e)
    ensures longer == events + [e]
    ensures IsRun(s, longer) && Run(s, longer) == Step(Run(s, events), e)
    decreases |events|
  {
    longer := events + [e];
    if events == [] {
      assert longer[1..] == [];
    } else {
      assert longer[1..] == events[1..] + [e];
      var _ := Then(Step(s, events[0]), events[1..], e);
    }
  }

  const ONE_BOUND := State(0, map[], None, map[1 := Binding(1, true)], None, {}, map[], None, map[], {}, [])

  function Doing(pc: Pc, cred: Cred, lookup: bool, spacing: nat, locked: Key): Actor {
    Actor(pc, cred, lookup, spacing, locked, 0, 0, 0)
  }

  /** Everything but the processes. */
  ghost predicate Stored(s: State, now: int, holds: map<Key, int>, cut: set<Key>) {
    s.now == now && s.holds == holds && s.cut == cut && s.provider == None && s.log == []
    && s.bindings == map[1 := Binding(1, true)] && s.provLock == None
  }

  ghost predicate Free(s: State) {
    s.writer == None && s.readers == {} && s.keyLocks == map[]
  }

  /** A request of account 1 takes its locks. */
  lemma RequestTakesItsLocks(s: State, before: seq<Event>) returns (events: seq<Event>)
    requires IsRun(s, before) && Stored(Run(s, before), 0, map[], {}) && Free(Run(s, before))
    requires Run(s, before).actors == map[]
    ensures IsRun(s, events) && RequestAt(Run(s, events), map[], ReadHold)
  {
    events := Then(s, before, Begin(0, 1, false, 1));
    assert At(Run(s, events), 0) == Doing(WantShared, 1, false, 1, Legacy(1));
    events := Then(s, events, Advance(0));
    assert At(Run(s, events), 0) == Doing(WantKey, 1, false, 1, Legacy(1));
    events := Then(s, events, Advance(0));
  }

  ghost predicate RequestAt(r: State, holds: map<Key, int>, pc: Pc) {
    && Stored(r, 0, holds, {}) && r.writer == None && r.readers == {0} && r.keyLocks == map[Principal(1) := 0]
    && r.actors == map[0 := Doing(pc, 1, false, 1, Principal(1))]
  }

  lemma RequestFindsNoHold(r: State)
    requires RequestAt(r, map[], ReadHold)
    ensures Enabled(r, Advance(0)) && RequestAt(Step(r, Advance(0)), map[], SaveRead(Reserve, 1))
  {
  }

  lemma RequestComputes(r: State)
    requires RequestAt(r, map[], SaveRead(Reserve, 1))
    ensures Enabled(r, Advance(0)) && RequestAt(Step(r, Advance(0)), map[], SavePut(Reserve, None, 1))
  {
  }

  /** It computes the hold it is about to store. */
  lemma RequestReadsTheHold(s: State, before: seq<Event>) returns (events: seq<Event>)
    requires IsRun(s, before) && RequestAt(Run(s, before), map[], ReadHold)
    ensures IsRun(s, events) && RequestAt(Run(s, events), map[], SavePut(Reserve, None, 1))
  {
    RequestFindsNoHold(Run(s, before));
    events := Then(s, before, Advance(0));
    RequestComputes(Run(s, events));
    events := Then(s, events, Advance(0));
  }

  /** It stores the hold and stops before the provider's copy. */
  lemma RequestStopsHalfway(s: State, before: seq<Event>) returns (events: seq<Event>)
    requires IsRun(s, before) && RequestAt(Run(s, before), map[], SavePut(Reserve, None, 1))
    ensures IsRun(s, events)
    ensures var r := Run(s, events);
      Stored(r, 0, HOLD_OF_1, {Principal(1)}) && Free(r) && At(r, 1).pc.Idle?
  {
    events := Then(s, before, Advance(0));
    assert RequestAt(Run(s, events), HOLD_OF_1, ProvStart(Reserve, 1));
    events := Then(s, events, Abort(0));
  }

  const HOLD_OF_1: map<Key, int> := map[Principal(1) := 1]

  ghost predicate LookupAt(r: State, pc: Pc) {
    Stored(r, 0, HOLD_OF_1, {Principal(1)}) && r.keyLocks == map[] && At(r, 1) == Doing(pc, 2, true, 0, Legacy(2))
  }

  /** With the locks free, a lookup takes the provider for itself. */
  lemma LookupTakesTheProvider(s: State, before: seq<Event>) returns (events: seq<Event>)
    requires IsRun(s, before) && Stored(Run(s, before), 0, HOLD_OF_1, {Principal(1)})
    requires Free(Run(s, before)) && At(Run(s, before), 1).pc.Idle?
    ensures IsRun(s, events) && LookupAt(Run(s, events), Recheck)
  {
    events := Then(s, before, Begin(1, 2, true, 0));
    assert At(Run(s, events), 1) == Doing(WantExclusive, 2, true, 0, Legacy(2));
    events := Then(s, events, Advance(1));
  }

  lemma LookupFindsItself(r: State)
    requires LookupAt(r, Recheck)
    ensures Enabled(r, Advance(1)) && LookupAt(Step(r, Advance(1)), ReadProvider)
  {
  }

  lemma LookupFindsNoProviderHold(r: State)
    requires LookupAt(r, ReadProvider)
    ensures Enabled(r, Advance(1)) && LookupAt(Step(r, Advance(1)), WantKey)
  {
  }

  /** It finds no hold of the provider. */
  lemma LookupPassesTheProvider(s: State, before: seq<Event>) returns (events: seq<Event>)
    requires IsRun(s, before) && LookupAt(Run(s, before), Recheck)
    ensures IsRun(s, events) && LookupAt(Run(s, events), WantKey)
  {
    LookupFindsItself(Run(s, before));
    events := Then(s, before, Advance(1));
    LookupFindsNoProviderHold(Run(s, events));
    events := Then(s, events, Advance(1));
  }

  /** With the lock of its own key. */
  ghost predicate LookupInside(r: State, pc: Pc) {
    Stored(r, 0, HOLD_OF_1, {Principal(1)}) && At(r, 1) == Doing(pc, 2, true, 0, Legacy(2))
  }

  lemma LookupTakesItsKey(r: State)
    requires LookupAt(r, WantKey)
    ensures Enabled(r, Advance(1)) && LookupInside(Step(r, Advance(1)), ReadHold)
  {
  }

  lemma LookupFindsNoHold(r: State)
    requires LookupInside(r, ReadHold)
    ensures Enabled(r, Advance(1)) && LookupInside(Step(r, Advance(1)), SaveRead(Reserve, 0))
  {
  }

  lemma LookupReservesNothing(r: State)
    requires LookupInside(r, SaveRead(Reserve, 0))
    ensures Enabled(r, Advance(1)) && LookupInside(Step(r, Advance(1)), Send)
  {
  }

  lemma LookupReachesItsSend(s: State, before: seq<Event>) returns (events: seq<Event>)
    requires IsRun(s, before) && LookupAt(Run(s, before), WantKey)
    ensures IsRun(s, events) && LookupInside(Run(s, events), Send)
  {
    LookupTakesItsKey(Run(s, before));
    events := Then(s, before, Advance(1));
    LookupFindsNoHold(Run(s, events));
    events := Then(s, events, Advance(1));
    LookupReservesNothing(Run(s, events));
    events := Then(s, events, Advance(1));
  }

  /** A request that stops between its two puts lets a lookup through while the hold it stored still runs. */
  lemma CutSaveLetsALookupThrough() returns (events: seq<Event>)
    ensures Init(ONE_BOUND) && IsRun(ONE_BOUND, events)
    ensures var r := Run(ONE_BOUND, events);
      && At(r, 1).lookup && At(r, 1).pc.Send?
      && !AllExpiredBut(r, KeyOf(r, 1))
  {
    var s := ONE_BOUND;
    events := RequestTakesItsLocks(s, []);
    events := RequestReadsTheHold(s, events);
    events := RequestStopsHalfway(s, events);
    events := LookupTakesTheProvider(s, events);
    events := LookupPassesTheProvider(s, events);
    events := LookupReachesItsSend(s, events);
    assert Principal(1) in Run(s, events).holds && KeyOf(Run(s, events), 1) == Legacy(2);
  }

  ghost predicate OneSendAt1(r: State) {
    && r.now == 1 && r.holds == HOLD_OF_1 && r.bindings == ONE_BOUND.bindings
    && r.log == [SendRecord(Principal(1), 0, 1, 1, false)]
  }

  /** The request is slow: the hold it reserved at 0 is over at 1. */
  lemma RequestIsLate(s: State, before: seq<Event>) returns (events: seq<Event>)
    requires IsRun(s, before) && RequestAt(Run(s, before), map[], SavePut(Reserve, None, 1))
    ensures IsRun(s, events)
    ensures RequestAt(Run(s, events).(now := 0), HOLD_OF_1, ProvStart(Reserve, 1)) && Run(s, events).now == 1
  {
    events := Then(s, before, Advance(0));
    assert RequestAt(Run(s, events), HOLD_OF_1, ProvStart(Reserve, 1));
    events := Then(s, events, Tick);
  }

  lemma RequestLeavesLate(s: State, before: seq<Event>) returns (events: seq<Event>)
    requires IsRun(s, before)
    requires RequestAt(Run(s, before).(now := 0), HOLD_OF_1, ProvStart(Reserve, 1)) && Run(s, before).now == 1
    ensures IsRun(s, events) && OneSendAt1(Run(s, events))
    ensures At(Run(s, events), 0).pc.Sent? && At(Run(s, events), 1).pc.Idle?
    ensures Run(s, events).writer == None
    ensures Run(s, events).readers == {0} && Run(s, events).keyLocks == map[Principal(1) := 0]
  {
    assert At(Run(s, before), 0) == Doing(ProvStart(Reserve, 1), 1, false, 1, Principal(1));
    events := Then(s, before, Advance(0));
    assert At(Run(s, events), 0) == Doing(Send, 1, false, 1, Principal(1));
    events := Then(s, events, Advance(0));
  }

  ghost predicate SecondAt(r: State, pc: Pc, locked: Key) {
    OneSendAt1(r) && At(r, 1) == Doing(pc, 1, false, 0, locked)
  }

  /** Its audit fails before its pacing, and all its locks are free. */
  lemma RequestStopsUnpaced(s: State, before: seq<Event>) returns (events: seq<Event>)
    requires IsRun(s, before) && OneSendAt1(Run(s, before)) && At(Run(s, before), 1).pc.Idle?
    requires At(Run(s, before), 0).pc.Sent? && Run(s, before).writer == None
    requires Run(s, before).readers == {0} && Run(s, before).keyLocks == map[Principal(1) := 0]
    ensures IsRun(s, events) && SecondAt(Run(s, events), WantShared, Legacy(1)) && Free(Run(s, events))
  {
    events := Then(s, before, Abort(0));
    assert OneSendAt1(Run(s, events)) && Free(Run(s, events));
    events := Then(s, events, Begin(1, 1, false, 0));
  }

  /** Another request of the account takes them. */
  lemma SecondTakesTheLocks(s: State, before: seq<Event>) returns (events: seq<Event>)
    requires IsRun(s, before) && SecondAt(Run(s, before), WantShared, Legacy(1)) && Free(Run(s, before))
    ensures IsRun(s, events) && SecondAt(Run(s, events), ReadHold, Principal(1))
  {
    events := Then(s, before, Advance(1));
    assert SecondAt(Run(s, events), WantKey, Legacy(1)) && Run(s, events).keyLocks == map[];
    events := Then(s, events, Advance(1));
  }

  lemma SecondReachesItsSend(s: State, before: seq<Event>) returns (events: seq<Event>)
    requires IsRun(s, before) && SecondAt(Run(s, before), ReadHold, Principal(1))
    ensures IsRun(s, events) && SecondAt(Run(s, events), SaveRead(Reserve, 0), Principal(1))
  {
    events := Then(s, before, Advance(1));
  }

  /** When the first request stops before its pacing, the next one can leave at the same instant. */
  lemma UnpacedSendIsNotSpaced() returns (events: seq<Event>)
    ensures Init(ONE_BOUND) && IsRun(ONE_BOUND, events)
    ensures var log := Run(ONE_BOUND, events).log;
      |log| == 2 && log[0].key == log[1].key && log[1].started < log[0].started + log[0].spacing
  {
    var s := ONE_BOUND;
    events := RequestTakesItsLocks(s, []);
    events := RequestReadsTheHold(s, events);
    events := RequestIsLate(s, events);
    events := RequestLeavesLate(s, events);
    events := RequestStopsUnpaced(s, events);
    events := SecondTakesTheLocks(s, events);
    events := SecondReachesItsSend(s, events);
    events := SecondLeaves(s, events);
  }

  lemma SecondLeaves(s: State, before: seq<Event>) returns (events: seq<Event>)
    requires IsRun(s, before) && SecondAt(Run(s, before), SaveRead(Reserve, 0), Principal(1))
    ensures IsRun(s, events)
    ensures Run(s, events).log == [SendRecord(Principal(1), 0, 1, 1, false), SendRecord(Principal(1), 1, 1, 0, false)]
  {
    events := Then(s, before, Advance(1));
    assert OneSendAt1(Run(s, events));
    assert At(Run(s, events), 1) == Doing(Send, 1, false, 0, Principal(1)).(reserved := 1);
    events := Then(s, events, Advance(1));
  }
}
