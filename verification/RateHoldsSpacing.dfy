/**
When the pause after a send's start is kept by every later send under its key, whatever else happens: a
condition on what is stored once nobody is on the way to a send under that key.
*/
module RateHoldsSpacing {
  import opened Wrappers
  import opened RateHolds
  import opened RateHoldsInvariant
  import opened RateHoldsTheorems
  import opened RateHoldsGaps

  // ----- The condition -----

  /** Whoever reads the key's hold from now on leaves at t or later. */
  ghost predicate Due(s: State, k: Key, t: int) {
    t <= s.now || (k in s.holds && t <= s.holds[k])
  }

  /**
  A credential's own key is used by lookups alone, which wait for the provider's hold, and only until it is
  bound.
  */
  ghost predicate Owed(s: State, k: Key, t: int) {
    || Due(s, k, t)
    || (k.Legacy? && (k.cred in s.bindings || (s.provider.Some? && t <= s.provider.value)))
  }

  /** Somebody has read the key's hold and is about to send. */
  ghost predicate OnTheWay(s: State, k: Key) {
    exists p :: BeforeSend(At(s, p).pc) && At(s, p).locked == k
  }

  /** Whoever is on the way may leave at once; everybody else waits for the holds. */
  ghost predicate Secured(s: State, k: Key, t: int) {
    if OnTheWay(s, k) then t <= s.now else Owed(s, k, t)
  }

  /** For a credential's own key: nobody holds its lock, or else is about to send. */
  ghost predicate Settled(s: State, k: Key) {
    k.Legacy? ==> OnTheWay(s, k) || k !in s.keyLocks
  }

  /** What keeps every send under the key, from number n of the log on, at t or later. */
  ghost predicate Guarded(s: State, k: Key, t: int, n: nat) {
    && Owed(s, k, t)
    && (forall p | Keyed(At(s, p).pc) && At(s, p).locked == k :: Due(s, k, t))
    && (forall p | BeforeSend(At(s, p).pc) && At(s, p).locked == k :: t <= s.now)
    && (forall j | n <= j < |s.log| && s.log[j].key == k :: t <= s.log[j].started)
  }

  // ----- Two more facts about every reachable state -----

  /**
  A lookup past its wait for the provider's hold has seen it expire, and it does not change meanwhile; the lock
  of the provider's hold is held only while it is read and put.
  */
  ghost predicate Seen(s: State, p: Pid) {
    var a := At(s, p);
    && (a.pc.ProviderSleep? ==> s.provider == Some(a.pc.wake))
    && (a.lookup && a.pc.WantKey? && s.provider.Some? ==> s.provider.value <= s.now)
    && (s.provLock == Some(p) ==> a.pc.ProvRead? || a.pc.ProvPut?)
  }

  ghost predicate IsAccount(s: State, id: Id) {
    exists cred | cred in s.bindings :: s.bindings[cred].id == id
  }

  ghost predicate Reached(s: State) {
    && (forall p :: Seen(s, p))
    && (forall i | 0 <= i < |s.log| && s.log[i].key.Principal? :: IsAccount(s, s.log[i].key.id))
  }

  lemma LocksLeadToSeen(s: State, p: Pid)
    requires LocksOk(s, p) && Seen(s, p) && CanAdvance(s, p)
    ensures Seen(LockStep(s, p), p) || !Locking(At(s, p).pc)
  {
  }

  lemma WaitsLeadToSeen(s: State, p: Pid)
    requires Seen(s, p) && CanAdvance(s, p)
    ensures Seen(WaitStep(s, p), p)
  {
  }

  lemma SavesLeadToSeen(s: State, p: Pid)
    requires Seen(s, p)
    ensures Saving(At(s, p).pc) ==> Seen(HoldStep(s, p), p)
  {
  }

  lemma CopiesLeadToSeen(s: State, p: Pid)
    requires Seen(s, p)
    ensures CopyingToProvider(At(s, p).pc) ==> Seen(CopyStep(s, p), p)
  {
  }

  lemma SendsLeadToSeen(s: State, p: Pid)
    requires Seen(s, p)
    ensures At(s, p).pc.Send? || At(s, p).pc.Sent? ==> Seen(SendStep(s, p), p)
  {
  }

  lemma MigrationLeadsToSeen(s: State, p: Pid)
    requires Seen(s, p)
    ensures Migrating(At(s, p).pc) ==> Seen(MigrateStep(s, p), p)
  {
  }

  lemma MoverHasSeen(s: State, e: Event)
    requires Inv(s) && Enabled(s, e) && !e.Tick? && Seen(s, e.pid)
    ensures Seen(Step(s, e), e.pid)
  {
    var p := e.pid;
    if e.Advance? {
      assert ActorOk(s, p);
      LocksLeadToSeen(s, p);
      WaitsLeadToSeen(s, p);
      SavesLeadToSeen(s, p);
      CopiesLeadToSeen(s, p);
      SendsLeadToSeen(s, p);
      MigrationLeadsToSeen(s, p);
    }
  }

  lemma SavesKeepTheProvider(s: State, p: Pid)
    ensures HoldStep(s, p).provider == s.provider && MigrateStep(s, p).provider == s.provider
  {
  }

  lemma OnlyCopiesChangeTheProvider(s: State, e: Event)
    requires Enabled(s, e) && !e.Tick? && !CopyingToProvider(At(s, e.pid).pc)
    ensures Step(s, e).provider == s.provider
  {
    if e.Advance? {
      LockHasSameStore(s, e.pid);
      WaitHasSameStore(s, e.pid);
      SendHasSameStore(s, e.pid);
      SavesKeepTheProvider(s, e.pid);
    }
  }

  lemma OthersHaveSeen(s: State, e: Event, q: Pid)
    requires Inv(s) && Enabled(s, e) && !e.Tick? && e.pid != q && Seen(s, q)
    ensures Seen(Step(s, e), q)
  {
    StepHasLocksFrame(s, e, q);
    StepHasStoreFrame(s, e);
    var a := At(s, q);
    if a.pc.ProviderSleep? || (a.lookup && a.pc.WantKey?) {
      assert ActorOk(s, q);
      WriterIsAlone(s, q, e.pid);
      OnlyCopiesChangeTheProvider(s, e);
    }
  }

  lemma StepKeepsAccounts(s: State, e: Event, i: nat)
    requires Inv(s) && Enabled(s, e) && !e.Tick? && Reached(s)
    requires i < |Step(s, e).log| && Step(s, e).log[i].key.Principal?
    ensures IsAccount(Step(s, e), Step(s, e).log[i].key.id)
  {
    var s' := Step(s, e);
    StepOnLog(s, e);
    StepHasStoreFrame(s, e);
    var id := s'.log[i].key.id;
    if i < |s.log| {
      assert s'.log[i].key == s.log[i].key;
    } else {
      assert s.bindings[At(s, e.pid).cred].id == id;
    }
    var cred :| cred in s.bindings && s.bindings[cred].id == id;
    assert s'.bindings[cred].id == id;
  }

  lemma StepKeepsReached(s: State, e: Event)
    requires Inv(s) && Enabled(s, e) && Reached(s)
    ensures Reached(Step(s, e))
  {
    var s' := Step(s, e);
    if e.Tick? {
      forall p ensures Seen(s', p) { assert Seen(s, p); }
      forall i | 0 <= i < |s'.log| && s'.log[i].key.Principal? ensures IsAccount(s', s'.log[i].key.id) {
        assert IsAccount(s, s.log[i].key.id);
      }
    } else {
      forall p ensures Seen(s', p) {
        assert Seen(s, p);
        if p == e.pid { MoverHasSeen(s, e); } else { OthersHaveSeen(s, e, p); }
      }
      forall i | 0 <= i < |s'.log| && s'.log[i].key.Principal? ensures IsAccount(s', s'.log[i].key.id) {
        StepKeepsAccounts(s, e, i);
      }
    }
  }

  lemma {:induction false} RunKeepsReached(s: State, events: seq<Event>)
    requires Inv(s) && Reached(s) && IsRun(s, events)
    ensures Reached(Run(s, events)) && Inv(Run(s, events))
    decreases |events|
  {
    if events != [] {
      StepKeepsInv(s, events[0]);
      StepKeepsReached(s, events[0]);
      RunKeepsReached(Step(s, events[0]), events[1..]);
    }
  }

  // ----- If: the pause is kept -----

  /** A process comes under a key's lock by taking it, and to its send by reading the key's hold. */
  ghost predicate Arrives(s: State, s': State, p: Pid) {
    var a, b := At(s, p), At(s', p);
    && (Keyed(b.pc) ==> (Keyed(a.pc) && b.locked == a.locked) || (a.pc.WantKey? && b.locked == KeyOf(s, p)))
    && (BeforeSend(b.pc) ==>
          b.locked == a.locked
          && (BeforeSend(a.pc)
              || (a.pc.ReadHold? && (KeyOf(s, p) in s.holds ==> s.holds[KeyOf(s, p)] <= s.now))
              || (a.pc.HoldSleep? && a.pc.wake <= s.now)))
  }

  lemma LocksArrive(s: State, p: Pid)
    requires Locking(At(s, p).pc)
    ensures Arrives(s, LockStep(s, p), p)
  {
  }

  lemma WaitsArrive(s: State, p: Pid)
    requires CanAdvance(s, p) && (!Locking(At(s, p).pc) && !Saving(At(s, p).pc) && !CopyingToProvider(At(s, p).pc)
                                  && !Migrating(At(s, p).pc) && !At(s, p).pc.Send? && !At(s, p).pc.Sent?)
    ensures Arrives(s, WaitStep(s, p), p)
  {
  }

  lemma SavesArrive(s: State, p: Pid)
    requires Saving(At(s, p).pc)
    ensures Arrives(s, HoldStep(s, p), p)
  {
  }

  lemma CopiesArrive(s: State, p: Pid)
    requires CopyingToProvider(At(s, p).pc)
    ensures Arrives(s, CopyStep(s, p), p)
  {
  }

  lemma SendsArrive(s: State, p: Pid)
    requires At(s, p).pc.Send? || At(s, p).pc.Sent?
    ensures Arrives(s, SendStep(s, p), p)
  {
  }

  lemma MigrationsArrive(s: State, p: Pid)
    requires Migrating(At(s, p).pc)
    ensures Arrives(s, MigrateStep(s, p), p)
  {
  }

  lemma StepArrives(s: State, e: Event)
    requires Enabled(s, e) && !e.Tick?
    ensures Arrives(s, Step(s, e), e.pid)
  {
    if e.Advance? {
      var p, pc := e.pid, At(s, e.pid).pc;
      if Locking(pc) { LocksArrive(s, p); }
      else if Saving(pc) { SavesArrive(s, p); }
      else if CopyingToProvider(pc) { CopiesArrive(s, p); }
      else if Migrating(pc) { MigrationsArrive(s, p); }
      else if pc.Send? || pc.Sent? { SendsArrive(s, p); }
      else { WaitsArrive(s, p); }
    }
  }

  lemma StepKeepsDue(s: State, e: Event, k: Key, t: int)
    requires Inv(s) && Enabled(s, e)
    ensures Due(s, k, t) ==> Due(Step(s, e), k, t)
    ensures Owed(s, k, t) ==> Owed(Step(s, e), k, t)
    ensures s.now <= Step(s, e).now
  {
    if !e.Tick? { StepHasStoreFrame(s, e); }
  }

  lemma MoverStaysGuarded(s: State, e: Event, k: Key, t: int, n: nat)
    requires Inv(s) && Reached(s) && Enabled(s, e) && !e.Tick? && Guarded(s, k, t, n)
    requires Keyed(At(Step(s, e), e.pid).pc) && At(Step(s, e), e.pid).locked == k
    ensures Due(s, k, t)
    ensures BeforeSend(At(Step(s, e), e.pid).pc) ==> t <= s.now
  {
    var p := e.pid;
    var a := At(s, p);
    StepArrives(s, e);
    assert ActorOk(s, p) && Seen(s, p);
    if !Keyed(a.pc) {
      assert a.pc.WantKey? && KeyOf(s, p) == k;
    }
  }

  lemma StepKeepsLogGuarded(s: State, e: Event, k: Key, t: int, n: nat)
    requires Inv(s) && Enabled(s, e) && !e.Tick? && Guarded(s, k, t, n)
    ensures forall j | n <= j < |Step(s, e).log| && Step(s, e).log[j].key == k :: t <= Step(s, e).log[j].started
  {
    StepOnLog(s, e);
    assert ActorOk(s, e.pid);
  }

  lemma StepKeepsGuarded(s: State, e: Event, k: Key, t: int, n: nat)
    requires Inv(s) && Reached(s) && Enabled(s, e) && Guarded(s, k, t, n)
    ensures Guarded(Step(s, e), k, t, n)
  {
    var s' := Step(s, e);
    StepKeepsDue(s, e, k, t);
    if e.Tick? {
      forall p: Pid ensures At(s', p) == At(s, p) {
      }
    } else {
      StepKeepsLogGuarded(s, e, k, t, n);
      forall p: Pid | Keyed(At(s', p).pc) && At(s', p).locked == k
        ensures Due(s', k, t) && (BeforeSend(At(s', p).pc) ==> t <= s'.now)
      {
        if p == e.pid { MoverStaysGuarded(s, e, k, t, n); } else { StepHasLocksFrame(s, e, p); }
      }
    }
  }

  lemma {:induction false} RunKeepsGuarded(s: State, events: seq<Event>, k: Key, t: int, n: nat)
    requires Inv(s) && Reached(s) && IsRun(s, events) && Guarded(s, k, t, n)
    ensures Guarded(Run(s, events), k, t, n)
    decreases |events|
  {
    if events != [] {
      StepKeepsInv(s, events[0]);
      StepKeepsReached(s, events[0]);
      StepKeepsGuarded(s, events[0], k, t, n);
      RunKeepsGuarded(Step(s, events[0]), events[1..], k, t, n);
    }
  }

  lemma SettledIsGuarded(s: State, k: Key, t: int)
    requires Inv(s) && Settled(s, k) && Secured(s, k, t)
    ensures Guarded(s, k, t, |s.log|)
  {
    forall p: Pid | Keyed(At(s, p).pc) && At(s, p).locked == k
      ensures Due(s, k, t) && (BeforeSend(At(s, p).pc) ==> t <= s.now)
    {
      assert ActorOk(s, p);
    }
  }

  // ----- Only if: a request that leaves too early -----

  ghost predicate SameRecords(s: State, r: State) {
    r.now == s.now && r.holds == s.holds && r.provider == s.provider && r.bindings == s.bindings && r.log == s.log
  }

  lemma AfterOne(s: State, e: Event, rest: seq<Event>) returns (events: seq<Event>)
    requires Enabled(s, e) && IsRun(Step(s, e), rest)
    ensures IsRun(s, events) && Run(s, events) == Run(Step(s, e), rest)
  {
    events := [e] + rest;
    assert events[1..] == rest;
  }

  lemma AbortLetsGo(s: State, p: Pid)
    ensures var r := Step(s, Abort(p));
            && SameRecords(s, r) && r.readers == s.readers - {p}
            && r.writer == (if s.writer == Some(p) then None else s.writer)
  {
  }

  /** Every process that shares the provider lock can stop. */
  lemma ReadersLeave(s: State) returns (events: seq<Event>)
    requires Inv(s) && s.writer.None?
    ensures IsRun(s, events) && Inv(Run(s, events)) && SameRecords(s, Run(s, events))
    ensures Run(s, events).writer.None? && Run(s, events).readers == {}
    decreases |s.readers|
  {
    if s.readers == {} {
      events := [];
    } else {
      var p :| p in s.readers;
      AbortLetsGo(s, p);
      StepKeepsInv(s, Abort(p));
      var rest := ReadersLeave(Step(s, Abort(p)));
      events := AfterOne(s, Abort(p), rest);
    }
  }

  /** And so can the one that holds it alone; then no key is locked either. */
  lemma EverybodyLeaves(s: State) returns (events: seq<Event>)
    requires Inv(s)
    ensures IsRun(s, events) && Inv(Run(s, events)) && SameRecords(s, Run(s, events))
    ensures Run(s, events).writer.None? && Run(s, events).readers == {}
    ensures forall k :: k !in Run(s, events).keyLocks
  {
    if s.writer.Some? {
      var p := s.writer.value;
      AbortLetsGo(s, p);
      StepKeepsInv(s, Abort(p));
      var rest := ReadersLeave(Step(s, Abort(p)));
      events := AfterOne(s, Abort(p), rest);
    } else {
      events := ReadersLeave(s);
    }
    var r := Run(s, events);
    forall k ensures k !in r.keyLocks {
      if k in r.keyLocks {
        assert ActorOk(r, r.keyLocks[k]);
        assert OwnsKey(r, r.keyLocks[k], k);
        assert false;
      }
    }
  }

  /** Time passes. */
  lemma {:induction false} TimePasses(s: State, until: int) returns (events: seq<Event>)
    requires s.now <= until
    ensures IsRun(s, events) && Run(s, events) == s.(now := until)
    decreases until - s.now
  {
    if s.now == until {
      events := [];
    } else {
      var rest := TimePasses(Step(s, Tick), until);
      events := AfterOne(s, Tick, rest);
    }
  }

  lemma {:induction false} NewPid(pids: set<Pid>) returns (p: Pid)
    ensures forall q | q in pids :: q < p
    decreases |pids|
  {
    if pids == {} {
      p := 0;
    } else {
      var q :| q in pids;
      var bound := NewPid(pids - {q});
      p := if q < bound then bound else q + 1;
      assert pids == pids - {q} + {q};
    }
  }

  /** Where a new process p stands, with nothing stored having changed. */
  ghost predicate Standing(s: State, r: State, p: Pid, a: Actor) {
    SameRecords(s, r) && At(r, p) == a
  }

  function Newcomer(pc: Pc, cred: Cred, lookup: bool, locked: Key): Actor {
    Actor(pc, cred, lookup, 0, locked, 0, 0, 0)
  }

  lemma TakesTheKey(r: State, p: Pid, cred: Cred, lookup: bool)
    requires At(r, p) == Newcomer(WantKey, cred, lookup, Legacy(cred)) && RateKey(r.bindings, cred) !in r.keyLocks
    ensures Enabled(r, Advance(p))
    ensures Standing(r, Step(r, Advance(p)), p, Newcomer(ReadHold, cred, lookup, RateKey(r.bindings, cred)))
  {
  }

  lemma FindsTheHoldOver(r: State, p: Pid, cred: Cred, lookup: bool, k: Key)
    requires At(r, p) == Newcomer(ReadHold, cred, lookup, k) && k == RateKey(r.bindings, cred)
    requires k in r.holds ==> r.holds[k] <= r.now
    ensures Enabled(r, Advance(p))
    ensures Standing(r, Step(r, Advance(p)), p, Newcomer(SaveRead(Reserve, 0), cred, lookup, k))
  {
  }

  lemma ReservesNothing(r: State, p: Pid, cred: Cred, lookup: bool, k: Key)
    requires At(r, p) == Newcomer(SaveRead(Reserve, 0), cred, lookup, k)
    ensures Enabled(r, Advance(p))
    ensures Standing(r, Step(r, Advance(p)), p, Newcomer(Send, cred, lookup, k).(reserved := r.now))
  {
  }

  lemma Leaves(r: State, p: Pid, cred: Cred, lookup: bool, k: Key)
    requires At(r, p) == Newcomer(Send, cred, lookup, k).(reserved := r.now) && k == RateKey(r.bindings, cred)
    ensures Enabled(r, Advance(p))
    ensures Step(r, Advance(p)).log == r.log + [SendRecord(k, r.now, r.now, 0, false)]
  {
  }

  /** With its key free and its hold over, a request without a pause of its own leaves at once. */
  lemma KeyLeadsToSend(s: State, before: seq<Event>, p: Pid, cred: Cred, lookup: bool) returns (events: seq<Event>)
    requires IsRun(s, before)
    requires var r := Run(s, before); var k := RateKey(r.bindings, cred);
             && At(r, p) == Newcomer(WantKey, cred, lookup, Legacy(cred))
             && k !in r.keyLocks && (k in r.holds ==> r.holds[k] <= r.now)
    ensures IsRun(s, events)
    ensures var r := Run(s, before);
            Run(s, events).log == r.log + [SendRecord(RateKey(r.bindings, cred), r.now, r.now, 0, false)]
  {
    var k := RateKey(Run(s, before).bindings, cred);
    TakesTheKey(Run(s, before), p, cred, lookup);
    events := Then(s, before, Advance(p));
    FindsTheHoldOver(Run(s, events), p, cred, lookup, k);
    events := Then(s, events, Advance(p));
    ReservesNothing(Run(s, events), p, cred, lookup, k);
    events := Then(s, events, Advance(p));
    Leaves(Run(s, events), p, cred, lookup, k);
    events := Then(s, events, Advance(p));
  }

  lemma Begins(s: State, p: Pid, cred: Cred, lookup: bool)
    requires p !in s.actors && (lookup || cred in s.bindings)
    ensures Enabled(s, Begin(p, cred, lookup, 0))
    ensures var r := Step(s, Begin(p, cred, lookup, 0));
            && Standing(s, r, p, Newcomer(if lookup then WantExclusive else WantShared, cred, lookup, Legacy(cred)))
            && r.writer == s.writer && r.readers == s.readers && r.keyLocks == s.keyLocks
  {
  }

  lemma SharesTheProvider(r: State, p: Pid, cred: Cred)
    requires At(r, p) == Newcomer(WantShared, cred, false, Legacy(cred)) && r.writer.None?
    ensures Enabled(r, Advance(p)) && Step(r, Advance(p)).keyLocks == r.keyLocks
    ensures Standing(r, Step(r, Advance(p)), p, Newcomer(WantKey, cred, false, Legacy(cred)))
  {
  }

  lemma TakesTheProvider(r: State, p: Pid, cred: Cred)
    requires At(r, p) == Newcomer(WantExclusive, cred, true, Legacy(cred)) && r.writer.None? && r.readers == {}
    ensures Enabled(r, Advance(p)) && Step(r, Advance(p)).keyLocks == r.keyLocks
    ensures Standing(r, Step(r, Advance(p)), p, Newcomer(Recheck, cred, true, Legacy(cred)))
  {
  }

  lemma StillUnbound(r: State, p: Pid, cred: Cred)
    requires At(r, p) == Newcomer(Recheck, cred, true, Legacy(cred)) && cred !in r.bindings
    ensures Enabled(r, Advance(p)) && Step(r, Advance(p)).keyLocks == r.keyLocks
    ensures Standing(r, Step(r, Advance(p)), p, Newcomer(ReadProvider, cred, true, Legacy(cred)))
  {
  }

  lemma FindsTheProviderFree(r: State, p: Pid, cred: Cred)
    requires At(r, p) == Newcomer(ReadProvider, cred, true, Legacy(cred))
    requires r.provider.Some? ==> r.provider.value <= r.now
    ensures Enabled(r, Advance(p)) && Step(r, Advance(p)).keyLocks == r.keyLocks
    ensures Standing(r, Step(r, Advance(p)), p, Newcomer(WantKey, cred, true, Legacy(cred)))
  {
  }

  /** A regular request of a bound credential. */
  lemma RegularReachesItsKey(s: State, before: seq<Event>, p: Pid, cred: Cred) returns (events: seq<Event>)
    requires IsRun(s, before)
    requires var r := Run(s, before); p !in r.actors && r.writer.None? && cred in r.bindings
    ensures IsRun(s, events) && Run(s, events).keyLocks == Run(s, before).keyLocks
    ensures Standing(Run(s, before), Run(s, events), p, Newcomer(WantKey, cred, false, Legacy(cred)))
  {
    Begins(Run(s, before), p, cred, false);
    events := Then(s, before, Begin(p, cred, false, 0));
    SharesTheProvider(Run(s, events), p, cred);
    events := Then(s, events, Advance(p));
  }

  /** A lookup of an unbound credential, once the provider's hold is over. */
  lemma LookupReachesItsKey(s: State, before: seq<Event>, p: Pid, cred: Cred) returns (events: seq<Event>)
    requires IsRun(s, before)
    requires var r := Run(s, before);
             && p !in r.actors && r.writer.None? && r.readers == {} && cred !in r.bindings
             && (r.provider.Some? ==> r.provider.value <= r.now)
    ensures IsRun(s, events) && Run(s, events).keyLocks == Run(s, before).keyLocks
    ensures Standing(Run(s, before), Run(s, events), p, Newcomer(WantKey, cred, true, Legacy(cred)))
  {
    Begins(Run(s, before), p, cred, true);
    events := Then(s, before, Begin(p, cred, true, 0));
    TakesTheProvider(Run(s, events), p, cred);
    events := Then(s, events, Advance(p));
    StillUnbound(Run(s, events), p, cred);
    events := Then(s, events, Advance(p));
    FindsTheProviderFree(Run(s, events), p, cred);
    events := Then(s, events, Advance(p));
  }

  /** Until when a new request of the key has to wait. */
  ghost function ReadyAt(s: State, k: Key): int {
    var own := if k in s.holds && s.holds[k] > s.now then s.holds[k] else s.now;
    if k.Legacy? && s.provider.Some? && s.provider.value > own then s.provider.value else own
  }

  /**
  From any reachable state the processes can stop and a new request can send under the key when the holds are
  over.
  */
  lemma SomebodySends(s: State, k: Key) returns (events: seq<Event>)
    requires Inv(s) && (if k.Principal? then IsAccount(s, k.id) else k.cred !in s.bindings)
    ensures IsRun(s, events)
    ensures Run(s, events).log == s.log + [SendRecord(k, ReadyAt(s, k), ReadyAt(s, k), 0, false)]
  {
    var leaving := EverybodyLeaves(s);
    var waiting := TimePasses(Run(s, leaving), ReadyAt(s, k));
    RunJoins(s, leaving, waiting);
    events := leaving + waiting;
    var r := Run(s, events);
    var p := NewPid(r.actors.Keys);
    if k.Principal? {
      var cred :| cred in s.bindings && s.bindings[cred].id == k.id;
      events := RegularReachesItsKey(s, events, p, cred);
      events := KeyLeadsToSend(s, events, p, cred, false);
    } else {
      events := LookupReachesItsKey(s, events, p, k.cred);
      events := KeyLeadsToSend(s, events, p, k.cred, true);
    }
  }

  lemma {:induction false} RunJoins(s: State, before: seq<Event>, after: seq<Event>)
    requires IsRun(s, before) && IsRun(Run(s, before), after)
    ensures IsRun(s, before + after) && Run(s, before + after) == Run(Run(s, before), after)
    decreases |before|
  {
    if before == [] {
      assert before + after == after;
    } else {
      assert (before + after)[1..] == before[1..] + after;
      RunJoins(Step(s, before[0]), before[1..], after);
    }
  }

  // ----- Only if: one that is on the way -----

  function StepsToSend(pc: Pc): nat {
    match pc
    case SaveRead(_, _) => 6
    case SavePut(_, _, _) => 5
    case ProvStart(_, _) => 4
    case ProvWant(_, _, _) => 3
    case ProvRead(_, _, _) => 2
    case ProvPut(_, _, _) => 1
    case _ => 0
  }

  /** One step nearer to the send, at the same instant. */
  ghost predicate Nearer(s: State, s': State, p: Pid) {
    && BeforeSend(At(s', p).pc) && StepsToSend(At(s', p).pc) < StepsToSend(At(s, p).pc)
    && At(s', p).locked == At(s, p).locked && s'.log == s.log && s'.now == s.now
  }

  lemma SavesLeadNearer(s: State, p: Pid)
    requires Saving(At(s, p).pc) && BeforeSend(At(s, p).pc)
    ensures Nearer(s, HoldStep(s, p), p)
  {
  }

  lemma CopiesLeadNearer(s: State, p: Pid)
    requires CopyingToProvider(At(s, p).pc) && BeforeSend(At(s, p).pc)
    ensures Nearer(s, CopyStep(s, p), p)
  {
  }

  /** Whoever holds the lock that p waits for can stop. */
  lemma ProviderHoldIsFreed(s: State, p: Pid) returns (events: seq<Event>)
    requires Inv(s) && Reached(s) && At(s, p).pc.ProvWant?
    ensures IsRun(s, events) && Inv(Run(s, events)) && Reached(Run(s, events))
    ensures At(Run(s, events), p) == At(s, p) && Run(s, events).provLock.None?
    ensures Run(s, events).log == s.log && Run(s, events).now == s.now
  {
    events := [];
    if s.provLock.Some? {
      var q := s.provLock.value;
      assert Seen(s, p);
      StepHasLocksFrame(s, Abort(q), p);
      AbortLetsGo(s, q);
      events := [Abort(q)];
      assert events[1..] == [];
      RunKeepsReached(s, events);
    }
  }

  /** A process that has read the key's hold can be on its way without a tick of the clock. */
  lemma {:induction false} LeavesAtOnce(s: State, p: Pid) returns (events: seq<Event>)
    requires Inv(s) && Reached(s) && BeforeSend(At(s, p).pc)
    ensures IsRun(s, events) && |Run(s, events).log| == |s.log| + 1
    ensures Run(s, events).log[|s.log|].key == At(s, p).locked
    ensures Run(s, events).log[|s.log|].started == s.now
    ensures Run(s, events).log[..|s.log|] == s.log
    decreases StepsToSend(At(s, p).pc)
  {
    if At(s, p).pc.Send? {
      assert ActorOk(s, p);
      events := [Advance(p)];
      assert events[1..] == [];
    } else {
      var freed := [];
      if At(s, p).pc.ProvWant? { freed := ProviderHoldIsFreed(s, p); }
      var r := Run(s, freed);
      if Saving(At(r, p).pc) { SavesLeadNearer(r, p); } else { CopiesLeadNearer(r, p); }
      StepKeepsInv(r, Advance(p));
      StepKeepsReached(r, Advance(p));
      var rest := LeavesAtOnce(Step(r, Advance(p)), p);
      rest := AfterOne(r, Advance(p), rest);
      RunJoins(s, freed, rest);
      events := freed + rest;
    }
  }

  // ----- Exactly then -----

  /** Send number i is the latest under its key. */
  ghost predicate LatestSend(s: State, i: nat) {
    i < |s.log| && forall j | i < j < |s.log| :: s.log[j].key != s.log[i].key
  }

  /** In every continuation, every later send under the key of send number i leaves at t or later. */
  ghost predicate AllLaterSendsFrom(s: State, i: nat, t: int)
    requires i < |s.log|
  {
    forall after: seq<Event> | IsRun(s, after) :: LaterSendsFrom(Run(s, after), i, s.log[i].key, t)
  }

  ghost predicate LaterSendsFrom(r: State, i: nat, k: Key, t: int) {
    forall j | i < j < |r.log| && r.log[j].key == k :: t <= r.log[j].started
  }

  lemma {:induction false} LogOnlyGrows(s: State, events: seq<Event>)
    requires Inv(s) && IsRun(s, events)
    ensures |s.log| <= |Run(s, events).log|
    ensures forall i | 0 <= i < |s.log| :: Run(s, events).log[i].key == s.log[i].key
    decreases |events|
  {
    if events != [] {
      if !events[0].Tick? { StepHasLogFrame(s, events[0]); }
      StepKeepsInv(s, events[0]);
      LogOnlyGrows(Step(s, events[0]), events[1..]);
    }
  }

  lemma SecuredIsKept(s: State, i: nat, t: int)
    requires Inv(s) && Reached(s) && LatestSend(s, i) && Settled(s, s.log[i].key) && Secured(s, s.log[i].key, t)
    ensures AllLaterSendsFrom(s, i, t)
  {
    var k := s.log[i].key;
    SettledIsGuarded(s, k, t);
    forall after: seq<Event> | IsRun(s, after) ensures LaterSendsFrom(Run(s, after), i, k, t) {
      RunKeepsGuarded(s, after, k, t, |s.log|);
      LogOnlyGrows(s, after);
    }
  }

  lemma UnsecuredIsBroken(s: State, i: nat, t: int)
    requires Inv(s) && Reached(s) && LatestSend(s, i) && !Secured(s, s.log[i].key, t)
    ensures !AllLaterSendsFrom(s, i, t)
  {
    var k := s.log[i].key;
    var after: seq<Event>;
    if OnTheWay(s, k) {
      var p :| BeforeSend(At(s, p).pc) && At(s, p).locked == k;
      after := LeavesAtOnce(s, p);
    } else {
      after := SomebodySends(s, k);
    }
    var r := Run(s, after);
    assert r.log[|s.log|].key == k && r.log[|s.log|].started < t;
    assert !LaterSendsFrom(r, i, k, t);
  }

  /**
  The pause after a send's start is kept by every later send under its key, in every continuation, exactly when
  it is over, or nobody is about to send and it is stored in the key's hold, or, for a credential's own key,
  stored in the provider's hold, or the credential has been bound and its own key is used no more.
  */
  lemma PauseIsKeptExactlyWhenSecured(s: State, before: seq<Event>, i: nat)
    requires Init(s) && IsRun(s, before) && LatestSend(Run(s, before), i)
    requires Settled(Run(s, before), Run(s, before).log[i].key)
    ensures var r := Run(s, before); var t := r.log[i].started + r.log[i].spacing;
            AllLaterSendsFrom(r, i, t) <==> Secured(r, r.log[i].key, t)
  {
    InitHasInv(s);
    RunKeepsReached(s, before);
    var r := Run(s, before);
    var t := r.log[i].started + r.log[i].spacing;
    if Secured(r, r.log[i].key, t) { SecuredIsKept(r, i, t); } else { UnsecuredIsBroken(r, i, t); }
  }
}
