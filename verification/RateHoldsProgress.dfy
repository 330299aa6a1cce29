/**
What a request gets done when nobody stops it: it sleeps through a short hold and refuses a long one, pays its
pause before it goes on, retries, and a lookup binds its credential once.
*/
module RateHoldsProgress {
  import opened Wrappers
  import opened RateHolds
  import opened RateHoldsInvariant
  import opened RateHoldsTheorems
  import opened RateHoldsGaps
  import opened RateHoldsSpacing

  // ----- Waiting for a stored hold -----

  /** A hold of more than thirty seconds gives the request up, any other is waited for, and a past one is not. */
  lemma HoldDecides(s: State, p: Pid)
    requires Inv(s) && At(s, p).pc.ReadHold?
    ensures var k, r := KeyOf(s, p), Step(s, Advance(p));
      && (k in s.holds && s.holds[k] > s.now + 30_000_000_000 <==> At(r, p).pc.Idle?)
      && (k in s.holds && s.now < s.holds[k] <= s.now + 30_000_000_000 <==> At(r, p).pc.HoldSleep?)
      && (At(r, p).pc.HoldSleep? ==> At(r, p).pc.wake == s.holds[k])
      && (k !in s.holds || s.holds[k] <= s.now <==> At(r, p).pc == SaveRead(Reserve, At(s, p).spacing))
      && SameRecords(s, r)
  {
    assert ActorOk(s, p);
  }

  /** The same for a lookup and the provider's hold. */
  lemma ProviderHoldDecides(s: State, p: Pid)
    requires At(s, p).pc.ReadProvider?
    ensures var r := Step(s, Advance(p));
      && (s.provider.Some? && s.provider.value > s.now + 30_000_000_000 <==> At(r, p).pc.Idle?)
      && (s.provider.Some? && s.now < s.provider.value <= s.now + 30_000_000_000
          <==> At(r, p).pc.ProviderSleep?)
      && (At(r, p).pc.ProviderSleep? ==> At(r, p).pc.wake == s.provider.value)
      && (s.provider.None? || s.provider.value <= s.now <==> At(r, p).pc.WantKey?)
      && SameRecords(s, r)
  {
  }

  /** One step, and then nothing but time. */
  lemma TicksAfter(s: State, p: Pid, until: int) returns (events: seq<Event>)
    requires Enabled(s, Advance(p)) && Step(s, Advance(p)).now <= until
    ensures IsRun(s, events) && Run(s, events) == Step(s, Advance(p)).(now := until)
  {
    var first := [Advance(p)];
    assert first[1..] == [];
    assert Run(s, first) == Step(s, Advance(p));
    var waiting := TimePasses(Run(s, first), until);
    RunJoins(s, first, waiting);
    events := first + waiting;
  }

  lemma FallsAsleep(s: State, p: Pid)
    requires At(s, p).pc.ReadProvider? && s.provider.Some? && s.now < s.provider.value <= s.now + 30_000_000_000
    ensures Enabled(s, Advance(p))
    ensures Step(s, Advance(p)) == Become(s, p, At(s, p).(pc := ProviderSleep(s.provider.value)))
  {
  }

  lemma FallsAsleepOnHold(s: State, p: Pid)
    requires At(s, p).pc.ReadHold? && KeyOf(s, p) in s.holds
    requires s.now < s.holds[KeyOf(s, p)] <= s.now + 30_000_000_000
    ensures Enabled(s, Advance(p))
    ensures Step(s, Advance(p)) == Become(s, p, At(s, p).(pc := HoldSleep(s.holds[KeyOf(s, p)])))
  {
  }

  lemma FindsItOver(s: State, p: Pid)
    requires At(s, p).pc.ReadHold? && (KeyOf(s, p) in s.holds ==> s.holds[KeyOf(s, p)] <= s.now)
    ensures Enabled(s, Advance(p))
    ensures Step(s, Advance(p)) == Become(s, p, At(s, p).(pc := SaveRead(Reserve, At(s, p).spacing)))
  {
  }

  lemma WakesUp(s: State, p: Pid, until: int)
    requires At(s, p).pc == HoldSleep(until) && until <= s.now
    ensures Enabled(s, Advance(p)) && SameRecords(s, Step(s, Advance(p)))
    ensures At(Step(s, Advance(p)), p) == At(s, p).(pc := SaveRead(Reserve, At(s, p).spacing))
  {
  }

  /** With a hold of at most thirty seconds, a request gets past it, and at the instant it ends. */
  lemma ShortHoldIsSleptThrough(s: State, p: Pid) returns (events: seq<Event>)
    requires Inv(s) && At(s, p).pc.ReadHold?
    requires KeyOf(s, p) in s.holds ==> s.holds[KeyOf(s, p)] <= s.now + 30_000_000_000
    ensures IsRun(s, events) && At(Run(s, events), p) == At(s, p).(pc := SaveRead(Reserve, At(s, p).spacing))
    ensures var k := KeyOf(s, p);
            SameRecords(s.(now := if k in s.holds && s.holds[k] > s.now then s.holds[k] else s.now), Run(s, events))
  {
    var k := KeyOf(s, p);
    if k in s.holds && s.holds[k] > s.now {
      FallsAsleepOnHold(s, p);
      events := TicksAfter(s, p, s.holds[k]);
      WakesUp(Run(s, events), p, s.holds[k]);
      events := Then(s, events, Advance(p));
    } else {
      FindsItOver(s, p);
      events := [Advance(p)];
      assert events[1..] == [];
    }
  }

  lemma WakesUpFree(s: State, p: Pid, until: int)
    requires At(s, p).pc == ProviderSleep(until) && until <= s.now
    ensures Enabled(s, Advance(p)) && SameRecords(s, Step(s, Advance(p)))
    ensures At(Step(s, Advance(p)), p) == At(s, p).(pc := WantKey)
  {
  }

  /** The same for a lookup and the provider's hold. */
  lemma ShortProviderHoldIsSleptThrough(s: State, p: Pid) returns (events: seq<Event>)
    requires At(s, p).pc.ReadProvider?
    requires s.provider.Some? ==> s.provider.value <= s.now + 30_000_000_000
    ensures IsRun(s, events) && At(Run(s, events), p) == At(s, p).(pc := WantKey)
    ensures SameRecords(s.(now := if s.provider.Some? && s.provider.value > s.now then s.provider.value else s.now),
                        Run(s, events))
  {
    ProviderHoldDecides(s, p);
    if s.provider.Some? && s.provider.value > s.now {
      FallsAsleep(s, p);
      events := TicksAfter(s, p, s.provider.value);
      WakesUpFree(Run(s, events), p, s.provider.value);
      events := Then(s, events, Advance(p));
    } else {
      events := [Advance(p)];
      assert events[1..] == [];
    }
  }

  /** An answered request that is not a lookup ends at any time, and lets all its locks go. */
  lemma AnsweredRequestLetsGo(s: State, p: Pid, id: Id)
    requires Inv(s) && At(s, p).pc.Responded? && !At(s, p).lookup
    ensures Enabled(s, Finish(p, id)) && SameRecords(s, Step(s, Finish(p, id)))
    ensures At(Step(s, Finish(p, id)), p).pc.Idle? && Step(s, Finish(p, id)).readers == s.readers - {p}
    ensures KeyOf(s, p) !in Step(s, Finish(p, id)).keyLocks
  {
    assert ActorOk(s, p);
  }

  /** An answered request that has sent fewer than four times can send again, once its hold is over. */
  lemma RetrySendsAgain(s: State, p: Pid) returns (events: seq<Event>)
    requires Inv(s) && Reached(s) && At(s, p).pc.Responded? && At(s, p).attempts < 4
    requires KeyOf(s, p) in s.holds ==> s.holds[KeyOf(s, p)] <= s.now + 30_000_000_000
    ensures IsRun(s, events) && |Run(s, events).log| == |s.log| + 1
    ensures var k, sent := KeyOf(s, p), Run(s, events).log[|s.log|];
            sent.key == k && sent.started == if k in s.holds && s.holds[k] > s.now then s.holds[k] else s.now
  {
    assert ActorOk(s, p);
    StepKeepsInv(s, Retry(p));
    StepKeepsReached(s, Retry(p));
    var again := Step(s, Retry(p));
    var waiting := ShortHoldIsSleptThrough(again, p);
    RunKeepsReached(again, waiting);
    var ready := Run(again, waiting);
    assert ActorOk(ready, p) && KeyOf(again, p) == KeyOf(s, p);
    KeyStays(again, waiting, p);
    var leaving := LeavesAtOnce(ready, p);
    RunJoins(again, waiting, leaving);
    events := AfterOne(s, Retry(p), waiting + leaving);
  }

  lemma KeyStays(s: State, events: seq<Event>, p: Pid)
    requires IsRun(s, events) && SameRecords(s.(now := Run(s, events).now), Run(s, events))
    requires At(Run(s, events), p).cred == At(s, p).cred
    ensures KeyOf(Run(s, events), p) == KeyOf(s, p)
  {
  }

  // ----- Pacing -----

  /** Its own latest send has been paced. */
  predicate PastPacing(pc: Pc) {
    pc.Responded? || (Saving(pc) && pc.why.Extra?) || (CopyingToProvider(pc) && (pc.why.Pace? || pc.why.Extra?))
  }

  ghost predicate Paid(s: State, p: Pid) {
    var a := At(s, p);
    && (PastPacing(a.pc) ==> a.sendNo < |s.log| && s.log[a.sendNo].paced && s.log[a.sendNo].key == a.locked)
    && (a.pc.SaveRead? && a.pc.why.Pace? ==> a.pc.delay > 0)
  }

  lemma SavesPay(s: State, p: Pid)
    requires PacingOk(s, p) && Paid(s, p) && Saving(At(s, p).pc)
    ensures Paid(HoldStep(s, p), p)
  {
  }

  lemma CopiesPay(s: State, p: Pid)
    requires Paid(s, p) && CopyingToProvider(At(s, p).pc)
    ensures Paid(CopyStep(s, p), p)
  {
  }

  lemma SendsPay(s: State, p: Pid)
    requires PacingOk(s, p) && (At(s, p).pc.Send? || At(s, p).pc.Sent?)
    ensures Paid(SendStep(s, p), p)
  {
  }

  lemma LocksPay(s: State, p: Pid)
    requires Locking(At(s, p).pc)
    ensures Paid(LockStep(s, p), p)
  {
  }

  lemma WaitsPay(s: State, p: Pid)
    requires Waiting(At(s, p).pc)
    ensures Paid(WaitStep(s, p), p)
  {
  }

  lemma MigrationPays(s: State, p: Pid)
    requires Migrating(At(s, p).pc)
    ensures Paid(MigrateStep(s, p), p)
  {
  }

  lemma AdvancePays(s: State, p: Pid)
    requires ActorOk(s, p) && CanAdvance(s, p) && Paid(s, p)
    ensures Paid(AdvanceStep(s, p), p)
  {
    var pc := At(s, p).pc;
    if Saving(pc) { SavesPay(s, p); }
    else if CopyingToProvider(pc) { CopiesPay(s, p); }
    else if pc.Send? || pc.Sent? { SendsPay(s, p); }
    else if Migrating(pc) { MigrationPays(s, p); }
    else if Locking(pc) { LocksPay(s, p); }
    else { WaitsPay(s, p); }
  }

  lemma OthersPay(s: State, e: Event, p: Pid)
    requires Inv(s) && Enabled(s, e) && !e.Tick? && e.pid != p && Paid(s, p)
    ensures Paid(Step(s, e), p)
  {
    StepHasLocksFrame(s, e, p);
    StepHasLogFrame(s, e);
  }

  lemma OwnEventsPay(s: State, e: Event)
    requires Enabled(s, e) && !e.Tick? && !e.Advance? && Paid(s, e.pid)
    ensures Paid(Step(s, e), e.pid)
  {
  }

  lemma StepPays(s: State, e: Event, p: Pid)
    requires Inv(s) && Enabled(s, e) && Paid(s, p)
    ensures Paid(Step(s, e), p)
  {
    if e.Tick? {
      assert At(Step(s, e), p) == At(s, p);
    } else if e.pid != p {
      OthersPay(s, e, p);
    } else if e.Advance? {
      assert ActorOk(s, p);
      AdvancePays(s, p);
    } else {
      OwnEventsPay(s, e);
    }
  }

  lemma {:induction false} RunPays(s: State, events: seq<Event>, p: Pid)
    requires Inv(s) && IsRun(s, events) && Paid(s, p)
    ensures Paid(Run(s, events), p)
    decreases |events|
  {
    if events != [] {
      StepKeepsInv(s, events[0]);
      StepPays(s, events[0], p);
      RunPays(Step(s, events[0]), events[1..], p);
    }
  }

  /**
  Whoever goes on after an answer has paid the pause of the send it answers, so every later send under the key
  starts after the pause counted from that send's start.
  */
  lemma AnsweredSendsArePaced(s: State, before: seq<Event>, p: Pid, after: seq<Event>, j: nat)
    requires Init(s) && IsRun(s, before) && At(Run(s, before), p).pc.Responded? && IsRun(Run(s, before), after)
    requires var r, now := Run(s, before), Run(Run(s, before), after);
             At(r, p).sendNo < j < |now.log| && now.log[j].key == KeyOf(r, p)
    ensures var r, now := Run(s, before), Run(Run(s, before), after); var sent := now.log[At(r, p).sendNo];
            sent.key == KeyOf(r, p) && sent.started + sent.spacing <= now.log[j].started
  {
    InitHasInv(s);
    RunKeepsInv(s, before);
    RunPays(s, before, p);
    var r := Run(s, before);
    var i := At(r, p).sendNo;
    assert ActorOk(r, p);
    RunKeepsInv(r, after);
    PacedStays(r, after, i);
    var now := Run(r, after);
    assert PauseOver(now.log[i], now.log[j].started);
  }

  lemma {:induction false} PacedStays(s: State, events: seq<Event>, i: nat)
    requires Inv(s) && IsRun(s, events) && i < |s.log| && s.log[i].paced
    ensures i < |Run(s, events).log| && Run(s, events).log[i] == s.log[i]
    decreases |events|
  {
    if events != [] {
      if !events[0].Tick? { StepHasLogFrame(s, events[0]); }
      StepKeepsInv(s, events[0]);
      PacedStays(Step(s, events[0]), events[1..], i);
    }
  }

  // ----- Binding -----

  /** A lookup past its second look at the binding: its credential has no current one. */
  predicate LookingUp(a: Actor) {
    a.lookup && InProvider(a.pc) && !a.pc.Recheck?
  }

  ghost predicate Unbound(s: State, p: Pid) {
    LookingUp(At(s, p)) ==> At(s, p).cred !in s.bindings || !s.bindings[At(s, p).cred].current
  }

  lemma MoverStaysUnbound(s: State, e: Event)
    requires Inv(s) && Enabled(s, e) && !e.Tick? && Unbound(s, e.pid)
    ensures Unbound(Step(s, e), e.pid)
  {
    if e.Advance? { AdvanceStaysUnbound(s, e.pid); }
  }

  lemma AdvanceStaysUnbound(s: State, p: Pid)
    requires Inv(s) && CanAdvance(s, p) && Unbound(s, p)
    ensures Unbound(AdvanceStep(s, p), p)
  {
    assert ActorOk(s, p);
    var pc := At(s, p).pc;
    AdvanceStaysOnItsSide(s, p);
    if Migrating(pc) { MigrationStaysUnbound(s, p); }
    else if Saving(pc) || CopyingToProvider(pc) || pc.Send? || pc.Sent? { SavesStayUnbound(s, p); }
    else if Locking(pc) { LocksStayUnbound(s, p); }
    else { WaitsStayUnbound(s, p); }
  }

  lemma MigrationStaysUnbound(s: State, p: Pid)
    requires Unbound(s, p) && Migrating(At(s, p).pc)
    ensures Unbound(MigrateStep(s, p), p)
  {
  }

  lemma LocksStayUnbound(s: State, p: Pid)
    requires LocksOk(s, p) && Unbound(s, p) && Locking(At(s, p).pc)
    ensures Unbound(LockStep(s, p), p)
  {
  }

  lemma WaitsStayUnbound(s: State, p: Pid)
    requires LocksOk(s, p) && Unbound(s, p) && CanAdvance(s, p) && Waiting(At(s, p).pc)
    ensures Unbound(WaitStep(s, p), p)
  {
  }

  lemma SavesStayUnbound(s: State, p: Pid)
    requires Unbound(s, p)
    ensures Saving(At(s, p).pc) ==> Unbound(HoldStep(s, p), p)
    ensures CopyingToProvider(At(s, p).pc) ==> Unbound(CopyStep(s, p), p)
    ensures At(s, p).pc.Send? || At(s, p).pc.Sent? ==> Unbound(SendStep(s, p), p)
  {
  }

  lemma StepStaysUnbound(s: State, e: Event, p: Pid)
    requires Inv(s) && Enabled(s, e) && Unbound(s, p)
    ensures Unbound(Step(s, e), p)
  {
    if e.Tick? {
      assert At(Step(s, e), p) == At(s, p);
    } else if e.pid == p {
      MoverStaysUnbound(s, e);
    } else {
      StepHasLocksFrame(s, e, p);
      StepHasStoreFrame(s, e);
      assert ActorOk(s, p);
    }
  }

  lemma {:induction false} RunStaysUnbound(s: State, events: seq<Event>, p: Pid)
    requires Inv(s) && IsRun(s, events) && Unbound(s, p)
    ensures Unbound(Run(s, events), p)
    decreases |events|
  {
    if events != [] {
      StepKeepsInv(s, events[0]);
      StepStaysUnbound(s, events[0], p);
      RunStaysUnbound(Step(s, events[0]), events[1..], p);
    }
  }

  /** No lookup is sent for a credential whose account is known, whatever other processes found out meanwhile. */
  lemma KnownAccountIsNotLookedUp(s: State, events: seq<Event>, p: Pid)
    requires Init(s) && IsRun(s, events)
    requires At(Run(s, events), p).lookup && At(Run(s, events), p).pc.Send?
    ensures var r := Run(s, events); var cred := At(r, p).cred; cred !in r.bindings || !r.bindings[cred].current
  {
    InitHasInv(s);
    RunStaysUnbound(s, events, p);
  }

  /** Nobody else is under the lock, so only p itself can hold the lock of the provider's hold. */
  lemma NobodyCopies(s: State, p: Pid)
    requires Inv(s) && Reached(s) && At(s, p).lookup && InProvider(At(s, p).pc)
    requires !At(s, p).pc.ProvRead? && !At(s, p).pc.ProvPut?
    ensures s.provLock.None?
  {
    assert ActorOk(s, p);
    if s.provLock.Some? {
      var q := s.provLock.value;
      assert Seen(s, q);
      if q != p { WriterIsAlone(s, p, q); }
    }
  }

  predicate Merging(pc: Pc) {
    Migrating(pc) || (CopyingToProvider(pc) && pc.why.Migrate?)
  }

  function StepsToBind(pc: Pc): nat {
    match pc
    case MigrateReadLegacy(_) => 8
    case MigrateReadPrincipal(_, _) => 7
    case MigratePut(_, _) => 6
    case ProvStart(_, _) => 5
    case ProvWant(_, _, _) => 4
    case ProvRead(_, _, _) => 3
    case ProvPut(_, _, _) => 2
    case _ => 1
  }

  function AccountOf(pc: Pc): Id
    requires Merging(pc)
  {
    match pc
    case MigrateReadLegacy(id) => id
    case MigrateReadPrincipal(id, _) => id
    case MigratePut(id, _) => id
    case BindPut(id) => id
    case _ => pc.why.id
  }

  /** One step nearer to the binding. */
  ghost predicate NearerToBind(s: State, s': State, p: Pid)
    requires Merging(At(s, p).pc)
  {
    && Merging(At(s', p).pc) && StepsToBind(At(s', p).pc) < StepsToBind(At(s, p).pc)
    && AccountOf(At(s', p).pc) == AccountOf(At(s, p).pc)
    && At(s', p).cred == At(s, p).cred && At(s', p).lookup == At(s, p).lookup
    && s'.bindings == s.bindings && s'.now == s.now
  }

  lemma LegacyReadLeadsNearer(s: State, p: Pid)
    requires At(s, p).pc.MigrateReadLegacy?
    ensures NearerToBind(s, MigrateStep(s, p), p)
  {
  }

  lemma PrincipalReadLeadsNearer(s: State, p: Pid)
    requires At(s, p).pc.MigrateReadPrincipal?
    ensures NearerToBind(s, MigrateStep(s, p), p)
  {
  }

  lemma MergeLeadsNearer(s: State, p: Pid)
    requires At(s, p).pc.MigratePut?
    ensures NearerToBind(s, MigrateStep(s, p), p)
  {
  }

  lemma CopyLeadsNearer(s: State, p: Pid)
    requires CopyingToProvider(At(s, p).pc) && At(s, p).pc.why.Migrate?
    ensures NearerToBind(s, CopyStep(s, p), p)
  {
  }

  /** A lookup that is not stopped stores its binding, and the account's hold covers the credential's own. */
  lemma {:induction false} BindsAtOnce(s: State, p: Pid) returns (events: seq<Event>)
    requires Inv(s) && Reached(s) && At(s, p).lookup && Merging(At(s, p).pc)
    ensures IsRun(s, events) && Run(s, events).now == s.now && At(Run(s, events), p).pc.Idle?
    ensures Run(s, events).bindings == s.bindings[At(s, p).cred := Binding(AccountOf(At(s, p).pc), true)]
    ensures LegacyMerged(Run(s, events).holds, At(s, p).cred, AccountOf(At(s, p).pc))
    ensures Run(s, events).writer.None?
    decreases StepsToBind(At(s, p).pc)
  {
    assert ActorOk(s, p);
    if At(s, p).pc.BindPut? {
      events := [Advance(p)];
      assert events[1..] == [];
    } else {
      if At(s, p).pc.ProvWant? { NobodyCopies(s, p); }
      if At(s, p).pc.MigratePut? { MergeLeadsNearer(s, p); }
      else if At(s, p).pc.MigrateReadLegacy? { LegacyReadLeadsNearer(s, p); }
      else if At(s, p).pc.MigrateReadPrincipal? { PrincipalReadLeadsNearer(s, p); }
      else { CopyLeadsNearer(s, p); }
      StepKeepsInv(s, Advance(p));
      StepKeepsReached(s, Advance(p));
      var rest := BindsAtOnce(Step(s, Advance(p)), p);
      events := AfterOne(s, Advance(p), rest);
    }
  }

  /** An answered lookup binds its credential to the account it names, unless it is bound to another one. */
  lemma AnsweredLookupBinds(s: State, p: Pid, id: Id) returns (events: seq<Event>)
    requires Inv(s) && Reached(s) && At(s, p).lookup && At(s, p).pc.Responded?
    requires At(s, p).cred in s.bindings ==> s.bindings[At(s, p).cred].id == id
    ensures IsRun(s, events) && At(Run(s, events), p).pc.Idle? && Run(s, events).writer.None?
    ensures Run(s, events).bindings == s.bindings[At(s, p).cred := Binding(id, true)]
    ensures Legacy(At(s, p).cred) in s.holds ==>
              Principal(id) in Run(s, events).holds
              && s.holds[Legacy(At(s, p).cred)] <= Run(s, events).holds[Principal(id)]
  {
    StepKeepsInv(s, Finish(p, id));
    StepKeepsReached(s, Finish(p, id));
    var rest := BindsAtOnce(Step(s, Finish(p, id)), p);
    events := AfterOne(s, Finish(p, id), rest);
    HoldsNeverShrink(Step(s, Finish(p, id)), rest);
  }

  /** An answer that contradicts the binding changes nothing but that the lookup is over. */
  lemma ContradictionBindsNothing(s: State, p: Pid, id: Id)
    requires Inv(s) && At(s, p).lookup && At(s, p).pc.Responded?
    requires At(s, p).cred in s.bindings && s.bindings[At(s, p).cred].id != id
    ensures SameRecords(s, Step(s, Finish(p, id))) && At(Step(s, Finish(p, id)), p).pc.Idle?
    ensures Step(s, Finish(p, id)).writer.None?
  {
    assert ActorOk(s, p);
  }
}
