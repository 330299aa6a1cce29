/** What the rate-hold protocol promises over whole runs. */
module RateHoldsTheorems {
  import opened Wrappers
  import opened RateHolds
  import opened RateHoldsInvariant

  ghost predicate AllExpiredBut(s: State, own: Key) {
    forall k | k in s.holds && k != own :: s.holds[k] <= s.now
  }

  ghost predicate CutExpiredBut(s: State, own: Key) {
    forall k | k in s.holds && k in s.cut && k != own :: s.holds[k] <= s.now
  }

  /**
   * When an identity lookup is about to be sent, nobody else uses the provider, every other stored
   * hold has expired exactly when those of interrupted saves have, and the lookup's own hold is
   * over but for the pause it has just reserved.
   */
  lemma LookupWaitsForEveryHold(s: State, events: seq<Event>, p: Pid)
    requires Init(s) && IsRun(s, events)
    requires At(Run(s, events), p).lookup && At(Run(s, events), p).pc.Send?
    ensures var r := Run(s, events); var own := KeyOf(r, p);
      && (AllExpiredBut(r, own) <==> CutExpiredBut(r, own))
      && (own in r.holds ==> r.holds[own] <= r.now || r.holds[own] == At(r, p).reserved + At(r, p).spacing)
      && (forall q | q != p :: !InProvider(At(r, q).pc))
  {
    InitHasInv(s);
    RunKeepsInv(s, events);
    var r := Run(s, events);
    assert ActorOk(r, p);
    forall q | q != p ensures !InProvider(At(r, q).pc) {
      WriterIsAlone(r, p, q);
    }
    forall k | k in r.holds && k != KeyOf(r, p) ensures k in r.cut || r.holds[k] <= r.now {
      assert ExpiredBy(r, k, r.now);
    }
  }

  /** No process stops between putting a hold and copying it to the provider. */
  ghost predicate Uninterrupted(s: State, events: seq<Event>)
    requires IsRun(s, events)
    decreases |events|
  {
    events == [] ||
    (&& !(events[0].Abort? && CopyingToProvider(At(s, events[0].pid).pc))
     && Uninterrupted(Step(s, events[0]), events[1..]))
  }

  lemma {:induction false} NothingIsCut(s: State, events: seq<Event>)
    requires IsRun(s, events) && Uninterrupted(s, events) && s.cut == {}
    ensures Run(s, events).cut == {}
    decreases |events|
  {
    if events != [] {
      StepCutsNothing(s, events[0]);
      NothingIsCut(Step(s, events[0]), events[1..]);
    }
  }

  lemma StepCutsNothing(s: State, e: Event)
    requires Enabled(s, e) && s.cut == {}
    requires !(e.Abort? && CopyingToProvider(At(s, e.pid).pc))
    ensures Step(s, e).cut == {}
  {
    if e.Advance? {
      LockHasSameStore(s, e.pid);
      WaitHasSameStore(s, e.pid);
      SendHasSameStore(s, e.pid);
      SavesCutNothing(s, e.pid);
      CopiesCutNothing(s, e.pid);
    }
  }

  lemma SavesCutNothing(s: State, p: Pid)
    ensures HoldStep(s, p).cut == s.cut && MigrateStep(s, p).cut == s.cut
  {
  }

  lemma CopiesCutNothing(s: State, p: Pid)
    ensures CopyStep(s, p).cut <= s.cut
  {
  }

  /** Without such an interruption a lookup is sent only once every other stored hold has expired. */
  lemma UninterruptedLookupIsSafe(s: State, events: seq<Event>, p: Pid)
    requires Init(s) && s.cut == {} && IsRun(s, events) && Uninterrupted(s, events)
    requires At(Run(s, events), p).lookup && At(Run(s, events), p).pc.Send?
    ensures AllExpiredBut(Run(s, events), KeyOf(Run(s, events), p))
  {
    NothingIsCut(s, events);
    LookupWaitsForEveryHold(s, events, p);
  }

  // ----- Stored holds only grow -----

  ghost predicate Grown(s: State, r: State) {
    && (forall k | k in s.holds :: k in r.holds && s.holds[k] <= r.holds[k])
    && (s.provider.Some? ==> r.provider.Some? && s.provider.value <= r.provider.value)
    && s.now <= r.now
  }

  lemma {:induction false} HoldsNeverShrink(s: State, events: seq<Event>)
    requires Inv(s) && IsRun(s, events)
    ensures Grown(s, Run(s, events))
    decreases |events|
  {
    if events != [] {
      if !events[0].Tick? { StepHasStoreFrame(s, events[0]); }
      StepKeepsInv(s, events[0]);
      HoldsNeverShrink(Step(s, events[0]), events[1..]);
    }
  }

  lemma {:induction false} RunConcat(s: State, before: seq<Event>, after: seq<Event>)
    requires IsRun(s, before + after)
    ensures IsRun(s, before) && IsRun(Run(s, before), after)
    ensures Run(s, before + after) == Run(Run(s, before), after)
    decreases |before|
  {
    if before == [] {
      assert before + after == after;
    } else {
      assert (before + after)[1..] == before[1..] + after;
      RunConcat(Step(s, before[0]), before[1..], after);
    }
  }

  /** Across all processes, no hold and no provider copy ever moves back. */
  lemma StoredInstantsAreMonotone(s: State, before: seq<Event>, after: seq<Event>)
    requires Init(s) && IsRun(s, before + after)
    ensures IsRun(s, before)
    ensures Grown(Run(s, before), Run(s, before + after))
  {
    RunConcat(s, before, after);
    InitHasInv(s);
    RunKeepsInv(s, before);
    HoldsNeverShrink(Run(s, before), after);
  }

  /** A save that got to write is never lost, whatever the other processes read before it. */
  lemma NoSaveIsLost(s: State, before: seq<Event>, p: Pid, after: seq<Event>)
    requires Init(s) && IsRun(s, before) && At(Run(s, before), p).pc.SavePut?
    requires IsRun(Step(Run(s, before), Advance(p)), after)
    ensures var b := Run(s, before); var r := Run(Step(b, Advance(p)), after); var k := KeyOf(b, p);
      && k in r.holds && At(b, p).pc.until <= r.holds[k]
      && (k in b.holds ==> b.holds[k] <= At(b, p).pc.until)
  {
    InitHasInv(s);
    RunKeepsInv(s, before);
    var b := Run(s, before);
    assert ActorOk(b, p);
    StepKeepsInv(b, Advance(p));
    HoldsNeverShrink(Step(b, Advance(p)), after);
    assert KeyOf(b, p) in Step(b, Advance(p)).holds;
  }

  /** A credential's own hold is carried over to its account for good. */
  lemma MigrationKeepsTheHold(s: State, events: seq<Event>, cred: Cred)
    requires Init(s) && IsRun(s, events) && cred in Run(s, events).bindings
    ensures LegacyMerged(Run(s, events).holds, cred, Run(s, events).bindings[cred].id)
  {
    InitHasInv(s);
    RunKeepsInv(s, events);
  }

  // ----- Pauses between sends -----

  /**
   * Two sends under one key: the later one starts after the pause counted from the earlier one's
   * reservation, and after the pause counted from its start once that send was paced.
   */
  lemma SendsAreSpaced(s: State, events: seq<Event>, i: nat, j: nat)
    requires Init(s) && IsRun(s, events)
    requires i < j < |Run(s, events).log| && Run(s, events).log[i].key == Run(s, events).log[j].key
    ensures var log := Run(s, events).log;
      && log[i].reserved + log[i].spacing <= log[j].started
      && (log[i].paced ==> log[i].started + log[i].spacing <= log[j].started)
  {
    InitHasInv(s);
    RunKeepsInv(s, events);
    assert PauseOver(Run(s, events).log[i], Run(s, events).log[j].started);
  }

  predicate Sends(s: State, e: Event, p: Pid) {
    e == Advance(p) && At(s, p).pc.Send?
  }

  /** How often p sends in the run for the request that it is in at the end, after n sends before the run. */
  ghost function SendsOf(s: State, events: seq<Event>, p: Pid, n: nat): nat
    requires IsRun(s, events)
    decreases |events|
  {
    if events == [] then n
    else
      var e := events[0];
      SendsOf(Step(s, e), events[1..], p, if e.Begin? && e.pid == p then 0 else if Sends(s, e, p) then n + 1 else n)
  }

  lemma SavesSendNothing(s: State, p: Pid)
    ensures At(HoldStep(s, p), p).attempts == At(s, p).attempts
    ensures HoldStep(s, p).log == s.log || |HoldStep(s, p).log| == |s.log|
  {
  }

  lemma CopiesSendNothing(s: State, p: Pid)
    ensures At(CopyStep(s, p), p).attempts == At(s, p).attempts && CopyStep(s, p).log == s.log
  {
  }

  lemma MigrationSendsNothing(s: State, p: Pid)
    ensures At(MigrateStep(s, p), p).attempts == At(s, p).attempts && MigrateStep(s, p).log == s.log
  {
  }

  lemma LocksSendNothing(s: State, p: Pid)
    ensures At(LockStep(s, p), p).attempts == At(s, p).attempts && LockStep(s, p).log == s.log
  {
  }

  lemma WaitsSendNothing(s: State, p: Pid)
    ensures At(WaitStep(s, p), p).attempts == At(s, p).attempts && WaitStep(s, p).log == s.log
  {
  }

  lemma SendIsCounted(s: State, p: Pid)
    ensures At(SendStep(s, p), p).attempts == At(s, p).attempts + if At(s, p).pc.Send? then 1 else 0
    ensures |SendStep(s, p).log| == |s.log| + if At(s, p).pc.Send? then 1 else 0
  {
  }

  lemma AdvanceCounts(s: State, p: Pid)
    ensures At(AdvanceStep(s, p), p).attempts == At(s, p).attempts + if At(s, p).pc.Send? then 1 else 0
    ensures |AdvanceStep(s, p).log| == |s.log| + if At(s, p).pc.Send? then 1 else 0
  {
    SavesSendNothing(s, p);
    CopiesSendNothing(s, p);
    MigrationSendsNothing(s, p);
    LocksSendNothing(s, p);
    WaitsSendNothing(s, p);
    SendIsCounted(s, p);
  }

  lemma StepCounts(s: State, e: Event, p: Pid)
    requires Inv(s) && Enabled(s, e)
    ensures At(Step(s, e), p).attempts
            == if e.Begin? && e.pid == p then 0 else At(s, p).attempts + if Sends(s, e, p) then 1 else 0
    ensures Sends(s, e, p) ==> |Step(s, e).log| == |s.log| + 1
  {
    if e.Advance? {
      AdvanceCounts(s, e.pid);
    }
    if !e.Tick? && e.pid != p { StepHasLocksFrame(s, e, p); }
  }

  lemma {:induction false} AttemptsAreSends(s: State, events: seq<Event>, p: Pid)
    requires Inv(s) && IsRun(s, events)
    ensures At(Run(s, events), p).attempts == SendsOf(s, events, p, At(s, p).attempts)
    decreases |events|
  {
    if events != [] {
      StepKeepsInv(s, events[0]);
      StepCounts(s, events[0], p);
      AttemptsAreSends(Step(s, events[0]), events[1..], p);
    }
  }

  /** No request sends more than four times, counted send by send. */
  lemma AtMostFourSends(s: State, events: seq<Event>, p: Pid)
    requires Init(s) && IsRun(s, events)
    ensures SendsOf(s, events, p, 0) <= 4
  {
    InitHasInv(s);
    RunKeepsInv(s, events);
    AttemptsAreSends(s, events, p);
    assert ActorOk(Run(s, events), p);
  }

  /** Two requests that hold the same key lock are the same request. */
  lemma KeysAreExclusive(s: State, events: seq<Event>, p: Pid, q: Pid)
    requires Init(s) && IsRun(s, events) && p != q
    requires Keyed(At(Run(s, events), p).pc) && Keyed(At(Run(s, events), q).pc)
    ensures KeyOf(Run(s, events), p) != KeyOf(Run(s, events), q)
  {
    InitHasInv(s);
    RunKeepsInv(s, events);
    assert ActorOk(Run(s, events), p) && ActorOk(Run(s, events), q);
  }
}
