/** A delay that a response asks for: it is stored, copied to the provider, and kept by every later send. */
module RateHoldsDelays {
  import opened Wrappers
  import opened RateHolds
  import opened RateHoldsInvariant
  import opened RateHoldsTheorems
  import opened RateHoldsSpacing

  ghost predicate Stored(s: State, k: Key, t: int) {
    k in s.holds && t <= s.holds[k]
  }

  ghost predicate LaterSendsWait(s: State, k: Key, t: int, n: nat) {
    forall j | n <= j < |s.log| && s.log[j].key == k :: t <= s.log[j].started
  }

  /** p holds the key's lock and is about to store a hold up to t. */
  ghost predicate Storing(s: State, p: Pid, k: Key, t: int, n: nat) {
    var a := At(s, p);
    && Saving(a.pc) && a.pc.why.Extra? && a.locked == k && LaterSendsWait(s, k, t, n)
    && (if a.pc.SaveRead? then a.pc.delay > 0 && t <= s.now + a.pc.delay else t <= a.pc.until)
  }

  ghost predicate Asking(s: State, p: Pid, k: Key, t: int, n: nat) {
    Storing(s, p, k, t, n) || (Stored(s, k, t) && Guarded(s, k, t, n))
  }

  /** Others cannot send under a key that p has locked. */
  lemma OthersSendElsewhere(s: State, e: Event, p: Pid, k: Key, t: int, n: nat)
    requires Inv(s) && Enabled(s, e) && !e.Tick? && e.pid != p && Storing(s, p, k, t, n)
    ensures LaterSendsWait(Step(s, e), k, t, n)
  {
    StepHasLogFrame(s, e);
    assert ActorOk(s, p);
  }

  lemma OthersLeaveIt(s: State, e: Event, p: Pid, k: Key, t: int, n: nat)
    requires Inv(s) && Enabled(s, e) && !e.Tick? && e.pid != p && Storing(s, p, k, t, n)
    ensures Storing(Step(s, e), p, k, t, n)
  {
    StepHasLocksFrame(s, e, p);
    StepHasStoreFrame(s, e);
    OthersSendElsewhere(s, e, p, k, t, n);
  }

  lemma ReadGoesOn(s: State, p: Pid, k: Key, t: int, n: nat)
    requires At(s, p).pc.SaveRead? && Storing(s, p, k, t, n)
    ensures Storing(HoldStep(s, p), p, k, t, n)
  {
  }

  lemma PutStores(s: State, p: Pid, k: Key, t: int, n: nat)
    requires Inv(s) && At(s, p).pc.SavePut? && Storing(s, p, k, t, n)
    ensures Stored(HoldStep(s, p), k, t) && HoldStep(s, p).log == s.log
    ensures HoldStep(s, p).keyLocks == s.keyLocks && At(HoldStep(s, p), p).pc.ProvStart?
    ensures !BeforeSend(At(HoldStep(s, p), p).pc) && forall q: Pid | q != p :: At(HoldStep(s, p), q) == At(s, q)
  {
    assert ActorOk(s, p);
  }

  lemma PutGuards(s: State, p: Pid, k: Key, t: int, n: nat)
    requires Inv(s) && At(s, p).pc.SavePut? && Storing(s, p, k, t, n)
    ensures Stored(HoldStep(s, p), k, t) && Guarded(HoldStep(s, p), k, t, n)
  {
    var r := HoldStep(s, p);
    PutStores(s, p, k, t, n);
    assert ActorOk(s, p) && OwnsKey(s, p, k);
    forall q: Pid ensures !(BeforeSend(At(r, q).pc) && At(r, q).locked == k) {
      if q != p { assert ActorOk(s, q); }
    }
  }

  lemma StepKeepsAsking(s: State, e: Event, p: Pid, k: Key, t: int, n: nat)
    requires Inv(s) && Reached(s) && Enabled(s, e) && e != Abort(p) && Asking(s, p, k, t, n)
    ensures Asking(Step(s, e), p, k, t, n)
  {
    if Storing(s, p, k, t, n) {
      if e.Tick? {
        assert At(Step(s, e), p) == At(s, p);
      } else if e.pid != p {
        OthersLeaveIt(s, e, p, k, t, n);
      } else if At(s, p).pc.SaveRead? {
        ReadGoesOn(s, p, k, t, n);
      } else {
        PutGuards(s, p, k, t, n);
      }
    } else {
      StepKeepsGuarded(s, e, k, t, n);
      if !e.Tick? { StepHasStoreFrame(s, e); }
    }
  }

  lemma {:induction false} RunKeepsAsking(s: State, events: seq<Event>, p: Pid, k: Key, t: int, n: nat)
    requires Inv(s) && Reached(s) && IsRun(s, events) && Abort(p) !in events && Asking(s, p, k, t, n)
    ensures Asking(Run(s, events), p, k, t, n)
    decreases |events|
  {
    if events != [] {
      StepKeepsInv(s, events[0]);
      StepKeepsReached(s, events[0]);
      StepKeepsAsking(s, events[0], p, k, t, n);
      RunKeepsAsking(Step(s, events[0]), events[1..], p, k, t, n);
    }
  }

  /**
  A response asks for a delay: once its request is past the save, the hold of its key runs at least that long,
  and from the response on every send under the key starts after it, unless the request dies before it stores.
  */
  lemma AskedDelayIsKept(s: State, before: seq<Event>, p: Pid, d: int, after: seq<Event>)
    requires Init(s) && IsRun(s, before) && At(Run(s, before), p).pc.Responded? && d > 0
    requires IsRun(Step(Run(s, before), SaveExtra(p, d)), after) && Abort(p) !in after
    ensures var r := Run(s, before); var now := Run(Step(r, SaveExtra(p, d)), after); var k := KeyOf(r, p);
      && (!Saving(At(now, p).pc) ==> k in now.holds && r.now + d <= now.holds[k])
      && (forall j | |r.log| <= j < |now.log| && now.log[j].key == k :: r.now + d <= now.log[j].started)
  {
    InitHasInv(s);
    RunKeepsReached(s, before);
    var r := Run(s, before);
    assert ActorOk(r, p);
    StepKeepsInv(r, SaveExtra(p, d));
    StepKeepsReached(r, SaveExtra(p, d));
    RunKeepsAsking(Step(r, SaveExtra(p, d)), after, p, KeyOf(r, p), r.now + d, |r.log|);
  }

  // ----- The provider's copy -----

  /** The provider's hold runs up to t, or p is still on its way to copy it there. */
  ghost predicate Telling(s: State, p: Pid, t: int) {
    var a := At(s, p);
    || t <= s.now || (s.provider.Some? && t <= s.provider.value)
    || (Saving(a.pc) && a.pc.why.Extra?
        && if a.pc.SaveRead? then a.pc.delay > 0 && t <= s.now + a.pc.delay else t <= a.pc.until)
    || (CopyingToProvider(a.pc) && a.pc.why.Extra? && t <= a.pc.until)
  }

  lemma SaveKeepsTelling(s: State, p: Pid, t: int)
    requires Telling(s, p, t) && Saving(At(s, p).pc)
    ensures Telling(HoldStep(s, p), p, t)
  {
  }

  lemma CopyKeepsTelling(s: State, p: Pid, t: int)
    requires ValuesOk(s, p) && Telling(s, p, t) && CopyingToProvider(At(s, p).pc)
    ensures Telling(CopyStep(s, p), p, t)
  {
  }

  lemma StepKeepsTelling(s: State, e: Event, p: Pid, t: int)
    requires Inv(s) && Enabled(s, e) && e != Abort(p) && Telling(s, p, t)
    ensures Telling(Step(s, e), p, t)
  {
    if e.Tick? {
      assert At(Step(s, e), p) == At(s, p);
    } else {
      StepHasStoreFrame(s, e);
      if e.pid != p {
        StepHasLocksFrame(s, e, p);
      } else if e.Advance? && Saving(At(s, p).pc) {
        SaveKeepsTelling(s, p, t);
      } else if e.Advance? && CopyingToProvider(At(s, p).pc) {
        assert ActorOk(s, p);
        CopyKeepsTelling(s, p, t);
      }
    }
  }

  lemma {:induction false} RunKeepsTelling(s: State, events: seq<Event>, p: Pid, t: int)
    requires Inv(s) && IsRun(s, events) && Abort(p) !in events && Telling(s, p, t)
    ensures Telling(Run(s, events), p, t)
    decreases |events|
  {
    if events != [] {
      StepKeepsInv(s, events[0]);
      StepKeepsTelling(s, events[0], p, t);
      RunKeepsTelling(Step(s, events[0]), events[1..], p, t);
    }
  }

  /** And once it is past the copy, the provider's hold runs as long, unless the delay is already over. */
  lemma AskedDelayReachesTheProvider(s: State, before: seq<Event>, p: Pid, d: int, after: seq<Event>)
    requires Init(s) && IsRun(s, before) && At(Run(s, before), p).pc.Responded? && d > 0
    requires IsRun(Step(Run(s, before), SaveExtra(p, d)), after) && Abort(p) !in after
    ensures var r := Run(s, before); var now := Run(Step(r, SaveExtra(p, d)), after);
      !Saving(At(now, p).pc) && !CopyingToProvider(At(now, p).pc) ==>
        r.now + d <= now.now || (now.provider.Some? && r.now + d <= now.provider.value)
  {
    InitHasInv(s);
    RunKeepsInv(s, before);
    var r := Run(s, before);
    StepKeepsInv(r, SaveExtra(p, d));
    RunKeepsTelling(Step(r, SaveExtra(p, d)), after, p, r.now + d);
  }
}
