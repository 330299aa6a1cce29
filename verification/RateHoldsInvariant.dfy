/** What every step of every process keeps. */
module RateHoldsInvariant {
  import opened Wrappers
  import opened RateHolds

  // ----- Which locks a program point implies -----

  predicate InProvider(pc: Pc) {
    !pc.Idle? && !pc.WantShared? && !pc.WantExclusive?
  }

  predicate ExclusiveOnly(pc: Pc) {
    || pc.Recheck? || pc.ReadProvider? || pc.ProviderSleep? || pc.BindPut?
    || pc.MigrateReadLegacy? || pc.MigrateReadPrincipal? || pc.MigratePut?
    || (CopyingToProvider(pc) && pc.why.Migrate?)
  }

  /** The key lock is held. */
  predicate Keyed(pc: Pc) {
    || pc.ReadHold? || pc.HoldSleep? || pc.SaveRead? || pc.SavePut? || pc.Send? || pc.Sent? || pc.Responded?
    || (CopyingToProvider(pc) && !pc.why.Migrate?)
  }

  /** From the check of the stored hold up to the send. */
  predicate BeforeSend(pc: Pc) {
    || pc.Send?
    || (pc.SaveRead? && pc.why.Reserve?)
    || (pc.SavePut? && pc.why.Reserve?)
    || (CopyingToProvider(pc) && pc.why.Reserve?)
  }

  /** A lookup that has waited for the provider's hold. */
  predicate Cleared(pc: Pc) {
    pc.WantKey? || Keyed(pc)
  }

  ghost predicate OwnsKey(s: State, q: Pid, k: Key) {
    k in s.keyLocks && s.keyLocks[k] == q
  }

  ghost predicate LocksOk(s: State, p: Pid) {
    var a := At(s, p);
    && (s.writer == Some(p) <==> InProvider(a.pc) && a.lookup)
    && (p in s.readers <==> InProvider(a.pc) && !a.lookup)
    && (InProvider(a.pc) && !a.lookup ==> a.cred in s.bindings)
    && (a.pc.WantShared? ==> !a.lookup && a.cred in s.bindings)
    && (a.pc.WantExclusive? || ExclusiveOnly(a.pc) ==> a.lookup)
    && (Keyed(a.pc) ==> OwnsKey(s, p, a.locked) && a.locked == KeyOf(s, p))
    && (a.pc.ProvRead? || a.pc.ProvPut? ==> s.provLock == Some(p))
    && (ExclusiveOnly(a.pc) || a.pc.WantKey? || !InProvider(a.pc) ==> forall k :: !OwnsKey(s, p, k))
  }

  /** A reader excludes the writer. */
  ghost predicate ProviderLockOk(s: State) {
    s.writer.Some? ==> s.readers == {}
  }

  // ----- The values a program point remembers are still the stored ones -----

  ghost predicate ValuesOk(s: State, p: Pid) {
    var a := At(s, p);
    match a.pc
    case HoldSleep(wake) => Lookup(s.holds, a.locked) == Some(wake)
    case SaveRead(why, _) =>
      && !why.Migrate?
      && (why.Reserve? ==> a.pc.delay == a.spacing && (a.locked in s.holds ==> s.holds[a.locked] <= s.now))
    case SavePut(why, previous, until) =>
      && !why.Migrate?
      && previous == Lookup(s.holds, a.locked)
      && (previous.Some? ==> previous.value <= until)
      && (why.Reserve? ==> until == a.reserved + a.spacing)
    case ProvStart(why, until) => CopyOk(s, p, why, until)
    case ProvWant(why, until, delay) => CopyOk(s, p, why, until) && until <= s.now + delay
    case ProvRead(why, until, delay) => CopyOk(s, p, why, until) && until <= s.now + delay
    case ProvPut(why, until, latest) =>
      CopyOk(s, p, why, until) && until <= latest && (s.provider.Some? ==> s.provider.value <= latest)
    case Send => a.locked in s.holds ==> s.holds[a.locked] <= s.now || s.holds[a.locked] == a.reserved + a.spacing
    case MigrateReadPrincipal(id, legacy) => Lookup(s.holds, Legacy(a.cred)) == Some(legacy)
    case MigratePut(id, legacy) =>
      && Lookup(s.holds, Legacy(a.cred)) == Some(legacy)
      && (Principal(id) in s.holds ==> s.holds[Principal(id)] <= legacy)
    case BindPut(id) => LegacyMerged(s.holds, a.cred, id)
    case _ => true
  }

  /** The hold just put is still there while its copy travels to the provider. */
  ghost predicate CopyOk(s: State, p: Pid, why: Why, until: int) {
    && Lookup(s.holds, SavedKey(s, p, why)) == Some(until)
    && (why.Reserve? ==> until == At(s, p).reserved + At(s, p).spacing)
    && (why.Migrate? ==> LegacyMerged(s.holds, At(s, p).cred, why.id))
  }

  /** No hold of the credential outlives the one of its account. */
  ghost predicate LegacyMerged(holds: map<Key, int>, cred: Cred, id: Id) {
    Legacy(cred) in holds ==> Principal(id) in holds && holds[Legacy(cred)] <= holds[Principal(id)]
  }

  /** The account being bound agrees with an earlier binding. */
  ghost predicate SameAccount(s: State, p: Pid) {
    var a := At(s, p);
    a.cred in s.bindings ==>
      match a.pc
      case MigrateReadLegacy(id) => s.bindings[a.cred].id == id
      case MigrateReadPrincipal(id, _) => s.bindings[a.cred].id == id
      case MigratePut(id, _) => s.bindings[a.cred].id == id
      case BindPut(id) => s.bindings[a.cred].id == id
      case _ => CopyingToProvider(a.pc) && a.pc.why.Migrate? ==> s.bindings[a.cred].id == a.pc.why.id
  }

  ghost predicate AttemptsOk(a: Actor) {
    && a.attempts <= MAX_ATTEMPTS
    && (BeforeSend(a.pc) || a.pc.ReadHold? || a.pc.HoldSleep? || a.pc.WantKey? || a.pc.WantShared?
        || a.pc.WantExclusive? || a.pc.Recheck? || a.pc.ReadProvider? || a.pc.ProviderSleep?
        ==> a.attempts < MAX_ATTEMPTS)
  }

  // ----- The provider's hold covers the others -----

  ghost predicate Copying(s: State, p: Pid, k: Key) {
    CopyingToProvider(At(s, p).pc) && SavedKey(s, p, At(s, p).pc.why) == k
  }

  ghost predicate Covered(s: State, k: Key) {
    k in s.holds ==>
      || k in s.cut
      || s.holds[k] <= s.now
      || (s.provider.Some? && s.holds[k] <= s.provider.value)
      || exists p :: Copying(s, p, k)
  }

  ghost predicate ExpiredBy(s: State, k: Key, t: int) {
    k in s.holds ==> k in s.cut || s.holds[k] <= t
  }

  ghost predicate LookupOk(s: State, p: Pid) {
    var a := At(s, p);
    a.lookup ==>
      && (a.pc.ProviderSleep? ==>
            var t := if s.now < a.pc.wake then a.pc.wake else s.now;
            forall k :: ExpiredBy(s, k, t))
      && (Cleared(a.pc) ==> forall k | k != KeyOf(s, p) :: ExpiredBy(s, k, s.now))
  }

  // ----- Pacing -----

  /** The stored hold keeps the pause after a recorded send. */
  ghost predicate RecordKept(s: State, r: SendRecord) {
    && r.reserved <= r.started <= s.now
    && (r.spacing > 0 ==> r.key in s.holds && r.reserved + r.spacing <= s.holds[r.key])
    && (r.paced ==> r.started + r.spacing <= s.now || (r.key in s.holds && r.started + r.spacing <= s.holds[r.key]))
  }

  /** The pause after a recorded send is over at t. */
  ghost predicate PauseOver(r: SendRecord, t: int) {
    && r.reserved + r.spacing <= t
    && (r.paced ==> r.started + r.spacing <= t)
  }

  ghost predicate PacingOk(s: State, p: Pid) {
    var a := At(s, p);
    && (BeforeSend(a.pc) ==> forall i | 0 <= i < |s.log| && s.log[i].key == a.locked :: PauseOver(s.log[i], s.now))
    && (BeforeSend(a.pc) && !a.pc.SaveRead? ==> a.reserved <= s.now)
    && (a.pc.Send? && a.spacing > 0 ==> a.locked in s.holds && a.reserved + a.spacing <= s.holds[a.locked])
    && (a.pc.Sent? || ((a.pc.SaveRead? || a.pc.SavePut?) && a.pc.why.Pace?) ==>
          && a.sendNo < |s.log|
          && s.log[a.sendNo].key == a.locked && s.log[a.sendNo].spacing == a.spacing
          && (forall i | a.sendNo < i < |s.log| :: s.log[i].key != a.locked))
    && (a.pc.SaveRead? && a.pc.why.Pace? ==>
          s.log[a.sendNo].started + a.spacing <= s.now + a.pc.delay)
    && (a.pc.SavePut? && a.pc.why.Pace? ==> s.log[a.sendNo].started + a.spacing <= a.pc.until)
  }

  ghost predicate LogSpaced(s: State) {
    forall i, j | 0 <= i < j < |s.log| && s.log[i].key == s.log[j].key :: PauseOver(s.log[i], s.log[j].started)
  }

  ghost predicate ActorOk(s: State, p: Pid) {
    && LocksOk(s, p) && ValuesOk(s, p) && SameAccount(s, p) && AttemptsOk(At(s, p))
    && LookupOk(s, p) && PacingOk(s, p)
  }

  ghost predicate Inv(s: State) {
    && ProviderLockOk(s)
    && (forall p :: ActorOk(s, p))
    && (forall cred | cred in s.bindings :: LegacyMerged(s.holds, cred, s.bindings[cred].id))
    && (forall k :: Covered(s, k))
    && (forall i | 0 <= i < |s.log| :: RecordKept(s, s.log[i]))
    && LogSpaced(s)
  }

  /** No process is running. Stored holds may be arbitrary, but one the provider's copy does not cover counts as cut. */
  ghost predicate Init(s: State) {
    && s.actors == map[] && s.writer == None && s.readers == {} && s.keyLocks == map[] && s.provLock == None
    && s.log == []
    && (forall cred | cred in s.bindings :: LegacyMerged(s.holds, cred, s.bindings[cred].id))
    && (forall k | k in s.holds && k !in s.cut ::
          s.holds[k] <= s.now || (s.provider.Some? && s.holds[k] <= s.provider.value))
  }

  lemma InitHasInv(s: State)
    requires Init(s)
    ensures Inv(s)
  {
    forall k ensures Covered(s, k) {
    }
  }

  // ----- What a step of one process leaves alone -----

  /** p may write this hold: it holds the key's lock, or the provider lock exclusively. */
  ghost predicate MayWriteHold(s: State, p: Pid, k: Key) {
    || s.writer == Some(p)
    || (p in s.readers && k in s.keyLocks && s.keyLocks[k] == p)
  }

  /** The other process q stands where it stood and holds the locks it held. */
  ghost predicate LocksFrame(s: State, s': State, q: Pid) {
    && At(s', q) == At(s, q)
    && (q in s'.readers <==> q in s.readers)
    && (s'.writer == Some(q) <==> s.writer == Some(q))
    && (s'.provLock == Some(q) <==> s.provLock == Some(q))
    && (forall k :: OwnsKey(s', q, k) <==> OwnsKey(s, q, k))
  }

  ghost predicate StoreFrame(s: State, s': State, p: Pid) {
    && s.now <= s'.now
    && (forall k | k in s.holds :: k in s'.holds && s.holds[k] <= s'.holds[k])
    && (forall k :: Lookup(s'.holds, k) == Lookup(s.holds, k) || MayWriteHold(s, p, k))
    && (s.provider.Some? ==> s'.provider.Some? && s.provider.value <= s'.provider.value)
    && (s'.provider == s.provider || s.provLock == Some(p))
    && (forall cred | cred in s.bindings :: cred in s'.bindings && s'.bindings[cred].id == s.bindings[cred].id)
    && (s'.bindings == s.bindings || s.writer == Some(p))
    && (forall cred | cred in s.bindings :: Lookup(s'.holds, Legacy(cred)) == Lookup(s.holds, Legacy(cred)))
    && (s'.cut == s.cut || s.writer == Some(p) || p in s.readers)
  }

  ghost predicate LogFrame(s: State, s': State, p: Pid) {
    && |s.log| <= |s'.log|
    && (forall i | 0 <= i < |s.log| :: s'.log[i] == s.log[i] || s'.log[i] == s.log[i].(paced := true))
    && (forall i | 0 <= i < |s'.log| :: (i < |s.log| && s'.log[i] == s.log[i]) || OwnsKey(s, p, s'.log[i].key))
  }

  lemma ReleaseFrame(s: State, p: Pid, q: Pid)
    requires p != q
    ensures LocksFrame(s, Release(s, p), q)
  {
    forall k ensures OwnsKey(Release(s, p), q, k) <==> OwnsKey(s, q, k) {
    }
  }

  lemma GotoFrame(s: State, p: Pid, pc: Pc, q: Pid)
    requires p != q
    ensures LocksFrame(s, Goto(s, p, pc), q)
  {
  }

  lemma LockHasLocksFrame(s: State, p: Pid, q: Pid)
    requires p != q && CanAdvance(s, p)
    ensures LocksFrame(s, LockStep(s, p), q)
  {
  }

  lemma WaitHasLocksFrame(s: State, p: Pid, q: Pid)
    requires p != q
    ensures LocksFrame(s, WaitStep(s, p), q)
  {
    match WaitTo(s, p) {
      case None => ReleaseFrame(s, p, q);
      case Some(pc) => GotoFrame(s, p, pc, q);
    }
  }

  lemma SaveHasLocksFrame(s: State, p: Pid, q: Pid)
    requires p != q
    ensures LocksFrame(s, HoldStep(s, p), q)
  {
  }

  lemma CopyHasLocksFrame(s: State, p: Pid, q: Pid)
    requires p != q && LocksOk(s, p) && CanAdvance(s, p)
    ensures LocksFrame(s, CopyStep(s, p), q)
  {
  }

  lemma SendHasLocksFrame(s: State, p: Pid, q: Pid)
    requires p != q
    ensures LocksFrame(s, SendStep(s, p), q)
  {
  }

  lemma MigrateHasLocksFrame(s: State, p: Pid, q: Pid)
    requires p != q
    ensures LocksFrame(s, MigrateStep(s, p), q)
  {
    var a := At(s, p);
    if a.pc.BindPut? {
      ReleaseFrame(s.(bindings := s.bindings[a.cred := Binding(a.pc.id, true)]), p, q);
    }
  }

  lemma StepHasLocksFrame(s: State, e: Event, q: Pid)
    requires Inv(s) && Enabled(s, e) && (e.Tick? || e.pid != q)
    ensures LocksFrame(s, Step(s, e), q)
  {
    match e {
      case Advance(p) =>
        assert ActorOk(s, p);
        LockHasLocksFrame(s, p, q);
        WaitHasLocksFrame(s, p, q);
        SaveHasLocksFrame(s, p, q);
        CopyHasLocksFrame(s, p, q);
        SendHasLocksFrame(s, p, q);
        MigrateHasLocksFrame(s, p, q);
      case Finish(p, _) => ReleaseFrame(s, p, q);
      case Abort(p) =>
        ReleaseFrame(s, p, q);
        if CopyingToProvider(At(s, p).pc) {
          ReleaseFrame(s.(cut := s.cut + {SavedKey(s, p, At(s, p).pc.why)}), p, q);
        }
      case _ =>
    }
  }

  ghost predicate SameStore(s: State, s': State) {
    s'.now == s.now && s'.holds == s.holds && s'.provider == s.provider && s'.bindings == s.bindings && s'.cut == s.cut
  }

  lemma SaveHasStoreFrame(s: State, p: Pid)
    requires ActorOk(s, p) && Saving(At(s, p).pc)
    ensures StoreFrame(s, HoldStep(s, p), p)
  {
    var s' := HoldStep(s, p);
    if At(s, p).pc.SavePut? {
      assert s'.holds == s.holds[At(s, p).locked := At(s, p).pc.until];
    } else {
      assert s'.holds == s.holds;
    }
  }

  lemma CopyHasStoreFrame(s: State, p: Pid)
    requires ActorOk(s, p) && CopyingToProvider(At(s, p).pc)
    ensures StoreFrame(s, CopyStep(s, p), p)
  {
    assert CopyStep(s, p).holds == s.holds;
  }

  lemma MigratePutHasStoreFrame(s: State, p: Pid)
    requires ActorOk(s, p) && At(s, p).pc.MigratePut?
    ensures StoreFrame(s, MigrateStep(s, p), p)
  {
    assert MigrateStep(s, p).holds == s.holds[Principal(At(s, p).pc.id) := At(s, p).pc.legacy];
  }

  lemma BindHasStoreFrame(s: State, p: Pid)
    requires ActorOk(s, p) && At(s, p).pc.BindPut?
    ensures StoreFrame(s, MigrateStep(s, p), p)
  {
    assert MigrateStep(s, p).bindings == s.bindings[At(s, p).cred := Binding(At(s, p).pc.id, true)];
  }

  lemma MigrateHasStoreFrame(s: State, p: Pid)
    requires ActorOk(s, p) && Migrating(At(s, p).pc)
    ensures StoreFrame(s, MigrateStep(s, p), p)
  {
    if At(s, p).pc.MigratePut? {
      MigratePutHasStoreFrame(s, p);
    } else if At(s, p).pc.BindPut? {
      BindHasStoreFrame(s, p);
    } else {
      assert SameStore(s, MigrateStep(s, p));
    }
  }

  lemma LockHasSameStore(s: State, p: Pid)
    ensures SameStore(s, LockStep(s, p)) && LockStep(s, p).log == s.log
  {
  }

  lemma WaitHasSameStore(s: State, p: Pid)
    ensures SameStore(s, WaitStep(s, p)) && WaitStep(s, p).log == s.log
  {
  }

  lemma SendHasSameStore(s: State, p: Pid)
    ensures SameStore(s, SendStep(s, p))
  {
  }

  lemma AdvanceHasStoreFrame(s: State, p: Pid)
    requires ActorOk(s, p)
    ensures StoreFrame(s, AdvanceStep(s, p), p)
  {
    var pc := At(s, p).pc;
    if Saving(pc) {
      SaveHasStoreFrame(s, p);
    } else if CopyingToProvider(pc) {
      CopyHasStoreFrame(s, p);
    } else if Migrating(pc) {
      MigrateHasStoreFrame(s, p);
    } else {
      LockHasSameStore(s, p);
      WaitHasSameStore(s, p);
      SendHasSameStore(s, p);
    }
  }

  lemma OthersHaveStoreFrame(s: State, e: Event)
    requires Enabled(s, e) && !e.Tick? && !e.Advance? && LocksOk(s, e.pid)
    ensures StoreFrame(s, Step(s, e), e.pid)
  {
    var s' := Step(s, e);
    assert s'.holds == s.holds && s'.provider == s.provider && s'.bindings == s.bindings;
  }

  lemma StepHasStoreFrame(s: State, e: Event)
    requires Inv(s) && Enabled(s, e) && !e.Tick?
    ensures StoreFrame(s, Step(s, e), e.pid)
  {
    assert ActorOk(s, e.pid);
    if e.Advance? {
      AdvanceHasStoreFrame(s, e.pid);
    } else {
      OthersHaveStoreFrame(s, e);
    }
  }

  lemma SaveHasLogFrame(s: State, p: Pid)
    requires ActorOk(s, p) && Saving(At(s, p).pc)
    ensures LogFrame(s, HoldStep(s, p), p)
  {
    var s' := HoldStep(s, p);
    if !At(s, p).pc.SavePut? { assert s'.log == s.log; }
  }

  lemma SendHasLogFrame(s: State, p: Pid)
    requires ActorOk(s, p) && (At(s, p).pc.Send? || At(s, p).pc.Sent?)
    ensures LogFrame(s, SendStep(s, p), p)
  {
  }

  lemma CopyAndMigrateHaveSameLog(s: State, p: Pid)
    ensures CopyStep(s, p).log == s.log && MigrateStep(s, p).log == s.log
  {
  }

  lemma AdvanceHasLogFrame(s: State, p: Pid)
    requires ActorOk(s, p)
    ensures LogFrame(s, AdvanceStep(s, p), p)
  {
    var pc := At(s, p).pc;
    if Saving(pc) {
      SaveHasLogFrame(s, p);
    } else if pc.Send? || pc.Sent? {
      SendHasLogFrame(s, p);
    } else {
      LockHasSameStore(s, p);
      WaitHasSameStore(s, p);
      CopyAndMigrateHaveSameLog(s, p);
    }
  }

  lemma StepHasLogFrame(s: State, e: Event)
    requires Inv(s) && Enabled(s, e) && !e.Tick?
    ensures LogFrame(s, Step(s, e), e.pid)
  {
    assert ActorOk(s, e.pid);
    if e.Advance? {
      AdvanceHasLogFrame(s, e.pid);
    } else {
      assert Step(s, e).log == s.log;
    }
  }

  // ----- Other processes keep their invariant -----

  lemma FrameKeepsLocks(s: State, s': State, p: Pid, q: Pid)
    requires p != q && ActorOk(s, q) && ProviderLockOk(s)
    requires LocksFrame(s, s', q) && StoreFrame(s, s', p)
    ensures LocksOk(s', q)
    ensures At(s, q).cred in s.bindings || InProvider(At(s, q).pc) ==> KeyOf(s', q) == KeyOf(s, q)
  {
    assert OwnsKey(s', q, At(s, q).locked) <==> OwnsKey(s, q, At(s, q).locked);
  }

  /** p cannot write what q holds the right to write. */
  lemma HoldsApart(s: State, s': State, p: Pid, q: Pid, k: Key)
    requires p != q && ActorOk(s, q) && ProviderLockOk(s) && StoreFrame(s, s', p)
    requires s.writer == Some(q) || (q in s.readers && OwnsKey(s, q, k))
    ensures Lookup(s'.holds, k) == Lookup(s.holds, k)
  {
    assert !MayWriteHold(s, p, k);
  }

  lemma FrameKeepsValues(s: State, s': State, p: Pid, q: Pid)
    requires p != q && ActorOk(s, q) && ProviderLockOk(s)
    requires LocksFrame(s, s', q) && StoreFrame(s, s', p)
    ensures ValuesOk(s', q)
  {
    var a := At(s, q);
    FrameKeepsLocks(s, s', p, q);
    if Keyed(a.pc) {
      HoldsApart(s, s', p, q, a.locked);
    } else if ExclusiveOnly(a.pc) {
      forall k ensures Lookup(s'.holds, k) == Lookup(s.holds, k) {
        HoldsApart(s, s', p, q, k);
      }
      if a.pc.MigratePut? { assert Lookup(s'.holds, Principal(a.pc.id)) == Lookup(s.holds, Principal(a.pc.id)); }
      forall id | LegacyMerged(s.holds, a.cred, id) ensures LegacyMerged(s'.holds, a.cred, id) {
        assert Lookup(s'.holds, Legacy(a.cred)) == Lookup(s.holds, Legacy(a.cred));
        assert Lookup(s'.holds, Principal(id)) == Lookup(s.holds, Principal(id));
      }
    }
  }

  lemma FrameKeepsLookup(s: State, s': State, p: Pid, q: Pid)
    requires p != q && ActorOk(s, q) && ProviderLockOk(s)
    requires LocksFrame(s, s', q) && StoreFrame(s, s', p)
    ensures LookupOk(s', q) && SameAccount(s', q)
  {
    var a := At(s, q);
    FrameKeepsLocks(s, s', p, q);
    if a.lookup && InProvider(a.pc) {
      forall k ensures Lookup(s'.holds, k) == Lookup(s.holds, k) {
        HoldsApart(s, s', p, q, k);
      }
      forall k ensures ExpiredBy(s, k, s.now) ==> ExpiredBy(s', k, s'.now) {
        assert Lookup(s'.holds, k) == Lookup(s.holds, k);
      }
      if a.pc.ProviderSleep? {
        var t, t' := if s.now < a.pc.wake then a.pc.wake else s.now, if s'.now < a.pc.wake then a.pc.wake else s'.now;
        forall k ensures ExpiredBy(s', k, t') {
          assert ExpiredBy(s, k, t) && Lookup(s'.holds, k) == Lookup(s.holds, k);
        }
      } else if Cleared(a.pc) {
        forall k | k != KeyOf(s', q) ensures ExpiredBy(s', k, s'.now) {
          assert ExpiredBy(s, k, s.now);
        }
      }
    }
  }

  lemma FrameKeepsPacing(s: State, s': State, p: Pid, q: Pid)
    requires p != q && ActorOk(s, q) && ProviderLockOk(s)
    requires LocksFrame(s, s', q) && StoreFrame(s, s', p) && LogFrame(s, s', p)
    ensures PacingOk(s', q)
  {
    var a := At(s, q);
    if Keyed(a.pc) {
      HoldsApart(s, s', p, q, a.locked);
      assert OwnsKey(s, q, a.locked);
      forall i | 0 <= i < |s'.log| && s'.log[i].key == a.locked ensures i < |s.log| && s'.log[i] == s.log[i] {
      }
    }
  }

  lemma FrameKeepsActor(s: State, s': State, p: Pid, q: Pid)
    requires p != q && ActorOk(s, q) && ProviderLockOk(s)
    requires LocksFrame(s, s', q) && StoreFrame(s, s', p) && LogFrame(s, s', p)
    ensures ActorOk(s', q)
  {
    FrameKeepsLocks(s, s', p, q);
    FrameKeepsValues(s, s', p, q);
    FrameKeepsLookup(s, s', p, q);
    FrameKeepsPacing(s, s', p, q);
  }

  // ----- The moving process keeps its own invariant -----

  lemma ReleasedOk(s: State, p: Pid)
    requires AttemptsOk(At(s, p))
    ensures ActorOk(Release(s, p), p)
  {
    forall k ensures !OwnsKey(Release(s, p), p, k) {
    }
  }

  /** While p holds the provider lock exclusively, nobody else is between a hold and its copy. */
  lemma WriterIsAlone(s: State, p: Pid, q: Pid)
    requires Inv(s) && s.writer == Some(p) && q != p
    ensures !InProvider(At(s, q).pc)
  {
    assert ActorOk(s, q);
  }

  /** Under the exclusive lock, the provider's hold covers every hold that is not cut. */
  lemma ProviderDominates(s: State, p: Pid, k: Key)
    requires Inv(s) && s.writer == Some(p) && !CopyingToProvider(At(s, p).pc)
    ensures k in s.holds && k !in s.cut ==>
      s.holds[k] <= s.now || (s.provider.Some? && s.holds[k] <= s.provider.value)
  {
    assert Covered(s, k);
    forall q | Copying(s, q, k) ensures false {
      WriterIsAlone(s, p, q);
    }
  }

  /** Once the stored hold of a key is over, so is the pause after every send under that key. */
  lemma PausesOver(s: State, k: Key)
    requires forall i | 0 <= i < |s.log| :: RecordKept(s, s.log[i])
    requires k in s.holds ==> s.holds[k] <= s.now
    ensures forall i | 0 <= i < |s.log| && s.log[i].key == k :: PauseOver(s.log[i], s.now)
  {
    forall i | 0 <= i < |s.log| && s.log[i].key == k ensures PauseOver(s.log[i], s.now) {
      assert RecordKept(s, s.log[i]);
    }
  }

  lemma LockKeepsActor(s: State, p: Pid)
    requires ActorOk(s, p) && CanAdvance(s, p) && Locking(At(s, p).pc)
    ensures ActorOk(LockStep(s, p), p)
  {
    if At(s, p).pc.WantKey? {
      KeyLockKeepsActor(s, p);
    } else {
      ProviderLockKeepsActor(s, p);
    }
  }

  lemma KeyLockKeepsActor(s: State, p: Pid)
    requires ActorOk(s, p) && CanAdvance(s, p) && At(s, p).pc.WantKey?
    ensures ActorOk(LockStep(s, p), p)
  {
    var s' := LockStep(s, p);
    assert OwnsKey(s', p, KeyOf(s, p));
    forall k | k != KeyOf(s', p) && At(s, p).lookup ensures ExpiredBy(s', k, s'.now) {
      assert ExpiredBy(s, k, s.now);
    }
  }

  lemma ProviderLockKeepsActor(s: State, p: Pid)
    requires ActorOk(s, p) && CanAdvance(s, p) && (At(s, p).pc.WantShared? || At(s, p).pc.WantExclusive?)
    ensures ActorOk(LockStep(s, p), p)
  {
    forall k ensures !OwnsKey(LockStep(s, p), p, k) {
      assert !OwnsKey(s, p, k);
    }
  }

  lemma GotoKeepsLocks(s: State, p: Pid, pc: Pc)
    requires LocksOk(s, p) && InProvider(At(s, p).pc) && InProvider(pc)
    requires Keyed(pc) ==> Keyed(At(s, p).pc)
    requires ExclusiveOnly(pc) ==> ExclusiveOnly(At(s, p).pc)
    requires pc.WantKey? ==> ExclusiveOnly(At(s, p).pc)
    requires !pc.ProvRead? && !pc.ProvPut?
    ensures LocksOk(Goto(s, p, pc), p)
  {
    var s' := Goto(s, p, pc);
    forall k ensures OwnsKey(s', p, k) == OwnsKey(s, p, k) {
    }
  }

  /** Under the exclusive lock: the second look at the binding, and the provider's hold. */
  lemma ProviderWaitKeepsActor(s: State, p: Pid, pc: Pc)
    requires Inv(s) && CanAdvance(s, p) && WaitTo(s, p) == Some(pc)
    requires At(s, p).pc.Recheck? || At(s, p).pc.ReadProvider? || At(s, p).pc.ProviderSleep?
    ensures ActorOk(Goto(s, p, pc), p)
  {
    assert ActorOk(s, p);
    GotoKeepsLocks(s, p, pc);
    if At(s, p).pc.ReadProvider? {
      var t := Later(s.now, s.provider);
      forall k ensures ExpiredBy(Goto(s, p, pc), k, t) {
        ProviderDominates(s, p, k);
      }
    } else {
      forall k ensures ExpiredBy(Goto(s, p, pc), k, s.now) == ExpiredBy(s, k, s.now) {
      }
    }
  }

  lemma HoldWaitKeepsActor(s: State, p: Pid, pc: Pc)
    requires Inv(s) && CanAdvance(s, p) && WaitTo(s, p) == Some(pc) && (At(s, p).pc.ReadHold? || At(s, p).pc.HoldSleep?)
    ensures ActorOk(Goto(s, p, pc), p)
  {
    assert ActorOk(s, p);
    GotoKeepsLocks(s, p, pc);
    forall k ensures ExpiredBy(Goto(s, p, pc), k, s.now) == ExpiredBy(s, k, s.now) {
    }
    if pc.SaveRead? { PausesOver(s, At(s, p).locked); }
  }

  predicate Waiting(pc: Pc) {
    pc.Recheck? || pc.ReadProvider? || pc.ProviderSleep? || pc.ReadHold? || pc.HoldSleep?
  }

  lemma WaitKeepsActor(s: State, p: Pid)
    requires Inv(s) && CanAdvance(s, p) && Waiting(At(s, p).pc)
    ensures ActorOk(WaitStep(s, p), p)
  {
    match WaitTo(s, p) {
      case None =>
        assert ActorOk(s, p);
        ReleasedOk(s, p);
      case Some(pc) =>
        if At(s, p).pc.ReadHold? || At(s, p).pc.HoldSleep? {
          HoldWaitKeepsActor(s, p, pc);
        } else {
          ProviderWaitKeepsActor(s, p, pc);
        }
    }
  }

  lemma SameOwnedKeys(s: State, s': State, p: Pid)
    requires s'.keyLocks == s.keyLocks
    ensures forall k :: OwnsKey(s', p, k) == OwnsKey(s, p, k)
  {
  }

  lemma NothingToSaveKeepsActor(s: State, p: Pid)
    requires ActorOk(s, p) && At(s, p).pc.SaveRead? && At(s, p).pc.delay <= 0
    ensures ActorOk(HoldStep(s, p), p)
  {
    var s' := HoldStep(s, p);
    SameOwnedKeys(s, s', p);
    forall k ensures ExpiredBy(s', k, s'.now) == ExpiredBy(s, k, s.now) {
    }
  }

  lemma SaveReadKeepsLocks(s: State, p: Pid)
    requires LocksOk(s, p) && ValuesOk(s, p) && At(s, p).pc.SaveRead? && At(s, p).pc.delay > 0
    ensures LocksOk(HoldStep(s, p), p)
  {
    SameOwnedKeys(s, HoldStep(s, p), p);
  }

  lemma SaveReadKeepsActor(s: State, p: Pid)
    requires ActorOk(s, p) && At(s, p).pc.SaveRead? && At(s, p).pc.delay > 0
    ensures ActorOk(HoldStep(s, p), p)
  {
    var s' := HoldStep(s, p);
    SaveReadKeepsLocks(s, p);
    forall k ensures ExpiredBy(s', k, s'.now) == ExpiredBy(s, k, s.now) {
    }
  }

  lemma SavePutKeepsActor(s: State, p: Pid)
    requires ActorOk(s, p) && At(s, p).pc.SavePut?
    ensures ActorOk(HoldStep(s, p), p)
  {
    var s' := HoldStep(s, p);
    SameOwnedKeys(s, s', p);
    if At(s, p).lookup {
      forall k | k != KeyOf(s', p) ensures ExpiredBy(s', k, s'.now) {
        assert ExpiredBy(s, k, s.now);
      }
    }
  }

  /** A finished save leaves what its continuation needs. */
  lemma AfterSaveOk(s: State, p: Pid, why: Why, until: int)
    requires ActorOk(s, p) && At(s, p).pc == ProvStart(why, until)
    ensures ActorOk(Goto(s, p, AfterSave(why)), p)
  {
    var s' := Goto(s, p, AfterSave(why));
    SameOwnedKeys(s, s', p);
    forall k ensures ExpiredBy(s', k, s'.now) == ExpiredBy(s, k, s.now) {
    }
  }

  lemma CopyStartKeepsActor(s: State, p: Pid)
    requires ActorOk(s, p) && At(s, p).pc.ProvStart?
    ensures ActorOk(CopyStep(s, p), p)
  {
    var pc := At(s, p).pc;
    var s' := CopyStep(s, p);
    if pc.until <= s.now {
      AfterSaveOk(s, p, pc.why, pc.until);
    } else {
      SameOwnedKeys(s, s', p);
      forall k ensures ExpiredBy(s', k, s'.now) == ExpiredBy(s, k, s.now) {
      }
    }
  }

  lemma CopyLockKeepsActor(s: State, p: Pid)
    requires ActorOk(s, p) && At(s, p).pc.ProvWant?
    ensures ActorOk(CopyStep(s, p), p)
  {
    var s' := CopyStep(s, p);
    SameOwnedKeys(s, s', p);
    forall k ensures ExpiredBy(s', k, s'.now) == ExpiredBy(s, k, s.now) {
    }
  }

  lemma CopyReadKeepsLocks(s: State, p: Pid)
    requires LocksOk(s, p) && At(s, p).pc.ProvRead?
    ensures LocksOk(CopyStep(s, p), p)
  {
    SameOwnedKeys(s, CopyStep(s, p), p);
  }

  lemma CopyReadKeepsActor(s: State, p: Pid)
    requires ActorOk(s, p) && At(s, p).pc.ProvRead?
    ensures ActorOk(CopyStep(s, p), p)
  {
    var s' := CopyStep(s, p);
    CopyReadKeepsLocks(s, p);
    forall k ensures ExpiredBy(s', k, s'.now) == ExpiredBy(s, k, s.now) {
    }
  }

  /** The put, with the program point left where its copy began. */
  function CopyPutBefore(s: State, p: Pid): State
    requires At(s, p).pc.ProvPut?
  {
    var ProvPut(why, until, latest) := At(s, p).pc;
    Goto(s.(provider := Some(latest), provLock := None, cut := s.cut - {SavedKey(s, p, why)}), p, ProvStart(why, until))
  }

  lemma CopyPutBeforeOk(s: State, p: Pid)
    requires ActorOk(s, p) && At(s, p).pc.ProvPut?
    ensures ActorOk(CopyPutBefore(s, p), p)
  {
    var t := CopyPutBefore(s, p);
    SameOwnedKeys(s, t, p);
    if At(s, p).lookup && Cleared(At(t, p).pc) {
      forall k | k != KeyOf(t, p) ensures ExpiredBy(t, k, t.now) {
        assert ExpiredBy(s, k, s.now);
      }
    }
  }

  lemma CopyPutKeepsActor(s: State, p: Pid)
    requires ActorOk(s, p) && At(s, p).pc.ProvPut?
    ensures ActorOk(CopyStep(s, p), p)
  {
    var pc := At(s, p).pc;
    CopyPutBeforeOk(s, p);
    AfterSaveOk(CopyPutBefore(s, p), p, pc.why, pc.until);
    assert Goto(CopyPutBefore(s, p), p, AfterSave(pc.why)).actors == CopyStep(s, p).actors;
  }

  lemma CopyStepKeepsActor(s: State, p: Pid)
    requires ActorOk(s, p) && CanAdvance(s, p) && CopyingToProvider(At(s, p).pc)
    ensures ActorOk(CopyStep(s, p), p)
  {
    if At(s, p).pc.ProvPut? {
      CopyPutKeepsActor(s, p);
    } else if At(s, p).pc.ProvStart? {
      CopyStartKeepsActor(s, p);
    } else if At(s, p).pc.ProvWant? {
      CopyLockKeepsActor(s, p);
    } else {
      CopyReadKeepsActor(s, p);
    }
  }

  lemma SendKeepsActor(s: State, p: Pid)
    requires ActorOk(s, p) && At(s, p).pc.Send?
    ensures ActorOk(SendStep(s, p), p)
  {
    var s' := SendStep(s, p);
    SameOwnedKeys(s, s', p);
    forall k ensures ExpiredBy(s', k, s'.now) == ExpiredBy(s, k, s.now) {
    }
  }

  lemma PauseOverKeepsActor(s: State, p: Pid)
    requires ActorOk(s, p) && At(s, p).pc.Sent? && At(SendStep(s, p), p).pc.Responded?
    ensures ActorOk(SendStep(s, p), p)
  {
    var paced := s.(log := Paced(s.log, At(s, p).sendNo));
    assert LocksOk(paced, p) by { SameOwnedKeys(s, paced, p); }
    GotoKeepsLocks(paced, p, Responded);
    forall k ensures ExpiredBy(SendStep(s, p), k, s.now) == ExpiredBy(s, k, s.now) {
    }
  }

  lemma PauseLeftKeepsActor(s: State, p: Pid)
    requires ActorOk(s, p) && At(s, p).pc.Sent? && At(SendStep(s, p), p).pc.SaveRead?
    ensures ActorOk(SendStep(s, p), p)
  {
    GotoKeepsLocks(s, p, At(SendStep(s, p), p).pc);
    forall k ensures ExpiredBy(SendStep(s, p), k, s.now) == ExpiredBy(s, k, s.now) {
    }
  }

  lemma FinishPacingKeepsActor(s: State, p: Pid)
    requires ActorOk(s, p) && At(s, p).pc.Sent?
    ensures ActorOk(SendStep(s, p), p)
  {
    if At(SendStep(s, p), p).pc.Responded? {
      PauseOverKeepsActor(s, p);
    } else {
      PauseLeftKeepsActor(s, p);
    }
  }

  lemma BindKeepsActor(s: State, p: Pid)
    requires ActorOk(s, p) && At(s, p).pc.BindPut?
    ensures ActorOk(MigrateStep(s, p), p)
  {
    var a := At(s, p);
    ReleasedOk(s.(bindings := s.bindings[a.cred := Binding(a.pc.id, true)]), p);
  }

  lemma MigratePutKeepsActor(s: State, p: Pid)
    requires ActorOk(s, p) && At(s, p).pc.MigratePut?
    ensures ActorOk(MigrateStep(s, p), p)
  {
    SameOwnedKeys(s, MigrateStep(s, p), p);
  }

  lemma MigratesOn(s: State, p: Pid, pc: Pc)
    requires ActorOk(s, p) && Migrating(At(s, p).pc) && Migrating(pc)
    requires ValuesOk(Goto(s, p, pc), p) && SameAccount(Goto(s, p, pc), p)
    ensures ActorOk(Goto(s, p, pc), p)
  {
    GotoKeepsLocks(s, p, pc);
  }

  lemma MigrateReadsLegacy(s: State, p: Pid)
    requires ActorOk(s, p) && At(s, p).pc.MigrateReadLegacy?
    ensures ActorOk(MigrateStep(s, p), p)
  {
    var a := At(s, p);
    if Legacy(a.cred) in s.holds {
      MigratesOn(s, p, MigrateReadPrincipal(a.pc.id, s.holds[Legacy(a.cred)]));
    } else {
      MigratesOn(s, p, BindPut(a.pc.id));
    }
  }

  lemma MigrateReadsPrincipal(s: State, p: Pid)
    requires ActorOk(s, p) && At(s, p).pc.MigrateReadPrincipal?
    ensures ActorOk(MigrateStep(s, p), p)
  {
    var MigrateReadPrincipal(id, legacy) := At(s, p).pc;
    if Principal(id) in s.holds && legacy <= s.holds[Principal(id)] {
      MigratesOn(s, p, BindPut(id));
    } else {
      MigratesOn(s, p, MigratePut(id, legacy));
    }
  }

  lemma MigrateKeepsActor(s: State, p: Pid)
    requires ActorOk(s, p) && Migrating(At(s, p).pc)
    ensures ActorOk(MigrateStep(s, p), p)
  {
    var pc := At(s, p).pc;
    if pc.BindPut? {
      BindKeepsActor(s, p);
    } else if pc.MigratePut? {
      MigratePutKeepsActor(s, p);
    } else if pc.MigrateReadLegacy? {
      MigrateReadsLegacy(s, p);
    } else {
      MigrateReadsPrincipal(s, p);
    }
  }

  lemma BeginKeepsActor(s: State, e: Event)
    requires Enabled(s, e) && e.Begin? && ActorOk(s, e.pid)
    ensures ActorOk(Step(s, e), e.pid)
  {
    forall k ensures !OwnsKey(Step(s, e), e.pid, k) {
      assert !OwnsKey(s, e.pid, k);
    }
  }

  lemma SaveExtraKeepsActor(s: State, e: Event)
    requires Enabled(s, e) && e.SaveExtra? && ActorOk(s, e.pid)
    ensures ActorOk(Step(s, e), e.pid)
  {
    var s' := Step(s, e);
    SameOwnedKeys(s, s', e.pid);
    forall k ensures ExpiredBy(s', k, s'.now) == ExpiredBy(s, k, s.now) {
    }
  }

  lemma RetryKeepsActor(s: State, e: Event)
    requires Enabled(s, e) && e.Retry? && ActorOk(s, e.pid)
    ensures ActorOk(Step(s, e), e.pid)
  {
    var s' := Step(s, e);
    SameOwnedKeys(s, s', e.pid);
    forall k ensures ExpiredBy(s', k, s'.now) == ExpiredBy(s, k, s.now) {
    }
  }

  lemma FinishKeepsActor(s: State, e: Event)
    requires Enabled(s, e) && e.Finish? && ActorOk(s, e.pid)
    ensures ActorOk(Step(s, e), e.pid)
  {
    ReleasedOk(s, e.pid);
    var s' := Step(s, e);
    if !At(s', e.pid).pc.Idle? {
      forall k ensures !OwnsKey(s', e.pid, k) {
      }
    }
  }

  lemma AbortKeepsActor(s: State, e: Event)
    requires e.Abort? && ActorOk(s, e.pid)
    ensures ActorOk(Step(s, e), e.pid)
  {
    var pc := At(s, e.pid).pc;
    ReleasedOk(if CopyingToProvider(pc) then s.(cut := s.cut + {SavedKey(s, e.pid, pc.why)}) else s, e.pid);
  }

  lemma StepKeepsMover(s: State, e: Event)
    requires Inv(s) && Enabled(s, e) && !e.Tick?
    ensures ActorOk(Step(s, e), e.pid)
  {
    assert ActorOk(s, e.pid);
    match e {
      case Begin(_, _, _, _) => BeginKeepsActor(s, e);
      case Finish(_, _) => FinishKeepsActor(s, e);
      case Abort(_) => AbortKeepsActor(s, e);
      case SaveExtra(_, _) => SaveExtraKeepsActor(s, e);
      case Retry(_) => RetryKeepsActor(s, e);
      case Advance(p) =>
        var pc := At(s, p).pc;
        if Locking(pc) { LockKeepsActor(s, p); }
        else if pc.SaveRead? && pc.delay <= 0 { NothingToSaveKeepsActor(s, p); }
        else if pc.SaveRead? { SaveReadKeepsActor(s, p); }
        else if pc.SavePut? { SavePutKeepsActor(s, p); }
        else if CopyingToProvider(pc) { CopyStepKeepsActor(s, p); }
        else if Migrating(pc) { MigrateKeepsActor(s, p); }
        else if pc.Send? { SendKeepsActor(s, p); }
        else if pc.Sent? { FinishPacingKeepsActor(s, p); }
        else { WaitKeepsActor(s, p); }
    }
  }

  // ----- The shared facts -----

  /** A process comes under the provider lock only when nobody excludes it. */
  lemma EntersWhenFree(s: State, e: Event)
    requires Enabled(s, e) && !e.Tick? && LocksOk(s, e.pid)
    requires !InProvider(At(s, e.pid).pc) && InProvider(At(Step(s, e), e.pid).pc)
    ensures s.writer.None? && (At(Step(s, e), e.pid).lookup ==> s.readers == {})
  {
  }

  lemma LocksAndWaitsKeepTheSide(s: State, p: Pid)
    ensures At(LockStep(s, p), p).lookup == At(s, p).lookup && At(WaitStep(s, p), p).lookup == At(s, p).lookup
  {
  }

  lemma SavesKeepTheSide(s: State, p: Pid)
    ensures At(HoldStep(s, p), p).lookup == At(s, p).lookup
  {
  }

  lemma CopiesKeepTheSide(s: State, p: Pid)
    ensures At(CopyStep(s, p), p).lookup == At(s, p).lookup
  {
  }

  lemma SendsKeepTheSide(s: State, p: Pid)
    ensures At(SendStep(s, p), p).lookup == At(s, p).lookup
  {
  }

  lemma MigrationKeepsTheSide(s: State, p: Pid)
    ensures At(MigrateStep(s, p), p).lookup == At(s, p).lookup
  {
  }

  lemma AdvanceStaysOnItsSide(s: State, p: Pid)
    ensures At(AdvanceStep(s, p), p).lookup == At(s, p).lookup
  {
    LocksAndWaitsKeepTheSide(s, p);
    SavesKeepTheSide(s, p);
    CopiesKeepTheSide(s, p);
    SendsKeepTheSide(s, p);
    MigrationKeepsTheSide(s, p);
  }

  lemma StaysOnItsSide(s: State, e: Event)
    requires Enabled(s, e) && !e.Tick? && !e.Begin?
    ensures At(Step(s, e), e.pid).lookup == At(s, e.pid).lookup
  {
    if e.Advance? { AdvanceStaysOnItsSide(s, e.pid); }
  }

  lemma OneMovesUnderTheLock(s: State, s': State, p: Pid)
    requires ProviderLockOk(s) && LocksOk(s, p) && LocksOk(s', p)
    requires forall q | q != p ::
               (q in s'.readers <==> q in s.readers) && (s'.writer == Some(q) <==> s.writer == Some(q))
    requires InProvider(At(s, p).pc) && InProvider(At(s', p).pc) ==> At(s', p).lookup == At(s, p).lookup
    requires !InProvider(At(s, p).pc) && InProvider(At(s', p).pc) ==>
          s.writer.None? && (At(s', p).lookup ==> s.readers == {})
    ensures ProviderLockOk(s')
  {
    if s'.writer.Some? {
      forall q ensures q !in s'.readers {
        if s'.writer.value != p { assert s.writer == Some(s'.writer.value); }
      }
    }
  }

  lemma StepKeepsProviderLock(s: State, e: Event)
    requires Inv(s) && Enabled(s, e) && !e.Tick?
    ensures ProviderLockOk(Step(s, e))
  {
    var s' := Step(s, e);
    var p := e.pid;
    StepKeepsMover(s, e);
    assert ActorOk(s, p) && ActorOk(s', p);
    forall q | q != p
      ensures (q in s'.readers <==> q in s.readers) && (s'.writer == Some(q) <==> s.writer == Some(q))
    {
      StepHasLocksFrame(s, e, q);
    }
    if InProvider(At(s', p).pc) {
      if !InProvider(At(s, p).pc) { EntersWhenFree(s, e); } else if !e.Begin? { StaysOnItsSide(s, e); }
    }
    OneMovesUnderTheLock(s, s', p);
  }

  lemma MergedStays(s: State, s': State, p: Pid, cred: Cred)
    requires Inv(s) && StoreFrame(s, s', p)
    requires cred in s.bindings
    ensures LegacyMerged(s'.holds, cred, s'.bindings[cred].id)
  {
    assert LegacyMerged(s.holds, cred, s.bindings[cred].id);
    assert Lookup(s'.holds, Legacy(cred)) == Lookup(s.holds, Legacy(cred));
  }

  lemma StepKeepsMerged(s: State, e: Event, cred: Cred)
    requires Inv(s) && Enabled(s, e) && !e.Tick?
    requires cred in Step(s, e).bindings
    ensures LegacyMerged(Step(s, e).holds, cred, Step(s, e).bindings[cred].id)
  {
    StepHasStoreFrame(s, e);
    if cred in s.bindings {
      MergedStays(s, Step(s, e), e.pid, cred);
    } else {
      assert ActorOk(s, e.pid);
      OnlyBindPutBinds(s, e, cred);
    }
  }

  lemma SavesKeepBindings(s: State, p: Pid)
    ensures HoldStep(s, p).bindings == s.bindings && CopyStep(s, p).bindings == s.bindings
  {
  }

  lemma MigrationBinds(s: State, p: Pid, cred: Cred)
    requires cred !in s.bindings && cred in MigrateStep(s, p).bindings
    ensures At(s, p).pc.BindPut? && At(s, p).cred == cred
    ensures MigrateStep(s, p).bindings[cred].id == At(s, p).pc.id && MigrateStep(s, p).holds == s.holds
  {
  }

  lemma OnlyBindPutBinds(s: State, e: Event, cred: Cred)
    requires Enabled(s, e) && !e.Tick? && cred !in s.bindings && cred in Step(s, e).bindings
    ensures e.Advance? && At(s, e.pid).pc.BindPut? && At(s, e.pid).cred == cred
    ensures Step(s, e).bindings[cred].id == At(s, e.pid).pc.id && Step(s, e).holds == s.holds
  {
    if e.Advance? {
      if Migrating(At(s, e.pid).pc) {
        MigrationBinds(s, e.pid, cred);
      } else {
        LockHasSameStore(s, e.pid);
        WaitHasSameStore(s, e.pid);
        SendHasSameStore(s, e.pid);
        SavesKeepBindings(s, e.pid);
      }
    }
  }

  /** What a step does to the copy its process was making. */
  lemma OwnCopyIsCovered(s: State, e: Event, k: Key)
    requires Inv(s) && Enabled(s, e) && !e.Tick? && Copying(s, e.pid, k)
    ensures var s' := Step(s, e);
      k in s'.holds && (k in s'.cut || s'.holds[k] <= s'.now
        || (s'.provider.Some? && s'.holds[k] <= s'.provider.value) || Copying(s', e.pid, k))
  {
    assert ActorOk(s, e.pid);
    assert Lookup(s.holds, k).Some?;
  }

  ghost predicate WritesAreCopied(s: State, s': State, p: Pid, k: Key) {
    && (Lookup(s'.holds, k) != Lookup(s.holds, k) ==> Copying(s', p, k))
    && (k in s.cut && k !in s'.cut ==> Copying(s, p, k))
  }

  lemma SaveIsCopied(s: State, p: Pid, k: Key)
    requires Saving(At(s, p).pc) && ValuesOk(s, p)
    ensures WritesAreCopied(s, HoldStep(s, p), p, k)
  {
  }

  lemma CopyTakesItsCut(s: State, p: Pid, k: Key)
    requires CopyingToProvider(At(s, p).pc)
    ensures WritesAreCopied(s, CopyStep(s, p), p, k)
  {
  }

  lemma MigrationIsCopied(s: State, p: Pid, k: Key)
    requires Migrating(At(s, p).pc)
    ensures WritesAreCopied(s, MigrateStep(s, p), p, k)
  {
  }

  /** A hold a step writes starts its copy at once; a hold is taken off the cut ones only by its copy. */
  lemma WrittenHoldIsCopied(s: State, e: Event, k: Key)
    requires Inv(s) && Enabled(s, e) && !e.Tick?
    ensures WritesAreCopied(s, Step(s, e), e.pid, k)
  {
    var p := e.pid;
    if e.Advance? {
      var pc := At(s, p).pc;
      if Saving(pc) {
        assert ActorOk(s, p);
        SaveIsCopied(s, p, k);
      } else if CopyingToProvider(pc) {
        CopyTakesItsCut(s, p, k);
      } else if Migrating(pc) {
        MigrationIsCopied(s, p, k);
      } else {
        LockHasSameStore(s, p);
        WaitHasSameStore(s, p);
        SendHasSameStore(s, p);
      }
    } else {
      assert Step(s, e).holds == s.holds;
    }
  }

  lemma StepKeepsCovered(s: State, e: Event, k: Key)
    requires Inv(s) && Enabled(s, e) && !e.Tick?
    ensures Covered(Step(s, e), k)
  {
    var s' := Step(s, e);
    StepHasStoreFrame(s, e);
    WrittenHoldIsCopied(s, e, k);
    if Copying(s, e.pid, k) {
      OwnCopyIsCovered(s, e, k);
    } else if Lookup(s'.holds, k) == Lookup(s.holds, k) {
      assert Covered(s, k);
      forall q | q != e.pid && Copying(s, q, k) ensures Copying(s', q, k) {
        assert ActorOk(s, q);
        StepHasLocksFrame(s, e, q);
        FrameKeepsLocks(s, s', e.pid, q);
      }
    }
  }

  predicate MarksPaced(pc: Pc) {
    pc.Sent? || (pc.SavePut? && pc.why.Pace?)
  }

  /** The three things a step can do to the log. */
  ghost predicate LogMoves(s: State, s': State, p: Pid) {
    var a := At(s, p);
    || s'.log == s.log
    || (a.pc.Send? && s'.holds == s.holds && s'.now == s.now
        && s'.log == s.log + [SendRecord(KeyOf(s, p), a.reserved, s.now, a.spacing, false)])
    || (MarksPaced(a.pc) && s'.log == Paced(s.log, a.sendNo))
  }

  lemma SaveOnLog(s: State, p: Pid)
    requires Saving(At(s, p).pc)
    ensures LogMoves(s, HoldStep(s, p), p)
  {
  }

  lemma SendOnLog(s: State, p: Pid)
    requires At(s, p).pc.Send? || At(s, p).pc.Sent?
    ensures LogMoves(s, SendStep(s, p), p)
  {
  }

  lemma StepOnLog(s: State, e: Event)
    requires Enabled(s, e) && !e.Tick?
    ensures if e.Advance? then LogMoves(s, Step(s, e), e.pid) else Step(s, e).log == s.log
  {
    if e.Advance? {
      var pc := At(s, e.pid).pc;
      if Saving(pc) {
        SaveOnLog(s, e.pid);
      } else if pc.Send? || pc.Sent? {
        SendOnLog(s, e.pid);
      } else {
        LockHasSameStore(s, e.pid);
        WaitHasSameStore(s, e.pid);
        CopyAndMigrateHaveSameLog(s, e.pid);
      }
    }
  }

  /** When a send is marked paced, its pause is over or stored. */
  lemma MarkedIsKept(s: State, p: Pid)
    requires Inv(s) && MarksPaced(At(s, p).pc)
    ensures var s' := AdvanceStep(s, p); var n := At(s, p).sendNo;
      n < |s.log| && (s'.log == Paced(s.log, n) && s'.log != s.log ==> RecordKept(s', s'.log[n]))
  {
    assert ActorOk(s, p);
    assert RecordKept(s, s.log[At(s, p).sendNo]);
  }

  lemma StepKeepsRecord(s: State, e: Event, i: nat)
    requires Inv(s) && Enabled(s, e) && !e.Tick?
    requires i < |Step(s, e).log|
    ensures RecordKept(Step(s, e), Step(s, e).log[i])
  {
    var s' := Step(s, e);
    StepHasStoreFrame(s, e);
    StepOnLog(s, e);
    if i < |s.log| { assert RecordKept(s, s.log[i]); }
    if e.Advance? && MarksPaced(At(s, e.pid).pc) { MarkedIsKept(s, e.pid); }
    assert ActorOk(s, e.pid);
  }

  lemma StepKeepsLogSpaced(s: State, e: Event)
    requires Inv(s) && Enabled(s, e) && !e.Tick?
    ensures LogSpaced(Step(s, e))
  {
    StepOnLog(s, e);
    assert ActorOk(s, e.pid);
  }

  lemma TickKeepsInv(s: State)
    requires Inv(s)
    ensures Inv(Step(s, Tick))
  {
    var s' := Step(s, Tick);
    forall q: Pid ensures ActorOk(s', q) {
      assert ActorOk(s, q);
      FrameKeepsActor(s, s', q + 1, q);
    }
    forall k ensures Covered(s', k) {
      assert Covered(s, k);
      forall q | Copying(s, q, k) ensures Copying(s', q, k) {
      }
    }
    forall i | 0 <= i < |s'.log| ensures RecordKept(s', s'.log[i]) {
      assert RecordKept(s, s.log[i]);
    }
  }

  lemma StepKeepsInv(s: State, e: Event)
    requires Inv(s) && Enabled(s, e)
    ensures Inv(Step(s, e))
  {
    if e.Tick? {
      TickKeepsInv(s);
    } else {
      var s' := Step(s, e);
      StepKeepsProviderLock(s, e);
      StepHasStoreFrame(s, e);
      StepHasLogFrame(s, e);
      forall q ensures ActorOk(s', q) {
        if q == e.pid {
          StepKeepsMover(s, e);
        } else {
          StepHasLocksFrame(s, e, q);
          FrameKeepsActor(s, s', e.pid, q);
        }
      }
      forall cred | cred in s'.bindings ensures LegacyMerged(s'.holds, cred, s'.bindings[cred].id) {
        StepKeepsMerged(s, e, cred);
      }
      forall k ensures Covered(s', k) {
        StepKeepsCovered(s, e, k);
      }
      forall i | 0 <= i < |s'.log| ensures RecordKept(s', s'.log[i]) {
        StepKeepsRecord(s, e, i);
      }
      StepKeepsLogSpaced(s, e);
    }
  }

  lemma {:induction false} RunKeepsInv(s: State, events: seq<Event>)
    requires Inv(s) && IsRun(s, events)
    ensures Inv(Run(s, events))
    decreases |events|
  {
    if events != [] {
      StepKeepsInv(s, events[0]);
      RunKeepsInv(Step(s, events[0]), events[1..]);
    }
  }
}
