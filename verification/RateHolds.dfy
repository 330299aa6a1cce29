/**
Rate holds and account identities shared by every process that calls one provider
(internal/investigation/collect: client.go, ratehold.go, provider_hold.go, principal.go).

A hold says "do not call before this instant".  It is stored under the account (principal) the
credential belongs to, or under the credential itself while the account is unknown, and a copy of
the latest one is stored for the whole provider.  A request holds the provider lock shared and the
key lock exclusively; an identity lookup holds the provider lock exclusively.  Every store access
is a step of its own, so a read and the write that depends on it can be separated by steps of
other processes.
*/
module RateHolds {
  import opened Wrappers

  type Pid = nat   // one call of request, in any process
  type Cred = nat  // the secret
  type Id = nat    // the account the provider reports for a credential

  /** Names of stored holds. Hashing is injective, so a key is what was hashed. */
  datatype Key = Legacy(cred: Cred) | Principal(id: Id)

  /** `current` is false for a binding written by an older version, which must be looked up again. */
  datatype Binding = Binding(id: Id, current: bool)

  /** Why a hold is being saved. */
  datatype Why = Reserve | Pace | Extra | Migrate(id: Id)

  datatype Pc =
    | Idle
    | WantShared
    | WantExclusive
    | Recheck                                    // exclusive lock held, binding read again
    | ReadProvider                               // waitProviderRateHold reads
    | ProviderSleep(wake: int)
    | WantKey
    | ReadHold                                   // waitRateHold reads
    | HoldSleep(wake: int)
    | SaveRead(why: Why, delay: int)             // saveRateHold computes and reads
    | SavePut(why: Why, previous: Option<int>, until: int)
    | ProvStart(why: Why, until: int)            // time.Until(until)
    | ProvWant(why: Why, until: int, delay: int) // provider-hold lock loop
    | ProvRead(why: Why, until: int, delay: int)
    | ProvPut(why: Why, until: int, latest: int)
    | Send
    | Sent
    | Responded
    | MigrateReadLegacy(id: Id)
    | MigrateReadPrincipal(id: Id, legacy: int)
    | MigratePut(id: Id, legacy: int)
    | BindPut(id: Id)

  datatype Actor = Actor(
    pc: Pc,
    cred: Cred,
    lookup: bool,     // an identity lookup, otherwise a regular request
    spacing: nat,     // this client's pause between two requests
    locked: Key,      // the key lockPrincipal computed
    reserved: int,    // when the hold of the coming send was computed
    attempts: nat,
    sendNo: nat)      // this actor's latest entry of the log

  /** History of one send: when its hold was reserved and when it left. */
  datatype SendRecord = SendRecord(key: Key, reserved: int, started: int, spacing: nat, paced: bool)

  datatype State = State(
    now: int,
    holds: map<Key, int>,
    provider: Option<int>,
    bindings: map<Cred, Binding>,
    writer: Option<Pid>,       // provider lock, exclusive
    readers: set<Pid>,         // provider lock, shared
    keyLocks: map<Key, Pid>,
    provLock: Option<Pid>,     // lock of the provider hold
    actors: map<Pid, Actor>,
    cut: set<Key>,             // history: keys whose latest save stopped before the provider's copy
    log: seq<SendRecord>)      // history: every send

  datatype Event =
    | Tick
    | Begin(pid: Pid, cred: Cred, lookup: bool, spacing: nat)
    | Advance(pid: Pid)
    | SaveExtra(pid: Pid, delay: int)   // quota reserve, rate limit or Retry-After
    | Retry(pid: Pid)
    | Finish(pid: Pid, answer: Id)      // the last response; for a lookup it names the account
    | Abort(pid: Pid)                   // an error return, a cancelled context or a crash

  const MAX_ATTEMPTS := 4
  const LONG_WAIT := 30_000_000_000 // 30 s in nanoseconds

  const NOBODY := Actor(Idle, 0, false, 0, Legacy(0), 0, 0, 0)

  function At(s: State, p: Pid): Actor {
    if p in s.actors then s.actors[p] else NOBODY
  }

  function Become(s: State, p: Pid, a: Actor): State {
    s.(actors := s.actors[p := a])
  }

  function Goto(s: State, p: Pid, pc: Pc): State {
    Become(s, p, At(s, p).(pc := pc))
  }

  function Lookup(holds: map<Key, int>, k: Key): Option<int> {
    if k in holds then Some(holds[k]) else None
  }

  /** principalRateKey. */
  function RateKey(bindings: map<Cred, Binding>, cred: Cred): Key {
    if cred in bindings then Principal(bindings[cred].id) else Legacy(cred)
  }

  function KeyOf(s: State, p: Pid): Key {
    RateKey(s.bindings, At(s, p).cred)
  }

  function Later(until: int, previous: Option<int>): int {
    if previous.Some? && previous.value > until then previous.value else until
  }

  /** The key a save writes. */
  function SavedKey(s: State, p: Pid, why: Why): Key {
    if why.Migrate? then Principal(why.id) else KeyOf(s, p)
  }

  function WithoutPid(locks: map<Key, Pid>, p: Pid): map<Key, Pid> {
    map k | k in locks && locks[k] != p :: locks[k]
  }

  /** Every lock of p is released, as the deferred releases do and as flock does for a dead process. */
  function Release(s: State, p: Pid): State {
    Goto(s.(writer := if s.writer == Some(p) then None else s.writer,
            readers := s.readers - {p},
            keyLocks := WithoutPid(s.keyLocks, p),
            provLock := if s.provLock == Some(p) then None else s.provLock), p, Idle)
  }

  /** Where a finished save continues. */
  function AfterSave(why: Why): Pc {
    match why
    case Reserve => Send
    case Pace => Responded
    case Extra => Responded
    case Migrate(id) => BindPut(id)
  }

  predicate CopyingToProvider(pc: Pc) {
    pc.ProvStart? || pc.ProvWant? || pc.ProvRead? || pc.ProvPut?
  }

  predicate CanAdvance(s: State, p: Pid) {
    match At(s, p).pc
    case Idle => false
    case Responded => false
    case WantShared => s.writer.None?
    case WantExclusive => s.writer.None? && s.readers == {}
    case ProviderSleep(wake) => wake <= s.now
    case HoldSleep(wake) => wake <= s.now
    case WantKey => KeyOf(s, p) !in s.keyLocks
    case ProvWant(_, _, _) => s.provLock.None?
    case _ => true
  }

  function Paced(log: seq<SendRecord>, n: nat): seq<SendRecord> {
    if n < |log| then log[n := log[n].(paced := true)] else log
  }

  /** lockProvider and lockPrincipal once the lock is free. */
  function LockStep(s: State, p: Pid): State {
    var a := At(s, p);
    match a.pc
    case WantShared => Goto(s.(readers := s.readers + {p}), p, WantKey)
    case WantExclusive => Goto(s.(writer := Some(p)), p, Recheck)
    case WantKey =>
      var k := KeyOf(s, p);
      Become(s.(keyLocks := s.keyLocks[k := p]), p, a.(pc := ReadHold, locked := k))
    case _ => s
  }

  /** Waiting for a stored hold that ends at `until`, unless the wait is too long. */
  function WaitFor(now: int, until: Option<int>, ready: Pc, sleep: int -> Pc): Option<Pc> {
    if until.None? || until.value <= now then Some(ready)
    else if until.value - now > LONG_WAIT then None
    else Some(sleep(until.value))
  }

  /** The second look at the binding, and waiting for stored holds; None gives the request up. */
  function WaitTo(s: State, p: Pid): Option<Pc> {
    var a := At(s, p);
    match a.pc
    case Recheck => if a.cred in s.bindings && s.bindings[a.cred].current then None else Some(ReadProvider)
    case ReadProvider => WaitFor(s.now, s.provider, WantKey, wake => ProviderSleep(wake))
    case ProviderSleep(_) => Some(WantKey)
    case ReadHold => WaitFor(s.now, Lookup(s.holds, KeyOf(s, p)), SaveRead(Reserve, a.spacing), wake => HoldSleep(wake))
    case HoldSleep(_) => Some(SaveRead(Reserve, a.spacing))
    case other => Some(other)
  }

  function WaitStep(s: State, p: Pid): State {
    match WaitTo(s, p)
    case None => Release(s, p)
    case Some(pc) => Goto(s, p, pc)
  }

  /** saveRateHold: compute, read the stored hold, write the later of the two. */
  function HoldStep(s: State, p: Pid): State {
    var a := At(s, p);
    match a.pc
    case SaveRead(why, delay) =>
      var b := if why.Reserve? then a.(reserved := s.now) else a;
      if delay <= 0 then Become(s, p, b.(pc := AfterSave(why)))
      else
        var previous := Lookup(s.holds, KeyOf(s, p));
        Become(s, p, b.(pc := SavePut(why, previous, Later(s.now + delay, previous))))
    case SavePut(why, _, until) =>
      Goto(s.(holds := s.holds[KeyOf(s, p) := until],
              log := if why.Pace? then Paced(s.log, a.sendNo) else s.log), p, ProvStart(why, until))
    case _ => s
  }

  /** saveProviderRateHold: the same for the provider's copy, under its own lock. */
  function CopyStep(s: State, p: Pid): State {
    match At(s, p).pc
    case ProvStart(why, until) =>
      if until - s.now <= 0 then Goto(s, p, AfterSave(why)) else Goto(s, p, ProvWant(why, until, until - s.now))
    case ProvWant(why, until, delay) => Goto(s.(provLock := Some(p)), p, ProvRead(why, until, delay))
    case ProvRead(why, until, delay) => Goto(s, p, ProvPut(why, until, Later(s.now + delay, s.provider)))
    case ProvPut(why, until, latest) =>
      Goto(s.(provider := Some(latest), provLock := None, cut := s.cut - {SavedKey(s, p, why)}), p, AfterSave(why))
    case _ => s
  }

  /** The request leaves; finishPacing after its response. */
  function SendStep(s: State, p: Pid): State {
    var a := At(s, p);
    match a.pc
    case Send =>
      Become(s.(log := s.log + [SendRecord(KeyOf(s, p), a.reserved, s.now, a.spacing, false)]),
             p, a.(pc := Sent, attempts := a.attempts + 1, sendNo := |s.log|))
    case Sent =>
      var started := if a.sendNo < |s.log| then s.log[a.sendNo].started else s.now;
      if started + a.spacing - s.now <= 0 then Goto(s.(log := Paced(s.log, a.sendNo)), p, Responded)
      else Goto(s, p, SaveRead(Pace, started + a.spacing - s.now))
    case _ => s
  }

  /** mergeLegacyRateHold, then the new binding. */
  function MigrateStep(s: State, p: Pid): State {
    var a := At(s, p);
    match a.pc
    case MigrateReadLegacy(id) =>
      if Legacy(a.cred) in s.holds then Goto(s, p, MigrateReadPrincipal(id, s.holds[Legacy(a.cred)]))
      else Goto(s, p, BindPut(id))
    case MigrateReadPrincipal(id, legacy) =>
      if Principal(id) in s.holds && legacy <= s.holds[Principal(id)] then Goto(s, p, BindPut(id))
      else Goto(s, p, MigratePut(id, legacy))
    case MigratePut(id, legacy) =>
      Goto(s.(holds := s.holds[Principal(id) := legacy]), p, ProvStart(Migrate(id), legacy))
    case BindPut(id) => Release(s.(bindings := s.bindings[a.cred := Binding(id, true)]), p)
    case _ => s
  }

  predicate Saving(pc: Pc) {
    pc.SaveRead? || pc.SavePut?
  }

  predicate Migrating(pc: Pc) {
    pc.MigrateReadLegacy? || pc.MigrateReadPrincipal? || pc.MigratePut? || pc.BindPut?
  }

  predicate Locking(pc: Pc) {
    pc.WantShared? || pc.WantExclusive? || pc.WantKey?
  }

  function AdvanceStep(s: State, p: Pid): State {
    var pc := At(s, p).pc;
    if Locking(pc) then LockStep(s, p)
    else if Saving(pc) then HoldStep(s, p)
    else if CopyingToProvider(pc) then CopyStep(s, p)
    else if Migrating(pc) then MigrateStep(s, p)
    else if pc.Send? || pc.Sent? then SendStep(s, p)
    else WaitStep(s, p)
  }

  predicate Enabled(s: State, e: Event) {
    match e
    case Tick => true
    case Begin(p, cred, lookup, _) => At(s, p).pc.Idle? && (lookup || cred in s.bindings)
    case Advance(p) => CanAdvance(s, p)
    case SaveExtra(p, _) => At(s, p).pc.Responded?
    case Retry(p) => At(s, p).pc.Responded? && At(s, p).attempts < MAX_ATTEMPTS
    case Finish(p, _) => At(s, p).pc.Responded?
    case Abort(p) => true
  }

  function Step(s: State, e: Event): State
    requires Enabled(s, e)
  {
    match e
    case Tick => s.(now := s.now + 1)
    case Begin(p, cred, lookup, spacing) =>
      Become(s, p, Actor(if lookup then WantExclusive else WantShared, cred, lookup, spacing, Legacy(cred), 0, 0, 0))
    case Advance(p) => AdvanceStep(s, p)
    case SaveExtra(p, delay) => Goto(s, p, SaveRead(Extra, delay))
    case Retry(p) => Goto(s, p, ReadHold)
    case Finish(p, id) =>
      var a := At(s, p);
      if !a.lookup || (a.cred in s.bindings && s.bindings[a.cred].id != id) then Release(s, p)
      else Goto(s.(keyLocks := WithoutPid(s.keyLocks, p)), p, MigrateReadLegacy(id))
    case Abort(p) =>
      var pc := At(s, p).pc;
      Release(if CopyingToProvider(pc) then s.(cut := s.cut + {SavedKey(s, p, pc.why)}) else s, p)
  }

  ghost predicate IsRun(s: State, events: seq<Event>)
    decreases |events|
  {
    events == [] || (Enabled(s, events[0]) && IsRun(Step(s, events[0]), events[1..]))
  }

  function Run(s: State, events: seq<Event>): State
    requires IsRun(s, events)
    decreases |events|
  {
    if events == [] then s else Run(Step(s, events[0]), events[1..])
  }
}
