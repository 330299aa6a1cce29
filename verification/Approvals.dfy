/**
One-shot approvals of one envelope (internal/safety/safety.go).

Approve writes a fresh token at the approval path.  ConsumeApproval renames that file to a
".used" path, loads what the ".used" path then holds, compares it with the presented value and
removes the ".used" path on the way out.  Any number of callers interleave those file-system
steps, so a caller can load a file that another caller put there.
*/
module Approvals {
  import opened Wrappers

  type Value = nat  // the 32 random bytes of a token
  type Pid = nat    // one call of ConsumeApproval

  /** `serial` is the token's place in the order of writes: history only, no step compares it. */
  datatype Token = Token(value: Value, expires: int, serial: nat)

  // ----- The protocol over the file system -----

  /** Where a call of ConsumeApproval stands. `claim` is the number of the approval its rename moved. */
  datatype Consumer =
    | Idle
    | Called(presented: Value)
    | Claimed(presented: Value, claim: nat)
    | Leaving

  datatype Acceptance = Acceptance(presented: Value, claim: nat, at: int)

  datatype State = State(
    now: int,
    path: Option<Token>,         // <id>.json
    used: Option<Token>,         // <id>.json.used
    issued: seq<Token>,          // every token written so far, oldest first
    spoken: set<Value>,          // every value issued or presented so far
    consumers: map<Pid, Consumer>,
    accepted: seq<Acceptance>)   // every call that returned nil

  datatype Event =
    | Tick
    | Write(token: Token)               // Approve replaces the approval file in one rename
    | Call(pid: Pid, presented: Value)
    | Rename(pid: Pid)                  // claims whatever the approval path holds
    | LoadAndCompare(pid: Pid)          // reads the .used path and decides
    | LoadFails(pid: Pid)               // the .used path or its expiry cannot be read
    | Remove(pid: Pid)
    | Die(pid: Pid)                     // the process stops before its deferred remove

  function At(s: State, p: Pid): Consumer {
    if p in s.consumers then s.consumers[p] else Idle
  }

  ghost predicate Init(s: State) {
    && s.path == None && s.used == None && s.issued == [] && s.spoken == {}
    && s.consumers == map[] && s.accepted == []
  }

  /** A token is fresh when it is written: it was never issued and no earlier call guessed it. */
  predicate Enabled(s: State, e: Event) {
    match e
    case Tick => true
    case Write(t) => t.value !in s.spoken && t.serial == |s.issued|
    case Call(p, _) => At(s, p).Idle?
    case Rename(p) => At(s, p).Called?
    case LoadAndCompare(p) => At(s, p).Claimed?
    case LoadFails(p) => At(s, p).Claimed?
    case Remove(p) => At(s, p).Leaving?
    case Die(p) => true
  }

  function Step(s: State, e: Event): State
    requires Enabled(s, e)
  {
    match e
    case Tick => s.(now := s.now + 1)
    case Write(t) =>
      s.(path := Some(t), issued := s.issued + [t], spoken := s.spoken + {t.value})
    case Call(p, v) =>
      s.(consumers := s.consumers[p := Called(v)], spoken := s.spoken + {v})
    case Rename(p) =>
      if s.path.None? then s.(consumers := s.consumers[p := Idle])
      else
        s.(path := None, used := s.path,
           consumers := s.consumers[p := Claimed(At(s, p).presented, s.path.value.serial)])
    case LoadAndCompare(p) =>
      var c := At(s, p);
      var s' := s.(consumers := s.consumers[p := Leaving]);
      if s.used.Some? && s.used.value.value == c.presented && s.now <= s.used.value.expires
      then s'.(accepted := s.accepted + [Acceptance(c.presented, c.claim, s.now)])
      else s'
    case LoadFails(p) => s.(consumers := s.consumers[p := Leaving])
    case Remove(p) => s.(used := None, consumers := s.consumers[p := Idle])
    case Die(p) => s.(consumers := s.consumers[p := Idle])
  }

  /** Every event of the run is enabled where it happens. */
  ghost predicate IsRun(s: State, events: seq<Event>)
    decreases |events|
  {
    events == [] || (Enabled(s, events[0]) && IsRun(Step(s, events[0]), events[1..]))
  }

  function Run(s: State, events: seq<Event>): State
    requires IsRun(s, events)
    decreases |events|
  {
    if events == [] then s else Run(Step(s, events[0]), events[1..])
  }

  // ----- One call at a time -----

  datatype Verdict = Accepted | Required | NotFound | Expired

  /** What a call presenting `value` returns when the approval path holds `path` and nobody interferes. */
  function Judge(path: Option<Token>, value: Value, now: int): Verdict {
    match path
    case None => NotFound
    case Some(t) => if t.value != value then NotFound else if now > t.expires then Expired else Accepted
  }

  datatype Envelope = Envelope(blocked: bool)

  datatype Refusal = EnvelopeNotFound | NotInteractive | Blocked | BadDuration | NoRandom | NotWritten

  const DEFAULT_TTL := 300
  const MIN_TTL := 30
  const MAX_TTL := 900

  /** The approval directory of one envelope, used by one process. */
  class ApprovalFiles {
    var path: Option<Token>
    var used: Option<Token>

    constructor ()
      ensures path == None && used == None
    {
      path, used := None, None;
    }

    /**
    `blankId` is an empty envelope ID; an envelope that is missing or unreadable is None.  `random` comes from the
    random source, which can fail, as can the write.
    */
    method Approve(blankId: bool, envelope: Option<Envelope>, seconds: int, interactive: bool, now: int,
                   random: Option<Value>, serial: nat, writes: bool)
      returns (refusal: Option<Refusal>)
      modifies this`path
      ensures refusal.Some? ==> path == old(path)
      ensures refusal == None <==>
        !blankId && interactive && envelope.Some? && !envelope.value.blocked
        && (seconds <= 0 || 30 <= seconds <= 900) && random.Some? && writes
      ensures refusal == Some(EnvelopeNotFound) <==> blankId || (interactive && envelope.None?)
      ensures refusal == Some(NotInteractive) <==> !blankId && !interactive
      ensures refusal == Some(Blocked) <==> !blankId && interactive && envelope.Some? && envelope.value.blocked
      ensures refusal == Some(BadDuration) <==>
        !blankId && interactive && envelope.Some? && !envelope.value.blocked && seconds > 0 && !(30 <= seconds <= 900)
      ensures refusal == Some(NoRandom) ==> random.None?
      ensures refusal == Some(NotWritten) ==> random.Some? && !writes
      ensures refusal == None ==>
        path == Some(Token(random.value, now + (if seconds <= 0 then 300 else seconds), serial))
      ensures refusal == None ==>
        Judge(path, random.value, now + 30).Accepted? && Judge(path, random.value, now + 901).Expired?
    {
      if blankId { return Some(EnvelopeNotFound); }
      if !interactive { return Some(NotInteractive); }
      if envelope.None? { return Some(EnvelopeNotFound); }
      if envelope.value.blocked { return Some(Blocked); }
      var duration := if seconds <= 0 then DEFAULT_TTL else seconds;
      if duration < MIN_TTL || duration > MAX_TTL { return Some(BadDuration); }
      if random.None? { return Some(NoRandom); }
      if !writes { return Some(NotWritten); }
      path := Some(Token(random.value, now + duration, serial));
      return None;
    }

    /**
    A blank envelope or token is None.  `loads` says whether the claimed file can be read, and `parses` whether
    its expiry can.
    */
    method ConsumeApproval(presented: Option<Value>, now: int, loads: bool, parses: bool) returns (verdict: Verdict)
      modifies this
      ensures presented.None? ==> verdict == Required && path == old(path) && used == old(used)
      ensures presented.Some? ==> path == None
      ensures presented.Some? && loads && parses ==> verdict == Judge(old(path), presented.value, now)
      ensures presented.Some? && !loads ==> verdict == NotFound
      ensures presented.Some? && loads && !parses ==>
        verdict == if Judge(old(path), presented.value, now).NotFound? then NotFound else Expired
      ensures presented.Some? && old(path).Some? ==> used == None
    {
      if presented.None? { return Required; }
      if path.None? { return NotFound; }
      used := path;
      path := None;
      var token := used.value;
      if !loads {
        verdict := NotFound;
      } else if token.value != presented.value {
        verdict := NotFound;
      } else if !parses || now > token.expires {
        verdict := Expired;
      } else {
        verdict := Accepted;
      }
      used := None;
    }
  }
}
