/** What approvals promise over whole runs. */
module ApprovalsTheorems {
  import opened Wrappers
  import opened Approvals
  import opened ApprovalsInvariant

  lemma {:induction false} RunKeepsInv(s: State, events: seq<Event>)
    requires Inv(s) && IsRun(s, events)
    ensures Inv(Run(s, events))
    decreases |events|
  {
    if events != [] {
      StepKeepsInv(s, events[0]);
      RunKeepsInv(Step(s, events[0]), events[1..]);
    }
  }

  /** In every interleaving, no two calls are accepted for one token. */
  lemma AtMostOnce(s: State, events: seq<Event>, i: nat, j: nat)
    requires Init(s) && IsRun(s, events)
    requires i < j < |Run(s, events).accepted|
    ensures Run(s, events).accepted[i].presented != Run(s, events).accepted[j].presented
  {
    RunKeepsInv(s, events);
    var r := Run(s, events);
    assert AcceptedOk(r, r.accepted[i]) && AcceptedOk(r, r.accepted[j]);
    var k, l := r.accepted[i].claim, r.accepted[j].claim;
    assert if k < l then r.issued[k].value != r.issued[l].value else r.issued[l].value != r.issued[k].value;
  }

  /** Every accepted value is a token that was issued, and it is accepted before that token expires. */
  lemma AcceptedWasIssued(s: State, events: seq<Event>, i: nat)
    requires Init(s) && IsRun(s, events)
    requires i < |Run(s, events).accepted|
    ensures var r := Run(s, events);
      exists t | t in r.issued :: t.value == r.accepted[i].presented && r.accepted[i].at <= t.expires
  {
    RunKeepsInv(s, events);
    var r := Run(s, events);
    assert AcceptedOk(r, r.accepted[i]);
    assert r.issued[r.accepted[i].claim] in r.issued;
  }

  // ----- One undisturbed call -----

  function WholeCall(s: State, p: Pid, value: Value): seq<Event> {
    [Call(p, value), Rename(p)] + if s.path.Some? then [LoadAndCompare(p), Remove(p)] else []
  }

  /** An undisturbed call is accepted exactly when Judge says so, and it always uses the approval up. */
  lemma UndisturbedCall(s: State, p: Pid, value: Value)
    requires At(s, p).Idle?
    ensures IsRun(s, WholeCall(s, p, value))
    ensures var r := Run(s, WholeCall(s, p, value));
      && r.path == None && (s.path.Some? ==> r.used == None) && At(r, p).Idle? && r.issued == s.issued
      && |r.accepted| == |s.accepted| + (if Judge(s.path, value, s.now).Accepted? then 1 else 0)
      && s.accepted <= r.accepted
  {
    var s1 := Step(s, Call(p, value));
    var s2 := Step(s1, Rename(p));
    if s.path.Some? {
      var s3 := Step(s2, LoadAndCompare(p));
      RunCons(s3, Remove(p), []);
      RunCons(s2, LoadAndCompare(p), [Remove(p)]);
      RunCons(s1, Rename(p), [LoadAndCompare(p), Remove(p)]);
      RunCons(s, Call(p, value), [Rename(p), LoadAndCompare(p), Remove(p)]);
      assert WholeCall(s, p, value) == [Call(p, value)] + [Rename(p), LoadAndCompare(p), Remove(p)];
    } else {
      RunCons(s1, Rename(p), []);
      RunCons(s, Call(p, value), [Rename(p)]);
      assert WholeCall(s, p, value) == [Call(p, value)] + [Rename(p)];
    }
  }

  /** Writing an approval and presenting a value to it, with nobody in between. */
  function WriteAndCall(t: Token, p: Pid, value: Value): seq<Event> {
    [Write(t), Call(p, value), Rename(p), LoadAndCompare(p), Remove(p)]
  }

  /**
  A new approval is accepted when its own value is presented and it has not expired, and otherwise not; one call
  uses it up either way.
  */
  lemma WrittenIsAccepted(s: State, t: Token, p: Pid, value: Value)
    requires t.value !in s.spoken && t.serial == |s.issued| && At(s, p).Idle?
    ensures IsRun(s, WriteAndCall(t, p, value))
    ensures var r := Run(s, WriteAndCall(t, p, value));
      && r.path == None && r.used == None && At(r, p).Idle?
      && r.accepted == if value == t.value && s.now <= t.expires
                       then s.accepted + [Acceptance(t.value, t.serial, s.now)] else s.accepted
  {
    var s1 := Step(s, Write(t));
    var s2 := Step(s1, Call(p, value));
    var s3 := Step(s2, Rename(p));
    var s4 := Step(s3, LoadAndCompare(p));
    RunCons(s4, Remove(p), []);
    RunCons(s3, LoadAndCompare(p), [Remove(p)]);
    RunCons(s2, Rename(p), [LoadAndCompare(p), Remove(p)]);
    RunCons(s1, Call(p, value), [Rename(p), LoadAndCompare(p), Remove(p)]);
    RunCons(s, Write(t), [Call(p, value), Rename(p), LoadAndCompare(p), Remove(p)]);
    assert WriteAndCall(t, p, value) == [Write(t)] + [Call(p, value), Rename(p), LoadAndCompare(p), Remove(p)];
  }

  /** Neither file holds the value, and it is no longer fresh. */
  ghost predicate Gone(s: State, value: Value) {
    && (s.path.Some? ==> s.path.value.value != value) && (s.used.Some? ==> s.used.value.value != value)
    && value in s.spoken
  }

  lemma {:induction false} GoneStaysGone(s: State, events: seq<Event>, value: Value)
    requires Gone(s, value) && IsRun(s, events)
    ensures Gone(Run(s, events), value) && s.accepted <= Run(s, events).accepted
    ensures forall i | |s.accepted| <= i < |Run(s, events).accepted| :: Run(s, events).accepted[i].presented != value
    decreases |events|
  {
    if events != [] { GoneStaysGone(Step(s, events[0]), events[1..], value); }
  }

  /** An approval that is overwritten before anybody claims it is never accepted. */
  lemma OverwrittenIsNeverAccepted(s: State, t: Token, after: seq<Event>)
    requires Inv(s) && s.path.Some? && t.value !in s.spoken && t.serial == |s.issued|
    requires IsRun(Step(s, Write(t)), after)
    ensures var r := Run(Step(s, Write(t)), after);
            s.accepted <= r.accepted
            && forall i | |s.accepted| <= i < |r.accepted| :: r.accepted[i].presented != s.path.value.value
  {
    var k := s.path.value.serial;
    assert s.issued[|s.issued| - 1] in s.issued && s.path.value.value in s.spoken;
    GoneStaysGone(Step(s, Write(t)), after, s.path.value.value);
  }

  /** A process that dies leaves both files, and what was accepted, as they are. */
  lemma DeathLeavesFiles(s: State, p: Pid)
    ensures Step(s, Die(p)) == s.(consumers := s.consumers[p := Idle])
  {
  }

  /** No call waits for another: every step of a call is possible whatever the files hold. */
  lemma CallsGoOn(s: State, p: Pid)
    ensures At(s, p).Idle? ==> forall value :: Enabled(s, Call(p, value))
    ensures At(s, p).Called? ==> Enabled(s, Rename(p))
    ensures At(s, p).Claimed? ==> Enabled(s, LoadAndCompare(p)) && Enabled(s, LoadFails(p))
    ensures At(s, p).Leaving? ==> Enabled(s, Remove(p))
  {
  }

  /** A call whose claimed file cannot be read accepts nothing, and removes it. */
  lemma UnreadableIsRefused(s: State, p: Pid)
    requires At(s, p).Claimed?
    ensures IsRun(s, [LoadFails(p), Remove(p)])
    ensures var r := Run(s, [LoadFails(p), Remove(p)]);
            r.accepted == s.accepted && r.used == None && r.path == s.path && At(r, p).Idle?
  {
    var s1 := Step(s, LoadFails(p));
    RunCons(s1, Remove(p), []);
    RunCons(s, LoadFails(p), [Remove(p)]);
    assert [LoadFails(p), Remove(p)] == [LoadFails(p)] + [Remove(p)];
  }

  function Ticks(n: nat): seq<Event> {
    seq(n, i => Tick)
  }

  lemma {:induction false} TicksPass(s: State, n: nat)
    ensures IsRun(s, Ticks(n)) && Run(s, Ticks(n)) == s.(now := s.now + n)
    decreases n
  {
    if n > 0 {
      TicksPass(Step(s, Tick), n - 1);
      assert Ticks(n)[1..] == Ticks(n - 1);
    }
  }

  /** After its time an approval is refused, and still used up. */
  lemma ApprovalExpires(s: State, p: Pid, n: nat)
    requires At(s, p).Idle? && s.path.Some? && s.now + n > s.path.value.expires
    ensures IsRun(s, Ticks(n)) && IsRun(Run(s, Ticks(n)), WholeCall(s, p, s.path.value.value))
    ensures var r := Run(Run(s, Ticks(n)), WholeCall(s, p, s.path.value.value));
            r.accepted == s.accepted && r.path == None && r.used == None
  {
    TicksPass(s, n);
    UndisturbedCall(Run(s, Ticks(n)), p, s.path.value.value);
  }

  lemma RunCons(s: State, e: Event, rest: seq<Event>)
    requires Enabled(s, e) && IsRun(Step(s, e), rest)
    ensures IsRun(s, [e] + rest) && Run(s, [e] + rest) == Run(Step(s, e), rest)
  {
    assert ([e] + rest)[1..] == rest;
  }
}
