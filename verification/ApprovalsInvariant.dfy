/** Why no token is accepted twice: what every step of every caller keeps. */
module ApprovalsInvariant {
  import opened Wrappers
  import opened Approvals

  ghost predicate DistinctValues(issued: seq<Token>) {
    forall i, j | 0 <= i < j < |issued| :: issued[i].value != issued[j].value
  }

  /** The files only move forward: the approval path holds the newest token, ".used" an older one. */
  ghost predicate FilesInOrder(s: State) {
    && (forall k | 0 <= k < |s.issued| :: s.issued[k].serial == k && s.issued[k].value in s.spoken)
    && (s.path.Some? ==> |s.issued| > 0 && s.path.value == s.issued[|s.issued| - 1])
    && (s.used.Some? ==> Past(s, s.used.value.serial) && s.used.value == s.issued[s.used.value.serial])
  }

  /** Token number k was written and is no longer at the approval path. */
  ghost predicate Past(s: State, k: nat) {
    k < |s.issued| && (s.path.Some? ==> k < |s.issued| - 1)
  }

  /** A claimant presents nothing newer than its claim, and ".used" never goes back before it. */
  ghost predicate ClaimOk(s: State, presented: Value, claim: nat) {
    && Past(s, claim)
    && presented in s.spoken
    && (forall j | 0 <= j < |s.issued| && s.issued[j].value == presented :: j <= claim)
    && (s.used.Some? ==> claim <= s.used.value.serial)
  }

  /** An acceptance is of the very token its caller claimed, before that token expired. */
  ghost predicate AcceptedOk(s: State, a: Acceptance) {
    && Past(s, a.claim)
    && s.issued[a.claim].value == a.presented
    && a.at <= s.issued[a.claim].expires
  }

  ghost predicate ConsumerOk(s: State, p: Pid) {
    match At(s, p)
    case Called(v) => v in s.spoken
    case Claimed(v, k) => ClaimOk(s, v, k)
    case _ => true
  }

  /** A claim belongs to one call: no two callers hold it, and it is given up when it is accepted. */
  ghost predicate ClaimsApart(s: State) {
    && (forall p, q | p != q && At(s, p).Claimed? && At(s, q).Claimed? ::
          At(s, p).claim != At(s, q).claim)
    && (forall i, j | 0 <= i < j < |s.accepted| :: s.accepted[i].claim != s.accepted[j].claim)
    && (forall i, p | 0 <= i < |s.accepted| && At(s, p).Claimed? ::
          s.accepted[i].claim != At(s, p).claim)
  }

  ghost predicate Inv(s: State) {
    && DistinctValues(s.issued)
    && FilesInOrder(s)
    && (forall p :: ConsumerOk(s, p))
    && (forall i | 0 <= i < |s.accepted| :: AcceptedOk(s, s.accepted[i]))
    && ClaimsApart(s)
  }

  lemma StepKeepsConsumers(s: State, e: Event)
    requires Inv(s) && Enabled(s, e)
    ensures forall p :: ConsumerOk(Step(s, e), p)
  {
    var s' := Step(s, e);
    forall p ensures ConsumerOk(s', p) {
      assert ConsumerOk(s, p);
      if !e.Tick? && !e.Write? && e.pid == p && e.Rename? && s.path.Some? {
        assert s'.issued == s.issued;
      }
    }
  }

  lemma StepKeepsAccepted(s: State, e: Event)
    requires Inv(s) && Enabled(s, e)
    ensures forall i | 0 <= i < |Step(s, e).accepted| :: AcceptedOk(Step(s, e), Step(s, e).accepted[i])
  {
    var s' := Step(s, e);
    forall i | 0 <= i < |s'.accepted| ensures AcceptedOk(s', s'.accepted[i]) {
      if i < |s.accepted| {
        assert AcceptedOk(s, s.accepted[i]);
      } else {
        // ".used" holds nothing older than the claim, and the caller presents nothing newer.
        assert ConsumerOk(s, e.pid);
      }
    }
  }

  lemma StepKeepsClaimsApart(s: State, e: Event)
    requires Inv(s) && Enabled(s, e)
    ensures ClaimsApart(Step(s, e))
  {
    var s' := Step(s, e);
    forall p | At(s', p).Claimed?
      ensures At(s, p) == At(s', p) || (e == Rename(p) && s.path.Some? && At(s', p).claim == s.path.value.serial)
    {
    }
    forall p | At(s, p).Claimed? ensures Past(s, At(s, p).claim) {
      assert ConsumerOk(s, p);
    }
    forall i | 0 <= i < |s.accepted| ensures Past(s, s.accepted[i].claim) {
      assert AcceptedOk(s, s.accepted[i]);
    }
  }

  lemma StepKeepsInv(s: State, e: Event)
    requires Inv(s) && Enabled(s, e)
    ensures Inv(Step(s, e))
  {
    StepKeepsConsumers(s, e);
    StepKeepsAccepted(s, e);
    StepKeepsClaimsApart(s, e);
  }
}
