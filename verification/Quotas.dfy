/**
Delays computed from a provider's quota headers (internal/investigation/collect/ratehold.go).
A header is given as its parsed value; None is a missing or malformed one.
*/
module Quotas {
  import opened Wrappers

  const MAX_INT64 := 0x7fff_ffff_ffff_ffff
  const SECOND := 1_000_000_000
  const MINUTE := 60 * SECOND

  type int64 = x: int | -MAX_INT64 - 1 <= x <= MAX_INT64

  /** `reset` is the delay until the bucket is refilled, when its header is valid. */
  datatype Bucket = Bucket(limit: Option<int64>, remaining: Option<int64>, reset: Option<nat>)

  /** The share of the quota kept for other clients, in the order the code computes it. */
  function Threshold(limit: int64, percent: int64): (threshold: int64)
    requires limit > 0 && 1 <= percent <= 100
    ensures 0 < threshold <= limit
    ensures 100 * (threshold - 1) < limit * percent <= 100 * threshold
  {
    ThresholdFits(limit, percent);
    limit / 100 * percent + (limit % 100 * percent + 99) / 100
  }

  /** No intermediate value leaves the 64-bit range, and the result is the share rounded up. */
  lemma ThresholdFits(limit: int64, percent: int64)
    requires limit > 0 && 1 <= percent <= 100
    ensures 0 <= limit / 100 * percent <= MAX_INT64
    ensures 0 <= limit % 100 * percent <= limit % 100 * percent + 99 <= MAX_INT64
    ensures var t := limit / 100 * percent + (limit % 100 * percent + 99) / 100;
      0 < t <= limit && 100 * (t - 1) < limit * percent <= 100 * t
  {
    var whole, rest := limit / 100, limit % 100;
    assert limit == 100 * whole + rest;
    assert limit * percent == 100 * (whole * percent) + rest * percent;
    assert 0 <= whole * percent <= whole * 100 by { Scaled(whole, percent, 100); }
    assert 0 <= rest * percent <= rest * 100 by { Scaled(rest, percent, 100); }
    var up := (rest * percent + 99) / 100;
    assert 100 * (up - 1) < rest * percent <= 100 * up;
    assert up <= rest;
    if rest > 0 {
      assert rest * percent >= rest * 1 by { Scaled(rest, 1, percent); }
    } else {
      assert whole * percent >= whole * 1 by { Scaled(whole, 1, percent); }
    }
  }

  lemma Scaled(x: nat, low: nat, high: nat)
    requires low <= high
    ensures 0 <= x * low <= x * high
  {
  }

  /** The bucket reports a usable quota, and what is left is within the kept share. */
  ghost predicate AtReserve(b: Bucket, percent: int64) {
    && b.limit.Some? && b.limit.value > 0
    && b.remaining.Some? && 0 <= b.remaining.value <= b.limit.value
    && 100 * (b.remaining.value - 1) < b.limit.value * percent
  }

  function ResetOrMinute(b: Bucket): nat {
    if b.reset.None? then MINUTE else b.reset.value
  }

  /** At the kept share of its quota a bucket asks to wait until it is refilled, a minute when it does not say. */
  lemma BucketDelays(b: Bucket, percent: int64)
    requires b.limit.Some? && b.remaining.Some? && 0 <= b.remaining.value <= b.limit.value && b.limit.value > 0
    requires 1 <= percent <= 100
    ensures Delays(b, percent) <==>
      b.remaining.value <= Threshold(b.limit.value, percent) && b.reset != Some(0)
    ensures b.reset.None? ==> ResetOrMinute(b) == 60_000_000_000
    ensures b.reset.Some? ==> ResetOrMinute(b) == b.reset.value
  {
  }

  ghost predicate Delays(b: Bucket, percent: int64) {
    AtReserve(b, percent) && ResetOrMinute(b) > 0
  }

  /** quotaReserveDelay over the buckets of a known source; the code reads one for GitHub, three for Linear. */
  method QuotaReserveDelay(buckets: seq<Bucket>, percent: int64) returns (delay: nat, reserve: bool)
    ensures reserve <==> 1 <= percent <= 100 && exists b | b in buckets :: Delays(b, percent)
    ensures reserve ==> exists b | b in buckets :: Delays(b, percent) && delay == ResetOrMinute(b)
    ensures reserve ==> forall b | b in buckets && Delays(b, percent) :: ResetOrMinute(b) <= delay
    ensures !reserve ==> delay == 0
  {
    if percent <= 0 || percent > 100 {
      return 0, false;
    }
    var longest := 0;
    for i := 0 to |buckets|
      invariant forall j | 0 <= j < i && Delays(buckets[j], percent) :: ResetOrMinute(buckets[j]) <= longest
      invariant longest > 0 ==> exists j | 0 <= j < i ::
            Delays(buckets[j], percent) && longest == ResetOrMinute(buckets[j])
    {
      var b := buckets[i];
      if b.limit.None? || b.remaining.None?
         || b.limit.value <= 0 || b.remaining.value < 0 || b.remaining.value > b.limit.value {
        continue;
      }
      var threshold := Threshold(b.limit.value, percent);
      assert b.remaining.value <= threshold <==> AtReserve(b, percent);
      if b.remaining.value > threshold {
        continue;
      }
      var d := ResetOrMinute(b);
      if d > longest {
        longest := d;
      }
    }
    return longest, longest > 0;
  }

  /** The instants a rate-limited response asks to wait for. */
  ghost predicate Asked(retryAfter: Option<nat>, exhausted: seq<bool>, resets: seq<Option<nat>>, d: nat)
    requires |exhausted| == |resets|
  {
    || retryAfter == Some(d)
    || exists i | 0 <= i < |resets| :: exhausted[i] && resets[i] == Some(d)
  }

  /** rateLimitDelay: the longest wait the response asks for, or a minute when it asks for none. */
  method RateLimitDelay(retryAfter: Option<nat>, exhausted: seq<bool>, resets: seq<Option<nat>>) returns (delay: nat)
    requires |exhausted| == |resets|
    ensures (exists d: nat :: Asked(retryAfter, exhausted, resets, d)) ==> Asked(retryAfter, exhausted, resets, delay)
    ensures forall d: nat | Asked(retryAfter, exhausted, resets, d) :: d <= delay
    ensures (forall d: nat :: !Asked(retryAfter, exhausted, resets, d)) ==> delay == 60_000_000_000
  {
    delay := MINUTE;
    var valid := false;
    if retryAfter.Some? {
      delay, valid := retryAfter.value, true;
    }
    for i := 0 to |resets|
      invariant valid ==> retryAfter == Some(delay) || exists j | 0 <= j < i :: exhausted[j] && resets[j] == Some(delay)
      invariant !valid ==> delay == MINUTE && retryAfter.None? && forall j | 0 <= j < i ::
            !(exhausted[j] && resets[j].Some?)
      invariant retryAfter.Some? ==> retryAfter.value <= delay
      invariant forall j | 0 <= j < i && exhausted[j] && resets[j].Some? :: resets[j].value <= delay
    {
      if exhausted[i] && resets[i].Some? && (!valid || resets[i].value > delay) {
        delay, valid := resets[i].value, true;
      }
    }
    if valid {
      assert Asked(retryAfter, exhausted, resets, delay);
    }
  }

  /** The Retry-After header in seconds; a value out of the 64-bit range has been cut to its largest. */
  function RetryAfterSeconds(seconds: int64): (delay: Option<int64>)
    ensures delay.Some? <==> seconds >= 0
    ensures delay.Some? ==> delay.value <= seconds * 1_000_000_000
    ensures delay.Some? ==>
      delay.value == seconds * 1_000_000_000 || seconds * 1_000_000_000 > 9_223_372_036_854_775_807 == delay.value
  {
    if seconds < 0 then None
    else if seconds > MAX_INT64 / SECOND then Some(MAX_INT64)
    else Some(seconds * SECOND)
  }

  /** What the Retry-After header holds, blanks trimmed: a number of seconds, or a date and how far away it is. */
  datatype RetryAfter = NoHeader | Seconds(seconds: int64) | Date(until: int) | Unreadable

  /** retryAfterDelay: a date that has passed asks for no wait; a negative number is not a date either. */
  function RetryAfterDelay(header: RetryAfter): (delay: Option<int>)
    ensures delay.Some? <==> header.Date? || (header.Seconds? && header.seconds >= 0)
    ensures delay.Some? ==> 0 <= delay.value
    ensures header.Date? && header.until >= 0 ==> delay == Some(header.until)
    ensures header.Seconds? && delay.Some? && header.seconds * SECOND <= MAX_INT64 ==>
          delay == Some(header.seconds * SECOND)
    ensures header.Seconds? && header.seconds * SECOND > MAX_INT64 ==> delay == Some(MAX_INT64)
  {
    match header
    case Seconds(seconds) => (match RetryAfterSeconds(seconds) case Some(d) => Some(d) case None => None)
    case Date(until) => Some(if until < 0 then 0 else until)
    case _ => None
  }
}
