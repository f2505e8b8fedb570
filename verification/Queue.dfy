/** The notification queue: rows of the job table and the updates the server makes to them. */
module Queue {
  import opened Wrappers
  import opened EventLog
  import opened Text
  import Timestamps

  /** Nanoseconds since the start of year 0. */
  type Time = int

  const SECOND: Time := 1_000_000_000
  const STALE: Time := 300_000_000_000

  datatype JobStatus = Pending | InFlight | Sent | Failed

  datatype Job = Job(
    spec: JobSpec, status: JobStatus, attempts: nat, nextAttemptAt: Time,
    lastError: Option<string>, retryable: bool, claimedAt: Option<Time>, sentAt: Option<Time>)

  function NewJob(spec: JobSpec, now: Time): Job {
    Job(spec, Pending, 0, now, None, true, None, None)
  }

  function Specs(jobs: seq<Job>): (specs: seq<JobSpec>)
    ensures |specs| == |jobs|
    ensures forall i | 0 <= i < |jobs| :: specs[i] == jobs[i].spec
  {
    seq(|jobs|, i requires 0 <= i < |jobs| => jobs[i].spec)
  }

  /** The text of the time compares as at or before the text of `now`, a clock time before
      year 10000; a time beyond that year counts as reached (Timestamps.TextAtMost). */
  predicate Reached(t: Time, now: Time) {
    t <= now || t >= Timestamps.YEAR_10000
  }

  /** The row may be claimed now. */
  predicate Eligible(j: Job, now: Time, maxAttempts: nat) {
    j.attempts < maxAttempts && (
      || j.status.Pending?
      || (j.status.Failed? && j.retryable && Reached(j.nextAttemptAt, now))
      || (j.status.InFlight? && j.claimedAt.Some? && j.claimedAt.value <= now - STALE))
  }

  /** What a claim looks for, in numbers: a claim is stale after five minutes, and year
      10000 starts after 3,652,425 days. */
  predicate Claimable(j: Job, now: Time, maxAttempts: nat) {
    && j.attempts < maxAttempts
    && match j.status
       case Pending => true
       case Failed =>
         j.retryable && (j.nextAttemptAt <= now || j.nextAttemptAt >= 3_652_425 * 24 * 60 * 60 * 1_000_000_000)
       case InFlight => j.claimedAt.Some? && now - j.claimedAt.value >= 5 * 60 * 1_000_000_000
       case Sent => false
  }

  lemma EligibleInNumbers(j: Job, now: Time, maxAttempts: nat)
    ensures Eligible(j, now, maxAttempts) <==> Claimable(j, now, maxAttempts)
  {
  }

  /** `<=` of two texts in the database */
  predicate AtMost(a: string, b: string) {
    !Less(b, a)
  }

  /** The same as the database decides it: the WHERE clause of a claim, on the printed
      times of the row, of the clock, and of five minutes before. */
  lemma EligibleIsWhereClause(
    j: Job, due: Timestamps.Instant, claimed: Timestamps.Instant,
    now: Timestamps.Instant, staleBefore: Timestamps.Instant, maxAttempts: nat)
    requires due.IsDate() && j.nextAttemptAt == Timestamps.Nanos(due)
    requires claimed.IsDate() && claimed.FourDigitYear()
    requires j.claimedAt.Some? ==> j.claimedAt.value == Timestamps.Nanos(claimed)
    requires now.IsDate() && now.FourDigitYear() && staleBefore.IsDate() && staleBefore.FourDigitYear()
    requires Timestamps.Nanos(staleBefore) == Timestamps.Nanos(now) - 5 * 60 * 1_000_000_000
    ensures Eligible(j, Timestamps.Nanos(now), maxAttempts) <==>
      j.attempts < maxAttempts && (
        || j.status.Pending?
        || (j.status.Failed? && j.retryable && AtMost(Timestamps.Print(due), Timestamps.Print(now)))
        || (j.status.InFlight? && j.claimedAt.Some?
            && AtMost(Timestamps.Print(claimed), Timestamps.Print(staleBefore))))
  {
    hide Less, Timestamps.Print, Timestamps.Nanos;
    Timestamps.TextAtMost(due, now);
    Timestamps.TextAtMost(claimed, staleBefore);
    Timestamps.EndOfTime(claimed);
  }

  /** The lowest id that may be claimed, or the number of rows when there is none. */
  function FirstEligible(jobs: seq<Job>, now: Time, maxAttempts: nat): (i: nat)
    ensures i <= |jobs|
    ensures i < |jobs| ==> Eligible(jobs[i], now, maxAttempts)
    ensures forall k | 0 <= k < i :: !Eligible(jobs[k], now, maxAttempts)
  {
    if jobs == [] || Eligible(jobs[0], now, maxAttempts) then 0
    else
      var i := 1 + FirstEligible(jobs[1..], now, maxAttempts);
      assert forall k | 0 < k < |jobs| :: jobs[k] == jobs[1..][k - 1];
      i
  }

  function Claimed(j: Job, now: Time): Job {
    j.(status := InFlight, attempts := j.attempts + 1, claimedAt := Some(now))
  }

  /** Only a row in flight can be completed. */
  function Completed(j: Job, now: Time): Job {
    if j.status.InFlight?
    then j.(status := Sent, sentAt := Some(now), claimedAt := None, lastError := None) else j
  }

  datatype FailureUpdate = FailureUpdate(
    attempts: nat, error: string, maxAttempts: nat, retryDelaySeconds: nat, retryable: bool, now: Time)

  /** Only a row in flight can be failed. If the next time cannot be computed, the worker
      panics before the update. */
  function FailedRow(j: Job, u: FailureUpdate): Job {
    if j.status.InFlight? && NextAttempt(u).Some?
    then j.(status := Failed, nextAttemptAt := NextAttempt(u).value, lastError := Some(u.error),
            retryable := u.retryable, claimedAt := None)
    else j
  }

  function NextAttempt(u: FailureUpdate): Option<Time> {
    if !u.retryable || u.attempts >= u.maxAttempts then Some(u.now)
    else RetryTime(u.now, u.attempts, u.retryDelaySeconds)
  }

  const U64_MAX: nat := 0xFFFF_FFFF_FFFF_FFFF
  const I64_MAX: nat := 0x7FFF_FFFF_FFFF_FFFF

  function Pow2(n: nat): (p: nat)
    ensures p >= 1
  {
    if n == 0 then 1 else 2 * Pow2(n - 1)
  }

  /** attempts.saturating_sub(1).min(10) */
  function Exponent(attempts: nat): nat {
    if attempts == 0 then 0 else if attempts - 1 < 10 then attempts - 1 else 10
  }

  /** The intended delay in seconds. */
  function Backoff(attempts: nat, base: nat): nat {
    base * Pow2(Exponent(attempts))
  }

  /** base_seconds.saturating_mul(..) */
  function Product(attempts: nat, base: nat): (p: nat)
    ensures p <= U64_MAX
  {
    if Backoff(attempts, base) <= U64_MAX then Backoff(attempts, base) else U64_MAX
  }

  /** A number of 64 unsigned bits, read as signed. */
  function AsI64(n: nat): int {
    if n <= I64_MAX then n else n - U64_MAX - 1
  }

  /** The longest duration, in seconds either way: i64::MAX milliseconds. */
  const MAX_SECONDS: int := 9_223_372_036_854_775

  /** Duration::seconds, or None where it panics. */
  function DurationSeconds(seconds: int): Option<Time> {
    if -MAX_SECONDS <= seconds <= MAX_SECONDS then Some(seconds * SECOND) else None
  }

  predicate IsDate(t: Time) {
    Timestamps.DATES_BEGIN <= t < Timestamps.DATES_END
  }

  /** Every date of the time library is one, and there is none before the first. */
  lemma DatesAreDates(a: Timestamps.Instant)
    requires a.IsDate()
    ensures IsDate(Timestamps.Nanos(a))
    ensures IsDate(Timestamps.DATES_BEGIN) && !IsDate(Timestamps.DATES_BEGIN - 1)
    ensures IsDate(Timestamps.DATES_END - 1) && !IsDate(Timestamps.DATES_END)
  {
    Timestamps.EndOfTime(a);
  }

  /** The sum of a date and a duration, or None where it panics. */
  function Later(now: Time, duration: Time): Option<Time> {
    if IsDate(now + duration) then Some(now + duration) else None
  }

  /** `retry_time`, or None where it panics. */
  function RetryTime(now: Time, attempts: nat, base: nat): Option<Time> {
    match DurationSeconds(AsI64(Product(attempts, base)))
    case None => None
    case Some(duration) => Later(now, duration)
  }

  /** Even the longest delay ends before year 10000. */
  predicate DelayInRange(now: Time, base: nat) {
    0 <= now && now + 1024 * base * SECOND < Timestamps.YEAR_10000
  }

  lemma {:induction false} Pow2Grows(m: nat, n: nat)
    requires m <= n
    ensures Pow2(m) <= Pow2(n)
    decreases n
  {
    if m < n {
      Pow2Grows(m, n - 1);
    }
  }

  lemma BackoffBounds(attempts: nat, base: nat)
    ensures base <= Backoff(attempts, base) <= 1024 * base
  {
    Pow2Grows(Exponent(attempts), 10);
    assert Pow2(10) == 1024;
    var p := Pow2(Exponent(attempts));
    assert base * 1 <= base * p <= base * 1024;
  }

  /** How far back the cast moves the retry time if the product wraps around. */
  function WrappedTime(now: Time, attempts: nat, base: nat): Time {
    now - (U64_MAX + 1 - Product(attempts, base)) * SECOND
  }

  /** What becomes of a retry time. It is the intended one exactly when that is a date;
      otherwise it lies in the past exactly when the product wraps to a time that is a
      date; and in all other cases the worker panics. */
  lemma RetryTimeExact(now: Time, attempts: nat, base: nat)
    requires IsDate(now)
    ensures var intended, r := now + Backoff(attempts, base) * SECOND, RetryTime(now, attempts, base);
      && (r == Some(intended) <==> IsDate(intended))
      && (r.Some? && r.value < now <==> IsDate(WrappedTime(now, attempts, base)))
      && (r.None? <==> !IsDate(intended) && !IsDate(WrappedTime(now, attempts, base)))
  {
    DateBounds();
  }

  /** The limits of dates in days before and after the start of year 0. */
  lemma DateBounds()
    ensures Timestamps.DATES_BEGIN == -95_745_764 * 24 * 60 * 60 * SECOND
    ensures Timestamps.DATES_END == 95_745_765 * 24 * 60 * 60 * SECOND
    ensures SECOND == 1_000_000_000
  {
    assert Timestamps.DaysBeforeYear(-262143) == -95_745_764;
    assert Timestamps.DaysBeforeYear(262143) == 95_745_765;
  }

  /** Inputs of each kind, at any clock time from year 0 on: the longest base delay is due
      one second before the failure; the others panic, in the sum of the times, in the
      duration, and in the duration with a negative number. */
  lemma HugeDelays(now: Time)
    requires 0 <= now && IsDate(now)
    ensures RetryTime(now, 1, 18_446_744_073_709_551_615) == Some(now - 1_000_000_000)
    ensures RetryTime(now, 1, 10_000_000_000_000).None?
    ensures RetryTime(now, 1, 10_000_000_000_000_000).None?
    ensures RetryTime(now, 1, 9_223_372_036_854_775_808).None?
  {
    DateBounds();
    forall base: nat ensures Backoff(1, base) == base {
      assert Pow2(0) == 1;
    }
  }

  /** A delay takes effect exactly when it is positive and ends before year 10000. Any
      other temporary failure leaves a row that is due at once, or panics. */
  lemma DelayTakesEffect(j: Job, u: FailureUpdate)
    requires j.status.InFlight? && j.attempts < u.maxAttempts && u.retryable && u.attempts < u.maxAttempts
    requires 0 <= u.now < Timestamps.YEAR_10000
    ensures FailedRow(j, u).status.Failed? && !Eligible(FailedRow(j, u), u.now, u.maxAttempts) <==>
      u.retryDelaySeconds > 0
      && u.now + Backoff(u.attempts, u.retryDelaySeconds) * SECOND < Timestamps.YEAR_10000
  {
    DateBounds();
    RetryTimeExact(u.now, u.attempts, u.retryDelaySeconds);
    BackoffBounds(u.attempts, u.retryDelaySeconds);
  }

  lemma RetryTimeInRange(now: Time, attempts: nat, base: nat)
    requires DelayInRange(now, base)
    ensures RetryTime(now, attempts, base) == Some(now + Backoff(attempts, base) * SECOND)
    ensures now + base * SECOND <= RetryTime(now, attempts, base).value < Timestamps.YEAR_10000
  {
    BackoffBounds(attempts, base);
    DateBounds();
  }

  /** Claims, completions and failures change no fixed column of any row. */
  lemma UpdatesKeepSpecs(jobs: seq<Job>, i: nat, j: Job)
    requires i < |jobs| && j.spec == jobs[i].spec
    ensures Specs(jobs[i := j]) == Specs(jobs)
  {
  }
}
