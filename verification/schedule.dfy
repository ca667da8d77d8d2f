/**
 * The rules of one pass of the updater's periodic loop
 * (`IntegrationUpdater._periodic_check`): when a retry or a regular check is
 * due, and how the outcome of `check_and_update` is folded into the three
 * scheduler fields. Times are whole seconds.
 */
module Schedule {
  import opened Wrappers
  import opened Text

  /** `CHECK_INTERVAL`: 24 hours. */
  const CheckInterval := 24 * 60 * 60
  /** `RETRY_DELAY`: 30 minutes. */
  const RetryDelay := 30 * 60
  /** `MAX_RETRY_ATTEMPTS` */
  const MaxRetryAttempts := 3
  /** `RETRY_ON_FAILURE` */
  const RetryOnFailure := true
  /** The loop sleeps 300 seconds between passes. */
  const PollPeriod := 300

  /** `last_check`, `last_failed_version` and `retry_count`. */
  datatype SchedulerState = SchedulerState(lastCheck: Option<int>, lastFailedVersion: Option<string>, retryCount: int)

  /** The pair `check_and_update` returns: success, and the version it tried to install. */
  datatype CheckOutcome = CheckOutcome(success: bool, attempted: Option<string>)

  const Initial := SchedulerState(None, None, 0)

  /**
   * The scheduler's invariant: the count stays within `0..MAX_RETRY_ATTEMPTS`,
   * a failed version is recorded exactly when the count is positive, and a
   * recorded failure has a (non-empty) version and a time.
   */
  predicate Valid(s: SchedulerState) {
    && 0 <= s.retryCount <= MaxRetryAttempts
    && (s.lastFailedVersion.None? <==> s.retryCount == 0)
    && (s.lastFailedVersion.Some? ==> s.lastFailedVersion.value != "" && s.lastCheck.Some?)
  }

  /** A failure is recorded and at least `RETRY_DELAY` has passed since the last check. */
  predicate RetryWindowOpen(s: SchedulerState, now: int) {
    RetryOnFailure && Truthy(s.lastFailedVersion) && s.lastCheck.Some? && now - s.lastCheck.value >= RetryDelay
  }

  predicate RetryDue(s: SchedulerState, now: int) {
    RetryWindowOpen(s, now) && s.retryCount < MaxRetryAttempts
  }

  /** The retry budget is spent: the failure record is dropped. */
  predicate RetriesExhausted(s: SchedulerState, now: int) {
    RetryWindowOpen(s, now) && s.retryCount >= MaxRetryAttempts
  }

  /** A regular check is due: never checked, or strictly more than `CHECK_INTERVAL` ago. */
  predicate CheckDue(s: SchedulerState, now: int) {
    s.lastCheck.None? || now - s.lastCheck.value > CheckInterval
  }

  /** The state after the first half of a pass, which may drop an exhausted failure record. */
  function Prepared(s: SchedulerState, now: int): SchedulerState {
    if RetriesExhausted(s, now) then s.(lastFailedVersion := None, retryCount := 0) else s
  }

  /** The result of one pass: the new state, and whether `check_and_update` was run. */
  datatype Step = Step(state: SchedulerState, ran: bool)

  /** The second half of a pass that ran a check: the outcome folded into the prepared state `p`. */
  function Recorded(p: SchedulerState, now: int, retry: bool, check: bool, outcome: CheckOutcome): SchedulerState {
    if outcome.success then SchedulerState(Some(now), None, 0)
    else if retry then p.(retryCount := p.retryCount + 1, lastCheck := Some(now))
    else if check && Truthy(outcome.attempted) then SchedulerState(Some(now), outcome.attempted, 1)
    else p
  }

  /** One pass of the loop, with `outcome` the result `check_and_update` would return. */
  function Next(s: SchedulerState, now: int, outcome: CheckOutcome): Step {
    var retry := RetryDue(s, now);
    var p := Prepared(s, now);
    var check := CheckDue(p, now);
    if !(retry || check) then Step(p, false)
    else Step(Recorded(p, now, retry, check, outcome), true)
  }

  /** Every pass keeps the invariant. */
  lemma NextKeepsValid(s: SchedulerState, now: int, outcome: CheckOutcome)
    requires Valid(s)
    ensures Valid(Next(s, now, outcome).state)
  {
  }

  /** A pass calls `check_and_update` exactly when a retry or a regular check is due. */
  lemma RunsExactlyWhenDue(s: SchedulerState, now: int, outcome: CheckOutcome)
    ensures Next(s, now, outcome).ran <==> RetryDue(s, now) || CheckDue(s, now)
  {
  }

  /** Success clears the failure record and restarts the interval from `now`. */
  lemma SuccessResets(s: SchedulerState, now: int, outcome: CheckOutcome)
    requires RetryDue(s, now) || CheckDue(s, now)
    requires outcome.success
    ensures Next(s, now, outcome).state == SchedulerState(Some(now), None, 0)
  {
  }

  /** A failed retry counts one more attempt, keeps the failed version and restarts the delay. */
  lemma FailedRetryCounts(s: SchedulerState, now: int, outcome: CheckOutcome)
    requires RetryDue(s, now) && !outcome.success
    ensures Next(s, now, outcome).state
         == SchedulerState(Some(now), s.lastFailedVersion, s.retryCount + 1)
  {
  }

  /** A failed regular check that attempted a version records it as the first attempt. */
  lemma FailedCheckRecords(s: SchedulerState, now: int, outcome: CheckOutcome)
    requires !RetryDue(s, now) && CheckDue(s, now)
    requires !outcome.success && Truthy(outcome.attempted)
    ensures Next(s, now, outcome).state == SchedulerState(Some(now), outcome.attempted, 1)
  {
  }

  /**
   * A regular check that attempted nothing (no newer version, or the release
   * could not be read) records nothing: the state is the one the pass
   * started from after its retry bookkeeping, `last_check` stays where it
   * was, and the check is due again on the next pass, `PollPeriod` seconds
   * later.
   */
  lemma QuietCheckStaysDue(s: SchedulerState, now: int, outcome: CheckOutcome)
    requires Valid(s) && !RetryDue(s, now) && CheckDue(s, now)
    requires !outcome.success && !Truthy(outcome.attempted)
    ensures Next(s, now, outcome).ran
    ensures Next(s, now, outcome).state == Prepared(s, now)
    ensures Next(s, now, outcome).state.lastCheck == s.lastCheck
    ensures CheckDue(Next(s, now, outcome).state, now + PollPeriod)
  {
  }

  /**
   * Once `MAX_RETRY_ATTEMPTS` attempts have failed, the next pass past the
   * retry delay drops the record without retrying; unless the regular
   * interval has also elapsed, nothing is run.
   */
  lemma ExhaustedRetriesAbandoned(s: SchedulerState, now: int, outcome: CheckOutcome)
    requires Valid(s) && s.retryCount == MaxRetryAttempts
    requires now - s.lastCheck.value >= RetryDelay
    ensures !RetryDue(s, now)
    ensures !CheckDue(s, now) ==> Next(s, now, outcome) == Step(SchedulerState(s.lastCheck, None, 0), false)
  {
  }

  /** The retry budget left in a state: attempts still allowed for the recorded version. */
  function Budget(s: SchedulerState): nat
    requires Valid(s)
  {
    if s.lastFailedVersion.Some? then MaxRetryAttempts - s.retryCount else 0
  }

  /** Whether a pass records a newly failed version. */
  predicate Records(s: SchedulerState, now: int, outcome: CheckOutcome) {
    !RetryDue(s, now) && CheckDue(Prepared(s, now), now) && !outcome.success && Truthy(outcome.attempted)
  }

  /** One observation of the loop: the time of the pass and what a check would return. */
  datatype Pass = Pass(now: int, outcome: CheckOutcome)

  /** The number of retries among the passes. */
  function RetriesIn(s: SchedulerState, passes: seq<Pass>): nat
    decreases |passes|
  {
    if passes == [] then 0
    else
      (if RetryDue(s, passes[0].now) then 1 else 0)
      + RetriesIn(Next(s, passes[0].now, passes[0].outcome).state, passes[1..])
  }

  /** The number of newly recorded failures among the passes. */
  function RecordsIn(s: SchedulerState, passes: seq<Pass>): nat
    decreases |passes|
  {
    if passes == [] then 0
    else
      (if Records(s, passes[0].now, passes[0].outcome) then 1 else 0)
      + RecordsIn(Next(s, passes[0].now, passes[0].outcome).state, passes[1..])
  }

  lemma StepBudget(s: SchedulerState, now: int, outcome: CheckOutcome)
    requires Valid(s)
    ensures Valid(Next(s, now, outcome).state)
    ensures Budget(Next(s, now, outcome).state) + (if RetryDue(s, now) then 1 else 0)
            <= Budget(s) + (if Records(s, now, outcome) then MaxRetryAttempts - 1 else 0)
  {
  }

  /**
   * Over any run of passes, a failed version is retried at most
   * `MAX_RETRY_ATTEMPTS - 1` times after the check that recorded it: the
   * retries are bounded by the budget at the start plus that much per
   * recorded failure.
   */
  lemma {:induction false} RetriesBounded(s: SchedulerState, passes: seq<Pass>)
    requires Valid(s)
    ensures RetriesIn(s, passes) <= Budget(s) + (MaxRetryAttempts - 1) * RecordsIn(s, passes)
    decreases |passes|
  {
    if passes != [] {
      var p := passes[0];
      StepBudget(s, p.now, p.outcome);
      RetriesBounded(Next(s, p.now, p.outcome).state, passes[1..]);
    }
  }

  /** Starting fresh, a run retries at most twice per recorded failure. */
  lemma FreshRunRetries(passes: seq<Pass>)
    ensures RetriesIn(Initial, passes) <= (MaxRetryAttempts - 1) * RecordsIn(Initial, passes)
  {
    RetriesBounded(Initial, passes);
  }
}
