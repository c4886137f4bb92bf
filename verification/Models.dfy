/** Log events and the admission predicate of internal/models/log.go. */
module Models {

  /** Nanoseconds since 1 January of year 1, UTC, so that Go's zero time is 0. */
  type Time = int

  const ZERO_TIME: Time := 0
  const SECOND: Time := 1_000_000_000
  const UNIX_EPOCH: Time := 62_135_596_800 * SECOND

  /** Whole seconds since the Unix epoch, rounded down as in Go. */
  function UnixSeconds(t: Time): int {
    (t - UNIX_EPOCH) / SECOND
  }

  /** The reading is k exactly in the k-th second of 1_000_000_000 ns after the start of 1970. */
  lemma ClockSeconds(t: Time, k: int)
    ensures UnixSeconds(t) == k <==>
            1_000_000_000 * k <= t - 62_135_596_800_000_000_000 < 1_000_000_000 * (k + 1)
  {
    var since := t - 62_135_596_800_000_000_000;
    assert since == 1_000_000_000 * (since / 1_000_000_000) + since % 1_000_000_000;
  }

  /** Severities are plain strings in the source; only five of them are valid. */
  type LogLevel = string

  const DEBUG: LogLevel := "DEBUG"
  const INFO: LogLevel := "INFO"
  const WARN: LogLevel := "WARN"
  const ERROR: LogLevel := "ERROR"
  const FATAL: LogLevel := "FATAL"

  predicate ValidLevel(level: LogLevel) {
    level == DEBUG || level == INFO || level == WARN || level == ERROR || level == FATAL
  }

  /** The severities the dashboards and the alerter call errors. */
  predicate IsErrorLevel(level: LogLevel) {
    level == ERROR || level == FATAL
  }

  /** `rest` stands for the fields that no modelled code inspects. */
  datatype Event = Event(
    timestamp: Time,
    serviceName: string,
    sourceId: string,
    level: LogLevel,
    message: string,
    idempotencyKey: string,
    rest: string)

  datatype Reason = NoService | NoSource | NoMessage | BadLevel

  datatype Validation = Ok(event: Event) | Invalid(reason: Reason)

  /** The schema an event must meet to be ingested. */
  predicate Acceptable(e: Event) {
    && e.serviceName != ""
    && e.sourceId != ""
    && e.message != ""
    && ValidLevel(e.level)
  }

  /** What holds of every event that validation lets through. */
  predicate Admissible(e: Event) {
    Acceptable(e) && e.timestamp != ZERO_TIME
  }

  /**
   * Checks the fields in the source's order and stamps an event without a timestamp with `now`.
   * The source writes through a pointer to the caller's own copy; here the stamped copy is returned.
   */
  function Validate(e: Event, now: Time): (r: Validation)
    ensures r.Ok? <==> Acceptable(e)
    ensures r.Ok? && now != ZERO_TIME ==> Admissible(r.event)
    ensures r.Ok? ==> r.event == e.(timestamp := if e.timestamp == ZERO_TIME then now else e.timestamp)
  {
    if e.serviceName == "" then Invalid(NoService)
    else if e.sourceId == "" then Invalid(NoSource)
    else if e.message == "" then Invalid(NoMessage)
    else if !ValidLevel(e.level) then Invalid(BadLevel)
    else if e.timestamp == ZERO_TIME then Ok(e.(timestamp := now))
    else Ok(e)
  }

  /** Which events validate, and the reason given for the others: the first requirement that fails. */
  lemma ValidatesExactly(e: Event, now: Time)
    ensures Validate(e, now).Ok? <==>
            && e.serviceName != "" && e.sourceId != "" && e.message != ""
            && e.level in {"DEBUG", "INFO", "WARN", "ERROR", "FATAL"}
    ensures Validate(e, now) == Invalid(NoService) <==> e.serviceName == ""
    ensures Validate(e, now) == Invalid(NoSource) <==> e.serviceName != "" && e.sourceId == ""
    ensures Validate(e, now) == Invalid(NoMessage) <==>
            e.serviceName != "" && e.sourceId != "" && e.message == ""
    ensures Validate(e, now).Ok? ==>
            Validate(e, now).event == e.(timestamp := if e.timestamp == 0 then now else e.timestamp)
  {
  }
}
