/**
 * The outbound record of one message (`#deliver`, `#commit`, `#transmit`, `#recover` of the
 * client): one slot per message, rewritten by sends, by transmission results and by recovery.
 */
module OutboundModel {
  import opened Prelude
  import opened Messages

  const MAX_ATTEMPTS: nat := 10
  const RETRY_BASE_MS: int := 24000
  const RETRY_MAX_MS: int := 900000

  datatype Admission = Pending | Unknown | Unreachable | Refused | Accepted

  datatype Record = Record(request: SendRequest, expectedAuthor: NodeId, state: Admission,
                           receipt: Option<Receipt>, error: Option<ErrorCode>,
                           attempt: Option<nat>, nextAttempt: Option<int>, context: Option<string>)

  type Slot = Option<Record>

  /** Codes a peer records as a terminal refusal before acceptance. */
  predicate Terminal(code: ErrorCode) {
    code in {InvalidRequest, Forbidden, NotAMember, NotFound, IdConflict, RevisionConflict, Conflict, ThreadClosed,
             RetryWindowExpired, PayloadTooLarge, UnsupportedMediaType, UnsupportedDelivery, AmbiguousTarget, AmbiguousResource}
  }

  /** Anything that is not a recorded refusal leaves the admission unknown. */
  function AdmissionOf(code: ErrorCode, retryable: bool): Admission {
    if !retryable && Terminal(code) then Refused else Unknown
  }

  function Doubled(base: int, times: nat): int { if times == 0 then base else 2 * Doubled(base, times - 1) }

  /** The delay before attempt number `attempt`, counted from one. */
  function BackoffMs(attempt: nat): int {
    var delay := Doubled(RETRY_BASE_MS, if attempt > 1 then attempt - 1 else 0);
    if delay < RETRY_MAX_MS then delay else RETRY_MAX_MS
  }

  // ---- an explicit send ------------------------------------------------------------------

  /** What a message is apart from how it is delivered; the slot fixes its identity. */
  predicate SameContent(one: SendRequest, two: SendRequest) { one.message == two.message && one.target == two.target }

  predicate ConflictsWith(slot: Slot, request: SendRequest) {
    slot.Some? && !SameContent(slot.value.request, request)
  }

  function Deliver(slot: Slot, request: SendRequest, author: NodeId, context: Option<string>): Slot {
    match slot
    case None => Some(Record(request, author, Pending, None, None, None, None, context))
    case Some(stored) =>
      var recontexted := if context.Some? then stored.(context := context) else stored;
      if !SameContent(stored.request, request) then slot
      else if stored.state == Accepted then Some(recontexted)
      else Some(recontexted.(state := Pending, attempt := None, nextAttempt := None))
  }

  // ---- committing a result --------------------------------------------------------------

  /** What a transmission or an expiry writes over the snapshot it started from; an absent field is kept. */
  datatype Change = Change(state: Admission, receipt: Option<Receipt>, error: Option<ErrorCode>, attempt: Option<nat>, nextAttempt: Option<int>)

  function Changed(record: Record, c: Change): Record {
    var next := record.(state := c.state, receipt := Or(c.receipt, record.receipt), error := Or(c.error, record.error),
                        attempt := Or(c.attempt, record.attempt), nextAttempt := Or(c.nextAttempt, record.nextAttempt));
    match c.state
    case Accepted => next.(error := None, nextAttempt := None, attempt := None)
    case Refused => next.(nextAttempt := None, attempt := None)
    case Unreachable => next.(nextAttempt := None)
    case _ => next
  }

  /** Acceptance is final; anything else is overwritten by the committing snapshot. */
  function Commit(slot: Slot, record: Record, c: Change): Slot {
    if slot.Some? && slot.value.state == Accepted then slot else Some(Changed(record, c))
  }

  // ---- one transmission -------------------------------------------------------------------

  /** How a transmission ended; an abandoned one writes nothing. */
  datatype Outcome = Admitted(receipt: Receipt) | Failed(code: ErrorCode, retryable: bool) | Abandoned

  function FailureChange(slot: Slot, code: ErrorCode, retryable: bool, now: int): Change {
    var state := AdmissionOf(code, retryable);
    if state == Refused then Change(Refused, None, Some(code), None, None)
    else
      var attempt := (if slot.Some? && slot.value.attempt.Some? then slot.value.attempt.value else 0) + 1;
      if attempt >= MAX_ATTEMPTS then Change(Unreachable, None, Some(code), Some(attempt), None)
      else Change(state, None, Some(code), Some(attempt), Some(now + BackoffMs(attempt)))
  }

  function Transmit(slot: Slot, record: Record, now: int, outcome: Outcome): Slot {
    match outcome
    case Abandoned => slot
    case Admitted(receipt) => Commit(slot, record, Change(Accepted, Some(receipt), None, None, None))
    case Failed(code, retryable) => Commit(slot, record, FailureChange(slot, code, retryable, now))
  }

  // ---- recovery ---------------------------------------------------------------------------

  /** A record recovery looks at; a scheduled pass waits for the next attempt of a failed one. */
  predicate Recoverable(r: Record, scheduled: bool, now: int) {
    && (r.state == Pending || r.state == Unknown)
    && (scheduled ==> r.state == Pending || r.nextAttempt.None? || r.nextAttempt.value <= now)
  }

  predicate WindowClosed(r: Record, now: int) { r.request.retryUntil <= now }

  const EXPIRED: Change := Change(Unknown, None, Some(RetryWindowExpired), None, None)

  /** Recovery of one scanned row, at the time it comes to it. */
  function RecoverRow(slot: Slot, row: Record, now: int, outcome: Outcome): Slot {
    if WindowClosed(row, now) then if row.state != Unknown then Commit(slot, row, EXPIRED) else slot
    else Transmit(slot, row.(state := Pending), now, outcome)
  }
}
