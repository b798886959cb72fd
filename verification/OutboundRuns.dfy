/** The outbound slot over whole runs: with arbitrary stale commits, and with one transmission at a time. */
module OutboundRuns {
  import opened Prelude
  import opened Messages
  import opened OutboundModel

  // ---- arbitrary stale commits --------------------------------------------------------------

  datatype StaleStep =
    | Sends(request: SendRequest, author: NodeId, context: Option<string>)
    | Commits(snapshot: Record, asPending: bool, change: Change)

  /** The slot, and every value it ever held: any of them may be a snapshot some call still works from. */
  datatype Racing = Racing(slot: Slot, held: set<Record>)

  predicate CanRace(w: Racing, ref: MessageRef, step: StaleStep) {
    match step
    case Sends(request, _, _) => request.message.ref == ref
    case Commits(snapshot, _, change) => snapshot in w.held && (change.state == Accepted <==> change.receipt.Some?)
  }

  function Snapshot(r: Record, asPending: bool): Record { if asPending then r.(state := Pending) else r }

  function Race(w: Racing, step: StaleStep): Racing {
    var slot := match step
      case Sends(request, author, context) => Deliver(w.slot, request, author, context)
      case Commits(snapshot, asPending, change) => Commit(w.slot, Snapshot(snapshot, asPending), change);
    Racing(slot, w.held + if slot.Some? then {slot.value} else {})
  }

  predicate ValidRace(ref: MessageRef, trace: seq<StaleStep>)
    decreases |trace|, 0
  {
    trace != [] ==> ValidRace(ref, trace[..|trace| - 1]) && CanRace(RunRace(ref, trace[..|trace| - 1]), ref, trace[|trace| - 1])
  }

  function RunRace(ref: MessageRef, trace: seq<StaleStep>): Racing
    requires ValidRace(ref, trace)
    decreases |trace|, 1
  {
    if trace == [] then Racing(None, {}) else Race(RunRace(ref, trace[..|trace| - 1]), trace[|trace| - 1])
  }

  predicate Agree(one: Record, two: Record) { one.request == two.request && one.expectedAuthor == two.expectedAuthor }

  /** A settled record or a dead letter carries no schedule; an accepted one has its receipt. */
  predicate Settled(r: Record) {
    && (r.state in {Accepted, Refused, Unreachable} ==> r.nextAttempt.None?)
    && (r.state in {Accepted, Refused} ==> r.attempt.None?)
    && (r.state == Accepted <==> r.receipt.Some?)
  }

  ghost predicate RaceInv(w: Racing) {
    && (w.slot.Some? <==> w.held != {})
    && (w.slot.Some? ==> w.slot.value in w.held)
    && (forall a, b | a in w.held && b in w.held :: Agree(a, b))
    && (forall r | r in w.held :: Settled(r))
    && (forall r | r in w.held && r.state == Accepted :: w.slot.value.state == Accepted)
  }

  /** One step writes a record that agrees with every one before it, and never undoes an acceptance. */
  lemma RaceWrites(w: Racing, ref: MessageRef, step: StaleStep)
    requires RaceInv(w) && CanRace(w, ref, step)
    ensures Race(w, step).slot.Some? && Settled(Race(w, step).slot.value)
    ensures w.slot.Some? ==> var after := Race(w, step).slot.value;
      && Agree(w.slot.value, after)
      && (w.slot.value.state == Accepted ==> after == w.slot.value.(context := after.context))
  {}

  lemma RaceStep(w: Racing, ref: MessageRef, step: StaleStep)
    requires RaceInv(w) && CanRace(w, ref, step)
    ensures RaceInv(Race(w, step))
  {
    RaceWrites(w, ref, step);
    var w' := Race(w, step);
    assert w'.held == w.held + {w'.slot.value};
    forall a, b | a in w'.held && b in w'.held ensures Agree(a, b) {
      if w.slot.Some? { assert (a in w.held ==> Agree(a, w.slot.value)) && (b in w.held ==> Agree(b, w.slot.value)); }
    }
  }

  lemma {:induction false} RunRaceInv(ref: MessageRef, trace: seq<StaleStep>)
    requires ValidRace(ref, trace)
    ensures RaceInv(RunRace(ref, trace))
  {
    if trace != [] {
      RunRaceInv(ref, trace[..|trace| - 1]);
      RaceStep(RunRace(ref, trace[..|trace| - 1]), ref, trace[|trace| - 1]);
    }
  }

  /**
   * Whatever races: from its first record on, a slot keeps its request and its expected author,
   * and an accepted slot keeps its receipt, its state and everything but the waiting context.
   */
  lemma {:induction false} RecordIsStable(ref: MessageRef, trace: seq<StaleStep>, more: seq<StaleStep>)
    requires ValidRace(ref, trace) && ValidRace(ref, trace + more) && RunRace(ref, trace).slot.Some?
    ensures var before, after := RunRace(ref, trace).slot, RunRace(ref, trace + more).slot;
      && after.Some? && Agree(before.value, after.value) && Settled(after.value)
      && (before.value.state == Accepted ==> after.value == before.value.(context := after.value.context))
    decreases |more|
  {
    if more == [] {
      assert trace + more == trace;
      RunRaceInv(ref, trace);
    } else {
      var rest := more[..|more| - 1];
      assert (trace + more)[..|trace + more| - 1] == trace + rest;
      RecordIsStable(ref, trace, rest);
      RunRaceInv(ref, trace + rest);
      RaceWrites(RunRace(ref, trace + rest), ref, more[|more| - 1]);
    }
  }

  // ---- one transmission at a time --------------------------------------------------------------

  datatype SerialStep =
    | Send(request: SendRequest, author: NodeId, context: Option<string>, now: int, outcome: Outcome)
    | Recover(scheduled: bool, scanned: int, now: int, outcome: Outcome)

  /** The slot, the failures counted since the last send, and when the last one was. */
  datatype Serial = Serial(slot: Slot, failures: nat, failedAt: int)

  /** Whether a step puts the message on the wire. */
  predicate Transmits(w: Serial, step: SerialStep) {
    match step
    case Send(request, _, _, _, _) => !ConflictsWith(w.slot, request)
    case Recover(scheduled, scanned, now, _) => w.slot.Some? && Recoverable(w.slot.value, scheduled, scanned) && !WindowClosed(w.slot.value, now)
  }

  predicate Counts(outcome: Outcome) { outcome.Failed? && AdmissionOf(outcome.code, outcome.retryable) == Unknown }

  function Next(w: Serial, step: SerialStep): Serial {
    match step
    case Send(request, author, context, now, outcome) =>
      if ConflictsWith(w.slot, request) then w
      else
        var sent := Deliver(w.slot, request, author, context);
        Serial(Transmit(sent, sent.value, now, outcome), if Counts(outcome) then 1 else 0, now)
    case Recover(scheduled, scanned, now, outcome) =>
      if w.slot.None? || !Recoverable(w.slot.value, scheduled, scanned) then w
      else
        var slot := RecoverRow(w.slot, w.slot.value, now, outcome);
        if Transmits(w, step) && Counts(outcome) then Serial(slot, w.failures + 1, now) else w.(slot := slot)
  }

  function Run(trace: seq<SerialStep>): Serial {
    if trace == [] then Serial(None, 0, 0) else Next(Run(trace[..|trace| - 1]), trace[|trace| - 1])
  }

  /** The record tells its series: how often it failed, when it may be tried again, when it is given up. */
  ghost predicate SerialInv(w: Serial) {
    && w.failures <= MAX_ATTEMPTS
    && (w.slot.None? ==> w.failures == 0)
    && (w.slot.Some? ==>
          var r := w.slot.value;
          && Settled(r)
          && (match r.state
              case Pending => r.attempt.None? && r.nextAttempt.None? && w.failures == 0
              case Unknown =>
                && w.failures < MAX_ATTEMPTS
                && r.attempt == (if w.failures == 0 then None else Some(w.failures))
                && r.nextAttempt == (if w.failures == 0 then None else Some(w.failedAt + BackoffMs(w.failures)))
              case Unreachable => w.failures == MAX_ATTEMPTS && r.attempt == Some(MAX_ATTEMPTS)
              case _ => w.failures < MAX_ATTEMPTS))
  }

  lemma SerialStepInv(w: Serial, step: SerialStep)
    requires SerialInv(w)
    ensures SerialInv(Next(w, step))
  {}

  /**
   * With one transmission at a time, in every run: a series counts at most ten failures and gives
   * up exactly at the tenth, its schedule is the last failure plus its backoff, and a settled
   * record or dead letter has none.
   */
  lemma {:induction false} RunSerialInv(trace: seq<SerialStep>)
    ensures SerialInv(Run(trace))
  {
    if trace != [] {
      RunSerialInv(trace[..|trace| - 1]);
      SerialStepInv(Run(trace[..|trace| - 1]), trace[|trace| - 1]);
    }
  }

  /** Recovery transmits only inside the window, only an open record, and on schedule when asked to keep it. */
  lemma RecoveryIsBounded(trace: seq<SerialStep>, step: SerialStep)
    requires step.Recover? && Transmits(Run(trace), step)
    ensures var w := Run(trace);
      && step.now < w.slot.value.request.retryUntil
      && w.slot.value.state !in {Accepted, Refused, Unreachable} && w.failures < MAX_ATTEMPTS
      && (step.scheduled && w.failures > 0 ==> step.scanned >= w.failedAt + BackoffMs(w.failures))
  {
    RunSerialInv(trace);
  }

  /** Only an explicit send revives a dead letter: until one comes, the record stays as it is. */
  lemma {:induction false} DeadLetterStays(trace: seq<SerialStep>, more: seq<SerialStep>)
    requires Run(trace).slot.Some? && Run(trace).slot.value.state == Unreachable
    requires forall i | 0 <= i < |more| && more[i].Send? :: ConflictsWith(Run(trace).slot, more[i].request)
    ensures Run(trace + more) == Run(trace)
    ensures forall i | 0 <= i < |more| :: !Transmits(Run(trace), more[i])
  {
    if more == [] {
      assert trace + more == trace;
    } else {
      var rest := more[..|more| - 1];
      assert (trace + more)[..|trace + more| - 1] == trace + rest;
      DeadLetterStays(trace, rest);
      forall i | 0 <= i < |more| ensures !Transmits(Run(trace), more[i]) { if i < |rest| { assert more[i] == rest[i]; } }
    }
  }

  /** A closed window is settled as unknown and never transmitted again by recovery. */
  lemma ClosedWindowSettles(w: Serial, step: SerialStep)
    requires SerialInv(w) && step.Recover? && w.slot.Some? && WindowClosed(w.slot.value, step.now)
    ensures !Transmits(w, step)
    ensures Next(w, step).slot.value.state == (if w.slot.value.state == Pending then Unknown else w.slot.value.state)
  {}

  // ---- the backoff -----------------------------------------------------------------------------

  /** Delays start at the base, double up to the cap, never shrink, and reach the cap with the seventh attempt. */
  lemma {:induction false} BackoffDoubles(attempt: nat)
    ensures RETRY_BASE_MS <= BackoffMs(attempt) <= RETRY_MAX_MS
    ensures attempt >= 1 ==> BackoffMs(attempt + 1) == if 2 * BackoffMs(attempt) < RETRY_MAX_MS then 2 * BackoffMs(attempt) else RETRY_MAX_MS
    ensures BackoffMs(attempt) == RETRY_MAX_MS <==> attempt >= 7
  {
    if attempt > 0 {
      BackoffDoubles(attempt - 1);
      assert Doubled(RETRY_BASE_MS, attempt) == 2 * Doubled(RETRY_BASE_MS, attempt - 1);
    }
    assert Doubled(RETRY_BASE_MS, 6) == 64 * RETRY_BASE_MS && Doubled(RETRY_BASE_MS, 5) == 32 * RETRY_BASE_MS;
  }
}
