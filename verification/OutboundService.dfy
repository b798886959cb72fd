/** The client's outbound records as they run; each method is proved against its function in `OutboundModel`. */
module OutboundService {
  import opened Prelude
  import opened Messages
  import M = OutboundModel
  import opened OutboundModel
  import R = OutboundRuns

  class OutboundRecords {
    var records: map<MessageRef, Record>

    constructor ()
      ensures records == map[]
    {
      records := map[];
    }

    function At(ref: MessageRef): Slot
      reads this
    {
      if ref in records then Some(records[ref]) else None
    }

    /** Only the slot of `ref` may differ. */
    twostate predicate OnlyAt(ref: MessageRef)
      reads this
    {
      forall other | other != ref :: At(other) == old(At(other))
    }

    /** Records one send; a slot bound to other content is a conflict and stays as it is. */
    method Deliver(request: SendRequest, author: NodeId, context: Option<string>) returns (record: Option<Record>)
      modifies this
      ensures At(request.message.ref) == M.Deliver(old(At(request.message.ref)), request, author, context) && OnlyAt(request.message.ref)
      ensures record.None? <==> ConflictsWith(old(At(request.message.ref)), request)
      ensures record.Some? ==> record == At(request.message.ref)
    {
      var ref := request.message.ref;
      if ref in records {
        var stored := records[ref];
        if !SameContent(stored.request, request) { return None; }
        if context.Some? && stored.context != context { stored := stored.(context := context); }
        if stored.state != Accepted { stored := stored.(state := Pending, attempt := None, nextAttempt := None); }
        records := records[ref := stored];
      } else {
        records := records[ref := Record(request, author, Pending, None, None, None, None, context)];
      }
      return Some(records[ref]);
    }

    /** Writes one result over the snapshot it belongs to, unless the slot is accepted already. */
    method Commit(record: Record, change: Change)
      modifies this
      ensures At(record.request.message.ref) == M.Commit(old(At(record.request.message.ref)), record, change) && OnlyAt(record.request.message.ref)
    {
      var ref := record.request.message.ref;
      if ref in records && records[ref].state == Accepted { return; }
      var next := record.(state := change.state);
      if change.receipt.Some? { next := next.(receipt := change.receipt); }
      if change.error.Some? { next := next.(error := change.error); }
      if change.attempt.Some? { next := next.(attempt := change.attempt); }
      if change.nextAttempt.Some? { next := next.(nextAttempt := change.nextAttempt); }
      if next.state == Accepted { next := next.(error := None); }
      if next.state in {Accepted, Refused, Unreachable} {
        next := next.(nextAttempt := None);
        if next.state != Unreachable { next := next.(attempt := None); }
      }
      records := records[ref := next];
    }

    /** One transmission and what became of it. */
    method Transmit(record: Record, now: int, outcome: Outcome)
      modifies this
      ensures At(record.request.message.ref) == M.Transmit(old(At(record.request.message.ref)), record, now, outcome) && OnlyAt(record.request.message.ref)
    {
      var ref := record.request.message.ref;
      match outcome
      case Abandoned =>
      case Admitted(receipt) => Commit(record, Change(Accepted, Some(receipt), None, None, None));
      case Failed(code, retryable) =>
        if AdmissionOf(code, retryable) == Refused {
          Commit(record, Change(Refused, None, Some(code), None, None));
        } else {
          var attempt := 1 + if ref in records && records[ref].attempt.Some? then records[ref].attempt.value else 0;
          var terminal := attempt >= MAX_ATTEMPTS;
          Commit(record, Change(if terminal then Unreachable else Unknown, None, Some(code), Some(attempt),
                                if terminal then None else Some(now + BackoffMs(attempt))));
        }
    }

    /** What a pass makes of the `k`-th scanned slot. */
    static function Recovered(slot: Slot, scheduled: bool, scanned: int, now: int, outcome: Outcome): Slot {
      if slot.Some? && Recoverable(slot.value, scheduled, scanned) then RecoverRow(slot, slot.value, now, outcome) else slot
    }

    /** One recovery pass over the scanned slots, with the clock and the outcome each of them meets. */
    method Recover(order: seq<MessageRef>, scheduled: bool, scanned: int, clocks: seq<int>, outcomes: seq<Outcome>)
      returns (sent: seq<(MessageRef, int)>)
      requires |clocks| == |order| && |outcomes| == |order| && (forall i, j | 0 <= i < j < |order| :: order[i] != order[j])
      requires forall ref | ref in records :: records[ref].request.message.ref == ref
      modifies this
      ensures forall k | 0 <= k < |order| :: At(order[k]) == Recovered(old(At(order[k])), scheduled, scanned, clocks[k], outcomes[k])
      ensures forall ref | ref !in order :: At(ref) == old(At(ref))
      ensures forall x | x in sent :: x.0 in old(records) && Recoverable(old(records)[x.0], scheduled, scanned) && x.1 < old(records)[x.0].request.retryUntil
    {
      var rows := records;
      sent := [];
      for i := 0 to |order|
        invariant forall k | 0 <= k < i :: At(order[k]) == Recovered(old(At(order[k])), scheduled, scanned, clocks[k], outcomes[k])
        invariant forall ref | ref !in order[..i] :: At(ref) == old(At(ref))
        invariant forall x | x in sent :: x.0 in rows && Recoverable(rows[x.0], scheduled, scanned) && x.1 < rows[x.0].request.retryUntil
      {
        var ref := order[i];
        assert ref !in order[..i];
        if ref in rows && Recoverable(rows[ref], scheduled, scanned) {
          if WindowClosed(rows[ref], clocks[i]) {
            if rows[ref].state != Unknown { Commit(rows[ref], EXPIRED); }
          } else {
            sent := sent + [(ref, clocks[i])];
            Transmit(rows[ref].(state := Pending), clocks[i], outcomes[i]);
          }
        }
        assert order[..i + 1] == order[..i] + [ref];
      }
    }
  }

  /** A pass does to each slot what the serial run does in one recovery step. */
  lemma PassIsSerial(w: R.Serial, scheduled: bool, scanned: int, now: int, outcome: Outcome)
    ensures R.Next(w, R.Recover(scheduled, scanned, now, outcome)).slot == OutboundRecords.Recovered(w.slot, scheduled, scanned, now, outcome)
  {}
}
