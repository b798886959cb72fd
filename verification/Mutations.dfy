/**
 * Idempotent mutation (`createContext().mutate`): the effect of a piece of work and the record
 * that it was done are one transaction, under a key made of the actor, the operation and the
 * caller's idempotency key.
 */
module Mutations {
  import opened Prelude
  import opened Messages
  import opened RecordKeys
  import opened MemoryStorage

  /** What the storage holds: results of mutations, and everything else. */
  datatype Item = Bound(digest: Digest, result: string) | Data(text: string)

  /** The digest covers the body and the deadline. */
  datatype Digest = Digest(body: string, retryUntil: int)

  /** Who asks for what, under which idempotency key. */
  datatype Request = Request(actor: Part, operation: Part, key: Part)

  /** What the work would do: operations outside the idempotency records and a result, or a failure. */
  datatype Work = Does(ops: seq<Op<Item>>, result: string) | Throws(code: ErrorCode)

  datatype Call = Call(request: Request, digest: Digest, now: int, retryMax: int, work: Work)

  datatype Answer = Returned(result: string) | Failed(code: ErrorCode)

  const IDEMPOTENCY: Part := [105, 100, 101, 109, 112, 111, 116, 101, 110, 99, 121]

  function SlotOf(r: Request): Key { KeyOf([IDEMPOTENCY, r.actor, r.operation, r.key]) }

  predicate Outside(op: Op<Item>) {
    op.Put? || op.Delete? ==> !StartsWith(op.key, KeyOf([IDEMPOTENCY]) + [SLASH])
  }

  function Refusal(c: Call): Option<ErrorCode> {
    if c.request.actor == [] then Some(Unauthenticated) else if c.request.key == [] then Some(InvalidRequest) else None
  }

  function Late(c: Call): Option<ErrorCode> {
    if c.digest.retryUntil <= c.now then Some(RetryWindowExpired)
    else if c.digest.retryUntil > c.now + c.retryMax then Some(InvalidRequest) else None
  }

  /** Whether this call, with this slot, runs its work to the end. */
  predicate RunsIn(records: map<Key, Item>, slot: Key, c: Call) {
    Refusal(c).None? && slot !in records && Late(c).None? && c.work.Does?
  }

  function MutateIn(records: map<Key, Item>, slot: Key, c: Call): (map<Key, Item>, Answer) {
    if Refusal(c).Some? then (records, Failed(Refusal(c).value))
    else if slot in records then
      (records, if records[slot].Bound? && records[slot].digest == c.digest then Returned(records[slot].result) else Failed(IdConflict))
    else if Late(c).Some? then (records, Failed(Late(c).value))
    else match c.work
      case Throws(code) => (records, Failed(code))
      case Does(ops, result) => (Changes(records, ops)[slot := Bound(c.digest, result)], Returned(result))
  }

  predicate Runs(records: map<Key, Item>, c: Call) { RunsIn(records, SlotOf(c.request), c) }

  function Mutate(records: map<Key, Item>, c: Call): (map<Key, Item>, Answer) { MutateIn(records, SlotOf(c.request), c) }

  // ---- runs --------------------------------------------------------------------------------------

  /** A mutation, or any other transaction on the same store. */
  datatype Step = Calls(call: Call) | Writes(ops: seq<Op<Item>>)

  function After(records: map<Key, Item>, step: Step): map<Key, Item> {
    match step
    case Calls(c) => Mutate(records, c).0
    case Writes(ops) => Changes(records, ops)
  }

  /** Nobody but `mutate` itself writes under the idempotency prefix. */
  predicate Honest(step: Step) {
    match step
    case Calls(c) => c.work.Does? ==> forall op | op in c.work.ops :: Outside(op)
    case Writes(ops) => forall op | op in ops :: Outside(op)
  }

  function Records(trace: seq<Step>): map<Key, Item> {
    if trace == [] then map[] else After(Records(trace[..|trace| - 1]), trace[|trace| - 1])
  }

  function AnswerAt(trace: seq<Step>, i: nat): Answer
    requires i < |trace| && trace[i].Calls?
  {
    Mutate(Records(trace[..i]), trace[i].call).1
  }

  predicate RunsAt(trace: seq<Step>, i: nat) { i < |trace| && trace[i].Calls? && Runs(Records(trace[..i]), trace[i].call) }

  lemma SlotsDiffer(r: Request, s: Request)
    requires SlotOf(r) == SlotOf(s)
    ensures r == s
  {
    var p, q := [IDEMPOTENCY, r.actor, r.operation, r.key], [IDEMPOTENCY, s.actor, s.operation, s.key];
    KeyIsInjective(p, q);
    assert p[1] == q[1] && p[2] == q[2] && p[3] == q[3];
  }

  lemma SlotsAreInside(r: Request)
    ensures StartsWith(SlotOf(r), KeyOf([IDEMPOTENCY]) + [SLASH])
  {}

  /** Work outside the idempotency records leaves every one of them as it is. */
  lemma {:induction false} WorkKeeps(records: map<Key, Item>, ops: seq<Op<Item>>, slot: Key, prefix: Key)
    requires StartsWith(slot, prefix) && forall op | op in ops && (op.Put? || op.Delete?) :: !StartsWith(op.key, prefix)
    ensures Lookup(Changes(records, ops), slot) == Lookup(records, slot)
  {
    if ops != [] {
      WorkKeeps(records, ops[..|ops| - 1], slot, prefix);
      assert ops[|ops| - 1] in ops;
    }
  }

  // ---- what was done, by request -------------------------------------------------------------------

  predicate Fresh(done: map<Request, Item>, c: Call) {
    Refusal(c).None? && c.request !in done && Late(c).None? && c.work.Does?
  }

  /** The requests that ran, each with what its first call did. */
  function DoneBy(trace: seq<Step>): map<Request, Item> {
    if trace == [] then map[]
    else
      var done, step := DoneBy(trace[..|trace| - 1]), trace[|trace| - 1];
      if step.Calls? && Fresh(done, step.call) then done[step.call.request := Bound(step.call.digest, step.call.work.result)] else done
  }

  function Recall(done: map<Request, Item>, r: Request): Option<Item> { if r in done then Some(done[r]) else None }

  lemma StepSlotIn(records: map<Key, Item>, c: Call, slot: Key, other: Key, prefix: Key)
    requires c.work.Does? ==> forall op | op in c.work.ops && (op.Put? || op.Delete?) :: !StartsWith(op.key, prefix)
    requires StartsWith(other, prefix)
    ensures Lookup(MutateIn(records, slot, c).0, other)
         == if RunsIn(records, slot, c) && slot == other then Some(Bound(c.digest, c.work.result)) else Lookup(records, other)
  {
    if RunsIn(records, slot, c) { WorkKeeps(records, c.work.ops, other, prefix); }
  }

  /** One call changes one slot at most, from nothing to what it did. */
  lemma StepSlot(records: map<Key, Item>, c: Call, r: Request)
    requires Honest(Calls(c))
    ensures Lookup(Mutate(records, c).0, SlotOf(r))
         == if Runs(records, c) && c.request == r then Some(Bound(c.digest, c.work.result)) else Lookup(records, SlotOf(r))
  {
    SlotsAreInside(r);
    var prefix := KeyOf([IDEMPOTENCY]) + [SLASH];
    assert c.work.Does? ==> forall op | op in c.work.ops :: Outside(op);
    StepSlotIn(records, c, SlotOf(c.request), SlotOf(r), prefix);
    if SlotOf(c.request) == SlotOf(r) { SlotsDiffer(c.request, r); }
  }

  lemma WriteKeepsSlot(records: map<Key, Item>, ops: seq<Op<Item>>, r: Request)
    requires Honest(Writes(ops))
    ensures Lookup(Changes(records, ops), SlotOf(r)) == Lookup(records, SlotOf(r))
  {
    SlotsAreInside(r);
    assert forall op | op in ops :: Outside(op);
    WorkKeeps(records, ops, SlotOf(r), KeyOf([IDEMPOTENCY]) + [SLASH]);
  }

  /** The stored slots are exactly the requests that ran: keys never confuse two of them. */
  lemma {:induction false} SlotsTell(trace: seq<Step>, r: Request)
    requires forall c | c in trace :: Honest(c)
    ensures Lookup(Records(trace), SlotOf(r)) == Recall(DoneBy(trace), r)
  {
    if trace != [] {
      var before, step := trace[..|trace| - 1], trace[|trace| - 1];
      SlotsTell(before, r);
      match step
      case Writes(ops) => WriteKeepsSlot(Records(before), ops, r);
      case Calls(c) =>
        SlotsTell(before, c.request);
        StepSlot(Records(before), c, r);
    }
  }

  lemma RunsIfFresh(trace: seq<Step>, c: Call)
    requires forall x | x in trace :: Honest(x)
    ensures Runs(Records(trace), c) <==> Fresh(DoneBy(trace), c)
  {
    SlotsTell(trace, c.request);
  }

  predicate FreshAt(trace: seq<Step>, i: nat) { i < |trace| && trace[i].Calls? && Fresh(DoneBy(trace[..i]), trace[i].call) }

  lemma RunsAtIfFresh(trace: seq<Step>, i: nat)
    requires forall x | x in trace :: Honest(x)
    ensures RunsAt(trace, i) == FreshAt(trace, i)
  {
    if i < |trace| && trace[i].Calls? { RunsIfFresh(trace[..i], trace[i].call); }
  }

  lemma {:induction false} DoneStays(trace: seq<Step>, i: nat, r: Request)
    requires i <= |trace| && r in DoneBy(trace[..i])
    ensures r in DoneBy(trace) && DoneBy(trace)[r] == DoneBy(trace[..i])[r]
  {
    if i == |trace| {
      assert trace[..i] == trace;
    } else {
      assert trace[..|trace| - 1][..i] == trace[..i];
      DoneStays(trace[..|trace| - 1], i, r);
    }
  }

  lemma FreshMeansDone(trace: seq<Step>, i: nat, j: nat)
    requires i < j <= |trace| && FreshAt(trace, i)
    ensures Recall(DoneBy(trace[..j]), trace[i].call.request) == Some(Bound(trace[i].call.digest, trace[i].call.work.result))
  {
    assert trace[..i + 1][..i] == trace[..i] && trace[..j][..i + 1] == trace[..i + 1];
    DoneStays(trace[..j], i + 1, trace[i].call.request);
  }

  lemma {:induction false} DoneMeansFresh(trace: seq<Step>, r: Request) returns (i: nat)
    requires r in DoneBy(trace)
    ensures FreshAt(trace, i) && trace[i].call.request == r
  {
    var before := trace[..|trace| - 1];
    i := |trace| - 1;
    if r in DoneBy(before) {
      i := DoneMeansFresh(before, r);
      assert before[..i] == trace[..i];
    }
  }

  /**
   * The work of one request takes effect at most once: every later call of the same request
   * changes nothing and gets the first result, or a conflict if it asks for something else.
   */
  lemma AtMostOnce(trace: seq<Step>, i: nat, j: nat)
    requires (forall c | c in trace :: Honest(c)) && i < j < |trace| && trace[j].Calls? && RunsAt(trace, i) && trace[j].call.request == trace[i].call.request
    ensures !RunsAt(trace, j) && After(Records(trace[..j]), trace[j]) == Records(trace[..j])
    ensures AnswerAt(trace, j) == if trace[j].call.digest == trace[i].call.digest then Returned(trace[i].call.work.result) else Failed(IdConflict)
  {
    RunsAtIfFresh(trace, i);
    FreshMeansDone(trace, i, j);
    SlotsTell(trace[..j], trace[i].call.request);
    AnsweredFrom(Records(trace[..j]), trace[j].call, trace[i].call.digest, trace[i].call.work.result);
  }

  lemma AnsweredFrom(records: map<Key, Item>, c: Call, digest: Digest, result: string)
    requires Refusal(c).None? && Lookup(records, SlotOf(c.request)) == Some(Bound(digest, result))
    ensures !Runs(records, c) && Mutate(records, c) == (records, if c.digest == digest then Returned(result) else Failed(IdConflict))
  {
    AnsweredFromSlot(records, SlotOf(c.request), c);
  }

  lemma AnsweredFromSlot(records: map<Key, Item>, slot: Key, c: Call)
    requires Refusal(c).None? && slot in records && records[slot].Bound?
    ensures !RunsIn(records, slot, c)
    ensures MutateIn(records, slot, c) == (records, if c.digest == records[slot].digest then Returned(records[slot].result) else Failed(IdConflict))
  {}

  lemma FreshOnlyOnce(trace: seq<Step>, j: nat)
    requires j < |trace| && trace[j].Calls? && Refusal(trace[j].call).None? && Late(trace[j].call).None? && trace[j].call.work.Does?
    ensures FreshAt(trace, j) <==> !exists i: nat :: i < j && FreshAt(trace, i) && trace[i].call.request == trace[j].call.request
  {
    var before, r := trace[..j], trace[j].call.request;
    if i: nat :| i < j && FreshAt(trace, i) && trace[i].call.request == r { FreshMeansDone(trace, i, j); }
    if r in DoneBy(before) {
      var i := DoneMeansFresh(before, r);
      assert before[..i] == trace[..i];
      assert i < j && FreshAt(trace, i) && trace[i].call.request == r;
    }
  }

  /** A call is kept from running only by an earlier run of that very request. */
  lemma AnsweredOnlyByItself(trace: seq<Step>, j: nat)
    requires (forall c | c in trace :: Honest(c)) && j < |trace| && trace[j].Calls? && Refusal(trace[j].call).None? && Late(trace[j].call).None? && trace[j].call.work.Does?
    ensures RunsAt(trace, j) <==> !exists i: nat :: i < j && RunsAt(trace, i) && trace[i].call.request == trace[j].call.request
  {
    FreshOnlyOnce(trace, j);
    forall i: nat ensures RunsAt(trace, i) == FreshAt(trace, i) { RunsAtIfFresh(trace, i); }
  }

  /** `mutate` on the storage: one transaction, in which the work and its record stand or fall together. */
  method Perform(storage: Storage<Item>, c: Call) returns (answer: Answer)
    requires storage.changes == map[] && storage.deleted == {}
    modifies storage
    ensures storage.changes == map[] && storage.deleted == {}
    ensures (storage.records, answer) == Mutate(old(storage.records), c)
  {
    answer := PerformIn(storage, SlotOf(c.request), c);
  }

  method PerformIn(storage: Storage<Item>, slot: Key, c: Call) returns (answer: Answer)
    requires storage.changes == map[] && storage.deleted == {}
    modifies storage
    ensures storage.changes == map[] && storage.deleted == {}
    ensures (storage.records, answer) == MutateIn(old(storage.records), slot, c)
  {
    if c.request.actor == [] { return Failed(Unauthenticated); }
    if c.request.key == [] { return Failed(InvalidRequest); }
    assert storage.View() == storage.records;
    var previous := storage.Get(slot);
    if previous.Some? {
      if !previous.value.Bound? || previous.value.digest != c.digest { return Failed(IdConflict); }
      return Returned(previous.value.result);
    }
    var late := Late(c);
    if late.Some? { return Failed(late.value); }
    match c.work
    case Throws(code) => return Failed(code);
    case Does(ops, result) =>
      WorkAndRecord(storage, ops, slot, Bound(c.digest, result));
      return Returned(result);
  }

  /** The operations of the work and the record of it, in one transaction. */
  method WorkAndRecord(storage: Storage<Item>, ops: seq<Op<Item>>, slot: Key, item: Item)
    requires storage.changes == map[] && storage.deleted == {}
    modifies storage
    ensures storage.changes == map[] && storage.deleted == {}
    ensures storage.records == Changes(old(storage.records), ops)[slot := item]
  {
    var all := ops + [Put(slot, item)];
    assert all[..|ops|] == ops;
    var _ := storage.Transaction(all, false);
  }
}
