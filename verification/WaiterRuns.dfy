/**
 * Waiters beside the outbound slot of their message, over whole runs: whatever commits race, every
 * waiter takes the author its slot records, the slot never changes it, and so no waiter ever
 * resolves with anything but a reply to its own original by its own expected author.
 */
module WaiterRuns {
  import opened Prelude
  import opened Messages
  import O = OutboundModel
  import opened OutboundRuns
  import opened Waiters

  /** The slot, every waiter ever registered for it, and the chain the registry still reaches, oldest first. */
  datatype Awaiting = Awaiting(race: Racing, waiters: seq<Waiting>, live: seq<nat>)

  datatype AwaitStep =
    | Outbound(step: StaleStep)
    | Registers(record: O.Record)
    | Releases(waiter: nat)
    | Settles(entry: Entry)

  /** A caller registers with a record the slot held. */
  predicate CanAwait(w: Awaiting, ref: MessageRef, s: AwaitStep) {
    match s
    case Outbound(step) => CanRace(w.race, ref, step)
    case Registers(record) => record in w.race.held
    case Releases(i) => i < |w.waiters|
    case Settles(_) => true
  }

  /** The newest live waiter, which decides for its chain. */
  predicate Reaches(w: Awaiting, ref: MessageRef, e: Entry) {
    w.live != [] && w.live[|w.live| - 1] < |w.waiters| && Answers(ref, w.waiters[w.live[|w.live| - 1]].author, e)
  }

  function Next(w: Awaiting, ref: MessageRef, s: AwaitStep): Awaiting {
    match s
    case Outbound(step) => w.(race := Race(w.race, step))
    case Registers(record) => w.(waiters := w.waiters + [Waiting(record.expectedAuthor, None)], live := w.live + [|w.waiters|])
    case Releases(i) => if w.live != [] && w.live[|w.live| - 1] == i then w.(live := []) else w
    case Settles(e) =>
      if Reaches(w, ref, e)
      then w.(waiters := seq(|w.waiters|, i requires 0 <= i < |w.waiters| => if i in w.live then Resolved(w.waiters[i], e) else w.waiters[i]))
      else w
  }

  predicate Valid(ref: MessageRef, trace: seq<AwaitStep>)
    decreases |trace|, 0
  {
    trace != [] ==> Valid(ref, trace[..|trace| - 1]) && CanAwait(Run(ref, trace[..|trace| - 1]), ref, trace[|trace| - 1])
  }

  function Run(ref: MessageRef, trace: seq<AwaitStep>): Awaiting
    requires Valid(ref, trace)
    decreases |trace|, 1
  {
    if trace == [] then Awaiting(Racing(None, {}), [], []) else Next(Run(ref, trace[..|trace| - 1]), ref, trace[|trace| - 1])
  }

  /** All waiters expect the author every record of the slot names, and hold legitimate answers only. */
  ghost predicate Inv(w: Awaiting, ref: MessageRef) {
    && RaceInv(w.race) && (w.waiters != [] ==> w.race.held != {})
    && (forall i, r | 0 <= i < |w.waiters| && r in w.race.held :: w.waiters[i].author == r.expectedAuthor)
    && (forall i | 0 <= i < |w.live| :: w.live[i] < |w.waiters|)
    && Legitimate(ref, w.waiters)
  }

  lemma OutboundInv(w: Awaiting, ref: MessageRef, step: StaleStep)
    requires Inv(w, ref) && CanRace(w.race, ref, step)
    ensures Inv(Next(w, ref, Outbound(step)), ref)
  {
    RaceStep(w.race, ref, step);
    RaceWrites(w.race, ref, step);
  }

  lemma RegisterInv(w: Awaiting, ref: MessageRef, record: O.Record)
    requires Inv(w, ref) && record in w.race.held
    ensures Inv(Next(w, ref, Registers(record)), ref)
  {
    assert forall r | r in w.race.held :: Agree(r, record);
  }

  lemma SettleInv(w: Awaiting, ref: MessageRef, e: Entry)
    requires Inv(w, ref)
    ensures Inv(Next(w, ref, Settles(e)), ref)
  {
    if Reaches(w, ref, e) {
      var r :| r in w.race.held;
      var w' := Next(w, ref, Settles(e));
      forall i | 0 <= i < |w'.waiters| && w'.waiters[i].outcome.Some? ensures Answers(ref, w'.waiters[i].author, w'.waiters[i].outcome.value) {
        assert w.waiters[i].author == r.expectedAuthor == w.waiters[w.live[|w.live| - 1]].author;
      }
    }
  }

  lemma {:induction false} RunInv(ref: MessageRef, trace: seq<AwaitStep>)
    requires Valid(ref, trace)
    ensures Inv(Run(ref, trace), ref)
  {
    if trace != [] {
      var w, s := Run(ref, trace[..|trace| - 1]), trace[|trace| - 1];
      RunInv(ref, trace[..|trace| - 1]);
      match s
      case Outbound(step) => OutboundInv(w, ref, step);
      case Registers(record) => RegisterInv(w, ref, record);
      case Settles(e) => SettleInv(w, ref, e);
      case Releases(_) =>
    }
  }

  /** The waiters of one message all expect the author its slot names, whatever was sent, committed or released. */
  lemma WaitersExpectTheSlotsAuthor(ref: MessageRef, trace: seq<AwaitStep>, i: nat)
    requires Valid(ref, trace) && i < |Run(ref, trace).waiters|
    ensures var w := Run(ref, trace); w.race.slot.Some? && w.waiters[i].author == w.race.slot.value.expectedAuthor
  {
    RunInv(ref, trace);
  }

  /** Waiter safety: in every run, whatever a waiter resolved with answers its own original, by the author its slot names. */
  lemma WaiterSafety(ref: MessageRef, trace: seq<AwaitStep>, i: nat, e: Entry)
    requires Valid(ref, trace) && i < |Run(ref, trace).waiters| && Run(ref, trace).waiters[i].outcome == Some(e)
    ensures IsReply(ref, e) && Run(ref, trace).race.slot.Some? && e.author == Run(ref, trace).race.slot.value.expectedAuthor
  {
    RunInv(ref, trace);
  }

  /** The chain the registry reaches is one whose waiters expect one author, so no entry can settle it wrongly. */
  lemma LiveChainHasOneAuthor(ref: MessageRef, trace: seq<AwaitStep>)
    requires Valid(ref, trace)
    ensures var w := Run(ref, trace);
      && (forall k | 0 <= k < |w.live| :: w.live[k] < |w.waiters|)
      && OneAuthor(ref, seq(|w.live|, k requires 0 <= k < |w.live| && w.live[k] < |w.waiters| => w.waiters[w.live[k]]))
  {
    RunInv(ref, trace);
    var w := Run(ref, trace);
    if w.waiters != [] {
      var r :| r in w.race.held;
      assert forall i | 0 <= i < |w.waiters| :: w.waiters[i].author == r.expectedAuthor;
    }
  }
}
