/** The pull inbox over whole runs. */
module PullRuns {
  import opened Prelude
  import opened PullModel

  datatype Step = DoEnqueue(id: nat, payload: string) | DoTake(now: int, limit: Option<real>, lease: Option<real>) | DoAck(ids: seq<nat>)

  function Next(s: State, step: Step): State {
    match step
    case DoEnqueue(id, payload) => Enqueue(s, id, payload)
    case DoTake(now, limit, lease) => Take(s, now, ClampLimit(limit), ClampLeaseMs(lease))
    case DoAck(ids) => AckAll(s, ids)
  }

  function Run(trace: seq<Step>): State {
    if trace == [] then State(map[], []) else Next(Run(trace[..|trace| - 1]), trace[|trace| - 1])
  }

  /** How often an id was offered. */
  function Offers(log: seq<Event>, id: nat): nat {
    if log == [] then 0
    else Offers(log[..|log| - 1], id) + if log[|log| - 1].Offered? && log[|log| - 1].id == id then 1 else 0
  }

  /** An offer keeps to what stands: its payload, the leases before it, and that it was not acked. */
  ghost predicate Follows(earlier: Event, later: Event) {
    earlier.id == later.id ==>
      match later
      case Enqueued(_, _) => false
      case Acknowledged(_) => true
      case Offered(_, payload, attempt, now, until) =>
        match earlier
        case Enqueued(_, first) => payload == first
        case Offered(_, first, before, _, expires) => payload == first && before < attempt && expires <= now < until
        case Acknowledged(_) => false
  }

  ghost predicate LogOk(log: seq<Event>) { forall i, j | 0 <= i < j < |log| :: Follows(log[i], log[j]) }

  /** A row sums up its events. */
  ghost predicate RowTells(row: Row, e: Event) {
    match e
    case Enqueued(_, payload) => payload == row.payload
    case Offered(_, payload, attempt, _, until) => payload == row.payload && attempt <= row.attempts && until <= row.leasedUntil && row.phase != Owed
    case Acknowledged(_) => row.phase == Acked
  }

  ghost predicate Inv(s: State) {
    && LogOk(s.log)
    && (forall i | 0 <= i < |s.log| :: s.log[i].id in s.rows && RowTells(s.rows[s.log[i].id], s.log[i]))
    && (forall id | id in s.rows :: s.rows[id].attempts == Offers(s.log, id))
  }

  lemma {:induction false} NoOffers(log: seq<Event>, id: nat)
    requires forall i | 0 <= i < |log| :: log[i].id != id
    ensures Offers(log, id) == 0
  {
    if log != [] { NoOffers(log[..|log| - 1], id); }
  }

  lemma Append(log: seq<Event>, e: Event, id: nat)
    ensures Offers(log + [e], id) == Offers(log, id) + if e.Offered? && e.id == id then 1 else 0
  {}

  /** One more event that follows all before it, with the row it leaves. */
  lemma EventInv(s: State, row: Row, e: Event)
    requires Inv(s) && RowTells(row, e)
    requires forall i | 0 <= i < |s.log| :: Follows(s.log[i], e) && (s.log[i].id == e.id ==> RowTells(row, s.log[i]))
    requires row.attempts == Offers(s.log, e.id) + if e.Offered? then 1 else 0
    ensures Inv(State(s.rows[e.id := row], s.log + [e]))
  {}

  lemma EnqueueInv(s: State, id: nat, payload: string)
    requires Inv(s)
    ensures Inv(Enqueue(s, id, payload))
  {
    if id !in s.rows {
      NoOffers(s.log, id);
      EventInv(s, Row(payload, Owed, 0, 0), Enqueued(id, payload));
    }
  }

  lemma OfferInv(s: State, id: nat, now: int, lease: int)
    requires Inv(s) && lease >= 1 && id in s.rows && Eligible(s.rows[id], now)
    ensures Inv(Offer(s, id, now, lease))
  {}

  lemma AckInv(s: State, id: nat)
    requires Inv(s)
    ensures Inv(AckOne(s, id))
  {}

  lemma {:induction false} AckAllInv(s: State, ids: seq<nat>)
    requires Inv(s)
    ensures Inv(AckAll(s, ids))
  {
    if ids != [] {
      AckAllInv(s, ids[..|ids| - 1]);
      AckInv(AckAll(s, ids[..|ids| - 1]), ids[|ids| - 1]);
    }
  }

  /** The chosen ids are the smallest ones, each once, in order. */
  lemma {:induction false} SmallestAre(ids: set<nat>, limit: nat)
    ensures var chosen := Smallest(ids, limit);
      && |chosen| == (if |ids| < limit then |ids| else limit)
      && (forall i | 0 <= i < |chosen| :: chosen[i] in ids)
      && (forall i, j | 0 <= i < j < |chosen| :: chosen[i] < chosen[j])
      && (forall id, i | id in ids && id !in chosen && 0 <= i < |chosen| :: chosen[i] < id)
    decreases limit
  {
    if limit > 0 && ids != {} {
      var least := Least(ids);
      SmallestAre(ids - {least}, limit - 1);
      var rest := Smallest(ids - {least}, limit - 1);
      assert Smallest(ids, limit) == [least] + rest;
      assert |ids - {least}| == |ids| - 1;
    }
  }

  /** Offering other ids leaves a row alone. */
  lemma {:induction false} OffersElsewhere(s: State, ids: seq<nat>, now: int, lease: int, id: nat)
    requires id !in ids
    ensures (id in OfferAll(s, ids, now, lease).rows <==> id in s.rows) && (id in s.rows ==> OfferAll(s, ids, now, lease).rows[id] == s.rows[id])
  {
    if ids != [] { OffersElsewhere(s, ids[..|ids| - 1], now, lease, id); }
  }

  lemma {:induction false} OfferAllInv(s: State, ids: seq<nat>, now: int, lease: int)
    requires Inv(s) && lease >= 1
    requires forall i | 0 <= i < |ids| :: ids[i] in s.rows && Eligible(s.rows[ids[i]], now)
    requires forall i, j | 0 <= i < j < |ids| :: ids[i] < ids[j]
    ensures Inv(OfferAll(s, ids, now, lease))
  {
    if ids != [] {
      var before, last := ids[..|ids| - 1], ids[|ids| - 1];
      OfferAllInv(s, before, now, lease);
      OffersElsewhere(s, before, now, lease, last);
      OfferInv(OfferAll(s, before, now, lease), last, now, lease);
    }
  }

  lemma StepInv(s: State, step: Step)
    requires Inv(s)
    ensures Inv(Next(s, step))
  {
    match step
    case DoEnqueue(id, payload) => EnqueueInv(s, id, payload);
    case DoAck(ids) => AckAllInv(s, ids);
    case DoTake(now, limit, lease) =>
      SmallestAre(EligibleIds(s.rows, now), ClampLimit(limit));
      OfferAllInv(s, Smallest(EligibleIds(s.rows, now), ClampLimit(limit)), now, ClampLeaseMs(lease));
  }

  lemma {:induction false} RunInv(trace: seq<Step>)
    ensures Inv(Run(trace))
  {
    if trace != [] {
      RunInv(trace[..|trace| - 1]);
      StepInv(Run(trace[..|trace| - 1]), trace[|trace| - 1]);
    }
  }

  /**
   * In every run: an offer comes only after the end of every earlier lease on its id and never
   * after an ack, carries the payload of the first enqueue, and every row counts its offers.
   */
  lemma OffersKeepFaith(trace: seq<Step>, i: nat, j: nat)
    requires i < j < |Run(trace).log| && Run(trace).log[j].Offered? && Run(trace).log[i].id == Run(trace).log[j].id
    ensures var earlier, offer := Run(trace).log[i], Run(trace).log[j];
      && !earlier.Acknowledged? && earlier.payload == offer.payload
      && (earlier.Offered? ==> earlier.until <= offer.now && earlier.attempt < offer.attempt)
  {
    RunInv(trace);
    assert Follows(Run(trace).log[i], Run(trace).log[j]);
  }

  lemma AttemptsCountOffers(trace: seq<Step>, id: nat)
    requires id in Run(trace).rows
    ensures Run(trace).rows[id].attempts == Offers(Run(trace).log, id)
  {
    RunInv(trace);
  }
}
