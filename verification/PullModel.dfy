/**
 * The leased pull inbox (`PullInbox`): rows are offered under a lease, offered again when it runs
 * out, and never again once acked. Ids are numbers here; the code orders them as text.
 */
module PullModel {
  import opened Prelude

  datatype Phase = Owed | Leased | Acked
  datatype Row = Row(payload: string, phase: Phase, attempts: nat, leasedUntil: int)

  /** What clients and senders can observe, in order. */
  datatype Event =
    | Enqueued(id: nat, payload: string)
    | Offered(id: nat, payload: string, attempt: nat, now: int, until: int)
    | Acknowledged(id: nat)

  datatype State = State(rows: map<nat, Row>, log: seq<Event>)

  const DEFAULT_LEASE_MS: int := 30000
  const DEFAULT_LIMIT: nat := 16

  /** A lease in range; anything that is not a number of at least one is the default. */
  function ClampLeaseMs(value: Option<real>): (lease: int)
    ensures 1 <= lease <= 300000
  {
    if value.None? || value.value < 1.0 then DEFAULT_LEASE_MS
    else if value.value.Floor > 300000 then 300000 else value.value.Floor
  }

  function ClampLimit(value: Option<real>): (limit: nat)
    ensures 1 <= limit <= 50
  {
    if value.None? || value.value.Floor as real != value.value || value.value < 1.0 then DEFAULT_LIMIT
    else if value.value.Floor > 50 then 50 else value.value.Floor
  }

  // ---- which rows are offered -------------------------------------------------------------------

  predicate Eligible(row: Row, now: int) { row.phase != Acked && (row.phase != Leased || row.leasedUntil <= now) }

  function EligibleIds(rows: map<nat, Row>, now: int): set<nat> { set id | id in rows && Eligible(rows[id], now) }

  lemma {:induction false} LeastExists(ids: set<nat>) returns (least: nat)
    requires ids != {}
    ensures least in ids && forall x | x in ids :: least <= x
  {
    var id :| id in ids;
    var rest := ids - {id};
    assert forall x | x in ids :: x == id || x in rest;
    least := id;
    if rest != {} {
      var other := LeastExists(rest);
      least := if id <= other then id else other;
    }
  }

  lemma SomeLeast(ids: set<nat>)
    requires ids != {}
    ensures exists id :: id in ids && forall x | x in ids :: id <= x
  {
    var least := LeastExists(ids);
    assert least in ids && forall x | x in ids :: least <= x;
  }

  function Least(ids: set<nat>): (least: nat)
    requires ids != {}
    ensures least in ids && forall x | x in ids :: least <= x
  {
    SomeLeast(ids);
    var id :| id in ids && forall x | x in ids :: id <= x;
    id
  }

  /** The `limit` smallest ids, in order. */
  function Smallest(ids: set<nat>, limit: nat): seq<nat>
    decreases limit
  {
    if limit == 0 || ids == {} then [] else [Least(ids)] + Smallest(ids - {Least(ids)}, limit - 1)
  }

  // ---- the operations ----------------------------------------------------------------------------

  function Enqueue(s: State, id: nat, payload: string): State {
    if id in s.rows then s else State(s.rows[id := Row(payload, Owed, 0, 0)], s.log + [Enqueued(id, payload)])
  }

  function Leasing(row: Row, now: int, lease: int): Row { row.(phase := Leased, attempts := row.attempts + 1, leasedUntil := now + lease) }

  function Offer(s: State, id: nat, now: int, lease: int): State {
    if id !in s.rows then s
    else
      var row := Leasing(s.rows[id], now, lease);
      State(s.rows[id := row], s.log + [Offered(id, row.payload, row.attempts, now, row.leasedUntil)])
  }

  function OfferAll(s: State, ids: seq<nat>, now: int, lease: int): State {
    if ids == [] then s else Offer(OfferAll(s, ids[..|ids| - 1], now, lease), ids[|ids| - 1], now, lease)
  }

  function Take(s: State, now: int, limit: nat, lease: int): State {
    OfferAll(s, Smallest(EligibleIds(s.rows, now), limit), now, lease)
  }

  function AckOne(s: State, id: nat): State {
    if id !in s.rows then s else State(s.rows[id := s.rows[id].(phase := Acked)], s.log + [Acknowledged(id)])
  }

  function AckAll(s: State, ids: seq<nat>): State {
    if ids == [] then s else AckOne(AckAll(s, ids[..|ids| - 1]), ids[|ids| - 1])
  }
}
