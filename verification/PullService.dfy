/** `PullInbox` as it runs; each method is proved against its function in `PullModel`. */
module PullService {
  import opened Prelude
  import M = PullModel
  import opened PullModel

  datatype Stats = Stats(owed: nat, leased: nat, acked: nat, rows: nat)

  predicate Waits(row: Row, now: int) { row.phase == Leased && row.leasedUntil > now }

  class PullInbox {
    var rows: map<nat, Row>
    ghost var log: seq<Event>

    constructor ()
      ensures Inbox() == State(map[], [])
    {
      rows, log := map[], [];
    }

    ghost function Inbox(): State
      reads this
    {
      State(rows, log)
    }

    method Enqueue(id: nat, payload: string) returns (created: bool)
      modifies this
      ensures Inbox() == M.Enqueue(old(Inbox()), id, payload) && created == (id !in old(rows))
    {
      if id in rows { return false; }
      rows, log := rows[id := Row(payload, Owed, 0, 0)], log + [Enqueued(id, payload)];
      return true;
    }

    /** The rows free to be offered, smallest ids first, up to the limit. */
    method Select(now: int, limit: nat) returns (ids: seq<nat>)
      ensures ids == Smallest(EligibleIds(rows, now), limit)
    {
      ids := [];
      var left := EligibleIds(rows, now);
      while |ids| < limit && left != {}
        invariant |ids| <= limit && Smallest(EligibleIds(rows, now), limit) == ids + Smallest(left, limit - |ids|)
        decreases limit - |ids|
      {
        var least := Least(left);
        ids, left := ids + [least], left - {least};
      }
    }

    /** Offers rows under one lease, one row after the other. */
    method OfferRows(ids: seq<nat>, now: int, lease: int)
      modifies this
      ensures Inbox() == OfferAll(old(Inbox()), ids, now, lease)
    {
      for i := 0 to |ids|
        invariant Inbox() == OfferAll(old(Inbox()), ids[..i], now, lease)
      {
        assert ids[..i + 1][..i] == ids[..i];
        if ids[i] in rows {
          var row := rows[ids[i]];
          var next := row.(phase := Leased, attempts := row.attempts + 1, leasedUntil := now + lease);
          rows, log := rows[ids[i] := next], log + [Offered(ids[i], next.payload, next.attempts, now, next.leasedUntil)];
        }
      }
      assert ids[..|ids|] == ids;
    }

    method Take(limit: Option<real>, lease: Option<real>, now: int) returns (ids: seq<nat>)
      modifies this
      ensures Inbox() == M.Take(old(Inbox()), now, ClampLimit(limit), ClampLeaseMs(lease))
      ensures ids == Smallest(EligibleIds(old(rows), now), ClampLimit(limit))
    {
      ids := Select(now, ClampLimit(limit));
      OfferRows(ids, now, ClampLeaseMs(lease));
    }

    /** Marks what is known as acked and names what is missing. */
    method Ack(ids: seq<nat>) returns (acked: seq<nat>, missing: seq<nat>)
      modifies this
      ensures Inbox() == AckAll(old(Inbox()), ids)
      ensures forall id :: (id in acked <==> id in ids && id in old(rows)) && (id in missing <==> id in ids && id !in old(rows))
    {
      acked, missing := [], [];
      for i := 0 to |ids|
        invariant Inbox() == AckAll(old(Inbox()), ids[..i]) && rows.Keys == old(rows).Keys
        invariant forall id :: (id in acked <==> id in ids[..i] && id in old(rows)) && (id in missing <==> id in ids[..i] && id !in old(rows))
      {
        assert ids[..i + 1] == ids[..i] + [ids[i]] && ids[..i + 1][..i] == ids[..i];
        if ids[i] in rows {
          rows, log := rows[ids[i] := rows[ids[i]].(phase := Acked)], log + [Acknowledged(ids[i])];
          acked := acked + [ids[i]];
        } else {
          missing := missing + [ids[i]];
        }
      }
      assert ids[..|ids|] == ids;
    }

    /** Every row is counted once: acked, under a running lease, or owed. */
    method Snapshot(now: int) returns (stats: Stats)
      ensures stats.owed + stats.leased + stats.acked == stats.rows == |rows|
      ensures stats.acked == |AckedIn(rows, rows.Keys)| && stats.leased == |WaitingIn(rows, rows.Keys, now)|
      ensures stats.owed == |OwedIn(rows, rows.Keys, now)|
    {
      var owed, leased, acked := 0, 0, 0;
      var left := rows.Keys;
      ghost var done: set<nat> := {};
      Partition(rows, {}, now);
      while left != {}
        invariant left !! done && left + done == rows.Keys
        invariant acked == |AckedIn(rows, done)| && leased == |WaitingIn(rows, done, now)| && owed == |OwedIn(rows, done, now)|
        decreases left
      {
        var id :| id in left;
        OneMoreAcked(rows, done, id);
        OneMoreWaiting(rows, done, id, now);
        OneMoreOwed(rows, done, id, now);
        left, done := left - {id}, done + {id};
        if rows[id].phase == Acked {
          acked := acked + 1;
        } else if rows[id].phase == Leased && rows[id].leasedUntil > now {
          leased := leased + 1;
        } else {
          owed := owed + 1;
        }
      }
      assert done == rows.Keys;
      Partition(rows, done, now);
      return Stats(owed, leased, acked, |rows.Keys|);
    }
  }

  function AckedIn(rows: map<nat, Row>, ids: set<nat>): set<nat> { set id | id in ids && id in rows && rows[id].phase == Acked }

  function WaitingIn(rows: map<nat, Row>, ids: set<nat>, now: int): set<nat> { set id | id in ids && id in rows && Waits(rows[id], now) }

  function OwedIn(rows: map<nat, Row>, ids: set<nat>, now: int): set<nat> { set id | id in ids && id in rows && Eligible(rows[id], now) }

  lemma OneMoreAcked(rows: map<nat, Row>, done: set<nat>, id: nat)
    requires id in rows && id !in done
    ensures |AckedIn(rows, done + {id})| == |AckedIn(rows, done)| + if rows[id].phase == Acked then 1 else 0
  {
    if rows[id].phase == Acked {
      assert AckedIn(rows, done + {id}) == AckedIn(rows, done) + {id};
    } else {
      assert AckedIn(rows, done + {id}) == AckedIn(rows, done);
    }
  }

  lemma OneMoreWaiting(rows: map<nat, Row>, done: set<nat>, id: nat, now: int)
    requires id in rows && id !in done
    ensures |WaitingIn(rows, done + {id}, now)| == |WaitingIn(rows, done, now)| + if Waits(rows[id], now) then 1 else 0
  {
    if Waits(rows[id], now) {
      assert WaitingIn(rows, done + {id}, now) == WaitingIn(rows, done, now) + {id};
    } else {
      assert WaitingIn(rows, done + {id}, now) == WaitingIn(rows, done, now);
    }
  }

  lemma OneMoreOwed(rows: map<nat, Row>, done: set<nat>, id: nat, now: int)
    requires id in rows && id !in done
    ensures |OwedIn(rows, done + {id}, now)| == |OwedIn(rows, done, now)| + if Eligible(rows[id], now) then 1 else 0
  {
    if Eligible(rows[id], now) {
      assert OwedIn(rows, done + {id}, now) == OwedIn(rows, done, now) + {id};
    } else {
      assert OwedIn(rows, done + {id}, now) == OwedIn(rows, done, now);
    }
  }

  /** Every row is in exactly one of the three. */
  lemma Partition(rows: map<nat, Row>, ids: set<nat>, now: int)
    requires ids <= rows.Keys
    ensures |AckedIn(rows, ids)| + |WaitingIn(rows, ids, now)| + |OwedIn(rows, ids, now)| == |ids|
  {
    var a, w, o := AckedIn(rows, ids), WaitingIn(rows, ids, now), OwedIn(rows, ids, now);
    assert ids == a + w + o && a !! w && a + w !! o;
  }
}
