/**
 * The stored transactions of `TrustService` as they run: row by row over the node's records.
 * Each is proved against the transaction's function in `TrustModel`.
 */
module TrustService {
  import opened Prelude
  import opened NonceCache
  import M = TrustModel
  import opened TrustModel

  lemma OneMoreStatement(owed: map<NodeId, Obligation>, done: set<NodeId>, peer: NodeId, ids: map<NodeId, Nonce>, next: Key, previous: Key, now: int)
    requires done + {peer} <= ids.Keys
    ensures (owed + RotationStatements(done, ids, next, previous, now))[peer := Rotation(ids[peer], next, now, None, previous)]
         == owed + RotationStatements(done + {peer}, ids, next, previous, now)
  {}

  class TrustRecords {
    const id: NodeId
    const seeds: map<NodeId, Key>
    var key: Key
    var trust: map<NodeId, Row>
    var owed: map<NodeId, Obligation>
    var window: Option<Key>
    var nonces: Cache

    constructor (id: NodeId, seeds: map<NodeId, Key>, key: Key)
      ensures this.id == id && this.seeds == seeds && this.key == key
      ensures Records() == Store(map[], map[], None, map[])
    {
      this.id, this.seeds, this.key := id, seeds, key;
      trust, owed, window, nonces := map[], map[], None, map[];
    }

    function Records(): Store
      reads this
    {
      Store(trust, owed, window, nonces)
    }

    /** The node as the model's `Receive` reads it; it uses no other part of a node. */
    function Self(): Node
      reads this
    {
      Node(id, seeds, key, key.gen + 1, 0, Records(), Idle, Process({}, Redrive(map[], map[], map[]), {}, {}, {}, {}))
    }

    /** Deletes every nonce older than the window, one row at a time, then stores the new one. */
    method ConsumeNonce(a: Arrival) returns (unused: bool)
      modifies this`nonces
      ensures unused == (a.slot !in old(nonces))
      ensures nonces == if unused then Consume(old(nonces), a) else old(nonces)
    {
      if a.slot in nonces {
        return false;
      }
      var rows := nonces.Keys;
      var kept := nonces;
      while rows != {}
        invariant rows <= nonces.Keys && nonces == old(nonces)
        invariant kept.Keys <= nonces.Keys && forall s | s in kept :: kept[s] == nonces[s]
        invariant forall s | s in nonces :: s in kept <==> s in rows || nonces[s] >= a.now - CLOCK_SKEW_MS
        decreases |rows|
      {
        var s :| s in rows;
        if nonces[s] < a.now - CLOCK_SKEW_MS {
          kept := kept - {s};
        }
        rows := rows - {s};
      }
      assert kept == Purge(nonces, a.now);
      nonces := kept[a.slot := a.timestamp];
      return true;
    }

    /** `own` is the key this call read before its transaction. */
    method Receive(own: Key, m: Message, now: int) returns (refused: Option<Refusal>)
      modifies this
      ensures key == old(key)
      ensures match M.Receive(old(Self()), own, m, now)
              case Accepted(store) => refused.None? && Records() == store
              case Refused(refusal) => refused == Some(refusal) && Records() == old(Records())
    {
      ghost var before := Self();
      if !WellAddressed(Self(), own, m, now) {
        return Some(Unauthenticated);
      }
      // A refusal rolls the transaction back, so nothing is written before the last check.
      if SlotOf(m.p) in nonces {
        return Some(Unauthenticated);
      }
      if m.p.node in trust && trust[m.p.node].stage.Revoked? {
        return Some(Forbidden);
      }
      if m.p.node !in trust && !m.p.approved {
        return Some(InvalidRequest);
      }
      if KeyChanged(Records(), m.p) && !Proven(Records(), m) {
        return Some(IdConflict);
      }
      var row := ReceivedRow(Self(), m.p);
      var _ := ConsumeNonce(Arrival(SlotOf(m.p), m.p.timestamp, now));
      trust := trust[m.p.node := row];
      if m.p.node in owed && owed[m.p.node].blocked.Some? {
        owed := owed[m.p.node := Unblocked(owed[m.p.node])];
      }
      assert m.p.node in before.store.owed && before.store.owed[m.p.node].blocked.None? ==>
        before.store.owed[m.p.node := Unblocked(before.store.owed[m.p.node])] == before.store.owed;
      return None;
    }

    /** `k` is the key the user confirmed for `peer`; the answer says whether a statement goes out. */
    method Request(peer: NodeId, k: Key, own: Key, nonce: Nonce, now: int) returns (conflict: bool, sends: bool)
      modifies this
      ensures key == old(key)
      ensures conflict == RequestConflicts(old(Records()), peer, k)
      ensures conflict ==> Records() == old(Records())
      ensures !conflict ==> Records() == M.Request(old(Records()), peer, k, own, nonce, now)
      ensures sends == (!conflict && RequestSends(old(Records()), peer, k))
    {
      if peer in trust && trust[peer].pk != Some(k) && !trust[peer].stage.Revoked? {
        return true, false;
      }
      var known := peer in trust;
      var speaks := !known || !trust[peer].stage.Trusted? || !trust[peer].localApproved || trust[peer].pk != Some(k);
      trust := trust[peer := RequestedRow(Records(), peer, k)];
      sends := speaks && !(peer in owed && owed[peer].Rotation?);
      if sends {
        owed := owed[peer := Approval(nonce, own, now, None)];
      }
      conflict := false;
    }

    /** Drops the window once no stored obligation is a rotation. */
    method CloseWindow()
      modifies this`window
      ensures Records() == M.CloseWindow(old(Records()))
    {
      var rest := owed.Keys;
      var found := false;
      while rest != {} && !found
        invariant rest <= owed.Keys && Records() == old(Records())
        invariant found ==> OwesAnyRotation(Records())
        invariant !found ==> forall peer | OwesRotation(Records(), peer) :: peer in rest
        decreases |rest|
      {
        var peer :| peer in rest;
        found := OwesRotation(Records(), peer);
        rest := rest - {peer};
      }
      if !found {
        window := None;
      }
    }

    method Drop(peer: NodeId)
      requires peer in owed
      modifies this`owed, this`window
      ensures Records() == DropObligation(old(Records()), peer)
    {
      var rotation := owed[peer].Rotation?;
      owed := owed - {peer};
      if rotation {
        CloseWindow();
      }
    }

    method Settle(peer: NodeId, nonce: Nonce)
      modifies this`owed, this`window
      ensures Records() == M.Settle(old(Records()), peer, nonce)
    {
      if peer in owed && owed[peer].nonce == nonce {
        Drop(peer);
      }
    }

    method Revoke(peer: NodeId)
      modifies this`trust, this`owed, this`window
      ensures Records() == M.Revoke(old(Records()), peer)
    {
      if peer in trust {
        trust := trust[peer := RevokedRow()];
      }
      if peer in owed {
        Drop(peer);
      }
    }

    /** Drops the window and every statement prepared under it, one row at a time. */
    method AbandonRotation()
      modifies this`owed, this`window
      ensures Records() == M.AbandonRotation(old(Records()))
    {
      var rows := owed.Keys;
      window := None;
      while rows != {}
        invariant trust == old(trust) && nonces == old(nonces) && window.None?
        invariant rows <= old(owed).Keys && owed.Keys <= old(owed).Keys
        invariant forall peer | peer in owed :: owed[peer] == old(owed)[peer]
        invariant forall peer | peer in old(owed) :: peer in owed <==> peer in rows || !old(owed)[peer].Rotation?
        decreases |rows|
      {
        var peer :| peer in rows;
        if owed[peer].Rotation? {
          owed := owed - {peer};
        }
        rows := rows - {peer};
      }
      assert owed == M.AbandonRotation(old(Records())).owed;
    }

    /** Backs an obligation off after a refusal that this node cannot authenticate. */
    method Park(peer: NodeId, nonce: Nonce, now: int)
      modifies this`owed
      ensures Records() == M.Park(old(Records()), peer, nonce, now)
    {
      if peer in owed && owed[peer].nonce == nonce {
        owed := owed[peer := owed[peer].(blocked := Some(now + REFUSED_RETRY_MS))];
      }
    }

    /** Rewrites or deletes one obligation only if it is still the attempt `expected` was read from. */
    method CompareObligation(peer: NodeId, expected: Obligation, next: Option<Obligation>) returns (same: bool)
      modifies this`owed
      ensures same == Matches(old(Records()), peer, expected)
      ensures Records() == if !same then old(Records())
                           else if next.None? then DropIfMatches(old(Records()), peer, expected)
                           else old(Records()).(owed := old(owed)[peer := next.value])
    {
      same := Matches(Records(), peer, expected);
      if same {
        owed := if next.None? then owed - {peer} else owed[peer := next.value];
      }
    }

    /** The pass looks at the row of an obligation; what it read goes into the check. */
    method Look(peer: NodeId, o: Obligation) returns (looked: Option<Ready>)
      modifies this`owed, this`window
      ensures Records() == LookAt(old(Records()), peer, o)
      ensures looked == if Live(old(Records()), peer) then Some(Ready(o, trust[peer].localApproved)) else None
    {
      if peer !in trust || trust[peer].stage.Revoked? {
        if Matches(Records(), peer, o) {
          Drop(peer);
        }
        return None;
      }
      return Some(Ready(o, trust[peer].localApproved));
    }

    /** A looked-at obligation, under the key the pass read, up to the lookup of the peer's live key. */
    method Check(peer: NodeId, own: Key, r: Ready, swapping: bool, now: int) returns (send: Option<Ready>)
      modifies this`owed, this`window
      ensures var c := CheckObligation(old(Records()), own, swapping, peer, r, now);
              Records() == c.store && send == if c.Send? then Some(c.ready) else None
    {
      send := None;
      var o := r.current;
      if o.Rotation? {
        if window.None? {
          var _ := CompareObligation(peer, o, None);
          return;
        }
        if window != Some(own) {
          if !swapping {
            AbandonRotation();
          }
          return;
        }
      } else if o.fp != own {
        var _ := CompareObligation(peer, o, None);
        return;
      }
      if o.blocked.Some? {
        if now < o.blocked.value {
          return;
        }
        var same := CompareObligation(peer, o, Some(Unblocked(o)));
        if !same {
          return;
        }
      }
      if now - o.at >= EXCHANGE_RETRY_MS {
        send := Some(Ready(Unblocked(o), r.approved));
      }
    }

    /** Writes one rotation statement per listed peer and the window beside them. */
    method OpenWindow(peers: set<NodeId>, ids: map<NodeId, Nonce>, next: Key, previous: Key, now: int) returns (conflict: bool)
      requires peers <= ids.Keys
      modifies this`owed, this`window
      ensures conflict == old(window).Some?
      ensures Records() == if conflict then old(Records()) else M.OpenWindow(old(Records()), peers, ids, next, previous, now)
    {
      if window.Some? {
        return true;
      }
      if peers == {} {
        return false;
      }
      var rest := peers;
      while rest != {}
        invariant rest <= peers && trust == old(trust) && nonces == old(nonces) && window.None?
        invariant owed == old(owed) + RotationStatements(peers - rest, ids, next, previous, now)
        decreases |rest|
      {
        var peer :| peer in rest;
        OneMoreStatement(old(owed), peers - rest, peer, ids, next, previous, now);
        assert peers - (rest - {peer}) == peers - rest + {peer};
        owed := owed[peer := Rotation(ids[peer], next, now, None, previous)];
        rest := rest - {peer};
      }
      assert peers - rest == peers;
      window := Some(next);
      return false;
    }
  }
}
