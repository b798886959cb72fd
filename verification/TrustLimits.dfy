/**
 * Where rotation continuity ends, exactly: at the swap, at the peer list a rotation works from, at
 * an abandoned rotation.
 */
module TrustLimits {
  import opened Prelude
  import opened NonceCache
  import opened TrustModel
  import opened TrustWorld
  import opened TrustInvariant
  import opened TrustContinuity

  /** The swap keeps a peer that pins the current key exactly when its rotation statement is stored. */
  lemma SwapExact(A: Node, B: Node, facts: set<Fact>)
    requires NodeInv(A, facts) && A.rotating.Committed? && Pins(B.store, A.id, A.key)
    ensures Continuous(Local(A, DoSwap, facts), B.id, B.store) <==> OwesRotation(A.store, B.id)
  {}

  /** A rotation that commits and swaps keeps a pinning peer exactly when its list holds the peer. */
  lemma CommitExact(A: Node, B: Node, nonces: map<NodeId, Nonce>, drawn: nat, now: int, facts: set<Fact>)
    requires NodeInv(A, facts) && A.rotating.Listed? && A.store.window.None? && Pins(B.store, A.id, A.key)
    requires Can(A, DoRotateCommit(nonces, drawn, now), facts)
    ensures var committed := Local(A, DoRotateCommit(nonces, drawn, now), facts);
            Can(committed, DoSwap, facts) && (Continuous(Local(committed, DoSwap, facts), B.id, B.store) <==> B.id in A.rotating.peers)
  {
    OpenedOwed(A, nonces, drawn, now, facts);
    assert !OwesRotation(A.store, B.id);
  }

  /**
   * A whole rotation of a node that owes none keeps a pinning peer exactly when its row is unrevoked
   * and approved by either side as the rotation reads its list.
   */
  lemma RotationExact(A: Node, B: Node, nonces: map<NodeId, Nonce>, drawn: nat, now: int, facts: set<Fact>)
    requires NodeInv(A, facts) && A.rotating.Idle? && A.store.window.None? && Pins(B.store, A.id, A.key)
    requires Can(Local(A, DoRotateList, facts), DoRotateCommit(nonces, drawn, now), facts)
    ensures var committed := Local(Local(A, DoRotateList, facts), DoRotateCommit(nonces, drawn, now), facts);
            Can(committed, DoSwap, facts) && (Continuous(Local(committed, DoSwap, facts), B.id, B.store) <==> B.id in RotationPeers(A.store))
  {
    LocalInv(A, DoRotateList, facts);
    CommitExact(Local(A, DoRotateList, facts), B, nonces, drawn, now, facts);
  }

  /** An abandoned rotation can lose a peer that waits for its statement exactly when the swap is done. */
  lemma AbandonExact(A: Node, b: NodeId, op: Op, facts: set<Fact>)
    requires NodeInv(A, facts) && Can(A, op, facts) && Abandons(A, op) && OwesRotation(A.store, b)
    ensures (forall s | Continuous(A, b, s) :: Continuous(Local(A, op, facts), b, s)) <==> A.store.window != Some(A.key)
  {
    var previous := A.store.owed[b].previous;
    var s := Store(map[A.id := Row(Pending, Some(previous), true, true)], map[], None, map[]);
    assert Pins(s, A.id, previous) && Continuous(A, b, s);
  }

  /** A check under the key in use never abandons late: only a key read before the swap does. */
  lemma LateMeansStale(A: Node, B: Node, op: Op, facts: set<Fact>)
    requires NodeInv(A, facts) && Can(A, op, facts) && AbandonsLate(A, B, op)
    ensures op.own.owner == A.id && op.own.gen < A.key.gen
  {}
}
