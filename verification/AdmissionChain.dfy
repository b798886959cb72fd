/**
 * The reply chain, described without the walk: the landing of a reply is decided by the record
 * at the end of its chain of sent messages, and a chain without an end is a cycle.
 */
module AdmissionChain {
  import opened Prelude
  import opened Messages
  import opened Chains
  import opened AdmissionModel

  /** The sent messages the walk may pass, each with the message it answered. */
  function Hops(s: Store, node: NodeId, sender: NodeId): map<MessageRef, MessageRef> {
    map ref | ref in s.outbound && ref !in s.log.refs && ref.sender == node
              && s.outbound[ref].expectedAuthor == sender && s.outbound[ref].inReplyTo.Some? :: s.outbound[ref].inReplyTo.value
  }

  /** What the record at the end of a chain decides. */
  function EndLanding(s: Store, node: NodeId, sender: NodeId, ref: MessageRef): Landing {
    if ref in s.log.refs then EntryLanding(s, node, s.log.refs[ref])
    else if ref !in s.outbound then Fails(NotFound)
    else if ref.sender != node || s.outbound[ref].expectedAuthor != sender then Fails(Forbidden)
    else NoLanding
  }

  /** The walk finds exactly the end of the chain, from any point it has come to. */
  lemma {:induction false} WalkFindsEnd(s: Store, node: NodeId, sender: NodeId, ref: MessageRef, visited: set<MessageRef>)
    requires forall v | v in visited :: LeadsTo(Hops(s, node, sender), v, ref)
    ensures var hops, landing := Hops(s, node, sender), ChainLanding(s, node, ref, sender, visited);
      && (forall n: nat, to | EndsAt(hops, ref, n, to) :: landing == EndLanding(s, node, sender, to))
      && (!Ends(hops, ref) ==> landing == Fails(InvalidRequest))
    decreases s.outbound.Keys - visited
  {
    var hops := Hops(s, node, sender);
    if ref in visited {
      CycleNeverEnds(hops, ref);
    } else if ref !in hops {
      assert EndsAt(hops, ref, 0, ref);
    } else {
      forall v | v in visited + {ref} ensures LeadsTo(hops, v, hops[ref]) { LeadsOn(hops, v, ref); }
      WalkFindsEnd(s, node, sender, hops[ref], visited + {ref});
      EndsWithNext(hops, ref);
    }
  }

  /** A reply chain lands where its last record says; it is refused as a cycle exactly when it has no last record. */
  lemma LandingIsTheEnd(s: Store, node: NodeId, ref: MessageRef, sender: NodeId)
    ensures forall n: nat, to | EndsAt(Hops(s, node, sender), ref, n, to) :: ChainLanding(s, node, ref, sender, {}) == EndLanding(s, node, sender, to)
    ensures !Ends(Hops(s, node, sender), ref) <==> ChainLanding(s, node, ref, sender, {}) == Fails(InvalidRequest)
  {
    WalkFindsEnd(s, node, sender, ref, {});
  }
}
