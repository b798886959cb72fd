/**
 * Rotation continuity between two honest nodes `a` and `b`: once `b` pins `a`'s current key,
 * `b` pins `a`'s current key or exactly the old key whose private half `a` still owes `b` a
 * proof with, over every loss, reordering, retry, crashed swap and repeated rotation.
 */
module TrustContinuity {
  import opened Prelude
  import opened NonceCache
  import opened TrustModel
  import opened TrustWorld
  import opened TrustInvariant

  /** While a rotation owes `b` a statement, or is about to, `a`'s row for `b` is unrevoked. */
  ghost predicate Related(A: Node, b: NodeId) {
    OwesRotation(A.store, b) || A.rotating.Listed? ==> Live(A.store, b)
  }

  ghost predicate Pins(s: Store, a: NodeId, k: Key) {
    Live(s, a) && s.trust[a].pk == Some(k)
  }

  /** `b` pins the current key, or the old key that the owed rotation statement carries. */
  ghost predicate Continuous(A: Node, b: NodeId, s: Store) {
    Pins(s, A.id, A.key) || (OwesRotation(A.store, b) && Pins(s, A.id, A.store.owed[b].previous))
  }

  /** `b` answered the statement under `nonce`, or is about to, or `a` has already seen the answer. */
  ghost predicate Answered(A: Node, B: Node, nonce: Nonce, facts: set<Fact>) {
    || (B.id, nonce) in A.proc.settling
    || (exists f :: f in facts && f.signer.owner == B.id && f.p.target == A.id && f.p.replyNonce == Some(nonce))
    || (exists r :: r in B.proc.answers && r.peer == A.id && r.nonce == nonce)
  }

  /** An answer to the owed rotation statement means that `b` pinned the new key. */
  ghost predicate AnswersProve(A: Node, B: Node, facts: set<Fact>) {
    OwesRotation(A.store, B.id) && Answered(A, B, A.store.owed[B.id].nonce, facts) ==> Pins(B.store, A.id, A.key)
  }

  /** A rotation in progress listed `b`, and has stored its statement for `b`. */
  ghost predicate Covered(A: Node, b: NodeId) {
    && (A.rotating.Listed? ==> b in A.rotating.peers)
    && (A.rotating.Committed? ==> OwesRotation(A.store, b))
  }

  ghost predicate Track(A: Node, B: Node, facts: set<Fact>) {
    Related(A, B.id) && Continuous(A, B.id, B.store) && AnswersProve(A, B, facts) && Covered(A, B.id)
  }

  /** `b` pins the current key, and a rotation under way counts with it. */
  ghost predicate Established(A: Node, B: Node) {
    Related(A, B.id) && Pins(B.store, A.id, A.key) && Covered(A, B.id)
  }

  lemma EstablishedTracks(A: Node, B: Node, facts: set<Fact>)
    requires Established(A, B)
    ensures Track(A, B, facts)
  {}

  /** A check that finds the window under another key than the one it read, outside the swap. */
  ghost predicate Abandons(A: Node, op: Op) {
    && op.DoCheck? && op.peer in A.proc.redrive.looked && A.proc.redrive.looked[op.peer].current.Rotation?
    && A.store.window.Some? && A.store.window != Some(op.own) && !A.rotating.Committed?
  }

  /** The rotation is abandoned after its swap, while `b` still waits for the proof of the new key. */
  ghost predicate AbandonsLate(A: Node, B: Node, op: Op) {
    Abandons(A, op) && A.store.window == Some(A.key) && !Pins(B.store, A.id, A.key)
  }

  /** The operation of `a` starts no rotation that leaves `b` out and abandons no swapped one. */
  ghost predicate QuietOp(A: Node, B: Node, op: Op) {
    && op != DoRevoke(B.id) && !AbandonsLate(A, B, op)
    && (op.DoRotateList? && A.store.window.None? ==> B.id in RotationPeers(A.store))
  }

  /** The step revokes nothing between `a` and `b`, and is otherwise quiet. */
  ghost predicate Quiet(w: World, s: Step, a: NodeId, b: NodeId)
    requires a in w.nodes && b in w.nodes
  {
    s != Act(b, DoRevoke(a)) && (s.Act? && s.a == a ==> QuietOp(w.nodes[a], w.nodes[b], s.op))
  }

  /** A reply that `a` accepts in the name of `b` is under a key of `b`. */
  ghost predicate GenuineOp(op: Op, b: NodeId) {
    op.DoAcceptReply? && op.m.p.node == b ==> op.m.p.pk.owner == b
  }

  ghost predicate Genuine(s: Step, a: NodeId, b: NodeId) { s.Act? && s.a == a ==> GenuineOp(s.op, b) }

  // ---- steps of a -----------------------------------------------------------------

  /** Only a revocation ends a row. */
  lemma LiveStays(A: Node, op: Op, b: NodeId, facts: set<Fact>)
    requires Can(A, op, facts) && Live(A.store, b) && op != DoRevoke(b)
    ensures Live(Stored(A, op, facts), b)
  {
    if !TouchesRows(op) { KeepsRows(A, op, facts); }
  }

  /** What one step of `a` does to its rotation statement for `b`. */
  datatype Fate = NoneOwed | Kept | Renewed | Opened | Settled | Abandoned

  ghost predicate HasFate(A: Node, op: Op, s': Store, b: NodeId, fate: Fate) {
    match fate
    case NoneOwed => !OwesRotation(A.store, b) && !OwesRotation(s', b)
    case Kept => OwesRotation(A.store, b) && OwesRotation(s', b) && SameButTiming(A.store.owed[b], s'.owed[b])
    case Renewed =>
      && op.DoResend? && OwesRotation(A.store, b) && OwesRotation(s', b)
      && s'.owed[b].previous == A.store.owed[b].previous && s'.owed[b].fp == A.store.owed[b].fp && Fresh(A, s'.owed[b].nonce)
    case Opened =>
      && op.DoRotateCommit? && !OwesRotation(A.store, b) && OwesRotation(s', b)
      && s'.owed[b].previous == A.key && Fresh(A, s'.owed[b].nonce)
    case Settled =>
      && OwesRotation(A.store, b) && !OwesRotation(s', b)
      && (b, A.store.owed[b].nonce) in A.proc.settling
    case Abandoned =>
      && OwesRotation(A.store, b) && !OwesRotation(s', b)
      && Abandons(A, op) && (A.store.owed[b].previous == A.key || A.store.window == Some(A.key))
  }

  lemma CheckAbandons(A: Node, op: Op, b: NodeId, facts: set<Fact>)
    requires NodeInv(A, facts) && Can(A, op, facts) && OwesRotation(A.store, b) && Abandons(A, op)
    ensures HasFate(A, op, Stored(A, op, facts), b, Abandoned)
  {}

  /** A check that does not abandon writes only the obligation it checks, and there only when to try again. */
  lemma CheckWrites(s: Store, own: Key, swapping: bool, peer: NodeId, r: Ready, now: int)
    requires s.window.Some? && (r.current.Rotation? && s.window != Some(own) ==> swapping)
    ensures var owed := CheckObligation(s, own, swapping, peer, r, now).store.owed;
      && (forall b | b in s.owed && b != peer :: b in owed && owed[b] == s.owed[b])
      && (OwesRotation(s, peer) && SameCore(r.current, s.owed[peer]) ==> peer in owed && SameButTiming(s.owed[peer], owed[peer]))
  {}

  lemma CheckKeeps(A: Node, op: Op, b: NodeId, facts: set<Fact>)
    requires NodeInv(A, facts) && Can(A, op, facts) && op.DoCheck? && OwesRotation(A.store, b) && !Abandons(A, op)
    ensures HasFate(A, op, Stored(A, op, facts), b, Kept)
  {
    assert OwesAnyRotation(A.store);
    assert Carried(A, op.peer, A.proc.redrive.looked[op.peer].current);
    CheckWrites(A.store, op.own, A.rotating.Committed?, op.peer, A.proc.redrive.looked[op.peer], op.now);
  }

  lemma FateOfCheck(A: Node, op: Op, b: NodeId, facts: set<Fact>) returns (fate: Fate)
    requires NodeInv(A, facts) && Can(A, op, facts) && op.DoCheck? && OwesRotation(A.store, b)
    ensures HasFate(A, op, Stored(A, op, facts), b, fate)
  {
    if Abandons(A, op) {
      fate := Abandoned;
      CheckAbandons(A, op, b, facts);
    } else {
      fate := Kept;
      CheckKeeps(A, op, b, facts);
    }
  }

  lemma FateOfLook(A: Node, op: Op, b: NodeId, facts: set<Fact>)
    requires NodeInv(A, facts) && Can(A, op, facts) && op.DoLook? && Live(A.store, b) && OwesRotation(A.store, b)
    ensures HasFate(A, op, Stored(A, op, facts), b, Kept)
  {
    assert OwesAnyRotation(A.store);
  }

  ghost predicate WritesOwed(op: Op) {
    op.DoRequest? || op.DoRevoke? || op.DoRotateCommit? || op.DoCheck? || op.DoLook? || op.DoSettle? || op.DoResend? || op.DoPark? || op.DoIntroduce? || op.DoAcceptReply?
  }

  lemma LeavesOwed(A: Node, op: Op, facts: set<Fact>)
    requires Can(A, op, facts) && !WritesOwed(op)
    ensures Stored(A, op, facts).owed == A.store.owed
  {}

  lemma KeptByReceiving(A: Node, op: Op, b: NodeId, facts: set<Fact>)
    requires NodeInv(A, facts) && Can(A, op, facts) && OwesRotation(A.store, b) && (op.DoIntroduce? || op.DoAcceptReply?)
    ensures HasFate(A, op, Stored(A, op, facts), b, Kept)
  {}

  lemma KeptByOpening(A: Node, op: Op, b: NodeId, facts: set<Fact>)
    requires NodeInv(A, facts) && Can(A, op, facts) && op != DoRevoke(b) && OwesRotation(A.store, b)
    requires op.DoRequest? || op.DoRevoke? || op.DoRotateCommit?
    ensures HasFate(A, op, Stored(A, op, facts), b, Kept)
  {
    assert OwesAnyRotation(A.store);
  }

  lemma FateOfResend(A: Node, op: Op, b: NodeId, facts: set<Fact>) returns (fate: Fate)
    requires NodeInv(A, facts) && Can(A, op, facts) && OwesRotation(A.store, b) && op.DoResend?
    ensures HasFate(A, op, Stored(A, op, facts), b, fate)
  {
    fate := if op.peer == b && Matches(A.store, b, A.proc.redrive.ready[b].current) then Renewed else Kept;
    if fate.Renewed? { assert Carried(A, b, A.proc.redrive.ready[b].current); }
  }

  lemma FateOfRetry(A: Node, op: Op, b: NodeId, facts: set<Fact>) returns (fate: Fate)
    requires NodeInv(A, facts) && Can(A, op, facts) && OwesRotation(A.store, b) && (op.DoSettle? || op.DoResend? || op.DoPark?)
    ensures HasFate(A, op, Stored(A, op, facts), b, fate)
  {
    if op.DoSettle? && op.peer == b && A.store.owed[b].nonce == op.nonce {
      fate := Settled;
    } else if op.DoResend? {
      fate := FateOfResend(A, op, b, facts);
    } else {
      fate := Kept;
    }
  }

  lemma FateWhenOwed(A: Node, op: Op, b: NodeId, facts: set<Fact>) returns (fate: Fate)
    requires NodeInv(A, facts) && Can(A, op, facts) && op != DoRevoke(b) && Live(A.store, b) && OwesRotation(A.store, b)
    ensures HasFate(A, op, Stored(A, op, facts), b, fate)
  {
    if op.DoCheck? {
      fate := FateOfCheck(A, op, b, facts);
    } else if op.DoSettle? || op.DoResend? || op.DoPark? {
      fate := FateOfRetry(A, op, b, facts);
    } else {
      fate := Kept;
      if op.DoIntroduce? || op.DoAcceptReply? {
        KeptByReceiving(A, op, b, facts);
      } else if op.DoLook? {
        FateOfLook(A, op, b, facts);
      } else if WritesOwed(op) {
        KeptByOpening(A, op, b, facts);
      } else {
        LeavesOwed(A, op, facts);
      }
    }
  }

  /** Only a rotation that opens its window starts to owe a rotation statement. */
  lemma UnowedStays(A: Node, op: Op, b: NodeId, facts: set<Fact>)
    requires Can(A, op, facts) && !OwesRotation(A.store, b) && WritesOwed(op) && !op.DoRotateCommit? && !op.DoResend? && !op.DoCheck?
    ensures !OwesRotation(Stored(A, op, facts), b)
  {}

  lemma UnowedByCheck(A: Node, op: Op, b: NodeId, facts: set<Fact>)
    requires NodeInv(A, facts) && Can(A, op, facts) && !OwesRotation(A.store, b) && op.DoCheck?
    ensures !OwesRotation(Stored(A, op, facts), b)
  {}

  lemma UnowedByPass(A: Node, op: Op, b: NodeId, facts: set<Fact>)
    requires NodeInv(A, facts) && Can(A, op, facts) && !OwesRotation(A.store, b) && (op.DoResend? || op.DoCheck?)
    ensures !OwesRotation(Stored(A, op, facts), b)
  {
    if op.DoCheck? { UnowedByCheck(A, op, b, facts); }
  }

  lemma UnowedByCommit(A: Node, op: Op, b: NodeId, facts: set<Fact>)
    requires NodeInv(A, facts) && Can(A, op, facts) && !OwesRotation(A.store, b) && op.DoRotateCommit? && OwesRotation(Stored(A, op, facts), b)
    ensures HasFate(A, op, Stored(A, op, facts), b, Opened)
  {
    OpenedOwed(A, op.nonces, op.drawn, op.now, facts);
  }

  lemma FateWhenUnowed(A: Node, op: Op, b: NodeId, facts: set<Fact>)
    requires NodeInv(A, facts) && Can(A, op, facts) && !OwesRotation(A.store, b)
    ensures OwesRotation(Stored(A, op, facts), b) ==> HasFate(A, op, Stored(A, op, facts), b, Opened)
  {
    if !WritesOwed(op) {
      LeavesOwed(A, op, facts);
    } else if op.DoRotateCommit? {
      if OwesRotation(Stored(A, op, facts), b) { UnowedByCommit(A, op, b, facts); }
    } else if op.DoResend? || op.DoCheck? {
      UnowedByPass(A, op, b, facts);
    } else {
      UnowedStays(A, op, b, facts);
    }
  }

  lemma FateOf(A: Node, op: Op, b: NodeId, facts: set<Fact>) returns (fate: Fate)
    requires NodeInv(A, facts) && Can(A, op, facts) && (OwesRotation(A.store, b) ==> Live(A.store, b)) && op != DoRevoke(b)
    ensures HasFate(A, op, Stored(A, op, facts), b, fate)
  {
    if OwesRotation(A.store, b) {
      fate := FateWhenOwed(A, op, b, facts);
    } else {
      fate := if OwesRotation(Stored(A, op, facts), b) then Opened else NoneOwed;
      FateWhenUnowed(A, op, b, facts);
    }
  }

  lemma FreshUnanswered(A: Node, B: Node, nonce: Nonce, facts: set<Fact>)
    requires NodeInv(A, facts) && NodeInv(B, facts) && Fresh(A, nonce)
    ensures !Answered(A, B, nonce, facts)
  {}

  /** Before the swap, nobody has answered the owed rotation statement. */
  lemma UnswappedUnanswered(A: Node, B: Node, facts: set<Fact>)
    requires NodeInv(A, facts) && NodeInv(B, facts) && OwesRotation(A.store, B.id) && A.key != A.store.owed[B.id].fp
    ensures !Answered(A, B, A.store.owed[B.id].nonce, facts)
  {}

  lemma RelatedByA(A: Node, B: Node, op: Op, facts: set<Fact>)
    requires NodeInv(A, facts) && Can(A, op, facts) && Track(A, B, facts) && QuietOp(A, B, op)
    ensures Related(Local(A, op, facts), B.id)
  {
    var fate := FateOf(A, op, B.id, facts);
    if Live(A.store, B.id) { LiveStays(A, op, B.id, facts); }
  }

  /** The swap turns the key in use into the old key of every owed rotation statement. */
  lemma ContinuousBySwap(A: Node, B: Node, facts: set<Fact>)
    requires NodeInv(A, facts) && A.rotating.Committed? && Continuous(A, B.id, B.store) && Covered(A, B.id)
    ensures Continuous(Local(A, DoSwap, facts), B.id, B.store)
  {
    assert RotationInv(A, A.store.owed[B.id]);
  }

  lemma ContinuousByFate(A: Node, B: Node, op: Op, s': Store, fate: Fate, facts: set<Fact>)
    requires HasFate(A, op, s', B.id, fate) && Continuous(A, B.id, B.store) && AnswersProve(A, B, facts) && QuietOp(A, B, op)
    ensures Continuous(A.(store := s'), B.id, B.store)
  {}

  lemma KeepsKey(A: Node, op: Op, facts: set<Fact>)
    requires Can(A, op, facts) && !op.DoSwap?
    ensures Local(A, op, facts).key == A.key
  {}

  lemma ContinuousByA(A: Node, B: Node, op: Op, facts: set<Fact>)
    requires NodeInv(A, facts) && Can(A, op, facts) && Track(A, B, facts) && QuietOp(A, B, op)
    ensures Continuous(Local(A, op, facts), B.id, B.store)
  {
    if op.DoSwap? {
      ContinuousBySwap(A, B, facts);
    } else {
      var fate := FateOf(A, op, B.id, facts);
      ContinuousByFate(A, B, op, Stored(A, op, facts), fate, facts);
      KeepsKey(A, op, facts);
    }
  }

  /** A step of `a` makes an answer to an existing statement known only by accepting it. */
  lemma AnsweredByA(A: Node, B: Node, op: Op, nonce: Nonce, facts: set<Fact>)
    requires A.id != B.id && NodeInv(A, facts) && NodeInv(B, facts) && Can(A, op, facts) && GenuineOp(op, B.id)
    requires Answered(Local(A, op, facts), B, nonce, facts + Signs(A, op))
    ensures Answered(A, B, nonce, facts)
  {
    SignsForSelf(A, op, facts);
    if op.DoAcceptReply? && op.attempt.peer == B.id && op.attempt.nonce == nonce {
      assert Fact(op.m.p.pk, op.m.p) in facts;
    }
  }

  lemma AnswersProveByA(A: Node, B: Node, op: Op, facts: set<Fact>)
    requires A.id != B.id && NodeInv(A, facts) && NodeInv(B, facts) && Can(A, op, facts) && Track(A, B, facts) && QuietOp(A, B, op) && GenuineOp(op, B.id)
    ensures AnswersProve(Local(A, op, facts), B, facts + Signs(A, op))
  {
    var A' := Local(A, op, facts);
    var fate := FateOf(A, op, B.id, facts);
    if OwesRotation(A'.store, B.id) && Answered(A', B, A'.store.owed[B.id].nonce, facts + Signs(A, op)) {
      AnsweredByA(A, B, op, A'.store.owed[B.id].nonce, facts);
      if fate.Renewed? || fate.Opened? {
        FreshUnanswered(A, B, A'.store.owed[B.id].nonce, facts);
      } else if op.DoSwap? {
        UnswappedUnanswered(A, B, facts);
      }
    }
  }

  lemma CoveredByA(A: Node, B: Node, op: Op, facts: set<Fact>)
    requires NodeInv(A, facts) && NodeInv(B, facts) && Can(A, op, facts) && Track(A, B, facts) && QuietOp(A, B, op)
    ensures Covered(Local(A, op, facts), B.id)
  {
    if A.rotating.Committed? {
      var fate := FateOf(A, op, B.id, facts);
      UnswappedUnanswered(A, B, facts);
    } else if op.DoRotateCommit? && A.store.window.None? {
      OpenedOwed(A, op.nonces, op.drawn, op.now, facts);
    }
  }

  // ---- steps of b -----------------------------------------------------------------

  /** Whatever statement of `a` the pinning peer accepts leaves it with its pin or `a`'s current key. */
  lemma PinAfterReceive(A: Node, B: Node, own: Key, m: Message, now: int, facts: set<Fact>)
    requires NodeInv(A, facts) && m.p.node == A.id && Deliverable(facts, m) && Receive(B, own, m, now).Accepted? && Continuous(A, B.id, B.store)
    ensures m.p.pk == A.key || Pins(B.store, A.id, m.p.pk)
    ensures OwesRotation(A.store, B.id) && m.p.nonce == A.store.owed[B.id].nonce ==> m.p.pk == A.key
  {}

  /** Without a statement of `a` and without a revocation, the pin stays. */
  lemma PinStays(B: Node, op: Op, a: NodeId, k: Key, facts: set<Fact>)
    requires Can(B, op, facts) && Pins(B.store, a, k) && op != DoRevoke(a) && !ReceivesFrom(op, a)
    ensures Pins(Stored(B, op, facts), a, k)
  {}

  lemma PinReceived(B: Node, op: Op, facts: set<Fact>)
    requires (op.DoIntroduce? || op.DoAcceptReply?) && Can(B, op, facts)
    ensures Pins(Stored(B, op, facts), op.m.p.node, op.m.p.pk)
  {}

  /** Where the pin is after a step of `b`: where it was, or on the current key. */
  lemma PinAfter(A: Node, B: Node, op: Op, facts: set<Fact>) returns (k: Key)
    requires NodeInv(A, facts) && Can(B, op, facts) && Continuous(A, B.id, B.store) && op != DoRevoke(A.id)
    ensures Pins(Stored(B, op, facts), A.id, k) && (k == A.key || Pins(B.store, A.id, k))
  {
    if ReceivesFrom(op, A.id) {
      PinAfterReceive(A, B, op.own, op.m, op.now, facts);
      PinReceived(B, op, facts);
      k := op.m.p.pk;
    } else {
      k := B.store.trust[A.id].pk.value;
      PinStays(B, op, A.id, k, facts);
    }
  }

  lemma PinsByB(A: Node, B: Node, op: Op, facts: set<Fact>)
    requires NodeInv(A, facts) && Can(B, op, facts) && Continuous(A, B.id, B.store) && op != DoRevoke(A.id)
    ensures Continuous(A, B.id, Stored(B, op, facts))
    ensures Pins(B.store, A.id, A.key) ==> Pins(Stored(B, op, facts), A.id, A.key)
  {
    var k := PinAfter(A, B, op, facts);
  }

  /** A step of `b` creates an answer to a nonce only by accepting a statement under that nonce. */
  lemma AnsweredByB(A: Node, B: Node, op: Op, nonce: Nonce, facts: set<Fact>)
    requires Can(B, op, facts) && Answered(A, Local(B, op, facts), nonce, facts + Signs(B, op))
    ensures Answered(A, B, nonce, facts) || (op.DoIntroduce? && op.m.p.node == A.id && op.m.p.nonce == nonce)
  {}

  lemma AnswersProveByB(A: Node, B: Node, op: Op, facts: set<Fact>)
    requires NodeInv(A, facts) && Can(B, op, facts) && Track(A, B, facts) && op != DoRevoke(A.id)
    ensures AnswersProve(A, Local(B, op, facts), facts + Signs(B, op))
  {
    var B' := Local(B, op, facts);
    if OwesRotation(A.store, B.id) && Answered(A, B', A.store.owed[B.id].nonce, facts + Signs(B, op)) {
      AnsweredByB(A, B, op, A.store.owed[B.id].nonce, facts);
      if Answered(A, B, A.store.owed[B.id].nonce, facts) {
        PinsByB(A, B, op, facts);
      } else {
        PinAfterReceive(A, B, op.own, op.m, op.now, facts);
      }
    }
  }

  // ---- every step -------------------------------------------------------------------

  lemma ByOthers(A: Node, B: Node, facts: set<Fact>, more: set<Fact>)
    requires Track(A, B, facts) && forall f | f in more :: f.signer.owner != B.id
    ensures Track(A, B, facts + more)
  {}

  lemma TrackByA(A: Node, B: Node, op: Op, facts: set<Fact>)
    requires A.id != B.id && NodeInv(A, facts) && NodeInv(B, facts) && Can(A, op, facts) && Track(A, B, facts) && QuietOp(A, B, op) && GenuineOp(op, B.id)
    ensures Track(Local(A, op, facts), B, facts + Signs(A, op))
  {
    RelatedByA(A, B, op, facts);
    ContinuousByA(A, B, op, facts);
    AnswersProveByA(A, B, op, facts);
    CoveredByA(A, B, op, facts);
  }

  ghost predicate Tracked(w: World, a: NodeId, b: NodeId) {
    a in w.nodes && b in w.nodes && a != b && Track(w.nodes[a], w.nodes[b], w.facts)
  }

  lemma TrackByOther(w: World, c: NodeId, op: Op, a: NodeId, b: NodeId)
    requires Inv(w) && c in w.nodes && Can(w.nodes[c], op, w.facts) && Tracked(w, a, b) && c != a && c != b
    ensures Tracked(Apply(w, Act(c, op)), a, b)
  {
    SignsForSelf(w.nodes[c], op, w.facts);
    ByOthers(w.nodes[a], w.nodes[b], w.facts, Signs(w.nodes[c], op));
  }

  lemma TrackedByA(w: World, op: Op, a: NodeId, b: NodeId)
    requires Inv(w) && Enabled(w, Act(a, op)) && Tracked(w, a, b) && Quiet(w, Act(a, op), a, b) && GenuineOp(op, b)
    ensures Tracked(Apply(w, Act(a, op)), a, b)
  {
    TrackByA(w.nodes[a], w.nodes[b], op, w.facts);
  }

  lemma TrackedByB(w: World, op: Op, a: NodeId, b: NodeId)
    requires Inv(w) && Enabled(w, Act(b, op)) && Tracked(w, a, b) && Quiet(w, Act(b, op), a, b)
    ensures Tracked(Apply(w, Act(b, op)), a, b)
  {
    TrackByB(w.nodes[a], w.nodes[b], op, w.facts);
  }

  lemma TrackStep(w: World, s: Step, a: NodeId, b: NodeId)
    requires Inv(w) && Enabled(w, s) && Tracked(w, a, b) && Quiet(w, s, a, b) && Genuine(s, a, b)
    ensures Tracked(Apply(w, s), a, b)
  {
    match s
    case Forge(signer, p) => TrackByForger(w, signer, p, a, b);
    case Act(c, op) =>
      if c == a { TrackedByA(w, op, a, b); } else if c == b { TrackedByB(w, op, a, b); } else { TrackByOther(w, c, op, a, b); }
  }

  lemma TrackByForger(w: World, signer: Key, p: Payload, a: NodeId, b: NodeId)
    requires Inv(w) && Enabled(w, Forge(signer, p)) && Tracked(w, a, b)
    ensures Tracked(Apply(w, Forge(signer, p)), a, b)
  {
    ByOthers(w.nodes[a], w.nodes[b], w.facts, {Fact(signer, p)});
  }

  lemma TrackByB(A: Node, B: Node, op: Op, facts: set<Fact>)
    requires NodeInv(A, facts) && Can(B, op, facts) && Track(A, B, facts) && op != DoRevoke(A.id)
    ensures Track(A, Local(B, op, facts), facts + Signs(B, op))
  {
    PinsByB(A, B, op, facts);
    AnswersProveByB(A, B, op, facts);
  }

  /** Every step of the run is quiet for the pair. */
  ghost predicate QuietRun(w: World, trace: seq<Step>, a: NodeId, b: NodeId)
    requires Valid(w, trace) && a in w.nodes && b in w.nodes
    decreases |trace|
  {
    trace != [] ==>
      && QuietRun(w, trace[..|trace| - 1], a, b)
      && a in Run(w, trace[..|trace| - 1]).nodes && b in Run(w, trace[..|trace| - 1]).nodes
      && Quiet(Run(w, trace[..|trace| - 1]), trace[|trace| - 1], a, b)
  }

  lemma {:induction false} TrackRun(w: World, trace: seq<Step>, a: NodeId, b: NodeId)
    requires Inv(w) && Valid(w, trace) && Tracked(w, a, b) && QuietRun(w, trace, a, b)
    requires forall s | s in trace :: Genuine(s, a, b)
    ensures Tracked(Run(w, trace), a, b)
    decreases |trace|
  {
    if trace != [] {
      var before := trace[..|trace| - 1];
      TrackRun(w, before, a, b);
      RunInv(w, before);
      TrackStep(Run(w, before), trace[|trace| - 1], a, b);
    }
  }

  /**
   * Rotation continuity.  From any reachable world in which `b` pins `a`'s current key, at any
   * stage of a rotation that counts with `b`, every run without a revocation between the two
   * nodes, a rotation that leaves `b` out, an abandonment after the swap or a reply in `b`'s name
   * under somebody else's key keeps `b` on `a`'s current key, or on exactly the old key that `a`'s
   * owed statement proves.
   */
  lemma RotationContinuity(w: World, trace: seq<Step>, a: NodeId, b: NodeId)
    requires Inv(w) && Valid(w, trace) && a in w.nodes && b in w.nodes && a != b
    requires Established(w.nodes[a], w.nodes[b]) && QuietRun(w, trace, a, b) && forall s | s in trace :: Genuine(s, a, b)
    ensures var w' := Run(w, trace);
            a in w'.nodes && b in w'.nodes && Continuous(w'.nodes[a], b, w'.nodes[b].store)
  {
    EstablishedTracks(w.nodes[a], w.nodes[b], w.facts);
    TrackRun(w, trace, a, b);
    RunInv(w, trace);
  }
}
