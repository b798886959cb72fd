/**
 * Whose key a row has to hold.  While `a`'s row for `b`, or a seed configured for it, holds a key of
 * any node of the world, every reply accepted in the name of `b` is `b`'s own; a key of nobody in the
 * world lets its holder answer the rotation statement in `b`'s place.
 */
module TrustImpostor {
  import opened Prelude
  import opened NonceCache
  import opened TrustModel
  import opened TrustWorld
  import opened TrustInvariant
  import opened TrustContinuity
  import opened TrustPaths

  /** The row for `b` is unrevoked and holds a key some node of the world generated, or its seed does. */
  ghost predicate HonestRow(w: World, n: Node, b: NodeId) {
    && Live(n.store, b) && n.store.trust[b].pk.Some?
    && (n.store.trust[b].pk.value.owner in w.nodes || (b in n.seeds && n.seeds[b].owner in w.nodes))
  }

  // ---- a row with an honest key ---------------------------------------------------------

  /** Under an honest row a statement is accepted in the name of `b` only with a key of `b`. */
  lemma HonestRowHearsItsPeer(w: World, n: Node, own: Key, m: Message, now: int)
    requires Inv(w) && HonestRow(w, n, m.p.node) && Deliverable(w.facts, m) && Receive(n, own, m, now).Accepted?
    ensures m.p.pk.owner == m.p.node && m.p.node in w.nodes
  {
    var held := n.store.trust[m.p.node].pk.value;
    var k := if held.owner in w.nodes then held else n.seeds[m.p.node];
    assert Fact(k, m.p) in w.facts;
    assert NodeInv(w.nodes[k.owner], w.facts);
  }

  lemma HonestRowStays(w: World, n: Node, op: Op, b: NodeId)
    requires Inv(w) && Can(n, op, w.facts) && HonestRow(w, n, b) && op != DoRevoke(b)
    ensures HonestRow(w, Local(n, op, w.facts), b) && GenuineOp(op, b)
  {
    if ReceivesFrom(op, b) {
      HonestRowHearsItsPeer(w, n, op.own, op.m, op.now);
      PinReceived(n, op, w.facts);
    } else {
      PinStays(n, op, b, n.store.trust[b].pk.value, w.facts);
    }
  }

  ghost predicate HonestAt(w: World, a: NodeId, b: NodeId) {
    a in w.nodes && b in w.nodes && HonestRow(w, w.nodes[a], b)
  }

  lemma HonestByA(w: World, op: Op, a: NodeId, b: NodeId)
    requires Inv(w) && Enabled(w, Act(a, op)) && HonestAt(w, a, b) && op != DoRevoke(b)
    ensures HonestAt(Apply(w, Act(a, op)), a, b) && GenuineOp(op, b)
  {
    HonestRowStays(w, w.nodes[a], op, b);
  }

  lemma HonestByOther(w: World, s: Step, a: NodeId, b: NodeId)
    requires Enabled(w, s) && HonestAt(w, a, b) && (s.Act? ==> s.a != a)
    ensures HonestAt(Apply(w, s), a, b)
  {}

  lemma HonestStep(w: World, s: Step, a: NodeId, b: NodeId)
    requires Inv(w) && Enabled(w, s) && HonestAt(w, a, b) && Quiet(w, s, a, b)
    ensures HonestAt(Apply(w, s), a, b) && Genuine(s, a, b)
  {
    if s.Act? && s.a == a {
      assert w.nodes[b].id == b;
      HonestByA(w, s.op, a, b);
    } else {
      HonestByOther(w, s, a, b);
    }
  }

  /** In a quiet run from an honest row, every reply accepted in the name of `b` is `b`'s own. */
  lemma {:induction false} HonestRun(w: World, trace: seq<Step>, a: NodeId, b: NodeId)
    requires Inv(w) && Valid(w, trace) && HonestAt(w, a, b) && QuietRun(w, trace, a, b)
    ensures HonestAt(Run(w, trace), a, b)
    ensures forall s | s in trace :: Genuine(s, a, b)
    decreases |trace|
  {
    if trace != [] {
      var before, last := trace[..|trace| - 1], trace[|trace| - 1];
      HonestRun(w, before, a, b);
      RunInv(w, before);
      HonestStep(Run(w, before), last, a, b);
      assert forall s | s in trace :: s in before || s == last;
    }
  }

  ghost predicate Keeps(w: World, a: NodeId, b: NodeId) {
    a in w.nodes && b in w.nodes && Continuous(w.nodes[a], b, w.nodes[b].store)
  }

  /** Rotation continuity of a row with an honest key: no assumption on the replies is left. */
  lemma HonestContinuity(w: World, trace: seq<Step>, a: NodeId, b: NodeId)
    requires Inv(w) && Valid(w, trace) && HonestAt(w, a, b) && a != b
    requires Established(w.nodes[a], w.nodes[b]) && QuietRun(w, trace, a, b)
    ensures Keeps(Run(w, trace), a, b)
  {
    HonestRun(w, trace, a, b);
    RotationContinuity(w, trace, a, b);
  }

  // ---- a row with a key of nobody in the world ---------------------------------------------

  /** The same node, with the same key and the same rows, that owes `b` a rotation statement. */
  ghost predicate Owing(A: Node, A': Node, b: NodeId) {
    && A'.id == A.id && A'.seeds == A.seeds && A'.key == A.key && A'.nextNonce == A.nextNonce
    && A'.store.trust == A.store.trust && A'.store.nonces == A.store.nonces && A'.store.window == A.store.window
    && OwesRotation(A.store, b) && OwesRotation(A'.store, b) && A'.store.owed[b] == Unblocked(A.store.owed[b])
  }

  /** The pass scans, looks at the row of `b` and reads the own key. */
  lemma Looks(A: Node, b: NodeId, facts: set<Fact>)
    requires Live(A.store, b) && OwesRotation(A.store, b)
    ensures var scanned := Local(A, DoScan, facts);
            Can(scanned, DoLook(b), facts) && var looked := Local(scanned, DoLook(b), facts);
            var A' := Local(looked, DoReadKey, facts);
            && A' == A.(proc := A'.proc) && A.key in A'.proc.seen
            && b in A'.proc.redrive.looked && A'.proc.redrive.looked[b].current == A.store.owed[b]
  {}

  /** Late enough, the check clears the statement for sending. */
  function DueAt(o: Obligation): int {
    if o.blocked.Some? && o.blocked.value > o.at + EXCHANGE_RETRY_MS then o.blocked.value else o.at + EXCHANGE_RETRY_MS
  }

  lemma Clears(A: Node, b: NodeId, facts: set<Fact>)
    requires OwesRotation(A.store, b) && A.store.window == Some(A.key) && A.key in A.proc.seen
    requires b in A.proc.redrive.looked && A.proc.redrive.looked[b].current == A.store.owed[b]
    ensures var op := DoCheck(b, A.key, DueAt(A.store.owed[b]));
            Can(A, op, facts) && var A' := Local(A, op, facts);
            && Owing(A, A', b) && A.key in A'.proc.seen
            && b in A'.proc.redrive.ready && A'.proc.redrive.ready[b].current == A'.store.owed[b]
  {}

  lemma Resends(A: Node, b: NodeId, live: Key, now: int, facts: set<Fact>)
    requires OwesRotation(A.store, b) && A.key in A.proc.seen
    requires b in A.proc.redrive.ready && A.proc.redrive.ready[b].current == A.store.owed[b]
    ensures var nonce := Nonce(A.id, A.nextNonce);
            Can(A, DoResend(b, live, nonce, now), facts) && var A' := Local(A, DoResend(b, live, nonce, now), facts);
            && A' == A.(nextNonce := A'.nextNonce, store := A.store.(owed := A'.store.owed), proc := A'.proc)
            && OwesRotation(A'.store, b) && A'.store.owed[b].nonce == nonce && A.key in A'.proc.seen
            && Attempt(b, live, A.proc.redrive.ready[b].approved, nonce, Some(A.store.owed[b].previous)) in A'.proc.drafts
  {}

  lemma SignsAttempt(A: Node, attempt: Attempt, now: int, facts: set<Fact>)
    requires attempt in A.proc.drafts
    ensures Can(A, DoSign(attempt, now), facts) && var A' := Local(A, DoSign(attempt, now), facts);
            A' == A.(proc := A'.proc) && A'.proc.seen == A.proc.seen && attempt in A'.proc.sent
  {}

  /** What the holder of `live` answers to an attempt that addresses it. */
  function Forged(A: Node, attempt: Attempt, nonce: Nonce, now: int): Payload {
    Payload(attempt.peer, A.id, attempt.live, A.key, true, nonce, now, Some(attempt.nonce))
  }

  /** The key a statement in the name of `b` has to be under, unless it changes the key. */
  function KeyFor(n: Node, b: NodeId): Key
    requires Live(n.store, b) && n.store.trust[b].pk.Some?
  {
    if b in n.seeds then n.seeds[b] else n.store.trust[b].pk.value
  }

  /** Whoever holds the key of the row and of its seed answers in the name of the row, and is always accepted. */
  lemma AcceptsForged(A: Node, attempt: Attempt, nonce: Nonce, now: int, facts: set<Fact>)
    requires A.key in A.proc.seen && attempt in A.proc.sent && attempt.peer != A.id
    requires Live(A.store, attempt.peer) && A.store.trust[attempt.peer].pk.Some? && attempt.live == KeyFor(A, attempt.peer)
    requires OwesRotation(A.store, attempt.peer) && A.store.owed[attempt.peer].nonce == attempt.nonce
    requires Slot(attempt.peer, nonce) !in A.store.nonces
    ensures var p := Forged(A, attempt, nonce, now);
            var held := A.store.trust[attempt.peer].pk.value;
            var op, facts' := DoAcceptReply(attempt, A.key, Message(p, Some(attempt.live), Some(held)), now), facts + {Fact(attempt.live, p)} + {Fact(held, p)};
            Can(A, op, facts') && var A' := Local(A, op, facts');
            && A'.id == A.id && A'.key == A.key
            && OwesRotation(A'.store, attempt.peer) && A'.store.owed[attempt.peer].nonce == attempt.nonce
            && (attempt.peer, attempt.nonce) in A'.proc.settling
  {}

  lemma SettlesForged(A: Node, b: NodeId, nonce: Nonce, facts: set<Fact>)
    requires OwesRotation(A.store, b) && A.store.owed[b].nonce == nonce && (b, nonce) in A.proc.settling
    ensures Can(A, DoSettle(b, nonce), facts) && var A' := Local(A, DoSettle(b, nonce), facts);
            A'.id == A.id && A'.key == A.key && b !in A'.store.owed
  {}

  lemma {:induction false} Bound(s: set<nat>) returns (n: nat)
    ensures forall x | x in s :: x < n
  {
    if s == {} {
      n := 0;
    } else {
      var x :| x in s;
      var rest := Bound(s - {x});
      n := if x < rest then rest else x + 1;
      assert forall y | y in s :: y == x || y in s - {x};
    }
  }

  /** Some nonce of `issuer` is not in the cache yet. */
  lemma UnusedNonce(c: Cache, peer: NodeId, issuer: NodeId) returns (nonce: Nonce)
    ensures nonce.issuer == issuer && Slot(peer, nonce) !in c
  {
    var draws := set slot | slot in c :: slot.nonce.draw;
    var n := Bound(draws);
    nonce := Nonce(issuer, n);
    assert Slot(peer, nonce) in c ==> n in draws;
  }

  /** The world with `A` in the place of its node. */
  function With(w: World, A: Node, facts: set<Fact>): World { World(w.nodes[A.id := A], facts) }

  /** One more step of `a` on a quiet path. */
  lemma Moves(start: World, trace: seq<Step>, w: World, A: Node, op: Op, b: NodeId, facts: set<Fact>)
    requires QuietPath(start, trace, With(w, A, facts), A.id, b) && b in w.nodes && b != A.id && w.nodes[b].id == b
    requires Can(A, op, facts) && QuietOp(A, w.nodes[b], op)
    ensures QuietPath(start, trace + [Act(A.id, op)], With(w, Local(A, op, facts), facts + Signs(A, op)), A.id, b)
  {
    assert w.nodes[A.id := A][A.id := Local(A, op, facts)] == w.nodes[A.id := Local(A, op, facts)];
    Extend(start, trace, With(w, A, facts), Act(A.id, op), With(w, Local(A, op, facts), facts + Signs(A, op)), A.id, b);
  }

  /** The same for a step that signs nothing. */
  lemma MovesSilently(start: World, trace: seq<Step>, w: World, A: Node, op: Op, b: NodeId, facts: set<Fact>)
    requires QuietPath(start, trace, With(w, A, facts), A.id, b) && b in w.nodes && b != A.id && w.nodes[b].id == b
    requires Can(A, op, facts) && QuietOp(A, w.nodes[b], op) && Signs(A, op) == {}
    ensures QuietPath(start, trace + [Act(A.id, op)], With(w, Local(A, op, facts), facts), A.id, b)
  {
    Moves(start, trace, w, A, op, b, facts);
    assert facts + {} == facts;
  }

  /** The re-drive pass gets as far as sending the statement again. */
  lemma DrivePath(start: World, trace: seq<Step>, w: World, A: Node, b: NodeId, facts: set<Fact>) returns (trace': seq<Step>, A': Node)
    requires QuietPath(start, trace, With(w, A, facts), A.id, b) && b in w.nodes && b != A.id && w.nodes[b].id == b
    requires Live(A.store, b) && OwesRotation(A.store, b) && A.store.window == Some(A.key)
    ensures QuietPath(start, trace', With(w, A', facts), A.id, b) && Owing(A, A', b) && A.key in A'.proc.seen
    ensures b in A'.proc.redrive.ready && A'.proc.redrive.ready[b].current == A'.store.owed[b]
  {
    Looks(A, b, facts);
    var scanned := Local(A, DoScan, facts);
    var looked := Local(scanned, DoLook(b), facts);
    var read := Local(looked, DoReadKey, facts);
    Clears(read, b, facts);
    var check := DoCheck(b, A.key, DueAt(A.store.owed[b]));
    MovesSilently(start, trace, w, A, DoScan, b, facts);
    trace' := trace + [Act(A.id, DoScan)];
    MovesSilently(start, trace', w, scanned, DoLook(b), b, facts);
    trace' := trace' + [Act(A.id, DoLook(b))];
    MovesSilently(start, trace', w, looked, DoReadKey, b, facts);
    trace' := trace' + [Act(A.id, DoReadKey)];
    MovesSilently(start, trace', w, read, check, b, facts);
    trace', A' := trace' + [Act(A.id, check)], Local(read, check, facts);
  }

  /** A statement sent to the holder of `live`. */
  ghost predicate Sent(A: Node, attempt: Attempt, b: NodeId, live: Key) {
    && attempt in A.proc.sent && attempt.peer == b && attempt.live == live && A.key in A.proc.seen
    && OwesRotation(A.store, b) && A.store.owed[b].nonce == attempt.nonce
  }

  /** The statement goes out again, to whoever answers for `b`. */
  lemma SendPath(start: World, trace: seq<Step>, w: World, A: Node, b: NodeId, live: Key, facts: set<Fact>)
    returns (trace': seq<Step>, A': Node, facts': set<Fact>, attempt: Attempt)
    requires QuietPath(start, trace, With(w, A, facts), A.id, b) && b in w.nodes && b != A.id && w.nodes[b].id == b
    requires OwesRotation(A.store, b) && A.key in A.proc.seen
    requires b in A.proc.redrive.ready && A.proc.redrive.ready[b].current == A.store.owed[b]
    ensures QuietPath(start, trace', With(w, A', facts'), A.id, b) && Sent(A', attempt, b, live)
    ensures A'.id == A.id && A'.key == A.key && A'.seeds == A.seeds && A'.store.trust == A.store.trust && A'.store.nonces == A.store.nonces
  {
    var nonce := Nonce(A.id, A.nextNonce);
    Resends(A, b, live, 0, facts);
    var drafted := Local(A, DoResend(b, live, nonce, 0), facts);
    attempt := Attempt(b, live, A.proc.redrive.ready[b].approved, nonce, Some(A.store.owed[b].previous));
    SignsAttempt(drafted, attempt, 0, facts);
    MovesSilently(start, trace, w, A, DoResend(b, live, nonce, 0), b, facts);
    trace' := trace + [Act(A.id, DoResend(b, live, nonce, 0))];
    Moves(start, trace', w, drafted, DoSign(attempt, 0), b, facts);
    trace', A', facts' := trace' + [Act(A.id, DoSign(attempt, 0))], Local(drafted, DoSign(attempt, 0), facts), facts + Signs(drafted, DoSign(attempt, 0));
  }

  /** The row for `b` holds a key that nobody in the world generated, and its seed names none either. */
  ghost predicate ForeignRow(w: World, n: Node, b: NodeId) {
    && Live(n.store, b) && n.store.trust[b].pk.Some? && n.store.trust[b].pk.value.owner !in w.nodes
    && (b in n.seeds ==> n.seeds[b].owner !in w.nodes)
  }

  /** The holder of the row's key answers, and the rotation statement counts as settled. */
  lemma ForgePath(start: World, trace: seq<Step>, w: World, A: Node, b: NodeId, live: Key, attempt: Attempt, facts: set<Fact>)
    returns (trace': seq<Step>, A': Node, facts': set<Fact>)
    requires QuietPath(start, trace, With(w, A, facts), A.id, b) && b in w.nodes && b != A.id && w.nodes[b].id == b && A.id in w.nodes
    requires ForeignRow(w, A, b) && live == KeyFor(A, b) && Sent(A, attempt, b, live)
    ensures QuietPath(start, trace', With(w, A', facts'), A.id, b) && A'.id == A.id && A'.key == A.key && b !in A'.store.owed
  {
    var nonce := UnusedNonce(A.store.nonces, b, live.owner);
    var p := Forged(A, attempt, nonce, 0);
    var held := A.store.trust[b].pk.value;
    var accept, settle := DoAcceptReply(attempt, A.key, Message(p, Some(live), Some(held)), 0), DoSettle(b, attempt.nonce);
    facts' := facts + {Fact(live, p)} + {Fact(held, p)};
    AcceptsForged(A, attempt, nonce, 0, facts);
    var replied := Local(A, accept, facts');
    SettlesForged(replied, b, attempt.nonce, facts');
    Extend(start, trace, With(w, A, facts), Forge(live, p), With(w, A, facts + {Fact(live, p)}), A.id, b);
    trace' := trace + [Forge(live, p)];
    Extend(start, trace', With(w, A, facts + {Fact(live, p)}), Forge(held, p), With(w, A, facts'), A.id, b);
    trace' := trace' + [Forge(held, p)];
    MovesSilently(start, trace', w, A, accept, b, facts');
    trace' := trace' + [Act(A.id, accept)];
    MovesSilently(start, trace', w, replied, settle, b, facts');
    trace', A' := trace' + [Act(A.id, settle)], Local(replied, settle, facts');
  }

  /** The swap is done, and `b` still waits for the statement that proves the new key. */
  ghost predicate Waiting(A: Node, B: Node) {
    OwesRotation(A.store, B.id) && A.key == A.store.owed[B.id].fp && !Pins(B.store, A.id, A.key)
  }

  lemma {:induction false} ImpostorPath(start: World, trace: seq<Step>, w: World, A: Node, b: NodeId, facts: set<Fact>)
    returns (trace': seq<Step>, A': Node, facts': set<Fact>)
    requires QuietPath(start, trace, With(w, A, facts), A.id, b) && b in w.nodes && b != A.id && w.nodes[b].id == b && A.id in w.nodes
    requires ForeignRow(w, A, b) && OwesRotation(A.store, b) && A.store.window == Some(A.key)
    ensures QuietPath(start, trace', With(w, A', facts'), A.id, b) && A'.id == A.id && A'.key == A.key && b !in A'.store.owed
  {
    var live := KeyFor(A, b);
    var driven, sent, attempt;
    trace', driven := DrivePath(start, trace, w, A, b, facts);
    trace', sent, facts', attempt := SendPath(start, trace', w, driven, b, live, facts);
    trace', A', facts' := ForgePath(start, trace', w, sent, b, live, attempt, facts');
  }

  lemma IsNode(w: World, a: NodeId)
    requires Inv(w) && a in w.nodes
    ensures w.nodes[a].id == a && With(w, w.nodes[a], w.facts) == w && w.nodes[a].key.gen < w.nodes[a].nextGen
  {}

  /**
   * From every world in which a rotation statement is owed after the swap beside a row that holds a
   * key of nobody in the world, some quiet run loses the peer.
   */
  lemma ImpostorTakesPeer(w: World, a: NodeId, b: NodeId) returns (trace: seq<Step>)
    requires Inv(w) && a in w.nodes && b in w.nodes && a != b && ForeignRow(w, w.nodes[a], b) && Waiting(w.nodes[a], w.nodes[b])
    ensures Valid(w, trace) && QuietRun(w, trace, a, b) && !Keeps(Run(w, trace), a, b)
  {
    var A := w.nodes[a];
    assert NodeInv(A, w.facts) && RotationInv(A, A.store.owed[b]);
    IsNode(w, a);
    IsNode(w, b);
    var A', facts';
    trace, A', facts' := ImpostorPath(w, [], w, A, b, w.facts);
  }

  /** A commit that draws one nonce for all its statements. */
  function CommitOf(A: Node): Op {
    DoRotateCommit(map peer | peer in RotationPeers(A.store) :: Nonce(A.id, A.nextNonce), A.nextNonce + 1, 0)
  }

  /** A rotation that counts with `b`, up to its swap. */
  lemma Rotates(A: Node, b: NodeId, facts: set<Fact>)
    requires A.rotating.Idle? && A.store.window.None? && b in RotationPeers(A.store)
    ensures var listed := Local(A, DoRotateList, facts);
            Can(listed, CommitOf(A), facts) && var committed := Local(listed, CommitOf(A), facts);
            Can(committed, DoSwap, facts) && var A' := Local(committed, DoSwap, facts);
            && listed.id == A.id && committed.id == A.id && A'.id == A.id && A'.seeds == A.seeds && A'.store.trust == A.store.trust
            && OwesRotation(A'.store, b) && A'.store.window == Some(A'.key) && A'.key == Key(A.id, A.nextGen)
  {}

  lemma RotatePath(w: World, A: Node, b: NodeId, facts: set<Fact>) returns (trace: seq<Step>, A': Node)
    requires A.id in w.nodes && b in w.nodes && b != A.id && w.nodes[b].id == b && With(w, A, facts) == w
    requires A.rotating.Idle? && A.store.window.None? && b in RotationPeers(A.store)
    ensures QuietPath(w, trace, With(w, A', facts), A.id, b) && A'.id == A.id && A'.seeds == A.seeds && A'.store.trust == A.store.trust
    ensures OwesRotation(A'.store, b) && A'.store.window == Some(A'.key) && A'.key == Key(A.id, A.nextGen)
  {
    Rotates(A, b, facts);
    var listed := Local(A, DoRotateList, facts);
    var committed := Local(listed, CommitOf(A), facts);
    MovesSilently(w, [], w, A, DoRotateList, b, facts);
    trace := [] + [Act(A.id, DoRotateList)];
    MovesSilently(w, trace, w, listed, CommitOf(A), b, facts);
    trace := trace + [Act(A.id, CommitOf(A))];
    MovesSilently(w, trace, w, committed, DoSwap, b, facts);
    trace, A' := trace + [Act(A.id, DoSwap)], Local(committed, DoSwap, facts);
  }

  lemma RotateAndForgePath(w: World, A: Node, b: NodeId) returns (trace: seq<Step>)
    requires A.id in w.nodes && b in w.nodes && b != A.id && w.nodes[b].id == b && With(w, A, w.facts) == w && A.key.gen < A.nextGen
    requires ForeignRow(w, A, b) && A.rotating.Idle? && A.store.window.None? && b in RotationPeers(A.store)
    requires Pins(w.nodes[b].store, A.id, A.key)
    ensures Valid(w, trace) && QuietRun(w, trace, A.id, b) && !Keeps(Run(w, trace), A.id, b)
  {
    var swapped, A', facts';
    trace, swapped := RotatePath(w, A, b, w.facts);
    trace, A', facts' := ImpostorPath(w, trace, w, swapped, b, w.facts);
  }

  /** A rotation whose row for `b` holds a key of nobody in the world can lose `b` without another fault. */
  lemma ImpostorAfterRotation(w: World, a: NodeId, b: NodeId) returns (trace: seq<Step>)
    requires Inv(w) && a in w.nodes && b in w.nodes && a != b && Established(w.nodes[a], w.nodes[b]) && ForeignRow(w, w.nodes[a], b)
    requires w.nodes[a].rotating.Idle? && w.nodes[a].store.window.None? && b in RotationPeers(w.nodes[a].store)
    ensures Valid(w, trace) && QuietRun(w, trace, a, b) && !Keeps(Run(w, trace), a, b)
  {
    IsNode(w, a);
    IsNode(w, b);
    trace := RotateAndForgePath(w, w.nodes[a], b);
  }

  /**
   * Of an established relation that a rotation would count with, every quiet run keeps the peer if
   * and only if the row, or a seed configured for it, holds a key that some node of the world generated.
   */
  lemma HonestRowExact(w: World, a: NodeId, b: NodeId)
    requires Inv(w) && a in w.nodes && b in w.nodes && a != b && Established(w.nodes[a], w.nodes[b])
    requires w.nodes[a].rotating.Idle? && w.nodes[a].store.window.None? && b in RotationPeers(w.nodes[a].store)
    ensures (forall trace | Valid(w, trace) && QuietRun(w, trace, a, b) :: Keeps(Run(w, trace), a, b)) <==> HonestAt(w, a, b)
  {
    if HonestAt(w, a, b) {
      forall trace | Valid(w, trace) && QuietRun(w, trace, a, b) ensures Keeps(Run(w, trace), a, b) {
        HonestContinuity(w, trace, a, b);
      }
    } else {
      assert RowInv(w.nodes[a].store.trust[b]);
      var trace := ImpostorAfterRotation(w, a, b);
    }
  }
}
