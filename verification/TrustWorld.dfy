/**
 * Any number of honest nodes that exchange trust statements over a network that loses,
 * duplicates and reorders them, next to an adversary that signs with its own keys and delivers
 * whatever was ever signed.
 */
module TrustWorld {
  import opened Prelude
  import opened NonceCache
  import opened TrustModel

  /** One stored transaction, signature or process event of one node. */
  datatype Op =
    | DoRequest(peer: NodeId, k: Key, own: Key, nonce: Nonce, now: int)
    | DoSign(attempt: Attempt, now: int)
    | DoReadKey
    | DoIntroduce(own: Key, m: Message, now: int)
    | DoAnswer(answer: Answer, nonce: Nonce, now: int)
    | DoAcceptReply(attempt: Attempt, own: Key, m: Message, now: int)
    | DoSettle(peer: NodeId, nonce: Nonce)
    | DoPark(peer: NodeId, nonce: Nonce, now: int)
    | DoRevoke(peer: NodeId)
    | DoScan
    | DoLook(peer: NodeId)
    | DoCheck(peer: NodeId, own: Key, now: int)
    | DoResend(peer: NodeId, live: Key, nonce: Nonce, now: int)
    | DoRotateList
    | DoRotateCommit(nonces: map<NodeId, Nonce>, drawn: nat, now: int)
    | DoSwap
    | DoSwapFails
    | DoRotateSend(peer: NodeId, live: Key)
    | DoRotateEnd
    | DoCrash

  const NOTHING_IN_FLIGHT := Process({}, Redrive(map[], map[], map[]), {}, {}, {}, {})

  predicate Fresh(n: Node, nonce: Nonce) {
    nonce.issuer == n.id && nonce.draw >= n.nextNonce
  }

  predicate IsReplyTo(m: Message, a: Attempt) {
    m.p.node == a.peer && m.p.pk == a.live && m.p.replyNonce == Some(a.nonce)
  }

  predicate Can(n: Node, op: Op, facts: set<Fact>) {
    match op
    case DoRequest(peer, k, own, nonce, now) => Fresh(n, nonce) && !RequestConflicts(n.store, peer, k)
    case DoSign(attempt, now) => attempt in n.proc.drafts
    case DoReadKey => true
    case DoIntroduce(own, m, now) => own in n.proc.seen && Deliverable(facts, m) && Receive(n, own, m, now).Accepted?
    case DoAnswer(answer, nonce, now) => answer in n.proc.answers && Fresh(n, nonce)
    case DoAcceptReply(attempt, own, m, now) =>
      own in n.proc.seen && attempt in n.proc.sent && Deliverable(facts, m) && IsReplyTo(m, attempt) && Receive(n, own, m, now).Accepted?
    case DoSettle(peer, nonce) => (peer, nonce) in n.proc.settling
    case DoPark(peer, nonce, now) => true
    case DoRevoke(peer) => true
    case DoScan => true
    case DoLook(peer) => peer in n.proc.redrive.pass
    case DoCheck(peer, own, now) => own in n.proc.seen && peer in n.proc.redrive.looked
    case DoResend(peer, live, nonce, now) => peer in n.proc.redrive.ready && Fresh(n, nonce)
    case DoRotateList => n.rotating.Idle?
    case DoRotateCommit(nonces, drawn, now) =>
      && n.rotating.Listed? && n.rotating.peers.Keys <= nonces.Keys && n.nextNonce <= drawn
      && (forall peer | peer in nonces :: Fresh(n, nonces[peer]) && nonces[peer].draw < drawn)
    case DoSwap => n.rotating.Committed?
    case DoSwapFails => n.rotating.Committed?
    case DoRotateSend(peer, live) => n.rotating.Swapped? && peer in n.rotating.peers
    case DoRotateEnd => n.rotating.Swapped?
    case DoCrash => true
  }

  /** The operation's effect on the stored records. */
  function Stored(n: Node, op: Op, facts: set<Fact>): Store
    requires Can(n, op, facts)
  {
    match op
    case DoRequest(peer, k, own, nonce, now) => Request(n.store, peer, k, own, nonce, now)
    case DoIntroduce(own, m, now) => Receive(n, own, m, now).store
    case DoAcceptReply(attempt, own, m, now) => Receive(n, own, m, now).store
    case DoSettle(peer, nonce) => Settle(n.store, peer, nonce)
    case DoPark(peer, nonce, now) => Park(n.store, peer, nonce, now)
    case DoRevoke(peer) => Revoke(n.store, peer)
    case DoLook(peer) => LookAt(n.store, peer, n.proc.redrive.pass[peer])
    case DoCheck(peer, own, now) => CheckObligation(n.store, own, n.rotating.Committed?, peer, n.proc.redrive.looked[peer], now).store
    case DoResend(peer, live, nonce, now) => Resend(n.store, peer, n.proc.redrive.ready[peer], nonce, now)
    case DoRotateCommit(nonces, drawn, now) =>
      if n.store.window.Some? then n.store
      else OpenWindow(n.store, n.rotating.peers.Keys, nonces, Key(n.id, n.nextGen), n.rotating.previous, now)
    case _ => n.store
  }

  /** The operation's effect on the re-drive pass. */
  function Redriven(n: Node, op: Op, facts: set<Fact>): Redrive
    requires Can(n, op, facts)
  {
    var p := n.proc.redrive;
    match op
    case DoScan => p.(pass := n.store.owed)
    case DoLook(peer) =>
      p.(pass := p.pass - {peer},
         looked := if Live(n.store, peer) then p.looked[peer := Ready(p.pass[peer], n.store.trust[peer].localApproved)] else p.looked)
    case DoCheck(peer, own, now) =>
      var c := CheckObligation(n.store, own, n.rotating.Committed?, peer, p.looked[peer], now);
      p.(looked := p.looked - {peer}, ready := if c.Send? then p.ready[peer := c.ready] else p.ready)
    case DoResend(peer, live, nonce, now) => p.(ready := p.ready - {peer})
    case _ => p
  }

  /** The operation's effect on what the process has in flight. */
  function InFlight(n: Node, op: Op, facts: set<Fact>): Process
    requires Can(n, op, facts)
  {
    var p := n.proc;
    match op
    case DoRequest(peer, k, own, nonce, now) =>
      if RequestSends(n.store, peer, k) then p.(drafts := p.drafts + {Attempt(peer, k, true, nonce, None)}) else p
    case DoSign(attempt, now) => p.(drafts := p.drafts - {attempt}, sent := p.sent + {attempt})
    case DoIntroduce(own, m, now) =>
      p.(answers := p.answers + {Answer(m.p.node, m.p.pk, ReceivedRow(n, m.p).localApproved, m.p.nonce)})
    case DoAnswer(answer, nonce, now) => p.(answers := p.answers - {answer})
    case DoAcceptReply(attempt, own, m, now) =>
      p.(sent := p.sent - {attempt}, settling := p.settling + {(attempt.peer, attempt.nonce)})
    case DoSettle(peer, nonce) => p.(settling := p.settling - {(peer, nonce)})
    case DoReadKey => p.(seen := p.seen + {n.key})
    case DoResend(peer, live, nonce, now) =>
      var r := p.redrive.ready[peer];
      p.(redrive := Redriven(n, op, facts),
         drafts := if Matches(n.store, peer, r.current)
                   then p.drafts + {Attempt(peer, live, r.approved, nonce, Previous(r.current))}
                   else p.drafts)
    case DoRotateSend(peer, live) =>
      if peer !in n.store.owed then p
      else p.(drafts := p.drafts + {Attempt(peer, live, n.rotating.peers[peer], n.store.owed[peer].nonce, Some(n.rotating.previous))})
    case DoCrash => NOTHING_IN_FLIGHT
    case _ => p.(redrive := Redriven(n, op, facts))
  }

  /** The operation's effect on the key hook and on the stage of `rotate`. */
  function Rotated(n: Node, op: Op, facts: set<Fact>): (Key, nat, Rotating)
    requires Can(n, op, facts)
  {
    match op
    case DoRotateList => (n.key, n.nextGen, if n.store.window.Some? then Idle else Listed(RotationPeers(n.store), n.key))
    case DoRotateCommit(nonces, drawn, now) =>
      if n.store.window.Some? then (n.key, n.nextGen, Idle)
      else (n.key, n.nextGen + 1, Committed(Key(n.id, n.nextGen), n.rotating.peers, n.rotating.previous))
    case DoSwap => (n.rotating.next, n.nextGen, Swapped(n.rotating.peers, n.rotating.previous))
    case DoRotateSend(peer, live) => (n.key, n.nextGen, Swapped(n.rotating.peers - {peer}, n.rotating.previous))
    case DoSwapFails => (n.key, n.nextGen, Idle)
    case DoRotateEnd => (n.key, n.nextGen, Idle)
    case DoCrash => (n.key, n.nextGen, Idle)
    case _ => (n.key, n.nextGen, n.rotating)
  }

  function Draws(n: Node, op: Op): nat {
    match op
    case DoRequest(_, _, _, nonce, _) => nonce.draw + 1
    case DoAnswer(_, nonce, _) => nonce.draw + 1
    case DoResend(_, _, nonce, _) => nonce.draw + 1
    case DoRotateCommit(_, drawn, _) => drawn
    case _ => n.nextNonce
  }

  function Local(n: Node, op: Op, facts: set<Fact>): Node
    requires Can(n, op, facts)
  {
    var (key, nextGen, rotating) := Rotated(n, op, facts);
    Node(n.id, n.seeds, key, nextGen, Draws(n, op), Stored(n, op, facts), rotating, InFlight(n, op, facts))
  }

  /** The signatures an operation adds to the network. */
  function Signs(n: Node, op: Op): set<Fact> {
    match op
    case DoSign(attempt, now) => SignedBy(n.key, attempt.oldKey, Statement(n, attempt, now))
    case DoAnswer(answer, nonce, now) => SignedBy(n.key, OldKey(n.store, answer.peer), ReplyStatement(n, answer, nonce, now))
    case _ => {}
  }

  datatype World = World(nodes: map<NodeId, Node>, facts: set<Fact>)

  datatype Step = Act(a: NodeId, op: Op) | Forge(signer: Key, p: Payload)

  predicate Published(facts: set<Fact>, nonce: Nonce) {
    exists f :: f in facts && f.p.nonce == nonce
  }

  /** The operation accepts a statement of `b`, sent to the node or returned to it. */
  predicate ReceivesFrom(op: Op, b: NodeId) {
    (op.DoIntroduce? || op.DoAcceptReply?) && op.m.p.node == b
  }

  predicate Hears(s: Step, a: NodeId, b: NodeId) { s.Act? && s.a == a && ReceivesFrom(s.op, b) }

  /** The adversary signs only with keys no honest node owns, and cannot guess an honest nonce. */
  predicate Enabled(w: World, s: Step) {
    match s
    case Act(a, op) => a in w.nodes && Can(w.nodes[a], op, w.facts)
    case Forge(signer, p) =>
      signer.owner !in w.nodes && (p.nonce.issuer in w.nodes ==> Published(w.facts, p.nonce))
  }

  function Apply(w: World, s: Step): World
    requires Enabled(w, s)
  {
    match s
    case Act(a, op) =>
      World(w.nodes[a := Local(w.nodes[a], op, w.facts)], w.facts + Signs(w.nodes[a], op))
    case Forge(signer, p) => w.(facts := w.facts + {Fact(signer, p)})
  }

  predicate FreshNode(n: Node, a: NodeId) {
    && n.id == a && n.key == Key(a, 0) && n.nextGen == 1 && n.nextNonce == 0
    && n.store == Store(map[], map[], None, map[]) && n.rotating.Idle?
    && n.proc == NOTHING_IN_FLIGHT
  }

  predicate Init(w: World) {
    w.facts == {} && forall a | a in w.nodes :: FreshNode(w.nodes[a], a)
  }

  /** `trace` can run from `w`, step after step. */
  predicate Valid(w: World, trace: seq<Step>)
    decreases |trace|, 0
  {
    trace != [] ==> Valid(w, trace[..|trace| - 1]) && Enabled(Run(w, trace[..|trace| - 1]), trace[|trace| - 1])
  }

  function Run(w: World, trace: seq<Step>): World
    requires Valid(w, trace)
    decreases |trace|, 1
  {
    if trace == [] then w else Apply(Run(w, trace[..|trace| - 1]), trace[|trace| - 1])
  }
}
