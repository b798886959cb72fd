/**
 * Trust rows, owed statements and key rotation of one node (`TrustService`), every stored
 * transaction as a function on the node's records.
 *
 * Signatures are ideal (section 5.1 of RFC 8032 taken as unforgeable): a signature is the fact
 * that a key signed a payload.  Fingerprints and digests are collision free, so a fingerprint
 * is the key it names.
 */
module TrustModel {
  import opened Prelude
  import opened NonceCache

  const EXCHANGE_RETRY_MS: int := 60_000
  const REFUSED_RETRY_MS: int := 600_000

  /** The `gen`-th key pair `owner` generated. */
  datatype Key = Key(owner: NodeId, gen: nat)

  /** The signed body of a trust statement. */
  datatype Payload = Payload(node: NodeId, target: NodeId, pk: Key, targetFp: Key, approved: bool,
                             nonce: Nonce, timestamp: int, replyNonce: Option<Nonce>)

  /** `signer` signed `p`. */
  datatype Fact = Fact(signer: Key, p: Payload)

  /** A statement on the wire: a payload with the two signatures it carries. */
  datatype Message = Message(p: Payload, signature: Option<Key>, previousSignature: Option<Key>)

  /** Nobody forges: every signature a message carries was made by the key it is attributed to. */
  predicate Deliverable(facts: set<Fact>, m: Message) {
    && (m.signature.Some? ==> Fact(m.signature.value, m.p) in facts)
    && (m.previousSignature.Some? ==> Fact(m.previousSignature.value, m.p) in facts)
  }

  datatype Stage = Pending | Trusted | Revoked

  /** A trust row; a revoked row keeps no key. */
  datatype Row = Row(stage: Stage, pk: Option<Key>, localApproved: bool, remoteApproved: bool)

  /** One owed statement: a plain approval, or a rotation with the old key that proves it. */
  datatype Obligation =
    | Approval(nonce: Nonce, fp: Key, at: int, blocked: Option<int>)
    | Rotation(nonce: Nonce, fp: Key, at: int, blocked: Option<int>, previous: Key)

  /** One send of a statement: the identity it addresses and what the statement will carry. */
  datatype Attempt = Attempt(peer: NodeId, live: Key, approved: bool, nonce: Nonce, oldKey: Option<Key>)

  /** The answer an accepted introduction still has to get. */
  datatype Answer = Answer(peer: NodeId, pk: Key, approved: bool, nonce: Nonce)

  /** Where this process is inside `rotate`. */
  datatype Rotating =
    | Idle
    | Listed(peers: map<NodeId, bool>, previous: Key)
    | Committed(next: Key, peers: map<NodeId, bool>, previous: Key)
    | Swapped(peers: map<NodeId, bool>, previous: Key)

  /** An obligation the re-drive pass has looked at or cleared for sending, with the approval it read. */
  datatype Ready = Ready(current: Obligation, approved: bool)

  /** The node's durable records: trust rows, owed statements, the rotation window, used nonces. */
  datatype Store = Store(trust: map<NodeId, Row>, owed: map<NodeId, Obligation>, window: Option<Key>, nonces: Cache)

  /** The re-drive pass: what it scanned, what it has looked at, what it has cleared for sending. */
  datatype Redrive = Redrive(pass: map<NodeId, Obligation>, looked: map<NodeId, Ready>, ready: map<NodeId, Ready>)

  /** What the process has in flight: the own keys its calls have read, the pass, unsent and unanswered statements, replies. */
  datatype Process = Process(
    seen: set<Key>,
    redrive: Redrive,
    drafts: set<Attempt>,
    sent: set<Attempt>,
    settling: set<(NodeId, Nonce)>,
    answers: set<Answer>)

  /** A node: identity, the host's key hook, nonces drawn, records, rotation stage, process. */
  datatype Node = Node(
    id: NodeId, seeds: map<NodeId, Key>, key: Key, nextGen: nat, nextNonce: nat,
    store: Store, rotating: Rotating, proc: Process)

  predicate Live(s: Store, peer: NodeId) {
    peer in s.trust && !s.trust[peer].stage.Revoked?
  }

  predicate OwesRotation(s: Store, peer: NodeId) {
    peer in s.owed && s.owed[peer].Rotation?
  }

  predicate OwesAnyRotation(s: Store) {
    exists peer | peer in s.owed :: OwesRotation(s, peer)
  }

  function CloseWindow(s: Store): Store {
    if OwesAnyRotation(s) then s else s.(window := None)
  }

  /** The stored obligation is still the attempt `expected` was read from. */
  predicate Matches(s: Store, peer: NodeId, expected: Obligation) {
    peer in s.owed && s.owed[peer].nonce == expected.nonce && s.owed[peer].Rotation? == expected.Rotation?
  }

  function Unblocked(o: Obligation): Obligation {
    o.(blocked := None)
  }

  function DropObligation(s: Store, peer: NodeId): Store
    requires peer in s.owed
  {
    var dropped := s.(owed := s.owed - {peer});
    if s.owed[peer].Rotation? then CloseWindow(dropped) else dropped
  }

  // ---- request ---------------------------------------------------------------

  predicate RequestConflicts(s: Store, peer: NodeId, k: Key) {
    peer in s.trust && s.trust[peer].pk != Some(k) && !s.trust[peer].stage.Revoked?
  }

  function RequestedRow(s: Store, peer: NodeId, k: Key): Row {
    if peer !in s.trust then Row(Pending, Some(k), true, false)
    else
      var before := s.trust[peer];
      var mutual := before.pk == Some(k) && (before.stage.Trusted? || (before.stage.Pending? && before.remoteApproved));
      Row(if mutual then Trusted else Pending, Some(k), true, before.remoteApproved)
  }

  /** The request owes and sends a statement, unless it repeats a settled one or a rotation owns the slot. */
  predicate RequestSends(s: Store, peer: NodeId, k: Key) {
    && (peer in s.trust ==> !s.trust[peer].stage.Trusted? || !s.trust[peer].localApproved || s.trust[peer].pk != Some(k))
    && !OwesRotation(s, peer)
  }

  /** The commit of `request`: `k` is the key the user confirmed, `own` the key read before it. */
  function Request(s: Store, peer: NodeId, k: Key, own: Key, nonce: Nonce, now: int): Store {
    var row := s.(trust := s.trust[peer := RequestedRow(s, peer, k)]);
    if RequestSends(s, peer, k) then row.(owed := s.owed[peer := Approval(nonce, own, now, None)]) else row
  }

  // ---- receive ---------------------------------------------------------------

  datatype Refusal = Unauthenticated | Forbidden | InvalidRequest | IdConflict
  datatype Received = Accepted(store: Store) | Refused(refusal: Refusal)

  function SlotOf(p: Payload): Slot { Slot(p.node, p.nonce) }

  /** The transcript checks of `receive` before its transaction. */
  predicate WellAddressed(n: Node, own: Key, m: Message, now: int) {
    && m.p.node != n.id && m.p.target == n.id && m.p.targetFp == own
    && InWindow(m.p.timestamp, now)
    && m.signature == Some(m.p.pk)
    && (m.p.node in n.seeds ==> n.seeds[m.p.node] == m.p.pk)
  }

  predicate KeyChanged(s: Store, p: Payload) {
    p.node in s.trust && s.trust[p.node].pk != Some(p.pk)
  }

  predicate Proven(s: Store, m: Message)
    requires m.p.node in s.trust
  {
    m.previousSignature.Some? && m.previousSignature == s.trust[m.p.node].pk
  }

  function ReceivedRow(n: Node, p: Payload): Row {
    var local := p.node in n.seeds || (p.node in n.store.trust && n.store.trust[p.node].localApproved);
    Row(if local && p.approved then Trusted else Pending, Some(p.pk), local, p.approved)
  }

  /** `own` is the key this call read before its transaction. */
  function Receive(n: Node, own: Key, m: Message, now: int): (r: Received) {
    var s := n.store;
    if !WellAddressed(n, own, m, now) then Refused(Unauthenticated)
    else if SlotOf(m.p) in s.nonces then Refused(Unauthenticated)
    else if m.p.node in s.trust && s.trust[m.p.node].stage.Revoked? then Refused(Forbidden)
    else if m.p.node !in s.trust && !m.p.approved then Refused(InvalidRequest)
    else if KeyChanged(s, m.p) && !Proven(s, m) then Refused(IdConflict)
    else Accepted(Store(
      s.trust[m.p.node := ReceivedRow(n, m.p)],
      if m.p.node in s.owed then s.owed[m.p.node := Unblocked(s.owed[m.p.node])] else s.owed,
      s.window,
      Consume(s.nonces, Arrival(SlotOf(m.p), m.p.timestamp, now))))
  }

  // ---- settle, park, revoke ---------------------------------------------------

  function Settle(s: Store, peer: NodeId, nonce: Nonce): Store {
    if peer in s.owed && s.owed[peer].nonce == nonce then DropObligation(s, peer) else s
  }

  function Park(s: Store, peer: NodeId, nonce: Nonce, now: int): Store {
    if peer in s.owed && s.owed[peer].nonce == nonce
    then s.(owed := s.owed[peer := s.owed[peer].(blocked := Some(now + REFUSED_RETRY_MS))])
    else s
  }

  function RevokedRow(): Row { Row(Revoked, None, false, false) }

  function Revoke(s: Store, peer: NodeId): Store {
    var row := if peer in s.trust then s.(trust := s.trust[peer := RevokedRow()]) else s;
    if peer in s.owed then DropObligation(row, peer) else row
  }

  // ---- redrive ----------------------------------------------------------------

  function AbandonRotation(s: Store): Store {
    s.(window := None, owed := map peer | peer in s.owed && !s.owed[peer].Rotation? :: s.owed[peer])
  }

  function DropIfMatches(s: Store, peer: NodeId, o: Obligation): Store {
    if Matches(s, peer, o) then s.(owed := s.owed - {peer}) else s
  }

  datatype Check = Skip(store: Store) | Send(store: Store, ready: Ready)

  /** The pass reads the row of an obligation; a dead row ends the obligation. */
  function LookAt(s: Store, peer: NodeId, o: Obligation): Store {
    if !Live(s, peer) && Matches(s, peer, o) then DropObligation(s, peer) else s
  }

  /**
   * A looked-at obligation, up to the lookup of the peer's live key: either the pass moves on, or
   * the statement may be sent.  `own` is the key the pass read before, and `swapping` says that
   * this process is inside the swap now.
   */
  function CheckObligation(s: Store, own: Key, swapping: bool, peer: NodeId, r: Ready, now: int): (c: Check) {
    var o := r.current;
    if o.Rotation? && s.window.None? then
      Skip(DropIfMatches(s, peer, o))
    else if o.Rotation? && s.window != Some(own) then
      Skip(if swapping then s else AbandonRotation(s))
    else if o.Approval? && o.fp != own then
      Skip(DropIfMatches(s, peer, o))
    else if o.blocked.Some? && (now < o.blocked.value || !Matches(s, peer, o)) then
      Skip(s)
    else
      var cleared := if o.blocked.Some? then s.(owed := s.owed[peer := Unblocked(o)]) else s;
      if now - o.at < EXCHANGE_RETRY_MS then Skip(cleared)
      else Send(cleared, Ready(Unblocked(o), r.approved))
  }

  function Previous(o: Obligation): Option<Key> {
    if o.Rotation? then Some(o.previous) else None
  }

  /** The statement goes out under a fresh nonce if the stored obligation is still the one read. */
  function Resend(s: Store, peer: NodeId, r: Ready, nonce: Nonce, now: int): Store {
    if Matches(s, peer, r.current) then s.(owed := s.owed[peer := r.current.(nonce := nonce, at := now)]) else s
  }

  // ---- rotate -----------------------------------------------------------------

  /** The relations whose peer may hold this node's current key, with this node's own approval. */
  function RotationPeers(s: Store): map<NodeId, bool> {
    map peer | peer in s.trust && Live(s, peer) && (s.trust[peer].localApproved || s.trust[peer].remoteApproved)
      :: s.trust[peer].localApproved
  }

  function RotationStatements(peers: set<NodeId>, nonces: map<NodeId, Nonce>, next: Key, previous: Key, now: int): map<NodeId, Obligation>
    requires peers <= nonces.Keys
  {
    map peer | peer in peers :: Rotation(nonces[peer], next, now, None, previous)
  }

  /** The window and every rotation statement, in one transaction. */
  function OpenWindow(s: Store, peers: set<NodeId>, nonces: map<NodeId, Nonce>, next: Key, previous: Key, now: int): Store
    requires peers <= nonces.Keys
  {
    if peers == {} then s
    else s.(owed := s.owed + RotationStatements(peers, nonces, next, previous, now), window := Some(next))
  }

  // ---- statements -------------------------------------------------------------

  /** The statement of one attempt, signed with the key the host reports now. */
  function Statement(n: Node, a: Attempt, timestamp: int): Payload {
    Payload(n.id, a.peer, n.key, a.live, a.approved, a.nonce, timestamp, None)
  }

  /** The reply to an introduction: it echoes the nonce it answers. */
  function ReplyStatement(n: Node, a: Answer, nonce: Nonce, timestamp: int): Payload {
    Payload(n.id, a.peer, n.key, a.pk, a.approved, nonce, timestamp, Some(a.nonce))
  }

  /** Signed with the current key, and with the old one while it is carried. */
  function SignedBy(key: Key, oldKey: Option<Key>, p: Payload): set<Fact> {
    {Fact(key, p)} + (if oldKey.Some? then {Fact(oldKey.value, p)} else {})
  }

  function OldKey(s: Store, peer: NodeId): Option<Key> {
    if peer in s.owed then Previous(s.owed[peer]) else None
  }
}
