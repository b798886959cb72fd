/**
 * Message admission at the node that owns the threads (`MessageService`): the records an
 * admission reads and writes, and admit, ack, attention and expire as functions on them.
 *
 * Digests are collision free, so a digest is the content it covers; sequence numbers are
 * natural numbers, and keys are the tuples they encode.
 */
module AdmissionModel {
  import opened Prelude
  import opened Messages

  /** What identifies a message, and what identifies one request to admit it. */
  datatype Digest = Digest(message: Message, target: NodeId)
  datatype RequestDigest = RequestDigest(message: Message, target: NodeId, plan: Plan, retryUntil: int)

  function DigestOf(r: SendRequest): Digest { Digest(r.message, r.target) }
  function RequestDigestOf(r: SendRequest): RequestDigest { RequestDigest(r.message, r.target, r.plan, r.retryUntil) }

  /** What an identity record remembers: a receipt, a refusal, or that there was a receipt. */
  datatype Memory = Receipted(receipt: Receipt) | RefusedWith(code: ErrorCode) | Tombstone
  datatype Remembered = Remembered(digest: Digest, memory: Memory, retryUntil: int)
  datatype Binding = Binding(digest: RequestDigest, identity: MessageRef)

  datatype Thread = Thread(open: bool, nextSeq: nat, eventSeq: nat)
  datatype Member = Member(active: bool, post: bool, read: bool)
  datatype PermitKey = PermitKey(original: MessageRef, grantee: NodeId)
  datatype Permit = Permit(landing: ThreadRef, expiresAt: int, remaining: nat, revoked: bool, followup: bool)

  /** One obligation of one recipient for one message of one thread. */
  datatype Obligation = Obligation(thread: ThreadRef, ref: MessageRef, recipient: NodeId)
  datatype Attention = Attention(number: nat, author: NodeId, acked: bool, expired: bool, plan: Plan, entry: Option<Entry>)
  datatype InboxRow = InboxRow(attention: Attention, context: Option<string>, injected: bool)

  datatype Event = MembershipEvent(peer: NodeId) | MessageEvent(ref: MessageRef, number: nat)

  /** What this node sent itself: who must answer it, and what it answered. */
  datatype Sent = Sent(expectedAuthor: NodeId, inReplyTo: Option<MessageRef>)

  /** The message log: what was answered, the threads' numbering, their entries and the reply permits. */
  datatype Log = Log(
    identities: map<MessageRef, Remembered>,
    bindings: map<(NodeId, string), Binding>,
    threads: map<ThreadRef, Thread>,
    entries: map<(ThreadRef, nat), Entry>,
    refs: map<MessageRef, Entry>,
    permits: map<PermitKey, Permit>)

  datatype Store = Store(
    log: Log,
    members: map<(ThreadRef, NodeId), Member>,
    notices: map<string, (ThreadRef, NodeId)>,
    attention: map<Obligation, Attention>,
    inbox: map<Obligation, InboxRow>,
    events: map<(ThreadRef, nat), Event>,
    outbound: map<MessageRef, Sent>,
    fallback: Option<ThreadRef>)

  datatype Auth = Auth(actor: NodeId, sender: Option<NodeId>, replyAuthority: Option<NodeId>)

  /** The answers of the host and the clock that one admission sees. */
  datatype Env = Env(node: NodeId, now: int, retryMax: int, supported: bool, opensThread: bool, mayAdmit: bool,
                     newThread: string, receiptId: string, revision: string, aliases: map<NodeId, NodeId>)

  /** Refusals this receiver records: deciding them again could never change the answer. */
  predicate Recorded(code: ErrorCode) {
    code in {InvalidRequest, Forbidden, NotAMember, IdConflict, RevisionConflict, ThreadClosed, ContextLost,
             PayloadTooLarge, UnsupportedMediaType, UnsupportedDelivery, AmbiguousTarget, AmbiguousResource}
  }

  /** Refusals that describe the store at one attempt; a recorded one is decided again. */
  predicate Transient(code: ErrorCode) {
    code in {NotFound, Unavailable, Conflict, RetryWindowExpired}
  }

  // ---- the landing of a reply ---------------------------------------------------------

  datatype Landing = Lands(thread: ThreadRef) | NoLanding | Fails(code: ErrorCode)

  /** The thread a message delivered here lives in, if a reply may still land there. */
  function EntryLanding(s: Store, node: NodeId, e: Entry): Landing {
    if e.thread.owner != node then Fails(Forbidden)
    else if e.thread !in s.log.threads then Fails(NotFound)
    else if !s.log.threads[e.thread].open then Fails(ThreadClosed)
    else Lands(e.thread)
  }

  /** The walk from a message to the nearest incoming message its reply chain reaches. */
  function ChainLanding(s: Store, node: NodeId, ref: MessageRef, sender: NodeId, visited: set<MessageRef>): Landing
    decreases s.outbound.Keys - visited
  {
    if ref in visited then Fails(InvalidRequest)
    else if ref in s.log.refs then EntryLanding(s, node, s.log.refs[ref])
    else if ref !in s.outbound then Fails(NotFound)
    else if ref.sender != node || s.outbound[ref].expectedAuthor != sender then Fails(Forbidden)
    else if s.outbound[ref].inReplyTo.None? then NoLanding
    else ChainLanding(s, node, s.outbound[ref].inReplyTo.value, sender, visited + {ref})
  }

  // ---- what an admission decides before it writes ---------------------------------------

  predicate Usable(p: Permit, m: Message, now: int) {
    !p.revoked && p.remaining > 0 && p.expiresAt > now && (m.relation != Some(Followup) || p.followup)
  }

  function PermitOf(s: Store, m: Message): Option<Permit> {
    if m.inReplyTo.None? then None
    else
      var k := PermitKey(m.inReplyTo.value, m.ref.sender);
      if k in s.log.permits then Some(s.log.permits[k]) else None
  }

  /** The thread the message names, its permit names, or its reply chain reaches. */
  function NamedLanding(s: Store, env: Env, m: Message): Landing {
    var permit := PermitOf(s, m);
    if m.thread.Some? then Lands(m.thread.value)
    else if m.inReplyTo.None? then NoLanding
    else if permit.Some? && Usable(permit.value, m, env.now) && permit.value.landing.owner == env.node then Lands(permit.value.landing)
    else ChainLanding(s, env.node, m.inReplyTo.value, m.ref.sender, {})
  }

  /** An admission that will be written: where, whether the thread is new, on whose authority, for whom. */
  datatype Decision =
    | Refuse(code: ErrorCode)
    | Admit(thread: ThreadRef, firstContact: bool, spendsPermit: bool, recipients: set<NodeId>)

  predicate HasFallback(s: Store, env: Env) {
    s.fallback.Some? && s.fallback.value.owner == env.node && |s.fallback.value.id| > 0
  }

  function Decide(s: Store, env: Env, m: Message): Decision {
    match NamedLanding(s, env, m)
    case Fails(code) => Refuse(code)
    case Lands(t) => DecideIn(s, env, m, t)
    case NoLanding =>
      if HasFallback(s, env) then DecideIn(s, env, m, s.fallback.value)
      else if !env.opensThread then Refuse(NotFound)
      else DecideFirst(s, env, m)
  }

  predicate ActiveMember(s: Store, t: ThreadRef, peer: NodeId) {
    (t, peer) in s.members && s.members[(t, peer)].active
  }

  predicate Addressable(s: Store, t: ThreadRef, peer: NodeId) {
    peer == t.owner || ActiveMember(s, t, peer)
  }

  /** The member a mention names, directly or through the integration's aliases. */
  function Resolve(s: Store, env: Env, t: ThreadRef, mention: Mention): Option<NodeId> {
    if !mention.Named? then None
    else if Addressable(s, t, mention.alias) then Some(mention.alias)
    else if mention.alias in env.aliases && Addressable(s, t, env.aliases[mention.alias]) then Some(env.aliases[mention.alias])
    else None
  }

  predicate MentionsResolve(s: Store, env: Env, t: ThreadRef, m: Message) {
    forall x | x in m.mentions :: x.Everyone? || Resolve(s, env, t, x).Some?
  }

  function ActivePeers(s: Store, t: ThreadRef): set<NodeId> {
    set k | k in s.members && k.0 == t && s.members[k].active :: k.1
  }

  function Mentioned(s: Store, env: Env, t: ThreadRef, m: Message): set<NodeId> {
    (if Everyone in m.mentions then {t.owner} + ActivePeers(s, t) else {})
    + set x | x in m.mentions && Resolve(s, env, t, x).Some? :: Resolve(s, env, t, x).value
  }

  /** Whoever answers for the message this one replies to. */
  function Answerer(s: Store, m: Message): set<NodeId> {
    if m.inReplyTo.None? then {}
    else if m.inReplyTo.value in s.log.refs then {s.log.refs[m.inReplyTo.value].replyAuthority}
    else {m.inReplyTo.value.sender}
  }

  predicate Ordinary(s: Store, t: ThreadRef, m: Message) {
    m.ref.sender == t.owner || (ActiveMember(s, t, m.ref.sender) && s.members[(t, m.ref.sender)].post)
  }

  predicate Permitted(s: Store, env: Env, t: ThreadRef, m: Message) {
    var permit := PermitOf(s, m);
    permit.Some? && Usable(permit.value, m, env.now) && permit.value.landing == t
  }

  function DecideIn(s: Store, env: Env, m: Message, t: ThreadRef): Decision {
    if t.owner != env.node then Refuse(Forbidden)
    else if |t.id| == 0 then Refuse(InvalidRequest)
    else if t !in s.log.threads then Refuse(NotFound)
    else if !Ordinary(s, t, m) && !Permitted(s, env, t, m) then Refuse(NotAMember)
    else if !s.log.threads[t].open then Refuse(ThreadClosed)
    else if !env.mayAdmit then Refuse(Forbidden)
    else if !MentionsResolve(s, env, t, m) then Refuse(InvalidRequest)
    else Admit(t, false, !Ordinary(s, t, m), Mentioned(s, env, t, m) + Answerer(s, m))
  }

  /** A first contact that the owner's policy permits opens a thread and concerns the owner. */
  function DecideFirst(s: Store, env: Env, m: Message): Decision {
    var t := ThreadRef(env.node, env.newThread);
    if !env.mayAdmit then Refuse(Forbidden)
    else if !MentionsResolve(s, env, t, m) then Refuse(InvalidRequest)
    else Admit(t, true, false, {t.owner} + Mentioned(s, env, t, m) + Answerer(s, m))
  }

  // ---- what an accepted admission writes ------------------------------------------------

  function ThreadBefore(g: Log, t: ThreadRef): Thread {
    if t in g.threads then g.threads[t] else Thread(true, 1, 0)
  }

  function NewEntry(g: Log, env: Env, auth: Auth, r: SendRequest, t: ThreadRef): Entry {
    Entry(t, ThreadBefore(g, t).nextSeq, r.message, r.message.ref.sender,
          if auth.replyAuthority.Some? then auth.replyAuthority.value else auth.actor, env.now)
  }

  function NewReceipt(g: Log, env: Env, r: SendRequest, t: ThreadRef, created: bool): Receipt {
    Receipt(r.message.ref, env.receiptId, t, ThreadBefore(g, t).nextSeq, r.plan, created, r.message.inReplyTo)
  }

  function NewAttention(e: Entry, plan: Plan): Attention {
    Attention(e.number, e.author, false, false, plan, Some(e))
  }

  /** The obligations a new entry makes for its recipients. */
  function Due(e: Entry, plan: Plan, recipients: set<NodeId>): map<Obligation, Attention> {
    map peer | peer in recipients :: Obligation(e.thread, e.message.ref, peer) := NewAttention(e, plan)
  }

  /** The local inbox gets this node's own obligation, unless it is there already. */
  function Inboxed(inbox: map<Obligation, InboxRow>, node: NodeId, e: Entry, plan: Plan, recipients: set<NodeId>): map<Obligation, InboxRow> {
    var o := Obligation(e.thread, e.message.ref, node);
    if node in recipients && o !in inbox then inbox[o := InboxRow(NewAttention(e, plan), plan.context, false)] else inbox
  }

  function Notify(s: Store, node: NodeId, e: Entry, plan: Plan, recipients: set<NodeId>): Store {
    s.(attention := s.attention + Due(e, plan, recipients), inbox := Inboxed(s.inbox, node, e, plan, recipients))
  }

  function Welcome(s: Store, env: Env, t: ThreadRef, sender: NodeId): Store {
    s.(members := s.members[(t, sender) := Member(true, true, true)],
       notices := s.notices[env.revision := (t, sender)],
       events := s.events[(t, 1) := MembershipEvent(sender)])
  }

  function Spend(permits: map<PermitKey, Permit>, m: Message): map<PermitKey, Permit> {
    if m.inReplyTo.None? then permits
    else
      var k := PermitKey(m.inReplyTo.value, m.ref.sender);
      if k in permits && permits[k].remaining > 0 then permits[k := permits[k].(remaining := permits[k].remaining - 1)] else permits
  }

  function EventSeq(g: Log, d: Decision): nat
    requires d.Admit?
  {
    ThreadBefore(g, d.thread).eventSeq + if d.firstContact then 2 else 1
  }

  /** The log with one more message: numbered, receipted, bound to its request and paid for. */
  function CommitLog(g: Log, env: Env, auth: Auth, r: SendRequest, d: Decision): Log
    requires d.Admit?
  {
    var t, ref, before, e := d.thread, r.message.ref, ThreadBefore(g, d.thread), NewEntry(g, env, auth, r, d.thread);
    Log(g.identities[ref := Remembered(DigestOf(r), Receipted(NewReceipt(g, env, r, t, d.firstContact)), r.retryUntil)],
        g.bindings[(auth.actor, r.key) := Binding(RequestDigestOf(r), ref)],
        g.threads[t := Thread(before.open, before.nextSeq + 1, EventSeq(g, d))],
        g.entries[(t, e.number) := e],
        g.refs[ref := e],
        if d.spendsPermit then Spend(g.permits, r.message) else g.permits)
  }

  function Logged(s: Store, env: Env, auth: Auth, r: SendRequest, d: Decision): Store
    requires d.Admit?
  {
    s.(log := CommitLog(s.log, env, auth, r, d),
       events := s.events[(d.thread, EventSeq(s.log, d)) := MessageEvent(r.message.ref, ThreadBefore(s.log, d.thread).nextSeq)])
  }

  function Commit(s: Store, env: Env, auth: Auth, r: SendRequest, d: Decision): Store
    requires d.Admit?
  {
    var welcomed := if d.firstContact then Welcome(s, env, d.thread, r.message.ref.sender) else s;
    Notify(Logged(welcomed, env, auth, r, d), env.node, NewEntry(s.log, env, auth, r, d.thread), r.plan, d.recipients)
  }

  // ---- admit ----------------------------------------------------------------------------

  datatype Answer = Accepted(receipt: Receipt) | Failed(code: ErrorCode)

  /** The checks in front of the transaction. */
  function Precheck(env: Env, auth: Auth, r: SendRequest): Option<ErrorCode> {
    if |auth.actor.name| == 0 then Some(Unauthenticated)
    else if |r.message.ref.id| == 0 then Some(InvalidRequest)
    else if r.message.ref.sender != auth.actor && auth.sender != Some(r.message.ref.sender) then Some(Forbidden)
    else if r.target != env.node then Some(Forbidden)
    else if |r.key| == 0 then Some(InvalidRequest)
    else if r.message.relation.Some? && r.message.inReplyTo.None? then Some(InvalidRequest)
    else None
  }

  function Deadline(env: Env, retryUntil: int): Option<ErrorCode> {
    if retryUntil <= env.now then Some(RetryWindowExpired)
    else if retryUntil > env.now + env.retryMax then Some(InvalidRequest)
    else None
  }

  predicate BoundElsewhere(s: Store, auth: Auth, r: SendRequest) {
    (auth.actor, r.key) in s.log.bindings && s.log.bindings[(auth.actor, r.key)] != Binding(RequestDigestOf(r), r.message.ref)
  }

  /** How one request is answered: from what stands, or by a decision taken now. */
  datatype Ruling =
    | Standing(code: ErrorCode)
    | Repeated(receipt: Receipt)
    | Refused(code: ErrorCode)
    | Entered(decision: Decision)

  function Rule(s: Store, env: Env, auth: Auth, r: SendRequest): Ruling {
    if Precheck(env, auth, r).Some? then Standing(Precheck(env, auth, r).value)
    else if BoundElsewhere(s, auth, r) then Standing(IdConflict)
    else if r.message.ref !in s.log.identities then RuleAfresh(s, env, r)
    else
      var known := s.log.identities[r.message.ref];
      if known.digest != DigestOf(r) then Standing(IdConflict)
      else match known.memory
        case Receipted(receipt) => Repeated(receipt)
        case Tombstone => Standing(RetryWindowExpired)
        case RefusedWith(code) => if Transient(code) then RuleAfresh(s, env, r) else Standing(code)
  }

  function RuleAfresh(s: Store, env: Env, r: SendRequest): Ruling {
    if !env.supported then Refused(UnsupportedDelivery)
    else if Deadline(env, r.retryUntil).Some? then Refused(Deadline(env, r.retryUntil).value)
    else
      var d := Decide(s, env, r.message);
      if d.Refuse? then Refused(d.code) else Entered(d)
  }

  /** A transient refusal is forgotten before the request is decided again. */
  function Cleared(g: Log, ref: MessageRef): Log {
    g.(identities := g.identities - {ref})
  }

  function RefuseWith(g: Log, r: SendRequest, code: ErrorCode): Log {
    if Recorded(code) then g.(identities := g.identities[r.message.ref := Remembered(DigestOf(r), RefusedWith(code), r.retryUntil)]) else g
  }

  function Bind(g: Log, auth: Auth, r: SendRequest): Log {
    g.(bindings := g.bindings[(auth.actor, r.key) := Binding(RequestDigestOf(r), r.message.ref)])
  }

  function Effect(s: Store, env: Env, auth: Auth, r: SendRequest, ruling: Ruling): Store {
    match ruling
    case Standing(code) => s
    case Repeated(receipt) => s.(log := Bind(s.log, auth, r))
    case Refused(code) => s.(log := RefuseWith(Cleared(s.log, r.message.ref), r, code))
    case Entered(d) => if d.Admit? then Commit(s.(log := Cleared(s.log, r.message.ref)), env, auth, r, d) else s
  }

  function AnswerFor(g: Log, env: Env, r: SendRequest, ruling: Ruling): Answer {
    match ruling
    case Standing(code) => Failed(code)
    case Repeated(receipt) => Accepted(receipt)
    case Refused(code) => Failed(code)
    case Entered(d) => if d.Admit? then Accepted(NewReceipt(g, env, r, d.thread, d.firstContact)) else Failed(d.code)
  }

  /** One admission: the records after it and its answer. */
  function AdmitRequest(s: Store, env: Env, auth: Auth, r: SendRequest): (Store, Answer) {
    var ruling := Rule(s, env, auth, r);
    (Effect(s, env, auth, r, ruling), AnswerFor(s.log, env, r, ruling))
  }

  // ---- ack, attention, expire -------------------------------------------------------------

  function Mirror(s: Store, o: Obligation, a: Attention): Store {
    s.(attention := s.attention[o := a],
       inbox := if o in s.inbox then s.inbox[o := s.inbox[o].(attention := a)] else s.inbox)
  }

  function Ack(s: Store, actor: NodeId, o: Obligation): Store {
    if o.thread in s.log.threads && o in s.attention && o.recipient == actor
    then Mirror(s, o, s.attention[o].(acked := true))
    else s
  }

  function Stripped(a: Attention): Attention { a.(entry := None, expired := true) }

  function StripRows(attention: map<Obligation, Attention>, hidden: set<Obligation>): map<Obligation, Attention> {
    map o | o in attention :: if o in hidden && !attention[o].expired then Stripped(attention[o]) else attention[o]
  }

  /** The attention list strips the bodies its reader may no longer see. */
  function StripHidden(s: Store, hidden: set<Obligation>): Store {
    s.(attention := StripRows(s.attention, hidden))
  }

  /** The unacked obligations of `actor` in `t`, and those of them whose body `actor` may not read. */
  function Unacked(s: Store, actor: NodeId, t: ThreadRef): set<Obligation> {
    set o | o in s.attention && o.thread == t && o.recipient == actor && !s.attention[o].acked
  }

  function Hidden(s: Store, actor: NodeId, t: ThreadRef, allowed: bool, readable: set<MessageRef>): set<Obligation> {
    set o | o in Unacked(s, actor, t) && !(allowed && s.attention[o].entry.Some? && o.ref in readable)
  }

  /** The entries of `t` below `before`, and their messages. */
  function ExpiringRows(g: Log, t: ThreadRef, before: nat): set<(ThreadRef, nat)> {
    set k | k in g.entries && k.0 == t && k.1 < before
  }

  function RefsOf(g: Log, rows: set<(ThreadRef, nat)>): set<MessageRef> {
    set k | k in rows && k in g.entries :: g.entries[k].message.ref
  }

  function Expiring(g: Log, t: ThreadRef, before: nat): set<MessageRef> { RefsOf(g, ExpiringRows(g, t, before)) }

  predicate ReplayWindowOpen(g: Log, refs: set<MessageRef>, now: int) {
    exists ref | ref in refs :: ref !in g.identities || g.identities[ref].retryUntil > now
  }

  function Tombstones(identities: map<MessageRef, Remembered>, gone: set<MessageRef>): map<MessageRef, Remembered> {
    map ref | ref in identities :: if ref in gone then identities[ref].(memory := Tombstone) else identities[ref]
  }

  function Bury(g: Log, rows: set<(ThreadRef, nat)>): Log {
    g.(identities := Tombstones(g.identities, RefsOf(g, rows)), entries := g.entries - rows, refs := g.refs - RefsOf(g, rows))
  }

  /** An obligation that loses its body because its message expires. */
  predicate Loses(attention: map<Obligation, Attention>, t: ThreadRef, gone: set<MessageRef>, o: Obligation) {
    o in attention && o.thread == t && o.ref in gone && !attention[o].expired
  }

  function StripGone(attention: map<Obligation, Attention>, t: ThreadRef, gone: set<MessageRef>): map<Obligation, Attention> {
    map o | o in attention :: if Loses(attention, t, gone, o) then Stripped(attention[o]) else attention[o]
  }

  function MirrorGone(inbox: map<Obligation, InboxRow>, attention: map<Obligation, Attention>, t: ThreadRef, gone: set<MessageRef>): map<Obligation, InboxRow> {
    map o | o in inbox :: if Loses(attention, t, gone, o) then inbox[o].(attention := Stripped(attention[o])) else inbox[o]
  }

  /** Every entry of `t` below `before` becomes a tombstone; one open replay window refuses them all. */
  function Expire(s: Store, now: int, t: ThreadRef, before: nat): Store {
    var gone := Expiring(s.log, t, before);
    if t !in s.log.threads || ReplayWindowOpen(s.log, gone, now) then s
    else s.(log := Bury(s.log, ExpiringRows(s.log, t, before)),
            attention := StripGone(s.attention, t, gone),
            inbox := MirrorGone(s.inbox, s.attention, t, gone))
  }
}
