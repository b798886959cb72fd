/**
 * The message log and everything it ever answered: the invariant that every admission, refusal,
 * repeated answer and expiry keeps.
 */
module AdmissionLog {
  import opened Prelude
  import opened Messages
  import opened AdmissionModel

  /** What was ever answered, kept beside the log: numbers, first receipts, permit uses and grants. */
  datatype History = History(
    numbers: map<(ThreadRef, nat), MessageRef>,
    first: map<MessageRef, Receipt>,
    uses: map<PermitKey, nat>,
    grants: map<PermitKey, nat>)

  function Place(r: Receipt): (ThreadRef, nat) { (r.thread, r.number) }

  function Uses(h: History, k: PermitKey): nat { if k in h.uses then h.uses[k] else 0 }

  /** The permit under which a message enters, if it enters under one. */
  function SpentPermit(d: Decision, m: Message): Option<PermitKey> {
    if d.Admit? && d.spendsPermit && m.inReplyTo.Some? then Some(PermitKey(m.inReplyTo.value, m.ref.sender)) else None
  }

  /** The history after a first receipt. */
  function Admitted(h: History, receipt: Receipt, k: Option<PermitKey>): History {
    h.(numbers := h.numbers[Place(receipt) := receipt.ref],
       first := h.first[receipt.ref := receipt],
       uses := if k.Some? then h.uses[k.value := Uses(h, k.value) + 1] else h.uses)
  }

  // ---- the invariant ------------------------------------------------------------------------

  /** The numbers assigned in a thread are exactly 1 .. nextSeq - 1. */
  ghost predicate Numbered(g: Log, h: History) {
    && (forall t | t in g.threads :: g.threads[t].nextSeq >= 1)
    && (forall k | k in h.numbers :: k.0 in g.threads && 1 <= k.1 < g.threads[k.0].nextSeq)
    && (forall t: ThreadRef, n: nat | t in g.threads && 1 <= n < g.threads[t].nextSeq :: (t, n) in h.numbers)
  }

  /** Every assigned number belongs to the one message whose receipt names it. */
  ghost predicate Receipts(h: History) {
    && (forall k | k in h.numbers :: h.numbers[k] in h.first && Place(h.first[h.numbers[k]]) == k)
    && (forall m | m in h.first :: h.first[m].ref == m && Place(h.first[m]) in h.numbers && h.numbers[Place(h.first[m])] == m)
  }

  ghost predicate Answers(g: Log, h: History, m: MessageRef)
    requires m in h.first
  {
    m in g.identities && (g.identities[m].memory == Receipted(h.first[m]) || g.identities[m].memory.Tombstone?)
  }

  ghost predicate Remembers(h: History, m: MessageRef, known: Remembered) {
    known.digest.message.ref == m && (!known.memory.RefusedWith? ==> m in h.first)
  }

  /** An identity is receipted or tombstoned exactly when it was admitted, and keeps its receipt. */
  ghost predicate Identities(g: Log, h: History) {
    && (forall m | m in h.first :: Answers(g, h, m))
    && (forall m | m in g.identities :: Remembers(h, m, g.identities[m]))
  }

  /** An entry stands where its receipt says, under a receipted identity with its content. */
  ghost predicate EntryOk(g: Log, h: History, k: (ThreadRef, nat), e: Entry) {
    var m := e.message.ref;
    && e.thread == k.0 && e.number == k.1
    && m in g.refs && g.refs[m] == e
    && m in h.first && Place(h.first[m]) == k
    && m in g.identities && g.identities[m].memory.Receipted? && g.identities[m].digest.message == e.message
  }

  ghost predicate RefOk(g: Log, m: MessageRef, e: Entry) {
    e.message.ref == m && (e.thread, e.number) in g.entries && g.entries[(e.thread, e.number)] == e
  }

  ghost predicate Entries(g: Log, h: History) {
    && (forall k | k in g.entries :: EntryOk(g, h, k, g.entries[k]))
    && (forall m | m in g.refs :: RefOk(g, m, g.refs[m]))
  }

  ghost predicate Bindings(g: Log, h: History) {
    forall b | b in g.bindings :: g.bindings[b].identity in h.first
  }

  /** Spent uses plus what remains are the grant. */
  ghost predicate Permits(g: Log, h: History) {
    forall k | k in g.permits :: k in h.grants && Uses(h, k) + g.permits[k].remaining == h.grants[k]
  }

  ghost predicate LogInv(g: Log, h: History) {
    Numbered(g, h) && Receipts(h) && Identities(g, h) && Entries(g, h) && Bindings(g, h) && Permits(g, h)
  }

  /** The parts make the whole. */
  lemma Assembled(g: Log, h: History)
    requires Numbered(g, h) && Receipts(h) && Identities(g, h) && Entries(g, h) && Bindings(g, h) && Permits(g, h)
    ensures LogInv(g, h)
  {}

  // ---- a new message ------------------------------------------------------------------------

  ghost predicate SpendsSoundly(g: Log, m: Message, d: Decision) {
    d.Admit? && (d.spendsPermit ==>
      && m.inReplyTo.Some? && PermitKey(m.inReplyTo.value, m.ref.sender) in g.permits
      && g.permits[PermitKey(m.inReplyTo.value, m.ref.sender)].remaining > 0)
  }

  lemma CommitNumbers(g: Log, h: History, h': History, env: Env, auth: Auth, r: SendRequest, d: Decision)
    requires d.Admit? && Numbered(g, h)
    requires var receipt := NewReceipt(g, env, r, d.thread, d.firstContact);
             h'.numbers == h.numbers[Place(receipt) := receipt.ref]
    ensures Numbered(CommitLog(g, env, auth, r, d), h') && Place(NewReceipt(g, env, r, d.thread, d.firstContact)) !in h.numbers
  {
    var g', receipt := CommitLog(g, env, auth, r, d), NewReceipt(g, env, r, d.thread, d.firstContact);
    forall k | k in h'.numbers ensures k.0 in g'.threads && 1 <= k.1 < g'.threads[k.0].nextSeq {
      assert k == (k.0, k.1);
    }
    assert Numbered(g', h');
  }

  lemma CommitReceipts(h: History, h': History, receipt: Receipt)
    requires Receipts(h) && Place(receipt) !in h.numbers && receipt.ref !in h.first
    requires h'.numbers == h.numbers[Place(receipt) := receipt.ref] && h'.first == h.first[receipt.ref := receipt]
    ensures Receipts(h')
  {}

  lemma CommitIdentities(g: Log, h: History, h': History, env: Env, auth: Auth, r: SendRequest, d: Decision)
    requires d.Admit? && Identities(g, h)
    requires h'.first == h.first[r.message.ref := NewReceipt(g, env, r, d.thread, d.firstContact)]
    ensures Identities(CommitLog(g, env, auth, r, d), h')
  {}

  lemma CommitEntries(g: Log, h: History, h': History, env: Env, auth: Auth, r: SendRequest, d: Decision)
    requires d.Admit? && Receipts(h) && Entries(g, h) && r.message.ref !in h.first
    requires Place(NewReceipt(g, env, r, d.thread, d.firstContact)) !in h.numbers
    requires h'.first == h.first[r.message.ref := NewReceipt(g, env, r, d.thread, d.firstContact)]
    ensures Entries(CommitLog(g, env, auth, r, d), h')
  {
    var g', e := CommitLog(g, env, auth, r, d), NewEntry(g, env, auth, r, d.thread);
    var k := (d.thread, e.number);
    assert k in g.entries ==> EntryOk(g, h, k, g.entries[k]);
    assert r.message.ref in g.refs ==> RefOk(g, r.message.ref, g.refs[r.message.ref]);
    forall x | x in g'.entries ensures EntryOk(g', h', x, g'.entries[x]) {
      if x != k { assert EntryOk(g, h, x, g.entries[x]); }
    }
    forall m | m in g'.refs ensures RefOk(g', m, g'.refs[m]) {
      if m != r.message.ref { assert RefOk(g, m, g.refs[m]); }
    }
  }

  lemma CommitPermits(g: Log, h: History, env: Env, auth: Auth, r: SendRequest, d: Decision, receipt: Receipt)
    requires Permits(g, h) && SpendsSoundly(g, r.message, d)
    ensures Permits(CommitLog(g, env, auth, r, d), Admitted(h, receipt, SpentPermit(d, r.message)))
  {}

  lemma CommitInv(g: Log, h: History, env: Env, auth: Auth, r: SendRequest, d: Decision)
    requires LogInv(g, h) && SpendsSoundly(g, r.message, d) && r.message.ref !in h.first
    ensures LogInv(CommitLog(g, env, auth, r, d),
                   Admitted(h, NewReceipt(g, env, r, d.thread, d.firstContact), SpentPermit(d, r.message)))
  {
    var g', receipt := CommitLog(g, env, auth, r, d), NewReceipt(g, env, r, d.thread, d.firstContact);
    var h' := Admitted(h, receipt, SpentPermit(d, r.message));
    CommitNumbers(g, h, h', env, auth, r, d);
    CommitReceipts(h, h', receipt);
    CommitIdentities(g, h, h', env, auth, r, d);
    CommitEntries(g, h, h', env, auth, r, d);
    CommitPermits(g, h, env, auth, r, d, receipt);
    assert Bindings(g', h');
  }

  // ---- a refusal, a repeated answer, an expiry ------------------------------------------------

  lemma EntriesFrame(g: Log, g': Log, h: History, h': History)
    requires Entries(g, h) && g'.entries == g.entries && g'.refs == g.refs && h'.first == h.first
    requires forall m | m in h.first && m in g.identities :: m in g'.identities && g'.identities[m] == g.identities[m]
    ensures Entries(g', h')
  {}

  /** The log with another memory, or none, of an identity that was never admitted. */
  lemma MemoryInv(g: Log, h: History, g': Log, ref: MessageRef)
    requires LogInv(g, h) && ref !in h.first && g' == g.(identities := g'.identities)
    requires forall m | m in h.first && m in g.identities :: m in g'.identities && g'.identities[m] == g.identities[m]
    requires forall m | m in g'.identities :: Remembers(h, m, g'.identities[m])
    ensures LogInv(g', h)
  {
    assert Identities(g', h) by { assert forall m | m in h.first :: Answers(g, h, m); }
    EntriesFrame(g, g', h, h);
  }

  lemma RefusedMemory(g: Log, h: History, r: SendRequest, code: ErrorCode)
    requires Identities(g, h) && r.message.ref !in h.first
    ensures var g' := RefuseWith(Cleared(g, r.message.ref), r, code);
      && g' == g.(identities := g'.identities)
      && (forall m | m in h.first && m in g.identities :: m in g'.identities && g'.identities[m] == g.identities[m])
      && (forall m | m in g'.identities :: Remembers(h, m, g'.identities[m]))
  {}

  lemma RefusalInv(g: Log, h: History, r: SendRequest, code: ErrorCode)
    requires LogInv(g, h) && r.message.ref !in h.first
    ensures LogInv(RefuseWith(Cleared(g, r.message.ref), r, code), h)
  {
    RefusedMemory(g, h, r, code);
    MemoryInv(g, h, RefuseWith(Cleared(g, r.message.ref), r, code), r.message.ref);
  }

  lemma ClearedInv(g: Log, h: History, ref: MessageRef)
    requires LogInv(g, h) && ref !in h.first
    ensures LogInv(Cleared(g, ref), h)
  {
    MemoryInv(g, h, Cleared(g, ref), ref);
  }

  lemma BindInv(g: Log, h: History, auth: Auth, r: SendRequest)
    requires LogInv(g, h) && r.message.ref in h.first
    ensures LogInv(Bind(g, auth, r), h)
  {
    var g' := Bind(g, auth, r);
    EntriesFrame(g, g', h, h);
    Assembled(g', h);
  }

  /** Expiring messages are receipted; an entry that stays is not among them, and one of them leaves no reference. */
  lemma ExpiringEntries(g: Log, h: History, t: ThreadRef, before: nat)
    requires Entries(g, h)
    ensures forall ref | ref in Expiring(g, t, before) :: ref in h.first && ref in g.identities
    ensures forall k | k in g.entries && !(k.0 == t && k.1 < before) :: g.entries[k].message.ref !in Expiring(g, t, before)
    ensures forall ref | ref in g.refs && ref !in Expiring(g, t, before) :: !(g.refs[ref].thread == t && g.refs[ref].number < before)
  {}

  lemma BuryEntries(g: Log, h: History, t: ThreadRef, before: nat)
    requires Entries(g, h)
    ensures Entries(Bury(g, ExpiringRows(g, t, before)), h)
  {}

  lemma BuryIdentities(g: Log, h: History, t: ThreadRef, before: nat)
    requires Identities(g, h) && Entries(g, h)
    ensures Identities(Bury(g, ExpiringRows(g, t, before)), h)
  {}

  lemma BuryInv(g: Log, h: History, t: ThreadRef, before: nat)
    requires LogInv(g, h)
    ensures LogInv(Bury(g, ExpiringRows(g, t, before)), h)
  {
    var g' := Bury(g, ExpiringRows(g, t, before));
    BuryEntries(g, h, t, before);
    BuryIdentities(g, h, t, before);
    assert Numbered(g', h) && Bindings(g', h) && Permits(g', h);
    Assembled(g', h);
  }

  // ---- the owner's own changes ----------------------------------------------------------------

  lemma ThreadInv(g: Log, h: History, t: ThreadRef, thread: Thread)
    requires LogInv(g, h) && thread.nextSeq == ThreadBefore(g, t).nextSeq
    ensures LogInv(g.(threads := g.threads[t := thread]), h)
  {
    var g' := g.(threads := g.threads[t := thread]);
    assert Numbered(g', h);
    EntriesFrame(g, g', h, h);
    Assembled(g', h);
  }

  lemma GrantInv(g: Log, h: History, k: PermitKey, permit: Permit)
    requires LogInv(g, h)
    ensures LogInv(g.(permits := g.permits[k := permit]), h.(uses := h.uses[k := 0], grants := h.grants[k := permit.remaining]))
  {
    var g', h' := g.(permits := g.permits[k := permit]), h.(uses := h.uses[k := 0], grants := h.grants[k := permit.remaining]);
    UsesFrame(g, g', h, h');
    assert Permits(g', h');
    Assembled(g', h');
  }

  lemma UsesFrame(g: Log, g': Log, h: History, h': History)
    requires Numbered(g, h) && Receipts(h) && Identities(g, h) && Entries(g, h) && Bindings(g, h)
    requires g' == g.(permits := g'.permits) && h'.numbers == h.numbers && h'.first == h.first
    ensures Numbered(g', h') && Receipts(h') && Identities(g', h') && Entries(g', h') && Bindings(g', h')
  {
    EntriesFrame(g, g', h, h');
    IdentitiesFrame(g, g', h, h');
  }

  lemma IdentitiesFrame(g: Log, g': Log, h: History, h': History)
    requires Identities(g, h) && g' == g.(permits := g'.permits) && h'.numbers == h.numbers && h'.first == h.first
    ensures Identities(g', h')
  {
    assert forall m | m in h.first :: Answers(g, h, m);
    assert forall m | m in g.identities :: Remembers(h, m, g.identities[m]);
  }
}
