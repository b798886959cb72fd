/**
 * `MessageService` as it runs: one admission, ack, attention read or expiry over the stored
 * records, row by row. Each method is proved against its function in `AdmissionModel`.
 */
module AdmissionService {
  import opened Prelude
  import opened Messages
  import opened AdmissionModel

  /** What a listed row shows its reader. */
  function Shown(a: Attention, o: Obligation, listed: bool, allowed: bool, readable: set<MessageRef>): Attention {
    if listed && !a.expired && !(allowed && a.entry.Some? && o.ref in readable) then Stripped(a) else a
  }

  class MessageRecords {
    const node: NodeId
    var log: Log
    var members: map<(ThreadRef, NodeId), Member>
    var notices: map<string, (ThreadRef, NodeId)>
    var attention: map<Obligation, Attention>
    var inbox: map<Obligation, InboxRow>
    var events: map<(ThreadRef, nat), Event>
    var outbound: map<MessageRef, Sent>
    var fallback: Option<ThreadRef>

    function Records(): Store
      reads this
    {
      Store(log, members, notices, attention, inbox, events, outbound, fallback)
    }

    constructor (node: NodeId)
      ensures this.node == node
      ensures Records() == Store(Log(map[], map[], map[], map[], map[], map[]), map[], map[], map[], map[], map[], map[], None)
    {
      this.node := node;
      log := Log(map[], map[], map[], map[], map[], map[]);
      members, notices, attention, inbox, events, outbound, fallback := map[], map[], map[], map[], map[], map[], None;
    }

    /** The walk along the reply chain, with the set of messages it has passed. */
    method LandingOfChain(original: MessageRef, sender: NodeId) returns (landing: Landing)
      ensures landing == ChainLanding(Records(), node, original, sender, {})
    {
      var ref, visited := original, {};
      while ref !in visited
        invariant ChainLanding(Records(), node, ref, sender, visited) == ChainLanding(Records(), node, original, sender, {})
        decreases outbound.Keys - visited
      {
        if ref in log.refs { return EntryLanding(Records(), node, log.refs[ref]); }
        if ref !in outbound { return Fails(NotFound); }
        if ref.sender != node || outbound[ref].expectedAuthor != sender { return Fails(Forbidden); }
        if outbound[ref].inReplyTo.None? { return NoLanding; }
        ref, visited := outbound[ref].inReplyTo.value, visited + {ref};
      }
      return Fails(InvalidRequest);
    }

    /** Everyone the mentions name, one mention after the other; none if one of them names nobody. */
    method Recipients(env: Env, m: Message, t: ThreadRef, firstContact: bool) returns (recipients: Option<set<NodeId>>)
      ensures recipients.Some? <==> MentionsResolve(Records(), env, t, m)
      ensures recipients.Some? ==>
        recipients.value == (if firstContact then {t.owner} else {}) + Mentioned(Records(), env, t, m) + Answerer(Records(), m)
    {
      var start := if firstContact then {t.owner} else {};
      var found := start;
      var i := 0;
      while i < |m.mentions|
        invariant 0 <= i <= |m.mentions|
        invariant MentionsResolve(Records(), env, t, m.(mentions := m.mentions[..i]))
        invariant found == start + Mentioned(Records(), env, t, m.(mentions := m.mentions[..i]))
      {
        var mention := m.mentions[i];
        assert m.mentions[..i + 1] == m.mentions[..i] + [mention];
        if mention.Everyone? {
          found := found + {t.owner} + ActivePeers(Records(), t);
        } else {
          var peer := Resolve(Records(), env, t, mention);
          if peer.None? { return None; }
          found := found + {peer.value};
        }
        i := i + 1;
      }
      assert m.mentions[..i] == m.mentions;
      return Some(found + Answerer(Records(), m));
    }

    /** One obligation per recipient, and a row in the local inbox for this node's own. */
    method WriteAttention(e: Entry, plan: Plan, recipients: set<NodeId>)
      modifies this`attention, this`inbox
      ensures Records() == Notify(old(Records()), node, e, plan, recipients)
    {
      var left, done := recipients, {};
      while left != {}
        invariant left !! done && left + done == recipients
        invariant attention == old(attention) + Due(e, plan, done)
        invariant inbox == Inboxed(old(inbox), node, e, plan, done)
        decreases left
      {
        var peer :| peer in left;
        var o := Obligation(e.thread, e.message.ref, peer);
        assert Due(e, plan, done + {peer}) == Due(e, plan, done)[o := NewAttention(e, plan)];
        attention := attention[o := NewAttention(e, plan)];
        if peer == node && o !in inbox {
          inbox := inbox[o := InboxRow(NewAttention(e, plan), plan.context, false)];
        }
        left, done := left - {peer}, done + {peer};
      }
      assert done == recipients;
    }

    /** Where a message goes, before anything is written. */
    /** The thread a message names itself: by reference, by a usable permit, or by the chain it answers. */
    method LandingNamed(env: Env, m: Message) returns (landing: Landing)
      requires env.node == node
      ensures landing == NamedLanding(Records(), env, m)
    {
      landing := NoLanding;
      if m.thread.Some? {
        landing := Lands(m.thread.value);
      } else if m.inReplyTo.Some? {
        var k := PermitKey(m.inReplyTo.value, m.ref.sender);
        if k in log.permits && Usable(log.permits[k], m, env.now) && log.permits[k].landing.owner == node {
          landing := Lands(log.permits[k].landing);
        } else {
          landing := LandingOfChain(m.inReplyTo.value, m.ref.sender);
        }
      }
    }

    method Decision(env: Env, m: Message) returns (d: AdmissionModel.Decision)
      requires env.node == node
      ensures d == Decide(Records(), env, m)
    {
      var landing := LandingNamed(env, m);
      if landing.Fails? { return Refuse(landing.code); }
      var firstContact := false;
      if landing.NoLanding? {
        if HasFallback(Records(), env) {
          landing := Lands(fallback.value);
        } else if env.opensThread {
          firstContact, landing := true, Lands(ThreadRef(node, env.newThread));
        } else {
          return Refuse(NotFound);
        }
      }
      var t := landing.thread;
      if !firstContact {
        if t.owner != node { return Refuse(Forbidden); }
        if |t.id| == 0 { return Refuse(InvalidRequest); }
        if t !in log.threads { return Refuse(NotFound); }
        if !Ordinary(Records(), t, m) && !Permitted(Records(), env, t, m) { return Refuse(NotAMember); }
        if !log.threads[t].open { return Refuse(ThreadClosed); }
      }
      if !env.mayAdmit { return Refuse(Forbidden); }
      var recipients := Recipients(env, m, t, firstContact);
      if recipients.None? { return Refuse(InvalidRequest); }
      return Admit(t, firstContact, !firstContact && !Ordinary(Records(), t, m), recipients.value);
    }

    /** The log's own writes: counter, entry, reference, identity, binding, permit and event. */
    method AppendLog(env: Env, auth: Auth, r: SendRequest, d: AdmissionModel.Decision) returns (receipt: Receipt, e: Entry)
      requires d.Admit?
      modifies this`log, this`events
      ensures Records() == Logged(old(Records()), env, auth, r, d)
      ensures e == NewEntry(old(log), env, auth, r, d.thread)
      ensures receipt == NewReceipt(old(log), env, r, d.thread, d.firstContact)
    {
      var t, ref := d.thread, r.message.ref;
      var thread := if t in log.threads then log.threads[t] else Thread(true, 1, 0);
      var number := thread.nextSeq;
      thread := thread.(nextSeq := number + 1, eventSeq := thread.eventSeq + (if d.firstContact then 2 else 1));
      e := Entry(t, number, r.message, ref.sender, if auth.replyAuthority.Some? then auth.replyAuthority.value else auth.actor, env.now);
      receipt := Receipt(ref, env.receiptId, t, number, r.plan, d.firstContact, r.message.inReplyTo);
      var g := log.(threads := log.threads[t := thread], entries := log.entries[(t, number) := e], refs := log.refs[ref := e]);
      g := g.(identities := g.identities[ref := Remembered(DigestOf(r), Receipted(receipt), r.retryUntil)]);
      g := g.(bindings := g.bindings[(auth.actor, r.key) := Binding(RequestDigestOf(r), ref)]);
      if d.spendsPermit && r.message.inReplyTo.Some? {
        var k := PermitKey(r.message.inReplyTo.value, ref.sender);
        if k in g.permits && g.permits[k].remaining > 0 {
          g := g.(permits := g.permits[k := g.permits[k].(remaining := g.permits[k].remaining - 1)]);
        }
      }
      assert g == CommitLog(log, env, auth, r, d);
      log, events := g, events[(t, thread.eventSeq) := MessageEvent(ref, number)];
    }

    method WelcomeSender(env: Env, t: ThreadRef, sender: NodeId)
      modifies this`members, this`notices, this`events
      ensures Records() == Welcome(old(Records()), env, t, sender)
    {
      members := members[(t, sender) := Member(true, true, true)];
      notices := notices[env.revision := (t, sender)];
      events := events[(t, 1) := MembershipEvent(sender)];
    }

    /** The writes of an accepted message, in one transaction. */
    method Append(env: Env, auth: Auth, r: SendRequest, d: AdmissionModel.Decision) returns (receipt: Receipt)
      requires env.node == node && d.Admit?
      modifies this
      ensures Records() == Commit(old(Records()), env, auth, r, d)
      ensures receipt == NewReceipt(old(Records()).log, env, r, d.thread, d.firstContact)
    {
      var t, ref := d.thread, r.message.ref;
      if d.firstContact { WelcomeSender(env, t, ref.sender); }
      var e;
      receipt, e := AppendLog(env, auth, r, d);
      WriteAttention(e, r.plan, d.recipients);
    }

    method Refusal(r: SendRequest, code: ErrorCode)
      modifies this`log
      ensures log == RefuseWith(old(log), r, code)
    {
      if Recorded(code) {
        log := log.(identities := log.identities[r.message.ref := Remembered(DigestOf(r), RefusedWith(code), r.retryUntil)]);
      }
    }

    /** One admission. */
    method Admission(env: Env, auth: Auth, r: SendRequest) returns (answer: Answer)
      requires env.node == node
      modifies this
      ensures (Records(), answer) == AdmitRequest(old(Records()), env, auth, r)
    {
      var ref, binding := r.message.ref, Binding(RequestDigestOf(r), r.message.ref);
      var failed := Precheck(env, auth, r);
      if failed.Some? { return Failed(failed.value); }
      if (auth.actor, r.key) in log.bindings && log.bindings[(auth.actor, r.key)] != binding { return Failed(IdConflict); }
      if ref in log.identities {
        var known := log.identities[ref];
        if known.digest != DigestOf(r) { return Failed(IdConflict); }
        if known.memory.RefusedWith? && !Transient(known.memory.code) { return Failed(known.memory.code); }
        if known.memory.Tombstone? { return Failed(RetryWindowExpired); }
        if known.memory.Receipted? {
          if (auth.actor, r.key) !in log.bindings { log := log.(bindings := log.bindings[(auth.actor, r.key) := binding]); }
          assert log.bindings == old(log).bindings[(auth.actor, r.key) := binding];
          return Accepted(known.memory.receipt);
        }
      }
      answer := AdmissionAfresh(env, auth, r);
    }

    method AdmissionAfresh(env: Env, auth: Auth, r: SendRequest) returns (answer: Answer)
      requires env.node == node
      modifies this
      ensures Records() == Effect(old(Records()), env, auth, r, RuleAfresh(old(Records()), env, r))
      ensures answer == AnswerFor(old(Records()).log, env, r, RuleAfresh(old(Records()), env, r))
    {
      var d := Refuse(UnsupportedDelivery);
      if env.supported {
        var late := Deadline(env, r.retryUntil);
        if late.Some? { d := Refuse(late.value); } else { d := Decision(env, r.message); }
      }
      log := log.(identities := log.identities - {r.message.ref});
      if d.Refuse? {
        Refusal(r, d.code);
        return Failed(d.code);
      }
      var receipt := Append(env, auth, r, d);
      return Accepted(receipt);
    }

    method Acknowledge(actor: NodeId, o: Obligation) returns (failed: Option<ErrorCode>)
      modifies this`attention, this`inbox
      ensures Records() == Ack(old(Records()), actor, o)
      ensures failed.None? <==> o.thread in log.threads && o in attention && o.recipient == actor
    {
      if o.thread !in log.threads || o !in attention || o.recipient != actor { return Some(NotFound); }
      var a := attention[o].(acked := true);
      attention := attention[o := a];
      if o in inbox { inbox := inbox[o := inbox[o].(attention := a)]; }
      return None;
    }

    /** The caller's open obligations in a thread; a body the caller may not read is stripped first. */
    method AttentionList(actor: NodeId, t: ThreadRef, allowed: bool, readable: set<MessageRef>) returns (visible: map<Obligation, Attention>)
      modifies this`attention
      ensures Records() == StripHidden(old(Records()), Hidden(old(Records()), actor, t, allowed, readable))
      ensures visible == map o | o in Unacked(old(Records()), actor, t) :: attention[o]
      ensures forall o | o in visible && visible[o].entry.Some? && !visible[o].expired :: allowed && o.ref in readable
    {
      var rows := Unacked(Records(), actor, t);
      StripUnreadable(rows, allowed, readable);
      visible := map o | o in rows :: attention[o];
      ShownIsReadable(old(Records()), actor, t, allowed, readable);
    }

    method StripUnreadable(rows: set<Obligation>, allowed: bool, readable: set<MessageRef>)
      requires rows <= attention.Keys
      modifies this`attention
      ensures attention == StripRows(old(attention), set o | o in rows && !(allowed && old(attention)[o].entry.Some? && o.ref in readable))
    {
      var left := rows;
      while left != {}
        invariant left <= rows && attention.Keys == old(attention).Keys
        invariant forall o | o in left :: attention[o] == old(attention)[o]
        invariant forall o | o in attention && o !in left :: attention[o] == Shown(old(attention)[o], o, o in rows, allowed, readable)
        decreases left
      {
        var o :| o in left;
        if !attention[o].expired && !(allowed && attention[o].entry.Some? && o.ref in readable) {
          attention := attention[o := Stripped(attention[o])];
        }
        left := left - {o};
      }
    }

    /** The obligations of one expired message lose their bodies, in the thread and in the local inbox. */
    method StripObligations(t: ThreadRef, ref: MessageRef)
      modifies this`attention, this`inbox
      ensures attention == StripGone(old(attention), t, {ref})
      ensures inbox == MirrorGone(old(inbox), old(attention), t, {ref})
    {
      var rows := set o | o in attention && o.thread == t && o.ref == ref;
      var left := rows;
      while left != {}
        invariant left <= rows && attention.Keys == old(attention).Keys && inbox.Keys == old(inbox).Keys
        invariant forall o | o in attention :: attention[o] == if o in left then old(attention)[o] else StripGone(old(attention), t, {ref})[o]
        invariant forall o | o in inbox :: inbox[o] == if o in left then old(inbox)[o] else MirrorGone(old(inbox), old(attention), t, {ref})[o]
        decreases left
      {
        var o :| o in left;
        if !attention[o].expired {
          attention := attention[o := Stripped(attention[o])];
          if o in inbox { inbox := inbox[o := inbox[o].(attention := attention[o])]; }
        }
        left := left - {o};
      }
    }

    /** One entry becomes a tombstone. */
    method BuryRow(k: (ThreadRef, nat), ref: MessageRef, ghost s: Store, ghost done: set<(ThreadRef, nat)>)
      requires Buried(Records(), s, k.0, done) && k in s.log.entries && ref == s.log.entries[k].message.ref && ref in log.identities
      modifies this`log, this`attention, this`inbox
      ensures Buried(Records(), s, k.0, done + {k})
    {
      BuriedOneMore(s.log, done, k);
      StrippedOneMore(s.attention, s.inbox, k.0, RefsOf(s.log, done), ref);
      log := log.(identities := log.identities[ref := log.identities[ref].(memory := Tombstone)]);
      log := log.(entries := log.entries - {k}, refs := log.refs - {ref});
      StripObligations(k.0, ref);
    }

    /** The rows in turn, up to one that may still be replayed. */
    method BuryRows(now: int, t: ThreadRef, rows: set<(ThreadRef, nat)>) returns (failed: Option<ErrorCode>)
      requires forall k | k in rows :: k in log.entries && k.0 == t
      modifies this`log, this`attention, this`inbox
      ensures failed.None? <==> !ReplayWindowOpen(old(log), RefsOf(old(log), rows), now)
      ensures failed.None? ==> Buried(Records(), old(Records()), t, rows)
    {
      ghost var s := Records();
      var g := log;
      var left, done := rows, {};
      BuriedNothing(s, t);
      while left != {}
        invariant left + done == rows && left !! done
        invariant Buried(Records(), s, t, done)
        invariant !ReplayWindowOpen(g, RefsOf(g, done), now)
        decreases left
      {
        var k :| k in left;
        var ref := g.entries[k].message.ref;
        assert ref in RefsOf(g, rows);
        assert RefsOf(g, done + {k}) == RefsOf(g, done) + {ref};
        if ref !in log.identities { return Some(NotFound); }
        if log.identities[ref].retryUntil > now { return Some(Conflict); }
        BuryRow(k, ref, s, done);
        left, done := left - {k}, done + {k};
      }
      assert done == rows;
      return None;
    }

    /** Every entry of a thread below a number expires; a failure on the way undoes the transaction. */
    method Expiry(now: int, t: ThreadRef, before: nat) returns (failed: Option<ErrorCode>)
      modifies this`log, this`attention, this`inbox
      ensures Records() == Expire(old(Records()), now, t, before)
      ensures failed.None? <==> t in old(log).threads && !ReplayWindowOpen(old(log), Expiring(old(log), t, before), now)
    {
      if t !in log.threads { return Some(NotFound); }
      var g, rows, a, i := log, ExpiringRows(log, t, before), attention, inbox;
      failed := BuryRows(now, t, rows);
      if failed.Some? { log, attention, inbox := g, a, i; }
    }
  }

  /** The records once the entries `done` of `t` have become tombstones. */
  ghost predicate Buried(s': Store, s: Store, t: ThreadRef, done: set<(ThreadRef, nat)>) {
    var gone := RefsOf(s.log, done);
    s' == s.(log := Bury(s.log, done), attention := StripGone(s.attention, t, gone), inbox := MirrorGone(s.inbox, s.attention, t, gone))
  }

  lemma BuriedNothing(s: Store, t: ThreadRef)
    ensures Buried(s, s, t, {})
  {}

  lemma BuriedOneMore(g: Log, done: set<(ThreadRef, nat)>, k: (ThreadRef, nat))
    requires k in g.entries && g.entries[k].message.ref in g.identities
    ensures var ref, g' := g.entries[k].message.ref, Bury(g, done);
      && RefsOf(g, done + {k}) == RefsOf(g, done) + {ref}
      && Bury(g, done + {k}) == g'.(identities := g'.identities[ref := g'.identities[ref].(memory := Tombstone)],
                                    entries := g'.entries - {k}, refs := g'.refs - {ref})
  {}

  lemma StrippedOneMore(attention: map<Obligation, Attention>, inbox: map<Obligation, InboxRow>, t: ThreadRef, gone: set<MessageRef>, ref: MessageRef)
    ensures StripGone(StripGone(attention, t, gone), t, {ref}) == StripGone(attention, t, gone + {ref})
    ensures MirrorGone(MirrorGone(inbox, attention, t, gone), StripGone(attention, t, gone), t, {ref}) == MirrorGone(inbox, attention, t, gone + {ref})
  {}

  /** What the attention list still shows a body of, its reader may read. */
  lemma ShownIsReadable(s: Store, actor: NodeId, t: ThreadRef, allowed: bool, readable: set<MessageRef>)
    ensures var shown := StripRows(s.attention, Hidden(s, actor, t, allowed, readable));
      forall o | o in Unacked(s, actor, t) && shown[o].entry.Some? && !shown[o].expired :: allowed && o.ref in readable
  {}
}
