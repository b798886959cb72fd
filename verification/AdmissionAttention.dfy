/**
 * Attention over whole runs: every obligation stands at the place of its message, so the
 * obligations of one recipient have distinct positions; and an obligation only ever advances.
 */
module AdmissionAttention {
  import opened Prelude
  import opened Messages
  import opened AdmissionModel
  import opened AdmissionLog
  import opened AdmissionRuns

  /** An obligation names an admitted message at its place, and keeps its body until it expires. */
  ghost predicate Placed(h: History, o: Obligation, a: Attention) {
    && o.ref in h.first && Place(h.first[o.ref]) == (o.thread, a.number)
    && (a.expired <==> a.entry.None?)
  }

  ghost predicate AttentionInv(attention: map<Obligation, Attention>, h: History) {
    forall o | o in attention :: Placed(h, o, attention[o])
  }

  /** What may become of an obligation: it is acked, it loses its body, and neither is undone. */
  predicate Advances(a: Attention, b: Attention) {
    && b.number == a.number && b.author == a.author && b.plan == a.plan
    && (a.acked ==> b.acked) && (a.expired ==> b.expired) && (b.entry == a.entry || b.expired)
  }

  ghost predicate AllAdvance(before: map<Obligation, Attention>, after: map<Obligation, Attention>) {
    forall o | o in before :: o in after && Advances(before[o], after[o])
  }

  lemma NotifyAttention(s: Store, node: NodeId, e: Entry, plan: Plan, recipients: set<NodeId>, h: History, h': History)
    requires AttentionInv(s.attention, h) && e.message.ref !in h.first
    requires e.message.ref in h'.first && Place(h'.first[e.message.ref]) == (e.thread, e.number)
    requires forall m | m in h.first :: m in h'.first && h'.first[m] == h.first[m]
    ensures AttentionInv(Notify(s, node, e, plan, recipients).attention, h')
    ensures AllAdvance(s.attention, Notify(s, node, e, plan, recipients).attention)
  {}

  lemma RulingAttention(s: Store, h: History, env: Env, auth: Auth, r: SendRequest, ruling: Ruling)
    requires AttentionInv(s.attention, h) && Fits(ruling, s.log, h, r.message)
    ensures AttentionInv(Effect(s, env, auth, r, ruling).attention, RuledHistory(h, s.log, env, r, ruling))
    ensures AllAdvance(s.attention, Effect(s, env, auth, r, ruling).attention)
  {
    if ruling.Entered? { CommitAttention(s, h, env, auth, r, ruling.decision); }
  }

  lemma CommitAttention(s: Store, h: History, env: Env, auth: Auth, r: SendRequest, d: Decision)
    requires d.Admit? && AttentionInv(s.attention, h) && r.message.ref !in h.first
    ensures var s' := Commit(s.(log := Cleared(s.log, r.message.ref)), env, auth, r, d);
            var h' := Admitted(h, NewReceipt(s.log, env, r, d.thread, d.firstContact), SpentPermit(d, r.message));
            AttentionInv(s'.attention, h') && AllAdvance(s.attention, s'.attention)
  {
    var s0 := s.(log := Cleared(s.log, r.message.ref));
    var e := NewEntry(s0.log, env, auth, r, d.thread);
    var h' := Admitted(h, NewReceipt(s.log, env, r, d.thread, d.firstContact), SpentPermit(d, r.message));
    NotifyAttention(s, env.node, e, r.plan, d.recipients, h, h');
    assert Commit(s0, env, auth, r, d).attention == Notify(s, env.node, e, r.plan, d.recipients).attention;
  }

  lemma StepAttention(st: State, step: Step)
    requires LogInv(st.store.log, st.history) && Enabled(st, step) && AttentionInv(st.store.attention, st.history)
    ensures AttentionInv(Next(st, step).store.attention, Next(st, step).history)
    ensures AllAdvance(st.store.attention, Next(st, step).store.attention)
  {
    var s, h := st.store, st.history;
    match step
    case DoAdmit(env, auth, r) =>
      RulingFits(s, h, env, auth, r);
      RulingAttention(s, h, env, auth, r, Rule(s, env, auth, r));
    case DoExpire(now, t, before) => ExpireAttention(s, h, now, t, before);
    case DoAttention(hidden) => StripAttention(s, h, hidden);
    case DoAck(actor, o) => AckAttention(s, h, actor, o);
    case _ => OwnerAttention(st, step);
  }

  lemma AckAttention(s: Store, h: History, actor: NodeId, o: Obligation)
    requires AttentionInv(s.attention, h)
    ensures AttentionInv(Ack(s, actor, o).attention, h) && AllAdvance(s.attention, Ack(s, actor, o).attention)
  {
    if o in s.attention { MarkAttention(s.attention, h, o, s.attention[o].(acked := true)); }
  }

  lemma MarkAttention(attention: map<Obligation, Attention>, h: History, o: Obligation, a: Attention)
    requires AttentionInv(attention, h) && o in attention && Advances(attention[o], a) && (a.expired <==> a.entry.None?)
    ensures AttentionInv(attention[o := a], h) && AllAdvance(attention, attention[o := a])
  {}

  lemma StripAttention(s: Store, h: History, hidden: set<Obligation>)
    requires AttentionInv(s.attention, h)
    ensures var s' := StripHidden(s, hidden); AttentionInv(s'.attention, h) && AllAdvance(s.attention, s'.attention)
  {}

  lemma OwnerAttention(st: State, step: Step)
    requires !step.DoAdmit? && !step.DoExpire? && !step.DoAttention? && !step.DoAck? && AttentionInv(st.store.attention, st.history)
    ensures AttentionInv(Next(st, step).store.attention, Next(st, step).history)
    ensures AllAdvance(st.store.attention, Next(st, step).store.attention)
  {}

  lemma ExpireAttention(s: Store, h: History, now: int, t: ThreadRef, before: nat)
    requires AttentionInv(s.attention, h)
    ensures var s' := Expire(s, now, t, before); AttentionInv(s'.attention, h) && AllAdvance(s.attention, s'.attention)
  {
    StripGoneAttention(s.attention, h, t, Expiring(s.log, t, before));
  }

  lemma StripGoneAttention(attention: map<Obligation, Attention>, h: History, t: ThreadRef, gone: set<MessageRef>)
    requires AttentionInv(attention, h)
    ensures AttentionInv(StripGone(attention, t, gone), h) && AllAdvance(attention, StripGone(attention, t, gone))
  {}

  lemma {:induction false} RunAttention(trace: seq<Step>)
    requires Valid(trace)
    ensures AttentionInv(Run(trace).store.attention, Run(trace).history)
  {
    if trace != [] {
      RunInv(trace[..|trace| - 1]);
      RunAttention(trace[..|trace| - 1]);
      StepAttention(Run(trace[..|trace| - 1]), trace[|trace| - 1]);
    }
  }

  /** Two obligations of one recipient never stand at one position of one thread. */
  lemma PositionsAreDistinct(trace: seq<Step>, one: Obligation, two: Obligation)
    requires Valid(trace) && one in Run(trace).store.attention && two in Run(trace).store.attention
    requires one.recipient == two.recipient && one != two
    ensures (one.thread, Run(trace).store.attention[one].number) != (two.thread, Run(trace).store.attention[two].number)
  {
    RunInv(trace);
    RunAttention(trace);
    var h := Run(trace).history;
    assert Placed(h, one, Run(trace).store.attention[one]) && Placed(h, two, Run(trace).store.attention[two]);
    assert h.numbers[Place(h.first[one.ref])] == one.ref && h.numbers[Place(h.first[two.ref])] == two.ref;
  }

  /** From any reachable state, any further run only advances the obligations it holds. */
  lemma {:induction false} ObligationsAdvance(trace: seq<Step>, more: seq<Step>, o: Obligation)
    requires Valid(trace) && Valid(trace + more) && o in Run(trace).store.attention
    ensures o in Run(trace + more).store.attention && Advances(Run(trace).store.attention[o], Run(trace + more).store.attention[o])
    decreases |more|
  {
    if more == [] {
      assert trace + more == trace;
    } else {
      var rest := more[..|more| - 1];
      assert (trace + more)[..|trace + more| - 1] == trace + rest;
      ObligationsAdvance(trace, rest, o);
      RunInv(trace + rest);
      RunAttention(trace + rest);
      StepAttention(Run(trace + rest), more[|more| - 1]);
    }
  }
}
