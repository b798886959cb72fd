/**
 * Admission over whole runs: any interleaving of admissions, retries, acks, attention reads,
 * expiries and the thread owner's own changes.
 */
module AdmissionRuns {
  import opened Prelude
  import opened Messages
  import opened AdmissionModel
  import opened AdmissionLog

  datatype Step =
    | DoAdmit(env: Env, auth: Auth, request: SendRequest)
    | DoAck(actor: NodeId, obligation: Obligation)
    | DoAttention(hidden: set<Obligation>)
    | DoExpire(now: int, thread: ThreadRef, before: nat)
    | DoCreate(thread: ThreadRef)
    | DoSetState(thread: ThreadRef, open: bool)
    | DoMember(thread: ThreadRef, peer: NodeId, member: Member)
    | DoPermit(key: PermitKey, permit: Permit)
    | DoFallback(fallback: Option<ThreadRef>)
    | DoRecordSent(ref: MessageRef, sent: Sent)

  datatype State = State(store: Store, history: History)

  predicate Enabled(st: State, step: Step) {
    match step
    case DoAdmit(env, auth, r) => |env.newThread| > 0 && ThreadRef(env.node, env.newThread) !in st.store.log.threads
    case DoCreate(t) => t !in st.store.log.threads
    case DoSetState(t, open) => t in st.store.log.threads
    case _ => true
  }

  function SetThread(s: Store, t: ThreadRef, thread: Thread): Store {
    s.(log := s.log.(threads := s.log.threads[t := thread]))
  }

  function NextStore(s: Store, step: Step): Store {
    match step
    case DoAdmit(env, auth, r) => Effect(s, env, auth, r, Rule(s, env, auth, r))
    case DoAck(actor, o) => Ack(s, actor, o)
    case DoAttention(hidden) => StripHidden(s, hidden)
    case DoExpire(now, t, before) => Expire(s, now, t, before)
    case DoCreate(t) => SetThread(s, t, ThreadBefore(s.log, t))
    case DoSetState(t, open) => SetThread(s, t, ThreadBefore(s.log, t).(open := open))
    case DoMember(t, peer, member) => s.(members := s.members[(t, peer) := member])
    case DoPermit(k, permit) => s.(log := s.log.(permits := s.log.permits[k := permit]))
    case DoFallback(fallback) => s.(fallback := fallback)
    case DoRecordSent(ref, sent) => s.(outbound := s.outbound[ref := sent])
  }

  function RuledHistory(h: History, g: Log, env: Env, r: SendRequest, ruling: Ruling): History {
    if ruling.Entered? && ruling.decision.Admit?
    then Admitted(h, NewReceipt(g, env, r, ruling.decision.thread, ruling.decision.firstContact), SpentPermit(ruling.decision, r.message))
    else h
  }

  function NextHistory(st: State, step: Step): History {
    var h := st.history;
    match step
    case DoAdmit(env, auth, r) => RuledHistory(h, st.store.log, env, r, Rule(st.store, env, auth, r))
    case DoPermit(k, permit) => h.(uses := h.uses[k := 0], grants := h.grants[k := permit.remaining])
    case _ => h
  }

  function Next(st: State, step: Step): State {
    State(NextStore(st.store, step), NextHistory(st, step))
  }

  const EMPTY := State(Store(Log(map[], map[], map[], map[], map[], map[]), map[], map[], map[], map[], map[], map[], None),
                       History(map[], map[], map[], map[]))

  predicate Valid(trace: seq<Step>)
    decreases |trace|, 0
  {
    trace != [] ==> Valid(trace[..|trace| - 1]) && Enabled(Run(trace[..|trace| - 1]), trace[|trace| - 1])
  }

  function Run(trace: seq<Step>): State
    requires Valid(trace)
    decreases |trace|, 1
  {
    if trace == [] then EMPTY else Next(Run(trace[..|trace| - 1]), trace[|trace| - 1])
  }

  // ---- every step keeps the log -------------------------------------------------------------

  /** A decision to admit names an open thread of this node, or a thread that does not exist yet. */
  lemma DecisionIsSound(s: Store, env: Env, m: Message)
    requires |env.newThread| > 0 && ThreadRef(env.node, env.newThread) !in s.log.threads && Decide(s, env, m).Admit?
    ensures var d := Decide(s, env, m);
      && d.thread.owner == env.node && |d.thread.id| > 0
      && (d.firstContact ==> d.thread !in s.log.threads && !d.spendsPermit)
      && (!d.firstContact ==> d.thread in s.log.threads && s.log.threads[d.thread].open)
      && SpendsSoundly(s.log, m, d)
      && (d.spendsPermit ==>
            && s.log.permits[PermitKey(m.inReplyTo.value, m.ref.sender)].landing == d.thread
            && !Ordinary(s, d.thread, m))
  {}

  /** What a ruling must fit: the answers already given, and the permits that pay for it. */
  ghost predicate Fits(ruling: Ruling, g: Log, h: History, m: Message) {
    match ruling
    case Standing(_) => true
    case Repeated(receipt) => m.ref in h.first && receipt == h.first[m.ref]
    case Refused(_) => m.ref !in h.first
    case Entered(d) => m.ref !in h.first && SpendsSoundly(g, m, d)
  }

  lemma EnteredIsDecided(s: Store, env: Env, auth: Auth, r: SendRequest)
    requires Rule(s, env, auth, r).Entered?
    ensures Rule(s, env, auth, r).decision == Decide(s, env, r.message) && Decide(s, env, r.message).Admit?
  {}

  /** A message is decided afresh only as long as it was never admitted; after that its receipt is repeated. */
  lemma RulingFits(s: Store, h: History, env: Env, auth: Auth, r: SendRequest)
    requires Identities(s.log, h) && |env.newThread| > 0 && ThreadRef(env.node, env.newThread) !in s.log.threads
    ensures Fits(Rule(s, env, auth, r), s.log, h, r.message)
  {}

  /** An admission commits to the log without the memory of a transient refusal. */
  lemma EnteredIs(s: Store, h: History, env: Env, auth: Auth, r: SendRequest, d: Decision)
    requires d.Admit?
    ensures var g := Cleared(s.log, r.message.ref);
      && Effect(s, env, auth, r, Entered(d)).log == CommitLog(g, env, auth, r, d)
      && RuledHistory(h, s.log, env, r, Entered(d)) == Admitted(h, NewReceipt(g, env, r, d.thread, d.firstContact), SpentPermit(d, r.message))
  {}

  lemma EnteredInv(s: Store, h: History, env: Env, auth: Auth, r: SendRequest, d: Decision)
    requires LogInv(s.log, h) && r.message.ref !in h.first && SpendsSoundly(s.log, r.message, d)
    ensures LogInv(Effect(s, env, auth, r, Entered(d)).log, RuledHistory(h, s.log, env, r, Entered(d)))
  {
    EnteredIs(s, h, env, auth, r, d);
    ClearedInv(s.log, h, r.message.ref);
    CommitInv(Cleared(s.log, r.message.ref), h, env, auth, r, d);
  }

  lemma RulingInv(s: Store, h: History, env: Env, auth: Auth, r: SendRequest, ruling: Ruling)
    requires LogInv(s.log, h) && Fits(ruling, s.log, h, r.message)
    ensures LogInv(Effect(s, env, auth, r, ruling).log, RuledHistory(h, s.log, env, r, ruling))
  {
    var g := s.log;
    match ruling
    case Standing(code) =>
    case Repeated(receipt) => BindInv(g, h, auth, r);
    case Refused(code) => RefusalInv(g, h, r, code);
    case Entered(d) => EnteredInv(s, h, env, auth, r, d);
  }

  lemma StepInv(st: State, step: Step)
    requires LogInv(st.store.log, st.history) && Enabled(st, step)
    ensures LogInv(Next(st, step).store.log, Next(st, step).history)
  {
    var g, h := st.store.log, st.history;
    match step
    case DoAdmit(env, auth, r) =>
      RulingFits(st.store, h, env, auth, r);
      RulingInv(st.store, h, env, auth, r, Rule(st.store, env, auth, r));
    case DoExpire(now, t, before) => BuryInv(g, h, t, before);
    case DoCreate(t) => ThreadInv(g, h, t, ThreadBefore(g, t));
    case DoSetState(t, open) => ThreadInv(g, h, t, ThreadBefore(g, t).(open := open));
    case DoPermit(k, permit) => GrantInv(g, h, k, permit);
    case _ => assert Next(st, step).store.log == g && Next(st, step).history == h;
  }

  /**
   * In every reachable state the numbers of a thread are exactly 1 .. nextSeq - 1, each of one
   * message; entries, references and identities agree; bindings lead to admitted messages; and
   * every permit's uses and remainder make its grant.
   */
  lemma {:induction false} RunInv(trace: seq<Step>)
    requires Valid(trace)
    ensures LogInv(Run(trace).store.log, Run(trace).history)
  {
    if trace == [] {
      assert LogInv(EMPTY.store.log, EMPTY.history);
    } else {
      RunInv(trace[..|trace| - 1]);
      StepInv(Run(trace[..|trace| - 1]), trace[|trace| - 1]);
    }
  }
}
