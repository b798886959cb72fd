/**
 * What the answers of a whole run satisfy: one receipt and one number per message, dense numbers,
 * refusals that touch nothing else and stand for ever, tombstones that never reopen.
 */
module AdmissionTheorems {
  import opened Prelude
  import opened Messages
  import opened AdmissionModel
  import opened AdmissionLog
  import opened AdmissionRuns

  lemma {:induction false} PrefixValid(trace: seq<Step>, i: nat)
    requires Valid(trace) && i <= |trace|
    ensures Valid(trace[..i])
  {
    if i == |trace| {
      assert trace[..i] == trace;
    } else {
      PrefixValid(trace[..|trace| - 1], i);
      assert trace[..|trace| - 1][..i] == trace[..i];
    }
  }

  /** The state before step `i` of a run. */
  ghost function Before(trace: seq<Step>, i: nat): State
    requires Valid(trace) && i <= |trace|
  {
    PrefixValid(trace, i);
    Run(trace[..i])
  }

  lemma PrefixStep(trace: seq<Step>, i: nat)
    requires Valid(trace) && i < |trace|
    ensures Enabled(Before(trace, i), trace[i]) && Before(trace, i + 1) == Next(Before(trace, i), trace[i])
  {
    PrefixValid(trace, i + 1);
    assert trace[..i + 1][..i] == trace[..i];
  }

  lemma Stepped(trace: seq<Step>, i: nat)
    requires Valid(trace) && i < |trace|
    ensures Enabled(Before(trace, i), trace[i]) && Before(trace, i + 1) == Next(Before(trace, i), trace[i])
    ensures LogInv(Before(trace, i).store.log, Before(trace, i).history)
  {
    PrefixStep(trace, i);
    PrefixValid(trace, i);
    RunInv(trace[..i]);
  }

  /** The answer given at step `i`, if that step is an admission. */
  ghost function AnswerAt(trace: seq<Step>, i: nat): Option<Answer>
    requires Valid(trace) && i < |trace|
  {
    if !trace[i].DoAdmit? then None
    else Some(AdmitRequest(Before(trace, i).store, trace[i].env, trace[i].auth, trace[i].request).1)
  }

  ghost predicate AcceptedAt(trace: seq<Step>, i: nat, receipt: Receipt)
    requires Valid(trace)
  {
    i < |trace| && AnswerAt(trace, i) == Some(Accepted(receipt))
  }

  // ---- exactly once --------------------------------------------------------------------------

  /** An accepting answer is the first receipt of the message asked for, from that step on. */
  lemma AcceptedIsFirst(trace: seq<Step>, i: nat, receipt: Receipt)
    requires Valid(trace) && AcceptedAt(trace, i, receipt)
    ensures receipt.ref == trace[i].request.message.ref
    ensures var h := Before(trace, i + 1).history; receipt.ref in h.first && h.first[receipt.ref] == receipt
  {
    Stepped(trace, i);
    var st, step := Before(trace, i), trace[i];
    RulingFits(st.store, st.history, step.env, step.auth, step.request);
    assert Receipts(st.history);
  }

  lemma NextKeepsFirst(st: State, step: Step, m: MessageRef)
    requires Identities(st.store.log, st.history) && Enabled(st, step) && m in st.history.first
    ensures m in Next(st, step).history.first && Next(st, step).history.first[m] == st.history.first[m]
  {
    if step.DoAdmit? { RulingFits(st.store, st.history, step.env, step.auth, step.request); }
  }

  lemma FirstStays(trace: seq<Step>, i: nat, m: MessageRef)
    requires Valid(trace) && i < |trace| && m in Before(trace, i).history.first
    ensures m in Before(trace, i + 1).history.first && Before(trace, i + 1).history.first[m] == Before(trace, i).history.first[m]
  {
    Stepped(trace, i);
    NextKeepsFirst(Before(trace, i), trace[i], m);
  }

  lemma {:induction false} FirstForEver(trace: seq<Step>, i: nat, j: nat, m: MessageRef)
    requires Valid(trace) && i <= j <= |trace| && m in Before(trace, i).history.first
    ensures m in Before(trace, j).history.first && Before(trace, j).history.first[m] == Before(trace, i).history.first[m]
    decreases j - i
  {
    if i < j {
      FirstStays(trace, i, m);
      FirstForEver(trace, i + 1, j, m);
    }
  }

  /** All receipts for one message are one receipt, and two messages never share a thread and number. */
  lemma ExactlyOnce(trace: seq<Step>, i: nat, j: nat, one: Receipt, two: Receipt)
    requires Valid(trace)
    ensures AcceptedAt(trace, i, one) && AcceptedAt(trace, j, two) ==>
      if one.ref == two.ref then one == two else (one.thread, one.number) != (two.thread, two.number)
  {
    if AcceptedAt(trace, i, one) && AcceptedAt(trace, j, two) {
      AcceptedIsFirst(trace, i, one);
      AcceptedIsFirst(trace, j, two);
      FirstForEver(trace, i + 1, |trace|, one.ref);
      FirstForEver(trace, j + 1, |trace|, two.ref);
      PrefixValid(trace, |trace|);
      RunInv(trace[..|trace|]);
      var h := Before(trace, |trace|).history;
      assert Place(h.first[one.ref]) == Place(one) && Place(h.first[two.ref]) == Place(two);
    }
  }

  lemma NewNumber(st: State, step: Step, k: (ThreadRef, nat))
    requires k in Next(st, step).history.numbers && k !in st.history.numbers
    ensures step.DoAdmit?
    ensures var answer := AdmitRequest(st.store, step.env, step.auth, step.request).1; answer.Accepted? && Place(answer.receipt) == k
  {}

  /** Every number a thread has passed was given to an accepted message: no gaps, in any reachable state. */
  lemma {:induction false} NumberAnswered(trace: seq<Step>, k: (ThreadRef, nat)) returns (i: nat, receipt: Receipt)
    requires Valid(trace) && k in Run(trace).history.numbers
    ensures AcceptedAt(trace, i, receipt) && Place(receipt) == k
  {
    var before, n := trace[..|trace| - 1], |trace| - 1;
    var st, step := Run(before), trace[n];
    assert Before(trace, n) == st;
    if k in st.history.numbers {
      i, receipt := NumberAnswered(before, k);
      PrefixAnswer(trace, n, i);
    } else {
      NewNumber(st, step, k);
      i, receipt := n, AnswerAt(trace, n).value.receipt;
    }
  }

  lemma PrefixAnswer(trace: seq<Step>, n: nat, i: nat)
    requires Valid(trace) && i < n <= |trace|
    ensures Valid(trace[..n]) && AnswerAt(trace[..n], i) == AnswerAt(trace, i)
  {
    PrefixValid(trace, n);
    assert trace[..n][..i] == trace[..i];
  }

  lemma NumbersAreDense(trace: seq<Step>, t: ThreadRef, n: nat)
    requires Valid(trace) && t in Run(trace).store.log.threads && 1 <= n < Run(trace).store.log.threads[t].nextSeq
    ensures exists i: nat, receipt :: AcceptedAt(trace, i, receipt) && receipt.thread == t && receipt.number == n
  {
    RunInv(trace);
    var i, receipt := NumberAnswered(trace, (t, n));
    assert AcceptedAt(trace, i, receipt) && receipt.thread == t && receipt.number == n;
  }

  // ---- refusals and tombstones -----------------------------------------------------------------

  /** A ruling that admits nothing touches only the memory of its message. */
  lemma RefusalEffect(s: Store, env: Env, auth: Auth, r: SendRequest, ruling: Ruling)
    requires ruling.Standing? || ruling.Refused?
    ensures var s' := Effect(s, env, auth, r, ruling);
      && s' == s.(log := s.log.(identities := s'.log.identities))
      && (forall m | m != r.message.ref :: (m in s'.log.identities <==> m in s.log.identities)
                                       && (m in s.log.identities ==> s'.log.identities[m] == s.log.identities[m]))
  {}

  lemma FailureIsRefusal(s: Store, env: Env, auth: Auth, r: SendRequest)
    requires AdmitRequest(s, env, auth, r).1.Failed?
    ensures Rule(s, env, auth, r).Standing? || Rule(s, env, auth, r).Refused?
  {
    if Rule(s, env, auth, r).Entered? { EnteredIsDecided(s, env, auth, r); }
  }

  /** An admission that does not accept writes nothing but the memory of its own identity. */
  lemma RefusalIsAtomic(s: Store, env: Env, auth: Auth, r: SendRequest)
    requires AdmitRequest(s, env, auth, r).1.Failed?
    ensures var s' := AdmitRequest(s, env, auth, r).0;
      && s' == s.(log := s.log.(identities := s'.log.identities))
      && (forall m | m != r.message.ref :: (m in s'.log.identities <==> m in s.log.identities)
                                       && (m in s.log.identities ==> s'.log.identities[m] == s.log.identities[m]))
  {
    FailureIsRefusal(s, env, auth, r);
    RefusalEffect(s, env, auth, r, Rule(s, env, auth, r));
  }

  /** An identity whose memory no admission may reopen. */
  ghost predicate Closed(g: Log, known: Remembered) {
    var m := known.digest.message.ref;
    && m in g.identities && g.identities[m] == known
    && (known.memory.Tombstone? || (known.memory.RefusedWith? && !Transient(known.memory.code)))
  }

  lemma OthersStay(s: Store, env: Env, auth: Auth, r: SendRequest, ruling: Ruling, m: MessageRef)
    requires m != r.message.ref && m in s.log.identities
    ensures var g' := Effect(s, env, auth, r, ruling).log; m in g'.identities && g'.identities[m] == s.log.identities[m]
  {}

  /** Once closed, an identity is never admitted; the same content always gets the same refusal. */
  lemma ClosedAnswer(s: Store, env: Env, auth: Auth, r: SendRequest, known: Remembered)
    requires Closed(s.log, known) && r.message.ref == known.digest.message.ref
    ensures Rule(s, env, auth, r).Standing?
    ensures var answer := AdmitRequest(s, env, auth, r).1;
      && answer.Failed?
      && (DigestOf(r) == known.digest && Precheck(env, auth, r).None? && !BoundElsewhere(s, auth, r) ==>
            answer.code == if known.memory.Tombstone? then RetryWindowExpired else known.memory.code)
  {}

  lemma IdentitiesStay(s: Store, step: Step)
    requires !step.DoAdmit? && !step.DoExpire?
    ensures NextStore(s, step).log.identities == s.log.identities
  {}

  lemma ClosedAfterAdmit(s: Store, env: Env, auth: Auth, r: SendRequest, known: Remembered)
    requires Closed(s.log, known)
    ensures Closed(Effect(s, env, auth, r, Rule(s, env, auth, r)).log, known)
  {
    if r.message.ref == known.digest.message.ref {
      ClosedAnswer(s, env, auth, r, known);
    } else {
      OthersStay(s, env, auth, r, Rule(s, env, auth, r), known.digest.message.ref);
    }
  }

  /** Burying rows changes the memory of no tombstone and of no message outside them. */
  lemma BuryKeeps(g: Log, rows: set<(ThreadRef, nat)>, m: MessageRef)
    requires m in g.identities && (m in RefsOf(g, rows) ==> g.identities[m].memory.Tombstone?)
    ensures m in Bury(g, rows).identities && Bury(g, rows).identities[m] == g.identities[m]
  {}

  lemma ClosedAfterExpiry(s: Store, h: History, now: int, t: ThreadRef, before: nat, known: Remembered)
    requires LogInv(s.log, h) && Closed(s.log, known)
    ensures Closed(Expire(s, now, t, before).log, known)
  {
    var m := known.digest.message.ref;
    ClosedIsNotBuried(s.log, h, t, before, known);
    BuryKeeps(s.log, ExpiringRows(s.log, t, before), m);
  }

  /** Of the expiring messages, only those already tombstoned are closed. */
  lemma ClosedIsNotBuried(g: Log, h: History, t: ThreadRef, before: nat, known: Remembered)
    requires Identities(g, h) && Entries(g, h) && Closed(g, known)
    ensures known.digest.message.ref in Expiring(g, t, before) ==> known.memory.Tombstone?
  {
    ExpiringEntries(g, h, t, before);
    if known.digest.message.ref in h.first { assert Answers(g, h, known.digest.message.ref); }
  }

  lemma ClosedStays(st: State, step: Step, known: Remembered)
    requires LogInv(st.store.log, st.history) && Closed(st.store.log, known)
    ensures Closed(Next(st, step).store.log, known)
  {
    match step
    case DoAdmit(env, auth, r) => ClosedAfterAdmit(st.store, env, auth, r, known);
    case DoExpire(now, t, before) => ClosedAfterExpiry(st.store, st.history, now, t, before, known);
    case _ => IdentitiesStay(st.store, step);
  }

  lemma {:induction false} ClosedForEver(trace: seq<Step>, i: nat, j: nat, known: Remembered)
    requires Valid(trace) && i <= j <= |trace| && Closed(Before(trace, i).store.log, known)
    ensures Closed(Before(trace, j).store.log, known)
    decreases j - i
  {
    if i < j {
      Stepped(trace, i);
      ClosedStays(Before(trace, i), trace[i], known);
      ClosedForEver(trace, i + 1, j, known);
    }
  }

  lemma RefusedIsClosed(s: Store, env: Env, auth: Auth, r: SendRequest, code: ErrorCode)
    requires Rule(s, env, auth, r) == Refused(code) && Recorded(code)
    ensures Closed(Effect(s, env, auth, r, Refused(code)).log, Remembered(DigestOf(r), RefusedWith(code), r.retryUntil))
  {}

  /** A recorded refusal is given again, at every later step, to every request with the same content. */
  lemma RefusalIsFinal(trace: seq<Step>, i: nat, j: nat)
    requires Valid(trace) && i < j < |trace| && trace[i].DoAdmit? && trace[j].DoAdmit?
    requires var s := Before(trace, i).store; var ruling := Rule(s, trace[i].env, trace[i].auth, trace[i].request);
             ruling.Refused? && Recorded(ruling.code)
    requires trace[j].request.message.ref == trace[i].request.message.ref
    ensures AnswerAt(trace, j).value.Failed?
    ensures DigestOf(trace[j].request) == DigestOf(trace[i].request) && Precheck(trace[j].env, trace[j].auth, trace[j].request).None?
            && !BoundElsewhere(Before(trace, j).store, trace[j].auth, trace[j].request)
            ==> AnswerAt(trace, j) == AnswerAt(trace, i)
  {
    Stepped(trace, i);
    var s, r := Before(trace, i).store, trace[i].request;
    var code := Rule(s, trace[i].env, trace[i].auth, r).code;
    var known := Remembered(DigestOf(r), RefusedWith(code), r.retryUntil);
    RefusedIsClosed(s, trace[i].env, trace[i].auth, r, code);
    assert Before(trace, i + 1).store == Effect(s, trace[i].env, trace[i].auth, r, Refused(code));
    ClosedForEver(trace, i + 1, j, known);
    ClosedAnswer(Before(trace, j).store, trace[j].env, trace[j].auth, trace[j].request, known);
  }

  lemma BuriedIsClosed(s: Store, h: History, now: int, t: ThreadRef, before: nat, k: (ThreadRef, nat)) returns (known: Remembered)
    requires LogInv(s.log, h) && k in s.log.entries && k !in Expire(s, now, t, before).log.entries
    ensures Closed(Expire(s, now, t, before).log, known) && known.memory.Tombstone?
    ensures known.digest.message.ref == s.log.entries[k].message.ref
  {
    var g, m := s.log, s.log.entries[k].message.ref;
    assert EntryOk(g, h, k, g.entries[k]) && Remembers(h, m, g.identities[m]);
    assert m in Expiring(g, t, before);
    known := g.identities[m].(memory := Tombstone);
  }

  /** After an expiry removes an entry, its message is never admitted again, and a retry learns why. */
  lemma TombstoneIsFinal(trace: seq<Step>, i: nat, j: nat, k: (ThreadRef, nat))
    requires Valid(trace) && i < j < |trace| && trace[i].DoExpire? && trace[j].DoAdmit?
    requires k in Before(trace, i).store.log.entries && k !in Before(trace, i + 1).store.log.entries
    requires trace[j].request.message.ref == Before(trace, i).store.log.entries[k].message.ref
    ensures AnswerAt(trace, j).value.Failed?
    ensures Precheck(trace[j].env, trace[j].auth, trace[j].request).None?
            && !BoundElsewhere(Before(trace, j).store, trace[j].auth, trace[j].request)
            ==> AnswerAt(trace, j).value.code in {RetryWindowExpired, IdConflict}
  {
    Stepped(trace, i);
    var st, step := Before(trace, i), trace[i];
    var known := BuriedIsClosed(st.store, st.history, step.now, step.thread, step.before, k);
    ClosedForEver(trace, i + 1, j, known);
    ClosedAnswer(Before(trace, j).store, trace[j].env, trace[j].auth, trace[j].request, known);
  }
}
