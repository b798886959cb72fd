/** Rendering over all passes and crashes. */
module RenderRuns {
  import opened Prelude
  import opened RenderModel

  function After(s: State): nat { if s.pass.Idle? then s.cursor else s.pass.after }

  function Page(s: State): seq<Item> { if s.pass.Idle? then [] else s.pass.page }

  /** After a send the platform did not refuse, only entries with higher numbers are ever sent. */
  ghost predicate InOrder(log: seq<Sending>) {
    forall i, j | 0 <= i < j < |log| && log[i].outcome != Refused :: log[i].number < log[j].number
  }

  /** Every foreign entry up to `top`, in the thread or on the page at hand, has a record. */
  ghost predicate Recorded(s: State, top: nat) {
    && (forall n | n in s.entries && !s.entries[n] && n <= top :: n in s.records)
    && (forall i | 0 <= i < |Page(s)| && !Page(s)[i].own && Page(s)[i].number <= top :: Page(s)[i].number in s.records)
  }

  /** The pass at hand: an ascending page past what is done, all numbers given out already. */
  ghost predicate PassOk(s: State) {
    var page := Page(s);
    && s.cursor <= After(s) < s.next && (forall n | n in s.entries :: n < s.next)
    && (forall i | 0 <= i < |page| :: After(s) < page[i].number < s.next)
    && (forall i | 0 <= i < |page| && page[i].number in s.entries :: s.entries[page[i].number] == page[i].own)
    && (forall i, j | 0 <= i < j < |page| :: page[i].number < page[j].number)
    && Covers(s.entries, After(s), page)
    && (s.pass.Marked? || s.pass.Sent? ==> page != [] && !page[0].own && page[0].number in s.records)
    && (s.pass.Settled? ==> page != [] && (page[0].own || page[0].number in s.records))
  }

  ghost predicate Below(log: seq<Sending>, n: nat) {
    forall i | 0 <= i < |log| && log[i].outcome != Refused :: log[i].number < n
  }

  ghost predicate Known(s: State) {
    forall i | 0 <= i < |s.log| && s.log[i].outcome != Refused :: Recorded(s, s.log[i].number)
  }

  /** What was sent without a refusal lies in recorded territory, below the entry about to be sent. */
  ghost predicate LogOk(s: State) {
    && InOrder(s.log) && Known(s) && (forall i | 0 <= i < |s.log| :: s.log[i].number < s.next)
    && (s.pass.Marked? && s.pass.page != [] ==> Below(s.log, s.pass.page[0].number))
    && (s.pass.Sent? && s.pass.page != [] ==> |s.log| > 0 && JustSent(s.log, s.pass.page[0].number, s.pass.outcome))
  }

  ghost predicate JustSent(log: seq<Sending>, n: nat, outcome: Outcome)
    requires |log| > 0
  {
    log[|log| - 1] == Sending(n, outcome) && Below(log[..|log| - 1], n)
  }

  ghost predicate Inv(s: State) {
    PassOk(s) && Recorded(s, After(s)) && LogOk(s)
  }

  lemma AdvancePass(s: State)
    requires Inv(s) && s.pass.Settled?
    ensures PassOk(Next(s, Advance))
  {}

  lemma ThreadPass(s: State, step: Step)
    requires Inv(s) && (step.Post? || step.Expire? || step.Crash? || step.Finish?) && Enabled(s, step)
    ensures PassOk(Next(s, step))
  {}

  lemma ListPass(s: State, page: seq<Item>)
    requires Inv(s) && Enabled(s, List(page))
    ensures PassOk(Next(s, List(page)))
  {}

  lemma EntryPass(s: State, step: Step)
    requires Inv(s) && (step.Look? || step.Send? || step.Record?) && Enabled(s, step)
    ensures PassOk(Next(s, step))
  {}

  lemma StepPass(s: State, step: Step)
    requires Inv(s) && Enabled(s, step)
    ensures PassOk(Next(s, step))
  {
    match step
    case Advance => AdvancePass(s);
    case List(page) => ListPass(s, page);
    case Look => EntryPass(s, step);
    case Send(_) => EntryPass(s, step);
    case Record => EntryPass(s, step);
    case _ => ThreadPass(s, step);
  }

  lemma StepRecorded(s: State, step: Step)
    requires Inv(s) && Enabled(s, step)
    ensures Recorded(Next(s, step), After(Next(s, step)))
  {}

  /** An entry found without a record is past everything sent without a refusal. */
  lemma UnrecordedIsBeyond(s: State)
    requires Inv(s) && s.pass.Walking? && s.pass.page != [] && !s.pass.page[0].own && s.pass.page[0].number !in s.records
    ensures Below(s.log, s.pass.page[0].number)
  {}

  /** Up to the entry just sent, everything foreign is recorded. */
  lemma SentIsRecorded(s: State, outcome: Outcome)
    requires Inv(s) && s.pass.Marked?
    ensures Recorded(Next(s, Send(outcome)), s.pass.page[0].number)
  {}

  lemma LookLog(s: State)
    requires Inv(s) && Enabled(s, Look)
    ensures LogOk(Next(s, Look))
  {
    if !s.pass.page[0].own && s.pass.page[0].number !in s.records { UnrecordedIsBeyond(s); }
    KnownStays(s, Next(s, Look));
  }

  lemma SendLog(s: State, outcome: Outcome)
    requires Inv(s) && Enabled(s, Send(outcome))
    ensures LogOk(Next(s, Send(outcome)))
  {
    var s', n := Next(s, Send(outcome)), s.pass.page[0].number;
    SentIsRecorded(s, outcome);
    assert s'.log[..|s'.log| - 1] == s.log;
    forall i | 0 <= i < |s'.log| && s'.log[i].outcome != Refused ensures Recorded(s', s'.log[i].number) {
      if i < |s.log| { assert Recorded(s, s.log[i].number); }
    }
  }

  /** Records that only grow keep what is recorded, while the thread and the page only shrink. */
  lemma KnownStays(s: State, s': State)
    requires Known(s) && s'.log == s.log && s.records.Keys <= s'.records.Keys
    requires forall n | n in s'.entries :: n in s.entries && s'.entries[n] == s.entries[n]
    requires Page(s') == Page(s) || Page(s') == [] || (Page(s) != [] && Page(s') == Page(s)[1..])
    ensures Known(s')
  {}

  lemma RecordLog(s: State)
    requires Inv(s) && Enabled(s, Record)
    ensures LogOk(Next(s, Record))
  {
    var s' := Next(s, Record);
    assert s'.log == s.log && s'.entries == s.entries && (Page(s') == Page(s) || Page(s') == []);
    forall i | 0 <= i < |s.log| && s.log[i].outcome != Refused ensures Recorded(s', s.log[i].number) {
      assert Recorded(s, s.log[i].number);
      if s.pass.outcome == Refused { assert i < |s.log| - 1 && s.log[..|s.log| - 1][i] == s.log[i]; }
    }
  }

  lemma ThreadLog(s: State, step: Step)
    requires Inv(s) && (step.Post? || step.Expire? || step.Crash? || step.Finish? || step.Advance? || step.List?) && Enabled(s, step)
    ensures LogOk(Next(s, step))
  {
    var s' := Next(s, step);
    if step.Post? || step.List? {
      forall i | 0 <= i < |s.log| && s.log[i].outcome != Refused ensures Recorded(s', s.log[i].number) {
        assert Recorded(s, s.log[i].number);
      }
    } else {
      KnownStays(s, s');
    }
  }

  lemma StepLog(s: State, step: Step)
    requires Inv(s) && Enabled(s, step)
    ensures LogOk(Next(s, step))
  {
    match step
    case Look => LookLog(s);
    case Send(outcome) => SendLog(s, outcome);
    case Record => RecordLog(s);
    case _ => ThreadLog(s, step);
  }

  lemma {:induction false} RunInv(trace: seq<Step>)
    requires Valid(trace)
    ensures Inv(Run(trace))
  {
    if trace == [] {
      assert Inv(START);
    } else {
      var s, step := Run(trace[..|trace| - 1]), trace[|trace| - 1];
      RunInv(trace[..|trace| - 1]);
      StepPass(s, step);
      StepRecorded(s, step);
      StepLog(s, step);
    }
  }

  /** Whatever crashes: a send of an entry is only ever repeated after the platform refused the earlier one. */
  lemma NeverSentTwice(trace: seq<Step>, i: nat, j: nat)
    requires Valid(trace) && i < j < |Run(trace).log| && Run(trace).log[i].number == Run(trace).log[j].number
    ensures Run(trace).log[i].outcome == Refused
  {
    RunInv(trace);
  }

  /** Sends that were not refused occur in strictly increasing order. */
  lemma SentInOrder(trace: seq<Step>, i: nat, j: nat)
    requires Valid(trace) && i < j < |Run(trace).log| && Run(trace).log[i].outcome != Refused && Run(trace).log[j].outcome != Refused
    ensures Run(trace).log[i].number < Run(trace).log[j].number
  {
    RunInv(trace);
  }

  /** Every foreign entry at or below the stored cursor has a record. */
  lemma CursorIsSettled(trace: seq<Step>, n: nat)
    requires Valid(trace) && n in Run(trace).entries && !Run(trace).entries[n] && n <= Run(trace).cursor
    ensures n in Run(trace).records
  {
    RunInv(trace);
  }
}
