/** Consumption over whole runs of arrivals, reconciliations, attempts, confirmations and todos. */
module ConsumptionRuns {
  import opened Prelude
  import opened Messages
  import opened ConsumptionModel

  datatype Step =
    | Receives(id: string, entry: Entry, context: Option<string>)
    | Reconciles(owner: NodeId, id: string, notice: Notice)
    | Acks(id: string)
    | Owns(id: string, acked: bool, stripped: bool)
    | Consumes(order: seq<string>, id: string, entry: Entry, row: Row, attempt: Attempt)
    | Confirms(order: seq<string>, entry: Entry, context: Option<string>)
    | FilesTodo(w: Where)

  function Next(s: Inbox, host: Host, step: Step): Inbox {
    match step
    case Receives(id, e, context) => Receive(s, host, id, e, context)
    case Reconciles(owner, id, notice) => Reconcile(s, host, owner, id, notice)
    case Acks(id) => Acked(s, id)
    case Owns(id, acked, stripped) => OwnerWrites(s, id, acked, stripped)
    case Consumes(order, id, e, row, attempt) => Consume(s, host, order, id, e, row, attempt)
    case Confirms(order, e, context) => Confirm(s, host, order, e, context)
    case FilesTodo(w) => TodoDone(s, w)
  }

  /** The context a step presents an entry in, if it presents one. */
  function InjectedBy(s: Inbox, host: Host, step: Step): Option<Where> {
    if step.Consumes? then Injects(s, host, step.entry, step.row, step.attempt) else None
  }

  function Run(host: Host, trace: seq<Step>): Inbox {
    if trace == [] then Inbox(map[], {}, map[]) else Next(Run(host, trace[..|trace| - 1]), host, trace[|trace| - 1])
  }

  // ---- rows ----------------------------------------------------------------------------------

  /** A settled row is closed, and only an expired row has no body. */
  predicate RowOk(row: Row) { (row.settlement.Some? ==> row.injected) && (row.notice.entry.None? ==> row.notice.expired) }

  /** What may become of a row: once closed it stays closed in the same way, and a named context stays. */
  predicate Advances(before: Row, after: Row) {
    && (before.injected ==> after.injected && after.settlement == before.settlement)
    && (before.context.Some? ==> after.context == before.context)
  }

  ghost predicate RowsAdvance(before: map<string, Row>, after: map<string, Row>) {
    && (forall id | id in before :: id in after && Advances(before[id], after[id]))
    && (forall id | id in after :: RowOk(after[id]))
  }

  ghost predicate RowsOk(rows: map<string, Row>) { forall id | id in rows :: RowOk(rows[id]) }

  lemma ConfirmAdvances(s: Inbox, host: Host, order: seq<string>, e: Entry, context: Option<string>)
    requires RowsOk(s.rows)
    ensures RowsAdvance(s.rows, Confirm(s, host, order, e, context).rows)
  {}

  lemma PutAdvances(rows: map<string, Row>, id: string, row: Row)
    requires RowsOk(rows) && RowOk(row) && (id in rows ==> Advances(rows[id], row))
    ensures RowsAdvance(rows, rows[id := row])
  {}

  lemma ConsumeAdvances(s: Inbox, host: Host, order: seq<string>, id: string, e: Entry, row: Row, a: Attempt)
    requires RowsOk(s.rows)
    ensures RowsAdvance(s.rows, Consume(s, host, order, id, e, row, a).rows)
  {}

  lemma StepAdvances(s: Inbox, host: Host, step: Step)
    requires RowsOk(s.rows)
    ensures RowsAdvance(s.rows, Next(s, host, step).rows)
  {
    match step
    case Consumes(order, id, e, row, a) => ConsumeAdvances(s, host, order, id, e, row, a);
    case Confirms(order, e, context) => ConfirmAdvances(s, host, order, e, context);
    case Receives(id, e, context) => if id !in s.rows { PutAdvances(s.rows, id, Row(NoticeOf(host, e), context, false, None, 0)); }
    case Reconciles(owner, id, n) =>
      var merged := Merged(if id in s.rows then Some(s.rows[id]) else None, n);
      if RowOk(merged) { PutAdvances(s.rows, id, merged); }
    case Owns(id, acked, stripped) => if id in s.rows { PutAdvances(s.rows, id, OwnerWrites(s, id, acked, stripped).rows[id]); }
    case Acks(id) => if id in s.rows { PutAdvances(s.rows, id, s.rows[id].(notice := s.rows[id].notice.(acked := true))); }
    case FilesTodo(w) =>
  }

  lemma {:induction false} RunRowsOk(host: Host, trace: seq<Step>)
    ensures RowsOk(Run(host, trace).rows)
  {
    if trace != [] {
      RunRowsOk(host, trace[..|trace| - 1]);
      StepAdvances(Run(host, trace[..|trace| - 1]), host, trace[|trace| - 1]);
    }
  }

  /** A closed row never reopens, and is closed by consumption or by settlement, never first one and then the other. */
  lemma {:induction false} RowsOnlyClose(host: Host, trace: seq<Step>, more: seq<Step>, id: string)
    requires id in Run(host, trace).rows
    ensures id in Run(host, trace + more).rows && RowOk(Run(host, trace + more).rows[id])
    ensures Advances(Run(host, trace).rows[id], Run(host, trace + more).rows[id])
  {
    RunRowsOk(host, trace);
    if more == [] {
      assert trace + more == trace;
    } else {
      var rest := more[..|more| - 1];
      assert (trace + more)[..|trace + more| - 1] == trace + rest;
      RowsOnlyClose(host, trace, rest, id);
      RunRowsOk(host, trace + rest);
      StepAdvances(Run(host, trace + rest), host, more[|more| - 1]);
    }
  }

  /** An owner's row never takes back a body this node holds: only this node's own expiry does. */
  lemma BodiesStay(s: Inbox, host: Host, step: Step, id: string)
    requires id in s.rows && s.rows[id].notice.entry.Some? && Next(s, host, step).rows[id].notice.entry.None?
    ensures step.Owns? && step.id == id && step.stripped
  {}

  /** The step that closes a row either settles it, or confirms its entry somewhere in the same commit. */
  lemma ClosingIsRecorded(s: Inbox, host: Host, step: Step, id: string)
    requires RowsOk(s.rows) && id in s.rows && !s.rows[id].injected && Next(s, host, step).rows[id].injected
    ensures var s' := Next(s, host, step); var row := s'.rows[id];
      if row.settlement.Some? then s'.consumed == s.consumed
      else row.notice.entry.Some? && exists w :: w in s'.consumed && w.spot == SpotOf(row.notice.entry.value)
  {}

  /** A scanned row that may be consumed and names a context. */
  predicate Names(rows: map<string, Row>, id: string, spot: Spot) { id in rows && Consumable(rows[id], spot) && rows[id].context.Some? }

  /** The landing context of an entry is that of the first scanned row that names one, and none if no row does. */
  lemma {:induction false} OriginalIsFirst(rows: map<string, Row>, order: seq<string>, spot: Spot)
    ensures Original(rows, order, spot).None? <==> forall i | 0 <= i < |order| :: !Names(rows, order[i], spot)
    ensures Original(rows, order, spot).Some? ==>
      exists i :: 0 <= i < |order| && Names(rows, order[i], spot) && rows[order[i]].context == Original(rows, order, spot)
        && forall j | 0 <= j < i :: !Names(rows, order[j], spot)
  {
    if order != [] {
      var before, n := order[..|order| - 1], |order| - 1;
      OriginalIsFirst(rows, before, spot);
      assert forall j | 0 <= j < n :: before[j] == order[j];
      if Original(rows, before, spot).Some? {
        var i :| 0 <= i < n && Names(rows, before[i], spot) && rows[before[i]].context == Original(rows, before, spot)
          && forall j | 0 <= j < i :: !Names(rows, before[j], spot);
        assert Names(rows, order[i], spot) && forall j | 0 <= j < i :: !Names(rows, order[j], spot);
      } else if Names(rows, order[n], spot) {
        assert forall j | 0 <= j < n :: !Names(rows, order[j], spot);
      }
    }
  }

  // ---- confirmations and todos ------------------------------------------------------------------

  /** A todo per confirmation, at its entry; a host that takes none is owed none. */
  ghost predicate TodosOk(s: Inbox, host: Host) {
    && (host.takesTodos ==> s.todos.Keys == s.consumed)
    && (!host.takesTodos ==> s.todos == map[])
    && (forall w | w in s.todos :: SpotOf(s.todos[w].entry) == w.spot)
  }

  ghost predicate TodosAdvance(before: map<Where, Todo>, after: map<Where, Todo>) {
    forall w | w in before :: w in after && after[w].entry == before[w].entry && (before[w].done ==> after[w].done)
  }

  lemma ConfirmTodos(s: Inbox, host: Host, order: seq<string>, e: Entry, context: Option<string>)
    requires TodosOk(s, host)
    ensures var s' := Confirm(s, host, order, e, context);
      TodosOk(s', host) && s.consumed <= s'.consumed && TodosAdvance(s.todos, s'.todos)
  {}

  /** Whatever does not confirm or file leaves confirmations and todos alone. */
  lemma OthersKeepTodos(s: Inbox, host: Host, step: Step)
    requires !step.Consumes? && !step.Confirms? && !step.FilesTodo?
    ensures Next(s, host, step).consumed == s.consumed && Next(s, host, step).todos == s.todos
  {}

  /** An attempt writes only its row, or confirms the entry in some context. */
  lemma ConsumeWrites(s: Inbox, host: Host, order: seq<string>, id: string, e: Entry, row: Row, a: Attempt) returns (context: Option<string>)
    ensures var s' := Consume(s, host, order, id, e, row, a);
      s' == Confirm(s, host, order, e, context) || (s'.consumed == s.consumed && s'.todos == s.todos)
  {
    var requested := Requested(host, row, a);
    context := if Where(requested, SpotOf(e)) in s.consumed then Some(requested) else a.answer.context;
  }

  lemma ConsumeTodos(s: Inbox, host: Host, order: seq<string>, id: string, e: Entry, row: Row, a: Attempt)
    requires TodosOk(s, host)
    ensures var s' := Consume(s, host, order, id, e, row, a);
      TodosOk(s', host) && s.consumed <= s'.consumed && TodosAdvance(s.todos, s'.todos)
  {
    var context := ConsumeWrites(s, host, order, id, e, row, a);
    ConfirmTodos(s, host, order, e, context);
  }

  lemma StepTodos(s: Inbox, host: Host, step: Step)
    requires TodosOk(s, host)
    ensures TodosOk(Next(s, host, step), host)
    ensures s.consumed <= Next(s, host, step).consumed && TodosAdvance(s.todos, Next(s, host, step).todos)
  {
    match step
    case Consumes(order, id, e, row, a) => ConsumeTodos(s, host, order, id, e, row, a);
    case Confirms(order, e, context) => ConfirmTodos(s, host, order, e, context);
    case FilesTodo(w) =>
    case _ => OthersKeepTodos(s, host, step);
  }

  lemma {:induction false} RunTodos(host: Host, trace: seq<Step>)
    ensures TodosOk(Run(host, trace), host)
  {
    if trace != [] {
      RunTodos(host, trace[..|trace| - 1]);
      StepTodos(Run(host, trace[..|trace| - 1]), host, trace[|trace| - 1]);
    }
  }

  /** A confirmed slot stays confirmed, keeps its one todo, and a todo once filed stays filed. */
  lemma {:induction false} ConfirmedForEver(host: Host, trace: seq<Step>, more: seq<Step>, w: Where)
    requires w in Run(host, trace).consumed
    ensures var s, s' := Run(host, trace), Run(host, trace + more);
      && w in s'.consumed
      && (host.takesTodos ==> w in s.todos && w in s'.todos && s'.todos[w].entry == s.todos[w].entry && (s.todos[w].done ==> s'.todos[w].done))
  {
    RunTodos(host, trace);
    if more == [] {
      assert trace + more == trace;
    } else {
      var rest := more[..|more| - 1];
      assert (trace + more)[..|trace + more| - 1] == trace + rest;
      ConfirmedForEver(host, trace, rest, w);
      RunTodos(host, trace + rest);
      StepTodos(Run(host, trace + rest), host, more[|more| - 1]);
    }
  }

  /** Once an entry is confirmed in a context, no later step presents it there again. */
  lemma NotPresentedAgain(host: Host, trace: seq<Step>, more: seq<Step>, step: Step, w: Where)
    requires w in Run(host, trace).consumed
    ensures InjectedBy(Run(host, trace + more), host, step) != Some(w)
  {
    ConfirmedForEver(host, trace, more, w);
  }

  /** Where the host really presents an entry: it may answer with a context other than the one asked for. */
  function PresentedBy(s: Inbox, host: Host, step: Step): Option<Where> {
    var asked := InjectedBy(s, host, step);
    if asked.None? then None
    else if step.attempt.answer.context.None? then asked
    else Some(Where(step.attempt.answer.context.value, asked.value.spot))
  }

  /** The attempt of a step, met by another answer of the host. */
  function Answered(step: Step, answer: Injection): Step
    requires step.Consumes?
  {
    step.(attempt := step.attempt.(answer := answer))
  }

  /**
   * Before the host is asked, the records tell whether its answer can show an entry where it was
   * confirmed: exactly when the entry is confirmed in some context other than the one asked for.
   */
  lemma RepeatsExactlyWhereConfirmed(host: Host, trace: seq<Step>, step: Step)
    requires InjectedBy(Run(host, trace), host, step).Some?
    ensures var s := Run(host, trace); var asked := InjectedBy(s, host, step).value;
      (exists answer :: ShownConfirmed(s, host, Answered(step, answer))) <==> exists c :: c != asked.context && Where(c, asked.spot) in s.consumed
  {
    var s := Run(host, trace);
    var asked := InjectedBy(s, host, step).value;
    forall answer ensures InjectedBy(s, host, Answered(step, answer)) == Some(asked) {}
    if c :| c != asked.context && Where(c, asked.spot) in s.consumed {
      assert ShownConfirmed(s, host, Answered(step, Injection(true, Some(c))));
    }
    if answer :| ShownConfirmed(s, host, Answered(step, answer)) {
      var shown := PresentedBy(s, host, Answered(step, answer)).value;
      assert shown != asked && Where(shown.context, asked.spot) in s.consumed;
    }
  }

  /** The step shows an entry where it was confirmed before. */
  ghost predicate ShownConfirmed(s: Inbox, host: Host, step: Step) {
    PresentedBy(s, host, step).Some? && PresentedBy(s, host, step).value in s.consumed
  }

  /** Such a run exists: confirmed in "b" before its row arrives, asked for in "a", answered from "b". */
  lemma RedirectionRepeats(host: Host, e: Entry)
    requires Attested(host, NoticeOf(host, e), e.thread.owner, None)
    ensures var trace := [Confirms([], e, Some("b")), Receives("o", e, Some("a"))];
      "o" in Run(host, trace).rows && var step := Consumes([], "o", e, Run(host, trace).rows["o"], Attempt(NotBound, true, None, false, Injection(true, Some("b"))));
      PresentedBy(Run(host, trace), host, step) == Some(Where("b", SpotOf(e))) && Where("b", SpotOf(e)) in Run(host, trace).consumed
  {
    var first, second := Confirms([], e, Some("b")), Receives("o", e, Some("a"));
    assert [first, second][..1] == [first] && [first][..0] == [];
    var s := Run(host, [first]);
    assert s == Next(Run(host, []), host, first);
    assert s.consumed == {Where("b", SpotOf(e))} && s.rows == map[];
    assert Run(host, [first, second]) == Receive(s, host, "o", e, Some("a"));
    assert "a" != "b";
  }
}
