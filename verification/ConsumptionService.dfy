/** The client's consumption records as they run; each method is proved against `ConsumptionModel`. */
module ConsumptionService {
  import opened Prelude
  import opened Messages
  import M = ConsumptionModel
  import opened ConsumptionModel

  /** An order the rows may be scanned in: each of them, once. */
  ghost predicate Scans(order: seq<string>, rows: map<string, Row>) {
    && (forall id | id in rows :: id in order)
    && (forall i | 0 <= i < |order| :: order[i] in rows && order[i] !in order[..i])
  }

  class ConsumptionRecords {
    const host: Host
    var rows: map<string, Row>
    var consumed: set<Where>
    var todos: map<Where, Todo>

    constructor (host: Host)
      ensures this.host == host && Records() == Inbox(map[], {}, map[])
    {
      this.host, rows, consumed, todos := host, map[], {}, map[];
    }

    function Records(): Inbox
      reads this
    {
      Inbox(rows, consumed, todos)
    }

    method Receive(id: string, e: Entry, context: Option<string>)
      modifies this`rows
      ensures Records() == M.Receive(old(Records()), host, id, e, context)
    {
      if Attested(host, NoticeOf(host, e), e.thread.owner, None) && id !in rows {
        rows := rows[id := Row(NoticeOf(host, e), context, false, None, 0)];
      }
    }

    method Reconcile(owner: NodeId, id: string, n: Notice)
      modifies this`rows
      ensures Records() == M.Reconcile(old(Records()), host, owner, id, n)
    {
      if id !in rows {
        if Attested(host, n, owner, None) { rows := rows[id := Row(n, n.planContext, false, None, 0)]; }
        return;
      }
      var previous := rows[id];
      if !Attested(host, n, owner, previous.notice.entry) { return; }
      var notice := if n.entry.Some? then n else n.(entry := previous.notice.entry);
      if notice == previous.notice { return; }
      rows := rows[id := previous.(notice := notice, context := Or(previous.context, n.planContext))];
    }

    method CloseRow(id: string, spot: Spot, context: Option<string>)
      requires id in rows
      modifies this`rows
      ensures rows == old(rows)[id := ConfirmRow(old(rows)[id], spot, context)]
    {
      var row := rows[id];
      if Consumable(row, spot) && !row.injected {
        rows := rows[id := row.(injected := true, context := Or(row.context, context))];
      }
    }

    /** The rows of an entry, in scan order: unsettled ones are closed, and the first named context is kept. */
    method CloseRows(order: seq<string>, spot: Spot, context: Option<string>) returns (original: Option<string>, onlySettled: bool)
      requires Scans(order, rows)
      modifies this`rows
      ensures rows == map id | id in old(rows) :: ConfirmRow(old(rows)[id], spot, context)
      ensures original == Original(old(rows), order, spot) && onlySettled == OnlySettled(old(rows), spot)
    {
      ghost var scanned := rows;
      var survey := Survey(None, false, false);
      ClosedNone(rows, spot, context);
      for i := 0 to |order|
        invariant survey == Surveyed(scanned, order[..i], spot)
        invariant rows == ClosedIn(scanned, Ids(order[..i]), spot, context)
      {
        ScanStep(scanned, order, i, spot);
        ClosedOneMore(scanned, Ids(order[..i]), order[i], spot, context);
        survey := Extended(survey, rows[order[i]], spot);
        CloseRow(order[i], spot, context);
      }
      assert order[..|order|] == order;
      ClosedAll(scanned, order, spot, context);
      SurveyTells(scanned, order, spot);
      return survey.original, survey.settled && !survey.consumable;
    }

    /** One commit: the rows, the shared slot and the todo it owes. */
    method Confirm(order: seq<string>, e: Entry, context: Option<string>) returns (consumedIn: Option<string>)
      requires Scans(order, rows)
      modifies this
      ensures Records() == M.Confirm(old(Records()), host, order, e, context)
      ensures consumedIn.None? <==> OnlySettled(old(rows), SpotOf(e))
      ensures consumedIn.Some? ==> Where(consumedIn.value, SpotOf(e)) in consumed
    {
      var original, onlySettled := CloseRows(order, SpotOf(e), context);
      if onlySettled {
        assert rows == old(rows);
        return None;
      }
      var w := Where(Home(host, context, original), SpotOf(e));
      consumed := consumed + {w};
      if host.takesTodos && w !in todos { todos := todos[w := Todo(e, false)]; }
      return Some(w.context);
    }

    method SettleRow(id: string, settlement: Settlement) returns (changed: bool)
      modifies this`rows
      ensures Records() == Settle(old(Records()), id, settlement)
      ensures changed <==> id in old(rows) && !old(rows)[id].injected
    {
      if id !in rows || rows[id].injected { return false; }
      rows := rows[id := rows[id].(injected := true, settlement := Some(settlement))];
      return true;
    }

    /** The owner side of this node acks or expires the obligation: the local row follows. */
    method OwnerWrite(id: string, acked: bool, stripped: bool)
      modifies this`rows
      ensures Records() == OwnerWrites(old(Records()), id, acked, stripped)
    {
      if id !in rows { return; }
      var n := rows[id].notice;
      if acked { n := n.(acked := true); }
      if stripped { n := n.(entry := None, expired := true); }
      rows := rows[id := rows[id].(notice := n)];
    }

    method FailCheck(id: string)
      modifies this`rows
      ensures Records() == CheckFailed(old(Records()), id)
    {
      if id in rows && !rows[id].injected { rows := rows[id := rows[id].(checks := rows[id].checks + 1)]; }
    }

    /** One attempt to have the host consume an entry, for the copy of its row the caller read; returns where the host was asked to present it. */
    method Consume(order: seq<string>, id: string, e: Entry, row: Row, a: Attempt) returns (asked: Option<Where>)
      requires Scans(order, rows)
      modifies this
      ensures Records() == M.Consume(old(Records()), host, order, id, e, row, a)
      ensures asked == Injects(old(Records()), host, e, row, a)
    {
      asked := None;
      if row.injected { return; }
      match a.check {
        case Closed(settlement) => var _ := SettleRow(id, settlement);
        case Unreadable => FailCheck(id);
        case NotBound =>
          if !a.hasRuntime || a.waiting { return; }
          var requested := Requested(host, row, a);
          if Where(requested, SpotOf(e)) in consumed {
            var _ := Confirm(order, e, Some(requested));
            return;
          }
          asked := Some(Where(requested, SpotOf(e)));
          if a.answer.consumed { var _ := Confirm(order, e, a.answer.context); }
      }
    }

    method FileTodo(w: Where) returns (ran: bool)
      modifies this`todos
      ensures Records() == if ran then TodoDone(old(Records()), w) else old(Records())
      ensures ran <==> w in old(todos) && !old(todos)[w].done
    {
      if w !in todos || todos[w].done { return false; }
      todos := todos[w := todos[w].(done := true)];
      return true;
    }
  }

  /** What a scan has found so far: the first named context, a settled row, an unsettled one. */
  datatype Survey = Survey(original: Option<string>, settled: bool, consumable: bool)

  function Extended(survey: Survey, row: Row, spot: Spot): Survey {
    if !Holds(row, spot) then survey
    else if row.settlement.Some? then survey.(settled := true)
    else survey.(consumable := true, original := Or(survey.original, row.context))
  }

  function Surveyed(rows: map<string, Row>, order: seq<string>, spot: Spot): Survey {
    if order == [] then Survey(None, false, false)
    else
      var before, last := Surveyed(rows, order[..|order| - 1], spot), order[|order| - 1];
      if last in rows then Extended(before, rows[last], spot) else before
  }

  function Ids(order: seq<string>): set<string> { set id | id in order }

  function ClosedIn(rows: map<string, Row>, ids: set<string>, spot: Spot, context: Option<string>): map<string, Row> {
    map id | id in rows :: if id in ids then ConfirmRow(rows[id], spot, context) else rows[id]
  }

  lemma ClosedNone(rows: map<string, Row>, spot: Spot, context: Option<string>)
    ensures ClosedIn(rows, Ids([]), spot, context) == rows
  {}

  lemma ClosedOneMore(rows: map<string, Row>, ids: set<string>, id: string, spot: Spot, context: Option<string>)
    requires id in rows && id !in ids
    ensures ClosedIn(rows, ids, spot, context)[id] == rows[id]
    ensures ClosedIn(rows, ids + {id}, spot, context) == ClosedIn(rows, ids, spot, context)[id := ConfirmRow(rows[id], spot, context)]
  {}

  lemma ClosedAll(rows: map<string, Row>, order: seq<string>, spot: Spot, context: Option<string>)
    requires Scans(order, rows)
    ensures ClosedIn(rows, Ids(order), spot, context) == map id | id in rows :: ConfirmRow(rows[id], spot, context)
  {}

  lemma ScanStep(rows: map<string, Row>, order: seq<string>, i: nat, spot: Spot)
    requires Scans(order, rows) && i < |order|
    ensures var id := order[i];
      && id in rows && id !in Ids(order[..i]) && Ids(order[..i + 1]) == Ids(order[..i]) + {id}
      && Surveyed(rows, order[..i + 1], spot) == Extended(Surveyed(rows, order[..i], spot), rows[id], spot)
  {
    assert order[..i + 1] == order[..i] + [order[i]] && order[..i + 1][..i] == order[..i];
  }

  predicate HeldAt(rows: map<string, Row>, id: string, spot: Spot, settled: bool) {
    id in rows && Holds(rows[id], spot) && rows[id].settlement.Some? == settled
  }

  lemma {:induction false} SurveyFinds(rows: map<string, Row>, order: seq<string>, spot: Spot)
    ensures var survey := Surveyed(rows, order, spot);
      && survey.original == Original(rows, order, spot)
      && (survey.settled <==> Found(rows, order, spot, true))
      && (survey.consumable <==> Found(rows, order, spot, false))
  {
    if order != [] {
      var before, last := order[..|order| - 1], order[|order| - 1];
      SurveyFinds(rows, before, spot);
      assert order == before + [last];
      FoundSnoc(rows, before, last, spot, true);
      FoundSnoc(rows, before, last, spot, false);
      assert order[..|order| - 1] == before;
    }
  }

  ghost predicate Found(rows: map<string, Row>, order: seq<string>, spot: Spot, settled: bool) {
    exists id :: id in order && HeldAt(rows, id, spot, settled)
  }

  lemma FoundSnoc(rows: map<string, Row>, before: seq<string>, last: string, spot: Spot, settled: bool)
    ensures Found(rows, before + [last], spot, settled) <==> Found(rows, before, spot, settled) || HeldAt(rows, last, spot, settled)
  {
    if id :| id in before && HeldAt(rows, id, spot, settled) { assert id in before + [last]; }
    assert last in before + [last];
  }

  lemma SurveyTells(rows: map<string, Row>, order: seq<string>, spot: Spot)
    requires Scans(order, rows)
    ensures var survey := Surveyed(rows, order, spot);
      && survey.original == Original(rows, order, spot)
      && (survey.settled && !survey.consumable <==> OnlySettled(rows, spot))
  {
    SurveyFinds(rows, order, spot);
    forall id | id in rows && Holds(rows[id], spot) ensures HeldAt(rows, id, spot, rows[id].settlement.Some?) {}
  }
}
