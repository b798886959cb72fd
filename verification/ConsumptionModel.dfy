/**
 * The client's inbox rows, confirmed consumptions and owed todos: `receive`, `#store`, `#attest`,
 * `#settleResourceAttention`, `#consume`, `confirmConsumption`, `#oweTodo` and `#deliverTodo` as
 * functions on the records. Obligation ids and contexts are opaque strings.
 */
module ConsumptionModel {
  import opened Prelude
  import opened Messages

  /** An entry's position, which consumption is recorded by. */
  datatype Spot = Spot(thread: ThreadRef, number: nat)
  datatype Where = Where(context: string, spot: Spot)

  function SpotOf(e: Entry): Spot { Spot(e.thread, e.number) }

  /** An obligation as its owner states it; the body may be stripped. */
  datatype Notice = Notice(recipient: NodeId, thread: ThreadRef, number: nat, ref: MessageRef, author: NodeId,
                           entry: Option<Entry>, acked: bool, expired: bool, planContext: Option<string>)

  datatype Settlement = Handover(handler: NodeId) | Undeliverable

  datatype Row = Row(notice: Notice, context: Option<string>, injected: bool, settlement: Option<Settlement>, checks: nat)

  datatype Todo = Todo(entry: Entry, done: bool)

  datatype Inbox = Inbox(rows: map<string, Row>, consumed: set<Where>, todos: map<Where, Todo>)

  /** The node, its default context, and whether its host takes todos. */
  datatype Host = Host(node: NodeId, home: string, takesTodos: bool)

  // ---- rows coming in ----------------------------------------------------------------------

  /** Owner-authenticated evidence: the row and the body it speaks of agree. */
  predicate Attested(host: Host, n: Notice, owner: NodeId, local: Option<Entry>) {
    var entry := Or(n.entry, local);
    && n.recipient == host.node && n.thread.owner == owner
    && (if entry.None? then n.expired
        else
          && entry.value.thread == n.thread && entry.value.number == n.number && entry.value.message.ref == n.ref
          && entry.value.author == n.author && entry.value.message.ref.sender == n.author && |n.author.name| > 0)
  }

  function NoticeOf(host: Host, e: Entry): Notice {
    Notice(host.node, e.thread, e.number, e.message.ref, e.author, Some(e), false, false, None)
  }

  function Receive(s: Inbox, host: Host, id: string, e: Entry, context: Option<string>): Inbox {
    if !Attested(host, NoticeOf(host, e), e.thread.owner, None) || id in s.rows then s
    else s.(rows := s.rows[id := Row(NoticeOf(host, e), context, false, None, 0)])
  }

  function Merged(previous: Option<Row>, n: Notice): Row {
    match previous
    case None => Row(n, n.planContext, false, None, 0)
    case Some(row) => row.(notice := n.(entry := Or(n.entry, row.notice.entry)), context := Or(row.context, n.planContext))
  }

  /** Reconciliation merges an owner's row; a copy already held is never taken back. */
  function Reconcile(s: Inbox, host: Host, owner: NodeId, id: string, n: Notice): Inbox {
    var previous := if id in s.rows then Some(s.rows[id]) else None;
    var merged := Merged(previous, n);
    if !Attested(host, n, owner, if previous.Some? then previous.value.notice.entry else None) then s
    else if previous.Some? && previous.value.notice == merged.notice then s
    else s.(rows := s.rows[id := merged])
  }

  function Acked(s: Inbox, id: string): Inbox {
    if id in s.rows then s.(rows := s.rows[id := s.rows[id].(notice := s.rows[id].notice.(acked := true))]) else s
  }

  /**
   * Where this node owns the thread, its ack and its expiry write the stored obligation over the
   * local one; the stored one may have lost its body.
   */
  function OwnerWrites(s: Inbox, id: string, acked: bool, stripped: bool): Inbox {
    if id !in s.rows then s
    else
      var n := s.rows[id].notice;
      s.(rows := s.rows[id := s.rows[id].(notice := n.(
        acked := n.acked || acked, entry := if stripped then None else n.entry, expired := n.expired || stripped))])
  }

  // ---- rows being closed -------------------------------------------------------------------

  /** A row whose resource moved or vanished is closed without any consumption. */
  function Settle(s: Inbox, id: string, settlement: Settlement): Inbox {
    if id !in s.rows || s.rows[id].injected then s
    else s.(rows := s.rows[id := s.rows[id].(injected := true, settlement := Some(settlement))])
  }

  function CheckFailed(s: Inbox, id: string): Inbox {
    if id !in s.rows || s.rows[id].injected then s
    else s.(rows := s.rows[id := s.rows[id].(checks := s.rows[id].checks + 1)])
  }

  predicate Holds(row: Row, spot: Spot) { row.notice.entry.Some? && SpotOf(row.notice.entry.value) == spot }

  predicate Consumable(row: Row, spot: Spot) { Holds(row, spot) && row.settlement.None? }

  /** What a confirmation makes of one row: settled rows and rows of other entries are left alone. */
  function ConfirmRow(row: Row, spot: Spot, context: Option<string>): Row {
    if Consumable(row, spot) && !row.injected then row.(injected := true, context := Or(row.context, context)) else row
  }

  /** The context of the first consumable row that names one, in the order rows are scanned. */
  function Original(rows: map<string, Row>, order: seq<string>, spot: Spot): Option<string> {
    if order == [] then None
    else
      var last := order[|order| - 1];
      Or(Original(rows, order[..|order| - 1], spot), if last in rows && Consumable(rows[last], spot) then rows[last].context else None)
  }

  predicate OnlySettled(rows: map<string, Row>, spot: Spot) {
    && (exists id | id in rows :: Holds(rows[id], spot))
    && (forall id | id in rows && Holds(rows[id], spot) :: rows[id].settlement.Some?)
  }

  function Home(host: Host, context: Option<string>, original: Option<string>): string {
    Or(context, Or(original, Some(host.home))).value
  }

  function OweTodo(todos: map<Where, Todo>, host: Host, w: Where, e: Entry): map<Where, Todo> {
    if host.takesTodos && w !in todos then todos[w := Todo(e, false)] else todos
  }

  /** The confirmation of an entry: its rows are closed, its slot is written, its todo is owed. */
  function Confirm(s: Inbox, host: Host, order: seq<string>, e: Entry, context: Option<string>): Inbox {
    var spot := SpotOf(e);
    if OnlySettled(s.rows, spot) then s
    else
      var w := Where(Home(host, context, Original(s.rows, order, spot)), spot);
      Inbox(map id | id in s.rows :: ConfirmRow(s.rows[id], spot, context), s.consumed + {w}, OweTodo(s.todos, host, w, e))
  }

  function TodoDone(s: Inbox, w: Where): Inbox {
    if w in s.todos then s.(todos := s.todos[w := s.todos[w].(done := true)]) else s
  }

  // ---- one consumption attempt ---------------------------------------------------------------

  /** What the resource check said, what the host answered. */
  datatype Check = NotBound | Closed(settlement: Settlement) | Unreadable
  datatype Injection = Injection(consumed: bool, context: Option<string>)

  /** The answers one attempt meets: the reply context its outbound record names, a live await, the host. */
  datatype Attempt = Attempt(check: Check, hasRuntime: bool, replyContext: Option<string>, waiting: bool, answer: Injection)

  /** The context an entry is presented in. */
  function Requested(host: Host, row: Row, a: Attempt): string {
    Or(a.replyContext, Or(row.context, Or(row.notice.planContext, Some(host.home)))).value
  }

  /**
   * Whether an attempt hands the entry to the host, and where. The row is the copy the attempt was
   * given: a replay passes the row it scanned, an arrival the row it found stored, however old, with
   * the entry that arrived.
   */
  function Injects(s: Inbox, host: Host, e: Entry, row: Row, a: Attempt): Option<Where> {
    if row.injected || !a.check.NotBound? || !a.hasRuntime || a.waiting then None
    else
      var w := Where(Requested(host, row, a), SpotOf(e));
      if w in s.consumed then None else Some(w)
  }

  /** What the attempt writes is decided by the rows stored now. */
  function Consume(s: Inbox, host: Host, order: seq<string>, id: string, e: Entry, row: Row, a: Attempt): Inbox {
    if row.injected then s
    else
      match a.check
      case Closed(settlement) => Settle(s, id, settlement)
      case Unreadable => CheckFailed(s, id)
      case NotBound =>
        if !a.hasRuntime || a.waiting then s
        else
          var requested := Requested(host, row, a);
          if Where(requested, SpotOf(e)) in s.consumed then Confirm(s, host, order, e, Some(requested))
          else if a.answer.consumed then Confirm(s, host, order, e, a.answer.context)
          else s
  }
}
