/**
 * Rendering a thread to a chat platform (`ThreadRenderer`), one storage write or platform call at
 * a time, so that the process may die between any two of them.
 */
module RenderModel {
  import opened Prelude

  datatype Mark = Rendering | Rendered

  /** An entry of the thread; the gateway's own entries never travel back. */
  datatype Item = Item(number: nat, own: bool)

  /** How a send ended: taken, refused by the platform with an error, or without any answer. */
  datatype Outcome = Taken | Refused | Unanswered

  datatype Sending = Sending(number: nat, outcome: Outcome)

  /** Where the running pass is; `page[0]` is the entry at hand. */
  datatype Pass =
    | Idle
    | Walking(after: nat, page: seq<Item>)
    | Marked(after: nat, page: seq<Item>)
    | Sent(after: nat, page: seq<Item>, outcome: Outcome)
    | Settled(after: nat, page: seq<Item>)

  /** The thread's entries and next number, the stored cursor and records, the pass, and all sends so far. */
  datatype State = State(entries: map<nat, bool>, next: nat, cursor: nat, records: map<nat, Mark>, pass: Pass, log: seq<Sending>)

  datatype Step =
    | Post(own: bool)
    | Expire(before: nat)
    | Crash
    | List(page: seq<Item>)
    | Look
    | Send(outcome: Outcome)
    | Record
    | Advance
    | Finish

  /** A listing: ascending entries after a number, none left out up to the last one listed. */
  ghost predicate Lists(entries: map<nat, bool>, after: nat, page: seq<Item>) {
    && (forall i | 0 <= i < |page| :: page[i].number in entries && entries[page[i].number] == page[i].own && page[i].number > after)
    && (forall i, j | 0 <= i < j < |page| :: page[i].number < page[j].number)
    && Covers(entries, after, page)
  }

  ghost predicate Covers(entries: map<nat, bool>, after: nat, page: seq<Item>) {
    page != [] ==> forall n | n in entries && after < n <= page[|page| - 1].number :: exists i :: 0 <= i < |page| && page[i].number == n
  }

  ghost predicate Enabled(s: State, step: Step) {
    match step
    case Post(_) => true
    case Expire(_) => true
    case Crash => true
    case List(page) => page != [] && ((s.pass.Idle? && Lists(s.entries, s.cursor, page)) || (s.pass.Walking? && s.pass.page == [] && Lists(s.entries, s.pass.after, page)))
    case Look => s.pass.Walking? && s.pass.page != []
    case Send(_) => s.pass.Marked?
    case Record => s.pass.Sent?
    case Advance => s.pass.Settled?
    case Finish => s.pass.Walking? && s.pass.page == []
  }

  /** A taken send is recorded, a refused one forgotten so that the next pass retries it, an unanswered one left marked. */
  function AfterSend(s: State, n: nat, outcome: Outcome): State
    requires s.pass.Sent?
  {
    match outcome
    case Taken => s.(records := s.records[n := Rendered], pass := Settled(s.pass.after, s.pass.page))
    case Unanswered => s.(pass := Settled(s.pass.after, s.pass.page))
    case Refused => s.(records := s.records - {n}, pass := Idle)
  }

  function Next(s: State, step: Step): State {
    match step
    case Post(own) => s.(entries := s.entries[s.next := own], next := s.next + 1)
    case Expire(before) => s.(entries := map n | n in s.entries && n >= before :: s.entries[n])
    case Crash => s.(pass := Idle)
    case List(page) => s.(pass := Walking(if s.pass.Walking? then s.pass.after else s.cursor, page))
    case Look =>
      if !s.pass.Walking? || s.pass.page == [] then s
      else
        var item := s.pass.page[0];
        if item.own || item.number in s.records then s.(pass := Settled(s.pass.after, s.pass.page))
        else s.(records := s.records[item.number := Rendering], pass := Marked(s.pass.after, s.pass.page))
    case Send(outcome) =>
      if !s.pass.Marked? || s.pass.page == [] then s
      else s.(pass := Sent(s.pass.after, s.pass.page, outcome), log := s.log + [Sending(s.pass.page[0].number, outcome)])
    case Record => if !s.pass.Sent? || s.pass.page == [] then s else AfterSend(s, s.pass.page[0].number, s.pass.outcome)
    case Advance =>
      if !s.pass.Settled? || s.pass.page == [] then s
      else s.(cursor := s.pass.page[0].number, pass := Walking(s.pass.page[0].number, s.pass.page[1..]))
    case Finish => s.(pass := Idle)
  }

  const START := State(map[], 1, 0, map[], Idle, [])

  ghost predicate Valid(trace: seq<Step>)
    decreases |trace|, 0
  {
    trace != [] ==> Valid(trace[..|trace| - 1]) && Enabled(Run(trace[..|trace| - 1]), trace[|trace| - 1])
  }

  ghost function Run(trace: seq<Step>): State
    requires Valid(trace)
    decreases |trace|, 1
  {
    if trace == [] then START else Next(Run(trace[..|trace| - 1]), trace[|trace| - 1])
  }
}
