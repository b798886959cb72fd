/** `ThreadRenderer` as it runs: one page of a pass is proved to be steps of the render machine. */
module RenderService {
  import opened Prelude
  import opened RenderModel
  import R = RenderRuns

  /** The steps one entry takes, up to the moved cursor or the refusal that ends the pass. */
  function EntrySteps(s: State, outcome: Outcome): State {
    var looked := Next(s, Look);
    var settled := if looked.pass.Settled? then looked else Next(Next(looked, Send(outcome)), Record);
    if settled.pass.Settled? then Next(settled, Advance) else settled
  }

  /** The steps of a page, entry by entry. */
  function PageSteps(s: State, outcomes: seq<Outcome>): State {
    if outcomes == [] then s
    else
      var before := PageSteps(s, outcomes[..|outcomes| - 1]);
      if before.pass.Walking? && before.pass.page != [] then EntrySteps(before, outcomes[|outcomes| - 1]) else before
  }

  /** They are steps the machine allows, so a page keeps its invariant. */
  lemma EntryKeepsInv(s: State, outcome: Outcome)
    requires R.Inv(s) && s.pass.Walking? && s.pass.page != []
    ensures R.Inv(EntrySteps(s, outcome))
  {
    Stepped(s, Look);
    var looked := Next(s, Look);
    if looked.pass.Settled? {
      Stepped(looked, Advance);
    } else {
      Stepped(looked, Send(outcome));
      var sent := Next(looked, Send(outcome));
      Stepped(sent, Record);
      var settled := Next(sent, Record);
      if settled.pass.Settled? { Stepped(settled, Advance); }
    }
  }

  lemma Stepped(s: State, step: Step)
    requires R.Inv(s) && Enabled(s, step)
    ensures R.Inv(Next(s, step))
  {
    R.StepPass(s, step);
    R.StepRecorded(s, step);
    R.StepLog(s, step);
  }

  lemma {:induction false} PageKeepsInv(s: State, outcomes: seq<Outcome>)
    requires R.Inv(s)
    ensures R.Inv(PageSteps(s, outcomes))
  {
    if outcomes != [] {
      PageKeepsInv(s, outcomes[..|outcomes| - 1]);
      var before := PageSteps(s, outcomes[..|outcomes| - 1]);
      if before.pass.Walking? && before.pass.page != [] { EntryKeepsInv(before, outcomes[|outcomes| - 1]); }
    }
  }

  class ThreadRenderer {
    var cursor: nat
    var records: map<nat, Mark>
    ghost var log: seq<Sending>

    constructor ()
      ensures cursor == 0 && records == map[] && log == []
    {
      cursor, records, log := 0, map[], [];
    }

    /** The machine state this object is in, within a given thread and pass. */
    ghost function At(s: State, pass: Pass): State
      reads this
    {
      s.(cursor := cursor, records := records, pass := pass, log := log)
    }

    /** Sends one entry unless it is the gateway's own or has a record; false ends the pass. */
    method RenderEntry(item: Item, outcome: Outcome) returns (settled: bool)
      modifies this`records, this`log
      ensures item.own || item.number in old(records) ==> settled && records == old(records) && log == old(log)
      ensures !item.own && item.number !in old(records) ==>
        && settled == (outcome != Refused) && log == old(log) + [Sending(item.number, outcome)]
        && records == match outcome
             case Taken => old(records)[item.number := Rendered]
             case Unanswered => old(records)[item.number := Rendering]
             case Refused => old(records)[item.number := Rendering] - {item.number}
    {
      if item.own || item.number in records { return true; }
      records := records[item.number := Rendering];
      log := log + [Sending(item.number, outcome)];
      match outcome
      case Unanswered => return true;
      case Refused => records := records - {item.number}; return false;
      case Taken => records := records[item.number := Rendered]; return true;
    }

    /** One entry and the cursor after it. */
    method RenderNext(page: seq<Item>, outcome: Outcome, ghost s: State) returns (settled: bool)
      requires page != [] && s == At(s, Walking(cursor, page))
      modifies this
      ensures settled <==> EntrySteps(s, outcome).pass.Walking?
      ensures EntrySteps(s, outcome) == At(s, if settled then Walking(cursor, page[1..]) else Idle)
      ensures settled ==> cursor == page[0].number
    {
      settled := RenderEntry(page[0], outcome);
      if settled { cursor := page[0].number; }
    }

    /** One page of a pass: every entry rendered in turn and the cursor stored after each, up to a refusal. */
    method RenderPage(page: seq<Item>, outcomes: seq<Outcome>, ghost s: State) returns (finished: bool)
      requires |outcomes| == |page| && page != [] && s == At(s, Walking(cursor, page)) && R.Inv(s)
      modifies this
      ensures var after := PageSteps(s, outcomes); after == At(s, after.pass) && R.Inv(after)
      ensures finished <==> PageSteps(s, outcomes).pass.Walking?
      ensures finished ==> cursor == page[|page| - 1].number
    {
      PageKeepsInv(s, outcomes);
      for i := 0 to |page|
        invariant PageSteps(s, outcomes[..i]) == At(s, Walking(cursor, page[i..]))
        invariant i > 0 ==> cursor == page[i - 1].number
      {
        ghost var before := PageSteps(s, outcomes[..i]);
        OneMoreEntry(s, outcomes, i);
        var settled := RenderNext(page[i..], outcomes[i], before);
        if !settled {
          RefusedStays(s, outcomes, i + 1);
          return false;
        }
        assert page[i..][1..] == page[i + 1..];
      }
      assert outcomes[..|page|] == outcomes;
      return true;
    }
  }

  lemma OneMoreEntry(s: State, outcomes: seq<Outcome>, i: nat)
    requires i < |outcomes|
    ensures var before := PageSteps(s, outcomes[..i]);
      before.pass.Walking? && before.pass.page != [] ==> PageSteps(s, outcomes[..i + 1]) == EntrySteps(before, outcomes[i])
  {
    assert outcomes[..i + 1][..i] == outcomes[..i];
  }

  /** A pass that ended takes no further entry. */
  lemma {:induction false} RefusedStays(s: State, outcomes: seq<Outcome>, i: nat)
    requires i <= |outcomes| && !PageSteps(s, outcomes[..i]).pass.Walking?
    ensures PageSteps(s, outcomes) == PageSteps(s, outcomes[..i])
  {
    if i == |outcomes| {
      assert outcomes[..i] == outcomes;
    } else {
      var shorter := outcomes[..|outcomes| - 1];
      assert shorter[..i] == outcomes[..i];
      RefusedStays(s, shorter, i);
    }
  }
}
