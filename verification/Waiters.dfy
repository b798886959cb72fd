/**
 * Live awaits (`AwaitedReplies`): one waiter per call, a newer caller of the same message chained
 * in front of the older ones. A waiter may only resolve with a reply to its own original by the
 * author its record expects.
 */
module Waiters {
  import opened Prelude
  import opened Messages

  /** The only entries a waiter may resolve with. */
  predicate Answers(original: MessageRef, author: NodeId, e: Entry) {
    author == e.author && IsReply(original, e)
  }

  // ---- one chain, as values: when is it safe? ----------------------------------------------------

  datatype Waiting = Waiting(author: NodeId, outcome: Option<Entry>)

  function Resolved(w: Waiting, e: Entry): Waiting { if w.outcome.None? then w.(outcome := Some(e)) else w }

  /** Settling a chain: the newest waiter is asked, and all of them resolve. */
  function SettleChain(original: MessageRef, chain: seq<Waiting>, e: Entry): seq<Waiting> {
    if chain != [] && Answers(original, chain[|chain| - 1].author, e)
    then seq(|chain|, i requires 0 <= i < |chain| => Resolved(chain[i], e)) else chain
  }

  ghost predicate Legitimate(original: MessageRef, chain: seq<Waiting>) {
    forall i | 0 <= i < |chain| && chain[i].outcome.Some? :: Answers(original, chain[i].author, chain[i].outcome.value)
  }

  /** The newest waiter's author is the author every older open waiter expects, or can never answer at all. */
  ghost predicate OneAuthor(original: MessageRef, chain: seq<Waiting>) {
    forall i | 0 <= i < |chain| && chain[i].outcome.None? ::
      chain[i].author == chain[|chain| - 1].author || chain[|chain| - 1].author == original.sender
  }

  function AnyReply(original: MessageRef, author: NodeId): Entry {
    Entry(ThreadRef(author, ""), 0, Message(MessageRef(author, ""), "", None, Some(original), None, []), author, author, 0)
  }

  /** A chain is safe against every entry exactly when its waiters expect one author. */
  lemma SafeExactlyWithOneAuthor(original: MessageRef, chain: seq<Waiting>)
    requires Legitimate(original, chain)
    ensures (forall e :: Legitimate(original, SettleChain(original, chain, e))) <==> OneAuthor(original, chain)
  {
    if chain != [] {
      var newest := chain[|chain| - 1].author;
      var e := AnyReply(original, newest);
      if newest != original.sender && (forall x :: Legitimate(original, SettleChain(original, chain, x))) {
        var after := SettleChain(original, chain, e);
        assert Legitimate(original, after);
        forall i | 0 <= i < |chain| && chain[i].outcome.None? ensures chain[i].author == newest {
          assert after[i] == Resolved(chain[i], e);
        }
      }
      if OneAuthor(original, chain) {
        forall x ensures Legitimate(original, SettleChain(original, chain, x)) {
          var after := SettleChain(original, chain, x);
          if Answers(original, newest, x) {
            forall i | 0 <= i < |after| && after[i].outcome.Some? ensures Answers(original, after[i].author, after[i].outcome.value) {
              assert after[i] == Resolved(chain[i], x);
            }
          }
        }
      }
    }
  }

  // ---- the registry --------------------------------------------------------------------------------

  class Waiter {
    const original: MessageRef
    const author: NodeId
    const previous: Waiter?
    ghost const age: nat
    var outcome: Option<Entry>

    constructor (original: MessageRef, author: NodeId, previous: Waiter?, ghost age: nat)
      ensures this.original == original && this.author == author && this.previous == previous && this.age == age && outcome == None
    {
      this.original, this.author, this.previous, this.age, outcome := original, author, previous, age, None;
    }

    /** Behind a waiter stand older ones of the same message. */
    ghost predicate Linked()
      decreases age
    {
      previous != null ==> previous.age < age && previous.original == original && previous.Linked()
    }

    /** This waiter and every older one behind it. */
    ghost function Chain(): set<Waiter>
      requires Linked()
      decreases age
    {
      {this} + if previous == null then {} else previous.Chain()
    }

    ghost predicate Legit()
      reads this
    {
      outcome.Some? ==> Answers(original, author, outcome.value)
    }

    /** Resolves the older callers first; a waiter that already resolved keeps its answer. */
    method Settle(e: Entry, ghost all: set<Waiter>)
      requires Linked() && Chain() <= all
      modifies Chain()
      ensures forall w | w in all && w in Chain() :: w.outcome == if old(w.outcome).None? then Some(e) else old(w.outcome)
      decreases age
    {
      if previous != null {
        ChainIsOlder(previous);
        previous.Settle(e, all);
      }
      if outcome.None? { outcome := Some(e); }
    }
  }

  lemma {:induction false} ChainIsOlder(w: Waiter)
    requires w.Linked()
    ensures w in w.Chain() && forall x | x in w.Chain() :: x.Linked() && x.age <= w.age && x.original == w.original && x.Chain() <= w.Chain()
    decreases w.age
  {
    if w.previous != null { ChainIsOlder(w.previous); }
  }

  /** Where every waiter expects the author the one before it expected, a chain has one author. */
  lemma {:induction false} ChainHasOneAuthor(w: Waiter)
    requires w.Linked() && forall x | x in w.Chain() && x.previous != null :: x.previous.author == x.author
    ensures forall x | x in w.Chain() :: x.author == w.author
    decreases w.age
  {
    ChainIsOlder(w);
    if w.previous != null { ChainHasOneAuthor(w.previous); }
  }

  /** The slots among `refs` whose newest waiter the entry answers. */
  function Answering(waiters: map<MessageRef, Waiter>, refs: set<MessageRef>, e: Entry): set<MessageRef> {
    set ref | ref in refs && ref in waiters && Answers(ref, waiters[ref].author, e)
  }

  /** A waiter that the entry reaches: on the chain of a slot whose newest waiter it answers. */
  ghost predicate Reached(waiters: map<MessageRef, Waiter>, w: Waiter, e: Entry) {
    w.original in waiters && waiters[w.original].Linked() && w in waiters[w.original].Chain() && Answers(w.original, waiters[w.original].author, e)
  }

  class AwaitedReplies {
    var waiters: map<MessageRef, Waiter>
    ghost var all: set<Waiter>

    /** Every waiter there ever was stands in front of older ones of its message. */
    ghost predicate Valid()
      reads this
    {
      && (forall w | w in all :: w.Linked() && w.Chain() <= all)
      && (forall ref | ref in waiters :: waiters[ref] in all && waiters[ref].original == ref)
    }

    ghost predicate OneAuthorEach()
      reads this
    {
      forall w | w in all && w.previous != null :: w.previous.author == w.author
    }

    ghost predicate AllLegit()
      reads this, all
    {
      forall w | w in all :: w.Legit()
    }

    constructor ()
      ensures waiters == map[] && all == {} && Valid() && OneAuthorEach() && AllLegit()
    {
      waiters, all := map[], {};
    }

    /** Registers a caller in front of the one already waiting for the same message. */
    method Register(original: MessageRef, author: NodeId) returns (waiter: Waiter)
      requires Valid()
      modifies this
      ensures Valid() && fresh(waiter) && all == old(all) + {waiter} && waiters == old(waiters)[original := waiter]
      ensures waiter.original == original && waiter.author == author && waiter.outcome == None
      ensures waiter.previous == if original in old(waiters) then old(waiters)[original] else null
      ensures old(OneAuthorEach()) && (original in old(waiters) ==> old(waiters)[original].author == author) ==> OneAuthorEach()
      ensures old(AllLegit()) ==> AllLegit()
    {
      var previous: Waiter? := if original in waiters then waiters[original] else null;
      waiter := new Waiter(original, author, previous, if previous != null then previous.age + 1 else 0);
      waiters, all := waiters[original := waiter], all + {waiter};
    }

    /** A caller that leaves gives up its slot, unless a newer caller has taken it. */
    method Release(waiter: Waiter)
      requires Valid()
      modifies this`waiters
      ensures Valid()
      ensures waiters == if waiter.original in old(waiters) && old(waiters)[waiter.original] == waiter then old(waiters) - {waiter.original} else old(waiters)
    {
      if waiter.original in waiters && waiters[waiter.original] == waiter { waiters := waiters - {waiter.original}; }
    }

    /**
     * Releases every live await the entry answers: exactly the waiters it reaches resolve, with
     * this entry unless they had resolved before. Legitimate answers stay legitimate where each
     * chain expects one author.
     */
    method Settle(e: Entry) returns (settled: nat)
      requires Valid()
      modifies all
      ensures Valid() && all == old(all) && waiters == old(waiters)
      ensures forall w | w in all :: w.outcome == if Reached(waiters, w, e) && old(w.outcome).None? then Some(e) else old(w.outcome)
      ensures OneAuthorEach() && old(AllLegit()) ==> AllLegit()
      ensures settled == |Answering(waiters, waiters.Keys, e)|
    {
      var answered := SettleSlots(e);
      settled := |answered|;
      if OneAuthorEach() {
        forall w | w in all && Reached(waiters, w, e) ensures w.author == waiters[w.original].author { ChainHasOneAuthor(waiters[w.original]); }
      }
    }

    /** Slot after slot; the answered ones are returned. */
    method SettleSlots(e: Entry) returns (answered: set<MessageRef>)
      requires Valid()
      modifies all
      ensures Valid() && all == old(all) && waiters == old(waiters) && answered == Answering(waiters, waiters.Keys, e)
      ensures forall w | w in all :: w.outcome == if Reached(waiters, w, e) && old(w.outcome).None? then Some(e) else old(w.outcome)
    {
      var left := waiters.Keys;
      answered := {};
      while left != {}
        invariant left <= waiters.Keys && answered == Answering(waiters, waiters.Keys - left, e)
        invariant forall w | w in all :: w.outcome == if w.original !in left && Reached(waiters, w, e) && old(w.outcome).None? then Some(e) else old(w.outcome)
        decreases left
      {
        var ref :| ref in left;
        var found := SettleSlot(ref, e);
        left := left - {ref};
        if found { answered := answered + {ref}; }
      }
      assert waiters.Keys - {} == waiters.Keys;
    }

    /** One slot: its chain resolves if the entry answers it, and no waiter of another message changes. */
    method SettleSlot(ref: MessageRef, e: Entry) returns (found: bool)
      requires Valid() && ref in waiters
      modifies all
      ensures found == Answers(ref, waiters[ref].author, e)
      ensures forall w | w in all && w.original == ref :: w.outcome == if Reached(waiters, w, e) && old(w.outcome).None? then Some(e) else old(w.outcome)
      ensures forall w | w in all && w.original != ref :: w.outcome == old(w.outcome)
    {
      ChainIsOlder(waiters[ref]);
      found := Answers(ref, waiters[ref].author, e);
      if found { waiters[ref].Settle(e, all); }
    }
  }
}
