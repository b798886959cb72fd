/** Chains of messages, each leading to at most one next message: where they end and when they never do. */
module Chains {
  import opened Prelude
  import opened Messages

  /** `n` hops lead from one message to another. */
  ghost predicate Reaches(next: map<MessageRef, MessageRef>, from: MessageRef, n: nat, to: MessageRef)
    decreases n
  {
    if n == 0 then from == to else from in next && Reaches(next, next[from], n - 1, to)
  }

  /** The chain from `from` stops after `n` hops at `to`. */
  ghost predicate EndsAt(next: map<MessageRef, MessageRef>, from: MessageRef, n: nat, to: MessageRef) {
    Reaches(next, from, n, to) && to !in next
  }

  ghost predicate Ends(next: map<MessageRef, MessageRef>, from: MessageRef) {
    exists n: nat, to :: EndsAt(next, from, n, to)
  }

  ghost predicate LeadsTo(next: map<MessageRef, MessageRef>, from: MessageRef, to: MessageRef) {
    exists n: nat :: n > 0 && Reaches(next, from, n, to)
  }

  lemma {:induction false} ReachesOn(next: map<MessageRef, MessageRef>, from: MessageRef, n: nat, to: MessageRef)
    requires Reaches(next, from, n, to) && to in next
    ensures Reaches(next, from, n + 1, next[to])
    decreases n
  {
    if n > 0 { ReachesOn(next, next[from], n - 1, to); }
  }

  lemma LeadsOn(next: map<MessageRef, MessageRef>, from: MessageRef, to: MessageRef)
    requires (from == to || LeadsTo(next, from, to)) && to in next
    ensures LeadsTo(next, from, next[to])
  {
    var n: nat :| Reaches(next, from, n, to) by { assert from == to ==> Reaches(next, from, 0, to); }
    ReachesOn(next, from, n, to);
  }

  /** Hops are deterministic: whatever is reached lies on the one chain. */
  lemma {:induction false} ReachesRest(next: map<MessageRef, MessageRef>, from: MessageRef, m: nat, mid: MessageRef, n: nat, to: MessageRef)
    requires Reaches(next, from, m, mid) && Reaches(next, from, n, to)
    ensures m <= n ==> Reaches(next, mid, n - m, to)
    ensures n < m ==> to in next
    decreases n
  {
    if m > 0 && n > 0 { ReachesRest(next, next[from], m - 1, mid, n - 1, to); }
  }

  lemma {:induction false} CycleGoesOn(next: map<MessageRef, MessageRef>, ref: MessageRef, m: nat, n: nat, to: MessageRef)
    requires m > 0 && Reaches(next, ref, m, ref) && Reaches(next, ref, n, to)
    ensures to in next
    decreases n
  {
    ReachesRest(next, ref, m, ref, n, to);
    if m <= n { CycleGoesOn(next, ref, m, n - m, to); }
  }

  /** A chain that returns to where it started has no end. */
  lemma CycleNeverEnds(next: map<MessageRef, MessageRef>, ref: MessageRef)
    requires LeadsTo(next, ref, ref)
    ensures !Ends(next, ref)
  {
    var m: nat :| m > 0 && Reaches(next, ref, m, ref);
    forall n: nat, to | Reaches(next, ref, n, to) ensures to in next { CycleGoesOn(next, ref, m, n, to); }
  }

  /** A chain and the chain from its next message end together, in the same place. */
  lemma EndsWithNext(next: map<MessageRef, MessageRef>, ref: MessageRef)
    requires ref in next
    ensures Ends(next, ref) <==> Ends(next, next[ref])
    ensures forall n: nat, to | EndsAt(next, ref, n, to) :: n > 0 && EndsAt(next, next[ref], n - 1, to)
  {
    forall n: nat, to | EndsAt(next, next[ref], n, to) ensures EndsAt(next, ref, n + 1, to) {}
    forall n: nat, to | EndsAt(next, ref, n, to) ensures n > 0 && EndsAt(next, next[ref], n - 1, to) {}
  }
}
