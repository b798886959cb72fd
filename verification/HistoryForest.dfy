/**
 * The union-find behind the history projection: parent links with path compression. Two messages
 * have one root exactly when the references merged so far connect them.
 */
module HistoryForest {
  import opened Prelude
  import opened Messages
  import opened HistoryModel

  type Links = map<MessageRef, MessageRef>

  /** When each message was linked: a link always leads to a root or to a later-linked message. */
  ghost predicate Timed(links: Links, times: map<MessageRef, nat>, clock: nat) {
    && times.Keys == links.Keys
    && (forall x | x in links :: times[x] < clock)
    && (forall x | x in links && links[x] in links :: times[x] < times[links[x]])
  }

  ghost function RootOf(links: Links, times: map<MessageRef, nat>, clock: nat, x: MessageRef): MessageRef
    requires Timed(links, times, clock)
    decreases if x in links then clock - times[x] else 0
  {
    if x in links then RootOf(links, times, clock, links[x]) else x
  }

  lemma {:induction false} RootIsRoot(links: Links, times: map<MessageRef, nat>, clock: nat, x: MessageRef)
    requires Timed(links, times, clock)
    ensures RootOf(links, times, clock, x) !in links
    decreases if x in links then clock - times[x] else 0
  {
    if x in links { RootIsRoot(links, times, clock, links[x]); }
  }

  /** Linking a message straight to its root changes nobody's root. */
  lemma {:induction false} CompressionKeepsRoots(links: Links, times: map<MessageRef, nat>, clock: nat, x: MessageRef, y: MessageRef)
    requires Timed(links, times, clock) && x in links
    ensures var shorter := links[x := RootOf(links, times, clock, x)];
      Timed(shorter, times, clock) && RootOf(shorter, times, clock, y) == RootOf(links, times, clock, y)
    decreases if y in links then clock - times[y] else 0
  {
    RootIsRoot(links, times, clock, x);
    if y in links && y != x { CompressionKeepsRoots(links, times, clock, x, links[y]); }
  }

  /** Linking one root under another moves exactly its own tree. */
  lemma {:induction false} LinkMovesOneTree(links: Links, times: map<MessageRef, nat>, clock: nat, left: MessageRef, right: MessageRef, y: MessageRef)
    requires Timed(links, times, clock) && left !in links && right !in links && left != right
    ensures var linked, times' := links[left := right], times[left := clock];
      && Timed(linked, times', clock + 1)
      && RootOf(linked, times', clock + 1, y) == (if RootOf(links, times, clock, y) == left then right else RootOf(links, times, clock, y))
    decreases if y in links then clock - times[y] else 0
  {
    if y in links { LinkMovesOneTree(links, times, clock, left, right, links[y]); }
  }

  ghost function RootMap(links: Links, times: map<MessageRef, nat>, clock: nat): imap<MessageRef, MessageRef>
    requires Timed(links, times, clock)
  {
    imap x: MessageRef :: RootOf(links, times, clock, x)
  }

  lemma Compressed(links: Links, times: map<MessageRef, nat>, clock: nat, x: MessageRef)
    requires Timed(links, times, clock) && x in links
    ensures RootOf(links, times, clock, x) !in links
    ensures var shorter := links[x := RootOf(links, times, clock, x)];
      Timed(shorter, times, clock) && RootMap(shorter, times, clock) == RootMap(links, times, clock)
  {
    RootIsRoot(links, times, clock, x);
    var shorter := links[x := RootOf(links, times, clock, x)];
    forall y ensures Timed(shorter, times, clock) && RootOf(shorter, times, clock, y) == RootOf(links, times, clock, y) {
      CompressionKeepsRoots(links, times, clock, x, y);
    }
  }

  lemma Linked(links: Links, times: map<MessageRef, nat>, clock: nat, left: MessageRef, right: MessageRef)
    requires Timed(links, times, clock) && left !in links && right !in links && left != right
    ensures var linked, times' := links[left := right], times[left := clock];
      Timed(linked, times', clock + 1) && MovesTree(RootMap(links, times, clock), RootMap(linked, times', clock + 1), left, right)
  {
    var linked, times' := links[left := right], times[left := clock];
    forall y ensures Timed(linked, times', clock + 1) && RootOf(linked, times', clock + 1, y)
                     == (if RootOf(links, times, clock, y) == left then right else RootOf(links, times, clock, y)) {
      LinkMovesOneTree(links, times, clock, left, right, y);
    }
  }

  class Forest {
    var links: Links
    ghost var times: map<MessageRef, nat>
    ghost var clock: nat

    ghost predicate Valid()
      reads this
    {
      Timed(links, times, clock)
    }

    ghost function Roots(): imap<MessageRef, MessageRef>
      requires Valid()
      reads this
    {
      RootMap(links, times, clock)
    }

    constructor ()
      ensures Valid() && SeparatedBy(Roots(), {})
    {
      links, times, clock := map[], map[], 0;
      new;
      forall x, y ensures Roots()[x] == Roots()[y] <==> Connected({}, x, y) {
        ConnectedSelf({}, x);
        if Connected({}, x, y) {
          var path :| PathBetween({}, path, x, y);
          assert |path| > 1 ==> Adjacent({}, path[0], path[1]);
        }
      }
    }

    /** The root of a message; every message on the way is linked straight to it. */
    method Find(x: MessageRef) returns (root: MessageRef)
      requires Valid()
      modifies this`links
      ensures Valid() && links.Keys == old(links.Keys)
      ensures Roots() == old(Roots()) && root == Roots()[x] && root !in links
      decreases if x in links then clock - times[x] else 0
    {
      if x !in links { return x; }
      root := Find(links[x]);
      assert old(Roots())[x] == old(Roots()[links[x]]);
      assert RootOf(links, times, clock, x) == Roots()[x];
      Compressed(links, times, clock, x);
      links := links[x := root];
    }

    /** One reply reference merges the trees of its two ends. */
    method Merge(x: MessageRef, y: MessageRef, ghost edges: Edges)
      requires Valid() && SeparatedBy(Roots(), edges)
      modifies this
      ensures Valid() && SeparatedBy(Roots(), edges + {(x, y)})
    {
      ghost var roots := Roots();
      var left := Find(x);
      var right := Find(y);
      if left != right {
        Linked(links, times, clock, left, right);
        links, times, clock := links[left := right], times[left := clock], clock + 1;
      }
      MergeSeparates(roots, Roots(), edges, x, y);
    }
  }
}
