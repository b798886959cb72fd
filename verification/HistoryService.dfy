/**
 * The history projection as it runs: reply references merged into a forest, held messages
 * grouped by root, and every group arranged parent-first by a recursive visit.
 */
module HistoryService {
  import opened Prelude
  import opened Messages
  import opened Chains
  import opened HistoryModel
  import opened HistoryForest

  function ById(rows: seq<Held>): map<MessageRef, Held>
  {
    if rows == [] then map[] else ById(rows[..|rows| - 1])[rows[|rows| - 1].ref := rows[|rows| - 1]]
  }

  lemma {:induction false} ByIdHolds(rows: seq<Held>)
    requires Distinct(rows)
    ensures ById(rows).Keys == Refs(rows) && forall row | row in rows :: ById(rows)[row.ref] == row
  {
    if rows != [] {
      var before, last := rows[..|rows| - 1], rows[|rows| - 1];
      assert rows == before + [last];
      ByIdHolds(before);
      forall row | row in before ensures row.ref != last.ref { var i :| 0 <= i < |before| && before[i] == row; }
    }
  }

  // ---- one group ---------------------------------------------------------------------------

  class Arrangement {
    const held: map<MessageRef, Held>
    var seen: set<MessageRef>
    var ordered: seq<Held>

    constructor (held: map<MessageRef, Held>)
      ensures this.held == held && seen == {} && ordered == []
    {
      this.held, seen, ordered := held, {}, [];
    }

    /** What is seen is ordered or still on the stack of visits; what is ordered is parent-first. */
    ghost predicate Valid(stack: set<MessageRef>)
      reads this
    {
      && seen == Refs(ordered) + stack && stack !! Refs(ordered) && stack <= held.Keys
      && (forall row | row in ordered :: row.ref in held && held[row.ref] == row)
      && Distinct(ordered) && ParentFirst(ordered, ParentsIn(held))
    }

    /** Visits the held parent first; a message already seen is left alone, so a cycle ends the visit. */
    method Visit(row: Held, ghost stack: set<MessageRef>)
      requires Valid(stack) && row.ref in held && held[row.ref] == row
      requires forall ref | ref in held :: held[ref].ref == ref
      requires forall x | x in stack :: LeadsTo(ParentsIn(held), x, row.ref)
      modifies this
      ensures Valid(stack) && old(seen) + {row.ref} <= seen
      decreases held.Keys - seen
    {
      if row.ref in seen { return; }
      ghost var parents := ParentsIn(held);
      seen := seen + {row.ref};
      if row.inReplyTo.Some? && row.inReplyTo.value in held {
        var parent := held[row.inReplyTo.value];
        forall x | x in stack + {row.ref} ensures LeadsTo(parents, x, parent.ref) { LeadsOn(parents, x, row.ref); }
        Visit(parent, stack + {row.ref});
        if parent.ref in stack + {row.ref} {
          LeadsOn(parents, parent.ref, row.ref);
          CycleNeverEnds(parents, parent.ref);
          EndsWithNext(parents, row.ref);
        }
      }
      ParentFirstPush(ordered, row, parents);
      assert Refs(ordered + [row]) == Refs(ordered) + {row.ref};
      ordered := ordered + [row];
    }
  }

  /** A group in parent-first order, visited in any order of its rows. */
  method Arrange(rows: seq<Held>) returns (ordered: seq<Held>)
    requires Distinct(rows)
    ensures Distinct(ordered) && (forall row :: row in ordered <==> row in rows)
    ensures ParentFirst(ordered, ParentsIn(ById(rows)))
  {
    ByIdHolds(rows);
    var a := new Arrangement(ById(rows));
    for i := 0 to |rows|
      invariant a.Valid({}) && a.held == ById(rows) && fresh(a) && Refs(rows[..i]) <= a.seen
    {
      assert rows[..i + 1] == rows[..i] + [rows[i]];
      a.Visit(rows[i], {});
    }
    assert rows[..|rows|] == rows;
    ordered := a.ordered;
    forall row ensures row in ordered <==> row in rows {
      if row in rows { assert row.ref in Refs(ordered); }
      if row in ordered { assert row.ref in Refs(rows); }
    }
  }

  // ---- the whole projection --------------------------------------------------------------------

  /** The groups of `rows` by the roots of a forest. */
  ghost predicate Grouped(groups: map<MessageRef, seq<Held>>, rows: seq<Held>, roots: imap<MessageRef, MessageRef>)
    requires forall x :: x in roots
  {
    && (forall g | g in groups :: groups[g] != [] && Distinct(groups[g]))
    && (forall row | row in rows :: roots[row.ref] in groups)
    && (forall g, row | g in groups :: row in groups[g] <==> row in rows && roots[row.ref] == g)
  }

  /** What the projection promises about its conversations. */
  ghost predicate Projects(conversations: map<MessageRef, seq<Held>>, rows: seq<Held>) {
    // every held message is in some conversation, once, and nothing else is
    && (forall g | g in conversations :: conversations[g] != [] && Distinct(conversations[g]))
    && (forall row :: row in rows <==> exists g :: g in conversations && row in conversations[g])
    // two messages share one exactly when reply references connect them
    && (forall g, h, a, b | g in conversations && h in conversations && a in conversations[g] && b in conversations[h] ::
          g == h <==> Connected(EdgesOf(rows), a.ref, b.ref))
    // and each is parent-first among all held messages
    && (forall g | g in conversations :: ParentFirst(conversations[g], ParentsIn(ById(rows))))
  }

  lemma GroupPush(groups: map<MessageRef, seq<Held>>, rows: seq<Held>, roots: imap<MessageRef, MessageRef>, row: Held)
    requires (forall x :: x in roots) && Grouped(groups, rows, roots) && Distinct(rows + [row])
    ensures var g := roots[row.ref]; var was := if g in groups then groups[g] else [];
            Grouped(groups[g := was + [row]], rows + [row], roots)
  {
    var g := roots[row.ref];
    var was := if g in groups then groups[g] else [];
    forall other | other in rows ensures other.ref != row.ref { var i :| 0 <= i < |rows| && rows[i] == other; assert (rows + [row])[i] == other && (rows + [row])[|rows|] == row; }
    assert Distinct(was + [row]);
    assert forall other | other in was :: other in rows;
  }

  /** A held parent is in the conversation of its reply, so a group's own parents are all there are. */
  lemma GroupIsClosed(groups: map<MessageRef, seq<Held>>, rows: seq<Held>, roots: imap<MessageRef, MessageRef>, g: MessageRef)
    requires Distinct(rows) && SeparatedBy(roots, EdgesOf(rows)) && Grouped(groups, rows, roots) && g in groups
    ensures var all, own := ParentsIn(ById(rows)), ParentsIn(ById(groups[g]));
      forall row | row in groups[g] :: (row.ref in all <==> row.ref in own)
        && (row.ref in all ==> all[row.ref] == own[row.ref] && all[row.ref] in Refs(groups[g]))
  {
    ByIdHolds(rows);
    ByIdHolds(groups[g]);
    forall row | row in groups[g] && row.inReplyTo.Some? && row.inReplyTo.value in Refs(rows) ensures row.inReplyTo.value in Refs(groups[g]) {
      var parent :| parent in rows && parent.ref == row.inReplyTo.value;
      assert (row.ref, parent.ref) in EdgesOf(rows);
      ConnectedEdge(EdgesOf(rows), row.ref, parent.ref);
      assert parent in groups[g];
    }
  }

  /** Inside a set closed under hops, two chains that agree there end alike. */
  lemma {:induction false} EndsInside(all: map<MessageRef, MessageRef>, own: map<MessageRef, MessageRef>, inside: set<MessageRef>, x: MessageRef, n: nat, to: MessageRef)
    requires forall y | y in inside :: (y in all <==> y in own) && (y in all ==> all[y] == own[y] && all[y] in inside)
    requires x in inside && EndsAt(all, x, n, to)
    ensures EndsAt(own, x, n, to)
    decreases n
  {
    if n > 0 { EndsInside(all, own, inside, all[x], n - 1, to); }
  }

  lemma ParentFirstInAll(groups: map<MessageRef, seq<Held>>, rows: seq<Held>, roots: imap<MessageRef, MessageRef>, g: MessageRef, ordered: seq<Held>)
    requires Distinct(rows) && SeparatedBy(roots, EdgesOf(rows)) && Grouped(groups, rows, roots) && g in groups
    requires (forall row :: row in ordered <==> row in groups[g]) && ParentFirst(ordered, ParentsIn(ById(groups[g])))
    ensures ParentFirst(ordered, ParentsIn(ById(rows)))
  {
    var all, own := ParentsIn(ById(rows)), ParentsIn(ById(groups[g]));
    GroupIsClosed(groups, rows, roots, g);
    forall i | 0 <= i < |ordered| && ordered[i].ref in all && Ends(all, ordered[i].ref) ensures Precedes(ordered, all[ordered[i].ref], i) {
      var n: nat, to :| EndsAt(all, ordered[i].ref, n, to);
      EndsInside(all, own, Refs(groups[g]), ordered[i].ref, n, to);
    }
  }

  method MergeAll(rows: seq<Held>) returns (forest: Forest)
    ensures fresh(forest) && forest.Valid() && SeparatedBy(forest.Roots(), EdgesOf(rows))
  {
    forest := new Forest();
    assert EdgesOf(rows[..0]) == {};
    for i := 0 to |rows|
      invariant forest.Valid() && fresh(forest) && SeparatedBy(forest.Roots(), EdgesOf(rows[..i]))
    {
      assert rows[..i + 1] == rows[..i] + [rows[i]];
      if rows[i].inReplyTo.Some? {
        assert EdgesOf(rows[..i + 1]) == EdgesOf(rows[..i]) + {(rows[i].ref, rows[i].inReplyTo.value)};
        forest.Merge(rows[i].ref, rows[i].inReplyTo.value, EdgesOf(rows[..i]));
      } else {
        assert EdgesOf(rows[..i + 1]) == EdgesOf(rows[..i]);
      }
    }
    assert rows[..|rows|] == rows;
  }

  /** The conversations of the held messages; `sorted` is the display order the visits start from. */
  method Collect(rows: seq<Held>, sorted: seq<Held> -> seq<Held>) returns (conversations: map<MessageRef, seq<Held>>)
    requires Distinct(rows)
    requires forall s :: |sorted(s)| == |s| && multiset(sorted(s)) == multiset(s)
    ensures Projects(conversations, rows)
  {
    var forest := MergeAll(rows);
    ghost var roots := forest.Roots();
    var groups: map<MessageRef, seq<Held>> := map[];
    for i := 0 to |rows|
      invariant forest.Valid() && fresh(forest) && forest.Roots() == roots && Grouped(groups, rows[..i], roots)
    {
      assert rows[..i + 1] == rows[..i] + [rows[i]];
      var g := forest.Find(rows[i].ref);
      GroupPush(groups, rows[..i], roots, rows[i]);
      groups := groups[g := (if g in groups then groups[g] else []) + [rows[i]]];
    }
    assert rows[..|rows|] == rows;
    conversations := ArrangeAll(groups, rows, roots, sorted);
    GroupsProject(groups, conversations, rows, roots);
  }

  ghost predicate Arranged(groups: map<MessageRef, seq<Held>>, conversations: map<MessageRef, seq<Held>>, g: MessageRef, parents: map<MessageRef, MessageRef>)
    requires g in groups && g in conversations
  {
    Distinct(conversations[g]) && (forall row :: row in conversations[g] <==> row in groups[g]) && ParentFirst(conversations[g], parents)
  }

  method ArrangeAll(groups: map<MessageRef, seq<Held>>, ghost rows: seq<Held>, ghost roots: imap<MessageRef, MessageRef>, sorted: seq<Held> -> seq<Held>)
    returns (conversations: map<MessageRef, seq<Held>>)
    requires Distinct(rows) && SeparatedBy(roots, EdgesOf(rows)) && Grouped(groups, rows, roots)
    requires forall s :: |sorted(s)| == |s| && multiset(sorted(s)) == multiset(s)
    ensures conversations.Keys == groups.Keys && forall g | g in groups :: Arranged(groups, conversations, g, ParentsIn(ById(rows)))
  {
    conversations := map[];
    var left := groups.Keys;
    while left != {}
      invariant left <= groups.Keys && conversations.Keys == groups.Keys - left
      invariant forall g | g in conversations :: Arranged(groups, conversations, g, ParentsIn(ById(rows)))
      decreases left
    {
      var g :| g in left;
      SortedGroup(groups[g], sorted(groups[g]));
      var ordered := Arrange(sorted(groups[g]));
      ParentFirstInAll(groups, rows, roots, g, ordered);
      ghost var before := conversations;
      conversations := conversations[g := ordered];
      forall h | h in conversations ensures Arranged(groups, conversations, h, ParentsIn(ById(rows))) {
        if h != g { assert Arranged(groups, before, h, ParentsIn(ById(rows))); }
      }
      left := left - {g};
    }
  }

  /** Sorting keeps the rows, and with them the index by identity. */
  lemma SortedGroup(rows: seq<Held>, sorted: seq<Held>)
    requires Distinct(rows) && |sorted| == |rows| && multiset(sorted) == multiset(rows)
    ensures Distinct(sorted) && (forall row :: row in sorted <==> row in rows) && ById(sorted) == ById(rows)
  {
    forall row ensures row in sorted <==> row in rows {
      assert row in sorted <==> row in multiset(sorted);
      assert row in rows <==> row in multiset(rows);
    }
    PermutationDistinct(rows, sorted);
    ByIdHolds(rows);
    ByIdHolds(sorted);
    forall ref | ref in ById(rows) ensures ref in ById(sorted) && ById(sorted)[ref] == ById(rows)[ref] {
      var row :| row in rows && row.ref == ref;
    }
  }

  lemma PermutationDistinct(rows: seq<Held>, sorted: seq<Held>)
    requires Distinct(rows) && multiset(sorted) == multiset(rows)
    ensures Distinct(sorted)
  {
    forall i, j | 0 <= i < j < |sorted| ensures sorted[i].ref != sorted[j].ref {
      var a, b := sorted[i], sorted[j];
      assert sorted == sorted[..i] + [a] + sorted[i + 1..j] + [b] + sorted[j + 1..];
      if a == b {
        assert multiset(rows)[a] >= 2;
        OccursOnce(rows, a);
      } else {
        assert a in multiset(rows) && b in multiset(rows);
        var x :| 0 <= x < |rows| && rows[x] == a;
        var y :| 0 <= y < |rows| && rows[y] == b;
      }
    }
  }

  lemma {:induction false} OccursOnce(rows: seq<Held>, row: Held)
    requires Distinct(rows)
    ensures multiset(rows)[row] <= 1
  {
    if rows != [] {
      var before, last := rows[..|rows| - 1], rows[|rows| - 1];
      assert rows == before + [last];
      OccursOnce(before, row);
    }
  }

  /** Rearranged, a group still holds exactly the rows of its root. */
  ghost predicate Filed(conversations: map<MessageRef, seq<Held>>, rows: seq<Held>, roots: imap<MessageRef, MessageRef>)
    requires forall x :: x in roots
  {
    && (forall row | row in rows :: roots[row.ref] in conversations)
    && (forall g, row | g in conversations :: row in conversations[g] <==> row in rows && roots[row.ref] == g)
  }

  lemma ArrangedIsFiled(groups: map<MessageRef, seq<Held>>, conversations: map<MessageRef, seq<Held>>, rows: seq<Held>, roots: imap<MessageRef, MessageRef>, parents: map<MessageRef, MessageRef>)
    requires (forall x :: x in roots) && Grouped(groups, rows, roots) && conversations.Keys == groups.Keys
    requires forall g | g in groups :: Arranged(groups, conversations, g, parents)
    ensures Filed(conversations, rows, roots)
    ensures forall g | g in conversations :: conversations[g] != [] && Distinct(conversations[g]) && ParentFirst(conversations[g], parents)
  {
    forall g | g in conversations ensures conversations[g] != [] && Distinct(conversations[g]) && ParentFirst(conversations[g], parents) {
      assert Arranged(groups, conversations, g, parents);
      assert groups[g][0] in conversations[g];
    }
    forall g, row | g in conversations ensures row in conversations[g] <==> row in rows && roots[row.ref] == g {
      assert Arranged(groups, conversations, g, parents);
    }
  }

  lemma FiledHoldsAll(conversations: map<MessageRef, seq<Held>>, rows: seq<Held>, roots: imap<MessageRef, MessageRef>, row: Held)
    requires (forall x :: x in roots) && Filed(conversations, rows, roots)
    ensures row in rows <==> exists g :: g in conversations && row in conversations[g]
  {
    if row in rows { assert row in conversations[roots[row.ref]]; }
  }

  lemma FiledSeparates(conversations: map<MessageRef, seq<Held>>, rows: seq<Held>, roots: imap<MessageRef, MessageRef>, g: MessageRef, h: MessageRef, a: Held, b: Held)
    requires SeparatedBy(roots, EdgesOf(rows)) && Filed(conversations, rows, roots)
    requires g in conversations && h in conversations && a in conversations[g] && b in conversations[h]
    ensures g == h <==> Connected(EdgesOf(rows), a.ref, b.ref)
  {
    assert roots[a.ref] == g && roots[b.ref] == h;
  }

  lemma FiledProjects(conversations: map<MessageRef, seq<Held>>, rows: seq<Held>, roots: imap<MessageRef, MessageRef>)
    requires SeparatedBy(roots, EdgesOf(rows)) && Filed(conversations, rows, roots)
    requires forall g | g in conversations :: conversations[g] != [] && Distinct(conversations[g]) && ParentFirst(conversations[g], ParentsIn(ById(rows)))
    ensures Projects(conversations, rows)
  {
    forall row ensures row in rows <==> exists g :: g in conversations && row in conversations[g] {
      FiledHoldsAll(conversations, rows, roots, row);
    }
    forall g, h, a, b | g in conversations && h in conversations && a in conversations[g] && b in conversations[h]
      ensures g == h <==> Connected(EdgesOf(rows), a.ref, b.ref) {
      FiledSeparates(conversations, rows, roots, g, h, a, b);
    }
  }

  lemma GroupsProject(groups: map<MessageRef, seq<Held>>, conversations: map<MessageRef, seq<Held>>, rows: seq<Held>, roots: imap<MessageRef, MessageRef>)
    requires SeparatedBy(roots, EdgesOf(rows)) && Grouped(groups, rows, roots) && conversations.Keys == groups.Keys
    requires forall g | g in groups :: Arranged(groups, conversations, g, ParentsIn(ById(rows)))
    ensures Projects(conversations, rows)
  {
    ArrangedIsFiled(groups, conversations, rows, roots, ParentsIn(ById(rows)));
    FiledProjects(conversations, rows, roots);
  }
}
