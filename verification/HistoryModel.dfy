/**
 * What the history projection promises, without its algorithms: conversations are the connected
 * components of the reply references, and an order of messages is parent-first.
 */
module HistoryModel {
  import opened Prelude
  import opened Messages
  import opened Chains

  /** A held message: the two facts about it that the projection arranges by. */
  datatype Held = Held(ref: MessageRef, inReplyTo: Option<MessageRef>)

  type Edges = set<(MessageRef, MessageRef)>

  /** The reply references among the held messages; the originals need not be held. */
  function EdgesOf(rows: seq<Held>): Edges {
    set row | row in rows && row.inReplyTo.Some? :: (row.ref, row.inReplyTo.value)
  }

  ghost predicate Distinct(rows: seq<Held>) {
    forall i, j | 0 <= i < j < |rows| :: rows[i].ref != rows[j].ref
  }

  function Refs(rows: seq<Held>): set<MessageRef> { set row | row in rows :: row.ref }

  // ---- connection ------------------------------------------------------------------------

  predicate Adjacent(edges: Edges, x: MessageRef, y: MessageRef) { (x, y) in edges || (y, x) in edges }

  ghost predicate Path(edges: Edges, path: seq<MessageRef>) {
    |path| > 0 && forall i | 0 <= i < |path| - 1 :: Adjacent(edges, path[i], path[i + 1])
  }

  ghost predicate PathBetween(edges: Edges, path: seq<MessageRef>, x: MessageRef, y: MessageRef) {
    Path(edges, path) && path[0] == x && path[|path| - 1] == y
  }

  ghost predicate Connected(edges: Edges, x: MessageRef, y: MessageRef) {
    exists path :: PathBetween(edges, path, x, y)
  }

  lemma ConnectedSelf(edges: Edges, x: MessageRef)
    ensures Connected(edges, x, x)
  {
    assert PathBetween(edges, [x], x, x);
  }

  lemma ConnectedEdge(edges: Edges, x: MessageRef, y: MessageRef)
    requires Adjacent(edges, x, y)
    ensures Connected(edges, x, y)
  {
    assert PathBetween(edges, [x, y], x, y);
  }

  lemma ConnectedTrans(edges: Edges, x: MessageRef, y: MessageRef, z: MessageRef)
    requires Connected(edges, x, y) && Connected(edges, y, z)
    ensures Connected(edges, x, z)
  {
    var p :| PathBetween(edges, p, x, y);
    var q :| PathBetween(edges, q, y, z);
    var path := p + q[1..];
    forall i | 0 <= i < |path| - 1 ensures Adjacent(edges, path[i], path[i + 1]) {
      if i >= |p| - 1 { assert path[i] == q[i - |p| + 1] && path[i + 1] == q[i - |p| + 2]; }
    }
    assert PathBetween(edges, path, x, z);
  }

  function Reversed(path: seq<MessageRef>): seq<MessageRef> { seq(|path|, i requires 0 <= i < |path| => path[|path| - 1 - i]) }

  lemma ConnectedSym(edges: Edges, x: MessageRef, y: MessageRef)
    requires Connected(edges, x, y)
    ensures Connected(edges, y, x)
  {
    var p :| PathBetween(edges, p, x, y);
    var q := Reversed(p);
    forall i | 0 <= i < |q| - 1 ensures Adjacent(edges, q[i], q[i + 1]) {
      assert Adjacent(edges, p[|p| - 2 - i], p[|p| - 1 - i]);
    }
    assert PathBetween(edges, q, y, x);
  }

  lemma ConnectedMono(edges: Edges, more: Edges, x: MessageRef, y: MessageRef)
    requires Connected(edges, x, y) && edges <= more
    ensures Connected(more, x, y)
  {
    var p :| PathBetween(edges, p, x, y);
    forall i | 0 <= i < |p| - 1 ensures Adjacent(more, p[i], p[i + 1]) { assert Adjacent(edges, p[i], p[i + 1]); }
    assert PathBetween(more, p, x, y);
  }

  /** Roots that tell apart exactly what the edges do not connect. */
  ghost predicate SeparatedBy(roots: imap<MessageRef, MessageRef>, edges: Edges) {
    && (forall x :: x in roots)
    && (forall x, y :: roots[x] == roots[y] <==> Connected(edges, x, y))
  }

  ghost predicate MovesTree(roots: imap<MessageRef, MessageRef>, after: imap<MessageRef, MessageRef>, left: MessageRef, right: MessageRef) {
    && (forall z :: z in roots && z in after)
    && (forall z :: after[z] == if roots[z] == left then right else roots[z])
  }

  lemma {:induction false} RootAlongPath(after: imap<MessageRef, MessageRef>, edges: Edges, path: seq<MessageRef>)
    requires (forall z :: z in after) && (forall a, b | Adjacent(edges, a, b) :: after[a] == after[b])
    requires Path(edges, path)
    ensures after[path[0]] == after[path[|path| - 1]]
  {
    if |path| > 1 {
      assert Adjacent(edges, path[0], path[1]);
      RootAlongPath(after, edges, path[1..]);
    }
  }

  /** Moving the tree of one end of a new edge under the root of the other keeps roots and connection in step. */
  lemma MergeSeparates(roots: imap<MessageRef, MessageRef>, after: imap<MessageRef, MessageRef>, edges: Edges, x: MessageRef, y: MessageRef)
    requires SeparatedBy(roots, edges) && MovesTree(roots, after, roots[x], roots[y])
    ensures SeparatedBy(after, edges + {(x, y)})
  {
    var more := edges + {(x, y)};
    forall a, b | Adjacent(more, a, b) ensures after[a] == after[b] {
      if Adjacent(edges, a, b) { ConnectedEdge(edges, a, b); }
    }
    forall a, b ensures after[a] == after[b] <==> Connected(more, a, b) {
      if Connected(more, a, b) {
        var path :| PathBetween(more, path, a, b);
        RootAlongPath(after, more, path);
      }
      if after[a] == after[b] { MergedConnected(roots, edges, x, y, a, b); }
    }
  }

  lemma MergedConnected(roots: imap<MessageRef, MessageRef>, edges: Edges, x: MessageRef, y: MessageRef, a: MessageRef, b: MessageRef)
    requires SeparatedBy(roots, edges)
    requires (if roots[a] == roots[x] then roots[y] else roots[a]) == (if roots[b] == roots[x] then roots[y] else roots[b])
    ensures Connected(edges + {(x, y)}, a, b)
  {
    var more := edges + {(x, y)};
    if roots[a] == roots[b] {
      ConnectedMono(edges, more, a, b);
    } else if roots[a] == roots[x] {
      Bridged(edges, x, y, a, b);
    } else {
      Bridged(edges, x, y, b, a);
      ConnectedSym(more, b, a);
    }
  }

  lemma Bridged(edges: Edges, x: MessageRef, y: MessageRef, a: MessageRef, b: MessageRef)
    requires Connected(edges, a, x) && Connected(edges, y, b)
    ensures Connected(edges + {(x, y)}, a, b)
  {
    var more := edges + {(x, y)};
    ConnectedMono(edges, more, a, x);
    ConnectedMono(edges, more, y, b);
    ConnectedEdge(more, x, y);
    ConnectedTrans(more, a, x, y);
    ConnectedTrans(more, a, y, b);
  }

  // ---- parent-first order ------------------------------------------------------------------

  /** The held parents of held messages. */
  function ParentsIn(held: map<MessageRef, Held>): map<MessageRef, MessageRef> {
    map ref | ref in held && held[ref].inReplyTo.Some? && held[ref].inReplyTo.value in held :: held[ref].inReplyTo.value
  }

  ghost predicate Precedes(ordered: seq<Held>, parent: MessageRef, i: nat) {
    exists j :: 0 <= j < i && j < |ordered| && ordered[j].ref == parent
  }

  /** Every message whose chain of parents ends comes after its parent. */
  ghost predicate ParentFirst(ordered: seq<Held>, parents: map<MessageRef, MessageRef>) {
    forall i | 0 <= i < |ordered| && ordered[i].ref in parents && Ends(parents, ordered[i].ref) :: Precedes(ordered, parents[ordered[i].ref], i)
  }

  lemma ParentFirstPush(ordered: seq<Held>, row: Held, parents: map<MessageRef, MessageRef>)
    requires ParentFirst(ordered, parents)
    requires row.ref in parents && Ends(parents, row.ref) ==> parents[row.ref] in Refs(ordered)
    ensures ParentFirst(ordered + [row], parents)
  {
    var longer := ordered + [row];
    forall i | 0 <= i < |longer| && longer[i].ref in parents && Ends(parents, longer[i].ref) ensures Precedes(longer, parents[longer[i].ref], i) {
      if i < |ordered| {
        assert Precedes(ordered, parents[ordered[i].ref], i);
        var j :| 0 <= j < i && j < |ordered| && ordered[j].ref == parents[ordered[i].ref];
        assert longer[j].ref == parents[longer[i].ref];
      } else {
        var held :| held in ordered && held.ref == parents[row.ref];
        var j :| 0 <= j < |ordered| && ordered[j] == held;
        assert longer[j].ref == parents[row.ref];
      }
    }
  }
}
