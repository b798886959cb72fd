/**
 * Approval agreement: a row that holds the peer's own key and records the peer's approval rests on
 * one statement. The peer had approved this node before it signed it, and signed it for a key this
 * node held when the call that accepted it began.
 */
module TrustApproval {
  import opened Prelude
  import opened NonceCache
  import opened TrustModel
  import opened TrustWorld
  import opened TrustInvariant

  /** `(b, a)`: `b` had a row for `a` with its own approval. */
  type Approvals = iset<(NodeId, NodeId)>

  ghost predicate Approves(s: Store, peer: NodeId) {
    peer in s.trust && s.trust[peer].localApproved
  }

  ghost predicate Knows(h: Approvals, n: Node) {
    forall peer | Approves(n.store, peer) :: (n.id, peer) in h
  }

  /** Every approval this node is about to say was its own approval before. */
  ghost predicate Sincere(n: Node, h: Approvals) {
    && (forall a | a in n.proc.drafts && a.approved :: (n.id, a.peer) in h)
    && (forall a | a in n.proc.answers && a.approved :: (n.id, a.peer) in h)
    && (forall peer | peer in n.proc.redrive.looked && n.proc.redrive.looked[peer].approved :: (n.id, peer) in h)
    && (forall peer | peer in n.proc.redrive.ready && n.proc.redrive.ready[peer].approved :: (n.id, peer) in h)
    && (!n.rotating.Idle? ==> forall peer | peer in n.rotating.peers && n.rotating.peers[peer] :: (n.id, peer) in h)
  }

  ghost predicate AllSincere(w: World, h: Approvals) {
    forall a | a in w.nodes :: w.nodes[a].id == a && Knows(h, w.nodes[a]) && Sincere(w.nodes[a], h)
  }

  /** The approvals any node of a world records. */
  ghost function Recorded(w: World): Approvals {
    iset a, peer | a in w.nodes && Approves(w.nodes[a].store, peer) :: (a, peer)
  }

  // ---- one step ---------------------------------------------------------------------

  lemma SincereInFlight(n: Node, op: Op, facts: set<Fact>, h: Approvals, h': Approvals)
    requires Can(n, op, facts) && Knows(h, n) && Sincere(n, h) && h <= h' && Knows(h', Local(n, op, facts))
    ensures var n' := Local(n, op, facts);
      && (forall a | a in n'.proc.drafts && a.approved :: (n.id, a.peer) in h')
      && (forall a | a in n'.proc.answers && a.approved :: (n.id, a.peer) in h')
  {}

  lemma SincerePass(n: Node, op: Op, facts: set<Fact>, h: Approvals)
    requires Can(n, op, facts) && Knows(h, n) && Sincere(n, h)
    ensures var r := Redriven(n, op, facts);
      && (forall peer | peer in r.looked && r.looked[peer].approved :: (n.id, peer) in h)
      && (forall peer | peer in r.ready && r.ready[peer].approved :: (n.id, peer) in h)
  {}

  lemma SincereRotation(n: Node, op: Op, facts: set<Fact>, h: Approvals)
    requires Can(n, op, facts) && Knows(h, n) && Sincere(n, h)
    ensures var rotating := Rotated(n, op, facts).2;
      !rotating.Idle? ==> forall peer | peer in rotating.peers && rotating.peers[peer] :: (n.id, peer) in h
  {}

  lemma PassIs(n: Node, op: Op, facts: set<Fact>)
    requires Can(n, op, facts)
    ensures Local(n, op, facts).proc.redrive == (if op.DoCrash? then Redrive(map[], map[], map[]) else Redriven(n, op, facts))
    ensures Local(n, op, facts).rotating == Rotated(n, op, facts).2 && Local(n, op, facts).id == n.id
  {}

  lemma SincereStep(n: Node, op: Op, facts: set<Fact>, h: Approvals, h': Approvals)
    requires Can(n, op, facts) && Knows(h, n) && Sincere(n, h) && h <= h' && Knows(h', Local(n, op, facts))
    ensures Sincere(Local(n, op, facts), h')
  {
    SincereInFlight(n, op, facts, h, h');
    SincerePass(n, op, facts, h);
    SincereRotation(n, op, facts, h);
    PassIs(n, op, facts);
  }

  /** An approval is signed only by a node that approved the target before. */
  lemma SignsSincerely(n: Node, op: Op, f: Fact, facts: set<Fact>, h: Approvals)
    requires Can(n, op, facts) && Sincere(n, h) && f in Signs(n, op) && f.p.approved
    ensures (n.id, f.p.target) in h
  {}

  lemma AllSincereStep(w: World, s: Step, h: Approvals)
    requires Enabled(w, s) && AllSincere(w, h)
    ensures AllSincere(Apply(w, s), h + Recorded(Apply(w, s)))
  {
    var w' := Apply(w, s);
    var h' := h + Recorded(w');
    forall a | a in w'.nodes ensures w'.nodes[a].id == a && Knows(h', w'.nodes[a]) && Sincere(w'.nodes[a], h') {
      if s.Act? && s.a == a {
        assert w'.nodes[a] == Local(w.nodes[a], s.op, w.facts);
        SincereStep(w.nodes[a], s.op, w.facts, h, h');
      } else {
        assert w'.nodes[a] == w.nodes[a];
      }
    }
  }

  // ---- whole runs ---------------------------------------------------------------------

  lemma {:induction false} PrefixValid(w: World, trace: seq<Step>, i: nat)
    requires Valid(w, trace) && i <= |trace|
    ensures Valid(w, trace[..i])
    decreases |trace|
  {
    if i == |trace| {
      assert trace[..i] == trace;
    } else {
      PrefixValid(w, trace[..|trace| - 1], i);
      assert trace[..|trace| - 1][..i] == trace[..i];
    }
  }

  /** The world before step `i` of a run. */
  ghost function At(w: World, trace: seq<Step>, i: nat): World
    requires Valid(w, trace) && i <= |trace|
  {
    PrefixValid(w, trace, i);
    Run(w, trace[..i])
  }

  /** Everything any node approved in some world of the run. */
  ghost function Approved(w: World, trace: seq<Step>): Approvals
    requires Valid(w, trace)
    decreases |trace|
  {
    if trace == [] then Recorded(w) else Approved(w, trace[..|trace| - 1]) + Recorded(Run(w, trace))
  }

  lemma {:induction false} RunSincere(w: World, trace: seq<Step>)
    requires Init(w) && Valid(w, trace)
    ensures AllSincere(Run(w, trace), Approved(w, trace))
    decreases |trace|
  {
    if trace != [] {
      RunSincere(w, trace[..|trace| - 1]);
      AllSincereStep(Run(w, trace[..|trace| - 1]), trace[|trace| - 1], Approved(w, trace[..|trace| - 1]));
    }
  }

  /** What is in the history really was approved in some world of the run. */
  lemma {:induction false} ApprovedAt(w: World, trace: seq<Step>, b: NodeId, a: NodeId) returns (i: nat)
    requires Valid(w, trace) && (b, a) in Approved(w, trace)
    ensures i <= |trace| && b in At(w, trace, i).nodes && Approves(At(w, trace, i).nodes[b].store, a)
    decreases |trace|
  {
    i := |trace|;
    assert trace[..i] == trace;
    if trace != [] && (b, a) !in Recorded(Run(w, trace)) {
      var before := trace[..|trace| - 1];
      i := ApprovedAt(w, before, b, a);
      assert before[..i] == trace[..i];
    }
  }

  lemma {:induction false} SameNodes(w: World, trace: seq<Step>)
    requires Valid(w, trace)
    ensures Run(w, trace).nodes.Keys == w.nodes.Keys
    decreases |trace|
  {
    if trace != [] { SameNodes(w, trace[..|trace| - 1]); }
  }

  /** A signature of an honest node's key was made by a step of that node. */
  lemma {:induction false} FactOrigin(w: World, trace: seq<Step>, f: Fact) returns (j: nat)
    requires Init(w) && Valid(w, trace) && f in Run(w, trace).facts && f.signer.owner in w.nodes
    ensures j < |trace| && trace[j].Act? && trace[j].a == f.signer.owner && trace[j].a in At(w, trace, j).nodes
    ensures f in Signs(At(w, trace, j).nodes[trace[j].a], trace[j].op)
    decreases |trace|
  {
    assert trace != [];
    var before, s := trace[..|trace| - 1], trace[|trace| - 1];
    j := |trace| - 1;
    if f in Run(w, before).facts {
      j := FactOrigin(w, before, f);
      assert before[..j] == trace[..j];
    } else {
      SignerIsActor(w, before, s, f);
    }
  }

  lemma SignerIsActor(w: World, before: seq<Step>, s: Step, f: Fact)
    requires Init(w) && Valid(w, before) && Enabled(Run(w, before), s) && f.signer.owner in w.nodes
    requires f in Apply(Run(w, before), s).facts && f !in Run(w, before).facts
    ensures s.Act? && s.a == f.signer.owner && s.a in Run(w, before).nodes && f in Signs(Run(w, before).nodes[s.a], s.op)
  {
    SameNodes(w, before);
    InitInv(w);
    RunInv(w, before);
    if s.Act? { SignsForSelf(Run(w, before).nodes[s.a], s.op, Run(w, before).facts); }
  }

  /** `a` accepts the statement `m`, under the key `own` its call had read. */
  ghost predicate Accepts(s: Step, a: NodeId, own: Key, m: Message) {
    s.Act? && s.a == a && (s.op.DoIntroduce? || s.op.DoAcceptReply?) && s.op.own == own && s.op.m == m
  }

  /** A step that accepts nothing from `b` neither creates its approval nor changes its key. */
  lemma ApprovalStays(n: Node, op: Op, b: NodeId, facts: set<Fact>)
    requires Can(n, op, facts) && RowsInv(n.store) && !Hears(Act(n.id, op), n.id, b)
    requires b in Stored(n, op, facts).trust && Stored(n, op, facts).trust[b].remoteApproved
    ensures b in n.store.trust && n.store.trust[b].remoteApproved && Stored(n, op, facts).trust[b].pk == n.store.trust[b].pk
  {
    if !TouchesRows(op) { KeepsRows(n, op, facts); }
  }

  /** What an accepted statement leaves in the row, and what it took to accept it. */
  lemma AcceptedRow(n: Node, op: Op, facts: set<Fact>)
    requires Can(n, op, facts) && (op.DoIntroduce? || op.DoAcceptReply?)
    ensures var b := op.m.p.node; var s' := Stored(n, op, facts);
      && b in s'.trust && s'.trust[b].pk == Some(op.m.p.pk) && s'.trust[b].remoteApproved == op.m.p.approved
      && op.own in n.proc.seen && op.m.p.targetFp == op.own && op.m.p.target == n.id && Fact(op.m.p.pk, op.m.p) in facts
  {}

  /** The row of `b` says what the last statement accepted from `b` said. */
  ghost predicate LastWord(w: World, trace: seq<Step>, a: NodeId, b: NodeId, k: nat, own: Key, m: Message)
    requires Valid(w, trace)
  {
    && k < |trace| && Accepts(trace[k], a, own, m) && m.p.node == b && m.p.target == a && m.p.targetFp == own
    && (forall l | k < l < |trace| :: !Hears(trace[l], a, b))
    && a in At(w, trace, k).nodes && own in At(w, trace, k).nodes[a].proc.seen && Fact(m.p.pk, m.p) in At(w, trace, k).facts
  }

  lemma LastWordNow(w: World, before: seq<Step>, s: Step, a: NodeId)
    requires Valid(w, before) && Enabled(Run(w, before), s) && s.Act? && s.a == a && (s.op.DoIntroduce? || s.op.DoAcceptReply?)
    requires Run(w, before).nodes[a].id == a
    ensures Valid(w, before + [s]) && LastWord(w, before + [s], a, s.op.m.p.node, |before|, s.op.own, s.op.m)
  {
    var trace := before + [s];
    assert trace[..|before|] == before;
    AcceptedRow(Run(w, before).nodes[a], s.op, Run(w, before).facts);
  }

  lemma LastWordStays(w: World, before: seq<Step>, s: Step, a: NodeId, b: NodeId, k: nat, own: Key, m: Message)
    requires Valid(w, before) && Enabled(Run(w, before), s) && !Hears(s, a, b) && LastWord(w, before, a, b, k, own, m)
    ensures Valid(w, before + [s]) && LastWord(w, before + [s], a, b, k, own, m)
  {
    var trace := before + [s];
    assert trace[..|before|] == before && trace[..k] == before[..k];
  }

  lemma RowStays(w: World, s: Step, a: NodeId, b: NodeId)
    requires Inv(w) && Enabled(w, s) && !Hears(s, a, b) && a in w.nodes
    requires b in Apply(w, s).nodes[a].store.trust && Apply(w, s).nodes[a].store.trust[b].remoteApproved
    ensures var row := w.nodes[a].store.trust; b in row && row[b].remoteApproved && row[b].pk == Apply(w, s).nodes[a].store.trust[b].pk
  {
    if s.Act? && s.a == a { ApprovalStays(w.nodes[a], s.op, b, w.facts); }
  }

  lemma RowNow(w: World, s: Step, a: NodeId, b: NodeId)
    requires Enabled(w, s) && Hears(s, a, b)
    ensures var row := Apply(w, s).nodes[a].store.trust; b in row && row[b].remoteApproved == s.op.m.p.approved && row[b].pk == Some(s.op.m.p.pk)
  {
    AcceptedRow(w.nodes[a], s.op, w.facts);
  }

  lemma {:induction false} RowOrigin(w: World, trace: seq<Step>, a: NodeId, b: NodeId) returns (k: nat, own: Key, m: Message)
    requires Init(w) && Valid(w, trace) && a in Run(w, trace).nodes && b in Run(w, trace).nodes[a].store.trust
    requires Run(w, trace).nodes[a].store.trust[b].remoteApproved
    ensures LastWord(w, trace, a, b, k, own, m) && m.p.approved && Run(w, trace).nodes[a].store.trust[b].pk == Some(m.p.pk)
    decreases |trace|
  {
    var before, s := trace[..|trace| - 1], trace[|trace| - 1];
    assert before + [s] == trace;
    InitInv(w);
    RunInv(w, before);
    if Hears(s, a, b) {
      RowNow(Run(w, before), s, a, b);
      LastWordNow(w, before, s, a);
      k, own, m := |before|, s.op.own, s.op.m;
    } else {
      RowStays(Run(w, before), s, a, b);
      k, own, m := RowOrigin(w, before, a, b);
      LastWordStays(w, before, s, a, b, k, own, m);
    }
  }

  /** A key a call works with was the node's key at the step that read it. */
  lemma {:induction false} ReadOrigin(w: World, trace: seq<Step>, a: NodeId, own: Key) returns (r: nat)
    requires Init(w) && Valid(w, trace) && a in Run(w, trace).nodes && own in Run(w, trace).nodes[a].proc.seen
    ensures r < |trace| && trace[r] == Act(a, DoReadKey) && a in At(w, trace, r).nodes && At(w, trace, r).nodes[a].key == own
    decreases |trace|
  {
    assert trace != [];
    var before, s := trace[..|trace| - 1], trace[|trace| - 1];
    var n := Run(w, before).nodes[a];
    r := |before|;
    assert At(w, trace, |before|) == Run(w, before);
    if own in n.proc.seen {
      r := ReadOrigin(w, before, a, own);
      assert before[..r] == trace[..r];
    } else {
      ReadsKey(n, s, a, Run(w, before), own);
    }
  }

  lemma ReadsKey(n: Node, s: Step, a: NodeId, w: World, own: Key)
    requires Enabled(w, s) && a in w.nodes && w.nodes[a] == n && own !in n.proc.seen && own in Apply(w, s).nodes[a].proc.seen
    ensures s == Act(a, DoReadKey) && own == n.key
  {}

  /** One statement with everything it rests on: approval, signature, the key it was written for, acceptance. */
  ghost predicate Grounded(w: World, trace: seq<Step>, a: NodeId, b: NodeId, i: nat, j: nat, r: nat, k: nat, m: Message)
    requires Valid(w, trace)
  {
    && i <= j < k < |trace| && r < k
    // b had approved a
    && b in At(w, trace, i).nodes && Approves(At(w, trace, i).nodes[b].store, a)
    // then b signed the approval with the key it names
    && trace[j].Act? && trace[j].a == b && b in At(w, trace, j).nodes && Fact(m.p.pk, m.p) in Signs(At(w, trace, j).nodes[b], trace[j].op)
    // for the key a held when its call read it
    && trace[r] == Act(a, DoReadKey) && a in At(w, trace, r).nodes && At(w, trace, r).nodes[a].key == m.p.targetFp
    // and a accepted it, and nothing of b after it
    && Accepts(trace[k], a, m.p.targetFp, m) && (forall l | k < l < |trace| :: !Hears(trace[l], a, b))
    && m.p.node == b && m.p.target == a && m.p.approved
  }

  /** The row `a` holds for `b`: the key `pk`, with `b`'s approval. */
  ghost predicate Holds(w: World, trace: seq<Step>, a: NodeId, b: NodeId, pk: Key)
    requires Valid(w, trace)
  {
    var n := Run(w, trace).nodes;
    a in n && b in n[a].store.trust && n[a].store.trust[b].remoteApproved && n[a].store.trust[b].pk == Some(pk)
  }

  /**
   * Approval agreement.  In every run from the initial world, if `a`'s row for `b` holds a key `b`
   * generated and records `b`'s approval, then the last statement `a` accepted from `b` is signed
   * by that key, by a step of `b` after `b` had approved `a`, and was written for the key `a` held
   * when the accepting call began.
   */
  lemma ApprovalAgreement(w: World, trace: seq<Step>, a: NodeId, b: NodeId, pk: Key)
    requires Init(w) && Valid(w, trace) && b in w.nodes && Holds(w, trace, a, b, pk) && pk.owner == b
    ensures exists i, j, r, k, m :: Grounded(w, trace, a, b, i, j, r, k, m) && m.p.pk == pk
  {
    var k, own, m := RowOrigin(w, trace, a, b);
    var r := ReadBefore(w, trace, k, a, own);
    var j := SignedBefore(w, trace, k, Fact(m.p.pk, m.p));
    var i := ApprovedBefore(w, trace, j, Fact(m.p.pk, m.p));
    assert Grounded(w, trace, a, b, i, j, r, k, m);
  }

  lemma ReadBefore(w: World, trace: seq<Step>, k: nat, a: NodeId, own: Key) returns (r: nat)
    requires Init(w) && Valid(w, trace) && k <= |trace| && a in At(w, trace, k).nodes && own in At(w, trace, k).nodes[a].proc.seen
    ensures r < k && trace[r] == Act(a, DoReadKey) && a in At(w, trace, r).nodes && At(w, trace, r).nodes[a].key == own
  {
    PrefixValid(w, trace, k);
    r := ReadOrigin(w, trace[..k], a, own);
    assert trace[..k][..r] == trace[..r];
  }

  lemma SignedBefore(w: World, trace: seq<Step>, k: nat, f: Fact) returns (j: nat)
    requires Init(w) && Valid(w, trace) && k <= |trace| && f in At(w, trace, k).facts && f.signer.owner in w.nodes
    ensures j < k && trace[j].Act? && trace[j].a == f.signer.owner && trace[j].a in At(w, trace, j).nodes
    ensures f in Signs(At(w, trace, j).nodes[trace[j].a], trace[j].op)
  {
    PrefixValid(w, trace, k);
    j := FactOrigin(w, trace[..k], f);
    assert trace[..k][..j] == trace[..j];
  }

  lemma ApprovedBefore(w: World, trace: seq<Step>, j: nat, f: Fact) returns (i: nat)
    requires Init(w) && Valid(w, trace) && j < |trace| && trace[j].Act? && trace[j].a in At(w, trace, j).nodes
    requires f in Signs(At(w, trace, j).nodes[trace[j].a], trace[j].op) && f.p.approved
    ensures i <= j && trace[j].a in At(w, trace, i).nodes && Approves(At(w, trace, i).nodes[trace[j].a].store, f.p.target)
  {
    PrefixValid(w, trace, j);
    var signed, b := trace[..j], trace[j].a;
    RunSincere(w, signed);
    SignedEnabled(w, trace, j);
    SignsSincerely(Run(w, signed).nodes[b], trace[j].op, f, Run(w, signed).facts, Approved(w, signed));
    i := ApprovedAt(w, signed, b, f.p.target);
    assert signed[..i] == trace[..i];
  }

  lemma SignedEnabled(w: World, trace: seq<Step>, j: nat)
    requires Valid(w, trace) && j < |trace|
    ensures Enabled(At(w, trace, j), trace[j])
  {
    PrefixValid(w, trace, j + 1);
    assert trace[..j + 1][..j] == trace[..j];
  }

  /** A node's own approval begins only with its own request, or with a statement of a pinned seed. */
  lemma ApprovalOrigin(n: Node, op: Op, peer: NodeId, facts: set<Fact>)
    requires Can(n, op, facts) && !Approves(n.store, peer) && Approves(Stored(n, op, facts), peer)
    ensures (op.DoRequest? && op.peer == peer) || ((op.DoIntroduce? || op.DoAcceptReply?) && op.m.p.node == peer && peer in n.seeds)
  {}
}
