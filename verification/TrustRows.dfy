/** The life of one trust row: what restores a revoked row, over whole runs. */
module TrustRows {
  import opened Prelude
  import opened TrustModel
  import opened TrustWorld
  import opened TrustInvariant

  predicate Requests(s: Step, a: NodeId, b: NodeId) {
    s.Act? && s.a == a && s.op.DoRequest? && s.op.peer == b
  }

  ghost predicate Requested(trace: seq<Step>, a: NodeId, b: NodeId) {
    exists i | 0 <= i < |trace| :: Requests(trace[i], a, b)
  }

  ghost predicate RequestedThenHeard(trace: seq<Step>, a: NodeId, b: NodeId) {
    exists i, j | 0 <= i < j < |trace| :: Requests(trace[i], a, b) && Hears(trace[j], a, b)
  }

  /** Unrequested, a revoked row stays revoked; unheard, it records no approval of the peer. */
  ghost predicate RowSince(s: Store, trace: seq<Step>, a: NodeId, b: NodeId) {
    && b in s.trust
    && (Requested(trace, a, b) || s.trust[b].stage.Revoked?)
    && (RequestedThenHeard(trace, a, b) || !s.trust[b].remoteApproved)
  }

  lemma RowStep(n: Node, op: Op, b: NodeId, facts: set<Fact>)
    requires Can(n, op, facts) && b in n.store.trust && RowInv(n.store.trust[b])
    ensures var s' := Stored(n, op, facts);
      && b in s'.trust
      && (n.store.trust[b].stage.Revoked? ==> s'.trust[b].stage.Revoked? || Requests(Act(n.id, op), n.id, b))
      && (n.store.trust[b].stage.Revoked? ==> !Hears(Act(n.id, op), n.id, b))
      && (s'.trust[b].remoteApproved ==> n.store.trust[b].remoteApproved || Hears(Act(n.id, op), n.id, b))
  {
    if !TouchesRows(op) { KeepsRows(n, op, facts); }
  }

  lemma SnocRequested(trace: seq<Step>, s: Step, a: NodeId, b: NodeId)
    ensures Requested(trace, a, b) || Requests(s, a, b) ==> Requested(trace + [s], a, b)
    ensures RequestedThenHeard(trace, a, b) ==> RequestedThenHeard(trace + [s], a, b)
    ensures Requested(trace, a, b) && Hears(s, a, b) ==> RequestedThenHeard(trace + [s], a, b)
  {
    var t := trace + [s];
    assert t[|trace|] == s;
    if i :| 0 <= i < |trace| && Requests(trace[i], a, b) { assert Requests(t[i], a, b); }
    if i, j :| 0 <= i < j < |trace| && Requests(trace[i], a, b) && Hears(trace[j], a, b) {
      assert Requests(t[i], a, b) && Hears(t[j], a, b);
    }
  }

  lemma RowSinceStep(w: World, trace: seq<Step>, s: Step, a: NodeId, b: NodeId)
    requires Enabled(w, s) && a in w.nodes && w.nodes[a].id == a && RowsInv(w.nodes[a].store) && RowSince(w.nodes[a].store, trace, a, b)
    ensures a in Apply(w, s).nodes && RowSince(Apply(w, s).nodes[a].store, trace + [s], a, b)
  {
    if s.Act? && s.a == a {
      RowSinceOwn(w.nodes[a], trace, s.op, b, w.facts);
      assert Apply(w, s).nodes[a].store == Stored(w.nodes[a], s.op, w.facts);
    } else {
      SnocRequested(trace, s, a, b);
      assert Apply(w, s).nodes[a] == w.nodes[a];
    }
  }

  lemma RowSinceOwn(n: Node, trace: seq<Step>, op: Op, b: NodeId, facts: set<Fact>)
    requires RowsInv(n.store) && Can(n, op, facts) && RowSince(n.store, trace, n.id, b)
    ensures RowSince(Stored(n, op, facts), trace + [Act(n.id, op)], n.id, b)
  {
    SnocRequested(trace, Act(n.id, op), n.id, b);
    RowStep(n, op, b, facts);
  }

  lemma RowAtRevocation(s: Store, a: NodeId, b: NodeId)
    requires b in s.trust && RowInv(s.trust[b]) && s.trust[b].stage.Revoked?
    ensures RowSince(s, [], a, b)
  {}

  lemma {:induction false} RowSinceRevocation(w: World, trace: seq<Step>, a: NodeId, b: NodeId)
    requires Inv(w) && Valid(w, trace) && a in w.nodes && RowSince(w.nodes[a].store, [], a, b)
    ensures a in Run(w, trace).nodes && RowSince(Run(w, trace).nodes[a].store, trace, a, b)
    decreases |trace|
  {
    if trace != [] {
      var before, s := trace[..|trace| - 1], trace[|trace| - 1];
      assert before + [s] == trace;
      RowSinceRevocation(w, before, a, b);
      RunInv(w, before);
      assert NodeInv(Run(w, before).nodes[a], Run(w, before).facts);
      RowSinceStep(Run(w, before), before, s, a, b);
    }
  }

  /** Only a new local request, followed by a statement of the peer, makes a revoked row trusted. */
  lemma TrustIsRestoredByRequestAndStatement(w: World, trace: seq<Step>, a: NodeId, b: NodeId)
    requires Inv(w) && Valid(w, trace) && a in w.nodes && b in w.nodes[a].store.trust && w.nodes[a].store.trust[b].stage.Revoked?
    requires a in Run(w, trace).nodes && b in Run(w, trace).nodes[a].store.trust
    requires Run(w, trace).nodes[a].store.trust[b].stage.Trusted?
    ensures RequestedThenHeard(trace, a, b)
  {
    RunInv(w, trace);
    RowAtRevocation(w.nodes[a].store, a, b);
    RowSinceRevocation(w, trace, a, b);
  }

  /** In every reachable world: rows, window and rotation statements agree for every node. */
  lemma RowsAndWindow(w: World, trace: seq<Step>, a: NodeId)
    requires Init(w) && Valid(w, trace) && a in Run(w, trace).nodes
    ensures var s := Run(w, trace).nodes[a].store;
      && (s.window.Some? <==> exists peer :: peer in s.owed && s.owed[peer].Rotation?)
      && forall peer | peer in s.trust ::
           var r := s.trust[peer];
           && (r.stage.Revoked? ==> !r.localApproved && !r.remoteApproved && r.pk.None?)
           && (!r.stage.Revoked? ==> r.pk.Some? && (r.stage.Trusted? <==> r.localApproved && r.remoteApproved))
  {
    InitInv(w);
    RunInv(w, trace);
    var s := Run(w, trace).nodes[a].store;
    assert WindowInv(s);
    assert forall peer | peer in s.owed && s.owed[peer].Rotation? :: OwesRotation(s, peer);
  }

  /** No second rotation commits while a statement of the first is still owed. */
  lemma NoEarlySecondRotation(w: World, trace: seq<Step>, a: NodeId, nonces: map<NodeId, Nonce>, drawn: nat, now: int)
    requires Init(w) && Valid(w, trace) && a in Run(w, trace).nodes
    requires var n := Run(w, trace).nodes[a]; OwesAnyRotation(n.store) && Can(n, DoRotateCommit(nonces, drawn, now), Run(w, trace).facts)
    ensures var n := Run(w, trace).nodes[a];
      var n' := Local(n, DoRotateCommit(nonces, drawn, now), Run(w, trace).facts);
      n'.rotating.Idle? && n'.store == n.store && n'.key == n.key
  {
    InitInv(w);
    RunInv(w, trace);
  }
}
