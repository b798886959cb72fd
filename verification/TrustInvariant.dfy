/** What every step of the exchange keeps, for every node of every reachable world. */
module TrustInvariant {
  import opened Prelude
  import opened NonceCache
  import opened TrustModel
  import opened TrustWorld

  /** A row is trusted exactly when both sides approved; a revoked row keeps nothing. */
  ghost predicate RowInv(r: Row) {
    && (r.stage.Revoked? ==> r == RevokedRow())
    && (!r.stage.Revoked? ==> r.pk.Some? && (r.stage.Trusted? <==> r.localApproved && r.remoteApproved))
  }

  ghost predicate RowsInv(s: Store) {
    forall peer | peer in s.trust :: RowInv(s.trust[peer])
  }

  /** The window record exists exactly while some rotation statement is owed. */
  ghost predicate WindowInv(s: Store) {
    s.window.Some? <==> OwesAnyRotation(s)
  }

  ghost predicate KeysInv(n: Node) {
    && n.key.owner == n.id && n.key.gen < n.nextGen
    && match n.rotating
       case Idle => true
       case Listed(_, previous) => previous == n.key
       case Committed(next, _, previous) =>
         && next.owner == n.id && n.key.gen < next.gen < n.nextGen && previous == n.key
         && (n.store.window.Some? ==> n.store.window == Some(next))
       case Swapped(_, previous) =>
         && previous.owner == n.id && previous.gen <= n.key.gen
         && (n.store.window.Some? ==> n.store.window == Some(n.key))
  }

  ghost predicate Drawn(n: Node, nonce: Nonce) {
    nonce.issuer == n.id && nonce.draw < n.nextNonce
  }

  /** A rotation statement belongs to the window, and leads from the current or swapped-out key. */
  ghost predicate RotationInv(n: Node, o: Obligation)
    requires o.Rotation?
  {
    && n.store.window == Some(o.fp) && o.fp.owner == n.id && o.previous.owner == n.id
    && o.previous.gen < o.fp.gen < n.nextGen && (n.key == o.previous || n.key == o.fp)
  }

  ghost predicate OwedInv(n: Node) {
    forall peer | peer in n.store.owed ::
      Drawn(n, n.store.owed[peer].nonce) && (n.store.owed[peer].Rotation? ==> RotationInv(n, n.store.owed[peer]))
  }

  ghost predicate OwnOldKey(n: Node, k: Option<Key>) {
    k.Some? ==> k.value.owner == n.id && k.value.gen <= n.key.gen
  }

  ghost predicate AttemptsInv(n: Node) {
    && (forall a | a in n.proc.drafts :: Drawn(n, a.nonce) && OwnOldKey(n, a.oldKey))
    && (forall a | a in n.proc.sent :: Drawn(n, a.nonce))
    && (forall s | s in n.proc.settling :: Drawn(n, s.1))
  }

  /** The nonce identifies an obligation up to when it is tried again. */
  ghost predicate SameCore(o: Obligation, stored: Obligation) {
    o.nonce == stored.nonce && o.Rotation? && stored.Rotation? ==> o.fp == stored.fp && o.previous == stored.previous
  }

  /** What the re-drive pass carries for `peer` is no newer than what is stored. */
  ghost predicate Carried(n: Node, peer: NodeId, o: Obligation) {
    Drawn(n, o.nonce) && (peer in n.store.owed ==> SameCore(o, n.store.owed[peer]))
  }

  ghost predicate PassInv(n: Node) {
    && (forall k | k in n.proc.seen :: k.owner == n.id && k.gen <= n.key.gen)
    && (forall peer | peer in n.proc.redrive.pass :: Carried(n, peer, n.proc.redrive.pass[peer]))
    && (forall peer | peer in n.proc.redrive.looked :: Carried(n, peer, n.proc.redrive.looked[peer].current))
    && (forall peer | peer in n.proc.redrive.ready ::
          && Carried(n, peer, n.proc.redrive.ready[peer].current)
          && (Matches(n.store, peer, n.proc.redrive.ready[peer].current) && n.proc.redrive.ready[peer].current.Rotation? ==>
                n.key == n.store.owed[peer].fp))
  }

  /** Everything a node's keys signed speaks for the node, under a key it held by then. */
  ghost predicate SignedInv(n: Node, facts: set<Fact>) {
    && (forall f | f in facts && f.p.nonce.issuer == n.id :: Drawn(n, f.p.nonce))
    && (forall f | f in facts && f.signer.owner == n.id ::
          && f.p.node == n.id && f.p.pk.owner == n.id && f.signer.gen <= f.p.pk.gen <= n.key.gen
          && f.p.nonce.issuer == n.id
          && (f.p.replyNonce.Some? ==> Published(facts, f.p.replyNonce.value)))
    && (forall a | a in n.proc.answers :: Published(facts, a.nonce))
  }

  /** The nonce of an owed rotation statement has not been used anywhere. */
  ghost predicate Unused(p: Process, peer: NodeId, nonce: Nonce, facts: set<Fact>) {
    && !Published(facts, nonce)
    && (forall a | a in p.drafts || a in p.sent :: a.nonce != nonce)
    && (peer, nonce) !in p.settling
  }

  /**
   * Before the swap a rotation statement has not gone out; after it, it is only ever signed
   * with the new key, and no key was held between the old and the new one.
   */
  ghost predicate StatementInv(n: Node, peer: NodeId, o: Obligation, facts: set<Fact>)
    requires o.Rotation?
  {
    && (n.key != o.fp ==> Unused(n.proc, peer, o.nonce, facts))
    && (forall f | f in facts && f.signer.owner == n.id ::
          && (f.p.pk.gen <= o.previous.gen || f.p.pk == o.fp)
          && (f.p.nonce == o.nonce ==> f.p.pk == o.fp))
  }

  ghost predicate StatementsInv(n: Node, facts: set<Fact>) {
    forall peer | OwesRotation(n.store, peer) :: StatementInv(n, peer, n.store.owed[peer], facts)
  }

  ghost predicate NodeInv(n: Node, facts: set<Fact>) {
    && RowsInv(n.store) && WindowInv(n.store) && KeysInv(n) && OwedInv(n) && AttemptsInv(n) && PassInv(n)
    && SignedInv(n, facts) && StatementsInv(n, facts)
  }

  ghost predicate Inv(w: World) {
    forall a | a in w.nodes :: w.nodes[a].id == a && NodeInv(w.nodes[a], w.facts)
  }

  lemma InitInv(w: World)
    requires Init(w)
    ensures Inv(w)
  {}

  // ---- frames -------------------------------------------------------------------

  ghost predicate SameButTiming(o: Obligation, o': Obligation) {
    && o'.nonce == o.nonce && o'.Rotation? == o.Rotation?
    && (o.Rotation? ==> o'.fp == o.fp && o'.previous == o.previous)
  }

  /** The trust rows and the nonce cache matter to no other record. */
  lemma RowsFrame(n: Node, trust: map<NodeId, Row>, nonces: Cache, facts: set<Fact>)
    requires NodeInv(n, facts) && forall peer | peer in trust :: RowInv(trust[peer])
    ensures NodeInv(n.(store := n.store.(trust := trust, nonces := nonces)), facts)
  {}

  lemma SameRotations(s: Store, s': Store)
    requires forall peer :: OwesRotation(s', peer) <==> OwesRotation(s, peer)
    ensures OwesAnyRotation(s') <==> OwesAnyRotation(s)
  {}

  /** When an obligation is tried again matters to no other record. */
  lemma TimingFrame(n: Node, owed: map<NodeId, Obligation>, facts: set<Fact>)
    requires NodeInv(n, facts) && owed.Keys == n.store.owed.Keys
    requires forall peer | peer in owed :: SameButTiming(n.store.owed[peer], owed[peer])
    ensures NodeInv(n.(store := n.store.(owed := owed)), facts)
  {
    var n' := n.(store := n.store.(owed := owed));
    SameRotations(n.store, n'.store);
    assert PassInv(n');
    assert StatementsInv(n', facts);
  }

  /** Obligations may go, as long as the window goes with the last rotation. */
  lemma DropFrame(n: Node, owed: map<NodeId, Obligation>, window: Option<Key>, facts: set<Fact>)
    requires NodeInv(n, facts)
    requires owed.Keys <= n.store.owed.Keys && forall peer | peer in owed :: owed[peer] == n.store.owed[peer]
    requires window == if OwesAnyRotation(n.store.(owed := owed)) then n.store.window else None
    ensures NodeInv(n.(store := n.store.(owed := owed, window := window)), facts)
  {}

  lemma DropObligationInv(n: Node, peer: NodeId, facts: set<Fact>)
    requires NodeInv(n, facts) && peer in n.store.owed
    ensures NodeInv(n.(store := DropObligation(n.store, peer)), facts)
  {
    var owed := n.store.owed - {peer};
    var dropped := n.store.(owed := owed);
    if !n.store.owed[peer].Rotation? { SameRotations(n.store, dropped); }
    DropFrame(n, owed, if OwesAnyRotation(dropped) then n.store.window else None, facts);
  }

  lemma AbandonInv(n: Node, facts: set<Fact>)
    requires NodeInv(n, facts)
    ensures NodeInv(n.(store := AbandonRotation(n.store)), facts)
  {}

  lemma DropApprovalInv(n: Node, peer: NodeId, o: Obligation, facts: set<Fact>)
    requires NodeInv(n, facts) && (o.Rotation? ==> n.store.window.None?)
    ensures NodeInv(n.(store := DropIfMatches(n.store, peer, o)), facts)
  {
    if Matches(n.store, peer, o) {
      assert OwesRotation(n.store, peer) ==> OwesAnyRotation(n.store);
      DropObligationInv(n, peer, facts);
    }
  }

  lemma DrawFrame(n: Node, drawn: nat, facts: set<Fact>)
    requires NodeInv(n, facts) && drawn >= n.nextNonce
    ensures NodeInv(n.(nextNonce := drawn), facts)
  {}

  lemma StageFrame(n: Node, rotating: Rotating, facts: set<Fact>)
    requires NodeInv(n, facts) && KeysInv(n.(rotating := rotating))
    ensures NodeInv(n.(rotating := rotating), facts)
  {}

  ghost predicate Submap<K, V>(m: map<K, V>, m': map<K, V>) {
    m.Keys <= m'.Keys && forall k | k in m :: m[k] == m'[k]
  }

  ghost predicate Within(r: Redrive, r': Redrive) {
    Submap(r.pass, r'.pass) && Submap(r.looked, r'.looked) && Submap(r.ready, r'.ready)
  }

  /** What is in flight inside the process may go, and an unsent statement may be sent. */
  lemma ProcessFrame(n: Node, p: Process, facts: set<Fact>)
    requires NodeInv(n, facts)
    requires p.drafts <= n.proc.drafts && p.sent <= n.proc.sent + n.proc.drafts
    requires p.settling <= n.proc.settling && p.answers <= n.proc.answers
    requires p.seen <= n.proc.seen && Within(p.redrive, n.proc.redrive)
    ensures NodeInv(n.(proc := p), facts)
  {}

  // ---- the transactions ---------------------------------------------------------

  lemma ReceiveInv(n: Node, own: Key, m: Message, now: int, facts: set<Fact>)
    requires NodeInv(n, facts) && Receive(n, own, m, now).Accepted?
    ensures NodeInv(n.(store := Receive(n, own, m, now).store), facts)
  {
    var s := Receive(n, own, m, now).store;
    RowsFrame(n, s.trust, s.nonces, facts);
    TimingFrame(n.(store := n.store.(trust := s.trust, nonces := s.nonces)), s.owed, facts);
  }

  lemma ParkInv(n: Node, peer: NodeId, nonce: Nonce, now: int, facts: set<Fact>)
    requires NodeInv(n, facts)
    ensures NodeInv(n.(store := Park(n.store, peer, nonce, now)), facts)
  {
    TimingFrame(n, Park(n.store, peer, nonce, now).owed, facts);
  }

  lemma RevokeInv(n: Node, peer: NodeId, facts: set<Fact>)
    requires NodeInv(n, facts)
    ensures NodeInv(n.(store := Revoke(n.store, peer)), facts)
  {
    var row := if peer in n.store.trust then n.store.(trust := n.store.trust[peer := RevokedRow()]) else n.store;
    RowsFrame(n, row.trust, n.store.nonces, facts);
    if peer in n.store.owed { DropObligationInv(n.(store := row), peer, facts); }
  }

  lemma ReadKeyInv(n: Node, facts: set<Fact>)
    requires NodeInv(n, facts)
    ensures NodeInv(n.(proc := n.proc.(seen := n.proc.seen + {n.key})), facts)
  {}

  lemma LookedFrame(n: Node, peer: NodeId, r: Ready, facts: set<Fact>)
    requires NodeInv(n, facts) && Carried(n, peer, r.current)
    ensures NodeInv(n.(proc := n.proc.(redrive := n.proc.redrive.(looked := n.proc.redrive.looked[peer := r]))), facts)
  {}

  lemma LookIs(n: Node, peer: NodeId, facts: set<Fact>)
    requires Can(n, DoLook(peer), facts)
    ensures var rest := n.(store := LookAt(n.store, peer, n.proc.redrive.pass[peer]),
                           proc := n.proc.(redrive := n.proc.redrive.(pass := n.proc.redrive.pass - {peer})));
      Local(n, DoLook(peer), facts) ==
        if Live(n.store, peer)
        then rest.(proc := rest.proc.(redrive := rest.proc.redrive.(looked := n.proc.redrive.looked[peer := Ready(n.proc.redrive.pass[peer], n.store.trust[peer].localApproved)])))
        else rest
  {}

  lemma LookInv(n: Node, peer: NodeId, facts: set<Fact>)
    requires NodeInv(n, facts) && Can(n, DoLook(peer), facts)
    ensures NodeInv(Local(n, DoLook(peer), facts), facts)
  {
    var o := n.proc.redrive.pass[peer];
    var looked := n.(store := LookAt(n.store, peer, o));
    if !Live(n.store, peer) && Matches(n.store, peer, o) { DropObligationInv(n, peer, facts); }
    var rest := looked.(proc := n.proc.(redrive := n.proc.redrive.(pass := n.proc.redrive.pass - {peer})));
    ProcessFrame(looked, rest.proc, facts);
    LookIs(n, peer, facts);
    if Live(n.store, peer) { LookedFrame(rest, peer, Ready(o, n.store.trust[peer].localApproved), facts); }
  }

  lemma CheckInv(n: Node, peer: NodeId, own: Key, now: int, facts: set<Fact>)
    requires NodeInv(n, facts) && Can(n, DoCheck(peer, own, now), facts)
    ensures NodeInv(n.(store := Stored(n, DoCheck(peer, own, now), facts)), facts)
  {
    var o := n.proc.redrive.looked[peer].current;
    if o.Rotation? && n.store.window.None? {
      DropApprovalInv(n, peer, o, facts);
    } else if o.Rotation? && n.store.window != Some(own) {
      AbandonInv(n, facts);
    } else if o.Approval? && o.fp != own {
      DropApprovalInv(n, peer, o, facts);
    } else if o.blocked.Some? && Matches(n.store, peer, o) && now >= o.blocked.value {
      TimingFrame(n, n.store.owed[peer := Unblocked(o)], facts);
    }
  }

  lemma CheckOpInv(n: Node, peer: NodeId, own: Key, now: int, facts: set<Fact>)
    requires NodeInv(n, facts) && Can(n, DoCheck(peer, own, now), facts)
    ensures NodeInv(Local(n, DoCheck(peer, own, now), facts), facts)
  {
    var op := DoCheck(peer, own, now);
    var checked := n.(store := Stored(n, op, facts));
    CheckInv(n, peer, own, now, facts);
    ProcessFrame(checked, n.proc.(redrive := n.proc.redrive.(looked := n.proc.redrive.looked - {peer})), facts);
    var c := CheckObligation(n.store, own, n.rotating.Committed?, peer, n.proc.redrive.looked[peer], now);
    if c.Send? {
      ReadyMatches(n, peer, own, now, facts);
      ReadyFrame(checked.(proc := n.proc.(redrive := n.proc.redrive.(looked := n.proc.redrive.looked - {peer}))), peer, c.ready, facts);
    }
    assert Local(n, op, facts) == checked.(proc := InFlight(n, op, facts));
  }

  lemma ReadyMatches(n: Node, peer: NodeId, own: Key, now: int, facts: set<Fact>)
    requires NodeInv(n, facts) && Can(n, DoCheck(peer, own, now), facts)
    requires CheckObligation(n.store, own, n.rotating.Committed?, peer, n.proc.redrive.looked[peer], now).Send?
    ensures var c := CheckObligation(n.store, own, n.rotating.Committed?, peer, n.proc.redrive.looked[peer], now);
            && Carried(n.(store := c.store), peer, c.ready.current)
            && (Matches(c.store, peer, c.ready.current) && c.ready.current.Rotation? ==> n.key == c.store.owed[peer].fp)
  {}

  lemma ReadyFrame(n: Node, peer: NodeId, r: Ready, facts: set<Fact>)
    requires NodeInv(n, facts) && Carried(n, peer, r.current)
    requires Matches(n.store, peer, r.current) && r.current.Rotation? ==> n.key == n.store.owed[peer].fp
    ensures NodeInv(n.(proc := n.proc.(redrive := n.proc.redrive.(ready := n.proc.redrive.ready[peer := r]))), facts)
  {}

  /** An obligation stored under a fresh nonce, with the attempt that will carry it. */
  function Owe(n: Node, peer: NodeId, o: Obligation, a: Attempt): Node {
    n.(store := n.store.(owed := n.store.owed[peer := o]),
       proc := n.proc.(drafts := n.proc.drafts + {a}),
       nextNonce := o.nonce.draw + 1)
  }

  ghost predicate MayOwe(n: Node, peer: NodeId, o: Obligation, a: Attempt) {
    && Fresh(n, o.nonce) && a.nonce == o.nonce && OwnOldKey(n, a.oldKey)
    && o.Rotation? == OwesRotation(n.store, peer)
    && (o.Rotation? ==> n.store.owed[peer].fp == o.fp == n.key && n.store.owed[peer].previous == o.previous)
  }

  lemma OweInv(n: Node, peer: NodeId, o: Obligation, a: Attempt, facts: set<Fact>)
    requires NodeInv(n, facts) && MayOwe(n, peer, o, a)
    ensures NodeInv(Owe(n, peer, o, a), facts)
  {
    OweStore(n, peer, o, a, facts);
    OwePass(n, peer, o, a, facts);
    OweStatements(n, peer, o, a, facts);
  }

  lemma OweStore(n: Node, peer: NodeId, o: Obligation, a: Attempt, facts: set<Fact>)
    requires NodeInv(n, facts) && MayOwe(n, peer, o, a)
    ensures var n' := Owe(n, peer, o, a); WindowInv(n'.store) && OwedInv(n')
  {
    SameRotations(n.store, Owe(n, peer, o, a).store);
  }

  lemma OwePass(n: Node, peer: NodeId, o: Obligation, a: Attempt, facts: set<Fact>)
    requires NodeInv(n, facts) && MayOwe(n, peer, o, a)
    ensures PassInv(Owe(n, peer, o, a))
  {}

  lemma OweStatements(n: Node, peer: NodeId, o: Obligation, a: Attempt, facts: set<Fact>)
    requires NodeInv(n, facts) && MayOwe(n, peer, o, a)
    ensures StatementsInv(Owe(n, peer, o, a), facts)
  {}

  lemma RequestRowInv(n: Node, peer: NodeId, k: Key, facts: set<Fact>)
    requires NodeInv(n, facts) && !RequestConflicts(n.store, peer, k)
    ensures NodeInv(RequestedNode(n, peer, k), facts)
  {
    RowsFrame(n, RequestedNode(n, peer, k).store.trust, n.store.nonces, facts);
  }

  function RequestedNode(n: Node, peer: NodeId, k: Key): Node {
    n.(store := n.store.(trust := n.store.trust[peer := RequestedRow(n.store, peer, k)]))
  }

  lemma RequestIs(n: Node, peer: NodeId, k: Key, own: Key, nonce: Nonce, now: int, facts: set<Fact>)
    requires Can(n, DoRequest(peer, k, own, nonce, now), facts)
    ensures Local(n, DoRequest(peer, k, own, nonce, now), facts) ==
      if RequestSends(n.store, peer, k)
      then Owe(RequestedNode(n, peer, k), peer, Approval(nonce, own, now, None), Attempt(peer, k, true, nonce, None))
      else RequestedNode(n, peer, k).(nextNonce := nonce.draw + 1)
  {}

  lemma RequestInv(n: Node, peer: NodeId, k: Key, own: Key, nonce: Nonce, now: int, facts: set<Fact>)
    requires NodeInv(n, facts) && Can(n, DoRequest(peer, k, own, nonce, now), facts)
    ensures NodeInv(Local(n, DoRequest(peer, k, own, nonce, now), facts), facts)
  {
    RequestIs(n, peer, k, own, nonce, now, facts);
    RequestRowInv(n, peer, k, facts);
    if RequestSends(n.store, peer, k) {
      OweInv(RequestedNode(n, peer, k), peer, Approval(nonce, own, now, None), Attempt(peer, k, true, nonce, None), facts);
    } else {
      DrawFrame(RequestedNode(n, peer, k), nonce.draw + 1, facts);
    }
  }

  /** A resend takes the obligation from the pass and stores it under a fresh nonce, if it is still the same. */
  lemma ResendIs(n: Node, peer: NodeId, live: Key, nonce: Nonce, now: int, facts: set<Fact>)
    requires Can(n, DoResend(peer, live, nonce, now), facts)
    ensures var r := n.proc.redrive.ready[peer];
      Local(n, DoResend(peer, live, nonce, now), facts) ==
        if Matches(n.store, peer, r.current)
        then Owe(Taken(n, peer), peer, r.current.(nonce := nonce, at := now), Attempt(peer, live, r.approved, nonce, Previous(r.current)))
        else Taken(n, peer).(nextNonce := nonce.draw + 1)
  {}

  function Taken(n: Node, peer: NodeId): Node {
    n.(proc := n.proc.(redrive := n.proc.redrive.(ready := n.proc.redrive.ready - {peer})))
  }

  lemma ResendMayOwe(n: Node, peer: NodeId, live: Key, nonce: Nonce, now: int, facts: set<Fact>)
    requires NodeInv(n, facts) && Can(n, DoResend(peer, live, nonce, now), facts) && Matches(n.store, peer, n.proc.redrive.ready[peer].current)
    ensures var r := n.proc.redrive.ready[peer];
      MayOwe(Taken(n, peer), peer, r.current.(nonce := nonce, at := now), Attempt(peer, live, r.approved, nonce, Previous(r.current)))
  {}

  lemma ResendInv(n: Node, peer: NodeId, live: Key, nonce: Nonce, now: int, facts: set<Fact>)
    requires NodeInv(n, facts) && Can(n, DoResend(peer, live, nonce, now), facts)
    ensures NodeInv(Local(n, DoResend(peer, live, nonce, now), facts), facts)
  {
    var r := n.proc.redrive.ready[peer];
    ProcessFrame(n, Taken(n, peer).proc, facts);
    ResendIs(n, peer, live, nonce, now, facts);
    if Matches(n.store, peer, r.current) {
      ResendMayOwe(n, peer, live, nonce, now, facts);
      OweInv(Taken(n, peer), peer, r.current.(nonce := nonce, at := now), Attempt(peer, live, r.approved, nonce, Previous(r.current)), facts);
    } else {
      DrawFrame(Taken(n, peer), nonce.draw + 1, facts);
    }
  }

  /** A statement under a nonce of this node, signed with the current key and perhaps an older one. */
  lemma SignedFactsInv(n: Node, oldKey: Option<Key>, p: Payload, facts: set<Fact>)
    requires NodeInv(n, facts) && p.node == n.id && p.pk == n.key && Drawn(n, p.nonce) && OwnOldKey(n, oldKey)
    requires p.replyNonce.Some? ==> Published(facts, p.replyNonce.value)
    requires forall peer | OwesRotation(n.store, peer) && n.store.owed[peer].nonce == p.nonce :: n.key == n.store.owed[peer].fp
    ensures NodeInv(n, facts + SignedBy(n.key, oldKey, p))
  {
    var facts' := facts + SignedBy(n.key, oldKey, p);
    assert forall f | f in facts' :: f in facts || f.p == p;
    assert forall nonce | Published(facts, nonce) :: Published(facts', nonce);
    assert forall nonce | Published(facts', nonce) :: Published(facts, nonce) || nonce == p.nonce;
    assert SignedInv(n, facts');
    assert StatementsInv(n, facts');
  }

  lemma SignInv(n: Node, attempt: Attempt, now: int, facts: set<Fact>)
    requires NodeInv(n, facts) && attempt in n.proc.drafts
    ensures NodeInv(Local(n, DoSign(attempt, now), facts), facts + Signs(n, DoSign(attempt, now)))
  {
    var op := DoSign(attempt, now);
    forall peer | OwesRotation(n.store, peer) && n.store.owed[peer].nonce == attempt.nonce
      ensures n.key == n.store.owed[peer].fp
    {
      assert StatementInv(n, peer, n.store.owed[peer], facts);
    }
    SignedFactsInv(n, attempt.oldKey, Statement(n, attempt, now), facts);
    ProcessFrame(n, InFlight(n, op, facts), facts + Signs(n, op));
    assert Local(n, op, facts) == n.(proc := InFlight(n, op, facts));
  }

  lemma AnswerIs(n: Node, answer: Answer, nonce: Nonce, now: int, facts: set<Fact>)
    requires Can(n, DoAnswer(answer, nonce, now), facts)
    ensures Local(n, DoAnswer(answer, nonce, now), facts) == n.(nextNonce := nonce.draw + 1, proc := n.proc.(answers := n.proc.answers - {answer}))
    ensures Signs(n, DoAnswer(answer, nonce, now)) == SignedBy(n.key, OldKey(n.store, answer.peer), ReplyStatement(n, answer, nonce, now))
  {}

  lemma AnswerInv(n: Node, answer: Answer, nonce: Nonce, now: int, facts: set<Fact>)
    requires NodeInv(n, facts) && Can(n, DoAnswer(answer, nonce, now), facts)
    ensures NodeInv(Local(n, DoAnswer(answer, nonce, now), facts), facts + Signs(n, DoAnswer(answer, nonce, now)))
  {
    var drawn := n.(nextNonce := nonce.draw + 1);
    AnswerIs(n, answer, nonce, now, facts);
    DrawFrame(n, nonce.draw + 1, facts);
    SignedFactsInv(drawn, OldKey(n.store, answer.peer), ReplyStatement(n, answer, nonce, now), facts);
    ProcessFrame(drawn, n.proc.(answers := n.proc.answers - {answer}), facts + Signs(n, DoAnswer(answer, nonce, now)));
  }

  lemma IntroduceInv(n: Node, own: Key, m: Message, now: int, facts: set<Fact>)
    requires NodeInv(n, facts) && Can(n, DoIntroduce(own, m, now), facts)
    ensures NodeInv(Local(n, DoIntroduce(own, m, now), facts), facts)
  {
    var op := DoIntroduce(own, m, now);
    var received := n.(store := Receive(n, own, m, now).store);
    ReceiveInv(n, own, m, now, facts);
    assert Fact(m.p.pk, m.p) in facts;
    assert Published(facts, m.p.nonce);
    var n' := received.(proc := InFlight(n, op, facts));
    assert Local(n, op, facts) == n';
    assert SignedInv(n', facts);
    assert StatementsInv(n', facts);
  }

  /** The node once the reply is stored and the attempt waits to be settled. */
  function Settling(n: Node, s: Store, attempt: Attempt): Node {
    n.(store := s, proc := n.proc.(settling := n.proc.settling + {(attempt.peer, attempt.nonce)}))
  }

  lemma SettlingInv(n: Node, s: Store, attempt: Attempt, facts: set<Fact>)
    requires NodeInv(n.(store := s), facts) && attempt in n.proc.sent
    ensures NodeInv(Settling(n, s, attempt), facts)
  {
    assert StatementsInv(Settling(n, s, attempt), facts);
  }

  lemma AcceptReplyInv(n: Node, attempt: Attempt, own: Key, m: Message, now: int, facts: set<Fact>)
    requires NodeInv(n, facts) && Can(n, DoAcceptReply(attempt, own, m, now), facts)
    ensures NodeInv(Local(n, DoAcceptReply(attempt, own, m, now), facts), facts)
  {
    var settling := Settling(n, Receive(n, own, m, now).store, attempt);
    ReceiveInv(n, own, m, now, facts);
    SettlingInv(n, Receive(n, own, m, now).store, attempt, facts);
    var p := settling.proc.(sent := n.proc.sent - {attempt});
    ProcessFrame(settling, p, facts);
    assert Local(n, DoAcceptReply(attempt, own, m, now), facts) == settling.(proc := p);
  }

  lemma SettleInv(n: Node, peer: NodeId, nonce: Nonce, facts: set<Fact>)
    requires NodeInv(n, facts) && Can(n, DoSettle(peer, nonce), facts)
    ensures NodeInv(Local(n, DoSettle(peer, nonce), facts), facts)
  {
    var op := DoSettle(peer, nonce);
    if peer in n.store.owed && n.store.owed[peer].nonce == nonce { DropObligationInv(n, peer, facts); }
    ProcessFrame(n.(store := Stored(n, op, facts)), InFlight(n, op, facts), facts);
    assert Local(n, op, facts) == n.(store := Stored(n, op, facts), proc := InFlight(n, op, facts));
  }

  lemma ScanInv(n: Node, facts: set<Fact>)
    requires NodeInv(n, facts)
    ensures NodeInv(n.(proc := n.proc.(redrive := n.proc.redrive.(pass := n.store.owed))), facts)
  {}

  // ---- rotation -------------------------------------------------------------------

  lemma SwapInv(n: Node, facts: set<Fact>)
    requires NodeInv(n, facts) && n.rotating.Committed?
    ensures NodeInv(Local(n, DoSwap, facts), facts)
  {}

  lemma RotateSendInv(n: Node, peer: NodeId, live: Key, facts: set<Fact>)
    requires NodeInv(n, facts) && Can(n, DoRotateSend(peer, live), facts)
    ensures NodeInv(Local(n, DoRotateSend(peer, live), facts), facts)
  {}

  lemma RotateCommitInv(n: Node, nonces: map<NodeId, Nonce>, drawn: nat, now: int, facts: set<Fact>)
    requires NodeInv(n, facts) && Can(n, DoRotateCommit(nonces, drawn, now), facts)
    ensures NodeInv(Local(n, DoRotateCommit(nonces, drawn, now), facts), facts)
  {
    if n.store.window.Some? {
      DrawFrame(n, drawn, facts);
      StageFrame(n.(nextNonce := drawn), Idle, facts);
    } else {
      OpenWindowWindow(n, nonces, drawn, now, facts);
      OpenWindowKeys(n, nonces, drawn, now, facts);
      OpenWindowPass(n, nonces, drawn, now, facts);
      OpenWindowOwed(n, nonces, drawn, now, facts);
      OpenWindowStatements(n, nonces, drawn, now, facts);
    }
  }

  lemma OpenWindowWindow(n: Node, nonces: map<NodeId, Nonce>, drawn: nat, now: int, facts: set<Fact>)
    requires NodeInv(n, facts) && Can(n, DoRotateCommit(nonces, drawn, now), facts) && n.store.window.None?
    ensures WindowInv(Local(n, DoRotateCommit(nonces, drawn, now), facts).store)
  {
    var n' := Local(n, DoRotateCommit(nonces, drawn, now), facts);
    assert forall peer :: OwesRotation(n.store, peer) ==> OwesAnyRotation(n.store);
    OpenedOwed(n, nonces, drawn, now, facts);
    if peer :| peer in n.rotating.peers { assert OwesRotation(n'.store, peer); }
  }

  lemma OpenWindowKeys(n: Node, nonces: map<NodeId, Nonce>, drawn: nat, now: int, facts: set<Fact>)
    requires NodeInv(n, facts) && Can(n, DoRotateCommit(nonces, drawn, now), facts) && n.store.window.None?
    ensures KeysInv(Local(n, DoRotateCommit(nonces, drawn, now), facts))
  {}

  lemma OpenWindowPass(n: Node, nonces: map<NodeId, Nonce>, drawn: nat, now: int, facts: set<Fact>)
    requires NodeInv(n, facts) && Can(n, DoRotateCommit(nonces, drawn, now), facts) && n.store.window.None?
    ensures PassInv(Local(n, DoRotateCommit(nonces, drawn, now), facts))
  {
    assert forall peer :: OwesRotation(n.store, peer) ==> OwesAnyRotation(n.store);
    OpenedOwed(n, nonces, drawn, now, facts);
  }

  lemma OpenWindowOwed(n: Node, nonces: map<NodeId, Nonce>, drawn: nat, now: int, facts: set<Fact>)
    requires NodeInv(n, facts) && Can(n, DoRotateCommit(nonces, drawn, now), facts) && n.store.window.None?
    ensures OwedInv(Local(n, DoRotateCommit(nonces, drawn, now), facts))
  {
    assert forall peer :: OwesRotation(n.store, peer) ==> OwesAnyRotation(n.store);
    OpenedOwed(n, nonces, drawn, now, facts);
  }

  lemma OpenedOwed(n: Node, nonces: map<NodeId, Nonce>, drawn: nat, now: int, facts: set<Fact>)
    requires KeysInv(n) && Can(n, DoRotateCommit(nonces, drawn, now), facts) && n.store.window.None?
    ensures var owed := Local(n, DoRotateCommit(nonces, drawn, now), facts).store.owed;
      && owed.Keys == n.store.owed.Keys + n.rotating.peers.Keys
      && forall peer | peer in owed ::
           if peer in n.rotating.peers then owed[peer] == Rotation(nonces[peer], Key(n.id, n.nextGen), now, None, n.key)
           else owed[peer] == n.store.owed[peer]
  {}

  lemma OpenWindowStatements(n: Node, nonces: map<NodeId, Nonce>, drawn: nat, now: int, facts: set<Fact>)
    requires NodeInv(n, facts) && Can(n, DoRotateCommit(nonces, drawn, now), facts) && n.store.window.None?
    ensures StatementsInv(Local(n, DoRotateCommit(nonces, drawn, now), facts), facts)
  {}

  // ---- rows ------------------------------------------------------------------------

  ghost predicate TouchesRows(op: Op) {
    op.DoRequest? || op.DoIntroduce? || op.DoAcceptReply? || op.DoRevoke?
  }

  lemma KeepsRows(n: Node, op: Op, facts: set<Fact>)
    requires Can(n, op, facts) && !TouchesRows(op)
    ensures Stored(n, op, facts).trust == n.store.trust
  {}

  // ---- every operation ------------------------------------------------------------

  /** Steps that only move the stage of `rotate`, and the crash. */
  lemma StageInv(n: Node, op: Op, facts: set<Fact>)
    requires NodeInv(n, facts) && Can(n, op, facts) && (op.DoRotateList? || op.DoSwapFails? || op.DoRotateEnd? || op.DoCrash?)
    ensures NodeInv(Local(n, op, facts), facts)
  {
    var stage := Rotated(n, op, facts).2;
    StageFrame(n, stage, facts);
    ProcessFrame(n.(rotating := stage), InFlight(n, op, facts), facts);
    assert Local(n, op, facts) == n.(rotating := stage, proc := InFlight(n, op, facts));
  }

  lemma SigningInv(n: Node, op: Op, facts: set<Fact>)
    requires NodeInv(n, facts) && Can(n, op, facts) && (op.DoSign? || op.DoAnswer?)
    ensures NodeInv(Local(n, op, facts), facts + Signs(n, op))
  {
    match op
    case DoSign(attempt, now) => SignInv(n, attempt, now, facts);
    case DoAnswer(answer, nonce, now) => AnswerInv(n, answer, nonce, now, facts);
  }

  /** Steps of the re-drive pass. */
  lemma RedriveInv(n: Node, op: Op, facts: set<Fact>)
    requires NodeInv(n, facts) && Can(n, op, facts) && (op.DoScan? || op.DoReadKey? || op.DoLook? || op.DoCheck? || op.DoResend?)
    ensures NodeInv(Local(n, op, facts), facts)
  {
    match op
    case DoScan => ScanInv(n, facts);
    case DoReadKey => ReadKeyInv(n, facts);
    case DoLook(peer) => LookInv(n, peer, facts);
    case DoCheck(peer, own, now) => CheckOpInv(n, peer, own, now, facts);
    case DoResend(peer, live, nonce, now) => ResendInv(n, peer, live, nonce, now, facts);
  }

  lemma SilentInv(n: Node, op: Op, facts: set<Fact>)
    requires NodeInv(n, facts) && Can(n, op, facts) && !op.DoSign? && !op.DoAnswer?
    ensures NodeInv(Local(n, op, facts), facts)
  {
    match op
    case DoRequest(peer, k, own, nonce, now) => RequestInv(n, peer, k, own, nonce, now, facts);
    case DoIntroduce(own, m, now) => IntroduceInv(n, own, m, now, facts);
    case DoAcceptReply(attempt, own, m, now) => AcceptReplyInv(n, attempt, own, m, now, facts);
    case DoSettle(peer, nonce) => SettleInv(n, peer, nonce, facts);
    case DoPark(peer, nonce, now) => ParkInv(n, peer, nonce, now, facts);
    case DoRevoke(peer) => RevokeInv(n, peer, facts);
    case DoRotateCommit(nonces, drawn, now) => RotateCommitInv(n, nonces, drawn, now, facts);
    case DoSwap => SwapInv(n, facts);
    case DoRotateSend(peer, live) => RotateSendInv(n, peer, live, facts);
    case DoScan | DoReadKey | DoLook(_) | DoCheck(_, _, _) | DoResend(_, _, _, _) => RedriveInv(n, op, facts);
    case _ => StageInv(n, op, facts);
  }

  lemma LocalInv(n: Node, op: Op, facts: set<Fact>)
    requires NodeInv(n, facts) && Can(n, op, facts)
    ensures NodeInv(Local(n, op, facts), facts + Signs(n, op))
  {
    if op.DoSign? || op.DoAnswer? {
      SigningInv(n, op, facts);
    } else {
      assert facts + Signs(n, op) == facts;
      SilentInv(n, op, facts);
    }
  }

  // ---- every world ----------------------------------------------------------------

  /** Signatures of others never touch what a node's own nonces and keys promise. */
  lemma ForeignFacts(n: Node, facts: set<Fact>, more: set<Fact>)
    requires NodeInv(n, facts)
    requires forall f | f in more :: f.signer.owner != n.id
    requires forall f | f in more && f.p.nonce.issuer == n.id :: Published(facts, f.p.nonce)
    ensures NodeInv(n, facts + more)
  {}

  lemma SignsForSelf(n: Node, op: Op, facts: set<Fact>)
    requires NodeInv(n, facts) && Can(n, op, facts)
    ensures forall f | f in Signs(n, op) :: f.signer.owner == n.id && f.p.nonce.issuer == n.id && f.p.node == n.id
  {}

  lemma BystanderInv(w: World, b: NodeId, op: Op, a: NodeId)
    requires Inv(w) && Enabled(w, Act(b, op)) && a in w.nodes && a != b
    ensures NodeInv(w.nodes[a], w.facts + Signs(w.nodes[b], op))
  {
    SignsForSelf(w.nodes[b], op, w.facts);
    ForeignFacts(w.nodes[a], w.facts, Signs(w.nodes[b], op));
  }

  lemma NodeStep(w: World, s: Step, a: NodeId)
    requires Inv(w) && Enabled(w, s) && a in w.nodes
    ensures Apply(w, s).nodes[a].id == a && NodeInv(Apply(w, s).nodes[a], Apply(w, s).facts)
  {
    match s
    case Forge(signer, p) => ForeignFacts(w.nodes[a], w.facts, {Fact(signer, p)});
    case Act(b, op) => if a == b { LocalInv(w.nodes[a], op, w.facts); } else { BystanderInv(w, b, op, a); }
  }

  lemma StepInv(w: World, s: Step)
    requires Inv(w) && Enabled(w, s)
    ensures Inv(Apply(w, s))
  {
    assert Apply(w, s).nodes.Keys == w.nodes.Keys;
    forall a | a in w.nodes ensures Apply(w, s).nodes[a].id == a && NodeInv(Apply(w, s).nodes[a], Apply(w, s).facts) {
      NodeStep(w, s, a);
    }
  }

  lemma {:induction false} RunInv(w: World, trace: seq<Step>)
    requires Inv(w) && Valid(w, trace)
    ensures Inv(Run(w, trace))
    decreases |trace|
  {
    if trace != [] {
      RunInv(w, trace[..|trace| - 1]);
      StepInv(Run(w, trace[..|trace| - 1]), trace[|trace| - 1]);
    }
  }
}
