/** Runs from the initial world in which a rotation loses a peer that pinned the current key. */
module TrustScenarios {
  import opened Prelude
  import opened NonceCache
  import opened TrustModel
  import opened TrustWorld
  import opened TrustInvariant
  import opened TrustContinuity
  import opened TrustPaths
  import opened TrustImpostor

  const ALICE := NodeId("alice")
  const BOB := NodeId("bob")
  const MALLORY := NodeId("mallory")

  // The keys of the two nodes before and after their rotation, and the impostor's.
  const A0 := Key(ALICE, 0)
  const A1 := Key(ALICE, 1)
  const B0 := Key(BOB, 0)
  const B1 := Key(BOB, 1)
  const M0 := Key(MALLORY, 0)

  lemma Distinct()
    ensures ALICE != BOB && ALICE != MALLORY && BOB != MALLORY && A0 != A1 && B0 != B1
  {}

  function Newborn(a: NodeId): Node {
    Node(a, map[], Key(a, 0), 1, 0, Store(map[], map[], None, map[]), Idle, NOTHING_IN_FLIGHT)
  }

  function Two(A: Node, B: Node, facts: set<Fact>): World { World(map[ALICE := A, BOB := B], facts) }

  const START := Two(Newborn(ALICE), Newborn(BOB), {})

  // ---- runs, step by step ---------------------------------------------------------------

  lemma ByAlice(A: Node, B: Node, facts: set<Fact>, op: Op)
    requires Can(A, op, facts)
    ensures Leads(Two(A, B, facts), Act(ALICE, op), Two(Local(A, op, facts), B, facts + Signs(A, op)))
  {
    assert Two(A, B, facts).nodes[ALICE := Local(A, op, facts)] == Two(Local(A, op, facts), B, {}).nodes;
  }

  /** A step of Alice that signs nothing. */
  lemma AliceMoves(A: Node, A': Node, B: Node, facts: set<Fact>, op: Op)
    requires Can(A, op, facts) && Local(A, op, facts) == A' && Signs(A, op) == {}
    ensures Leads(Two(A, B, facts), Act(ALICE, op), Two(A', B, facts))
  {
    ByAlice(A, B, facts, op);
    assert facts + {} == facts;
  }

  lemma ByBob(A: Node, B: Node, facts: set<Fact>, op: Op)
    requires Can(B, op, facts)
    ensures Leads(Two(A, B, facts), Act(BOB, op), Two(A, Local(B, op, facts), facts + Signs(B, op)))
  {
    assert Two(A, B, facts).nodes[BOB := Local(B, op, facts)] == Two(A, Local(B, op, facts), {}).nodes;
  }

  lemma ByMallory(A: Node, B: Node, facts: set<Fact>, p: Payload)
    requires p.nonce.issuer == MALLORY
    ensures Leads(Two(A, B, facts), Forge(M0, p), Two(A, B, facts + {Fact(M0, p)}))
  {}

  /** What a rotation does by itself is quiet. */
  lemma QuietByAlice(A: Node, B: Node, facts: set<Fact>, op: Op)
    requires B.id == BOB && (op.DoRotateList? ==> BOB in RotationPeers(A.store))
    requires op.DoRotateList? || op.DoRotateCommit? || op.DoScan? || op.DoLook? || op.DoReadKey? || op.DoSwap?
    ensures Quiet(Two(A, B, facts), Act(ALICE, op), ALICE, BOB)
  {}

  // ---- Bob approaches Alice ----------------------------------------------------------------

  const ASKS := DoRequest(ALICE, A0, B0, Nonce(BOB, 0), 0)
  const ATTEMPT := Attempt(ALICE, A0, true, Nonce(BOB, 0), None)
  const HELLO := Payload(BOB, ALICE, B0, A0, true, Nonce(BOB, 0), 0, None)
  const SAID := {Fact(B0, HELLO)}
  const HEARS := DoIntroduce(A0, Message(HELLO, Some(B0), None), 0)

  const BOB_ASKED := Node(BOB, map[], B0, 1, 1,
    Store(map[ALICE := Row(Pending, Some(A0), true, false)], map[ALICE := Approval(Nonce(BOB, 0), B0, 0, None)], None, map[]),
    Idle, NOTHING_IN_FLIGHT.(drafts := {ATTEMPT}))
  const BOB_WAITS := BOB_ASKED.(proc := NOTHING_IN_FLIGHT.(sent := {ATTEMPT}))

  const ALICE_READ := Newborn(ALICE).(proc := NOTHING_IN_FLIGHT.(seen := {A0}))
  const INVITED_STORE := Store(map[BOB := Row(Pending, Some(B0), false, true)], map[], None, map[Slot(BOB, Nonce(BOB, 0)) := 0])
  const INVITED_PROC := ALICE_READ.proc.(answers := {Answer(BOB, B0, false, Nonce(BOB, 0))})

  lemma AliceReads(facts: set<Fact>)
    ensures Can(Newborn(ALICE), DoReadKey, facts) && Local(Newborn(ALICE), DoReadKey, facts) == ALICE_READ && Signs(Newborn(ALICE), DoReadKey) == {}
  {}

  lemma BobAsks(facts: set<Fact>)
    ensures Can(Newborn(BOB), ASKS, facts) && Local(Newborn(BOB), ASKS, facts) == BOB_ASKED && Signs(Newborn(BOB), ASKS) == {}
  {}

  lemma BobSigns(facts: set<Fact>)
    ensures Can(BOB_ASKED, DoSign(ATTEMPT, 0), facts) && Local(BOB_ASKED, DoSign(ATTEMPT, 0), facts) == BOB_WAITS
    ensures Signs(BOB_ASKED, DoSign(ATTEMPT, 0)) == SAID
  {}

  lemma AliceHears(rotating: Rotating)
    ensures var A := ALICE_READ.(rotating := rotating);
      Can(A, HEARS, SAID) && Local(A, HEARS, SAID) == A.(store := INVITED_STORE, proc := INVITED_PROC) && Signs(A, HEARS) == {}
  {}

  // ---- a relation that begins while the rotation is under way ---------------------------------

  const ALICE_LISTED := ALICE_READ.(rotating := Listed(map[], A0))
  const ALICE_INVITED := ALICE_LISTED.(store := INVITED_STORE, proc := INVITED_PROC)
  const ALICE_COMMITTED := ALICE_INVITED.(nextGen := 2, rotating := Committed(A1, map[], A0))
  const ALICE_SWAPPED := ALICE_COMMITTED.(key := A1, rotating := Swapped(map[], A0))

  const RACING := [Act(ALICE, DoReadKey), Act(ALICE, DoRotateList), Act(BOB, ASKS), Act(BOB, DoSign(ATTEMPT, 0)), Act(ALICE, HEARS)]
  const SWAPPING := [Act(ALICE, DoRotateCommit(map[], 0, 0)), Act(ALICE, DoSwap)]

  lemma AliceLists()
    ensures Can(ALICE_READ, DoRotateList, {}) && Local(ALICE_READ, DoRotateList, {}) == ALICE_LISTED && Signs(ALICE_READ, DoRotateList) == {}
  {
    assert RotationPeers(ALICE_READ.store) == map[];
  }

  lemma AliceSwaps()
    ensures var op := DoRotateCommit(map[], 0, 0);
      Can(ALICE_INVITED, op, SAID) && Local(ALICE_INVITED, op, SAID) == ALICE_COMMITTED && Signs(ALICE_INVITED, op) == {}
    ensures Can(ALICE_COMMITTED, DoSwap, SAID) && Local(ALICE_COMMITTED, DoSwap, SAID) == ALICE_SWAPPED && Signs(ALICE_COMMITTED, DoSwap) == {}
  {}

  lemma RacingRuns()
    ensures Goes(START, RACING, Two(ALICE_INVITED, BOB_WAITS, SAID))
  {
    var B := Newborn(BOB);
    var ws := [START, Two(ALICE_READ, B, {}), Two(ALICE_LISTED, B, {}), Two(ALICE_LISTED, BOB_ASKED, {}), Two(ALICE_LISTED, BOB_WAITS, SAID), Two(ALICE_INVITED, BOB_WAITS, SAID)];
    AliceReads({}); AliceLists(); BobAsks({}); BobSigns({}); AliceHears(ALICE_LISTED.rotating);
    ByAlice(Newborn(ALICE), B, {}, DoReadKey);
    ByAlice(ALICE_READ, B, {}, DoRotateList);
    ByBob(ALICE_LISTED, B, {}, ASKS);
    ByBob(ALICE_LISTED, BOB_ASKED, {}, DoSign(ATTEMPT, 0));
    ByAlice(ALICE_LISTED, BOB_WAITS, SAID, HEARS);
    ThroughRuns(ws, RACING);
  }

  lemma SwappingRuns()
    ensures var w := Two(ALICE_INVITED, BOB_WAITS, SAID);
      Goes(w, SWAPPING, Two(ALICE_SWAPPED, BOB_WAITS, SAID)) && QuietRun(w, SWAPPING, ALICE, BOB)
  {
    var ws := [Two(ALICE_INVITED, BOB_WAITS, SAID), Two(ALICE_COMMITTED, BOB_WAITS, SAID), Two(ALICE_SWAPPED, BOB_WAITS, SAID)];
    AliceSwaps();
    ByAlice(ALICE_INVITED, BOB_WAITS, SAID, DoRotateCommit(map[], 0, 0));
    ByAlice(ALICE_COMMITTED, BOB_WAITS, SAID, DoSwap);
    QuietByAlice(ALICE_INVITED, BOB_WAITS, SAID, DoRotateCommit(map[], 0, 0));
    QuietByAlice(ALICE_COMMITTED, BOB_WAITS, SAID, DoSwap);
    ThroughRuns(ws, SWAPPING);
    ThroughQuietly(ws, SWAPPING, ALICE, BOB);
  }

  /**
   * A relation that begins after the rotation read its peer list is lost: Bob pins Alice's
   * current key on an approved row, the run is quiet, and after the swap Bob pins a key Alice
   * neither uses nor can prove. All that is missing is that the rotation counts with Bob.
   */
  lemma RotateRaceLosesPeer()
    ensures Init(START) && Goes(START, RACING, Two(ALICE_INVITED, BOB_WAITS, SAID))
    ensures Related(ALICE_INVITED, BOB) && Pins(BOB_WAITS.store, ALICE, ALICE_INVITED.key) && !Covered(ALICE_INVITED, BOB)
    ensures var w := Two(ALICE_INVITED, BOB_WAITS, SAID);
      Goes(w, SWAPPING, Two(ALICE_SWAPPED, BOB_WAITS, SAID)) && QuietRun(w, SWAPPING, ALICE, BOB)
    ensures !Continuous(ALICE_SWAPPED, BOB, BOB_WAITS.store)
  {
    RacingRuns();
    SwappingRuns();
    InvitedIsLost();
  }

  lemma InvitedIsLost()
    ensures Init(START) && Related(ALICE_INVITED, BOB) && Pins(BOB_WAITS.store, ALICE, ALICE_INVITED.key)
    ensures !Covered(ALICE_INVITED, BOB) && !Continuous(ALICE_SWAPPED, BOB, BOB_WAITS.store)
  {
    Distinct();
  }

  // ---- a rotation abandoned after its swap ------------------------------------------------------

  const ALICE_MET := ALICE_READ.(store := INVITED_STORE, proc := INVITED_PROC)
  const OWED := Rotation(Nonce(ALICE, 0), A1, 0, None, A0)
  const PREPARES := DoRotateCommit(map[BOB := Nonce(ALICE, 0)], 1, 0)
  const CHECKS := DoCheck(BOB, A0, 0)

  const MET_LISTED := ALICE_MET.(rotating := Listed(map[BOB := false], A0))
  const MET_COMMITTED := MET_LISTED.(
    nextGen := 2, nextNonce := 1, store := INVITED_STORE.(owed := map[BOB := OWED], window := Some(A1)),
    rotating := Committed(A1, map[BOB := false], A0))
  const MET_SCANNED := MET_COMMITTED.(proc := INVITED_PROC.(redrive := Redrive(map[BOB := OWED], map[], map[])))
  const MET_LOOKED := MET_COMMITTED.(proc := INVITED_PROC.(redrive := Redrive(map[], map[BOB := Ready(OWED, false)], map[])))
  const MET_SWAPPED := MET_LOOKED.(key := A1, rotating := Swapped(map[BOB := false], A0))
  const MET_ABANDONED := MET_SWAPPED.(store := INVITED_STORE, proc := INVITED_PROC)

  const MEETING := [Act(ALICE, DoReadKey), Act(BOB, ASKS), Act(BOB, DoSign(ATTEMPT, 0)), Act(ALICE, HEARS)]
  const ROTATING := [Act(ALICE, DoRotateList), Act(ALICE, PREPARES)]
  const LOOKING := [Act(ALICE, DoScan), Act(ALICE, DoLook(BOB))]
  const READING := [Act(ALICE, DoReadKey), Act(ALICE, DoSwap)]

  lemma MeetingRuns()
    ensures Goes(START, MEETING, Two(ALICE_MET, BOB_WAITS, SAID))
  {
    var B := Newborn(BOB);
    var ws := [START, Two(ALICE_READ, B, {}), Two(ALICE_READ, BOB_ASKED, {}), Two(ALICE_READ, BOB_WAITS, SAID), Two(ALICE_MET, BOB_WAITS, SAID)];
    AliceReads({}); BobAsks({}); BobSigns({}); AliceHears(Idle);
    ByAlice(Newborn(ALICE), B, {}, DoReadKey);
    ByBob(ALICE_READ, B, {}, ASKS);
    ByBob(ALICE_READ, BOB_ASKED, {}, DoSign(ATTEMPT, 0));
    ByAlice(ALICE_READ, BOB_WAITS, SAID, HEARS);
    ThroughRuns(ws, MEETING);
  }

  /** The start of a rotation towards one approved peer, whatever else is in flight. */
  lemma Prepares(A: Node, peer: NodeId, row: Row, facts: set<Fact>)
    requires A.key.gen == 0 && A.nextGen == 1 && A.nextNonce == 0 && A.rotating.Idle?
    requires A.store.trust == map[peer := row] && !row.stage.Revoked? && row.remoteApproved && A.store.owed == map[] && A.store.window.None?
    ensures var nonce, k0, k1 := Nonce(A.id, 0), A.key, Key(A.id, 1);
      var listed := A.(rotating := Listed(map[peer := row.localApproved], k0));
      var prepares := DoRotateCommit(map[peer := nonce], 1, 0);
      && Can(A, DoRotateList, facts) && Local(A, DoRotateList, facts) == listed && Signs(A, DoRotateList) == {}
      && Can(listed, prepares, facts) && Signs(listed, prepares) == {}
      && Local(listed, prepares, facts) == A.(
           nextGen := 2, nextNonce := 1, store := A.store.(owed := map[peer := Rotation(nonce, k1, 0, None, k0)], window := Some(k1)),
           rotating := Committed(k1, map[peer := row.localApproved], k0))
  {
    var nonce, k0, k1 := Nonce(A.id, 0), A.key, Key(A.id, 1);
    assert RotationPeers(A.store) == map[peer := row.localApproved];
    assert (map[peer := row.localApproved]).Keys == {peer};
    assert RotationStatements({peer}, map[peer := nonce], k1, k0, 0) == map[peer := Rotation(nonce, k1, 0, None, k0)];
    assert A.store.owed + map[peer := Rotation(nonce, k1, 0, None, k0)] == map[peer := Rotation(nonce, k1, 0, None, k0)];
  }

  lemma AlicePrepares()
    ensures Leads(Two(ALICE_MET, BOB_WAITS, SAID), ROTATING[0], Two(MET_LISTED, BOB_WAITS, SAID))
    ensures Leads(Two(MET_LISTED, BOB_WAITS, SAID), ROTATING[1], Two(MET_COMMITTED, BOB_WAITS, SAID))
  {
    Prepares(ALICE_MET, BOB, INVITED_STORE.trust[BOB], SAID);
    AliceMoves(ALICE_MET, MET_LISTED, BOB_WAITS, SAID, DoRotateList);
    AliceMoves(MET_LISTED, MET_COMMITTED, BOB_WAITS, SAID, PREPARES);
  }

  lemma RotatingRuns()
    ensures var w := Two(ALICE_MET, BOB_WAITS, SAID);
      Goes(w, ROTATING, Two(MET_COMMITTED, BOB_WAITS, SAID)) && QuietRun(w, ROTATING, ALICE, BOB)
  {
    var ws := [Two(ALICE_MET, BOB_WAITS, SAID), Two(MET_LISTED, BOB_WAITS, SAID), Two(MET_COMMITTED, BOB_WAITS, SAID)];
    AlicePrepares();
    QuietByAlice(ALICE_MET, BOB_WAITS, SAID, DoRotateList);
    QuietByAlice(MET_LISTED, BOB_WAITS, SAID, PREPARES);
    ThroughRuns(ws, ROTATING);
    ThroughQuietly(ws, ROTATING, ALICE, BOB);
  }

  lemma AliceLooks()
    ensures Leads(Two(MET_COMMITTED, BOB_WAITS, SAID), LOOKING[0], Two(MET_SCANNED, BOB_WAITS, SAID))
    ensures Leads(Two(MET_SCANNED, BOB_WAITS, SAID), LOOKING[1], Two(MET_LOOKED, BOB_WAITS, SAID))
  {
    assert (map[BOB := OWED]) - {BOB} == map[];
    AliceMoves(MET_COMMITTED, MET_SCANNED, BOB_WAITS, SAID, DoScan);
    AliceMoves(MET_SCANNED, MET_LOOKED, BOB_WAITS, SAID, DoLook(BOB));
  }

  lemma AliceReadsAndSwaps()
    ensures Leads(Two(MET_LOOKED, BOB_WAITS, SAID), READING[0], Two(MET_LOOKED, BOB_WAITS, SAID))
    ensures Leads(Two(MET_LOOKED, BOB_WAITS, SAID), READING[1], Two(MET_SWAPPED, BOB_WAITS, SAID))
  {
    assert INVITED_PROC.seen + {A0} == INVITED_PROC.seen;
    AliceMoves(MET_LOOKED, MET_LOOKED, BOB_WAITS, SAID, DoReadKey);
    AliceMoves(MET_LOOKED, MET_SWAPPED, BOB_WAITS, SAID, DoSwap);
  }

  lemma LookingRuns()
    ensures var w := Two(MET_COMMITTED, BOB_WAITS, SAID); Goes(w, LOOKING, Two(MET_LOOKED, BOB_WAITS, SAID)) && QuietRun(w, LOOKING, ALICE, BOB)
  {
    var B := BOB_WAITS;
    var ws := [Two(MET_COMMITTED, B, SAID), Two(MET_SCANNED, B, SAID), Two(MET_LOOKED, B, SAID)];
    AliceLooks();
    QuietByAlice(MET_COMMITTED, B, SAID, DoScan);
    QuietByAlice(MET_SCANNED, B, SAID, DoLook(BOB));
    ThroughRuns(ws, LOOKING);
    ThroughQuietly(ws, LOOKING, ALICE, BOB);
  }

  lemma ReadingRuns()
    ensures var w := Two(MET_LOOKED, BOB_WAITS, SAID); Goes(w, READING, Two(MET_SWAPPED, BOB_WAITS, SAID)) && QuietRun(w, READING, ALICE, BOB)
  {
    var B := BOB_WAITS;
    var ws := [Two(MET_LOOKED, B, SAID), Two(MET_LOOKED, B, SAID), Two(MET_SWAPPED, B, SAID)];
    AliceReadsAndSwaps();
    QuietByAlice(MET_LOOKED, B, SAID, DoReadKey);
    QuietByAlice(MET_LOOKED, B, SAID, DoSwap);
    ThroughRuns(ws, READING);
    ThroughQuietly(ws, READING, ALICE, BOB);
  }

  lemma AliceAbandons()
    ensures Can(MET_SWAPPED, CHECKS, SAID) && AbandonsLate(MET_SWAPPED, BOB_WAITS, CHECKS)
    ensures Local(MET_SWAPPED, CHECKS, SAID) == MET_ABANDONED && Signs(MET_SWAPPED, CHECKS) == {}
  {
    Distinct();
    assert AbandonRotation(MET_SWAPPED.store) == INVITED_STORE;
    assert MET_SWAPPED.proc.redrive.looked - {BOB} == map[];
  }

  lemma QuietSwap()
    ensures var w, trace := Two(ALICE_MET, BOB_WAITS, SAID), ROTATING + LOOKING + READING;
      Goes(w, trace, Two(MET_SWAPPED, BOB_WAITS, SAID)) && QuietRun(w, trace, ALICE, BOB)
  {
    RotatingRuns(); LookingRuns(); ReadingRuns();
    RunConcat(Two(ALICE_MET, BOB_WAITS, SAID), ROTATING, LOOKING);
    QuietConcat(Two(ALICE_MET, BOB_WAITS, SAID), ROTATING, LOOKING, ALICE, BOB);
    RunConcat(Two(ALICE_MET, BOB_WAITS, SAID), ROTATING + LOOKING, READING);
    QuietConcat(Two(ALICE_MET, BOB_WAITS, SAID), ROTATING + LOOKING, READING, ALICE, BOB);
  }

  /**
   * The re-drive pass reads the key, the swap completes, and the check that follows takes the
   * window for a crash leftover: it abandons every statement after the swap, and Bob, with whom
   * the relation was established, pins a key Alice neither uses nor can prove. Every step before
   * that check is quiet.
   */
  lemma LateAbandonLosesPeer()
    ensures Init(START) && Goes(START, MEETING, Two(ALICE_MET, BOB_WAITS, SAID)) && Established(ALICE_MET, BOB_WAITS)
    ensures var w, trace := Two(ALICE_MET, BOB_WAITS, SAID), ROTATING + LOOKING + READING;
      Goes(w, trace, Two(MET_SWAPPED, BOB_WAITS, SAID)) && QuietRun(w, trace, ALICE, BOB)
    ensures Leads(Two(MET_SWAPPED, BOB_WAITS, SAID), Act(ALICE, CHECKS), Two(MET_ABANDONED, BOB_WAITS, SAID))
    ensures Continuous(MET_SWAPPED, BOB, BOB_WAITS.store) && !Continuous(MET_ABANDONED, BOB, BOB_WAITS.store)
  {
    MeetingRuns();
    QuietSwap();
    AbandonedStep();
    AbandonedIsLost();
  }

  lemma AbandonedStep()
    ensures Leads(Two(MET_SWAPPED, BOB_WAITS, SAID), Act(ALICE, CHECKS), Two(MET_ABANDONED, BOB_WAITS, SAID))
  {
    AliceAbandons();
    ByAlice(MET_SWAPPED, BOB_WAITS, SAID, CHECKS);
    assert SAID + {} == SAID;
  }

  lemma AbandonedIsLost()
    ensures Init(START) && Established(ALICE_MET, BOB_WAITS)
    ensures Continuous(MET_SWAPPED, BOB, BOB_WAITS.store) && !Continuous(MET_ABANDONED, BOB, BOB_WAITS.store)
  {
    Distinct();
  }

  // ---- a last approval withdrawn by an old statement ---------------------------------------------

  // Mallory speaks as Alice, so that Bob rotates towards Alice without any approval of Bob's.
  const LURE := Payload(ALICE, BOB, M0, B0, true, Nonce(MALLORY, 0), 0, None)
  const LURED := DoIntroduce(B0, Message(LURE, Some(M0), None), 0)
  const STALE := Attempt(ALICE, A0, false, Nonce(BOB, 0), Some(B0))
  const STALE_P := Payload(BOB, ALICE, B1, A0, false, Nonce(BOB, 0), 0, None)
  const RENEWED := Attempt(ALICE, A0, true, Nonce(BOB, 1), None)
  const RENEWED_P := Payload(BOB, ALICE, B1, A0, true, Nonce(BOB, 1), 0, None)
  const FACTS_L := {Fact(M0, LURE)}
  const FACTS_S := FACTS_L + SignedBy(B1, Some(B0), STALE_P)
  const FACTS_R := FACTS_S + SignedBy(B1, None, RENEWED_P)

  const BOB_READ := Newborn(BOB).(proc := NOTHING_IN_FLIGHT.(seen := {B0}))
  const LURED_ROW := Row(Pending, Some(M0), false, true)
  const BOB_LURED := BOB_READ.(
    store := Store(map[ALICE := LURED_ROW], map[], None, map[Slot(ALICE, Nonce(MALLORY, 0)) := 0]),
    proc := BOB_READ.proc.(answers := {Answer(ALICE, M0, false, Nonce(MALLORY, 0))}))
  const BOB_LISTED := BOB_LURED.(rotating := Listed(map[ALICE := false], B0))
  const BOB_COMMITTED := BOB_LURED.(
    nextGen := 2, nextNonce := 1,
    store := BOB_LURED.store.(owed := map[ALICE := Rotation(Nonce(BOB, 0), B1, 0, None, B0)], window := Some(B1)),
    rotating := Committed(B1, map[ALICE := false], B0))
  const BOB_SWAPPED := BOB_COMMITTED.(key := B1, rotating := Swapped(map[ALICE := false], B0))
  const BOB_DRAFTED := BOB_SWAPPED.(rotating := Swapped(map[], B0), proc := BOB_LURED.proc.(drafts := {STALE}))
  const BOB_SENT := BOB_DRAFTED.(proc := BOB_LURED.proc.(sent := {STALE}))
  const BOB_REVOKED := BOB_SENT.(store := Store(map[ALICE := RevokedRow()], map[], None, BOB_LURED.store.nonces))
  const BOB_RENEWS := BOB_REVOKED.(
    nextNonce := 2,
    store := Store(map[ALICE := Row(Pending, Some(A0), true, false)], map[ALICE := Approval(Nonce(BOB, 1), B1, 0, None)], None, BOB_LURED.store.nonces),
    proc := BOB_SENT.proc.(drafts := {RENEWED}))
  const BOB_RENEWED := BOB_RENEWS.(proc := BOB_SENT.proc.(sent := {STALE, RENEWED}))

  const BOB_PREPARES := DoRotateCommit(map[ALICE := Nonce(BOB, 0)], 1, 0)
  const BOB_ASKS_AGAIN := DoRequest(ALICE, A0, B1, Nonce(BOB, 1), 0)

  const LURING := [Forge(M0, LURE), Act(BOB, DoReadKey), Act(BOB, LURED), Act(BOB, DoRotateList), Act(BOB, BOB_PREPARES)]
  const STALLING := [Act(BOB, DoSwap), Act(BOB, DoRotateSend(ALICE, A0)), Act(BOB, DoSign(STALE, 0))]
  const RENEWING := [Act(BOB, DoRevoke(ALICE)), Act(BOB, BOB_ASKS_AGAIN), Act(BOB, DoSign(RENEWED, 0))]

  lemma BobIsLured()
    ensures Can(Newborn(BOB), DoReadKey, FACTS_L) && Local(Newborn(BOB), DoReadKey, FACTS_L) == BOB_READ && Signs(Newborn(BOB), DoReadKey) == {}
    ensures Can(BOB_READ, LURED, FACTS_L) && Local(BOB_READ, LURED, FACTS_L) == BOB_LURED && Signs(BOB_READ, LURED) == {}
  {}

  lemma LuringRuns()
    ensures Goes(START, LURING, Two(Newborn(ALICE), BOB_COMMITTED, FACTS_L))
  {
    var A := Newborn(ALICE);
    var ws := [START, Two(A, Newborn(BOB), FACTS_L), Two(A, BOB_READ, FACTS_L), Two(A, BOB_LURED, FACTS_L), Two(A, BOB_LISTED, FACTS_L), Two(A, BOB_COMMITTED, FACTS_L)];
    BobIsLured();
    Prepares(BOB_LURED, ALICE, LURED_ROW, FACTS_L);
    ByMallory(A, Newborn(BOB), {}, LURE);
    ByBob(A, Newborn(BOB), FACTS_L, DoReadKey);
    ByBob(A, BOB_READ, FACTS_L, LURED);
    ByBob(A, BOB_LURED, FACTS_L, DoRotateList);
    ByBob(A, BOB_LISTED, FACTS_L, BOB_PREPARES);
    ThroughRuns(ws, LURING);
  }

  lemma BobStalls()
    ensures Can(BOB_COMMITTED, DoSwap, FACTS_L) && Local(BOB_COMMITTED, DoSwap, FACTS_L) == BOB_SWAPPED
    ensures var op := DoRotateSend(ALICE, A0); Can(BOB_SWAPPED, op, FACTS_L) && Local(BOB_SWAPPED, op, FACTS_L) == BOB_DRAFTED
    ensures Can(BOB_DRAFTED, DoSign(STALE, 0), FACTS_L) && Local(BOB_DRAFTED, DoSign(STALE, 0), FACTS_L) == BOB_SENT
    ensures FACTS_L + Signs(BOB_DRAFTED, DoSign(STALE, 0)) == FACTS_S
  {
    assert (map[ALICE := false]) - {ALICE} == map[];
  }

  lemma StallingRuns()
    ensures var w := Two(Newborn(ALICE), BOB_COMMITTED, FACTS_L); Goes(w, STALLING, Two(Newborn(ALICE), BOB_SENT, FACTS_S))
  {
    var A := Newborn(ALICE);
    var ws := [Two(A, BOB_COMMITTED, FACTS_L), Two(A, BOB_SWAPPED, FACTS_L), Two(A, BOB_DRAFTED, FACTS_L), Two(A, BOB_SENT, FACTS_S)];
    BobStalls();
    ByBob(A, BOB_COMMITTED, FACTS_L, DoSwap);
    ByBob(A, BOB_SWAPPED, FACTS_L, DoRotateSend(ALICE, A0));
    ByBob(A, BOB_DRAFTED, FACTS_L, DoSign(STALE, 0));
    ThroughRuns(ws, STALLING);
  }

  lemma BobRenews()
    ensures Can(BOB_SENT, DoRevoke(ALICE), FACTS_S) && Local(BOB_SENT, DoRevoke(ALICE), FACTS_S) == BOB_REVOKED
    ensures Can(BOB_REVOKED, BOB_ASKS_AGAIN, FACTS_S) && Local(BOB_REVOKED, BOB_ASKS_AGAIN, FACTS_S) == BOB_RENEWS
    ensures Can(BOB_RENEWS, DoSign(RENEWED, 0), FACTS_S) && Local(BOB_RENEWS, DoSign(RENEWED, 0), FACTS_S) == BOB_RENEWED
    ensures FACTS_S + Signs(BOB_RENEWS, DoSign(RENEWED, 0)) == FACTS_R
  {
    assert BOB_SENT.store.owed - {ALICE} == map[];
    assert !OwesAnyRotation(BOB_SENT.store.(trust := BOB_REVOKED.store.trust, owed := map[]));
  }

  lemma RenewingRuns()
    ensures var w := Two(Newborn(ALICE), BOB_SENT, FACTS_S); Goes(w, RENEWING, Two(Newborn(ALICE), BOB_RENEWED, FACTS_R))
  {
    var A := Newborn(ALICE);
    var ws := [Two(A, BOB_SENT, FACTS_S), Two(A, BOB_REVOKED, FACTS_S), Two(A, BOB_RENEWS, FACTS_S), Two(A, BOB_RENEWED, FACTS_R)];
    BobRenews();
    ByBob(A, BOB_SENT, FACTS_S, DoRevoke(ALICE));
    ByBob(A, BOB_REVOKED, FACTS_S, BOB_ASKS_AGAIN);
    ByBob(A, BOB_RENEWS, FACTS_S, DoSign(RENEWED, 0));
    ThroughRuns(ws, RENEWING);
  }

  const HEARS_RENEWED := DoIntroduce(A0, Message(RENEWED_P, Some(B1), None), 0)
  const HEARS_STALE := DoIntroduce(A0, Message(STALE_P, Some(B1), None), 0)
  const ALICE_RELATED := ALICE_READ.(
    store := Store(map[BOB := Row(Pending, Some(B1), false, true)], map[], None, map[Slot(BOB, Nonce(BOB, 1)) := 0]),
    proc := ALICE_READ.proc.(answers := {Answer(BOB, B1, false, Nonce(BOB, 1))}))
  const ALICE_BARE := ALICE_READ.(
    store := Store(map[BOB := Row(Pending, Some(B1), false, false)], map[], None, map[Slot(BOB, Nonce(BOB, 1)) := 0, Slot(BOB, Nonce(BOB, 0)) := 0]),
    proc := ALICE_READ.proc.(answers := {Answer(BOB, B1, false, Nonce(BOB, 1)), Answer(BOB, B1, false, Nonce(BOB, 0))}))
  const BARE_LISTED := ALICE_BARE.(rotating := Listed(map[], A0))
  const BARE_COMMITTED := ALICE_BARE.(nextGen := 2, rotating := Committed(A1, map[], A0))
  const BARE_SWAPPED := BARE_COMMITTED.(key := A1, rotating := Swapped(map[], A0))

  const RELATING := [Act(ALICE, DoReadKey), Act(ALICE, HEARS_RENEWED)]
  const WITHDRAWING := [Act(ALICE, HEARS_STALE), Act(ALICE, DoRotateList)]

  lemma AliceRelates()
    ensures Can(ALICE_READ, HEARS_RENEWED, FACTS_R) && Local(ALICE_READ, HEARS_RENEWED, FACTS_R) == ALICE_RELATED && Signs(ALICE_READ, HEARS_RENEWED) == {}
  {}

  lemma AliceIsBared()
    ensures Can(ALICE_RELATED, HEARS_STALE, FACTS_R)
    ensures Local(ALICE_RELATED, HEARS_STALE, FACTS_R) == ALICE_BARE && Signs(ALICE_RELATED, HEARS_STALE) == {}
  {
    assert Consume(ALICE_RELATED.store.nonces, Arrival(SlotOf(STALE_P), 0, 0)) == ALICE_BARE.store.nonces;
  }

  lemma RelatingRuns()
    ensures var w := Two(Newborn(ALICE), BOB_RENEWED, FACTS_R); Goes(w, RELATING, Two(ALICE_RELATED, BOB_RENEWED, FACTS_R))
  {
    var B := BOB_RENEWED;
    var ws := [Two(Newborn(ALICE), B, FACTS_R), Two(ALICE_READ, B, FACTS_R), Two(ALICE_RELATED, B, FACTS_R)];
    AliceReads(FACTS_R); AliceRelates();
    ByAlice(Newborn(ALICE), B, FACTS_R, DoReadKey);
    ByAlice(ALICE_READ, B, FACTS_R, HEARS_RENEWED);
    ThroughRuns(ws, RELATING);
  }

  lemma Bared()
    ensures Leads(Two(ALICE_RELATED, BOB_RENEWED, FACTS_R), Act(ALICE, HEARS_STALE), Two(ALICE_BARE, BOB_RENEWED, FACTS_R))
  {
    AliceIsBared();
    AliceMoves(ALICE_RELATED, ALICE_BARE, BOB_RENEWED, FACTS_R, HEARS_STALE);
  }

  lemma BareLists()
    ensures Leads(Two(ALICE_BARE, BOB_RENEWED, FACTS_R), Act(ALICE, DoRotateList), Two(BARE_LISTED, BOB_RENEWED, FACTS_R))
  {
    assert RotationPeers(ALICE_BARE.store) == map[];
    AliceMoves(ALICE_BARE, BARE_LISTED, BOB_RENEWED, FACTS_R, DoRotateList);
  }

  lemma BareCommits()
    ensures Leads(Two(BARE_LISTED, BOB_RENEWED, FACTS_R), SWAPPING[0], Two(BARE_COMMITTED, BOB_RENEWED, FACTS_R))
  {
    AliceMoves(BARE_LISTED, BARE_COMMITTED, BOB_RENEWED, FACTS_R, DoRotateCommit(map[], 0, 0));
  }

  lemma BareSwaps()
    ensures Leads(Two(BARE_COMMITTED, BOB_RENEWED, FACTS_R), SWAPPING[1], Two(BARE_SWAPPED, BOB_RENEWED, FACTS_R))
  {
    AliceMoves(BARE_COMMITTED, BARE_SWAPPED, BOB_RENEWED, FACTS_R, DoSwap);
  }

  lemma BareRuns()
    ensures Goes(Two(ALICE_RELATED, BOB_RENEWED, FACTS_R), WITHDRAWING, Two(BARE_LISTED, BOB_RENEWED, FACTS_R))
  {
    var B := BOB_RENEWED;
    Bared(); BareLists();
    ThroughRuns([Two(ALICE_RELATED, B, FACTS_R), Two(ALICE_BARE, B, FACTS_R), Two(BARE_LISTED, B, FACTS_R)], WITHDRAWING);
  }

  lemma BareSwapRuns()
    ensures Goes(Two(BARE_LISTED, BOB_RENEWED, FACTS_R), SWAPPING, Two(BARE_SWAPPED, BOB_RENEWED, FACTS_R))
  {
    var B := BOB_RENEWED;
    BareCommits(); BareSwaps();
    ThroughRuns([Two(BARE_LISTED, B, FACTS_R), Two(BARE_COMMITTED, B, FACTS_R), Two(BARE_SWAPPED, B, FACTS_R)], SWAPPING);
  }

  lemma LosingRuns()
    ensures Goes(Two(ALICE_RELATED, BOB_RENEWED, FACTS_R), WITHDRAWING + SWAPPING, Two(BARE_SWAPPED, BOB_RENEWED, FACTS_R))
  {
    BareRuns();
    BareSwapRuns();
    RunConcat(Two(ALICE_RELATED, BOB_RENEWED, FACTS_R), WITHDRAWING, SWAPPING);
  }

  lemma WithdrawingRuns()
    ensures Goes(START, LURING + STALLING + RENEWING + RELATING, Two(ALICE_RELATED, BOB_RENEWED, FACTS_R))
  {
    LuringRuns(); StallingRuns(); RenewingRuns(); RelatingRuns();
    RunConcat(START, LURING, STALLING);
    RunConcat(START, LURING + STALLING, RENEWING);
    RunConcat(START, LURING + STALLING + RENEWING, RELATING);
  }

  /**
   * A statement Bob signed before approving Alice arrives after the relation is established and
   * takes the approval back; Alice's next rotation leaves Bob out, who then pins a key Alice neither
   * uses nor can prove. Nobody revokes anybody after the relation is established.
   */
  lemma WithdrawalLosesPeer()
    ensures Init(START) && Goes(START, LURING + STALLING + RENEWING + RELATING, Two(ALICE_RELATED, BOB_RENEWED, FACTS_R))
    ensures Established(ALICE_RELATED, BOB_RENEWED) && BOB in RotationPeers(ALICE_RELATED.store) && BOB !in RotationPeers(ALICE_BARE.store)
    ensures Goes(Two(ALICE_RELATED, BOB_RENEWED, FACTS_R), WITHDRAWING + SWAPPING, Two(BARE_SWAPPED, BOB_RENEWED, FACTS_R))
    ensures !Continuous(BARE_SWAPPED, BOB, BOB_RENEWED.store)
  {
    WithdrawingRuns();
    LosingRuns();
    WithdrawnIsLost();
  }

  lemma WithdrawnIsLost()
    ensures Init(START) && Established(ALICE_RELATED, BOB_RENEWED) && BOB in RotationPeers(ALICE_RELATED.store) && BOB !in RotationPeers(ALICE_BARE.store)
    ensures !Continuous(BARE_SWAPPED, BOB, BOB_RENEWED.store)
  {
    Distinct();
  }

  // ---- a row that holds an impostor's key ----------------------------------------------------------

  const PRETENCE := Payload(BOB, ALICE, M0, A0, true, Nonce(MALLORY, 0), 0, None)
  const FACTS_1 := {Fact(M0, PRETENCE)}
  const BELIEVES := DoIntroduce(A0, Message(PRETENCE, Some(M0), None), 0)

  const FOOLED := ALICE_READ.(
    store := Store(map[BOB := Row(Pending, Some(M0), false, true)], map[], None, map[Slot(BOB, Nonce(MALLORY, 0)) := 0]),
    proc := ALICE_READ.proc.(answers := {Answer(BOB, M0, false, Nonce(MALLORY, 0))}))

  const FOOLING := [Forge(M0, PRETENCE), Act(ALICE, DoReadKey), Act(ALICE, BELIEVES), Act(BOB, ASKS)]

  lemma FoolingRuns()
    ensures Goes(START, FOOLING, Two(FOOLED, BOB_ASKED, FACTS_1))
  {
    var B := Newborn(BOB);
    var ws := [START, Two(Newborn(ALICE), B, FACTS_1), Two(ALICE_READ, B, FACTS_1), Two(FOOLED, B, FACTS_1), Two(FOOLED, BOB_ASKED, FACTS_1)];
    AliceReads(FACTS_1); AliceBelieves(); BobAsks(FACTS_1);
    ByMallory(Newborn(ALICE), B, {}, PRETENCE);
    ByAlice(Newborn(ALICE), B, FACTS_1, DoReadKey);
    ByAlice(ALICE_READ, B, FACTS_1, BELIEVES);
    ByBob(FOOLED, B, FACTS_1, ASKS);
    ThroughRuns(ws, FOOLING);
  }

  lemma AliceBelieves()
    ensures Can(ALICE_READ, BELIEVES, FACTS_1) && Local(ALICE_READ, BELIEVES, FACTS_1) == FOOLED && Signs(ALICE_READ, BELIEVES) == {}
  {}

  lemma FooledIsReached()
    ensures Init(START) && Inv(Two(FOOLED, BOB_ASKED, FACTS_1))
  {
    FoolingRuns();
    InitInv(START);
    RunInv(START, FOOLING);
  }

  lemma FooledHoldsAForeignKey()
    ensures Established(FOOLED, BOB_ASKED) && ForeignRow(Two(FOOLED, BOB_ASKED, FACTS_1), FOOLED, BOB)
    ensures FOOLED.rotating.Idle? && FOOLED.store.window.None? && BOB in RotationPeers(FOOLED.store)
  {
    Distinct();
  }

  /**
   * A stranger introduces themselves as Bob before Bob does, so that Alice's row for Bob holds their
   * key: some quiet run from there lets them settle the rotation, and leaves Bob on the old key.
   */
  lemma ImpostorLosesPeer() returns (trace: seq<Step>)
    ensures var w := Two(FOOLED, BOB_ASKED, FACTS_1);
      && Init(START) && Goes(START, FOOLING, w) && Established(FOOLED, BOB_ASKED)
      && Valid(w, trace) && QuietRun(w, trace, ALICE, BOB) && !Keeps(Run(w, trace), ALICE, BOB)
  {
    FoolingRuns();
    FooledIsReached();
    FooledHoldsAForeignKey();
    trace := ImpostorAfterRotation(Two(FOOLED, BOB_ASKED, FACTS_1), ALICE, BOB);
  }
}
