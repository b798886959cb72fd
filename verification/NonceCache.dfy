/**
 * The replay cache of signed statements and requests (`consumeNonce` and the clock checks in
 * front of it).  The clock check and the consumption read the clock once.
 */
module NonceCache {
  import opened Prelude

  const CLOCK_SKEW_MS: int := 300_000

  /** One nonce of one actor; exchange and request nonces live under different slots. */
  datatype Slot = Slot(actor: NodeId, nonce: Nonce)
  type Cache = map<Slot, int>

  /** A signed message as the cache sees it, with the clock reading of its arrival. */
  datatype Arrival = Arrival(slot: Slot, timestamp: int, now: int)

  predicate InWindow(timestamp: int, now: int) {
    now - CLOCK_SKEW_MS <= timestamp <= now + CLOCK_SKEW_MS
  }

  predicate Accepts(c: Cache, a: Arrival) {
    InWindow(a.timestamp, a.now) && a.slot !in c
  }

  /** The cache without every nonce older than the skew window. */
  function Purge(c: Cache, now: int): (r: Cache)
    ensures forall s :: s in r <==> s in c && c[s] >= now - CLOCK_SKEW_MS
    ensures forall s :: s in r ==> r[s] == c[s]
  {
    map s | s in c && c[s] >= now - CLOCK_SKEW_MS :: c[s]
  }

  /** What an accepted arrival leaves behind: old nonces go, its own nonce comes. */
  function Consume(c: Cache, a: Arrival): Cache {
    Purge(c, a.now)[a.slot := a.timestamp]
  }

  // ---- the purging cache against one that never forgets -----------------------------

  /** Both caches after the same arrivals, and the clock reading of the last acceptance. */
  datatype Caches = Caches(bounded: Cache, unbounded: Cache, last: Option<int>)

  function Next(c: Caches, a: Arrival): Caches {
    Caches(if Accepts(c.bounded, a) then Consume(c.bounded, a) else c.bounded,
           if Accepts(c.unbounded, a) then c.unbounded[a.slot := a.timestamp] else c.unbounded,
           if Accepts(c.unbounded, a) then Some(a.now) else c.last)
  }

  function After(arrivals: seq<Arrival>): Caches {
    if arrivals == [] then Caches(map[], map[], None)
    else Next(After(arrivals[..|arrivals| - 1]), arrivals[|arrivals| - 1])
  }

  /** The clock never runs backwards. */
  predicate Ordered(arrivals: seq<Arrival>) {
    forall i, j | 0 <= i < j < |arrivals| :: arrivals[i].now <= arrivals[j].now
  }

  predicate AgreesAt(arrivals: seq<Arrival>, i: nat)
    requires i < |arrivals|
  {
    Accepts(After(arrivals[..i]).bounded, arrivals[i]) == Accepts(After(arrivals[..i]).unbounded, arrivals[i])
  }

  predicate Agrees(arrivals: seq<Arrival>) {
    forall i | 0 <= i < |arrivals| :: AgreesAt(arrivals, i)
  }

  /** The nonce was accepted before, under a timestamp that has left the window since, and comes back under a fresh one. */
  predicate ReusedStale(arrivals: seq<Arrival>, i: nat)
    requires i < |arrivals|
  {
    var c, a := After(arrivals[..i]), arrivals[i];
    && InWindow(a.timestamp, a.now) && a.slot in c.unbounded
    && c.last.Some? && c.unbounded[a.slot] < c.last.value - CLOCK_SKEW_MS
  }

  /** The purging cache is the unbounded one without what is older than the last acceptance allows. */
  predicate IsPurged(c: Caches) {
    && (c.last.None? ==> c.bounded == c.unbounded == map[])
    && (c.last.Some? ==> c.bounded == Purge(c.unbounded, c.last.value))
  }

  lemma PurgedStep(c: Caches, a: Arrival)
    requires IsPurged(c) && (c.last.Some? ==> c.last.value <= a.now)
    requires Accepts(c.bounded, a) == Accepts(c.unbounded, a)
    ensures IsPurged(Next(c, a))
  {}

  lemma {:induction false} PurgedWhileAgreed(arrivals: seq<Arrival>)
    requires Ordered(arrivals) && Agrees(arrivals)
    ensures IsPurged(After(arrivals))
    ensures After(arrivals).last.Some? ==> arrivals != [] && After(arrivals).last.value <= arrivals[|arrivals| - 1].now
  {
    if arrivals != [] {
      var before, a := arrivals[..|arrivals| - 1], arrivals[|arrivals| - 1];
      AgreesBefore(arrivals, |arrivals| - 1);
      PurgedWhileAgreed(before);
      assert AgreesAt(arrivals, |arrivals| - 1);
      PurgedStep(After(before), a);
    }
  }

  lemma AgreesBefore(arrivals: seq<Arrival>, n: nat)
    requires Agrees(arrivals) && n <= |arrivals|
    ensures Agrees(arrivals[..n])
  {
    forall i | 0 <= i < n
      ensures AgreesAt(arrivals[..n], i)
    {
      assert arrivals[..n][..i] == arrivals[..i];
      assert AgreesAt(arrivals, i);
    }
  }

  /** One arrival is judged alike exactly when it does not reuse a nonce that was purged. */
  lemma AgreementAt(arrivals: seq<Arrival>, i: nat)
    requires Ordered(arrivals) && i < |arrivals| && Agrees(arrivals[..i])
    ensures AgreesAt(arrivals, i) <==> !ReusedStale(arrivals, i)
  {
    PurgedWhileAgreed(arrivals[..i]);
  }

  /**
   * The cache that deletes old nonces judges every arrival as an unbounded cache would, exactly
   * when no arrival reuses an accepted nonce under a new timestamp after the old one was purged.
   */
  lemma {:induction false} CacheAgreement(arrivals: seq<Arrival>)
    requires Ordered(arrivals)
    ensures Agrees(arrivals) <==> forall i | 0 <= i < |arrivals| :: !ReusedStale(arrivals, i)
    decreases |arrivals|
  {
    if arrivals != [] {
      var n := |arrivals| - 1;
      var before := arrivals[..n];
      CacheAgreement(before);
      forall i | 0 <= i < n
        ensures ReusedStale(before, i) == ReusedStale(arrivals, i) && AgreesAt(before, i) == AgreesAt(arrivals, i)
      {
        assert before[..i] == arrivals[..i];
      }
      if Agrees(before) { AgreementAt(arrivals, n); }
    }
  }

  /** A nonce identifies one signed message, so it always carries the same timestamp. */
  predicate Stamped(arrivals: seq<Arrival>) {
    forall i, j | 0 <= i < |arrivals| && 0 <= j < |arrivals| && arrivals[i].slot == arrivals[j].slot ::
      arrivals[i].timestamp == arrivals[j].timestamp
  }

  lemma {:induction false} RememberedTimestamp(arrivals: seq<Arrival>, s: Slot)
    requires Ordered(arrivals) && s in After(arrivals).unbounded
    ensures exists i | 0 <= i < |arrivals| :: arrivals[i].slot == s && arrivals[i].timestamp == After(arrivals).unbounded[s]
  {
    var n := |arrivals| - 1;
    var before := arrivals[..n];
    if s in After(before).unbounded && !(Accepts(After(before).unbounded, arrivals[n]) && arrivals[n].slot == s) {
      RememberedTimestamp(before, s);
      var i :| 0 <= i < |before| && before[i].slot == s && before[i].timestamp == After(before).unbounded[s];
      assert arrivals[i] == before[i];
    }
  }

  lemma {:induction false} LastAcceptance(arrivals: seq<Arrival>)
    requires Ordered(arrivals)
    ensures After(arrivals).last.Some? ==> exists i | 0 <= i < |arrivals| :: arrivals[i].now == After(arrivals).last.value
  {
    if arrivals != [] {
      var n := |arrivals| - 1;
      LastAcceptance(arrivals[..n]);
      assert arrivals[n].now == arrivals[|arrivals| - 1].now;
    }
  }

  lemma StampedNeverStale(arrivals: seq<Arrival>, i: nat)
    requires Ordered(arrivals) && Stamped(arrivals) && i < |arrivals|
    ensures !ReusedStale(arrivals, i)
  {
    var before, a := arrivals[..i], arrivals[i];
    if a.slot in After(before).unbounded && After(before).last.Some? {
      RememberedTimestamp(before, a.slot);
      LastAcceptance(before);
      var k :| 0 <= k < |before| && before[k].now == After(before).last.value;
      assert arrivals[k].now <= a.now;
    }
  }

  /** The arrival at `i` was accepted by the purging cache. */
  predicate AcceptedAt(arrivals: seq<Arrival>, i: nat)
    requires i < |arrivals|
  {
    Accepts(After(arrivals[..i]).bounded, arrivals[i])
  }

  /** An accepted nonce stays in the unbounded cache. */
  lemma {:induction false} UnboundedKeeps(arrivals: seq<Arrival>, i: nat, n: nat)
    requires i < n <= |arrivals| && Accepts(After(arrivals[..i]).unbounded, arrivals[i])
    ensures arrivals[i].slot in After(arrivals[..n]).unbounded
    decreases n
  {
    assert arrivals[..n][..n - 1] == arrivals[..n - 1];
    if i < n - 1 { UnboundedKeeps(arrivals, i, n - 1); }
  }

  /** No nonce of one actor is ever accepted twice, and every verdict is the unbounded cache's. */
  lemma NonceAcceptedOnce(arrivals: seq<Arrival>)
    requires Ordered(arrivals) && Stamped(arrivals)
    ensures Agrees(arrivals)
    ensures forall i, j | 0 <= i < j < |arrivals| && AcceptedAt(arrivals, i) && AcceptedAt(arrivals, j) ::
              arrivals[i].slot != arrivals[j].slot
  {
    forall i | 0 <= i < |arrivals| ensures !ReusedStale(arrivals, i) { StampedNeverStale(arrivals, i); }
    CacheAgreement(arrivals);
    forall i, j | 0 <= i < j < |arrivals| && AcceptedAt(arrivals, i) && AcceptedAt(arrivals, j)
      ensures arrivals[i].slot != arrivals[j].slot
    {
      assert AgreesAt(arrivals, i) && AgreesAt(arrivals, j);
      UnboundedKeeps(arrivals, i, j);
    }
  }

  /** A nonce its owner reuses under a new timestamp can be accepted twice. */
  lemma ReusedNonceAcceptedTwice(s: Slot, other: Slot)
    requires s != other
    ensures var arrivals := [Arrival(s, 0, 0), Arrival(other, 400_000, 400_000), Arrival(s, 400_000, 400_000)];
            Ordered(arrivals) && AcceptedAt(arrivals, 0) && AcceptedAt(arrivals, 2)
  {}
}
