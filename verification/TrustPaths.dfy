/** Runs put together from single steps and from shorter runs. */
module TrustPaths {
  import opened Prelude
  import opened TrustModel
  import opened TrustWorld
  import opened TrustContinuity

  ghost predicate Leads(w: World, s: Step, w': World) { Enabled(w, s) && Apply(w, s) == w' }

  /** The run `trace` from `w` is possible and ends in `w'`. */
  ghost predicate Goes(w: World, trace: seq<Step>, w': World) { Valid(w, trace) && Run(w, trace) == w' }

  /** The worlds a run passes through. */
  ghost predicate Through(ws: seq<World>, trace: seq<Step>) {
    |ws| == |trace| + 1 && forall i | 0 <= i < |trace| :: Leads(ws[i], trace[i], ws[i + 1])
  }

  lemma {:induction false} ThroughRuns(ws: seq<World>, trace: seq<Step>)
    requires Through(ws, trace)
    ensures Goes(ws[0], trace, ws[|trace|])
    decreases |trace|
  {
    if trace != [] {
      ThroughRuns(ws[..|trace|], trace[..|trace| - 1]);
      assert Leads(ws[|trace| - 1], trace[|trace| - 1], ws[|trace|]);
    }
  }

  lemma {:induction false} RunConcat(w: World, first: seq<Step>, rest: seq<Step>)
    requires Valid(w, first) && Valid(Run(w, first), rest)
    ensures Valid(w, first + rest) && Run(w, first + rest) == Run(Run(w, first), rest)
    decreases |rest|
  {
    if rest == [] {
      assert first + rest == first;
    } else {
      var before := rest[..|rest| - 1];
      RunConcat(w, first, before);
      assert (first + rest)[..|first + rest| - 1] == first + before;
    }
  }

  lemma {:induction false} ThroughQuietly(ws: seq<World>, trace: seq<Step>, a: NodeId, b: NodeId)
    requires Through(ws, trace) && forall i | 0 <= i < |ws| :: a in ws[i].nodes && b in ws[i].nodes
    requires forall i | 0 <= i < |trace| :: Quiet(ws[i], trace[i], a, b)
    ensures Valid(ws[0], trace) && QuietRun(ws[0], trace, a, b)
    decreases |trace|
  {
    ThroughRuns(ws, trace);
    if trace != [] {
      ThroughRuns(ws[..|trace|], trace[..|trace| - 1]);
      ThroughQuietly(ws[..|trace|], trace[..|trace| - 1], a, b);
    }
  }

  lemma QuietSnoc(w: World, trace: seq<Step>, s: Step, a: NodeId, b: NodeId)
    requires a in w.nodes && b in w.nodes && Valid(w, trace) && QuietRun(w, trace, a, b) && Enabled(Run(w, trace), s)
    requires a in Run(w, trace).nodes && b in Run(w, trace).nodes && Quiet(Run(w, trace), s, a, b)
    ensures Valid(w, trace + [s]) && QuietRun(w, trace + [s], a, b)
  {
    assert (trace + [s])[..|trace + [s]| - 1] == trace;
  }

  lemma {:induction false} QuietConcat(w: World, first: seq<Step>, rest: seq<Step>, a: NodeId, b: NodeId)
    requires a in w.nodes && b in w.nodes && Valid(w, first) && QuietRun(w, first, a, b)
    requires a in Run(w, first).nodes && b in Run(w, first).nodes && Valid(Run(w, first), rest) && QuietRun(Run(w, first), rest, a, b)
    ensures Valid(w, first + rest) && QuietRun(w, first + rest, a, b)
    decreases |rest|
  {
    if rest == [] {
      assert first + rest == first;
    } else {
      var before, last := rest[..|rest| - 1], rest[|rest| - 1];
      QuietConcat(w, first, before, a, b);
      RunConcat(w, first, before);
      QuietSnoc(w, first + before, last, a, b);
      assert first + rest == first + before + [last];
    }
  }

  /** A quiet run from `w` to `w'`. */
  ghost predicate QuietPath(w: World, trace: seq<Step>, w': World, a: NodeId, b: NodeId) {
    a in w.nodes && b in w.nodes && Goes(w, trace, w') && QuietRun(w, trace, a, b)
  }

  lemma Extend(w: World, trace: seq<Step>, w': World, s: Step, w'': World, a: NodeId, b: NodeId)
    requires QuietPath(w, trace, w', a, b) && a in w'.nodes && b in w'.nodes && Leads(w', s, w'') && Quiet(w', s, a, b)
    ensures QuietPath(w, trace + [s], w'', a, b)
  {
    QuietSnoc(w, trace, s, a, b);
    assert (trace + [s])[..|trace + [s]| - 1] == trace;
  }
}
