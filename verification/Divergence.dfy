/** Per-edge attenuation, per-path divergence and per-hop drift over an observed graph. */
module Divergence {
  import opened Wrappers
  import opened Outcomes
  import opened Models
  import opened Acyclicity
  import opened Graphs
  import opened Trees

  datatype DivergenceKind = Expansion | Narrowing | Mixed | Unmeasured

  datatype DriftClass = Originated | Propagated | Amplified | Corrected

  datatype DivergencePoint = DivergencePoint(hopIndex: nat, identityId: IdentityId, kind: DivergenceKind,
                                             gain: AuthoritySet, loss: AuthoritySet)

  datatype EdgeDivergence = EdgeDivergence(
    edgeId: string,
    expectedObserved: AuthoritySet,
    expectedIntended: AuthoritySet,
    attenuationCorrect: bool,
    attenuationCorrectVsIntent: bool,
    survivedIncorrectly: AuthoritySet,
    droppedIncorrectly: AuthoritySet,
    droppedIncorrectlyVsIntent: AuthoritySet)

  datatype UnmeasuredEndpoint = UnmeasuredSource(id: IdentityId) | UnmeasuredTarget(id: IdentityId)

  // ---- Edges --------------------------------------------------------------------

  /** What one hop did with the authority its source was observed to hold. */
  function Compare(edgeId: string, source: AuthoritySet, sourceExpected: AuthoritySet, intended: AuthoritySet,
                   target: AuthoritySet): EdgeDivergence {
    var expectedObserved, expectedIntended := source * intended, sourceExpected * intended;
    EdgeDivergence(edgeId, expectedObserved, expectedIntended, target == expectedObserved, target == expectedIntended,
                   target - intended, expectedObserved - target, expectedIntended - target)
  }

  /** Both endpoints must have been measured. */
  function DivergenceOf(g: Graph, e: Edge): Result<EdgeDivergence, UnmeasuredEndpoint>
    requires g.Knows(e.sourceId) && g.Knows(e.targetId)
  {
    var source, target := g.NodeOf(e.sourceId), g.NodeOf(e.targetId);
    if source.observed.None? then Err(UnmeasuredSource(source.identityId))
    else if target.observed.None? then Err(UnmeasuredTarget(target.identityId))
    else Ok(Compare(e.edgeId, source.observed.value.capabilities, source.expected, e.intended,
                    target.observed.value.capabilities))
  }

  /**
   A hop attenuates correctly exactly when nothing survives, nothing is dropped, and nothing intended appears from
   nowhere; against what its source was observed to hold, and likewise against what it was expected to.
   */
  lemma CorrectIff(edgeId: string, source: AuthoritySet, sourceExpected: AuthoritySet, intended: AuthoritySet,
                   target: AuthoritySet)
    ensures var d := Compare(edgeId, source, sourceExpected, intended, target);
            (d.attenuationCorrect <==>
               d.survivedIncorrectly == {} && d.droppedIncorrectly == {} && target * intended <= source) &&
            (d.attenuationCorrectVsIntent <==>
               d.survivedIncorrectly == {} && d.droppedIncorrectlyVsIntent == {} && target * intended <= sourceExpected)
  {
    AttenuatesIff(source, intended, target);
    AttenuatesIff(sourceExpected, intended, target);
  }

  /**
   What the verdict on a hop says of its two nodes: there is one exactly if both were measured, and it compares what the
   target was observed to hold with what its source was observed, and was expected, to hold and the hop intended.
   */
  lemma VerdictReads(g: Graph, e: Edge)
    requires g.Knows(e.sourceId) && g.Knows(e.targetId)
    ensures var source, target := g.NodeOf(e.sourceId), g.NodeOf(e.targetId);
            match DivergenceOf(g, e)
            case Err(UnmeasuredSource(id)) => source.observed.None? && id == e.sourceId
            case Err(UnmeasuredTarget(id)) => source.observed.Some? && target.observed.None? && id == e.targetId
            case Ok(d) =>
              source.observed.Some? && target.observed.Some? && d.edgeId == e.edgeId &&
              var had, holds := source.observed.value.capabilities, target.observed.value.capabilities;
              (d.attenuationCorrect <==> forall c :: c in holds <==> c in had && c in e.intended) &&
              (d.attenuationCorrectVsIntent <==> forall c :: c in holds <==> c in source.expected && c in e.intended) &&
              (forall c :: c in d.survivedIncorrectly <==> c in holds && c !in e.intended) &&
              (forall c :: c in d.droppedIncorrectly <==> c in had && c in e.intended && c !in holds) &&
              forall c :: c in d.droppedIncorrectlyVsIntent <==>
                c in source.expected && c in e.intended && c !in holds
  {
    var source, target := g.NodeOf(e.sourceId), g.NodeOf(e.targetId);
    if source.observed.Some? && target.observed.Some? {
      SameSet(target.observed.value.capabilities, source.observed.value.capabilities, e.intended);
      SameSet(target.observed.value.capabilities, source.expected, e.intended);
    }
  }

  lemma SameSet(s: AuthoritySet, a: AuthoritySet, b: AuthoritySet)
    ensures s == a * b <==> forall c :: c in s <==> c in a && c in b
  {
    if forall c :: c in s <==> c in a && c in b {
      assert forall c :: c in s <==> c in a * b;
    }
  }

  lemma AttenuatesIff(source: AuthoritySet, intended: AuthoritySet, target: AuthoritySet)
    ensures target == source * intended <==>
            target - intended == {} && source * intended - target == {} && target * intended <= source
  {
    if target - intended == {} && source * intended - target == {} && target * intended <= source {
      forall c ensures c in target <==> c in source * intended {
        assert c !in target - intended && c !in source * intended - target;
        assert c in target * intended ==> c in source;
      }
    }
  }

  /** The third condition is needed: authority the hop intended but its source never held leaves both sets empty. */
  lemma SurvivedAndDroppedAreNotEnough(edgeId: string, c: Capability)
    ensures var d := Compare(edgeId, {}, {c}, {c}, {c});
            d.survivedIncorrectly == {} && d.droppedIncorrectly == {} && !d.attenuationCorrect
  {
  }

  // ---- Nodes ---------------------------------------------------------------------

  function ParentOf(g: Graph, n: Node): (p: Option<Node>)
    requires n.parentId.Some? ==> g.Knows(n.parentId.value)
  {
    if n.parentId.None? then None else Some(g.NodeOf(n.parentId.value))
  }

  function ClassifyDrift(n: Node, parent: Option<Node>): Option<DriftClass> {
    var gain := n.UnexpectedGain();
    var gainParent := if parent.Some? then parent.value.UnexpectedGain() else {};
    if gainParent == {} && gain == {} then None
    else if gainParent != {} && gain == {} then Some(Corrected)
    else if gainParent != {} && gain >= gainParent && gain != gainParent then Some(Amplified)
    else if gain <= gainParent then Some(Propagated)
    else Some(Originated)
  }

  /** What each class says about the two gains, both ways. */
  lemma DriftMeans(n: Node, parent: Option<Node>)
    ensures var gain := n.UnexpectedGain();
            var above := if parent.Some? then parent.value.UnexpectedGain() else {};
            var d := ClassifyDrift(n, parent);
            (d == None <==> gain == {} && above == {}) &&
            (d == Some(Corrected) <==> gain == {} && above != {}) &&
            (d == Some(Propagated) <==> gain != {} && gain <= above) &&
            (d == Some(Amplified) <==> above != {} && above < gain) &&
            (d == Some(Originated) <==> gain != {} && !(gain <= above) && (above == {} || !(above <= gain)))
  {
  }

  // ---- Paths ------------------------------------------------------------------------

  ghost predicate AllKnown(g: Graph, path: seq<IdentityId>) {
    forall i :: 0 <= i < |path| ==> g.Knows(path[i])
  }

  function PointAt(n: Node): DivergencePoint {
    if n.observed.None? then
      DivergencePoint(n.hopIndex, n.identityId, Unmeasured, {}, {})
    else
      var gain, loss := n.UnexpectedGain(), n.UnexpectedLoss();
      DivergencePoint(n.hopIndex, n.identityId, if gain != {} && loss != {} then Mixed else if gain != {} then
                      Expansion else Narrowing, gain, loss)
  }

  /** What a divergence point says of its node, set by set. */
  lemma PointMeans(n: Node)
    ensures var p := PointAt(n);
            p.hopIndex == n.hopIndex && p.identityId == n.identityId && (p.kind.Unmeasured? <==> n.observed.None?) &&
            (n.observed.None? ==> p.gain == p.loss == {}) &&
            (n.observed.Some? ==>
               var held := n.observed.value.capabilities;
               (forall c :: c in p.gain <==> c in held && c !in n.expected) &&
               (forall c :: c in p.loss <==> c in n.expected && c !in held) &&
               (!Agrees(n) ==>
                  (p.kind.Mixed? <==> !(held <= n.expected) && !(n.expected <= held)) &&
                  (p.kind.Expansion? <==> n.expected < held) && (p.kind.Narrowing? <==> held < n.expected)))
    ensures Agrees(n) <==> n.observed.Some? && n.observed.value.capabilities == n.expected
  {
    if n.observed.Some? {
      var held := n.observed.value.capabilities;
      assert held - n.expected == {} <==> held <= n.expected by {
        forall c | c in held && held - n.expected == {} ensures c in n.expected { assert c !in held - n.expected; }
      }
      assert n.expected - held == {} <==> n.expected <= held by {
        forall c | c in n.expected && n.expected - held == {} ensures c in held { assert c !in n.expected - held; }
      }
    }
  }

  predicate Agrees(n: Node) {
    n.observed.Some? && !n.Diverged()
  }

  /** The first node of the path that is unmeasured or diverges. */
  method FirstDivergence(g: Graph, path: seq<IdentityId>) returns (r: Option<DivergencePoint>)
    requires AllKnown(g, path)
    ensures r.None? <==> forall i :: 0 <= i < |path| ==> Agrees(g.NodeOf(path[i]))
    ensures r.Some? ==>
            exists i :: 0 <= i < |path| && !Agrees(g.NodeOf(path[i])) && r.value == PointAt(g.NodeOf(path[i])) &&
                                    forall j :: 0 <= j < i ==> Agrees(g.NodeOf(path[j]))
  {
    for k := 0 to |path|
      invariant forall i :: 0 <= i < k ==> Agrees(g.NodeOf(path[i]))
    {
      var n := g.NodeOf(path[k]);
      if n.observed.None? {
        return Some(DivergencePoint(n.hopIndex, n.identityId, Unmeasured, {}, {}));
      }
      var gain, loss := n.UnexpectedGain(), n.UnexpectedLoss();
      if gain == {} && loss == {} {
        continue;
      }
      var kind := if gain != {} && loss != {} then Mixed else if gain != {} then Expansion else Narrowing;
      return Some(DivergencePoint(n.hopIndex, n.identityId, kind, gain, loss));
    }
    return None;
  }

  /** The authority sets observed along a path, unmeasured nodes skipped. */
  function MeasuredAlong(g: Graph, path: seq<IdentityId>): seq<AuthoritySet>
    requires AllKnown(g, path)
  {
    if path == [] then
      []
    else
      var n := g.NodeOf(path[|path| - 1]);
      MeasuredAlong(g, path[..|path| - 1]) + (if n.observed.Some? then [n.observed.value.capabilities] else [])
  }

  ghost predicate NeverGrows(sets: seq<AuthoritySet>) {
    forall i, j :: 0 <= i < j < |sets| && j == i + 1 ==> sets[j] <= sets[i]
  }

  ghost predicate NeverLarger(sets: seq<AuthoritySet>) {
    forall i, j :: 0 <= i < j < |sets| && j == i + 1 ==> |sets[j]| <= |sets[i]|
  }

  datatype PathAnalysis = PathAnalysis(
    path: seq<IdentityId>,
    firstDivergence: Option<DivergencePoint>,
    monotoneSet: bool,
    monotoneCardinality: bool,
    terminalGain: AuthoritySet)

  /** What an analysis of the path has to say. */
  ghost predicate AnalysisIs(g: Graph, path: seq<IdentityId>, r: PathAnalysis)
    requires path != [] && AllKnown(g, path)
  {
    r.path == path && r.terminalGain == g.NodeOf(path[|path| - 1]).UnexpectedGain() &&
    (r.firstDivergence.None? <==> forall i :: 0 <= i < |path| ==> Agrees(g.NodeOf(path[i]))) &&
    (r.firstDivergence.Some? ==>
       exists i :: 0 <= i < |path| && !Agrees(g.NodeOf(path[i])) &&
         r.firstDivergence.value == PointAt(g.NodeOf(path[i])) &&
                   forall j :: 0 <= j < i ==> Agrees(g.NodeOf(path[j]))) &&
    (r.monotoneSet <==> NeverGrows(MeasuredAlong(g, path))) &&
    (r.monotoneCardinality <==> NeverLarger(MeasuredAlong(g, path)))
  }

  method AnalyzePath(g: Graph, path: seq<IdentityId>) returns (r: PathAnalysis)
    requires path != [] && AllKnown(g, path)
    ensures AnalysisIs(g, path, r)
  {
    var first := FirstDivergence(g, path);
    var measured := CollectMeasured(g, path);
    var monotoneSet, monotoneCardinality := ComparePairs(measured);
    r := PathAnalysis(path, first, monotoneSet, monotoneCardinality, g.NodeOf(path[|path| - 1]).UnexpectedGain());
  }

  method CollectMeasured(g: Graph, path: seq<IdentityId>) returns (measured: seq<AuthoritySet>)
    requires AllKnown(g, path)
    ensures measured == MeasuredAlong(g, path)
  {
    measured := [];
    for k := 0 to |path|
      invariant measured == MeasuredAlong(g, path[..k])
    {
      assert path[..k + 1][..k] == path[..k];
      var n := g.NodeOf(path[k]);
      if n.observed.Some? {
        measured := measured + [n.observed.value.capabilities];
      }
    }
    assert path[..|path|] == path;
  }

  method ComparePairs(measured: seq<AuthoritySet>) returns (monotoneSet: bool, monotoneCardinality: bool)
    ensures monotoneSet <==> NeverGrows(measured)
    ensures monotoneCardinality <==> NeverLarger(measured)
  {
    monotoneSet, monotoneCardinality := true, true;
    var k := 1;
    while k < |measured|
      invariant k <= |measured| || measured == []
      invariant k >= 1
      invariant measured != [] ==> (monotoneSet <==> NeverGrows(measured[..k]))
      invariant measured != [] ==> (monotoneCardinality <==> NeverLarger(measured[..k]))
      invariant measured == [] ==> monotoneSet && monotoneCardinality
    {
      NextPair(measured, k);
      if !(measured[k] <= measured[k - 1]) {
        monotoneSet := false;
      }
      if |measured[k]| > |measured[k - 1]| {
        monotoneCardinality := false;
      }
      k := k + 1;
    }
    assert measured != [] ==> measured[..k] == measured;
  }

  lemma NextPair(sets: seq<AuthoritySet>, k: nat)
    requires 1 <= k < |sets|
    ensures NeverGrows(sets[..k + 1]) <==> NeverGrows(sets[..k]) && sets[k] <= sets[k - 1]
    ensures NeverLarger(sets[..k + 1]) <==> NeverLarger(sets[..k]) && |sets[k]| <= |sets[k - 1]|
  {
    var before, after := sets[..k], sets[..k + 1];
    assert forall i :: 0 <= i < k ==> before[i] == after[i];
    assert after[k - 1] == sets[k - 1] && after[k] == sets[k];
  }

  /** Set monotonicity between neighbours holds between all pairs, and implies cardinality monotonicity. */
  lemma {:induction false} NeverGrowsAnywhere(sets: seq<AuthoritySet>, i: nat, j: nat)
    requires NeverGrows(sets) && i <= j < |sets|
    ensures sets[j] <= sets[i] && |sets[j]| <= |sets[i]|
    decreases j
  {
    if i < j {
      NeverGrowsAnywhere(sets, i, j - 1);
      assert sets[j] <= sets[j - 1];
    }
    SubsetCardinality(sets[j], sets[i]);
  }

  lemma NeverGrowsNeverLarger(sets: seq<AuthoritySet>)
    requires NeverGrows(sets)
    ensures NeverLarger(sets)
  {
    forall i, j | 0 <= i < j < |sets| && j == i + 1 ensures |sets[j]| <= |sets[i]| {
      NeverGrowsAnywhere(sets, i, j);
    }
  }

  // ---- Trees ---------------------------------------------------------------------------

  lemma WalkKnown(g: Graph, w: seq<IdentityId>)
    requires DelegationTree(g) && FromRoot(g, w)
    ensures AllKnown(g, w)
  {
    WalkIsKnown(g, w);
    forall i | 0 <= i < |w| ensures g.Knows(w[i]) {
      assert w[i] in ToSet(w);
      KnownIds(g, w[i]);
    }
  }

  /** Every node of the walk is measured and every hop of it attenuates correctly. */
  ghost predicate AttenuatesAlong(g: Graph, w: seq<IdentityId>)
    requires AllKnown(g, w)
  {
    (forall i :: 0 <= i < |w| ==> g.NodeOf(w[i]).observed.Some?) &&
    forall k :: 0 <= k < |g.edges| ==> AttenuatesAt(g, w, g.edges[k])
  }

  ghost predicate AttenuatesAt(g: Graph, w: seq<IdentityId>, e: Edge) {
    (exists i, j :: 0 <= i < j < |w| && j == i + 1 && w[i] == e.sourceId && w[j] == e.targetId) ==>
      g.Knows(e.sourceId) && g.Knows(e.targetId) && DivergenceOf(g, e).Ok? &&
      DivergenceOf(g, e).value.attenuationCorrect
  }

  /** The root's observed authority cut down by the intent of every edge entered along w. */
  ghost function ObservedAlong(g: Graph, w: seq<IdentityId>, root: AuthoritySet): AuthoritySet
    requires w != []
  {
    if |w| == 1 then root else ObservedAlong(g, w[..|w| - 1], root) * IntentInto(g.edges, w[|w| - 1])
  }

  ghost function Capabilities(n: Node): AuthoritySet
    requires n.observed.Some?
  {
    n.observed.value.capabilities
  }

  lemma AttenuatesFront(g: Graph, w: seq<IdentityId>)
    requires AllKnown(g, w) && AttenuatesAlong(g, w) && |w| > 1
    ensures AllKnown(g, w[..|w| - 1]) && AttenuatesAlong(g, w[..|w| - 1])
  {
    var front := w[..|w| - 1];
    forall k | 0 <= k < |g.edges| ensures AttenuatesAt(g, front, g.edges[k]) {
      assert AttenuatesAt(g, w, g.edges[k]);
      if i, j :| 0 <= i < j < |front| && j == i + 1 &&
                 front[i] == g.edges[k].sourceId && front[j] == g.edges[k].targetId {
        assert w[i] == g.edges[k].sourceId && w[j] == g.edges[k].targetId;
      }
    }
  }

  /**
   Correct attenuation along a walk determines every observed set, and gains never appear below a root without one.
   */
  lemma {:induction false} AttenuationDetermines(g: Graph, w: seq<IdentityId>)
    requires DelegationTree(g) && FromRoot(g, w) && AllKnown(g, w) && AttenuatesAlong(g, w)
    ensures var n, root := g.NodeOf(w[|w| - 1]), g.NodeOf(w[0]);
            n.observed.Some? && root.observed.Some? &&
            Capabilities(n) == ObservedAlong(g, w, Capabilities(root)) &&
            (root.UnexpectedGain() == {} ==> n.UnexpectedGain() == {})
    decreases |w|
  {
    if |w| > 1 {
      FrontFromRoot(g, w);
      AttenuatesFront(g, w);
      AttenuationDetermines(g, w[..|w| - 1]);
      var k := HopOf(g, w[|w| - 2], w[|w| - 1]);
      assert AttenuatesAt(g, w, g.edges[k]);
      IntentIntoIs(g.edges, k);
    }
  }

  /** Expected authority only shrinks along a walk. */
  lemma {:induction false} ExpectedShrinks(g: Graph, w: seq<IdentityId>, i: nat)
    requires DelegationTree(g) && FromRoot(g, w) && i + 1 < |w|
    ensures g.Knows(w[i]) && g.Knows(w[i + 1]) && g.NodeOf(w[i + 1]).expected <= g.NodeOf(w[i]).expected
  {
    assert HasEdge(g.edges, w[i], w[i + 1]);
    var k := HopOf(g, w[i], w[i + 1]);
  }

  lemma {:induction false} AgreeingMeasured(g: Graph, w: seq<IdentityId>)
    requires AllKnown(g, w) && forall i :: 0 <= i < |w| ==> Agrees(g.NodeOf(w[i]))
    ensures |MeasuredAlong(g, w)| == |w|
    ensures forall i :: 0 <= i < |w| ==> MeasuredAlong(g, w)[i] == g.NodeOf(w[i]).expected
  {
    if w != [] {
      AgreeingMeasured(g, w[..|w| - 1]);
      var n := g.NodeOf(w[|w| - 1]);
      assert Capabilities(n) == n.expected by {
        forall c ensures c in Capabilities(n) <==> c in n.expected {
          assert c !in n.UnexpectedGain() && c !in n.UnexpectedLoss();
        }
      }
    }
  }

  /** On a compiled graph, a path without a first divergence is monotone in both senses and ends without a gain. */
  lemma NoDivergenceIsMonotone(g: Graph, w: seq<IdentityId>)
    requires DelegationTree(g) && FromRoot(g, w) && AllKnown(g, w)
    requires forall i :: 0 <= i < |w| ==> Agrees(g.NodeOf(w[i]))
    ensures NeverGrows(MeasuredAlong(g, w)) && NeverLarger(MeasuredAlong(g, w))
    ensures g.NodeOf(w[|w| - 1]).UnexpectedGain() == {}
  {
    AgreeingMeasured(g, w);
    var sets := MeasuredAlong(g, w);
    forall i, j | 0 <= i < j < |sets| && j == i + 1 ensures sets[j] <= sets[i] {
      ExpectedShrinks(g, w, i);
    }
    NeverGrowsNeverLarger(sets);
  }
}
