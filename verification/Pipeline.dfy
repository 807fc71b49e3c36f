/** The authority findings of one phase: origins of gains threaded down every delegation chain. */
module Pipeline {
  import opened Wrappers
  import opened Outcomes
  import opened Models
  import opened Sorting
  import opened Acyclicity
  import opened Graphs
  import opened Trees
  import opened Authority
  import opened Divergence
  import opened Rules
  import opened Claims

  /** What the analysis of one phase works from: the populated graph, the evidence and the id digest. */
  datatype Context = Context(g: Graph, observations: seq<Observation>, phase: PlanPhase, digest: FindingKey -> string)

  function Hop(n: Node): int {
    n.hopIndex
  }

  // ---- Trees keep their shape when populated ----------------------------------------

  lemma LookupInTree(g: Graph, n: Node)
    requires DelegationTree(g) && n in g.nodes
    ensures g.Knows(n.identityId) && g.NodeOf(n.identityId) == n
    ensures n.parentId.Some? ==> g.Knows(n.parentId.value) && g.NodeOf(n.parentId.value).hopIndex + 1 == n.hopIndex
    ensures n.parentId.None? <==> n.hopIndex == 0
  {
    NodeOfUnique(g, n);
    KnownIds(g, n.identityId);
    assert n.identityId in ToSet(g.Ids());
    RootLookup(g);
    if n.identityId != Root(g).identityId {
      assert n.identityId in TargetSet(g.edges);
      var k :| 0 <= k < |g.edges| && g.edges[k].targetId == n.identityId;
      assert HopRight(g, g.edges[k]);
    }
  }

  function CellsAt(ctx: Context, id: IdentityId): CellMap {
    CellsOf(ctx.observations, id, ctx.phase)
  }

  /** The drift class of a node of the tree. */
  ghost function Drift(ctx: Context, n: Node): Option<DriftClass>
    requires DelegationTree(ctx.g) && n in ctx.g.nodes
  {
    LookupInTree(ctx.g, n);
    ClassifyDrift(n, ParentOf(ctx.g, n))
  }

  // ---- Origins ----------------------------------------------------------------------

  /** The id of the node's own expansion finding. */
  ghost function ExpansionId(ctx: Context, n: Node): Option<string>
    requires DelegationTree(ctx.g) && n in ctx.g.nodes
  {
    var expansion := RuleAuthorityExpansion(ctx.digest, n, Drift(ctx, n), CellsAt(ctx, n.identityId));
    if expansion.None? then None else Some(expansion.value.findingId)
  }

  /** The finding that reports the origin of n's gain: its own expansion, or the one its parent's gain came from. */
  ghost function Origin(ctx: Context, n: Node): Option<string>
    requires DelegationTree(ctx.g) && n in ctx.g.nodes
    decreases n.hopIndex
  {
    if n.UnexpectedGain() == {} then None
    else if Drift(ctx, n) == Some(Originated) then ExpansionId(ctx, n)
    else OriginAbove(ctx, n)
  }

  ghost function OriginAbove(ctx: Context, n: Node): Option<string>
    requires DelegationTree(ctx.g) && n in ctx.g.nodes
    decreases n.hopIndex, 0
  {
    LookupInTree(ctx.g, n);
    if n.parentId.None? then None else Origin(ctx, ctx.g.NodeOf(n.parentId.value))
  }

  /** The node passes on a gain its parent already had. */
  ghost predicate CarriesOn(ctx: Context, n: Node)
    requires DelegationTree(ctx.g) && n in ctx.g.nodes
  {
    n.UnexpectedGain() != {} && (Drift(ctx, n) == Some(Propagated) || Drift(ctx, n) == Some(Amplified))
  }

  /** A gain either originates at the node or is carried on from a parent with a gain. */
  lemma GainIsOriginatedOrCarried(ctx: Context, n: Node)
    requires DelegationTree(ctx.g) && n in ctx.g.nodes && n.UnexpectedGain() != {}
    ensures Drift(ctx, n) == Some(Originated) ==> Origin(ctx, n) == ExpansionId(ctx, n) && ExpansionId(ctx, n).Some?
    ensures Drift(ctx, n) != Some(Originated) ==>
              CarriesOn(ctx, n) && n.parentId.Some? && ctx.g.Knows(n.parentId.value) &&
              ctx.g.NodeOf(n.parentId.value).UnexpectedGain() != {} &&
              Origin(ctx, n) == Origin(ctx, ctx.g.NodeOf(n.parentId.value))
  {
    LookupInTree(ctx.g, n);
    DriftMeans(n, ParentOf(ctx.g, n));
  }

  /** The nodes of a walk. */
  ghost predicate Along(g: Graph, w: seq<IdentityId>, nodes: seq<Node>) {
    |nodes| == |w| && forall i :: 0 <= i < |w| ==> g.Knows(w[i]) && nodes[i] == g.NodeOf(w[i])
  }

  /** Node i originates a gain that every later node of the walk carries on. */
  ghost predicate OriginatesFor(ctx: Context, nodes: seq<Node>, i: nat)
    requires DelegationTree(ctx.g) && i < |nodes| && forall j :: 0 <= j < |nodes| ==> nodes[j] in ctx.g.nodes
  {
    nodes[i].UnexpectedGain() != {} && Drift(ctx, nodes[i]) == Some(Originated) &&
    forall j :: i < j < |nodes| ==> CarriesOn(ctx, nodes[j])
  }

  lemma WalkParent(g: Graph, w: seq<IdentityId>, nodes: seq<Node>)
    requires DelegationTree(g) && FromRoot(g, w) && Along(g, w, nodes)
    ensures forall i :: 0 <= i < |nodes| ==> nodes[i] in g.nodes
    ensures nodes[|w| - 1].parentId == if |w| == 1 then None else Some(w[|w| - 2])
  {
    WalkDetermines(g, w);
  }

  /**
   Every gain is traced to its origin: on the walk from the root to a node with a gain there is a last
   node classified as originating, its expansion is the node's origin entry, and every node strictly
   below it carries the gain on as propagated or amplified. A corrected hop therefore cuts the chain.
   */
  lemma {:induction false} OriginIsNearest(ctx: Context, w: seq<IdentityId>, nodes: seq<Node>) returns (i: nat)
    requires DelegationTree(ctx.g) && FromRoot(ctx.g, w) && Along(ctx.g, w, nodes)
    requires nodes[|w| - 1].UnexpectedGain() != {}
    ensures forall j :: 0 <= j < |nodes| ==> nodes[j] in ctx.g.nodes
    ensures i < |nodes| && OriginatesFor(ctx, nodes, i)
    ensures Origin(ctx, nodes[|w| - 1]) == ExpansionId(ctx, nodes[i]) && ExpansionId(ctx, nodes[i]).Some?
    decreases |w|
  {
    WalkParent(ctx.g, w, nodes);
    if |w| > 1 { FrontFromRoot(ctx.g, w); }
    hide DelegationTree, FromRoot, Origin, ExpansionId, CarriesOn, Drift;
    var n := nodes[|w| - 1];
    GainIsOriginatedOrCarried(ctx, n);
    if Drift(ctx, n) == Some(Originated) {
      i := |w| - 1;
    } else {
      var front := nodes[..|w| - 1];
      assert front[|w| - 2] == ctx.g.NodeOf(n.parentId.value);
      i := OriginIsNearest(ctx, w[..|w| - 1], front);
      forall j | i < j < |nodes| ensures CarriesOn(ctx, nodes[j]) {
        if j < |w| - 1 { assert nodes[j] == front[j]; }
      }
    }
  }

  lemma AlongExists(g: Graph, w: seq<IdentityId>) returns (nodes: seq<Node>)
    requires DelegationTree(g) && FromRoot(g, w)
    ensures Along(g, w, nodes)
  {
    WalkKnown(g, w);
    nodes := seq(|w|, i requires 0 <= i < |w| => g.NodeOf(w[i]));
  }

  /** A node has an origin entry exactly when it has a gain. */
  lemma OriginIff(ctx: Context, n: Node)
    requires DelegationTree(ctx.g) && n in ctx.g.nodes
    ensures Origin(ctx, n).Some? <==> n.UnexpectedGain() != {}
  {
    if n.UnexpectedGain() != {} {
      LookupInTree(ctx.g, n);
      var w := WalkTo(ctx.g, n.identityId);
      var nodes := AlongExists(ctx.g, w);
      var i := OriginIsNearest(ctx, w, nodes);
    }
  }

  // ---- Populating keeps the tree ------------------------------------------------------

  /** The same nodes and edges, observations aside. */
  ghost predicate SameShape(g: Graph, h: Graph) {
    g.edges == h.edges && |g.nodes| == |h.nodes| &&
    forall i :: 0 <= i < |g.nodes| ==> h.nodes[i] == g.nodes[i].(observed := h.nodes[i].observed)
  }

  lemma {:induction false} SameShapeRoots(a: seq<Node>, b: seq<Node>)
    requires |a| == |b| && forall i :: 0 <= i < |a| ==> b[i] == a[i].(observed := b[i].observed)
    ensures |Roots(a)| == |Roots(b)|
    ensures forall i :: 0 <= i < |Roots(a)| ==> Roots(b)[i] == Roots(a)[i].(observed := Roots(b)[i].observed)
  {
    if a != [] { SameShapeRoots(a[1..], b[1..]); }
  }

  lemma {:induction false} SameShapeLookup(a: seq<Node>, b: seq<Node>, id: IdentityId)
    requires |a| == |b| && forall i :: 0 <= i < |a| ==> b[i] == a[i].(observed := b[i].observed)
    requires exists i :: 0 <= i < |a| && a[i].identityId == id
    ensures exists i :: 0 <= i < |b| && b[i].identityId == id
    ensures NodeIn(b, id) == NodeIn(a, id).(observed := NodeIn(b, id).observed)
  {
    var i :| 0 <= i < |a| && a[i].identityId == id;
    assert b[i].identityId == id;
    if a[0].identityId != id {
      assert a[1..][i - 1].identityId == id;
      SameShapeLookup(a[1..], b[1..], id);
    }
  }

  lemma SameShapeHop(g: Graph, h: Graph, k: nat)
    requires SameShape(g, h) && k < |g.edges| && HopRight(g, g.edges[k])
    ensures HopRight(h, h.edges[k])
  {
    var e := g.edges[k];
    SameShapeLookup(g.nodes, h.nodes, e.sourceId);
    SameShapeLookup(g.nodes, h.nodes, e.targetId);
  }

  lemma SameShapeIsTree(g: Graph, h: Graph)
    requires DelegationTree(g) && SameShape(g, h)
    ensures DelegationTree(h)
  {
    SameShapeRoots(g.nodes, h.nodes);
    assert g.Ids() == h.Ids();
    forall k | 0 <= k < |h.edges| ensures HopRight(h, h.edges[k]) {
      SameShapeHop(g, h, k);
    }
  }

  lemma PopulatedIsTree(g: Graph, observations: seq<Observation>, phase: PlanPhase)
    requires DelegationTree(g)
    ensures DelegationTree(Populated(g, observations, phase)) && SameShape(g, Populated(g, observations, phase))
  {
    SameShapeIsTree(g, Populated(g, observations, phase));
  }

  // ---- One phase's findings -------------------------------------------------------------

  /** What one node contributes: expansion, drift citing the origin above, narrowing, or agreement. */
  ghost function NodeFindings(ctx: Context, n: Node): seq<Finding>
    requires DelegationTree(ctx.g) && n in ctx.g.nodes
  {
    if n.observed.None? then
      []
    else
      var cells := CellsAt(ctx, n.identityId);
      var expansion := RuleAuthorityExpansion(ctx.digest, n, Drift(ctx, n), cells);
      var drift := RuleDelegationDrift(ctx.digest, n, Drift(ctx, n), OriginAbove(ctx, n), cells);
      var narrowing := RuleAuthorityNarrowing(ctx.digest, n, cells);
      Maybe(expansion) + Maybe(drift) + Maybe(narrowing) +
      (if expansion.None? && narrowing.None? then Maybe(RuleExpectedBehavior(ctx.digest, n, cells)) else [])
  }

  ghost function AllNodeFindings(ctx: Context, nodes: seq<Node>): seq<Finding>
    requires DelegationTree(ctx.g) && forall i :: 0 <= i < |nodes| ==> nodes[i] in ctx.g.nodes
  {
    if nodes == [] then [] else AllNodeFindings(ctx, nodes[..|nodes| - 1]) + NodeFindings(ctx, nodes[|nodes| - 1])
  }

  ghost predicate Hops(g: Graph) {
    forall i :: 0 <= i < |g.edges| ==> HopRight(g, g.edges[i])
  }

  function EdgeFindings(ctx: Context, e: Edge): seq<Finding>
    requires ctx.g.Knows(e.sourceId) && ctx.g.Knows(e.targetId)
  {
    var d := DivergenceOf(ctx.g, e);
    if d.Err? then [] else Maybe(RuleAuthoritySurvival(ctx.digest, e, d.value, CellsAt(ctx, e.targetId)))
  }

  ghost function AllEdgeFindings(ctx: Context, k: nat): seq<Finding>
    requires k <= |ctx.g.edges| && Hops(ctx.g)
  {
    if k == 0 then
      []
    else
      assert HopRight(ctx.g, ctx.g.edges[k - 1]);
      AllEdgeFindings(ctx, k - 1) + EdgeFindings(ctx, ctx.g.edges[k - 1])
  }

  /** The origin entries after the first k nodes: one for each of them with a gain. */
  ghost predicate Threaded(ctx: Context, ordered: seq<Node>, k: nat, origins: map<IdentityId, string>)
    requires DelegationTree(ctx.g) && k <= |ordered| && forall i :: 0 <= i < |ordered| ==> ordered[i] in ctx.g.nodes
  {
    forall n :: n in ctx.g.nodes ==>
      (n.identityId in origins <==> n in ordered[..k] && n.UnexpectedGain() != {}) &&
      (n.identityId in origins ==> Origin(ctx, n) == Some(origins[n.identityId]))
  }

  ghost predicate HopOrdered(ctx: Context, ordered: seq<Node>) {
    SortedBy(Hop, ordered) && multiset(ordered) == multiset(ctx.g.nodes) &&
    forall i :: 0 <= i < |ordered| ==> ordered[i] in ctx.g.nodes
  }

  function Entry(origins: map<IdentityId, string>, id: Option<IdentityId>): Option<string> {
    if id.Some? && id.value in origins then Some(origins[id.value]) else None
  }

  /** Parents come before children, so the parent's entry is already there. */
  lemma ParentThreaded(ctx: Context, ordered: seq<Node>, k: nat, origins: map<IdentityId, string>)
    requires DelegationTree(ctx.g) && HopOrdered(ctx, ordered) && k < |ordered| && Threaded(ctx, ordered, k, origins)
    ensures Entry(origins, ordered[k].parentId) == OriginAbove(ctx, ordered[k])
  {
    var n := ordered[k];
    LookupInTree(ctx.g, n);
    if n.parentId.Some? {
      var p := ctx.g.NodeOf(n.parentId.value);
      OriginIff(ctx, p);
      assert p in multiset(ctx.g.nodes);
      var j :| 0 <= j < |ordered| && ordered[j] == p;
      assert j > k ==> Hop(ordered[k]) <= Hop(ordered[j]);
      assert j < k;
      assert p in ordered[..k];
    }
  }

  /** What the loop body makes of the entries at one node. */
  lemma ThreadOne(ctx: Context, ordered: seq<Node>, k: nat, origins: map<IdentityId, string>,
                  origins': map<IdentityId, string>)
    requires DelegationTree(ctx.g) && HopOrdered(ctx, ordered) && k < |ordered| && Threaded(ctx, ordered, k, origins)
    requires var n := ordered[k];
             origins' == if Origin(ctx, n).Some? then origins[n.identityId := Origin(ctx, n).value] else origins
    ensures Threaded(ctx, ordered, k + 1, origins')
  {
    var n := ordered[k];
    OriginIff(ctx, n);
    hide Origin;
    assert ordered[..k + 1] == ordered[..k] + [n];
    forall m | m in ctx.g.nodes
      ensures (m.identityId in origins' <==> m in ordered[..k + 1] && m.UnexpectedGain() != {}) &&
              (m.identityId in origins' ==> Origin(ctx, m) == Some(origins'[m.identityId]))
    {
      if m.identityId == n.identityId {
        LookupInTree(ctx.g, m);
        LookupInTree(ctx.g, n);
        assert m == n;
      }
    }
  }

  // ---- The loops ----------------------------------------------------------------------------

  /** The drift class of every measured node. */
  ghost predicate DriftTable(g: Graph, drift: map<IdentityId, Option<DriftClass>>)
    requires DelegationTree(g)
  {
    forall n :: n in g.nodes ==>
      (n.identityId in drift <==> n.observed.Some?) && (n.observed.Some? ==> drift[n.identityId] == DriftIn(g, n))
  }

  ghost function DriftIn(g: Graph, n: Node): Option<DriftClass>
    requires DelegationTree(g) && n in g.nodes
  {
    LookupInTree(g, n);
    ClassifyDrift(n, ParentOf(g, n))
  }

  method ClassifyNodes(g: Graph) returns (drift: map<IdentityId, Option<DriftClass>>)
    requires DelegationTree(g)
    ensures DriftTable(g, drift)
  {
    drift := map[];
    for k := 0 to |g.nodes|
      invariant forall i :: 0 <= i < |g.nodes| ==>
                (g.nodes[i].identityId in drift <==> i < k && g.nodes[i].observed.Some?)
      invariant forall i :: 0 <= i < k && g.nodes[i].observed.Some? ==>
                drift[g.nodes[i].identityId] == DriftIn(g, g.nodes[i])
    {
      var n := g.nodes[k];
      if n.observed.Some? {
        LookupInTree(g, n);
        drift := drift[n.identityId := ClassifyDrift(n, ParentOf(g, n))];
      }
    }
  }

  /** Which entry a node gets is decided by which of the two gain findings it has. */
  lemma OriginByFindings(ctx: Context, n: Node)
    requires DelegationTree(ctx.g) && n in ctx.g.nodes && n.observed.Some?
    ensures var cells := CellsAt(ctx, n.identityId);
            var expansion := RuleAuthorityExpansion(ctx.digest, n, Drift(ctx, n), cells);
            var drift := RuleDelegationDrift(ctx.digest, n, Drift(ctx, n), OriginAbove(ctx, n), cells);
            (expansion.Some? ==> Origin(ctx, n) == Some(expansion.value.findingId)) &&
            (expansion.None? && drift.Some? ==> Origin(ctx, n) == OriginAbove(ctx, n) && Origin(ctx, n).Some?) &&
            (expansion.None? && drift.None? ==> Origin(ctx, n).None?)
    ensures n.parentId != Some(n.identityId)
  {
    LookupInTree(ctx.g, n);
    RulesFire(ctx.digest, n, ParentOf(ctx.g, n), OriginAbove(ctx, n), CellsAt(ctx, n.identityId));
    DriftMeans(n, ParentOf(ctx.g, n));
    OriginIff(ctx, n);
    hide DelegationTree, ClassifyDrift, CellsAt, Build, OriginAbove;
  }

  /**
   The findings about a gain: where it begins, an expansion; where it is carried on, a drift citing the origin above.
   */
  method AnalyzeGain(ghost ctx: Context,
                     digest: FindingKey -> string, n: Node, drift: Option<DriftClass>, cells: CellMap,
                     origins: map<IdentityId,
                     string>)
    returns (expansion: Option<Finding>, driftFinding: Option<Finding>, origins': map<IdentityId, string>)
    requires DelegationTree(ctx.g) && n in ctx.g.nodes && n.observed.Some? && digest == ctx.digest
    requires drift == Drift(ctx, n) && cells == CellsAt(ctx, n.identityId)
    requires Entry(origins, n.parentId) == OriginAbove(ctx, n) && n.identityId !in origins
    ensures expansion == RuleAuthorityExpansion(digest, n, drift, cells)
    ensures driftFinding == RuleDelegationDrift(digest, n, drift, OriginAbove(ctx, n), cells)
    ensures origins' == if Origin(ctx, n).Some? then origins[n.identityId := Origin(ctx, n).value] else origins
  {
    OriginByFindings(ctx, n);
    hide DelegationTree, CellsAt, Origin, OriginAbove, Drift, RuleAuthorityExpansion, RuleDelegationDrift;
    origins' := origins;
    expansion := RuleAuthorityExpansion(digest, n, drift, cells);
    if expansion.Some? {
      origins' := origins'[n.identityId := expansion.value.findingId];
    }
    var origin := if n.parentId.Some? && n.parentId.value in origins' then Some(origins'[n.parentId.value]) else None;
    assert origin == OriginAbove(ctx, n);
    driftFinding := RuleDelegationDrift(digest, n, drift, origin, cells);
    if driftFinding.Some? && n.identityId !in origins' && origin.Some? {
      origins' := origins'[n.identityId := origin.value];
    }
  }

  /** One node's turn: its findings, and the origin entry it leaves behind. */
  method AnalyzeNode(ghost ctx: Context,
                     digest: FindingKey -> string, n: Node, drift: Option<DriftClass>, cells: CellMap,
                     origins: map<IdentityId,
                     string>)
    returns (findings: seq<Finding>, origins': map<IdentityId, string>)
    requires DelegationTree(ctx.g) && n in ctx.g.nodes && n.observed.Some? && digest == ctx.digest
    requires drift == Drift(ctx, n) && cells == CellsAt(ctx, n.identityId)
    requires Entry(origins, n.parentId) == OriginAbove(ctx, n) && n.identityId !in origins
    ensures findings == NodeFindings(ctx, n)
    ensures origins' == if Origin(ctx, n).Some? then origins[n.identityId := Origin(ctx, n).value] else origins
  {
    hide DelegationTree, CellsAt, Origin, OriginAbove, Drift, RuleAuthorityExpansion, RuleDelegationDrift,
         RuleAuthorityNarrowing, RuleExpectedBehavior;
    var expansion, driftFinding: Option<Finding>;
    expansion, driftFinding, origins' := AnalyzeGain(ctx, digest, n, drift, cells, origins);
    findings := Maybe(expansion) + Maybe(driftFinding);
    var narrowing := RuleAuthorityNarrowing(digest, n, cells);
    if narrowing.Some? {
      findings := findings + [narrowing.value];
    }
    if expansion.None? && narrowing.None? {
      var expected := RuleExpectedBehavior(digest, n, cells);
      if expected.Some? {
        findings := findings + [expected.value];
      }
    }
  }

  /** The edges of the tree with both endpoints measured, compared. */
  ghost function Divergences(g: Graph, k: nat): seq<EdgeDivergence>
    requires k <= |g.edges| && Hops(g)
  {
    if k == 0 then
      []
    else
      assert HopRight(g, g.edges[k - 1]);
      var d := DivergenceOf(g, g.edges[k - 1]);
      if d.Ok? then Divergences(g, k - 1) + [d.value] else Divergences(g, k - 1)
  }

  method CompareEdges(g: Graph) returns (divergences: seq<EdgeDivergence>)
    requires Hops(g)
    ensures divergences == Divergences(g, |g.edges|)
  {
    divergences := [];
    for k := 0 to |g.edges|
      invariant divergences == Divergences(g, k)
    {
      assert HopRight(g, g.edges[k]);
      var d := DivergenceOf(g, g.edges[k]);
      if d.Ok? {
        divergences := divergences + [d.value];
      }
    }
  }

  function FindDivergence(divergences: seq<EdgeDivergence>, edgeId: string): Option<EdgeDivergence> {
    if divergences == [] then None
    else if divergences[0].edgeId == edgeId then Some(divergences[0])
    else FindDivergence(divergences[1..], edgeId)
  }

  lemma {:induction false} FindSnoc(divergences: seq<EdgeDivergence>, d: EdgeDivergence, edgeId: string)
    ensures FindDivergence(divergences + [d], edgeId) ==
            var found := FindDivergence(divergences, edgeId);
            if found.Some? then found else if d.edgeId == edgeId then Some(d) else None
  {
    if divergences == [] {
    } else {
      assert (divergences + [d])[1..] == divergences[1..] + [d];
      FindSnoc(divergences[1..], d, edgeId);
    }
  }

  lemma DivergenceNamed(g: Graph, e: Edge)
    requires g.Knows(e.sourceId) && g.Knows(e.targetId) && DivergenceOf(g, e).Ok?
    ensures DivergenceOf(g, e).value.edgeId == e.edgeId
  {
  }

  /** With distinct edge ids, looking a divergence up by id finds the one of that edge. */
  lemma {:induction false} FindsOwn(g: Graph, k: nat, j: nat)
    requires Hops(g) && DistinctEdgeIds(g) && k <= |g.edges| && j < |g.edges|
    ensures HopRight(g, g.edges[j])
    ensures var d := DivergenceOf(g, g.edges[j]);
            FindDivergence(Divergences(g, k), g.edges[j].edgeId) == if j < k && d.Ok? then Some(d.value) else None
  {
    assert HopRight(g, g.edges[j]);
    if k > 0 {
      FindsOwn(g, k - 1, j);
      assert HopRight(g, g.edges[k - 1]);
      assert k - 1 != j ==> g.edges[k - 1].edgeId != g.edges[j].edgeId;
      if DivergenceOf(g, g.edges[k - 1]).Ok? { DivergenceNamed(g, g.edges[k - 1]); }
      hide HopRight, DivergenceOf;
      var d := DivergenceOf(g, g.edges[k - 1]);
      if d.Ok? { FindSnoc(Divergences(g, k - 1), d.value, g.edges[j].edgeId); }
    }
  }

  lemma {:induction false} OnlyOnce(nodes: seq<Node>, n: Node)
    requires DistinctIds(nodes)
    ensures multiset(nodes)[n] <= 1
  {
    if nodes != [] {
      var front, last := nodes[..|nodes| - 1], nodes[|nodes| - 1];
      OnlyOnce(front, n);
      assert nodes == front + [last];
      if n == last { assert n !in front; }
    }
  }

  lemma NotBefore(nodes: seq<Node>, ordered: seq<Node>, k: nat)
    requires DistinctIds(nodes) && multiset(ordered) == multiset(nodes) && k < |ordered|
    ensures ordered[k] !in ordered[..k]
  {
    var n, front := ordered[k], ordered[..k];
    OnlyOnce(nodes, n);
    hide DistinctIds;
    assert ordered == front + [n] + ordered[k + 1..];
    assert multiset(ordered)[n] == multiset(front)[n] + 1 + multiset(ordered[k + 1..])[n];
    assert n in front ==> multiset(front)[n] > 0;
  }

  /** A node has no entry before its own turn. */
  lemma NotYet(ctx: Context, ordered: seq<Node>, k: nat, origins: map<IdentityId, string>)
    requires DelegationTree(ctx.g) && HopOrdered(ctx, ordered) && k < |ordered| && Threaded(ctx, ordered, k, origins)
    ensures ordered[k].identityId !in origins
  {
    hide Origin, HopRight, OneRoot, Placed;
    NotBefore(ctx.g.nodes, ordered, k);
  }

  lemma NothingUnmeasured(ctx: Context, n: Node)
    requires DelegationTree(ctx.g) && n in ctx.g.nodes && n.observed.None?
    ensures Origin(ctx, n).None? && NodeFindings(ctx, n) == []
  {
  }

  method NodesLoop(ghost ctx: Context, phase: PlanPhase, digest: FindingKey -> string, aggregated: map<CellKey,
                   CellResult>, drift: map<IdentityId, Option<DriftClass>>, ordered: seq<Node>)
    returns (findings: seq<Finding>, origins: map<IdentityId, string>)
    requires DelegationTree(ctx.g) && HopOrdered(ctx, ordered) && phase == ctx.phase && digest == ctx.digest
    requires aggregated == Authority.Cells(AtPhase(ctx.observations, ctx.phase)) && DriftTable(ctx.g, drift)
    ensures findings == AllNodeFindings(ctx, ordered) && Threaded(ctx, ordered, |ordered|, origins)
  {
    hide DelegationTree, Threaded, HopOrdered, Authority.Cells, AtPhase, NodeFindings, Origin;
    findings, origins := [], map[];
    Unthreaded(ctx, ordered);
    for k := 0 to |ordered|
      invariant findings == AllNodeFindings(ctx, ordered[..k]) && Threaded(ctx, ordered, k, origins)
    {
      var n := ordered[k];
      assert ordered[..k + 1][..k] == ordered[..k];
      ParentThreaded(ctx, ordered, k, origins);
      NotYet(ctx, ordered, k, origins);
      if n.observed.Some? {
        var cells := CellsByIdentity(aggregated, n.identityId, phase, ctx.observations);
        var turn: seq<Finding>;
        ghost var before := origins;
        turn, origins := AnalyzeNode(ctx, digest, n, drift[n.identityId], cells, origins);
        findings := findings + turn;
        ThreadOne(ctx, ordered, k, before, origins);
      } else {
        NothingUnmeasured(ctx, n);
        ThreadOne(ctx, ordered, k, origins, origins);
      }
    }
    assert ordered[..|ordered|] == ordered;
  }

  lemma Unthreaded(ctx: Context, ordered: seq<Node>)
    requires DelegationTree(ctx.g) && HopOrdered(ctx, ordered)
    ensures forall i :: 0 <= i < |ordered| ==> ordered[i] in ctx.g.nodes
    ensures Threaded(ctx, ordered, 0, map[]) && AllNodeFindings(ctx, ordered[..0]) == []
  {
  }

  /** One edge's turn: its divergence is looked up by edge id. */
  method AnalyzeEdge(ghost ctx: Context, phase: PlanPhase, digest: FindingKey -> string, aggregated: map<CellKey,
                     CellResult>, e: Edge, ghost k: nat, divergences: seq<EdgeDivergence>)
    returns (findings: seq<Finding>)
    requires Hops(ctx.g) && DistinctEdgeIds(ctx.g) && phase == ctx.phase && digest == ctx.digest && k < |ctx.g.edges|
    requires e == ctx.g.edges[k]
    requires aggregated == Authority.Cells(AtPhase(ctx.observations, ctx.phase))
    requires divergences == Divergences(ctx.g, |ctx.g.edges|)
    ensures HopRight(ctx.g, e) && findings == EdgeFindings(ctx, e)
  {
    findings := [];
    FindsOwn(ctx.g, |ctx.g.edges|, k);
    var d := FindDivergence(divergences, e.edgeId);
    hide Hops, DistinctEdgeIds, Authority.Cells, AtPhase, Divergences, DivergenceOf, CellsOf, FindDivergence;
    if d.Some? {
      var cells := CellsByIdentity(aggregated, e.targetId, phase, ctx.observations);
      var survival := RuleAuthoritySurvival(digest, e, d.value, cells);
      if survival.Some? {
        findings := [survival.value];
      }
    }
  }

  method EdgesLoop(ghost ctx: Context, phase: PlanPhase, digest: FindingKey -> string, aggregated: map<CellKey,
                   CellResult>, edges: seq<Edge>, divergences: seq<EdgeDivergence>)
    returns (findings: seq<Finding>)
    requires Hops(ctx.g) && DistinctEdgeIds(ctx.g) && phase == ctx.phase && digest == ctx.digest && edges == ctx.g.edges
    requires aggregated == Authority.Cells(AtPhase(ctx.observations, ctx.phase))
    requires divergences == Divergences(ctx.g, |edges|)
    ensures findings == AllEdgeFindings(ctx, |edges|)
  {
    findings := [];
    hide Hops, HopRight, DistinctEdgeIds, Authority.Cells, AtPhase, EdgeFindings, Divergences;
    for k := 0 to |edges|
      invariant findings == AllEdgeFindings(ctx, k)
    {
      var turn := AnalyzeEdge(ctx, phase, digest, aggregated, edges[k], k, divergences);
      findings := findings + turn;
    }
  }

  // ---- What the findings of a phase say -------------------------------------------------------

  /** What the origin table has for a node with a gain: the id of its own expansion, or its parent's entry. */
  ghost predicate EntryIs(origins: map<IdentityId, string>, n: Node, parent: Option<Node>, own: seq<Finding>) {
    n.identityId in origins &&
    if KindOf(GainOf(n), Above(parent)) == Some(Originated) then
      own != [] && origins[n.identityId] == own[0].findingId
    else
      n.parentId.Some? && n.parentId.value in origins && origins[n.identityId] == origins[n.parentId.value]
  }

  /** The findings about a node, the origin of its gain cited from the entry of its parent. */
  ghost predicate NodeSaid(g: Graph, n: Node, observations: seq<Observation>, phase: PlanPhase,
                           digest: FindingKey -> string, findings: seq<Finding>, origins: map<IdentityId, string>)
    requires DelegationTree(g) && n in g.nodes
  {
    LookupInTree(g, n);
    var own, parent := Concerning(findings, OnNode(n.identityId)), ParentOf(g, n);
    (n.observed.None? ==> own == []) &&
    (n.observed.Some? ==> NodeReported(own, n, parent, Entry(origins, n.parentId), observations, phase, digest)) &&
    (GainOf(n) != {} ==> EntryIs(origins, n, parent, own)) && (GainOf(n) == {} ==> n.identityId !in origins)
  }

  /**
   Every finding is about a node or an edge of the graph. A node that was not measured has none; one that was has
   those its gain and loss call for; an edge has one exactly if something survived it.
   */
  ghost predicate FindingsReported(g: Graph, observations: seq<Observation>, phase: PlanPhase,
                                digest: FindingKey -> string, findings: seq<Finding>, origins: map<IdentityId, string>)
    requires DelegationTree(g)
  {
    (forall n :: n in g.nodes ==> NodeSaid(g, n, observations, phase, digest, findings, origins)) &&
    (forall e :: e in g.edges ==>
       g.Knows(e.sourceId) && g.Knows(e.targetId) &&
       EdgeReported(Concerning(findings, OnEdge(e.edgeId)), g, e, observations, phase, digest)) &&
    forall f :: f in findings ==> OnGraph(g, SubjectOf(f))
  }

  ghost predicate OnGraph(g: Graph, s: Subject) {
    match s
    case OnNode(id) => g.Knows(id)
    case OnEdge(edgeId) => exists e :: e in g.edges && e.edgeId == edgeId
  }

  lemma NodeFindingsSay(ctx: Context, n: Node)
    requires DelegationTree(ctx.g) && n in ctx.g.nodes
    ensures n.parentId.Some? ==> ctx.g.Knows(n.parentId.value)
    ensures n.observed.None? ==> NodeFindings(ctx, n) == []
    ensures n.observed.Some? ==>
              NodeReported(NodeFindings(ctx, n), n, ParentOf(ctx.g, n), OriginAbove(ctx, n), ctx.observations,
                           ctx.phase,
                           ctx.digest)
    ensures forall f :: f in NodeFindings(ctx, n) ==> SubjectOf(f) == OnNode(n.identityId)
  {
    LookupInTree(ctx.g, n);
    hide DelegationTree, RuleAuthorityExpansion, RuleDelegationDrift, RuleAuthorityNarrowing, RuleExpectedBehavior,
         OriginAbove, NodeReported, ClassifyDrift;
    if n.observed.Some? {
      var fs := NodeFindings(ctx, n);
      NodeReports(fs, n, ParentOf(ctx.g, n), OriginAbove(ctx, n), ctx.observations, ctx.phase, ctx.digest);
      NodeSubjects(fs, n, ParentOf(ctx.g, n), OriginAbove(ctx, n), ctx.observations, ctx.phase, ctx.digest);
    }
  }

  lemma {:induction false} NodesConcerning(ctx: Context, nodes: seq<Node>, s: Subject)
    requires DelegationTree(ctx.g) && forall i :: 0 <= i < |nodes| ==> nodes[i] in ctx.g.nodes
    requires forall i, j :: 0 <= i < j < |nodes| ==> nodes[i].identityId != nodes[j].identityId
    ensures s.OnEdge? ==> Concerning(AllNodeFindings(ctx, nodes), s) == []
    ensures forall n :: n in nodes && s == OnNode(n.identityId) ==>
              Concerning(AllNodeFindings(ctx, nodes), s) == NodeFindings(ctx, n)
    ensures s.OnNode? && (forall n :: n in nodes ==> n.identityId != s.id) ==>
              Concerning(AllNodeFindings(ctx, nodes), s) == []
    ensures forall f :: f in AllNodeFindings(ctx, nodes) ==> OnGraph(ctx.g, SubjectOf(f))
  {
    hide DelegationTree, NodeFindings;
    if nodes != [] {
      var front, last := nodes[..|nodes| - 1], nodes[|nodes| - 1];
      assert nodes == front + [last];
      assert last in ctx.g.nodes;
      NodesConcerning(ctx, front, s);
      NodeFindingsSay(ctx, last);
      ConcerningBoth(AllNodeFindings(ctx, front), NodeFindings(ctx, last), s);
      ConcerningOne(NodeFindings(ctx, last), OnNode(last.identityId), s);
      KnownNode(ctx.g, last);
    }
  }

  lemma KnownNode(g: Graph, n: Node)
    requires n in g.nodes
    ensures g.Knows(n.identityId)
  {
    var i :| 0 <= i < |g.nodes| && g.nodes[i] == n;
  }

  lemma EdgeFindingsSay(ctx: Context, e: Edge)
    requires ctx.g.Knows(e.sourceId) && ctx.g.Knows(e.targetId)
    ensures EdgeReported(EdgeFindings(ctx, e), ctx.g, e, ctx.observations, ctx.phase, ctx.digest)
    ensures forall f :: f in EdgeFindings(ctx, e) ==> SubjectOf(f) == OnEdge(e.edgeId)
  {
    hide DivergenceOf, RuleAuthoritySurvival, ConfidenceIs, Gated, Numbers, TriedBy;
    EdgeReports(EdgeFindings(ctx, e), ctx.g, e, ctx.observations, ctx.phase, ctx.digest);
  }

  lemma {:induction false} EdgesOnGraph(ctx: Context, k: nat)
    requires Hops(ctx.g) && k <= |ctx.g.edges|
    ensures forall f :: f in AllEdgeFindings(ctx, k) ==> SubjectOf(f).OnEdge? && OnGraph(ctx.g, SubjectOf(f))
  {
    hide EdgeFindings, HopRight, Hops;
    if k > 0 {
      HopKnown(ctx.g, k - 1);
      EdgesOnGraph(ctx, k - 1);
      EdgeFindingsSay(ctx, ctx.g.edges[k - 1]);
      assert ctx.g.edges[k - 1] in ctx.g.edges;
    }
  }

  lemma {:induction false} NoneConcerning(fs: seq<Finding>, s: Subject)
    requires forall f :: f in fs ==> SubjectOf(f) != s
    ensures Concerning(fs, s) == []
  {
    if fs != [] {
      assert fs[|fs| - 1] in fs && forall f :: f in fs[..|fs| - 1] ==> f in fs;
      NoneConcerning(fs[..|fs| - 1], s);
    }
  }

  lemma {:induction false} EdgesConcerning(ctx: Context, k: nat, j: nat)
    requires Hops(ctx.g) && DistinctEdgeIds(ctx.g) && k <= |ctx.g.edges| && j < |ctx.g.edges|
    ensures HopRight(ctx.g, ctx.g.edges[j])
    ensures Concerning(AllEdgeFindings(ctx, k), OnEdge(ctx.g.edges[j].edgeId)) ==
            if j < k then EdgeFindings(ctx, ctx.g.edges[j]) else []
  {
    hide EdgeFindings, HopRight, Hops, AllEdgeFindings, Concerning, DistinctEdgeIds;
    HopKnown(ctx.g, j);
    var s := OnEdge(ctx.g.edges[j].edgeId);
    if k > 0 {
      NextEdge(ctx, k - 1, j);
      EdgesConcerning(ctx, k - 1, j);
      var before, own := AllEdgeFindings(ctx, k - 1), EdgeFindings(ctx, ctx.g.edges[k - 1]);
      EdgeFindingsSay(ctx, ctx.g.edges[k - 1]);
      ConcerningBoth(before, own, s);
      ConcerningOne(own, OnEdge(ctx.g.edges[k - 1].edgeId), s);
      assert [] + own == own && Concerning(before, s) + [] == Concerning(before, s);
    } else {
      NoEdges(ctx, s);
    }
  }

  lemma NoEdges(ctx: Context, s: Subject)
    requires Hops(ctx.g)
    ensures Concerning(AllEdgeFindings(ctx, 0), s) == []
  {
  }

  lemma NextEdge(ctx: Context, k: nat, j: nat)
    requires Hops(ctx.g) && DistinctEdgeIds(ctx.g) && k < |ctx.g.edges| && j < |ctx.g.edges|
    ensures ctx.g.Knows(ctx.g.edges[k].sourceId) && ctx.g.Knows(ctx.g.edges[k].targetId)
    ensures AllEdgeFindings(ctx, k + 1) == AllEdgeFindings(ctx, k) + EdgeFindings(ctx, ctx.g.edges[k])
    ensures ctx.g.edges[k].edgeId == ctx.g.edges[j].edgeId <==> k == j
  {
    HopKnown(ctx.g, k);
    hide EdgeFindings, Hops;
  }

  lemma HopKnown(g: Graph, k: nat)
    requires Hops(g) && k < |g.edges|
    ensures HopRight(g, g.edges[k]) && g.Knows(g.edges[k].sourceId) && g.Knows(g.edges[k].targetId)
  {
  }

  ghost predicate Reports(ctx: Context, findings: seq<Finding>, origins: map<IdentityId, string>)
    requires DelegationTree(ctx.g)
  {
    TableIs(ctx, origins) &&
    (InHopOrder(ctx); findings == AllNodeFindings(ctx, SortBy(Hop, ctx.g.nodes)) + AllEdgeFindings(ctx, |ctx.g.edges|))
  }

  /**
   The findings of one phase: every node's, parents before children, then every edge's.
   The origin table it leaves has an entry for exactly the nodes with a gain, and the entry is the origin.
   */
  method AuthorityFindings(g: Graph, observations: seq<Observation>, phase: PlanPhase, digest: FindingKey -> string)
    returns (findings: seq<Finding>, origins: map<IdentityId, string>)
    requires DelegationTree(g) && DistinctEdgeIds(g)
    ensures DelegationTree(Populated(g, observations, phase))
    ensures Reports(Context(Populated(g, observations, phase), observations, phase, digest), findings, origins)
    ensures FindingsReported(Populated(g, observations, phase), observations, phase, digest, findings, origins)
  {
    hide FindingsReported;
    PopulatedIsTree(g, observations, phase);
    var populated := PopulateObservedAuthority(g, observations, phase);
    var atPhase := AtPhaseOnly(observations, phase);
    var aggregated := AggregateObservations(atPhase);
    ghost var ctx := Context(populated, observations, phase, digest);
    var drift := ClassifyNodes(populated);
    var divergences := CompareEdges(populated);
    var ordered := SortBy(Hop, populated.nodes);
    InHopOrder(ctx);
    var nodeFindings, edgeFindings: seq<Finding>;
    nodeFindings, origins := NodesLoop(ctx, phase, digest, aggregated, drift, ordered);
    edgeFindings := EdgesLoop(ctx, phase, digest, aggregated, populated.edges, divergences);
    ThreadedAll(ctx, ordered, origins);
    findings := nodeFindings + edgeFindings;
    ReportsSay(ctx, findings, origins);
  }

  lemma OrderedApart(ctx: Context, ordered: seq<Node>)
    requires DelegationTree(ctx.g) && HopOrdered(ctx, ordered)
    ensures forall i, j :: 0 <= i < j < |ordered| ==> ordered[i].identityId != ordered[j].identityId
    ensures forall n :: n in ctx.g.nodes ==> n in ordered
  {
    forall i, j | 0 <= i < j < |ordered| ensures ordered[i].identityId != ordered[j].identityId {
      NotBefore(ctx.g.nodes, ordered, j);
      assert ordered[i] in ordered[..j];
      NodeOfUnique(ctx.g, ordered[i]);
      NodeOfUnique(ctx.g, ordered[j]);
    }
    forall n | n in ctx.g.nodes ensures n in ordered {
      assert n in multiset(ctx.g.nodes) && (n in multiset(ordered) <==> n in ordered);
    }
  }

  /** The origin table, which has the origin of every node with a gain. */
  ghost predicate TableIs(ctx: Context, origins: map<IdentityId, string>)
    requires DelegationTree(ctx.g)
  {
    (forall n :: n in ctx.g.nodes ==> (n.identityId in origins <==> n.UnexpectedGain() != {})) &&
    forall n :: n in ctx.g.nodes && n.identityId in origins ==> Origin(ctx, n) == Some(origins[n.identityId])
  }

  lemma ParentEntry(ctx: Context, n: Node, origins: map<IdentityId, string>)
    requires DelegationTree(ctx.g) && n in ctx.g.nodes && TableIs(ctx, origins)
    ensures Entry(origins, n.parentId) == OriginAbove(ctx, n)
  {
    LookupInTree(ctx.g, n);
    if n.parentId.Some? { OriginIff(ctx, ctx.g.NodeOf(n.parentId.value)); }
  }

  lemma EntryOfGain(ctx: Context, n: Node, origins: map<IdentityId, string>)
    requires DelegationTree(ctx.g) && n in ctx.g.nodes && TableIs(ctx, origins) && GainOf(n) != {}
    ensures n.parentId.Some? ==> ctx.g.Knows(n.parentId.value)
    ensures EntryIs(origins, n, ParentOf(ctx.g, n), NodeFindings(ctx, n))
  {
    LookupInTree(ctx.g, n);
    KindIsDrift(n, ParentOf(ctx.g, n));
    GainIsOriginatedOrCarried(ctx, n);
    hide DelegationTree, Origin, RuleAuthorityExpansion, RuleDelegationDrift, RuleAuthorityNarrowing,
         RuleExpectedBehavior, KindOf, ClassifyDrift;
  }

  lemma SayOfNode(ctx: Context, n: Node, findings: seq<Finding>, origins: map<IdentityId, string>)
    requires DelegationTree(ctx.g) && n in ctx.g.nodes && TableIs(ctx, origins)
    requires Concerning(findings, OnNode(n.identityId)) == NodeFindings(ctx, n)
    ensures NodeSaid(ctx.g, n, ctx.observations, ctx.phase, ctx.digest, findings, origins)
  {
    hide DelegationTree, Origin, OriginAbove, NodeFindings, NodeReported, EntryIs, Entry;
    NodeFindingsSay(ctx, n);
    ParentEntry(ctx, n, origins);
    if GainOf(n) != {} { EntryOfGain(ctx, n, origins); }
    var own := Concerning(findings, OnNode(n.identityId));
    assert n.observed.None? ==> own == [];
    assert n.observed.Some? ==>
             NodeReported(own, n, ParentOf(ctx.g, n), Entry(origins, n.parentId), ctx.observations, ctx.phase,
                          ctx.digest);
    assert GainOf(n) == {} ==> n.identityId !in origins;
  }

  lemma SayOfEdge(ctx: Context, k: nat, nodesPart: seq<Finding>, findings: seq<Finding>)
    requires Hops(ctx.g) && DistinctEdgeIds(ctx.g) && k < |ctx.g.edges|
    requires findings == nodesPart + AllEdgeFindings(ctx, |ctx.g.edges|)
    requires Concerning(nodesPart, OnEdge(ctx.g.edges[k].edgeId)) == []
    ensures var e := ctx.g.edges[k];
            ctx.g.Knows(e.sourceId) && ctx.g.Knows(e.targetId) &&
            EdgeReported(Concerning(findings, OnEdge(e.edgeId)), ctx.g, e, ctx.observations, ctx.phase, ctx.digest)
  {
    hide EdgeReported, EdgeFindings, HopRight;
    var e := ctx.g.edges[k];
    HopKnown(ctx.g, k);
    EdgesConcerning(ctx, |ctx.g.edges|, k);
    ConcerningBoth(nodesPart, AllEdgeFindings(ctx, |ctx.g.edges|), OnEdge(e.edgeId));
    EdgeFindingsSay(ctx, e);
    assert [] + EdgeFindings(ctx, e) == EdgeFindings(ctx, e);
  }

  lemma TreeHops(g: Graph)
    requires DelegationTree(g)
    ensures Hops(g)
  {
  }

  lemma ReportsSay(ctx: Context, findings: seq<Finding>, origins: map<IdentityId, string>)
    requires DelegationTree(ctx.g) && DistinctEdgeIds(ctx.g) && Reports(ctx, findings, origins)
    ensures FindingsReported(ctx.g, ctx.observations, ctx.phase, ctx.digest, findings, origins)
  {
    hide DelegationTree, EdgeReported, NodeFindings, EdgeFindings, Origin, OriginAbove, SortBy, NodeSaid, HopOrdered,
         DistinctEdgeIds, Hops;
    InHopOrder(ctx);
    TreeHops(ctx.g);
    var ordered := SortBy(Hop, ctx.g.nodes);
    var nodesPart, edgesPart := AllNodeFindings(ctx, ordered), AllEdgeFindings(ctx, |ctx.g.edges|);
    OrderedApart(ctx, ordered);
    EdgesOnGraph(ctx, |ctx.g.edges|);
    forall n | n in ctx.g.nodes ensures NodeSaid(ctx.g, n, ctx.observations, ctx.phase, ctx.digest, findings, origins) {
      NodesConcerning(ctx, ordered, OnNode(n.identityId));
      NoneConcerning(edgesPart, OnNode(n.identityId));
      ConcerningBoth(nodesPart, edgesPart, OnNode(n.identityId));
      SayOfNode(ctx, n, findings, origins);
    }
    forall e | e in ctx.g.edges
      ensures ctx.g.Knows(e.sourceId) && ctx.g.Knows(e.targetId) &&
              EdgeReported(Concerning(findings, OnEdge(e.edgeId)), ctx.g, e, ctx.observations, ctx.phase, ctx.digest)
    {
      var k :| 0 <= k < |ctx.g.edges| && ctx.g.edges[k] == e;
      NodesConcerning(ctx, ordered, OnEdge(e.edgeId));
      SayOfEdge(ctx, k, nodesPart, findings);
    }
    NodesConcerning(ctx, ordered, OnEdge(""));
  }

  lemma InHopOrder(ctx: Context)
    ensures HopOrdered(ctx, SortBy(Hop, ctx.g.nodes))
    ensures forall i :: 0 <= i < |SortBy(Hop, ctx.g.nodes)| ==> SortBy(Hop, ctx.g.nodes)[i] in ctx.g.nodes
  {
    var ordered := SortBy(Hop, ctx.g.nodes);
    forall i | 0 <= i < |ordered| ensures ordered[i] in ctx.g.nodes {
      assert ordered[i] in multiset(ordered);
    }
  }

  lemma ThreadedAll(ctx: Context, ordered: seq<Node>, origins: map<IdentityId, string>)
    requires DelegationTree(ctx.g) && HopOrdered(ctx, ordered) && Threaded(ctx, ordered, |ordered|, origins)
    ensures TableIs(ctx, origins)
  {
    forall n | n in ctx.g.nodes ensures n in ordered[..|ordered|] {
      assert n in multiset(ctx.g.nodes);
    }
  }
}
