/** The graph constructor's invariants and the enumeration of root-to-leaf paths. */
module Graphs {
  import opened Wrappers
  import opened Outcomes
  import opened Models
  import opened Acyclicity

  datatype GraphError =
    | DuplicateIdentities
    | WrongRootCount(found: nat)
    | UnknownIdentity(edgeId: string)
    | RootHasInbound
    | ContainsCycle

  // ---- Construction ---------------------------------------------------------

  function Roots(nodes: seq<Node>): seq<Node> {
    if nodes == [] then [] else (if nodes[0].isRoot then [nodes[0]] else []) + Roots(nodes[1..])
  }

  lemma {:induction false} RootsExact(nodes: seq<Node>, n: Node)
    ensures n in Roots(nodes) <==> n in nodes && n.isRoot
  {
    if nodes != [] { RootsExact(nodes[1..], n); }
  }

  predicate OneRoot(nodes: seq<Node>) {
    |Roots(nodes)| == 1
  }

  predicate RootUntargeted(nodes: seq<Node>, edges: seq<Edge>) {
    forall n, k :: n in Roots(nodes) && 0 <= k < |edges| ==> edges[k].targetId != n.identityId
  }

  ghost predicate ValidGraph(g: Graph) {
    DistinctIds(g.nodes) && OneRoot(g.nodes) && KnownEndpoints(g.Ids(), g.edges) &&
    RootUntargeted(g.nodes, g.edges) && Acyclic(g.edges)
  }

  function Root(g: Graph): Node
    requires OneRoot(g.nodes)
  {
    Roots(g.nodes)[0]
  }

  lemma {:induction false} CardinalityDistinct<T>(s: seq<T>)
    ensures |ToSet(s)| == |s| <==> Distinct(s)
  {
    if Distinct(s) {
      DistinctCardinality(s);
    } else {
      var i, j :| 0 <= i < j < |s| && s[i] == s[j];
      var rest := s[..i] + s[i + 1..];
      assert ToSet(s) == ToSet(rest) by {
        forall x | x in s ensures x in rest {
          var k :| 0 <= k < |s| && s[k] == x;
          assert x == if k < i then rest[k] else if k > i then rest[k - 1] else rest[j - 1];
        }
      }
      SetNoLarger(rest);
    }
  }

  lemma KnownIds(g: Graph, id: IdentityId)
    ensures id in g.Ids() <==> g.Knows(id)
  {
    if g.Knows(id) {
      var i :| 0 <= i < |g.nodes| && g.nodes[i].identityId == id;
      assert g.Ids()[i] == id;
    }
  }

  /** Edge k has an endpoint outside the known ids, and no edge before it does. */
  ghost predicate FirstUnknownAt(ids: seq<IdentityId>, edges: seq<Edge>, k: nat)
    requires k < |edges|
  {
    KnownEndpoints(ids, edges[..k]) && (edges[k].sourceId !in ids || edges[k].targetId !in ids)
  }

  /** The first edge, if any, with an endpoint outside the known ids. */
  method FirstUnknown(ids: seq<IdentityId>, edges: seq<Edge>) returns (r: Option<Edge>)
    ensures r.None? <==> KnownEndpoints(ids, edges)
    ensures r.Some? ==> exists k :: 0 <= k < |edges| && edges[k] == r.value && FirstUnknownAt(ids, edges, k)
  {
    for k := 0 to |edges|
      invariant KnownEndpoints(ids, edges[..k])
    {
      if edges[k].sourceId !in ids || edges[k].targetId !in ids {
        return Some(edges[k]);
      }
    }
    assert edges[..|edges|] == edges;
    return None;
  }

  method CountInbound(ids: seq<IdentityId>, edges: seq<Edge>) returns (inbound: map<IdentityId, int>)
    requires KnownEndpoints(ids, edges)
    ensures forall v :: v in ids ==> v in inbound && inbound[v] == Pending(edges, v, {})
  {
    inbound := map v | v in ids :: 0;
    for k := 0 to |edges|
      invariant forall v :: v in ids ==> v in inbound && inbound[v] == Pending(edges[..k], v, {})
    {
      assert edges[..k + 1][..k] == edges[..k];
      inbound := inbound[edges[k].targetId := inbound[edges[k].targetId] + 1];
    }
    assert edges[..|edges|] == edges;
  }

  lemma RootIsKnown(g: Graph)
    requires OneRoot(g.nodes)
    ensures Root(g) in g.nodes && Root(g).isRoot && Root(g).identityId in g.Ids()
  {
    RootsExact(g.nodes, Root(g));
    var i :| 0 <= i < |g.nodes| && g.nodes[i] == Root(g);
    assert g.Ids()[i] == Root(g).identityId;
  }

  lemma InboundDecides(g: Graph)
    requires OneRoot(g.nodes)
    ensures RootUntargeted(g.nodes, g.edges) <==> Pending(g.edges, Root(g).identityId, {}) == 0
  {
    PendingZero(g.edges, Root(g).identityId, {});
    assert Roots(g.nodes) == [Root(g)];
  }

  lemma DistinctIdsAre(g: Graph)
    ensures |ToSet(g.Ids())| == |g.Ids()| <==> DistinctIds(g.nodes)
    ensures Distinct(g.Ids()) <==> DistinctIds(g.nodes)
  {
    CardinalityDistinct(g.Ids());
    assert forall i :: 0 <= i < |g.nodes| ==> g.Ids()[i] == g.nodes[i].identityId;
  }

  /** The first of the constructor's checks to fail, and where. */
  ghost predicate FirstFailing(nodes: seq<Node>, edges: seq<Edge>, error: GraphError) {
    var ids := Graph(nodes, edges).Ids();
    match error
    case DuplicateIdentities => !DistinctIds(nodes)
    case WrongRootCount(found) => DistinctIds(nodes) && found == |Roots(nodes)| != 1
    case UnknownIdentity(edgeId) =>
      DistinctIds(nodes) && OneRoot(nodes) && !KnownEndpoints(ids, edges) &&
      exists k :: 0 <= k < |edges| && edges[k].edgeId == edgeId && FirstUnknownAt(ids, edges, k)
    case RootHasInbound =>
      DistinctIds(nodes) && OneRoot(nodes) && KnownEndpoints(ids, edges) && !RootUntargeted(nodes, edges)
    case ContainsCycle =>
      DistinctIds(nodes) && OneRoot(nodes) && KnownEndpoints(ids, edges) && RootUntargeted(nodes, edges) &&
      !Acyclic(edges)
  }

  /** The constructor accepts exactly the valid graphs and otherwise names the first check that fails. */
  method Construct(nodes: seq<Node>, edges: seq<Edge>) returns (r: Result<Graph, GraphError>)
    ensures r.Ok? <==> ValidGraph(Graph(nodes, edges))
    ensures r.Ok? ==> r.value == Graph(nodes, edges)
    ensures r.Err? ==> FirstFailing(nodes, edges, r.error)
  {
    var g := Graph(nodes, edges);
    var ids := g.Ids();
    DistinctIdsAre(g);
    if |ToSet(ids)| != |ids| {
      return Err(DuplicateIdentities);
    }
    if |Roots(nodes)| != 1 {
      return Err(WrongRootCount(|Roots(nodes)|));
    }
    var unknown := FirstUnknown(ids, edges);
    if unknown.Some? {
      return Err(UnknownIdentity(unknown.value.edgeId));
    }
    var inbound := CountInbound(ids, edges);
    RootIsKnown(g);
    InboundDecides(g);
    if inbound[Roots(nodes)[0].identityId] != 0 {
      return Err(RootHasInbound);
    }
    var accepted := AssertAcyclic(ids, edges);
    if !accepted {
      return Err(ContainsCycle);
    }
    return Ok(g);
  }

  // ---- Paths ----------------------------------------------------------------

  /** A walk of the graph that starts anywhere and stays within the known identities. */
  ghost predicate WalkWithin(ids: seq<IdentityId>, edges: seq<Edge>, w: seq<IdentityId>) {
    Walk(edges, w) && ToSet(w) <= ToSet(ids)
  }

  lemma ExtendWalk(ids: seq<IdentityId>, edges: seq<Edge>, w: seq<IdentityId>, child: IdentityId)
    requires KnownEndpoints(ids, edges) && WalkWithin(ids, edges, w) && child in Targets(edges, w[|w| - 1])
    ensures WalkWithin(ids, edges, w + [child])
  {
    TargetsExact(edges, w[|w| - 1], child);
    var k :| 0 <= k < |edges| && edges[k].sourceId == w[|w| - 1] && edges[k].targetId == child;
    assert child in ToSet(ids);
    assert ToSet(w + [child]) == ToSet(w) + {child};
  }

  ghost predicate ChildrenOf(edges: seq<Edge>, parent: IdentityId, children: seq<IdentityId>) {
    forall i :: 0 <= i < |children| ==> children[i] in Targets(edges, parent)
  }

  /** What `walk(current, prefix)` appends to the results. */
  ghost function PathsFrom(ids: seq<IdentityId>, edges: seq<Edge>, current: IdentityId,
                           prefix: seq<IdentityId>): seq<seq<IdentityId>>
    requires Acyclic(edges) && KnownEndpoints(ids, edges) && WalkWithin(ids, edges, prefix + [current])
    decreases |ids| - |prefix|, 0
  {
    var w := prefix + [current];
    var children := Targets(edges, current);
    AcyclicWalkBounded(ids, edges, w);
    if children == [] then [w] else PathsThrough(ids, edges, children, w)
  }

  ghost function PathsThrough(ids: seq<IdentityId>, edges: seq<Edge>, children: seq<IdentityId>,
                              w: seq<IdentityId>): seq<seq<IdentityId>>
    requires Acyclic(edges) && KnownEndpoints(ids, edges) && WalkWithin(ids, edges, w)
    requires ChildrenOf(edges, w[|w| - 1], children)
    decreases |ids| - |w|, 1 + |children|
  {
    if children == [] then
      []
    else
      ExtendWalk(ids, edges, w, children[0]);
      AcyclicWalkBounded(ids, edges, w);
      PathsFrom(ids, edges, children[0], w) + PathsThrough(ids, edges, children[1..], w)
  }

  lemma ThroughNext(ids: seq<IdentityId>, edges: seq<Edge>, children: seq<IdentityId>, k: nat, w: seq<IdentityId>,
                    before: seq<seq<IdentityId>>)
    requires Acyclic(edges) && KnownEndpoints(ids, edges) && WalkWithin(ids, edges, w)
    requires ChildrenOf(edges, w[|w| - 1], children) && k < |children| && WalkWithin(ids, edges, w + [children[k]])
    ensures before + PathsThrough(ids, edges, children[k..], w) ==
            before + PathsFrom(ids, edges, children[k], w) + PathsThrough(ids, edges, children[k + 1..], w)
  {
    assert children[k..][0] == children[k] && children[k..][1..] == children[k + 1..];
  }

  /** The shared list `paths()` appends to. */
  class PathCollector {
    var results: seq<seq<IdentityId>>

    constructor ()
      ensures results == []
    {
      results := [];
    }

    method Visit(ids: seq<IdentityId>, edges: seq<Edge>, current: IdentityId, prefix: seq<IdentityId>)
      requires Acyclic(edges) && KnownEndpoints(ids, edges) && WalkWithin(ids, edges, prefix + [current])
      modifies this
      ensures results == old(results) + PathsFrom(ids, edges, current, prefix)
      decreases |ids| - |prefix|
    {
      hide Acyclic, KnownEndpoints, Walk, ToSet;
      var children := Targets(edges, current);
      var w := prefix + [current];
      AcyclicWalkBounded(ids, edges, w);
      if children == [] {
        results := results + [w];
        return;
      }
      for k := 0 to |children|
        invariant results + PathsThrough(ids, edges, children[k..], w) ==
                  old(results) + PathsThrough(ids, edges, children, w)
      {
        ExtendWalk(ids, edges, w, children[k]);
        ThroughNext(ids, edges, children, k, w, results);
        Visit(ids, edges, children[k], w);
      }
    }
  }

  lemma RootWalk(g: Graph)
    requires ValidGraph(g)
    ensures WalkWithin(g.Ids(), g.edges, [] + [Root(g).identityId])
  {
    RootIsKnown(g);
  }

  ghost function PathsOf(g: Graph): seq<seq<IdentityId>>
    requires ValidGraph(g)
  {
    RootWalk(g);
    PathsFrom(g.Ids(), g.edges, Root(g).identityId, [])
  }

  method Paths(g: Graph) returns (results: seq<seq<IdentityId>>)
    requires ValidGraph(g)
    ensures results == PathsOf(g)
  {
    RootWalk(g);
    var collector := new PathCollector();
    collector.Visit(g.Ids(), g.edges, Root(g).identityId, []);
    results := collector.results;
  }

  /** A walk from the root that cannot be extended. */
  ghost predicate RootToLeaf(g: Graph, p: seq<IdentityId>)
    requires OneRoot(g.nodes)
  {
    Walk(g.edges, p) && p[0] == Root(g).identityId && Targets(g.edges, p[|p| - 1]) == []
  }

  ghost predicate Completes(edges: seq<Edge>, prefix: seq<IdentityId>, p: seq<IdentityId>) {
    |p| > |prefix| && p[..|prefix|] == prefix && Walk(edges, p) && Targets(edges, p[|p| - 1]) == []
  }

  lemma {:induction false} PathsFromExact(ids: seq<IdentityId>, edges: seq<Edge>, current: IdentityId,
                                          prefix: seq<IdentityId>, p: seq<IdentityId>)
    requires Acyclic(edges) && KnownEndpoints(ids, edges) && WalkWithin(ids, edges, prefix + [current])
    ensures p in PathsFrom(ids, edges, current, prefix) <==> Completes(edges, prefix, p) && p[|prefix|] == current
    decreases |ids| - |prefix|, 0
  {
    var w := prefix + [current];
    AcyclicWalkBounded(ids, edges, w);
    var children := Targets(edges, current);
    assert |p| > |prefix| ==> p[..|w|] == p[..|prefix|] + [p[|prefix|]];
    if children == [] {
      assert p == w ==> Completes(edges, prefix, p);
      if Completes(edges, prefix, p) && p[|prefix|] == current && |p| > |w| {
        assert HasEdge(edges, p[|prefix|], p[|prefix| + 1]);
        TargetsExact(edges, current, p[|prefix| + 1]);
        assert false;
      }
    } else {
      PathsThroughExact(ids, edges, children, w, p);
      if Completes(edges, prefix, p) && p[|prefix|] == current {
        assert |p| > |w|;
        assert HasEdge(edges, p[|prefix|], p[|prefix| + 1]);
        TargetsExact(edges, current, p[|prefix| + 1]);
      }
      if |p| > |w| && p[..|w|] == w {
        assert p[..|prefix|] == p[..|w|][..|prefix|] == prefix;
        assert p[|prefix|] == p[..|w|][|prefix|] == current;
      }
    }
  }

  lemma {:induction false} PathsThroughExact(ids: seq<IdentityId>, edges: seq<Edge>, children: seq<IdentityId>,
                                             w: seq<IdentityId>, p: seq<IdentityId>)
    requires Acyclic(edges) && KnownEndpoints(ids, edges) && WalkWithin(ids, edges, w)
    requires ChildrenOf(edges, w[|w| - 1], children)
    ensures p in PathsThrough(ids, edges, children, w) <==> Completes(edges, w, p) && p[|w|] in children
    decreases |ids| - |w|, 1 + |children|
  {
    if children != [] {
      ExtendWalk(ids, edges, w, children[0]);
      AcyclicWalkBounded(ids, edges, w);
      PathsFromExact(ids, edges, children[0], w, p);
      PathsThroughExact(ids, edges, children[1..], w, p);
    }
  }

  /** The enumeration returns exactly the root-to-leaf walks. */
  lemma PathsExact(g: Graph, p: seq<IdentityId>)
    requires ValidGraph(g)
    ensures p in PathsOf(g) <==> RootToLeaf(g, p)
  {
    RootWalk(g);
    PathsFromExact(g.Ids(), g.edges, Root(g).identityId, [], p);
  }

  ghost predicate NoParallelEdges(edges: seq<Edge>) {
    forall i, j :: 0 <= i < j < |edges| ==>
      edges[i].sourceId != edges[j].sourceId || edges[i].targetId != edges[j].targetId
  }

  lemma {:induction false} TargetsDistinct(edges: seq<Edge>, source: IdentityId)
    requires NoParallelEdges(edges)
    ensures Distinct(Targets(edges, source))
  {
    if edges != [] {
      var front, last := edges[..|edges| - 1], edges[|edges| - 1];
      TargetsDistinct(front, source);
      TargetsExact(front, source, last.targetId);
    }
  }

  lemma {:induction false} PathsFromDistinct(ids: seq<IdentityId>, edges: seq<Edge>, current: IdentityId,
                                             prefix: seq<IdentityId>)
    requires Acyclic(edges) && KnownEndpoints(ids, edges) && WalkWithin(ids, edges, prefix + [current])
    requires NoParallelEdges(edges)
    ensures Distinct(PathsFrom(ids, edges, current, prefix))
    decreases |ids| - |prefix|, 0
  {
    var w := prefix + [current];
    AcyclicWalkBounded(ids, edges, w);
    if Targets(edges, current) != [] {
      TargetsDistinct(edges, current);
      PathsThroughDistinct(ids, edges, Targets(edges, current), w);
    }
  }

  lemma {:induction false} PathsThroughDistinct(ids: seq<IdentityId>, edges: seq<Edge>, children: seq<IdentityId>,
                                                w: seq<IdentityId>)
    requires Acyclic(edges) && KnownEndpoints(ids, edges) && WalkWithin(ids, edges, w)
    requires ChildrenOf(edges, w[|w| - 1], children)
    requires NoParallelEdges(edges) && Distinct(children)
    ensures Distinct(PathsThrough(ids, edges, children, w))
    decreases |ids| - |w|, 1 + |children|
  {
    if children != [] {
      ExtendWalk(ids, edges, w, children[0]);
      AcyclicWalkBounded(ids, edges, w);
      PathsFromDistinct(ids, edges, children[0], w);
      PathsThroughDistinct(ids, edges, children[1..], w);
      var first, rest := PathsFrom(ids, edges, children[0], w), PathsThrough(ids, edges, children[1..], w);
      forall i, j | 0 <= i < |first| && 0 <= j < |rest| ensures first[i] != rest[j] {
        PathsFromExact(ids, edges, children[0], w, first[i]);
        PathsThroughExact(ids, edges, children[1..], w, rest[j]);
      }
    }
  }

  /** Without parallel edges every root-to-leaf walk is listed once. */
  lemma PathsOnce(g: Graph)
    requires ValidGraph(g) && NoParallelEdges(g.edges)
    ensures Distinct(PathsOf(g))
  {
    RootWalk(g);
    PathsFromDistinct(g.Ids(), g.edges, Root(g).identityId, []);
  }
}
