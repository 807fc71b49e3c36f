/** `build_graph`: the constructor's checks, then G-3 (monotone intent), G-4 (closure) and G-5 (depth). */
module Builder {
  import opened Wrappers
  import opened Outcomes
  import opened Models
  import opened Graphs
  import opened Trees

  datatype BuildError =
    | Rejected(graphError: GraphError)
    | IntentExceedsParent(edgeId: string, excess: AuthoritySet)
    | UnresolvedCapabilities(unresolved: AuthoritySet)
    | TooDeep(depth: nat)

  datatype Warning = IntentWarning(edgeId: string, excess: AuthoritySet)

  function Excess(g: Graph, e: Edge): AuthoritySet
    requires g.Knows(e.sourceId)
  {
    e.intended - g.NodeOf(e.sourceId).expected
  }

  ghost predicate SourcesKnown(g: Graph) {
    forall k :: 0 <= k < |g.edges| ==> g.Knows(g.edges[k].sourceId)
  }

  /** G-3: every edge intends at most what its source is expected to hold. */
  ghost predicate MonotoneIntent(g: Graph)
    requires SourcesKnown(g)
  {
    forall k :: 0 <= k < |g.edges| ==> Excess(g, g.edges[k]) == {}
  }

  /** One warning per offending edge, in edge order. */
  ghost function Warnings(g: Graph, n: nat): seq<Warning>
    requires SourcesKnown(g) && n <= |g.edges|
  {
    if n == 0 then
      []
    else
      var e := g.edges[n - 1];
      Warnings(g, n - 1) + (if Excess(g, e) == {} then [] else [IntentWarning(e.edgeId, Excess(g, e))])
  }

  /** One of the first edges is warned of so. */
  ghost predicate WarnsAmong(g: Graph, n: nat, w: Warning)
    requires SourcesKnown(g) && n <= |g.edges|
  {
    exists k :: 0 <= k < n && WarnsOf(g, g.edges[k], w)
  }

  lemma {:induction false} WarningsAre(g: Graph, n: nat)
    requires SourcesKnown(g) && n <= |g.edges|
    ensures forall w :: w in Warnings(g, n) <==> WarnsAmong(g, n, w)
    ensures Warnings(g, n) == [] <==> forall k :: 0 <= k < n ==> Excess(g, g.edges[k]) == {}
  {
    if n > 0 {
      WarningsAre(g, n - 1);
      OneMoreWarning(g, n);
      forall w ensures WarnsAmong(g, n, w) <==> WarnsAmong(g, n - 1, w) || WarnsOf(g, g.edges[n - 1], w) {
        OneMoreAmong(g, n, w);
      }
      hide WarnsOf, WarnsAmong, Excess, Warnings;
    }
  }

  lemma OneMoreAmong(g: Graph, n: nat, w: Warning)
    requires SourcesKnown(g) && 0 < n <= |g.edges|
    ensures WarnsAmong(g, n, w) <==> WarnsAmong(g, n - 1, w) || WarnsOf(g, g.edges[n - 1], w)
  {
    hide WarnsOf;
  }

  lemma OneMoreWarning(g: Graph, n: nat)
    requires SourcesKnown(g) && 0 < n <= |g.edges|
    ensures forall w :: w in Warnings(g, n) <==> w in Warnings(g, n - 1) || WarnsOf(g, g.edges[n - 1], w)
    ensures Warnings(g, n) == [] <==> Warnings(g, n - 1) == [] && Excess(g, g.edges[n - 1]) == {}
  {
    var e := g.edges[n - 1];
    forall w ensures WarnsOf(g, e, w) <==> Excess(g, e) != {} && w == IntentWarning(e.edgeId, Excess(g, e)) {
      WarnsOfIs(g, e, w);
    }
    hide WarnsOf, Excess;
  }

  lemma WarnsOfIs(g: Graph, e: Edge, w: Warning)
    requires g.Knows(e.sourceId)
    ensures WarnsOf(g, e, w) <==> Excess(g, e) != {} && w == IntentWarning(e.edgeId, Excess(g, e))
  {
    if WarnsOf(g, e, w) {
      assert w.excess == Excess(g, e);
    }
  }

  /** The warning about an edge that intends more than its source holds. */
  ghost predicate WarnsOf(g: Graph, e: Edge, w: Warning)
    requires g.Knows(e.sourceId)
  {
    Excess(g, e) != {} && w.edgeId == e.edgeId &&
    forall c :: c in w.excess <==> c in e.intended && c !in g.NodeOf(e.sourceId).expected
  }

  /** The error names the first edge that intends more than its source holds, and by what. */
  ghost predicate FirstExcess(g: Graph, error: BuildError)
    requires SourcesKnown(g)
  {
    exists k :: 0 <= k < |g.edges| && Excess(g, g.edges[k]) != {} &&
                error == IntentExceedsParent(g.edges[k].edgeId, Excess(g, g.edges[k])) &&
                forall i :: 0 <= i < k ==> Excess(g, g.edges[i]) == {}
  }

  method CheckMonotoneIntent(g: Graph, downgrade: bool) returns (r: Result<seq<Warning>, BuildError>)
    requires SourcesKnown(g)
    ensures r.Ok? <==> downgrade || MonotoneIntent(g)
    ensures r.Ok? ==> r.value == Warnings(g, |g.edges|)
    ensures r.Ok? ==> forall w :: w in r.value <==> WarnsAmong(g, |g.edges|, w)
    ensures r.Err? ==> r.error.IntentExceedsParent? && FirstExcess(g, r.error)
  {
    hide WarnsOf, WarnsAmong, Excess;
    var warnings := [];
    for k := 0 to |g.edges|
      invariant warnings == Warnings(g, k)
      invariant downgrade || forall i :: 0 <= i < k ==> Excess(g, g.edges[i]) == {}
    {
      var excess := Excess(g, g.edges[k]);
      if excess != {} {
        if !downgrade {
          return Err(IntentExceedsParent(g.edges[k].edgeId, excess));
        }
        warnings := warnings + [IntentWarning(g.edges[k].edgeId, excess)];
      }
    }
    WarningsAre(g, |g.edges|);
    return Ok(warnings);
  }

  /** The capabilities a node names. */
  function Held(n: Node): AuthoritySet {
    n.expected + (if n.observed.Some? then n.observed.value.capabilities else {})
  }

  /** The capabilities an edge names. */
  function Passed(e: Edge): AuthoritySet {
    e.requested + e.intended + e.expectedEffective
  }

  /** Every capability some node or some edge names. */
  ghost function Referenced(nodes: seq<Node>, edges: seq<Edge>): AuthoritySet {
    (set n, c | n in nodes && c in Held(n) :: c) + (set e, c | e in edges && c in Passed(e) :: c)
  }

  lemma ReferencedNode(nodes: seq<Node>, k: nat)
    requires k < |nodes|
    ensures Referenced(nodes[..k + 1], []) == Referenced(nodes[..k], []) + Held(nodes[k])
  {
    assert nodes[..k + 1] == nodes[..k] + [nodes[k]];
    forall c ensures c in Referenced(nodes[..k + 1], []) <==> c in Referenced(nodes[..k], []) + Held(nodes[k]) {
      if n :| n in nodes[..k] && c in Held(n) { assert n in nodes[..k + 1]; }
      assert nodes[k] in nodes[..k + 1];
    }
  }

  lemma ReferencedEdge(nodes: seq<Node>, edges: seq<Edge>, k: nat)
    requires k < |edges|
    ensures Referenced(nodes, edges[..k + 1]) == Referenced(nodes, edges[..k]) + Passed(edges[k])
  {
    assert edges[..k + 1] == edges[..k] + [edges[k]];
    forall c ensures c in Referenced(nodes, edges[..k + 1]) <==> c in Referenced(nodes, edges[..k]) + Passed(edges[k]) {
      if e :| e in edges[..k] && c in Passed(e) { assert e in edges[..k + 1]; }
      assert edges[k] in edges[..k + 1];
    }
  }

  /** The node is expected, or was observed, to hold the capability. */
  ghost predicate NodeNames(n: Node, c: Capability) {
    c in n.expected || (n.observed.Some? && c in n.observed.value.capabilities)
  }

  /** The edge requests, intends or passes on the capability. */
  ghost predicate EdgeNames(e: Edge, c: Capability) {
    c in e.requested || c in e.intended || c in e.expectedEffective
  }

  lemma ReferencedIs(nodes: seq<Node>, edges: seq<Edge>)
    ensures forall c :: c in Referenced(nodes, edges) <==>
              (exists n :: n in nodes && NodeNames(n, c)) || exists e :: e in edges && EdgeNames(e, c)
  {
    forall c ensures c in Referenced(nodes, edges) <==>
        (exists n :: n in nodes && NodeNames(n, c)) || exists e :: e in edges && EdgeNames(e, c)
    {
      assert forall n :: n in nodes ==> (c in Held(n) <==> NodeNames(n, c));
      assert forall e :: e in edges ==> (c in Passed(e) <==> EdgeNames(e, c));
    }
  }

  /** G-4: exactly the capabilities that some node or edge names and the catalog lacks. */
  method CheckClosure(g: Graph, catalog: AuthoritySet) returns (unresolved: AuthoritySet)
    ensures unresolved == Referenced(g.nodes, g.edges) - catalog
    ensures forall c :: c in unresolved <==>
              c !in catalog &&
              ((exists n :: n in g.nodes && NodeNames(n, c)) || exists e :: e in g.edges && EdgeNames(e, c))
  {
    hide Referenced;
    var referenced: AuthoritySet := {};
    NothingReferenced();
    for k := 0 to |g.nodes|
      invariant referenced == Referenced(g.nodes[..k], [])
    {
      ReferencedNode(g.nodes, k);
      referenced := referenced + g.nodes[k].expected;
      if g.nodes[k].observed.Some? {
        referenced := referenced + g.nodes[k].observed.value.capabilities;
      }
    }
    assert g.nodes[..|g.nodes|] == g.nodes;
    for k := 0 to |g.edges|
      invariant referenced == Referenced(g.nodes, g.edges[..k])
    {
      ReferencedEdge(g.nodes, g.edges, k);
      referenced := referenced + g.edges[k].requested + g.edges[k].intended + g.edges[k].expectedEffective;
    }
    assert g.edges[..|g.edges|] == g.edges;
    unresolved := referenced - catalog;
    ReferencedIs(g.nodes, g.edges);
  }

  lemma NothingReferenced()
    ensures Referenced([], []) == {}
  {
  }

  /** The greatest hop index. */
  function Depth(nodes: seq<Node>): (depth: nat)
    ensures forall n :: n in nodes ==> n.hopIndex <= depth
    ensures depth == 0 || exists n :: n in nodes && n.hopIndex == depth
  {
    if nodes == [] then
      0
    else
      var rest := Depth(nodes[1..]);
      if nodes[0].hopIndex > rest then nodes[0].hopIndex else rest
  }

  lemma ValidSourcesKnown(g: Graph)
    requires ValidGraph(g)
    ensures SourcesKnown(g)
  {
    forall k | 0 <= k < |g.edges| ensures g.Knows(g.edges[k].sourceId) { KnownIds(g, g.edges[k].sourceId); }
  }

  lemma NothingUnresolvedIff(referenced: AuthoritySet, catalog: AuthoritySet)
    ensures referenced - catalog == {} <==> referenced <= catalog
  {
    if referenced - catalog == {} { assert forall c :: c in referenced ==> c !in referenced - catalog; }
  }

  /**
   Everything `build_graph` accepts, and nothing else, satisfies G-1 to G-5 up to the downgrade; an error is that of
   the first of them to fail.
   */
  method BuildGraph(nodes: seq<Node>, edges: seq<Edge>, catalog: AuthoritySet, maxDepth: nat, downgrade: bool)
    returns (r: Result<(Graph, seq<Warning>), BuildError>)
    ensures r.Ok? ==> ValidGraph(Graph(nodes, edges)) && SourcesKnown(Graph(nodes, edges)) &&
                      r.value == (Graph(nodes, edges), Warnings(Graph(nodes, edges), |edges|))
    ensures r.Ok? <==> ValidGraph(Graph(nodes, edges)) && SourcesKnown(Graph(nodes, edges)) &&
                       (downgrade || MonotoneIntent(Graph(nodes, edges))) &&
                       Referenced(nodes, edges) <= catalog && Depth(nodes) <= maxDepth
    ensures r.Err? && r.error.Rejected? <==> !ValidGraph(Graph(nodes, edges))
    ensures r.Err? && r.error.Rejected? ==> FirstFailing(nodes, edges, r.error.graphError)
    ensures r.Err? && r.error.IntentExceedsParent? ==>
              !downgrade && SourcesKnown(Graph(nodes, edges)) && !MonotoneIntent(Graph(nodes, edges)) &&
              FirstExcess(Graph(nodes, edges), r.error)
    ensures r.Err? && r.error.UnresolvedCapabilities? ==>
              (downgrade || (SourcesKnown(Graph(nodes, edges)) && MonotoneIntent(Graph(nodes, edges)))) &&
              r.error.unresolved == Referenced(nodes, edges) - catalog != {}
    ensures r.Err? && r.error.TooDeep? ==>
              (downgrade || (SourcesKnown(Graph(nodes, edges)) && MonotoneIntent(Graph(nodes, edges)))) &&
              Referenced(nodes, edges) <= catalog && r.error.depth == Depth(nodes) > maxDepth
  {
    hide ValidGraph, SourcesKnown, MonotoneIntent, FirstFailing, FirstExcess, Referenced;
    var constructed := Construct(nodes, edges);
    if constructed.Err? {
      return Err(Rejected(constructed.error));
    }
    var g := constructed.value;
    ValidSourcesKnown(g);
    var warnings := CheckMonotoneIntent(g, downgrade);
    if warnings.Err? {
      return Err(warnings.error);
    }
    var unresolved := CheckClosure(g, catalog);
    NothingUnresolvedIff(Referenced(nodes, edges), catalog);
    if unresolved != {} {
      return Err(UnresolvedCapabilities(unresolved));
    }
    if Depth(g.nodes) > maxDepth {
      return Err(TooDeep(Depth(g.nodes)));
    }
    return Ok((g, warnings.value));
  }

  lemma NoExcessIff(g: Graph, e: Edge)
    requires HopRight(g, e)
    ensures Excess(g, e) == {} <==> e.expectedEffective == e.intended
  {
    var held := g.NodeOf(e.sourceId).expected;
    assert held * e.intended == e.intended <==> e.intended <= held;
    assert e.intended - held == {} <==> e.intended <= held by {
      if e.intended - held == {} { assert forall c :: c in e.intended ==> c !in e.intended - held; }
    }
  }

  /** On a tree, G-3 accepts without downgrading exactly when every hop's effective authority is its intent. */
  lemma MonotoneIntentMeansEffective(g: Graph)
    requires DelegationTree(g) && SourcesKnown(g)
    ensures MonotoneIntent(g) <==>
            forall k :: 0 <= k < |g.edges| ==> g.edges[k].expectedEffective == g.edges[k].intended
  {
    assert forall k :: 0 <= k < |g.edges| ==> HopRight(g, g.edges[k]);
    hide DelegationTree, HopRight, Excess;
    forall k | 0 <= k < |g.edges| ensures Excess(g, g.edges[k]) == {} <==>
      g.edges[k].expectedEffective == g.edges[k].intended {
      NoExcessIff(g, g.edges[k]);
    }
  }
}
