/**
 Delegation trees: the shape of every compiled graph, and what that shape implies
 for lookups, walks, expected authority and path enumeration.
 */
module Trees {
  import opened Wrappers
  import opened Outcomes
  import opened Models
  import opened Acyclicity
  import opened Graphs

  // ---- Edge order -------------------------------------------------------------

  function TargetSet(edges: seq<Edge>): set<IdentityId> {
    set e | e in edges :: e.targetId
  }

  lemma TargetSetAppend(edges: seq<Edge>, e: Edge)
    ensures TargetSet(edges + [e]) == TargetSet(edges) + {e.targetId}
  {
    forall t ensures t in TargetSet(edges + [e]) <==> t in TargetSet(edges) + {e.targetId} {
      if t in TargetSet(edges) {
        var f :| f in edges && f.targetId == t;
        assert f in edges + [e];
      }
      if t == e.targetId { assert e in edges + [e]; }
    }
  }

  /** The source of edge i is the root or the target of an earlier edge. */
  ghost predicate SourceEarlier(root: IdentityId, edges: seq<Edge>, i: nat)
    requires i < |edges|
  {
    edges[i].sourceId == root || exists j :: 0 <= j < i && edges[j].targetId == edges[i].sourceId
  }

  /** Edges leave known identities, in an order in which sources come first, and never share a target. */
  ghost predicate Placed(root: IdentityId, seen: set<IdentityId>, edges: seq<Edge>) {
    (forall i :: 0 <= i < |edges| ==> edges[i].sourceId in seen && edges[i].targetId != root) &&
    (forall i :: 0 <= i < |edges| ==> SourceEarlier(root, edges, i)) &&
    (forall i, j :: 0 <= i < j < |edges| ==> edges[i].targetId != edges[j].targetId)
  }

  // ---- Trees ------------------------------------------------------------------

  /** One delegation hop: the target's record follows from the source's. */
  ghost predicate HopRight(g: Graph, e: Edge) {
    g.Knows(e.sourceId) && g.Knows(e.targetId) &&
    var s, t := g.NodeOf(e.sourceId), g.NodeOf(e.targetId);
    !t.isRoot && t.parentId == Some(s.identityId) && t.hopIndex == s.hopIndex + 1 &&
    t.expected == e.expectedEffective == s.expected * e.intended
  }

  ghost predicate DelegationTree(g: Graph) {
    DistinctIds(g.nodes) && OneRoot(g.nodes) &&
    Root(g).hopIndex == 0 && Root(g).parentId == None &&
    Placed(Root(g).identityId, ToSet(g.Ids()), g.edges) &&
    ToSet(g.Ids()) == {Root(g).identityId} + TargetSet(g.edges) &&
    forall k :: 0 <= k < |g.edges| ==> HopRight(g, g.edges[k])
  }

  ghost predicate DistinctEdgeIds(g: Graph) {
    forall i, j :: 0 <= i < j < |g.edges| ==> g.edges[i].edgeId != g.edges[j].edgeId
  }

  lemma HopOf(g: Graph, a: IdentityId, b: IdentityId) returns (k: nat)
    requires DelegationTree(g) && HasEdge(g.edges, a, b)
    ensures k < |g.edges| && g.edges[k].sourceId == a && g.edges[k].targetId == b && HopRight(g, g.edges[k])
    ensures forall i :: 0 <= i < |g.edges| && g.edges[i].targetId == b ==> i == k
  {
    k :| 0 <= k < |g.edges| && g.edges[k].sourceId == a && g.edges[k].targetId == b;
  }

  /** The graph constructor never rejects a tree: hop indexes are ranks. */
  lemma TreeIsValid(g: Graph)
    requires DelegationTree(g)
    ensures ValidGraph(g) && NoParallelEdges(g.edges)
  {
    assert Roots(g.nodes) == [Root(g)];
    forall k | 0 <= k < |g.edges| ensures g.edges[k].sourceId in g.Ids() && g.edges[k].targetId in g.Ids() {
      assert g.edges[k] in g.edges;
      assert g.edges[k].targetId in TargetSet(g.edges);
      assert g.edges[k].targetId in ToSet(g.Ids()) && g.edges[k].sourceId in ToSet(g.Ids());
    }
    forall id ensures id in g.Ids() <==> g.Knows(id) { KnownIds(g, id); }
    var rank := map id | id in g.Ids() :: g.NodeOf(id).hopIndex as int;
    forall k | 0 <= k < |g.edges| ensures Ascends(rank, g.edges[k]) {
      assert HopRight(g, g.edges[k]);
    }
    RankedIsAcyclic(g.edges, rank);
  }

  lemma RootLookup(g: Graph)
    requires DelegationTree(g)
    ensures g.Knows(Root(g).identityId) && g.NodeOf(Root(g).identityId) == Root(g)
  {
    RootIsKnown(g);
    NodeOfUnique(g, Root(g));
  }

  ghost predicate FromRoot(g: Graph, w: seq<IdentityId>)
    requires OneRoot(g.nodes)
  {
    Walk(g.edges, w) && w[0] == Root(g).identityId
  }

  lemma FrontFromRoot(g: Graph, w: seq<IdentityId>)
    requires OneRoot(g.nodes) && FromRoot(g, w) && |w| > 1
    ensures FromRoot(g, w[..|w| - 1]) && HasEdge(g.edges, w[|w| - 2], w[|w| - 1])
  {
    var front := w[..|w| - 1];
    forall i, j | 0 <= i < j < |front| && j == i + 1 ensures HasEdge(g.edges, front[i], front[j]) {
      assert HasEdge(g.edges, w[i], w[j]);
    }
  }

  /** The root's expected authority cut down by the intent of every edge entered along w. */
  ghost function ExpectedAlong(g: Graph, w: seq<IdentityId>): AuthoritySet
    requires OneRoot(g.nodes) && w != []
  {
    if |w| == 1 then Root(g).expected else ExpectedAlong(g, w[..|w| - 1]) * IntentInto(g.edges, w[|w| - 1])
  }

  /** The intended capabilities of the first edge entering v. */
  function IntentInto(edges: seq<Edge>, v: IdentityId): AuthoritySet {
    if edges == [] then {} else if edges[0].targetId == v then edges[0].intended else IntentInto(edges[1..], v)
  }

  lemma {:induction false} IntentIntoIs(edges: seq<Edge>, k: nat)
    requires k < |edges| && forall i, j :: 0 <= i < j < |edges| ==> edges[i].targetId != edges[j].targetId
    ensures IntentInto(edges, edges[k].targetId) == edges[k].intended
  {
    if k > 0 { IntentIntoIs(edges[1..], k - 1); }
  }

  /** Along any walk from the root, hop index is walk length and expected authority is the intersection. */
  lemma {:induction false} WalkDetermines(g: Graph, w: seq<IdentityId>)
    requires DelegationTree(g) && FromRoot(g, w)
    ensures g.Knows(w[|w| - 1])
    ensures var n := g.NodeOf(w[|w| - 1]);
            n.hopIndex == |w| - 1 && n.expected == ExpectedAlong(g, w) && (n.isRoot <==> |w| == 1) &&
            n.parentId == if |w| == 1 then None else Some(w[|w| - 2])
    decreases |w|
  {
    RootLookup(g);
    if |w| == 1 {
      RootIsKnown(g);
    } else {
      FrontFromRoot(g, w);
      WalkDetermines(g, w[..|w| - 1]);
      var k := HopOf(g, w[|w| - 2], w[|w| - 1]);
      IntentIntoIs(g.edges, k);
    }
  }

  /** Two walks from the root to the same identity are the same walk. */
  lemma {:induction false} WalkUnique(g: Graph, w1: seq<IdentityId>, w2: seq<IdentityId>)
    requires DelegationTree(g) && FromRoot(g, w1) && FromRoot(g, w2) && w1[|w1| - 1] == w2[|w2| - 1]
    ensures w1 == w2
    decreases |w1|
  {
    WalkDetermines(g, w1);
    WalkDetermines(g, w2);
    if |w1| > 1 {
      FrontFromRoot(g, w1);
      FrontFromRoot(g, w2);
      WalkUnique(g, w1[..|w1| - 1], w2[..|w2| - 1]);
      assert w1 == w1[..|w1| - 1] + [w1[|w1| - 1]] && w2 == w2[..|w2| - 1] + [w2[|w2| - 1]];
    }
  }

  lemma SnocFromRoot(g: Graph, w: seq<IdentityId>, v: IdentityId)
    requires OneRoot(g.nodes) && FromRoot(g, w) && HasEdge(g.edges, w[|w| - 1], v)
    ensures FromRoot(g, w + [v])
  {
    var w' := w + [v];
    forall i, j | 0 <= i < j < |w'| && j == i + 1 ensures HasEdge(g.edges, w'[i], w'[j]) {
      if j < |w| { assert HasEdge(g.edges, w[i], w[j]); }
    }
  }

  /** Sources come first, so a walk to the target of edge k can be built from earlier edges. */
  lemma {:induction false} WalkToTarget(g: Graph, k: nat) returns (w: seq<IdentityId>)
    requires DelegationTree(g) && k < |g.edges|
    ensures FromRoot(g, w) && w[|w| - 1] == g.edges[k].targetId
    decreases k
  {
    var e := g.edges[k];
    assert SourceEarlier(Root(g).identityId, g.edges, k);
    if e.sourceId == Root(g).identityId {
      w := [e.sourceId];
    } else {
      var j :| 0 <= j < k && g.edges[j].targetId == e.sourceId;
      w := WalkToTarget(g, j);
    }
    assert HasEdge(g.edges, e.sourceId, e.targetId);
    SnocFromRoot(g, w, e.targetId);
    w := w + [e.targetId];
  }

  /** Every identity is reached by a walk from the root. */
  lemma WalkTo(g: Graph, v: IdentityId) returns (w: seq<IdentityId>)
    requires DelegationTree(g) && g.Knows(v)
    ensures FromRoot(g, w) && w[|w| - 1] == v
  {
    KnownIds(g, v);
    assert v in ToSet(g.Ids());
    if v == Root(g).identityId {
      w := [v];
    } else {
      assert v in TargetSet(g.edges);
      var k :| 0 <= k < |g.edges| && g.edges[k].targetId == v;
      w := WalkToTarget(g, k);
    }
  }

  // ---- Paths of a tree ----------------------------------------------------------

  predicate IsLeaf(g: Graph, v: IdentityId) {
    v in g.Ids() && Targets(g.edges, v) == []
  }

  function Leaves(g: Graph): set<IdentityId> {
    set v | v in g.Ids() && IsLeaf(g, v)
  }

  lemma WalkIsKnown(g: Graph, w: seq<IdentityId>)
    requires DelegationTree(g) && FromRoot(g, w)
    ensures ToSet(w) <= ToSet(g.Ids())
  {
    RootIsKnown(g);
    forall v | v in w ensures v in g.Ids() {
      var j :| 0 <= j < |w| && w[j] == v;
      if j > 0 {
        assert HasEdge(g.edges, w[j - 1], w[j]);
        var k := HopOf(g, w[j - 1], w[j]);
        KnownIds(g, v);
      }
    }
  }

  lemma LongerWalk(g: Graph, w: seq<IdentityId>, v: IdentityId)
    requires DelegationTree(g) && FromRoot(g, w) && v in Targets(g.edges, w[|w| - 1])
    ensures FromRoot(g, w + [v]) && |w| < |g.nodes|
  {
    TargetsExact(g.edges, w[|w| - 1], v);
    SnocFromRoot(g, w, v);
    WalkIsKnown(g, w + [v]);
    TreeIsValid(g);
    AcyclicWalkBounded(g.Ids(), g.edges, w + [v]);
  }

  lemma WalkNonEmpty(g: Graph, w: seq<IdentityId>)
    requires DelegationTree(g) && FromRoot(g, w)
    ensures w != [] && OneRoot(g.nodes)
  {
  }

  /** Any walk from the root goes on to some leaf. */
  lemma ExtendToLeaf(g: Graph, w: seq<IdentityId>) returns (p: seq<IdentityId>)
    requires DelegationTree(g) && FromRoot(g, w)
    ensures w <= p && FromRoot(g, p) && Targets(g.edges, p[|p| - 1]) == []
    decreases |g.nodes| - |w|
  {
    hide DelegationTree, FromRoot, Targets, OneRoot;
    WalkNonEmpty(g, w);
    var children := Targets(g.edges, w[|w| - 1]);
    if children == [] {
      p := w;
    } else {
      LongerWalk(g, w, children[0]);
      p := ExtendToLeaf(g, w + [children[0]]);
    }
  }

  /** Every identity lies on some enumerated path. */
  lemma EveryNodeOnPath(g: Graph, v: IdentityId) returns (p: seq<IdentityId>)
    requires DelegationTree(g) && g.Knows(v)
    ensures ValidGraph(g) && p in PathsOf(g) && v in p
  {
    TreeIsValid(g);
    var w := WalkTo(g, v);
    p := ExtendToLeaf(g, w);
    assert p[|w| - 1] == v;
    PathsExact(g, p);
  }

  function Lasts(paths: seq<seq<IdentityId>>): seq<IdentityId>
    requires forall i :: 0 <= i < |paths| ==> paths[i] != []
  {
    seq(|paths|, i requires 0 <= i < |paths| => paths[i][|paths[i]| - 1])
  }

  lemma PathEndsInLeaf(g: Graph, p: seq<IdentityId>)
    requires DelegationTree(g) && ValidGraph(g) && p in PathsOf(g)
    ensures FromRoot(g, p) && p[|p| - 1] in Leaves(g)
  {
    PathsExact(g, p);
    WalkIsKnown(g, p);
    assert p[|p| - 1] in ToSet(p);
  }

  lemma LeafHasPath(g: Graph, v: IdentityId) returns (p: seq<IdentityId>)
    requires DelegationTree(g) && ValidGraph(g) && v in Leaves(g)
    ensures p in PathsOf(g) && p != [] && p[|p| - 1] == v
  {
    KnownIds(g, v);
    p := WalkTo(g, v);
    PathsExact(g, p);
  }

  /** No two paths end in the same leaf. */
  lemma LastsDistinct(g: Graph, paths: seq<seq<IdentityId>>)
    requires DelegationTree(g) && Distinct(paths)
    requires forall i :: 0 <= i < |paths| ==> paths[i] != [] && FromRoot(g, paths[i])
    ensures Distinct(Lasts(paths))
  {
    forall i, j | 0 <= i < j < |paths| ensures Lasts(paths)[i] != Lasts(paths)[j] {
      if Lasts(paths)[i] == Lasts(paths)[j] { WalkUnique(g, paths[i], paths[j]); }
    }
  }

  lemma PathAt(g: Graph, i: nat)
    requires DelegationTree(g) && ValidGraph(g) && i < |PathsOf(g)|
    ensures var p := PathsOf(g)[i]; p != [] && FromRoot(g, p) && p[|p| - 1] in Leaves(g)
  {
    assert PathsOf(g)[i] in PathsOf(g);
    PathEndsInLeaf(g, PathsOf(g)[i]);
  }

  lemma LastsAreLeaves(g: Graph, paths: seq<seq<IdentityId>>)
    requires DelegationTree(g) && ValidGraph(g) && paths == PathsOf(g)
    requires forall i :: 0 <= i < |paths| ==> paths[i] != [] && paths[i][|paths[i]| - 1] in Leaves(g)
    ensures ToSet(Lasts(paths)) == Leaves(g)
  {
    hide DelegationTree, ValidGraph, PathsOf, Leaves;
    forall v | v in Leaves(g) ensures v in Lasts(paths) {
      var p := LeafHasPath(g, v);
      var i :| 0 <= i < |paths| && paths[i] == p;
      assert Lasts(paths)[i] == v;
    }
  }

  /** There are exactly as many paths as leaves. */
  lemma PathCountIsLeafCount(g: Graph)
    requires DelegationTree(g)
    ensures ValidGraph(g) && |PathsOf(g)| == |Leaves(g)|
  {
    TreeIsValid(g);
    PathsOnce(g);
    forall i | 0 <= i < |PathsOf(g)|
      ensures PathsOf(g)[i] != [] && FromRoot(g, PathsOf(g)[i]) && PathsOf(g)[i][|PathsOf(g)[i]| - 1] in Leaves(g)
    {
      PathAt(g, i);
    }
    LastsAreLeaves(g, PathsOf(g));
    LastsDistinct(g, PathsOf(g));
    DistinctCardinality(Lasts(PathsOf(g)));
  }
}
