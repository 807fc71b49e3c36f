/**
 What the compiler's walk leaves: always a valid graph, and a delegation tree exactly when delegation ids are unique.
 */
module CompiledTrees {
  import opened Wrappers
  import opened Outcomes
  import opened Models
  import opened Acyclicity
  import opened Graphs
  import opened Trees
  import opened Scenarios
  import opened Walks
  import opened Recursion
  import C = Compiler
  import opened Builder

  lemma {:induction false} SingleRoot(nodes: seq<Node>, r: nat)
    requires r < |nodes| && forall i :: 0 <= i < |nodes| ==> (nodes[i].isRoot <==> i == r)
    ensures Roots(nodes) == [nodes[r]]
  {
    if r == 0 {
      NoRoots(nodes[1..]);
    } else {
      SingleRoot(nodes[1..], r - 1);
    }
  }

  lemma {:induction false} NoRoots(nodes: seq<Node>)
    requires forall i :: 0 <= i < |nodes| ==> !nodes[i].isRoot
    ensures Roots(nodes) == []
  {
    if nodes != [] { NoRoots(nodes[1..]); }
  }

  // ---- Compiled graphs --------------------------------------------------------------

  /** The walk succeeded, with this graph. */
  ghost predicate Compiled(spec: Spec, g: Graph) {
    WellFormed(spec) && UniqueTargets(spec.delegations) && Loopless(spec) && C.AllReached(spec) &&
    C.CompiledFrom(spec, g.nodes, g.edges)
  }

  /** Only the empty stack is a visit to the root. */
  lemma RootOnlyFirst(spec: Spec, chain: seq<Delegation>)
    requires WellFormed(spec) && Loopless(spec) && IsStack(spec, chain)
    ensures Top(spec, chain) == RootSpec(spec).id <==> chain == []
  {
    var stops := Stops(RootSpec(spec).id, chain);
    StopsAre(RootSpec(spec).id, chain, |chain|);
    assert chain[..|chain|] == chain;
    assert stops[0] == RootSpec(spec).id;
  }

  lemma NodeAt(spec: Spec, g: Graph, i: nat) returns (chain: seq<Delegation>)
    requires Compiled(spec, g) && i < |g.nodes|
    ensures i < |spec.identities| && IsStack(spec, chain) && Top(spec, chain) == spec.identities[i].id
    ensures g.nodes[i] == C.NodeOn(spec, chain)
  {
    C.WalkExact(spec);
    assert C.LastRecorded(spec, spec.identities[i].id, g.nodes[i]);
    var visits := C.Walk(spec);
    hide IsStack, Loopless;
    var k :| 0 <= k < |visits| && Top(spec, visits[k]) == spec.identities[i].id &&
      g.nodes[i] == C.NodeOn(spec, visits[k]) &&
      forall j :: k < j < |visits| ==> Top(spec, visits[j]) != spec.identities[i].id;
    chain := visits[k];
  }

  lemma EdgeAt(spec: Spec, g: Graph, k: nat) returns (chain: seq<Delegation>)
    requires Compiled(spec, g) && k < |g.edges|
    ensures IsStack(spec, chain) && chain != [] && g.edges[k] == C.EdgeOn(spec, chain)
    ensures k + 1 < |C.Walk(spec)| && chain == C.Walk(spec)[k + 1]
    ensures g.edges[k].targetId == Top(spec, chain)
  {
    C.WalkExact(spec);
    chain := C.Walk(spec)[1..][k];
  }

  lemma CompiledIds(spec: Spec, g: Graph)
    requires Compiled(spec, g)
    ensures DistinctIds(g.nodes) && ToSet(g.Ids()) == Ids(spec)
    ensures |g.nodes| == |spec.identities| &&
            forall i :: 0 <= i < |g.nodes| ==> g.nodes[i].identityId == spec.identities[i].id
  {
    forall i | 0 <= i < |g.nodes| ensures g.nodes[i].identityId == spec.identities[i].id {
      var chain := NodeAt(spec, g, i);
    }
    forall v ensures v in g.Ids() <==> v in Ids(spec) {
      if v in g.Ids() {
        var i :| 0 <= i < |g.nodes| && g.Ids()[i] == v;
        assert spec.identities[i] in spec.identities;
      }
      if v in Ids(spec) {
        var i :| 0 <= i < |spec.identities| && spec.identities[i].id == v;
        assert g.Ids()[i] == v;
      }
    }
  }

  lemma CompiledRoot(spec: Spec, g: Graph)
    requires Compiled(spec, g)
    ensures OneRoot(g.nodes) && Root(g).identityId == RootSpec(spec).id
    ensures Root(g).hopIndex == 0 && Root(g).parentId == None && Root(g).expected == RootSpec(spec).capabilities
  {
    CompiledIds(spec, g);
    var r :| 0 <= r < |spec.identities| && spec.identities[r] == RootSpec(spec);
    forall i | 0 <= i < |g.nodes| ensures g.nodes[i].isRoot <==> i == r {
      var chain := NodeAt(spec, g, i);
      RootOnlyFirst(spec, chain);
    }
    var chain := NodeAt(spec, g, r);
    RootOnlyFirst(spec, chain);
    SingleRoot(g.nodes, r);
  }

  // ---- Always a valid graph ------------------------------------------------------------

  lemma LastFollowed(spec: Spec, chain: seq<Delegation>)
    requires WellFormed(spec) && IsStack(spec, chain) && chain != []
    ensures var d := chain[|chain| - 1];
            d in spec.delegations && d.id in ById(spec.delegations) && d == ById(spec.delegations)[d.id] &&
            d in Next(spec.delegations, d.source)
  {
    var front, d := chain[..|chain| - 1], chain[|chain| - 1];
    NextExact(spec.delegations, Top(spec, front));
    LeavingIsFollowed(spec.delegations, d);
  }

  lemma EdgeKnown(spec: Spec, g: Graph, k: nat)
    requires Compiled(spec, g) && k < |g.edges|
    ensures g.edges[k].sourceId in Ids(spec) && g.edges[k].targetId in Ids(spec) &&
            g.edges[k].targetId != RootSpec(spec).id
    ensures exists d :: d in Next(spec.delegations, g.edges[k].sourceId) && d.target == g.edges[k].targetId
  {
    var chain := EdgeAt(spec, g, k);
    LastFollowed(spec, chain);
    RootOnlyFirst(spec, chain);
    TopKnown(spec, chain);
    var i :| 0 <= i < |spec.delegations| && spec.delegations[i] == chain[|chain| - 1];
  }

  /** A walk along compiled edges is one the compiler's recursion can make. */
  lemma {:induction false} WalkIsFollowed(spec: Spec, g: Graph, w: seq<IdentityId>, start: seq<Delegation>)
    returns (chain: seq<Delegation>)
    requires Compiled(spec, g) && Walk(g.edges, w) && IsStack(spec, start) && Top(spec, start) == w[0]
    ensures IsStack(spec, chain) && start <= chain && |chain| == |start| + |w| - 1 && Top(spec, chain) == w[|w| - 1]
    decreases |w|
  {
    if |w| == 1 {
      chain := start;
    } else {
      var front := w[..|w| - 1];
      assert HasEdge(g.edges, w[|w| - 2], w[|w| - 1]);
      forall i, j | 0 <= i < j < |front| && j == i + 1 ensures HasEdge(g.edges, front[i], front[j]) {
        assert HasEdge(g.edges, w[i], w[j]);
      }
      var before := WalkIsFollowed(spec, g, front, start);
      var k :| 0 <= k < |g.edges| && g.edges[k].sourceId == w[|w| - 2] && g.edges[k].targetId == w[|w| - 1];
      EdgeKnown(spec, g, k);
      var d :| d in Next(spec.delegations, w[|w| - 2]) && d.target == w[|w| - 1];
      FollowOne(spec.delegations, RootSpec(spec).id, before, d);
      chain := before + [d];
    }
  }

  /** A stack of visits never comes back to where a shorter one of it stood. */
  lemma TopsDiffer(spec: Spec, a: seq<Delegation>, b: seq<Delegation>)
    requires WellFormed(spec) && Loopless(spec) && IsStack(spec, b) && a < b
    ensures Top(spec, a) != Top(spec, b)
  {
    var root := RootSpec(spec).id;
    StopsAre(root, b, |a|);
    StopsAre(root, b, |b|);
    assert b[..|a|] == a && b[..|b|] == b;
    assert Stops(root, b)[|a|] != Stops(root, b)[|b|];
  }

  lemma NoCycle(spec: Spec, g: Graph, w: seq<IdentityId>)
    requires Compiled(spec, g)
    ensures !Cycle(g.edges, w)
  {
    hide IsStack, Loopless, WellFormed, C.CompiledFrom, UniqueTargets;
    if Cycle(g.edges, w) {
      assert HasEdge(g.edges, w[0], w[1]);
      var k :| 0 <= k < |g.edges| && g.edges[k].sourceId == w[0] && g.edges[k].targetId == w[1];
      EdgeKnown(spec, g, k);
      assert C.Reached(spec, w[0]);
      var start :| IsStack(spec, start) && Top(spec, start) == w[0];
      var chain := WalkIsFollowed(spec, g, w, start);
      TopsDiffer(spec, start, chain);
    }
  }

  lemma EndpointsKnown(spec: Spec, g: Graph)
    requires Compiled(spec, g) && ToSet(g.Ids()) == Ids(spec)
    ensures KnownEndpoints(g.Ids(), g.edges)
    ensures forall k :: 0 <= k < |g.edges| ==> g.edges[k].targetId != RootSpec(spec).id
  {
    hide IsStack, Loopless, WellFormed, UniqueTargets, C.CompiledFrom;
    forall k | 0 <= k < |g.edges|
      ensures g.edges[k].sourceId in g.Ids() && g.edges[k].targetId in g.Ids() &&
              g.edges[k].targetId != RootSpec(spec).id
    {
      EdgeKnown(spec, g, k);
      assert g.edges[k].sourceId in ToSet(g.Ids()) && g.edges[k].targetId in ToSet(g.Ids());
    }
  }

  /** The graph constructor never rejects what the walk produced. */
  lemma CompiledIsValid(spec: Spec, g: Graph)
    requires Compiled(spec, g)
    ensures ValidGraph(g)
  {
    hide Compiled, IsStack, Loopless, WellFormed, Cycle, KnownEndpoints, DistinctIds;
    CompiledIds(spec, g);
    CompiledRoot(spec, g);
    EndpointsKnown(spec, g);
    assert Roots(g.nodes) == [Root(g)];
    forall w ensures !Cycle(g.edges, w) { NoCycle(spec, g, w); }
  }

  // ---- With unique ids, a tree ------------------------------------------------------------

  lemma OwnSource(spec: Spec, chain: seq<Delegation>)
    requires WellFormed(spec) && UniqueDelegationIds(spec) && IsStack(spec, chain) && chain != []
    ensures chain[|chain| - 1].source == Top(spec, chain[..|chain| - 1])
  {
    var v := Top(spec, chain[..|chain| - 1]);
    UniqueIdsFollowOwn(spec.delegations, v);
    OutgoingExact(spec.delegations, v, chain[|chain| - 1]);
  }

  /** One way to each identity. */
  lemma {:induction false} StackUnique(spec: Spec, a: seq<Delegation>, b: seq<Delegation>)
    requires WellFormed(spec) && Loopless(spec) && UniqueTargets(spec.delegations) && UniqueDelegationIds(spec)
    requires IsStack(spec, a) && IsStack(spec, b) && Top(spec, a) == Top(spec, b)
    ensures a == b
  {
    RootOnlyFirst(spec, a);
    RootOnlyFirst(spec, b);
    if a != [] {
      var x, y := a[..|a| - 1], b[..|b| - 1];
      LastFollowed(spec, a);
      LastFollowed(spec, b);
      OwnSource(spec, a);
      OwnSource(spec, b);
      hide Loopless, WellFormed, UniqueDelegationIds;
      SameTargetSame(spec.delegations, a[|a| - 1], b[|b| - 1]);
      StackUnique(spec, x, y);
      assert a == x + [a[|a| - 1]] && b == y + [b[|b| - 1]];
    }
  }

  lemma CompiledLookup(spec: Spec, g: Graph, chain: seq<Delegation>)
    requires Compiled(spec, g) && UniqueDelegationIds(spec) && IsStack(spec, chain)
    ensures g.Knows(Top(spec, chain)) && g.NodeOf(Top(spec, chain)) == C.NodeOn(spec, chain)
  {
    CompiledIds(spec, g);
    TopKnown(spec, chain);
    var i :| 0 <= i < |spec.identities| && spec.identities[i].id == Top(spec, chain);
    var recorded := NodeAt(spec, g, i);
    StackUnique(spec, chain, recorded);
    NodeOfUnique(g, g.nodes[i]);
  }

  lemma CompiledHop(spec: Spec, g: Graph, k: nat)
    requires Compiled(spec, g) && UniqueDelegationIds(spec) && k < |g.edges|
    ensures HopRight(g, g.edges[k])
  {
    var chain := EdgeAt(spec, g, k);
    CompiledLookup(spec, g, chain);
    CompiledLookup(spec, g, chain[..|chain| - 1]);
    OwnSource(spec, chain);
  }

  /** The caller of a visit has been visited before it. */
  ghost predicate CallerEarlier(visits: seq<seq<Delegation>>, i: nat)
    requires i < |visits| && visits[i] != []
  {
    exists j :: 0 <= j < i && visits[j] == visits[i][..|visits[i]| - 1]
  }

  ghost predicate InOrder(visits: seq<seq<Delegation>>) {
    forall i :: 0 < i < |visits| ==> visits[i] != [] && CallerEarlier(visits, i)
  }

  lemma JoinInOrder(a: seq<seq<Delegation>>, b: seq<seq<Delegation>>)
    requires a != [] && b != [] && InOrder(a) && InOrder(b) && b[0] != [] && b[0][..|b[0]| - 1] == a[0]
    ensures InOrder(a + b)
  {
    var visits := a + b;
    forall i | 0 < i < |visits| ensures visits[i] != [] && CallerEarlier(visits, i) {
      if i < |a| {
        var j :| 0 <= j < i && a[j] == a[i][..|a[i]| - 1];
        assert visits[j] == a[j];
      } else if i == |a| {
        assert visits[0] == a[0];
      } else {
        var j :| 0 <= j < i - |a| && b[j] == b[i - |a|][..|b[i - |a|]| - 1];
        assert visits[|a| + j] == b[j];
      }
    }
  }

  lemma {:induction false} BelowInOrder(spec: Spec, chain: seq<Delegation>, k: nat)
    requires C.Walkable(spec, chain) && k <= |Children(spec, chain)|
    ensures InOrder([chain] + C.Below(spec, chain, k))
    decreases |Ids(spec)| - |chain|, k
  {
    hide WellFormed, Loopless, IsStack, InOrder, Children;
    if k == 0 {
      OneInOrder(chain);
      assert [chain] + C.Below(spec, chain, 0) == [chain];
    } else {
      var child := chain + [Children(spec, chain)[k - 1]];
      C.ChildWalkable(spec, chain, k - 1);
      BelowInOrder(spec, chain, k - 1);
      BelowInOrder(spec, child, |Children(spec, child)|);
      JoinInOrder([chain] + C.Below(spec, chain, k - 1), C.Visits(spec, child));
      assert [chain] + C.Below(spec, chain, k - 1) + C.Visits(spec, child) == [chain] + C.Below(spec, chain, k);
    }
  }

  lemma OneInOrder(chain: seq<Delegation>)
    ensures InOrder([chain])
  {
  }

  // ---- No visit twice -----------------------------------------------------------------

  /** The visits made for the first k delegations followed: each goes through one of them. */
  ghost predicate EachThrough(children: seq<Delegation>, n: nat, k: nat, visits: seq<seq<Delegation>>) {
    k <= |children| && forall i :: 0 <= i < |visits| ==> n < |visits[i]| && visits[i][n] in children[..k]
  }

  lemma JoinDistinct(chain: seq<Delegation>, children: seq<Delegation>, k: nat, before: seq<seq<Delegation>>,
                     block: seq<seq<Delegation>>)
    requires Distinct(children) && 0 < k <= |children| && Distinct(before) && Distinct(block)
    requires EachThrough(children, |chain|, k - 1, before)
    requires forall i :: 0 <= i < |block| ==> chain + [children[k - 1]] <= block[i]
    ensures Distinct(before + block) && EachThrough(children, |chain|, k, before + block)
  {
    var n, both := |chain|, before + block;
    forall i | 0 <= i < |both| ensures n < |both[i]| && both[i][n] in children[..k] {
      if i < |before| {
        assert before[i][n] in children[..k - 1];
      } else {
        assert (chain + [children[k - 1]])[n] == block[i - |before|][n] == children[..k][k - 1];
      }
    }
    forall i, j | 0 <= i < |before| && 0 <= j < |block| ensures before[i] != block[j] {
      assert before[i][n] in children[..k - 1];
      assert (chain + [children[k - 1]])[n] == block[j][n];
    }
  }

  lemma {:induction false} BelowDistinct(spec: Spec, chain: seq<Delegation>, k: nat)
    requires C.Walkable(spec, chain) && k <= |Children(spec, chain)| &&
             forall v :: Distinct(Next(spec.delegations, v))
    ensures Distinct(C.Below(spec, chain, k)) && EachThrough(Children(spec, chain), |chain|, k, C.Below(spec, chain, k))
    decreases |Ids(spec)| - |chain|, k
  {
    hide WellFormed, Loopless, IsStack, Distinct, EachThrough;
    if k == 0 {
      NothingThrough(Children(spec, chain), |chain|);
    } else {
      var child := chain + [Children(spec, chain)[k - 1]];
      C.ChildWalkable(spec, chain, k - 1);
      BelowDistinct(spec, chain, k - 1);
      BelowDistinct(spec, child, |Children(spec, child)|);
      C.VisitsAreStacks(spec, child);
      C.BelowWithin(spec, child, |Children(spec, child)|);
      FirstDistinct(spec, child, C.Below(spec, child, |Children(spec, child)|));
      JoinDistinct(chain, Children(spec, chain), k, C.Below(spec, chain, k - 1), C.Visits(spec, child));
    }
  }

  lemma NothingThrough(children: seq<Delegation>, n: nat)
    ensures Distinct<seq<Delegation>>([]) && EachThrough(children, n, 0, [])
  {
  }

  lemma FirstDistinct(spec: Spec, child: seq<Delegation>, below: seq<seq<Delegation>>)
    requires WellFormed(spec) && Distinct(below) && C.Within(spec, child, below)
    ensures Distinct([child] + below)
  {
    hide IsStack, WellFormed;
  }

  /** With unique ids and targets no stack is visited twice. */
  lemma WalkDistinct(spec: Spec)
    requires WellFormed(spec) && Loopless(spec) && UniqueTargets(spec.delegations) && UniqueDelegationIds(spec)
    ensures Distinct(C.Walk(spec))
  {
    forall v ensures Distinct(Next(spec.delegations, v)) {
      UniqueIdsFollowOwn(spec.delegations, v);
      OutgoingUnique(spec.delegations, v);
    }
    EmptyStack(spec);
    var n := |Children(spec, [])|;
    BelowDistinct(spec, [], n);
    C.BelowWithin(spec, [], n);
    hide WellFormed, Loopless, IsStack, UniqueTargets, UniqueDelegationIds, Distinct;
    FirstDistinct(spec, [], C.Below(spec, [], n));
  }

  lemma WalkInOrder(spec: Spec)
    requires WellFormed(spec) && Loopless(spec)
    ensures InOrder(C.Walk(spec))
  {
    EmptyStack(spec);
    BelowInOrder(spec, [], |Children(spec, [])|);
  }

  lemma CallerOfEdge(spec: Spec, g: Graph, k: nat) returns (j: nat)
    requires Compiled(spec, g) && k < |g.edges|
    ensures k + 1 < |C.Walk(spec)| && j <= k && C.Walk(spec)[k + 1] != []
    ensures C.Walk(spec)[j] == C.Walk(spec)[k + 1][..|C.Walk(spec)[k + 1]| - 1]
  {
    var chain := EdgeAt(spec, g, k);
    WalkInOrder(spec);
    hide Compiled, C.Walk, IsStack, Loopless, WellFormed;
    assert CallerEarlier(C.Walk(spec), k + 1);
    j :| 0 <= j < k + 1 && C.Walk(spec)[j] == chain[..|chain| - 1];
  }

  lemma EdgeSourceEarlier(spec: Spec, g: Graph, k: nat)
    requires Compiled(spec, g) && UniqueDelegationIds(spec) && k < |g.edges|
    ensures SourceEarlier(RootSpec(spec).id, g.edges, k)
  {
    hide C.CompiledFrom, C.AllReached, C.Walk, IsStack, Loopless, WellFormed, UniqueTargets, UniqueDelegationIds;
    var chain := EdgeAt(spec, g, k);
    OwnSource(spec, chain);
    var j := CallerOfEdge(spec, g, k);
    if j > 0 {
      var caller := EdgeAt(spec, g, j - 1);
    } else {
      C.WalkExact(spec);
    }
  }

  lemma TargetsApart(spec: Spec, g: Graph, i: nat, j: nat)
    requires Compiled(spec, g) && UniqueDelegationIds(spec) && i < j < |g.edges|
    ensures g.edges[i].targetId != g.edges[j].targetId && g.edges[i].edgeId != g.edges[j].edgeId
  {
    var a := EdgeAt(spec, g, i);
    var b := EdgeAt(spec, g, j);
    WalkDistinct(spec);
    if Top(spec, a) == Top(spec, b) { StackUnique(spec, a, b); }
    LastFollowed(spec, a);
    LastFollowed(spec, b);
  }

  lemma ReachedIsTarget(spec: Spec, g: Graph, v: IdentityId)
    requires Compiled(spec, g) && v in Ids(spec) && v != RootSpec(spec).id
    ensures v in TargetSet(g.edges)
  {
    C.WalkExact(spec);
    assert C.Reached(spec, v);
    hide WellFormed, IsStack, Loopless, UniqueTargets, C.Walk;
    var chain :| IsStack(spec, chain) && Top(spec, chain) == v;
    var i :| 0 <= i < |C.Walk(spec)| && C.Walk(spec)[i] == chain;
    var same := EdgeAt(spec, g, i - 1);
    assert g.edges[i - 1] in g.edges;
  }

  lemma TargetsCover(spec: Spec, g: Graph)
    requires Compiled(spec, g)
    ensures Ids(spec) == {RootSpec(spec).id} + TargetSet(g.edges)
  {
    hide WellFormed, IsStack, Loopless, UniqueTargets, C.CompiledFrom, C.AllReached;
    forall v ensures v in Ids(spec) <==> v == RootSpec(spec).id || v in TargetSet(g.edges) {
      if v in Ids(spec) && v != RootSpec(spec).id { ReachedIsTarget(spec, g, v); }
      if v in TargetSet(g.edges) {
        var k :| 0 <= k < |g.edges| && g.edges[k].targetId == v;
        EdgeKnown(spec, g, k);
      }
    }
  }

  /** With unique delegation ids, whatever compiles is a delegation tree, and no two of its edges share an id. */
  lemma CompiledIsTree(spec: Spec, g: Graph)
    requires Compiled(spec, g) && UniqueDelegationIds(spec)
    ensures DelegationTree(g) && DistinctEdgeIds(g)
  {
    hide C.CompiledFrom, C.AllReached, IsStack, Loopless, WellFormed, UniqueTargets, UniqueDelegationIds, SourceEarlier,
      HopRight,
         DistinctIds, OneRoot;
    CompiledIds(spec, g);
    CompiledRoot(spec, g);
    TargetsCover(spec, g);
    forall k | 0 <= k < |g.edges|
      ensures HopRight(g, g.edges[k]) && SourceEarlier(RootSpec(spec).id, g.edges, k)
      ensures g.edges[k].sourceId in Ids(spec) && g.edges[k].targetId != RootSpec(spec).id
    {
      CompiledHop(spec, g, k);
      EdgeSourceEarlier(spec, g, k);
      EdgeKnown(spec, g, k);
    }
    forall i, j | 0 <= i < j < |g.edges|
      ensures g.edges[i].targetId != g.edges[j].targetId && g.edges[i].edgeId != g.edges[j].edgeId
    {
      TargetsApart(spec, g, i, j);
    }
  }

  // ---- With repeated ids, never a tree ------------------------------------------------------

  /** Delegation i can never be found: a later one carries its id. */
  predicate Hidden(delegations: seq<Delegation>, i: nat) {
    i < |delegations| && exists j :: i < j < |delegations| && delegations[j].id == delegations[i].id
  }

  lemma {:induction false} FoundIsLast(delegations: seq<Delegation>, id: string)
    requires id in ById(delegations)
    ensures exists k :: 0 <= k < |delegations| && delegations[k] == ById(delegations)[id] && delegations[k].id == id &&
                        forall j :: k < j < |delegations| ==> delegations[j].id != id
  {
    var n := |delegations| - 1;
    if delegations[n].id != id {
      FoundIsLast(delegations[..n], id);
      var k :| 0 <= k < n && delegations[..n][k] == ById(delegations[..n])[id] && delegations[..n][k].id == id &&
        forall j :: k < j < n ==> delegations[..n][j].id != id;
      forall j | k < j < |delegations| ensures delegations[j].id != id {
        if j < n { assert delegations[..n][j] == delegations[j]; }
      }
      assert delegations[k] == delegations[..n][k];
    }
  }

  lemma HiddenNeverFound(spec: Spec, i: nat, id: string)
    requires Hidden(spec.delegations, i) && id in ById(spec.delegations) && UniqueTargets(spec.delegations)
    ensures ById(spec.delegations)[id].target != spec.delegations[i].target
  {
    FoundIsLast(spec.delegations, id);
    var k :| 0 <= k < |spec.delegations| && spec.delegations[k] == ById(spec.delegations)[id] &&
      spec.delegations[k].id == id &&
      forall j :: k < j < |spec.delegations| ==> spec.delegations[j].id != id;
  }

  /** A hidden delegation that does not stop the compilation can only lead into the root. */
  lemma HiddenIntoRoot(spec: Spec, i: nat)
    requires WellFormed(spec) && UniqueTargets(spec.delegations) && C.AllReached(spec) && Hidden(spec.delegations, i)
    ensures spec.delegations[i].target == RootSpec(spec).id
  {
    var v := spec.delegations[i].target;
    assert C.Reached(spec, v);
    var chain: seq<Delegation> :| IsStack(spec, chain) && Top(spec, chain) == v;
    if chain != [] {
      LastFollowed(spec, chain);
      HiddenNeverFound(spec, i, chain[|chain| - 1].id);
    }
  }

  /** The visits of a stack are a stretch of the whole walk. */
  lemma {:induction false} VisitsInside(spec: Spec, chain: seq<Delegation>) returns (at: nat)
    requires C.Walkable(spec, chain)
    ensures at + |C.Visits(spec, chain)| <= |C.Walk(spec)|
    ensures C.Walk(spec)[at..at + |C.Visits(spec, chain)|] == C.Visits(spec, chain)
    decreases |chain|
  {
    hide WellFormed, Loopless, Children;
    if chain == [] {
      at := 0;
    } else {
      var front := chain[..|chain| - 1];
      var before := VisitsInside(spec, front);
      var k := C.GoesOn(spec, front, chain);
      assert front + [Children(spec, front)[k]] == chain;
      var inner := 1 + |C.Below(spec, front, k)|;
      BlockAt(spec, front, k);
      at := before + inner;
      Stretch(C.Walk(spec), before, C.Visits(spec, front), inner, C.Visits(spec, chain));
    }
  }

  lemma Stretch(all: seq<seq<Delegation>>, at: nat, some: seq<seq<Delegation>>, inner: nat, few: seq<seq<Delegation>>)
    requires at + |some| <= |all| && all[at..at + |some|] == some
    requires inner + |few| <= |some| && some[inner..inner + |few|] == few
    ensures all[at + inner..at + inner + |few|] == few
  {
    forall k | 0 <= k < |few| ensures all[at + inner + k] == few[k] {
      assert few[k] == some[inner..inner + |few|][k] == some[inner + k];
      assert some[inner + k] == all[at..at + |some|][inner + k];
    }
  }

  lemma BelowNext(spec: Spec, chain: seq<Delegation>, k: nat)
    requires C.Walkable(spec, chain) && k < |Children(spec, chain)|
    requires C.Walkable(spec, chain + [Children(spec, chain)[k]])
    ensures C.Below(spec, chain, k + 1) == C.Below(spec, chain, k) + C.Visits(spec, chain + [Children(spec, chain)[k]])
  {
  }

  lemma VisitsAre(spec: Spec, chain: seq<Delegation>)
    requires C.Walkable(spec, chain)
    ensures C.Visits(spec, chain) == [chain] + C.Below(spec, chain, |Children(spec, chain)|)
  {
  }

  /** Where the call for child k sits among its caller's visits. */
  lemma BlockAt(spec: Spec, chain: seq<Delegation>, k: nat)
    requires C.Walkable(spec, chain) && k < |Children(spec, chain)|
    ensures C.Walkable(spec, chain + [Children(spec, chain)[k]])
    ensures var block, at := C.Visits(spec, chain + [Children(spec, chain)[k]]), 1 + |C.Below(spec, chain, k)|;
            at + |block| <= |C.Visits(spec, chain)| && C.Visits(spec, chain)[at..at + |block|] == block
  {
    hide WellFormed, Loopless, IsStack, Children;
    C.ChildWalkable(spec, chain, k);
    BelowNext(spec, chain, k);
    C.BelowGrows(spec, chain, k + 1, |Children(spec, chain)|);
    VisitsAre(spec, chain);
    hide C.Below, C.Visits;
    InnerBlock(chain, C.Below(spec, chain, k), C.Visits(spec, chain + [Children(spec, chain)[k]]),
               C.Below(spec, chain, |Children(spec, chain)|));
  }

  lemma InnerBlock(chain: seq<Delegation>, before: seq<seq<Delegation>>, block: seq<seq<Delegation>>,
                   below: seq<seq<Delegation>>)
    requires before + block <= below
    ensures 1 + |before| + |block| <= |[chain] + below|
    ensures ([chain] + below)[1 + |before|..1 + |before| + |block|] == block
  {
    assert below[..|before + block|] == before + block;
  }

  lemma StretchAt(all: seq<seq<Delegation>>, at: nat, some: seq<seq<Delegation>>, i: nat)
    requires at + |some| <= |all| && all[at..at + |some|] == some && i < |some|
    ensures all[at + i] == some[i]
  {
  }

  /** Where the call for child k sits in the whole walk. */
  lemma CallAt(spec: Spec, chain: seq<Delegation>, at: nat, k: nat)
    requires C.Walkable(spec, chain) && k < |Children(spec, chain)|
    requires at + |C.Visits(spec, chain)| <= |C.Walk(spec)|
    requires C.Walk(spec)[at..at + |C.Visits(spec, chain)|] == C.Visits(spec, chain)
    ensures var m := at + 1 + |C.Below(spec, chain, k)|;
            m < |C.Walk(spec)| && C.Walk(spec)[m] == chain + [Children(spec, chain)[k]]
  {
    hide WellFormed, Loopless, IsStack, Children, C.Walk;
    var child, x := chain + [Children(spec, chain)[k]], 1 + |C.Below(spec, chain, k)|;
    BlockAt(spec, chain, k);
    VisitsAre(spec, child);
    hide C.Below, C.Visits;
    StretchAt(C.Visits(spec, chain), x, C.Visits(spec, child), 0);
    StretchAt(C.Walk(spec), at, C.Visits(spec, chain), x);
  }

  /** A delegation followed twice from one visit is visited twice. */
  lemma VisitedTwice(spec: Spec, chain: seq<Delegation>, a: nat, b: nat) returns (m: nat, n: nat)
    requires C.Walkable(spec, chain) && a < b < |Children(spec, chain)| &&
             Children(spec, chain)[a] == Children(spec, chain)[b]
    ensures m < n < |C.Walk(spec)| && C.Walk(spec)[m] == C.Walk(spec)[n] == chain + [Children(spec, chain)[a]]
  {
    hide WellFormed, Loopless, IsStack, Children, C.Walk;
    var at := VisitsInside(spec, chain);
    CallAt(spec, chain, at, a);
    CallAt(spec, chain, at, b);
    C.ChildWalkable(spec, chain, a);
    BelowNext(spec, chain, a);
    C.BelowGrows(spec, chain, a + 1, b);
    m, n := at + 1 + |C.Below(spec, chain, a)|, at + 1 + |C.Below(spec, chain, b)|;
  }

  /** Two delegations of one id leaving the same identity: the walk follows the later one twice from there. */
  lemma FollowedTwice(delegations: seq<Delegation>, d: Delegation, e: Delegation) returns (a: nat, b: nat)
    requires d in delegations && e in delegations && d != e && d.id == e.id && d.source == e.source
    requires e.id in ById(delegations) && ById(delegations)[e.id] == e
    ensures a < b < |Next(delegations, e.source)| &&
            Next(delegations, e.source)[a] == Next(delegations, e.source)[b] == e
  {
    var v := e.source;
    OutgoingExact(delegations, v, d);
    OutgoingExact(delegations, v, e);
    NextExact(delegations, v);
    var i :| 0 <= i < |Outgoing(delegations, v)| && Outgoing(delegations, v)[i] == d;
    var j :| 0 <= j < |Outgoing(delegations, v)| && Outgoing(delegations, v)[j] == e;
    a, b := if i < j then i else j, if i < j then j else i;
  }

  lemma AfterHidden(spec: Spec, i: nat) returns (d: Delegation)
    requires UniqueTargets(spec.delegations) && Hidden(spec.delegations, i)
    ensures i < |spec.delegations|
    ensures d in spec.delegations && d != spec.delegations[i] && d.id == spec.delegations[i].id
    ensures d.id in ById(spec.delegations) && ById(spec.delegations)[d.id] == d
  {
    var id := spec.delegations[i].id;
    ByIdFinds(spec.delegations, id);
    d := ById(spec.delegations)[id];
    HiddenNeverFound(spec, i, id);
  }

  lemma CallTo(spec: Spec, from: Delegation) returns (chain: seq<Delegation>)
    requires WellFormed(spec) && C.AllReached(spec) && from in spec.delegations
    ensures IsStack(spec, chain) && Top(spec, chain) == from.source
    ensures from.id in ById(spec.delegations) && IsStack(spec, chain + [ById(spec.delegations)[from.id]])
    ensures ById(spec.delegations)[from.id] in Children(spec, chain)
  {
    var k :| 0 <= k < |spec.delegations| && spec.delegations[k] == from;
    assert C.Reached(spec, from.source);
    chain :| IsStack(spec, chain) && Top(spec, chain) == from.source;
    LeavingIsFollowed(spec.delegations, from);
    FollowOne(spec.delegations, RootSpec(spec).id, chain, ById(spec.delegations)[from.id]);
  }

  ghost predicate CallsFor(spec: Spec, m: nat, d: Delegation)
    requires WellFormed(spec) && Loopless(spec)
  {
    0 < m < |C.Walk(spec)| && C.Walk(spec)[m] != [] && C.Walk(spec)[m][|C.Walk(spec)[m]| - 1] == d
  }

  lemma CallPosition(spec: Spec, chain: seq<Delegation>, d: Delegation) returns (m: nat)
    requires WellFormed(spec) && Loopless(spec) && IsStack(spec, chain + [d])
    ensures CallsFor(spec, m, d) && C.Walk(spec)[m] == chain + [d]
  {
    C.WalkExact(spec);
    m := At(C.Walk(spec), chain + [d]);
  }

  lemma PositionIsCall(spec: Spec, chain: seq<Delegation>, d: Delegation, m: nat)
    requires WellFormed(spec) && Loopless(spec) && m < |C.Walk(spec)| && C.Walk(spec)[m] == chain + [d]
    ensures CallsFor(spec, m, d)
  {
    C.WalkExact(spec);
  }

  /** The delegation that hides another one is called for twice. */
  lemma CalledTwice(spec: Spec, i: nat) returns (m: nat, n: nat, d: Delegation)
    requires WellFormed(spec) && UniqueTargets(spec.delegations) && Loopless(spec) && C.AllReached(spec) &&
             Hidden(spec.delegations, i)
    ensures m < n && CallsFor(spec, m, d) && CallsFor(spec, n, d)
  {
    hide IsStack, Loopless, WellFormed, UniqueTargets, Hidden, C.AllReached, CallsFor;
    d := AfterHidden(spec, i);
    var first := CallTo(spec, spec.delegations[i]);
    var second := CallTo(spec, d);
    if first == second {
      var a, b := FollowedTwice(spec.delegations, spec.delegations[i], d);
      m, n := VisitedTwice(spec, first, a, b);
      PositionIsCall(spec, first, d, m);
      PositionIsCall(spec, first, d, n);
    } else {
      m := CallPosition(spec, first, d);
      n := CallPosition(spec, second, d);
      assert (first + [d])[..|first|] == first && (second + [d])[..|second|] == second;
      if n < m { m, n := n, m; }
    }
  }

  function At<T(==)>(s: seq<T>, x: T): (i: nat)
    requires x in s
    ensures i < |s| && s[i] == x
  {
    if s[0] == x then 0 else 1 + At(s[1..], x)
  }

  lemma RepeatedIsHidden(spec: Spec) returns (i: nat)
    requires !UniqueDelegationIds(spec)
    ensures Hidden(spec.delegations, i)
  {
    var j;
    i, j :| 0 <= i < j < |spec.delegations| && spec.delegations[i].id == spec.delegations[j].id;
  }

  lemma EdgeOfCall(spec: Spec, g: Graph, m: nat, d: Delegation)
    requires Compiled(spec, g) && CallsFor(spec, m, d)
    ensures 0 < m <= |g.edges| && var e := g.edges[m - 1];
            e.edgeId == d.id && e.sourceId == d.source && e.targetId == d.target
  {
    hide IsStack, Loopless, WellFormed, UniqueTargets, C.AllReached, C.Walk;
    C.WalkExact(spec);
    assert C.Walk(spec)[1..][m - 1] == C.Walk(spec)[m];
  }

  lemma ParallelPair(g: Graph, i: nat, j: nat)
    requires i < j < |g.edges| && g.edges[i].edgeId == g.edges[j].edgeId
    requires g.edges[i].sourceId == g.edges[j].sourceId && g.edges[i].targetId == g.edges[j].targetId
    ensures !NoParallelEdges(g.edges) && !DistinctEdgeIds(g) && !DelegationTree(g)
  {
    hide HopRight, OneRoot, SourceEarlier;
  }

  /** With repeated ids, whatever still compiles has parallel edges of one id, and is no tree. */
  lemma RepeatedIsNoTree(spec: Spec, g: Graph)
    requires Compiled(spec, g) && !UniqueDelegationIds(spec)
    ensures !NoParallelEdges(g.edges) && !DistinctEdgeIds(g) && !DelegationTree(g)
  {
    hide IsStack, Loopless, WellFormed, UniqueTargets, Hidden, C.AllReached, C.CompiledFrom, CallsFor, DelegationTree,
      NoParallelEdges, DistinctEdgeIds;
    var i := RepeatedIsHidden(spec);
    var m, n, d := CalledTwice(spec, i);
    EdgeOfCall(spec, g, m, d);
    EdgeOfCall(spec, g, n, d);
    ParallelPair(g, m - 1, n - 1);
  }

  /**
   The exact condition for a compiled graph to be a tree: delegation ids do not repeat. (If they do, it compiles
   only when every delegation hidden behind a later one leads into the root: `HiddenIntoRoot`.)
   */
  lemma TreeIffUniqueIds(spec: Spec, g: Graph)
    requires Compiled(spec, g)
    ensures DelegationTree(g) <==> UniqueDelegationIds(spec)
    ensures DistinctEdgeIds(g) <==> UniqueDelegationIds(spec)
    ensures NoParallelEdges(g.edges) <==> UniqueDelegationIds(spec)
  {
    hide Compiled, DelegationTree, DistinctEdgeIds, UniqueDelegationIds;
    if UniqueDelegationIds(spec) {
      CompiledIsTree(spec, g);
      TreeIsValid(g);
    } else {
      RepeatedIsNoTree(spec, g);
    }
  }

  /** Repeated ids do compile: the walk ends, reaches everything and disagrees with nothing. */
  lemma RepeatedIdsCompile(root: IdentityId, a: IdentityId, b: IdentityId, x: string, y: string, held: AuthoritySet)
    requires root != a && a != b && root != b && x != y && held != {}
    ensures var spec := Spec([Simple(root, true, held), Simple(a, false, {}), Simple(b, false, {})],
                             [Delegation(x, a, root, held, 900), Delegation(y, root, a, held, 900),
                              Delegation(x, a, b, held, 900)]);
            WellFormed(spec) && UniqueTargets(spec.delegations) && Loopless(spec) && Halts(spec) &&
            !UniqueDelegationIds(spec) && C.AllReached(spec) && AllExpectationsMet(spec)
  {
    var d, e, f := Delegation(x, a, root, held, 900), Delegation(y, root, a, held, 900), Delegation(x, a, b, held, 900);
    var spec := Spec([Simple(root, true, held), Simple(a, false, {}), Simple(b, false, {})], [d, e, f]);
    SimpleIsWellFormed(root, a, b, held, spec);
    ReenteredYetLoopless(root, a, b, x, y, held);
    forall v | v in Ids(spec) ensures C.Reached(spec, v) {
      var chain := if v == root then [] else if v == a then [e] else [e, f];
      HiddenStacks(root, a, d, e, f, chain);
      assert IsStack(spec, chain) && Top(spec, chain) == v;
    }
    NothingDeclared(spec);
    LooplessReturns(spec);
  }

  // ---- Compiling --------------------------------------------------------------------

  datatype CompilationError = BadSpec(compileError: CompileError) | BadGraph(buildError: BuildError)

  lemma UndowngradedIsExact(g: Graph)
    requires DelegationTree(g) && SourcesKnown(g) && MonotoneIntent(g)
    ensures forall k :: 0 <= k < |g.edges| ==> g.edges[k].expectedEffective == g.edges[k].intended
  {
    MonotoneIntentMeansEffective(g);
  }

  /**
   The walk raises nothing: no identity is targeted twice, every one is reached, and no declared authority differs.
   */
  ghost predicate Accepted(spec: Spec)
    requires WellFormed(spec)
  {
    UniqueTargets(spec.delegations) && C.AllReached(spec) && AllExpectationsMet(spec)
  }

  // ---- G-3, read on the specification -------------------------------------------------

  /** The delegation intends a capability that was not held along this chain. */
  ghost predicate IntendsBeyond(spec: Spec, chain: seq<Delegation>, d: Delegation)
    requires WellFormed(spec)
  {
    exists c :: c in d.intended && !HeldAlong(spec, chain, c)
  }

  /** The delegation this stack ends with intends more than its source, as last visited, is to hold. */
  ghost predicate OverreachesAt(spec: Spec, chain: seq<Delegation>, s: int)
    requires WellFormed(spec) && Loopless(spec)
  {
    IsStack(spec, chain) && chain != [] && C.LastVisit(spec, chain[|chain| - 1].source, s) &&
    IntendsBeyond(spec, C.Walk(spec)[s], chain[|chain| - 1])
  }

  /** It intends more than is held along the calls before it. */
  ghost predicate OverreachesAlong(spec: Spec, chain: seq<Delegation>)
    requires WellFormed(spec)
  {
    IsStack(spec, chain) && chain != [] && IntendsBeyond(spec, chain[..|chain| - 1], chain[|chain| - 1])
  }

  ghost predicate Overreaching(spec: Spec)
    requires WellFormed(spec) && Loopless(spec)
  {
    exists chain, s :: OverreachesAt(spec, chain, s)
  }

  lemma SourceVisit(spec: Spec, g: Graph, v: IdentityId) returns (s: int)
    requires Compiled(spec, g) && v in Ids(spec)
    ensures g.Knows(v) && C.LastVisit(spec, v, s)
    ensures forall c :: c in g.NodeOf(v).expected <==> HeldAlong(spec, C.Walk(spec)[s], c)
  {
    CompiledIds(spec, g);
    C.CompiledReads(spec, g.nodes, g.edges);
    var i :| 0 <= i < |spec.identities| && spec.identities[i].id == v;
    NodeOfUnique(g, g.nodes[i]);
    hide WellFormed, Loopless, UniqueTargets, C.AllReached, C.CompiledFrom, C.Walk, C.LastVisit, HeldAlong;
    s :| C.LastVisit(spec, v, s) && C.NodeFor(spec, C.Walk(spec)[s], spec.identities[i], g.nodes[i]);
  }

  lemma OneLastVisit(spec: Spec, v: IdentityId, s: int, r: int)
    requires WellFormed(spec) && Loopless(spec) && C.LastVisit(spec, v, s) && C.LastVisit(spec, v, r)
    ensures s == r
  {
  }

  /** What a compiled edge exceeds its source by. */
  lemma ExcessReads(spec: Spec, g: Graph, k: nat) returns (s: int)
    requires Compiled(spec, g) && k < |g.edges|
    ensures k + 1 < |C.Walk(spec)| && C.Walk(spec)[k + 1] != [] && IsStack(spec, C.Walk(spec)[k + 1])
    ensures g.Knows(g.edges[k].sourceId)
    ensures var chain := C.Walk(spec)[k + 1];
            C.LastVisit(spec, chain[|chain| - 1].source, s) &&
            (Excess(g, g.edges[k]) != {} <==> IntendsBeyond(spec, C.Walk(spec)[s], chain[|chain| - 1]))
  {
    var chain := EdgeAt(spec, g, k);
    EdgeKnown(spec, g, k);
    hide Compiled, WellFormed, Loopless, IsStack, C.Walk, C.LastVisit, HeldAlong;
    s := SourceVisit(spec, g, g.edges[k].sourceId);
    var beyond := Excess(g, g.edges[k]);
    forall c ensures c in beyond <==> c in chain[|chain| - 1].intended && !HeldAlong(spec, C.Walk(spec)[s], c) {}
  }

  lemma SourcesRead(spec: Spec, g: Graph)
    requires Compiled(spec, g)
    ensures SourcesKnown(g)
  {
    hide Compiled, Loopless, IsStack, C.Walk, C.LastVisit, IntendsBeyond, Excess;
    forall k | 0 <= k < |g.edges| ensures g.Knows(g.edges[k].sourceId) { var s := ExcessReads(spec, g, k); }
  }

  lemma MonotoneReads(spec: Spec, g: Graph)
    requires Compiled(spec, g)
    ensures SourcesKnown(g) && (MonotoneIntent(g) <==> !Overreaching(spec))
  {
    hide Compiled, WellFormed, Loopless, IsStack, C.Walk, C.LastVisit, IntendsBeyond, Excess;
    SourcesRead(spec, g);
    CompiledParts(spec, g);
    if !MonotoneIntent(g) {
      var k :| 0 <= k < |g.edges| && Excess(g, g.edges[k]) != {};
      var s := ExcessReads(spec, g, k);
      assert OverreachesAt(spec, C.Walk(spec)[k + 1], s);
    }
    if Overreaching(spec) {
      var chain: seq<Delegation>, s :| OverreachesAt(spec, chain, s);
      var k := CallOf(spec, g, chain);
      var r := ExcessReads(spec, g, k);
      OneLastVisit(spec, chain[|chain| - 1].source, s, r);
    }
  }

  lemma CompiledParts(spec: Spec, g: Graph)
    requires Compiled(spec, g)
    ensures WellFormed(spec) && Loopless(spec)
  {
  }

  /** Every stack of lookups has its call, and so its edge. */
  lemma CallOf(spec: Spec, g: Graph, chain: seq<Delegation>) returns (k: nat)
    requires Compiled(spec, g) && IsStack(spec, chain) && chain != []
    ensures k < |g.edges| && k + 1 < |C.Walk(spec)| && C.Walk(spec)[k + 1] == chain
  {
    C.WalkExact(spec);
    hide IsStack, Loopless, WellFormed, C.Walk;
    var i :| 0 <= i < |C.Walk(spec)| && C.Walk(spec)[i] == chain;
    k := i - 1;
  }

  /** With unique ids: on some chain of lookups a delegation intends what is not held along the chain before it. */
  lemma OverreachingIff(spec: Spec)
    requires WellFormed(spec) && Loopless(spec) && UniqueTargets(spec.delegations) && UniqueDelegationIds(spec)
    ensures Overreaching(spec) <==> exists chain :: OverreachesAlong(spec, chain)
  {
    hide WellFormed, Loopless, UniqueTargets, UniqueDelegationIds, IsStack, C.Walk, C.LastVisit, IntendsBeyond;
    if Overreaching(spec) {
      var chain: seq<Delegation>, s :| OverreachesAt(spec, chain, s);
      CallerVisit(spec, chain, s);
      assert OverreachesAlong(spec, chain);
    }
    if chain :| OverreachesAlong(spec, chain) {
      var s := LastOf(spec, chain);
      CallerVisit(spec, chain, s);
      assert OverreachesAt(spec, chain, s);
    }
  }

  /** The last visit to the identity a delegation leaves is the one that followed it. */
  lemma CallerVisit(spec: Spec, chain: seq<Delegation>, s: int)
    requires WellFormed(spec) && Loopless(spec) && UniqueTargets(spec.delegations) && UniqueDelegationIds(spec)
    requires IsStack(spec, chain) && chain != [] && C.LastVisit(spec, chain[|chain| - 1].source, s)
    ensures C.Walk(spec)[s] == chain[..|chain| - 1]
  {
    OwnSource(spec, chain);
    C.WalkExact(spec);
    assert C.Walk(spec)[s] in C.Walk(spec);
    StackUnique(spec, C.Walk(spec)[s], chain[..|chain| - 1]);
  }

  lemma LastOf(spec: Spec, chain: seq<Delegation>) returns (s: int)
    requires WellFormed(spec) && Loopless(spec) && UniqueTargets(spec.delegations) && UniqueDelegationIds(spec)
    requires IsStack(spec, chain) && chain != []
    ensures C.LastVisit(spec, chain[|chain| - 1].source, s)
  {
    OwnSource(spec, chain);
    C.WalkExact(spec);
    var front := chain[..|chain| - 1];
    assert front in C.Walk(spec);
    hide IsStack, Loopless, WellFormed, C.Walk, UniqueTargets, UniqueDelegationIds;
    var i :| 0 <= i < |C.Walk(spec)| && C.Walk(spec)[i] == front;
    s := LastFrom(spec, Top(spec, front), i);
  }

  lemma {:induction false} LastFrom(spec: Spec, v: IdentityId, i: int) returns (s: int)
    requires WellFormed(spec) && Loopless(spec) && 0 <= i < |C.Walk(spec)| && Top(spec, C.Walk(spec)[i]) == v
    ensures C.LastVisit(spec, v, s)
    decreases |C.Walk(spec)| - i
  {
    hide WellFormed, Loopless, C.Walk, Tip;
    if j :| i < j < |C.Walk(spec)| && Top(spec, C.Walk(spec)[j]) == v {
      s := LastFrom(spec, v, j);
    } else {
      s := i;
    }
  }

  /**
   Compiling a scenario's graph, for every specification the schema accepts on which the recursion ends if begun. The
   constructor's own checks (one root, known endpoints, no cycle) never fail on what the walk produces; every edge
   is that of a declared delegation, with its own intent; G-3 refuses exactly if some delegation followed intends
   more than its source is to hold; the result is a delegation tree exactly when ids are unique, and then, unless
   G-3 was downgraded, every delegation's effective authority is what it intended.
   */
  method CompileGraph(spec: Spec, catalog: AuthoritySet, maxDepth: nat, downgrade: bool)
    returns (r: Result<(Graph, seq<Warning>), CompilationError>)
    requires WellFormed(spec)
    requires UniqueTargets(spec.delegations) ==> Halts(spec)
    ensures r.Ok? ==> Compiled(spec, r.value.0) && ValidGraph(r.value.0) && Depth(r.value.0.nodes) <= maxDepth
    ensures r.Ok? ==> C.DeclaredGraph(spec, r.value.0.nodes, r.value.0.edges)
    ensures r.Ok? ==> (r.value.1 == [] <==> !Overreaching(spec))
    ensures Accepted(spec) ==>
              Loopless(spec) &&
              (r.Err? && r.error.BadGraph? && r.error.buildError.IntentExceedsParent? <==>
               !downgrade && Overreaching(spec))
    ensures r.Ok? ==> (DelegationTree(r.value.0) <==> UniqueDelegationIds(spec))
    ensures r.Ok? && !downgrade && UniqueDelegationIds(spec) ==>
              forall k :: 0 <= k < |r.value.0.edges| ==>
                r.value.0.edges[k].expectedEffective == r.value.0.edges[k].intended
    ensures r.Err? && r.error.BadSpec? <==> !Accepted(spec)
    ensures r.Err? && r.error.BadGraph? ==> !r.error.buildError.Rejected?
  {
    var compiled := C.BuildNodesAndEdges(spec);
    if compiled.Err? {
      return Err(BadSpec(compiled.error));
    }
    ghost var g := Graph(compiled.value.0, compiled.value.1);
    assert Compiled(spec, g);
    hide *;
    CompiledIsValid(spec, g);
    TreeIffUniqueIds(spec, g);
    MonotoneReads(spec, g);
    WarningsAre(g, |g.edges|);
    var built := BuildGraph(compiled.value.0, compiled.value.1, catalog, maxDepth, downgrade);
    if built.Err? {
      return Err(BadGraph(built.error));
    }
    if !downgrade && UniqueDelegationIds(spec) { UndowngradedIsExact(g); }
    return Ok(built.value);
  }
}
