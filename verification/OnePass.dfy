/**
 Materializing what the compiler's walk leaves, tree or not: one pass over the edges suffices exactly when every
 delegation looked up leaves an identity the walk has come to before.
 */
module OnePass {
  import opened Outcomes
  import opened Models
  import opened Acyclicity
  import opened Graphs
  import opened Trees
  import opened Scenarios
  import opened Walks
  import opened Recursion
  import C = Compiler
  import opened CompiledTrees
  import opened Adapters
  import D = Delegation

  // ---- Before in the walk is before in its order ------------------------------------------

  /** Whatever below this stack precedes one of the visits comes earlier among them. */
  ghost predicate Closed(spec: Spec, chain: seq<Delegation>, visits: seq<seq<Delegation>>)
    requires WellFormed(spec)
  {
    forall j, a :: 0 <= j < |visits| && IsStack(spec, a) && chain < a && Precedes(spec, a, visits[j]) ==>
                     a in visits[..j]
  }

  lemma ThroughVisited(spec: Spec, chain: seq<Delegation>, k: nat, a: seq<Delegation>)
    requires C.Walkable(spec, chain) && k <= |Children(spec, chain)| && Through(spec, chain, k, a)
    ensures a in C.Below(spec, chain, k)
  {
    hide WellFormed, Loopless, IsStack, Children, C.Below, C.Visits;
    var n := |chain|;
    var p :| 0 <= p < k && Children(spec, chain)[..k][p] == a[n];
    C.ChildWalkable(spec, chain, p);
    assert a[..n] == chain && chain + [a[n]] == a[..n + 1];
    C.StackVisited(spec, chain + [Children(spec, chain)[p]], a);
    BelowNext(spec, chain, p);
    C.BelowGrows(spec, chain, p + 1, k);
  }

  lemma AllThroughVisited(spec: Spec, chain: seq<Delegation>, k: nat)
    requires C.Walkable(spec, chain) && k <= |Children(spec, chain)|
    ensures forall a :: Through(spec, chain, k, a) ==> a in C.Below(spec, chain, k)
  {
    forall a | Through(spec, chain, k, a) ensures a in C.Below(spec, chain, k) { ThroughVisited(spec, chain, k, a); }
  }

  /** Where a stack below a child parts from one that it precedes. */
  lemma PrecedesThrough(spec: Spec, chain: seq<Delegation>, k: nat, a: seq<Delegation>, b: seq<Delegation>)
    requires WellFormed(spec) && IsStack(spec, a) && chain < a && k < |Children(spec, chain)|
    requires chain + [Children(spec, chain)[k]] <= b && Precedes(spec, a, b)
    ensures Through(spec, chain, k, a) ||
            (chain + [Children(spec, chain)[k]] <= a && chain + [Children(spec, chain)[k]] < b)
  {
    hide WellFormed, IsStack, Children;
    var child := chain + [Children(spec, chain)[k]];
    var n: nat :| PrecedesAt(spec, a, b, n);
    assert a[..|chain|] == chain == b[..|chain|] && b[|chain|] == child[|chain|];
    if n == |chain| {
      Followed(spec, a, n);
    } else if n > |chain| {
      assert a[..n][..|child|] == b[..n][..|child|] == child;
    }
  }

  lemma JoinClosed(spec: Spec, chain: seq<Delegation>, k: nat, before: seq<seq<Delegation>>,
                   below: seq<seq<Delegation>>)
    requires WellFormed(spec) && k < |Children(spec, chain)|
    requires Closed(spec, chain, before) && Closed(spec, chain + [Children(spec, chain)[k]], below)
    requires forall a :: Through(spec, chain, k, a) ==> a in before
    requires forall i :: 0 <= i < |below| ==> chain + [Children(spec, chain)[k]] < below[i]
    ensures Closed(spec, chain, before + ([chain + [Children(spec, chain)[k]]] + below))
  {
    hide WellFormed, IsStack, Children, Precedes, Through;
    var child := chain + [Children(spec, chain)[k]];
    var all := before + ([child] + below);
    forall j, a | 0 <= j < |all| && IsStack(spec, a) && chain < a && Precedes(spec, a, all[j]) ensures a in all[..j] {
      if j < |before| {
        assert all[..j] == before[..j];
      } else if j == |before| {
        PrecedesThrough(spec, chain, k, a, child);
        assert all[..j] == before;
      } else {
        var i := j - |before| - 1;
        assert all[j] == below[i] && all[..j] == before + [child] + below[..i];
        PrecedesThrough(spec, chain, k, a, below[i]);
        assert a in before || a == child || a in below[..i];
      }
    }
  }

  lemma {:induction false} BelowClosed(spec: Spec, chain: seq<Delegation>, k: nat)
    requires C.Walkable(spec, chain) && k <= |Children(spec, chain)|
    ensures Closed(spec, chain, C.Below(spec, chain, k))
    decreases |Ids(spec)| - |chain|, k
  {
    hide WellFormed, Loopless, IsStack, Closed, Children, Through;
    if k == 0 {
      NothingClosed(spec, chain);
    } else {
      var child := chain + [Children(spec, chain)[k - 1]];
      C.ChildWalkable(spec, chain, k - 1);
      BelowClosed(spec, chain, k - 1);
      BelowClosed(spec, child, |Children(spec, child)|);
      AllThroughVisited(spec, chain, k - 1);
      C.BelowWithin(spec, child, |Children(spec, child)|);
      JoinClosed(spec, chain, k - 1, C.Below(spec, chain, k - 1), C.Below(spec, child, |Children(spec, child)|));
    }
  }

  lemma NothingClosed(spec: Spec, chain: seq<Delegation>)
    requires WellFormed(spec)
    ensures Closed(spec, chain, [])
  {
  }

  /** Everything that precedes a visit of the walk has been visited before it. */
  lemma WalkClosed(spec: Spec, j: nat, a: seq<Delegation>)
    requires WellFormed(spec) && Loopless(spec) && j < |C.Walk(spec)| && IsStack(spec, a) &&
             Precedes(spec, a, C.Walk(spec)[j])
    ensures a in C.Walk(spec)[..j]
  {
    hide WellFormed, Loopless, IsStack, Children, C.Below, PrecedesAt;
    EmptyStack(spec);
    var n := |Children(spec, [])|;
    BelowClosed(spec, [], n);
    NothingBefore(spec, a);
    assert C.Walk(spec) == [[]] + C.Below(spec, [], n);
    assert C.Walk(spec)[..j] == [[]] + C.Below(spec, [], n)[..j - 1];
  }

  lemma NothingBefore(spec: Spec, a: seq<Delegation>)
    requires WellFormed(spec)
    ensures !Precedes(spec, a, [])
  {
  }

  lemma {:induction false} FirstIndex(visits: seq<seq<Delegation>>, chain: seq<Delegation>) returns (j: nat)
    requires chain in visits
    ensures j < |visits| && visits[j] == chain && chain !in visits[..j]
  {
    var n := |visits| - 1;
    if chain in visits[..n] {
      j := FirstIndex(visits[..n], chain);
      assert visits[..n][..j] == visits[..j];
    } else {
      j := n;
    }
  }

  /** A visit made before another's first precedes it. */
  lemma EarlierPrecedes(spec: Spec, i: nat, j: nat)
    requires WellFormed(spec) && Loopless(spec) && i < j < |C.Walk(spec)| && C.Walk(spec)[j] !in C.Walk(spec)[..j]
    ensures IsStack(spec, C.Walk(spec)[i]) && Precedes(spec, C.Walk(spec)[i], C.Walk(spec)[j])
  {
    hide WellFormed, Loopless, IsStack, Precedes, C.Walk;
    var visits := C.Walk(spec);
    C.WalkExact(spec);
    assert visits[i] in visits && visits[j] in visits && visits[i] in visits[..j];
    Comparable(spec, visits[i], visits[j]);
    NotBefore(visits, i, j, visits[j]);
    if Precedes(spec, visits[j], visits[i]) { WalkClosed(spec, i, visits[j]); }
  }

  lemma NotBefore(visits: seq<seq<Delegation>>, i: nat, j: nat, chain: seq<Delegation>)
    requires i <= j <= |visits| && chain !in visits[..j]
    ensures chain !in visits[..i]
  {
    assert visits[..i] == visits[..j][..i];
  }

  // ---- One pass over the edges -----------------------------------------------------------------

  /** The delegation this stack ends with leaves an identity the walk has come to before. */
  ghost predicate SourceBefore(spec: Spec, chain: seq<Delegation>)
    requires WellFormed(spec) && chain != []
  {
    exists a :: IsStack(spec, a) && Precedes(spec, a, chain) && Top(spec, a) == chain[|chain| - 1].source
  }

  ghost predicate SourcesBefore(spec: Spec)
    requires WellFormed(spec)
  {
    forall chain :: IsStack(spec, chain) && chain != [] ==> SourceBefore(spec, chain)
  }

  lemma EarlierEdge(spec: Spec, g: Graph, chain: seq<Delegation>)
    requires Compiled(spec, g) && D.SourcesFirst(RootSpec(spec).id, g.edges) && IsStack(spec, chain) && chain != []
    ensures SourceBefore(spec, chain)
  {
    hide C.CompiledFrom, C.AllReached, C.Walk, IsStack, Loopless, WellFormed, UniqueTargets, Precedes;
    C.WalkExact(spec);
    var j := FirstIndex(C.Walk(spec), chain);
    EmptyStack(spec);
    EdgesAre(spec, g, j - 1);
    EarlierPrecedes(spec, 0, j);
    assert SourceEarlier(RootSpec(spec).id, g.edges, j - 1);
    if g.edges[j - 1].sourceId != RootSpec(spec).id {
      var i :| 0 <= i < j - 1 && g.edges[i].targetId == g.edges[j - 1].sourceId;
      EdgesAre(spec, g, i);
      EarlierPrecedes(spec, i + 1, j);
    }
  }

  lemma EdgesAre(spec: Spec, g: Graph, k: nat)
    requires Compiled(spec, g) && k + 1 < |C.Walk(spec)|
    ensures k < |g.edges| && C.Walk(spec)[k + 1] != [] && IsStack(spec, C.Walk(spec)[k + 1])
    ensures g.edges[k].sourceId == C.Walk(spec)[k + 1][|C.Walk(spec)[k + 1]| - 1].source
    ensures g.edges[k].targetId == Top(spec, C.Walk(spec)[k + 1])
  {
    C.WalkExact(spec);
    var chain := EdgeAt(spec, g, k);
  }

  lemma EdgeAfterSource(spec: Spec, g: Graph, k: nat)
    requires Compiled(spec, g) && SourcesBefore(spec) && k < |g.edges|
    ensures SourceEarlier(RootSpec(spec).id, g.edges, k)
  {
    hide C.CompiledFrom, C.AllReached, C.Walk, IsStack, Loopless, WellFormed, UniqueTargets, Precedes;
    var chain := EdgeAt(spec, g, k);
    assert SourceBefore(spec, chain);
    var a :| IsStack(spec, a) && Precedes(spec, a, chain) && Top(spec, a) == chain[|chain| - 1].source;
    WalkClosed(spec, k + 1, a);
    var i :| 0 <= i < k + 1 && C.Walk(spec)[..k + 1][i] == a;
    C.WalkExact(spec);
    EmptyStack(spec);
    if i > 0 { EdgesAre(spec, g, i - 1); }
  }

  /**
   The exact condition, with repeated ids or without: with a provider that refuses nothing, one pass over the compiled
   edges materializes the graph if and only if every delegation the walk looks up leaves an identity that the walk
   has come to before. Unique ids make it so; repeated ones may look up a delegation of an identity still to come.
   */
  lemma MaterializesIff(spec: Spec, g: Graph, script: Script, base: nat)
    requires Compiled(spec, g) && D.AllMinted(script, base, |g.edges|)
    ensures OneRoot(g.nodes)
    ensures D.Delegated(script, base, Root(g).identityId, g.edges).Ok? <==> SourcesBefore(spec)
  {
    hide C.CompiledFrom, C.AllReached, Loopless, UniqueTargets, IsStack, WellFormed, D.Delegated, SourceBefore,
         SourceEarlier;
    CompiledRoot(spec, g);
    D.OnePassIff(script, base, Root(g).identityId, g.edges);
    if SourcesBefore(spec) {
      forall k | 0 <= k < |g.edges| ensures SourceEarlier(RootSpec(spec).id, g.edges, k) {
        EdgeAfterSource(spec, g, k);
      }
    } else if D.SourcesFirst(Root(g).identityId, g.edges) {
      forall chain | IsStack(spec, chain) && chain != [] ensures SourceBefore(spec, chain) {
        EarlierEdge(spec, g, chain);
      }
    }
  }

  // ---- A graph that takes more than one pass -----------------------------------------------------

  /** The delegation into the root is hidden behind one that leaves an identity the walk has yet to come to. */
  function Ahead(root: IdentityId, u: IdentityId, w: IdentityId, b: IdentityId, x: string, y: string, z: string,
                 held: AuthoritySet): Spec {
    Spec([Simple(root, true, held), Simple(u, false, {}), Simple(w, false, {}), Simple(b, false, {})],
         [Delegation(x, u, root, held, 900), Delegation(y, root, u, held, 900), Delegation(z, root, w, held, 900),
          Delegation(x, w, b, held, 900)])
  }

  ghost predicate Apart(root: IdentityId, u: IdentityId, w: IdentityId, b: IdentityId, x: string, y: string,
                        z: string) {
    root != u && root != w && root != b && u != w && u != b && w != b && x != y && x != z && y != z
  }

  lemma AheadIds(root: IdentityId, u: IdentityId, w: IdentityId, b: IdentityId, x: string, y: string, z: string,
                 held: AuthoritySet)
    ensures Ids(Ahead(root, u, w, b, x, y, z, held)) == {root, u, w, b}
  {
    var ids := Ahead(root, u, w, b, x, y, z, held).identities;
    assert ids[0].id == root && ids[1].id == u && ids[2].id == w && ids[3].id == b;
    assert ids[0] in ids && ids[1] in ids && ids[2] in ids && ids[3] in ids;
  }

  lemma AheadTargets(root: IdentityId, u: IdentityId, w: IdentityId, b: IdentityId, x: string, y: string, z: string,
                     held: AuthoritySet)
    requires Apart(root, u, w, b, x, y, z)
    ensures var spec := Ahead(root, u, w, b, x, y, z, held);
            UniqueTargets(spec.delegations) && !UniqueDelegationIds(spec)
  {
    var spec := Ahead(root, u, w, b, x, y, z, held);
    assert spec.delegations[0].id == spec.delegations[3].id;
  }

  lemma AheadIsWellFormed(root: IdentityId, u: IdentityId, w: IdentityId, b: IdentityId, x: string, y: string,
                          z: string,
                          held: AuthoritySet)
    requires Apart(root, u, w, b, x, y, z)
    ensures var spec := Ahead(root, u, w, b, x, y, z, held);
            WellFormed(spec) && RootSpec(spec).id == root && Ids(spec) == {root, u, w, b}
  {
    hide Ids, FirstRoot;
    var spec := Ahead(root, u, w, b, x, y, z, held);
    AheadIds(root, u, w, b, x, y, z, held);
    var ids := spec.identities;
    assert ids[0].isRoot && forall j :: 0 <= j < |ids| && ids[j].isRoot ==> j == 0;
    forall k | 0 <= k < |spec.delegations|
      ensures spec.delegations[k].source in Ids(spec) && spec.delegations[k].target in Ids(spec)
    {
    }
  }

  lemma OutgoingOfFour(d: Delegation, e: Delegation, g: Delegation, f: Delegation, v: IdentityId)
    ensures Outgoing([d, e, g, f], v) ==
            (if d.source == v then [d] else []) + (if e.source == v then [e] else []) +
              (if g.source == v then [g] else []) + (if f.source == v then [f] else [])
  {
    assert [d, e, g, f][..3] == [d, e, g];
    OutgoingOfThree(d, e, g, v);
  }

  lemma AheadLookups(d: Delegation, e: Delegation, g: Delegation, f: Delegation, v: IdentityId)
    requires d.id == f.id && d.id != e.id && d.id != g.id && e.id != g.id
    requires e.source == g.source && d.source != e.source && f.source != e.source && d.source != f.source
    ensures Next([d, e, g, f], v) == if v == e.source then [e, g] else if v == d.source || v == f.source then
            [f] else []
  {
    hide Next, Outgoing, ById;
    var all := [d, e, g, f];
    ByIdIsLast(all, 1);
    ByIdIsLast(all, 2);
    ByIdIsLast(all, 3);
    assert ById(all)[e.id] == e && ById(all)[g.id] == g && ById(all)[f.id] == f;
    OutgoingOfFour(d, e, g, f, v);
    NextExact(all, v);
    if v == e.source {
      assert Outgoing(all, v) == [e, g];
    } else if v == d.source {
      assert Outgoing(all, v) == [d];
    } else if v == f.source {
      assert Outgoing(all, v) == [f];
    } else {
      assert Outgoing(all, v) == [];
    }
  }

  lemma AheadStacks(root: IdentityId, u: IdentityId, w: IdentityId, b: IdentityId, x: string, y: string, z: string,
                    held: AuthoritySet, chain: seq<Delegation>)
    requires Apart(root, u, w, b, x, y, z)
    ensures var all := Ahead(root, u, w, b, x, y, z, held).delegations;
            Follows(all, root, chain) <==> chain in {[], [all[1]], [all[2]], [all[1], all[3]], [all[2], all[3]]}
  {
    var all := Ahead(root, u, w, b, x, y, z, held).delegations;
    var d, e, g, f := all[0], all[1], all[2], all[3];
    AheadLookups(d, e, g, f, root);
    AheadLookups(d, e, g, f, u);
    AheadLookups(d, e, g, f, w);
    AheadLookups(d, e, g, f, b);
    FollowOne(all, root, [], e);
    FollowOne(all, root, [], g);
    assert [] + [e] == [e] && [] + [g] == [g] && [e] + [f] == [e, f] && [g] + [f] == [g, f];
    FollowOne(all, root, [e], f);
    FollowOne(all, root, [g], f);
    if Follows(all, root, chain) { OnlyAhead(all, root, chain, e, g, f); }
  }

  lemma OnlyAhead(all: seq<Delegation>, root: IdentityId, chain: seq<Delegation>, e: Delegation, g: Delegation,
                  f: Delegation)
    requires Follows(all, root, chain) && Next(all, root) == [e, g] && Next(all, e.target) == [f]
    requires Next(all, g.target) == [f] && Next(all, f.target) == []
    ensures chain in {[], [e], [g], [e, f], [g, f]}
  {
    hide Follows, Next;
    if |chain| > 0 {
      FollowedPrefix(all, root, chain, 0);
      assert chain[0] == e || chain[0] == g;
      assert chain[..1] == [chain[0]];
    }
    if |chain| > 1 {
      FollowedPrefix(all, root, chain, 1);
      assert chain[1] == f;
      assert chain[..2] == [chain[0], f];
    }
    if |chain| > 2 {
      FollowedPrefix(all, root, chain, 2);
      assert false;
    }
    assert chain == [] || chain == chain[..1] || chain == chain[..2];
  }

  /** It compiles, and no single pass over its edges materializes it. */
  lemma AheadMissesSource(root: IdentityId, u: IdentityId, w: IdentityId, b: IdentityId, x: string, y: string,
                          z: string,
                          held: AuthoritySet)
    requires Apart(root, u, w, b, x, y, z)
    ensures var spec := Ahead(root, u, w, b, x, y, z, held);
            WellFormed(spec) && UniqueTargets(spec.delegations) && !UniqueDelegationIds(spec) && Halts(spec) &&
            C.AllReached(spec) && AllExpectationsMet(spec) && !SourcesBefore(spec)
  {
    hide WellFormed, UniqueTargets, UniqueDelegationIds, Follows, Halts, Loopless;
    var spec := Ahead(root, u, w, b, x, y, z, held);
    AheadIsWellFormed(root, u, w, b, x, y, z, held);
    AheadTargets(root, u, w, b, x, y, z, held);
    NothingDeclared(spec);
    AheadLoopless(root, u, w, b, x, y, z, held);
    LooplessReturns(spec);
    var all := spec.delegations;
    forall v | v in Ids(spec) ensures C.Reached(spec, v) {
      var chain := if v == root then [] else if v == u then [all[1]] else if v == w then [all[2]] else [all[1], all[3]];
      AheadStacks(root, u, w, b, x, y, z, held, chain);
      assert IsStack(spec, chain) && Top(spec, chain) == v;
    }
    AheadSourceLater(root, u, w, b, x, y, z, held);
  }

  lemma AheadLoopless(root: IdentityId, u: IdentityId, w: IdentityId, b: IdentityId, x: string, y: string, z: string,
                      held: AuthoritySet)
    requires Apart(root, u, w, b, x, y, z) && WellFormed(Ahead(root, u, w, b, x, y, z, held))
    requires RootSpec(Ahead(root, u, w, b, x, y, z, held)).id == root
    ensures Loopless(Ahead(root, u, w, b, x, y, z, held))
  {
    hide WellFormed, Follows;
    var spec := Ahead(root, u, w, b, x, y, z, held);
    forall chain | IsStack(spec, chain) ensures Distinct(Stops(root, chain)) {
      AheadStacks(root, u, w, b, x, y, z, held, chain);
    }
  }

  lemma AheadSourceLater(root: IdentityId, u: IdentityId, w: IdentityId, b: IdentityId, x: string, y: string, z: string,
                         held: AuthoritySet)
    requires Apart(root, u, w, b, x, y, z) && WellFormed(Ahead(root, u, w, b, x, y, z, held))
    requires RootSpec(Ahead(root, u, w, b, x, y, z, held)).id == root
    ensures !SourcesBefore(Ahead(root, u, w, b, x, y, z, held))
  {
    hide WellFormed, Follows;
    var spec := Ahead(root, u, w, b, x, y, z, held);
    var all := spec.delegations;
    var chain := [all[1], all[3]];
    AheadStacks(root, u, w, b, x, y, z, held, chain);
    AheadLookups(all[0], all[1], all[2], all[3], root);
    assert Children(spec, []) == [all[1], all[2]];
    forall a | IsStack(spec, a) && Top(spec, a) == w ensures !Precedes(spec, a, chain) {
      AheadStacks(root, u, w, b, x, y, z, held, a);
      assert a == [all[2]];
      forall n: nat ensures !PrecedesAt(spec, a, chain, n) {
        assert a[..0] == [] && chain[..1] == [all[1]] && a[..1] == [all[2]];
      }
    }
    assert !SourceBefore(spec, chain);
  }
}
