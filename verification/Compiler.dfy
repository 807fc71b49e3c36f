/**
 The scenario compiler's graph construction: a depth-first walk over the delegations looked up by id
 that derives each identity's expected authority by intersection.
 */
module Compiler {
  import opened Wrappers
  import opened Outcomes
  import opened Models
  import opened Scenarios
  import opened Walks
  import opened Recursion

  // ---- Indexing ---------------------------------------------------------------

  /** Two delegations to the same identity, the first and the second offending one. */
  ghost predicate Clash(delegations: seq<Delegation>, error: CompileError) {
    error.DoublyTargeted? &&
    exists i, j :: 0 <= i < j < |delegations| && ClashAt(delegations[i], delegations[j], error)
  }

  ghost predicate ClashAt(d: Delegation, e: Delegation, error: CompileError) {
    error.DoublyTargeted? && d.target == e.target == error.target && d.id == error.first && e.id == error.second
  }

  datatype Index = Index(children: map<IdentityId, seq<string>>, byId: map<string, Delegation>)

  /** Refuses a second delegation to the same identity, naming both. */
  method IndexDelegations(delegations: seq<Delegation>) returns (r: Result<Index, CompileError>)
    ensures r.Ok? <==> UniqueTargets(delegations)
    ensures r.Ok? ==> r.value == Index(ChildMap(delegations), ById(delegations))
    ensures r.Err? ==> Clash(delegations, r.error)
  {
    var children: map<IdentityId, seq<string>> := map[];
    var byId: map<string, Delegation> := map[];
    var seen: map<IdentityId, string> := map[];
    for k := 0 to |delegations|
      invariant UniqueTargets(delegations[..k])
      invariant children == ChildMap(delegations[..k]) && byId == ById(delegations[..k])
      invariant seen == TargetsSeen(delegations[..k])
    {
      var d := delegations[k];
      TargetsSeenExact(delegations[..k], d.target);
      if d.target in seen {
        ghost var i :| 0 <= i < k && delegations[..k][i].target == d.target && delegations[..k][i].id == seen[d.target];
        assert ClashAt(delegations[i], delegations[k], DoublyTargeted(d.target, seen[d.target], d.id));
        return Err(DoublyTargeted(d.target, seen[d.target], d.id));
      }
      forall i | 0 <= i < k ensures delegations[i].target != d.target {
        assert delegations[..k][i] == delegations[i];
      }
      assert delegations[..k + 1][..k] == delegations[..k];
      seen := seen[d.target := d.id];
      children := children[d.source := ChildrenIn(children, d.source) + [d.id]];
      byId := byId[d.id := d];
    }
    assert delegations[..|delegations|] == delegations;
    return Ok(Index(children, byId));
  }

  // ---- What one visit records --------------------------------------------------

  /** The identity whose visit made the last call. */
  ghost function ParentOn(spec: Spec, chain: seq<Delegation>): Option<IdentityId>
    requires WellFormed(spec)
  {
    if chain == [] then None else Some(Top(spec, chain[..|chain| - 1]))
  }

  ghost function NodeOn(spec: Spec, chain: seq<Delegation>): Node
    requires WellFormed(spec) && IsStack(spec, chain)
  {
    TopKnown(spec, chain);
    var id := Top(spec, chain);
    Node(id, SpecOf(spec, id).providerBinding, chain == [], |chain|, ParentOn(spec, chain), Derived(spec, chain), None)
  }

  ghost function EdgeOn(spec: Spec, chain: seq<Delegation>): Edge
    requires WellFormed(spec) && chain != []
  {
    var d := chain[|chain| - 1];
    Edge(d.id, d.source, d.target, d.intended, d.intended, Derived(spec, chain), d.lifetimeS)
  }

  // ---- The visits of a walk that returns -------------------------------------------

  ghost predicate Walkable(spec: Spec, chain: seq<Delegation>) {
    WellFormed(spec) && Loopless(spec) && IsStack(spec, chain)
  }

  lemma ChildWalkable(spec: Spec, chain: seq<Delegation>, k: nat)
    requires Walkable(spec, chain) && k < |Children(spec, chain)|
    ensures Walkable(spec, chain + [Children(spec, chain)[k]]) && |chain| + 1 < |Ids(spec)|
  {
    FollowOne(spec.delegations, RootSpec(spec).id, chain, Children(spec, chain)[k]);
    DepthBounded(spec, chain + [Children(spec, chain)[k]]);
  }

  /** The visits made by the visit at the end of this chain, itself first: a stack of calls each. */
  ghost function Visits(spec: Spec, chain: seq<Delegation>): seq<seq<Delegation>>
    requires Walkable(spec, chain)
    decreases |Ids(spec)| - |chain|, |Children(spec, chain)| + 1
  {
    [chain] + Below(spec, chain, |Children(spec, chain)|)
  }

  /** The visits made on behalf of the first k delegations it follows. */
  ghost function Below(spec: Spec, chain: seq<Delegation>, k: nat): seq<seq<Delegation>>
    requires Walkable(spec, chain) && k <= |Children(spec, chain)|
    decreases |Ids(spec)| - |chain|, k
  {
    if k == 0 then
      []
    else
      ChildWalkable(spec, chain, k - 1);
      Below(spec, chain, k - 1) + Visits(spec, chain + [Children(spec, chain)[k - 1]])
  }

  ghost predicate AllStacks(spec: Spec, visits: seq<seq<Delegation>>)
    requires WellFormed(spec)
  {
    forall i :: 0 <= i < |visits| ==> IsStack(spec, visits[i])
  }

  /** All are stacks of visits that were called from this one. */
  ghost predicate Within(spec: Spec, chain: seq<Delegation>, visits: seq<seq<Delegation>>)
    requires WellFormed(spec)
  {
    forall i :: 0 <= i < |visits| ==> IsStack(spec, visits[i]) && chain < visits[i]
  }

  lemma WithinGrows(spec: Spec, chain: seq<Delegation>, before: seq<seq<Delegation>>, child: seq<Delegation>,
                    below: seq<seq<Delegation>>)
    requires WellFormed(spec) && Within(spec, chain, before) && Within(spec, child, below) && chain < child &&
             IsStack(spec, child)
    ensures Within(spec, chain, before + ([child] + below))
  {
    hide IsStack;
  }

  lemma {:induction false} BelowWithin(spec: Spec, chain: seq<Delegation>, k: nat)
    requires Walkable(spec, chain) && k <= |Children(spec, chain)|
    ensures Within(spec, chain, Below(spec, chain, k))
    decreases |Ids(spec)| - |chain|, k
  {
    hide IsStack, Within, Loopless, Children, WellFormed;
    if k > 0 {
      var child := chain + [Children(spec, chain)[k - 1]];
      ChildWalkable(spec, chain, k - 1);
      BelowWithin(spec, chain, k - 1);
      BelowWithin(spec, child, |Children(spec, child)|);
      WithinGrows(spec, chain, Below(spec, chain, k - 1), child, Below(spec, child, |Children(spec, child)|));
    } else {
      NothingWithin(spec, chain);
    }
  }

  lemma NothingWithin(spec: Spec, chain: seq<Delegation>)
    requires WellFormed(spec)
    ensures Within(spec, chain, [])
  {
  }

  lemma OwnAndBelow(spec: Spec, chain: seq<Delegation>, below: seq<seq<Delegation>>)
    requires WellFormed(spec) && IsStack(spec, chain) && Within(spec, chain, below)
    ensures AllStacks(spec, [chain] + below)
    ensures forall i :: 0 <= i < |[chain] + below| ==> chain <= ([chain] + below)[i]
  {
    hide IsStack;
  }

  /** The visits of a stack are stacks that extend it. */
  lemma VisitsAreStacks(spec: Spec, chain: seq<Delegation>)
    requires Walkable(spec, chain)
    ensures AllStacks(spec, Visits(spec, chain))
    ensures forall i :: 0 <= i < |Visits(spec, chain)| ==> chain <= Visits(spec, chain)[i]
  {
    hide IsStack, Within, AllStacks, Loopless, WellFormed, Children;
    BelowWithin(spec, chain, |Children(spec, chain)|);
    OwnAndBelow(spec, chain, Below(spec, chain, |Children(spec, chain)|));
  }

  lemma {:induction false} BelowGrows(spec: Spec, chain: seq<Delegation>, j: nat, k: nat)
    requires Walkable(spec, chain) && j <= k <= |Children(spec, chain)|
    ensures Below(spec, chain, j) <= Below(spec, chain, k)
    decreases k
  {
    if j < k { BelowGrows(spec, chain, j, k - 1); }
  }

  /** A longer stack goes on with one of the delegations followed next. */
  lemma GoesOn(spec: Spec, chain: seq<Delegation>, c: seq<Delegation>) returns (k: nat)
    requires Walkable(spec, chain) && IsStack(spec, c) && chain < c
    ensures k < |Children(spec, chain)| && Children(spec, chain)[k] == c[|chain|]
    ensures chain + [Children(spec, chain)[k]] <= c
  {
    var n := |chain|;
    FollowedPrefix(spec.delegations, RootSpec(spec).id, c, n);
    assert c[..n] == chain;
    k :| 0 <= k < |Children(spec, chain)| && Children(spec, chain)[k] == c[n];
    assert chain + [c[n]] == c[..n + 1];
  }

  lemma {:induction false} StackVisited(spec: Spec, chain: seq<Delegation>, c: seq<Delegation>)
    requires Walkable(spec, chain) && IsStack(spec, c) && chain <= c
    ensures c in Visits(spec, chain)
    decreases |c| - |chain|
  {
    hide IsStack, Loopless, WellFormed, Children, Walkable;
    if c != chain {
      var k := GoesOn(spec, chain, c);
      ChildWalkable(spec, chain, k);
      StackVisited(spec, chain + [Children(spec, chain)[k]], c);
      assert c in Below(spec, chain, k + 1);
      BelowGrows(spec, chain, k + 1, |Children(spec, chain)|);
    }
  }

  // ---- What a series of visits leaves ------------------------------------------------

  /** The dictionary of nodes: a later visit to an identity replaces an earlier one. */
  ghost function NodesAfter(spec: Spec, nodes: map<IdentityId, Node>,
                            visits: seq<seq<Delegation>>): map<IdentityId, Node>
    requires WellFormed(spec) && AllStacks(spec, visits)
  {
    if visits == [] then
      nodes
    else
      var last := visits[|visits| - 1];
      NodesAfter(spec, nodes, visits[..|visits| - 1])[Top(spec, last) := NodeOn(spec, last)]
  }

  ghost predicate AllCalled(visits: seq<seq<Delegation>>) {
    forall i :: 0 <= i < |visits| ==> visits[i] != []
  }

  /** One edge per call. */
  ghost function EdgesOf(spec: Spec, visits: seq<seq<Delegation>>): (edges: seq<Edge>)
    requires WellFormed(spec) && AllCalled(visits)
    ensures |edges| == |visits|
  {
    seq(|visits|, i requires 0 <= i < |visits| => EdgeOn(spec, visits[i]))
  }

  lemma StacksJoin(spec: Spec, a: seq<seq<Delegation>>, b: seq<seq<Delegation>>)
    requires WellFormed(spec) && AllStacks(spec, a) && AllStacks(spec, b)
    ensures AllStacks(spec, a + b) && (b != [] ==> AllStacks(spec, b[..|b| - 1]) && IsStack(spec, b[|b| - 1]))
    ensures b != [] ==> (a + b)[..|a + b| - 1] == a + b[..|b| - 1] && (a + b)[|a + b| - 1] == b[|b| - 1]
  {
    hide IsStack;
  }

  lemma {:induction false} AfterBoth(spec: Spec, nodes: map<IdentityId, Node>, a: seq<seq<Delegation>>,
                                     b: seq<seq<Delegation>>)
    requires WellFormed(spec) && AllStacks(spec, a) && AllStacks(spec, b)
    ensures AllStacks(spec, a + b)
    ensures NodesAfter(spec, nodes, a + b) == NodesAfter(spec, NodesAfter(spec, nodes, a), b)
  {
    hide IsStack, AllStacks, WellFormed, NodeOn, Top;
    StacksJoin(spec, a, b);
    if b == [] {
      assert a + b == a;
    } else {
      AfterBoth(spec, nodes, a, b[..|b| - 1]);
    }
  }

  lemma EdgesBoth(spec: Spec, a: seq<seq<Delegation>>, b: seq<seq<Delegation>>)
    requires WellFormed(spec) && AllCalled(a) && AllCalled(b)
    ensures AllCalled(a + b) && EdgesOf(spec, a + b) == EdgesOf(spec, a) + EdgesOf(spec, b)
  {
  }

  /** What the builder holds once these visits have been made, the first of which has its edge recorded already. */
  ghost predicate Built(spec: Spec, nodes0: map<IdentityId, Node>, edges0: seq<Edge>, visits: seq<seq<Delegation>>,
                        calls: seq<seq<Delegation>>, nodes: map<IdentityId, Node>, edges: seq<Edge>)
    requires WellFormed(spec)
  {
    AllStacks(spec, visits) && AllCalled(calls) && nodes == NodesAfter(spec, nodes0, visits) &&
    edges == edges0 + EdgesOf(spec, calls)
  }

  lemma BuiltOne(spec: Spec, nodes: map<IdentityId, Node>, edges: seq<Edge>, chain: seq<Delegation>)
    requires WellFormed(spec) && IsStack(spec, chain)
    ensures Built(spec, nodes, edges, [chain], [], nodes[Top(spec, chain) := NodeOn(spec, chain)], edges)
  {
    assert [chain][..0] == [];
  }

  lemma BuiltBoth(spec: Spec, nodes0: map<IdentityId, Node>, edges0: seq<Edge>, a: seq<seq<Delegation>>,
                  ca: seq<seq<Delegation>>,
                  nodes1: map<IdentityId, Node>, edges1: seq<Edge>, b: seq<seq<Delegation>>, cb: seq<seq<Delegation>>,
                  nodes2: map<IdentityId, Node>, edges2: seq<Edge>)
    requires WellFormed(spec) && Built(spec, nodes0, edges0, a, ca, nodes1, edges1) &&
             Built(spec, nodes1, edges1, b, cb, nodes2, edges2)
    ensures Built(spec, nodes0, edges0, a + b, ca + cb, nodes2, edges2)
  {
    AfterBoth(spec, nodes0, a, b);
    EdgesBoth(spec, ca, cb);
  }

  /** A call: its edge, then what its visit builds. */
  lemma BuiltCall(spec: Spec, nodes0: map<IdentityId, Node>, edges0: seq<Edge>, chain: seq<Delegation>,
                  below: seq<seq<Delegation>>,
                  nodes: map<IdentityId, Node>, edges: seq<Edge>)
    requires WellFormed(spec) && chain != [] &&
             Built(spec, nodes0, edges0 + [EdgeOn(spec, chain)], [chain] + below, below, nodes, edges)
    ensures Built(spec, nodes0, edges0, [chain] + below, [chain] + below, nodes, edges)
  {
    EdgesBoth(spec, [chain], below);
    assert EdgesOf(spec, [chain]) == [EdgeOn(spec, chain)];
    assert edges0 + [EdgeOn(spec, chain)] + EdgesOf(spec, below) ==
      edges0 + ([EdgeOn(spec, chain)] + EdgesOf(spec, below));
  }

  lemma BelowCalled(spec: Spec, chain: seq<Delegation>, k: nat)
    requires Walkable(spec, chain) && k <= |Children(spec, chain)|
    ensures AllStacks(spec, Below(spec, chain, k)) && AllCalled(Below(spec, chain, k))
  {
    BelowWithin(spec, chain, k);
  }

  /** Either the error the walk was refused with, or everything its visits build. */
  ghost predicate Outcome(spec: Spec, nodes0: map<IdentityId, Node>, edges0: seq<Edge>, ending: Ending,
                          visits: seq<seq<Delegation>>, calls: seq<seq<Delegation>>, r: Option<CompileError>,
                          nodes: map<IdentityId, Node>, edges: seq<Edge>)
    requires WellFormed(spec)
  {
    match ending
    case Refused(error) => r == Some(error)
    case Returned => r == None && Built(spec, nodes0, edges0, visits, calls, nodes, edges)
    case Unfinished => false
  }

  /** The calls for the delegations up to k have returned, and the next one was made. */
  lemma NextCall(spec: Spec, chain: seq<Delegation>, k: nat, depth: nat)
    requires WellFormed(spec) && IsStack(spec, chain) && k < |Children(spec, chain)| && depth > 0
    requires WalkBelow(spec, chain, k, depth).ending.Returned?
    ensures var child := chain + [Children(spec, chain)[k]];
            IsStack(spec, child) && Top(spec, child) == Children(spec, chain)[k].target &&
            ParentOn(spec, child) == Some(Top(spec, chain)) &&
            Derived(spec, child) == Derived(spec, chain) * Children(spec, chain)[k].intended &&
            var before, call := WalkBelow(spec, chain, k, depth), WalkFrom(spec, child, depth - 1);
            WalkBelow(spec, chain, k + 1, depth) == Walked(before.visits + call.visits, call.ending)
  {
    hide IsStack, WellFormed, Children, Refusal;
    ChildStack(spec, chain, k);
    var child := chain + [Children(spec, chain)[k]];
    assert child[..|child| - 1] == chain;
  }

  /** The loop ends with the first call that does not return. */
  lemma {:induction false} EndsThere(spec: Spec, chain: seq<Delegation>, j: nat, k: nat, depth: nat)
    requires WellFormed(spec) && IsStack(spec, chain) && j <= k <= |Children(spec, chain)| && depth > 0
    requires !WalkBelow(spec, chain, j, depth).ending.Returned?
    ensures WalkBelow(spec, chain, k, depth) == WalkBelow(spec, chain, j, depth)
    decreases k
  {
    hide IsStack, WellFormed, Children;
    if j < k { EndsThere(spec, chain, j, k - 1, depth); }
  }

  lemma StartsWithItself(spec: Spec, chain: seq<Delegation>, depth: nat)
    requires WellFormed(spec) && IsStack(spec, chain) && !WalkFrom(spec, chain, depth).ending.Unfinished?
    ensures depth > 0 && |WalkFrom(spec, chain, depth).visits| > 0
    ensures Refusal(spec, chain).None? ==>
              var below := WalkBelow(spec, chain, |Children(spec, chain)|, depth);
              WalkFrom(spec, chain, depth) == Walked([chain] + below.visits, below.ending) &&
              WalkFrom(spec, chain, depth).visits[1..] == below.visits
    ensures Refusal(spec, chain).Some? ==>
              WalkFrom(spec, chain, depth).ending == Refused(Refusal(spec, chain).value)
  {
    hide IsStack, WellFormed, WalkBelow, Refusal;
  }

  class GraphBuilder {
    const spec: Spec
    const index: Index
    var nodes: map<IdentityId, Node>
    var edges: seq<Edge>

    constructor (spec: Spec, index: Index)
      ensures this.spec == spec && this.index == index && nodes == map[] && edges == []
    {
      this.spec, this.index, nodes, edges := spec, index, map[], [];
    }

    ghost predicate Ready() {
      WellFormed(spec) && index == Index(ChildMap(spec.delegations), ById(spec.delegations))
    }

    /** Checks the identity's declared authority against the derived one and records its node. */
    method Enter(v: IdentityId, hopIndex: nat, parent: Option<IdentityId>, expected: AuthoritySet,
                 ghost chain: seq<Delegation>)
      returns (r: Option<CompileError>)
      requires Ready() && IsStack(spec, chain) && v == Top(spec, chain)
      requires hopIndex == |chain| && parent == ParentOn(spec, chain) && expected == Derived(spec, chain)
      modifies this`nodes
      ensures r == Refusal(spec, chain)
      ensures r.None? ==> Built(spec, old(nodes), edges, [chain], [], nodes, edges)
    {
      hide WellFormed, IsStack, AllStacks, Built;
      TopKnown(spec, chain);
      BuiltOne(spec, nodes, edges, chain);
      var identity := SpecOf(spec, v);
      if identity.expectCapabilities.Some? && identity.expectCapabilities.value != expected {
        return Some(ExpectationDisagrees(v, identity.expectCapabilities.value, expected));
      }
      nodes := nodes[v := Node(v, identity.providerBinding, parent.None?, hopIndex, parent, expected, None)];
      return None;
    }

    /**
     Visits an identity and everything the walk follows from it. The chain is the stack of calls; all that is asked
     is that the recursion ends, by returning or by raising: there is a depth of calls that is room enough for it.
     */
    method Visit(v: IdentityId, hopIndex: nat, parent: Option<IdentityId>, expected: AuthoritySet,
                 ghost chain: seq<Delegation>, ghost room: nat)
      returns (r: Option<CompileError>)
      requires Ready() && IsStack(spec, chain) && v == Top(spec, chain)
      requires hopIndex == |chain| && parent == ParentOn(spec, chain) && expected == Derived(spec, chain)
      requires !WalkFrom(spec, chain, room).ending.Unfinished?
      modifies this
      ensures var w := WalkFrom(spec, chain, room);
              w.visits != [] &&
              Outcome(spec, old(nodes), old(edges), w.ending, w.visits, w.visits[1..], r, nodes, edges)
      decreases room, 2
    {
      hide WellFormed, IsStack, Built, ParentOn, Derived, Children, WalkFrom, WalkBelow, Refusal;
      StartsWithItself(spec, chain, room);
      r := Enter(v, hopIndex, parent, expected, chain);
      if r.Some? {
        return;
      }
      r := VisitChildren(v, hopIndex, expected, chain, old(nodes), old(edges), room);
    }

    /** The loop over the ids of the delegations leaving an identity. */
    method VisitChildren(v: IdentityId, hopIndex: nat, expected: AuthoritySet, ghost chain: seq<Delegation>,
                         ghost nodes0: map<IdentityId, Node>, ghost edges0: seq<Edge>, ghost room: nat)
      returns (r: Option<CompileError>)
      requires Ready() && IsStack(spec, chain) && v == Top(spec, chain) && room > 0
      requires hopIndex == |chain| && expected == Derived(spec, chain)
      requires !WalkBelow(spec, chain, |Children(spec, chain)|, room).ending.Unfinished?
      requires Built(spec, nodes0, edges0, [chain], [], nodes, edges)
      modifies this
      ensures var w := WalkBelow(spec, chain, |Children(spec, chain)|, room);
              Outcome(spec, nodes0, edges0, w.ending, [chain] + w.visits, w.visits, r, nodes, edges)
      decreases room, 1
    {
      hide WellFormed, IsStack, Built, Derived, WalkFrom, WalkBelow, Outcome;
      var ids := ChildrenIn(index.children, v);
      NoCallYet(spec, chain, room);
      for k := 0 to |ids|
        invariant WalkBelow(spec, chain, k, room).ending.Returned?
        invariant var visits := WalkBelow(spec, chain, k, room).visits;
                  Built(spec, nodes0, edges0, [chain] + visits, visits, nodes, edges)
      {
        NextCall(spec, chain, k, room);
        ghost var nodes1, edges1, call := nodes, edges,
            WalkFrom(spec, chain + [Children(spec, chain)[k]], room - 1);
        if !call.ending.Returned? { EndsThere(spec, chain, k + 1, |ids|, room); }
        r := Call(v, hopIndex, expected, ids[k], chain, k, room);
        AfterCall(spec, chain, WalkBelow(spec, chain, k, room).visits, nodes0, edges0, nodes1, edges1, call, r, nodes,
                  edges);
        if r.Some? {
          IsRefused(spec, nodes0, edges0, [chain] + WalkBelow(spec, chain, |ids|, room).visits, r, nodes, edges, call,
                    WalkBelow(spec, chain, |ids|, room));
          return;
        }
      }
      IsReturned(spec, nodes0, edges0, [chain] + WalkBelow(spec, chain, |ids|, room).visits,
                 WalkBelow(spec, chain, |ids|, room), nodes, edges);
      return None;
    }

    /** One round of the loop: record the edge of the delegation found under an id, then visit its target. */
    method Call(v: IdentityId, hopIndex: nat, expected: AuthoritySet, id: string, ghost chain: seq<Delegation>,
                ghost k: nat, ghost room: nat)
      returns (r: Option<CompileError>)
      requires Ready() && IsStack(spec, chain) && v == Top(spec, chain) && room > 0
      requires hopIndex == |chain| && expected == Derived(spec, chain)
      requires k < |Children(spec, chain)| && id == ChildrenIn(index.children, v)[k]
      requires WalkBelow(spec, chain, k, room).ending.Returned?
      requires IsStack(spec, chain + [Children(spec, chain)[k]])
      requires !WalkFrom(spec, chain + [Children(spec, chain)[k]], room - 1).ending.Unfinished?
      modifies this
      ensures var w := WalkFrom(spec, chain + [Children(spec, chain)[k]], room - 1);
              Outcome(spec, old(nodes), old(edges), w.ending, w.visits, w.visits, r, nodes, edges)
      decreases room, 0
    {
      hide WellFormed, IsStack, Outcome, Derived, ParentOn, WalkFrom, WalkBelow;
      NextCall(spec, chain, k, room);
      ChildIdKnown(spec.delegations, v, k);
      var d := index.byId[id];
      ghost var child := chain + [d];
      var childExpected := expected * d.intended;
      edges := edges + [Edge(d.id, d.source, d.target, d.intended, d.intended, childExpected, d.lifetimeS)];
      r := Visit(d.target, hopIndex + 1, Some(v), childExpected, child, room - 1);
      StartsAt(spec, child, room - 1);
      CallBuilt(spec, old(nodes), old(edges), child, WalkFrom(spec, child, room - 1), r, nodes, edges);
    }
  }

  lemma NoCallYet(spec: Spec, chain: seq<Delegation>, depth: nat)
    requires WellFormed(spec) && IsStack(spec, chain) && depth > 0
    ensures WalkBelow(spec, chain, 0, depth) == Walked([], Returned) && [chain] + [] == [chain]
  {
  }

  lemma StartsAt(spec: Spec, chain: seq<Delegation>, depth: nat)
    requires WellFormed(spec) && IsStack(spec, chain) && !WalkFrom(spec, chain, depth).ending.Unfinished?
    ensures WalkFrom(spec, chain, depth).visits != [] && WalkFrom(spec, chain, depth).visits[0] == chain
  {
  }

  lemma CallBuilt(spec: Spec, nodes0: map<IdentityId, Node>, edges0: seq<Edge>, child: seq<Delegation>, w: Walked,
                  r: Option<CompileError>, nodes: map<IdentityId, Node>, edges: seq<Edge>)
    requires WellFormed(spec) && child != [] && w.visits != [] && w.visits[0] == child
    requires Outcome(spec, nodes0, edges0 + [EdgeOn(spec, child)], w.ending, w.visits, w.visits[1..], r, nodes, edges)
    ensures Outcome(spec, nodes0, edges0, w.ending, w.visits, w.visits, r, nodes, edges)
  {
    hide WellFormed, Built, EdgeOn;
    assert w.visits == [child] + w.visits[1..];
    if w.ending.Returned? { BuiltCall(spec, nodes0, edges0, child, w.visits[1..], nodes, edges); }
  }

  /** The loop's state after one more call. */
  lemma AfterCall(spec: Spec, chain: seq<Delegation>, before: seq<seq<Delegation>>, nodes0: map<IdentityId, Node>,
                  edges0: seq<Edge>, nodes1: map<IdentityId, Node>, edges1: seq<Edge>, call: Walked,
                  r: Option<CompileError>, nodes: map<IdentityId, Node>, edges: seq<Edge>)
    requires WellFormed(spec) && Built(spec, nodes0, edges0, [chain] + before, before, nodes1, edges1)
    requires Outcome(spec, nodes1, edges1, call.ending, call.visits, call.visits, r, nodes, edges)
    ensures r.Some? ==> call.ending == Refused(r.value)
    ensures r.None? ==>
            call.ending.Returned? &&
            Built(spec, nodes0, edges0, [chain] + (before + call.visits), before + call.visits, nodes, edges)
  {
    hide WellFormed, Built;
    if r.None? {
      BuiltBoth(spec, nodes0, edges0, [chain] + before, before, nodes1, edges1, call.visits, call.visits, nodes, edges);
      assert [chain] + before + call.visits == [chain] + (before + call.visits);
    }
  }

  lemma IsRefused(spec: Spec, nodes0: map<IdentityId, Node>, edges0: seq<Edge>, visits: seq<seq<Delegation>>,
                  r: Option<CompileError>, nodes: map<IdentityId, Node>, edges: seq<Edge>, call: Walked, all: Walked)
    requires WellFormed(spec) && r.Some? && call.ending == Refused(r.value) && all.ending == call.ending
    ensures Outcome(spec, nodes0, edges0, all.ending, visits, all.visits, r, nodes, edges)
  {
  }

  lemma IsReturned(spec: Spec, nodes0: map<IdentityId, Node>, edges0: seq<Edge>, visits: seq<seq<Delegation>>,
                   all: Walked,
                   nodes: map<IdentityId, Node>, edges: seq<Edge>)
    requires WellFormed(spec) && all.ending.Returned? && Built(spec, nodes0, edges0, visits, all.visits, nodes, edges)
    ensures Outcome(spec, nodes0, edges0, all.ending, visits, all.visits, None, nodes, edges)
  {
  }

  /** A walk that returns has made all the visits there are. */
  lemma {:induction false} ReturnedVisits(spec: Spec, chain: seq<Delegation>, depth: nat)
    requires Walkable(spec, chain) && WalkFrom(spec, chain, depth).ending.Returned?
    ensures WalkFrom(spec, chain, depth).visits == Visits(spec, chain)
    decreases depth, |Children(spec, chain)| + 1
  {
    hide WellFormed, Loopless, IsStack, Children, Refusal;
    ReturnedBelow(spec, chain, |Children(spec, chain)|, depth);
  }

  lemma {:induction false} ReturnedBelow(spec: Spec, chain: seq<Delegation>, k: nat, depth: nat)
    requires Walkable(spec, chain) && k <= |Children(spec, chain)| && depth > 0
    requires WalkBelow(spec, chain, k, depth).ending.Returned?
    ensures WalkBelow(spec, chain, k, depth).visits == Below(spec, chain, k)
    decreases depth, k
  {
    hide WellFormed, Loopless, IsStack, Children, Refusal, Walkable, WalkFrom, Visits;
    if k > 0 {
      ReturnedBelow(spec, chain, k - 1, depth);
      ChildWalkable(spec, chain, k - 1);
      IsWalkable(spec, chain + [Children(spec, chain)[k - 1]]);
      ReturnedVisits(spec, chain + [Children(spec, chain)[k - 1]], depth - 1);
    }
  }

  lemma IsWalkable(spec: Spec, chain: seq<Delegation>)
    requires Walkable(spec, chain)
    ensures WellFormed(spec) && Loopless(spec) && IsStack(spec, chain)
  {
  }

  // ---- The whole compilation ----------------------------------------------------

  ghost predicate Reached(spec: Spec, v: IdentityId)
    requires WellFormed(spec)
  {
    exists chain :: IsStack(spec, chain) && Top(spec, chain) == v
  }

  ghost predicate AllReached(spec: Spec)
    requires WellFormed(spec)
  {
    forall v :: v in Ids(spec) ==> Reached(spec, v)
  }

  /** All visits of the walk, in order. */
  ghost function Walk(spec: Spec): seq<seq<Delegation>>
    requires WellFormed(spec) && Loopless(spec)
  {
    Visits(spec, [])
  }

  lemma WalkExact(spec: Spec)
    requires WellFormed(spec) && Loopless(spec)
    ensures forall chain :: chain in Walk(spec) <==> IsStack(spec, chain)
    ensures AllStacks(spec, Walk(spec))
    ensures |Walk(spec)| > 0 && Walk(spec)[0] == [] && AllCalled(Walk(spec)[1..])
  {
    VisitsAreStacks(spec, []);
    BelowCalled(spec, [], |Children(spec, [])|);
    forall chain | IsStack(spec, chain) ensures chain in Walk(spec) { StackVisited(spec, [], chain); }
    hide IsStack, Loopless, Below;
    assert Walk(spec)[1..] == Below(spec, [], |Children(spec, [])|);
  }

  lemma {:induction false} NodesFound(spec: Spec, visits: seq<seq<Delegation>>, v: IdentityId)
    requires WellFormed(spec) && AllStacks(spec, visits)
    ensures v in NodesAfter(spec, map[], visits) <==> exists i :: 0 <= i < |visits| && Top(spec, visits[i]) == v
    ensures v in NodesAfter(spec, map[], visits) ==>
              exists i :: 0 <= i < |visits| && Top(spec, visits[i]) == v &&
                NodesAfter(spec, map[], visits)[v] == NodeOn(spec, visits[i]) &&
                          forall j :: i < j < |visits| ==> Top(spec, visits[j]) != v
  {
    hide NodeOn, IsStack, Top;
    if visits != [] {
      var n := |visits| - 1;
      NodesFound(spec, visits[..n], v);
      if Top(spec, visits[n]) != v && v in NodesAfter(spec, map[], visits) {
        var i :| 0 <= i < n && Top(spec, visits[..n][i]) == v &&
          NodesAfter(spec, map[], visits[..n])[v] == NodeOn(spec, visits[..n][i]) &&
          forall j :: i < j < n ==> Top(spec, visits[..n][j]) != v;
        assert visits[i] == visits[..n][i];
        forall j | i < j < |visits| ensures Top(spec, visits[j]) != v {
          if j < n { assert visits[..n][j] == visits[j]; }
        }
      }
    }
  }

  /**
   Node i stands for identity i as its last visit recorded it; there is one edge per call, in the order of the calls.
   */
  ghost predicate CompiledFrom(spec: Spec, nodes: seq<Node>, edges: seq<Edge>)
    requires WellFormed(spec) && Loopless(spec)
  {
    WalkExact(spec);
    |nodes| == |spec.identities| && edges == EdgesOf(spec, Walk(spec)[1..]) &&
    forall i :: 0 <= i < |nodes| ==> LastRecorded(spec, spec.identities[i].id, nodes[i])
  }

  /** The node is that of the walk's last visit to v. */
  ghost predicate LastRecorded(spec: Spec, v: IdentityId, n: Node)
    requires WellFormed(spec) && Loopless(spec)
  {
    WalkExact(spec);
    var visits := Walk(spec);
    exists i :: 0 <= i < |visits| && Top(spec, visits[i]) == v && n == NodeOn(spec, visits[i]) &&
                forall j :: i < j < |visits| ==> Top(spec, visits[j]) != v
  }

  /** The edge has the id, the ends, the intent and the lifetime of the delegation its call was made for. */
  ghost predicate EdgeFor(spec: Spec, chain: seq<Delegation>, e: Edge)
    requires WellFormed(spec) && chain != []
  {
    var d := chain[|chain| - 1];
    d in spec.delegations && e.edgeId == d.id && e.sourceId == d.source && e.targetId == d.target &&
    e.requested == d.intended && e.intended == d.intended && e.credentialLifetimeS == d.lifetimeS &&
    forall c :: c in e.expectedEffective <==> HeldAlong(spec, chain, c)
  }

  /** The node is the declared identity, one hop further than its caller, expected to hold what is held on the way. */
  ghost predicate NodeFor(spec: Spec, chain: seq<Delegation>, i: IdentitySpec, n: Node)
    requires WellFormed(spec)
  {
    Top(spec, chain) == i.id && n.identityId == i.id && n.providerBinding == i.providerBinding && n.observed.None? &&
    (n.isRoot <==> chain == []) && n.hopIndex == |chain| &&
    n.parentId == (if chain == [] then None else Some(Top(spec, chain[..|chain| - 1]))) &&
    forall c :: c in n.expected <==> HeldAlong(spec, chain, c)
  }

  /** Visit i of the walk is the last one made to v. */
  ghost predicate LastVisit(spec: Spec, v: IdentityId, i: int)
    requires WellFormed(spec) && Loopless(spec)
  {
    0 <= i < |Walk(spec)| && Top(spec, Walk(spec)[i]) == v &&
    forall j :: i < j < |Walk(spec)| ==> Top(spec, Walk(spec)[j]) != v
  }

  /** The node is what the last visit to this identity makes of it. */
  ghost predicate RecordedAs(spec: Spec, i: IdentitySpec, n: Node)
    requires WellFormed(spec) && Loopless(spec)
  {
    exists k :: LastVisit(spec, i.id, k) && NodeFor(spec, Walk(spec)[k], i, n)
  }

  /** What is compiled, read on the specification: a node per identity, and an edge per call, in the walk's order. */
  ghost predicate DeclaredGraph(spec: Spec, nodes: seq<Node>, edges: seq<Edge>)
    requires WellFormed(spec) && Loopless(spec)
  {
    |nodes| == |spec.identities| && |edges| == |Walk(spec)| - 1 &&
    (forall i :: 0 <= i < |nodes| ==> RecordedAs(spec, spec.identities[i], nodes[i])) &&
    forall k :: 0 <= k < |edges| ==> Walk(spec)[k + 1] != [] && EdgeFor(spec, Walk(spec)[k + 1], edges[k])
  }

  lemma EdgeOnIs(spec: Spec, chain: seq<Delegation>)
    requires WellFormed(spec) && IsStack(spec, chain) && chain != []
    ensures EdgeFor(spec, chain, EdgeOn(spec, chain))
  {
    DerivedIs(spec, chain);
    NextExact(spec.delegations, Top(spec, chain[..|chain| - 1]));
    hide WellFormed, Derived, HeldAlong;
  }

  lemma OwnSpec(spec: Spec, i: nat)
    requires WellFormed(spec) && i < |spec.identities|
    ensures spec.identities[i].id in Ids(spec) && SpecOf(spec, spec.identities[i].id) == spec.identities[i]
  {
    assert spec.identities[i] in spec.identities;
    var s := SpecOf(spec, spec.identities[i].id);
    var j :| 0 <= j < |spec.identities| && spec.identities[j] == s;
  }

  lemma NodeOnIs(spec: Spec, chain: seq<Delegation>, i: nat)
    requires WellFormed(spec) && IsStack(spec, chain) && i < |spec.identities| &&
             Top(spec, chain) == spec.identities[i].id
    ensures NodeFor(spec, chain, spec.identities[i], NodeOn(spec, chain))
  {
    DerivedIs(spec, chain);
    OwnSpec(spec, i);
    hide WellFormed, IsStack, Derived, HeldAlong;
  }

  lemma RecordedReads(spec: Spec, i: nat, n: Node)
    requires WellFormed(spec) && Loopless(spec) && i < |spec.identities| && LastRecorded(spec, spec.identities[i].id, n)
    ensures RecordedAs(spec, spec.identities[i], n)
  {
    WalkExact(spec);
    hide WellFormed, Loopless, IsStack, Walk, NodeOn, NodeFor, Top;
    var visits := Walk(spec);
    var k :| 0 <= k < |visits| && Top(spec, visits[k]) == spec.identities[i].id && n == NodeOn(spec, visits[k]) &&
      forall j :: k < j < |visits| ==> Top(spec, visits[j]) != spec.identities[i].id;
    NodeOnIs(spec, visits[k], i);
  }

  lemma CallReads(spec: Spec, edges: seq<Edge>, k: nat)
    requires WellFormed(spec) && Loopless(spec) && |Walk(spec)| > 0 && AllStacks(spec, Walk(spec))
    requires AllCalled(Walk(spec)[1..]) && edges == EdgesOf(spec, Walk(spec)[1..]) && k < |edges|
    ensures k + 1 < |Walk(spec)| && Walk(spec)[k + 1] != [] && EdgeFor(spec, Walk(spec)[k + 1], edges[k])
  {
    hide WellFormed, Loopless, IsStack, Walk, EdgeOn, EdgeFor;
    assert Walk(spec)[1..][k] == Walk(spec)[k + 1];
    EdgeOnIs(spec, Walk(spec)[k + 1]);
  }

  lemma AllRecorded(spec: Spec, nodes: seq<Node>)
    requires WellFormed(spec) && Loopless(spec) && |nodes| == |spec.identities|
    requires forall i :: 0 <= i < |nodes| ==> LastRecorded(spec, spec.identities[i].id, nodes[i])
    ensures forall i :: 0 <= i < |nodes| ==> RecordedAs(spec, spec.identities[i], nodes[i])
  {
    hide WellFormed, Loopless, LastRecorded, RecordedAs;
    forall i | 0 <= i < |nodes| ensures RecordedAs(spec, spec.identities[i], nodes[i]) {
      RecordedReads(spec, i, nodes[i]);
    }
  }

  lemma AllCallsRead(spec: Spec, edges: seq<Edge>)
    requires WellFormed(spec) && Loopless(spec) && |Walk(spec)| > 0 && AllStacks(spec, Walk(spec))
    requires AllCalled(Walk(spec)[1..]) && edges == EdgesOf(spec, Walk(spec)[1..])
    ensures |edges| == |Walk(spec)| - 1
    ensures forall k :: 0 <= k < |edges| ==> Walk(spec)[k + 1] != [] && EdgeFor(spec, Walk(spec)[k + 1], edges[k])
  {
    hide WellFormed, Loopless, AllStacks, EdgeFor;
    forall k | 0 <= k < |edges| ensures Walk(spec)[k + 1] != [] && EdgeFor(spec, Walk(spec)[k + 1], edges[k]) {
      CallReads(spec, edges, k);
    }
  }

  lemma CompiledReads(spec: Spec, nodes: seq<Node>, edges: seq<Edge>)
    requires WellFormed(spec) && Loopless(spec) && CompiledFrom(spec, nodes, edges)
    ensures DeclaredGraph(spec, nodes, edges)
  {
    WalkExact(spec);
    hide WellFormed, Loopless, IsStack, Walk, EdgeFor, LastRecorded, RecordedAs, AllStacks, AllCalled, EdgesOf;
    AllRecorded(spec, nodes);
    AllCallsRead(spec, edges);
  }

  /** After the walk: what was recorded is what is reached. */
  lemma WalkFinished(spec: Spec, nodes: map<IdentityId, Node>, edges: seq<Edge>)
    requires WellFormed(spec) && Loopless(spec) && Walk(spec) != [] &&
             Built(spec, map[], [], Walk(spec), Walk(spec)[1..], nodes, edges)
    ensures nodes.Keys == set v | v in Ids(spec) && Reached(spec, v)
    ensures forall v :: v in nodes ==> LastRecorded(spec, v, nodes[v])
    ensures AllCalled(Walk(spec)[1..]) && edges == EdgesOf(spec, Walk(spec)[1..])
  {
    hide Below, Visits, Loopless, NodeOn, Walk, WellFormed, IsStack, Reached;
    KeysReached(spec, nodes);
    forall v | v in nodes ensures LastRecorded(spec, v, nodes[v]) { NodesFound(spec, Walk(spec), v); }
    assert [] + EdgesOf(spec, Walk(spec)[1..]) == EdgesOf(spec, Walk(spec)[1..]);
  }

  lemma ReachedIsVisited(spec: Spec, v: IdentityId)
    requires WellFormed(spec) && Loopless(spec)
    ensures AllStacks(spec, Walk(spec))
    ensures v in Ids(spec) && Reached(spec, v) <==>
            exists i :: 0 <= i < |Walk(spec)| && Top(spec, Walk(spec)[i]) == v
  {
    hide Walk, Loopless, WellFormed, IsStack, Top;
    WalkExact(spec);
    var visits := Walk(spec);
    if i :| 0 <= i < |visits| && Top(spec, visits[i]) == v {
      TopKnown(spec, visits[i]);
    }
    if Reached(spec, v) {
      var chain :| IsStack(spec, chain) && Top(spec, chain) == v;
      var i :| 0 <= i < |visits| && visits[i] == chain;
    }
  }

  lemma KeysReached(spec: Spec, nodes: map<IdentityId, Node>)
    requires WellFormed(spec) && Loopless(spec) && AllStacks(spec, Walk(spec)) &&
             nodes == NodesAfter(spec, map[], Walk(spec))
    ensures nodes.Keys == set v | v in Ids(spec) && Reached(spec, v)
  {
    hide Loopless, NodesAfter, Walk, WellFormed, AllStacks, Reached, Ids, Top;
    forall v ensures v in nodes <==> v in Ids(spec) && Reached(spec, v) {
      NodesFound(spec, Walk(spec), v);
      ReachedIsVisited(spec, v);
    }
  }

  /** The error is that of a visit before which, in the order of the walk, none is refused. */
  ghost predicate Disagreement(spec: Spec, error: CompileError)
    requires WellFormed(spec)
  {
    error.ExpectationDisagrees? &&
    exists c :: IsStack(spec, c) && Refusal(spec, c) == Some(error) && ClearBefore(spec, c)
  }

  lemma WalkRefused(spec: Spec, depth: nat)
    requires WellFormed(spec) && IsStack(spec, []) && WalkFrom(spec, [], depth).ending.Refused?
    ensures Disagreement(spec, WalkFrom(spec, [], depth).ending.error) && !AllExpectationsMet(spec)
  {
    hide WellFormed, IsStack, WalkFrom, ClearBefore;
    var c := RefusedMeans(spec, depth);
  }

  lemma WalkReturned(spec: Spec, depth: nat, nodes: map<IdentityId, Node>, edges: seq<Edge>)
    requires WellFormed(spec) && IsStack(spec, []) && WalkFrom(spec, [], depth).ending.Returned?
    requires var visits := WalkFrom(spec, [], depth).visits;
             visits != [] && Built(spec, map[], [], visits, visits[1..], nodes, edges)
    ensures AllExpectationsMet(spec) && Loopless(spec) && Walk(spec) != []
    ensures Built(spec, map[], [], Walk(spec), Walk(spec)[1..], nodes, edges)
  {
    hide WellFormed, IsStack, WalkFrom, Loopless, Built, AllExpectationsMet, Visits;
    ReturnedMeans(spec, depth);
    ReturnedVisits(spec, [], depth);
  }

  method CollectNodes(identities: seq<IdentitySpec>, nodes: map<IdentityId, Node>) returns (r: seq<Node>)
    requires forall i :: 0 <= i < |identities| ==> identities[i].id in nodes
    ensures |r| == |identities| && forall i :: 0 <= i < |r| ==> r[i] == nodes[identities[i].id]
  {
    r := [];
    for k := 0 to |identities|
      invariant |r| == k && forall i :: 0 <= i < k ==> r[i] == nodes[identities[i].id]
    {
      r := r + [nodes[identities[k].id]];
    }
  }

  lemma UnreachedIs(spec: Spec, seen: set<IdentityId>)
    requires WellFormed(spec) && seen == set v | v in Ids(spec) && Reached(spec, v)
    ensures Ids(spec) - seen == set v | v in Ids(spec) && !Reached(spec, v)
    ensures Ids(spec) - seen == {} <==> AllReached(spec)
    ensures AllReached(spec) ==> forall i :: 0 <= i < |spec.identities| ==> spec.identities[i].id in seen
  {
    hide Reached, WellFormed;
    assert Ids(spec) - seen == set v | v in Ids(spec) && !Reached(spec, v);
    if Ids(spec) - seen == {} { assert forall v :: v in Ids(spec) ==> v !in Ids(spec) - seen; }
  }

  /**
   Compilation succeeds exactly when no identity is targeted twice, the walk reaches every identity, and no
   visit finds a declared authority other than the derived one; each error names the first instance in its
   order. All that is asked is that the recursion ends, by returning or by raising, if it is begun at all; of that
   `NeverReturnsIff` says when.
   */
  method BuildNodesAndEdges(spec: Spec) returns (r: Result<(seq<Node>, seq<Edge>), CompileError>)
    requires WellFormed(spec)
    requires UniqueTargets(spec.delegations) ==> Halts(spec)
    ensures r.Ok? <==> UniqueTargets(spec.delegations) && AllReached(spec) && AllExpectationsMet(spec)
    ensures r.Ok? ==> Loopless(spec) && CompiledFrom(spec, r.value.0, r.value.1)
    ensures r.Ok? ==> DeclaredGraph(spec, r.value.0, r.value.1)
    ensures r.Err? && r.error.DoublyTargeted? ==> Clash(spec.delegations, r.error)
    ensures r.Err? && r.error.ExpectationDisagrees? ==> UniqueTargets(spec.delegations) && Disagreement(spec, r.error)
    ensures r.Err? && r.error.NeverReached? ==>
              UniqueTargets(spec.delegations) && AllExpectationsMet(spec) &&
              r.error.ids != {} && r.error.ids == set v | v in Ids(spec) && !Reached(spec, v)
  {
    hide Reached, UniqueTargets, Loopless, Refusal, Below, IsStack, WellFormed, LastRecorded, AllExpectationsMet,
         AllReached, ClearBefore, WalkFrom, Built, DeclaredGraph;
    EmptyStack(spec);
    var index := IndexDelegations(spec.delegations);
    if index.Err? {
      return Err(index.error);
    }
    ghost var room :| !WalkFrom(spec, [], room).ending.Unfinished?;
    var builder := new GraphBuilder(spec, index.value);
    var root := RootSpec(spec);
    var visited := builder.Visit(root.id, 0, None, root.capabilities, [], room);
    if visited.Some? {
      WalkRefused(spec, room);
      return Err(visited.value);
    }
    var nodes, edges := builder.nodes, builder.edges;
    WalkReturned(spec, room, nodes, edges);
    WalkFinished(spec, nodes, edges);
    UnreachedIs(spec, nodes.Keys);
    var unreached := Ids(spec) - nodes.Keys;
    if unreached != {} {
      return Err(NeverReached(unreached));
    }
    var ordered := CollectNodes(spec.identities, nodes);
    CompiledReads(spec, ordered, edges);
    return Ok((ordered, edges));
  }
}
