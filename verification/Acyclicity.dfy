/** G-1: Kahn's algorithm, and what it decides about directed cycles. */
module Acyclicity {
  import opened Outcomes
  import opened Models

  // ---- Walks and cycles -----------------------------------------------------

  predicate HasEdge(edges: seq<Edge>, a: IdentityId, b: IdentityId) {
    exists k :: 0 <= k < |edges| && edges[k].sourceId == a && edges[k].targetId == b
  }

  /** A nonempty sequence of identities, each joined to the next by an edge. */
  ghost predicate Walk(edges: seq<Edge>, w: seq<IdentityId>) {
    |w| >= 1 && forall i, j :: 0 <= i < j < |w| && j == i + 1 ==> HasEdge(edges, w[i], w[j])
  }

  ghost predicate Cycle(edges: seq<Edge>, w: seq<IdentityId>) {
    |w| >= 2 && Walk(edges, w) && w[0] == w[|w| - 1]
  }

  ghost predicate Acyclic(edges: seq<Edge>) {
    forall w :: !Cycle(edges, w)
  }

  predicate Distinct<T(==)>(s: seq<T>) {
    forall i, j :: 0 <= i < j < |s| ==> s[i] != s[j]
  }

  predicate KnownEndpoints(ids: seq<IdentityId>, edges: seq<Edge>) {
    forall k :: 0 <= k < |edges| ==> edges[k].sourceId in ids && edges[k].targetId in ids
  }

  function ToSet<T(==)>(s: seq<T>): set<T> {
    set x | x in s
  }

  lemma {:induction false} DistinctCardinality<T>(s: seq<T>)
    requires Distinct(s)
    ensures |ToSet(s)| == |s|
  {
    if s == [] {
      assert ToSet(s) == {};
    } else {
      var front, last := s[..|s| - 1], s[|s| - 1];
      DistinctCardinality(front);
      assert ToSet(s) == ToSet(front) + {last};
      assert last !in ToSet(front);
    }
  }

  lemma SubsetCardinality<T>(a: set<T>, b: set<T>)
    requires a <= b
    ensures |a| <= |b|
    ensures |a| == |b| ==> a == b
  {
    assert b == a + (b - a);
    assert |b| == |a| + |b - a|;
  }

  /** More positions than values: two positions hold the same value. */
  lemma Pigeonhole<T>(s: seq<T>, values: set<T>) returns (i: nat, j: nat)
    requires ToSet(s) <= values && |s| > |values|
    ensures i < j < |s| && s[i] == s[j]
  {
    if Distinct(s) {
      DistinctCardinality(s);
      SubsetCardinality(ToSet(s), values);
      assert false;
    }
    i, j :| 0 <= i < j < |s| && s[i] == s[j];
  }

  /** Walking an acyclic graph never meets the same identity twice. */
  lemma AcyclicWalkDistinct(edges: seq<Edge>, w: seq<IdentityId>)
    requires Acyclic(edges) && Walk(edges, w)
    ensures Distinct(w)
  {
    forall i, j | 0 <= i < j < |w| ensures w[i] != w[j] {
      var loop := w[i..j + 1];
      assert Walk(edges, loop) by {
        forall k, l | 0 <= k < l < |loop| && l == k + 1 ensures HasEdge(edges, loop[k], loop[l]) {
          assert HasEdge(edges, w[i + k], w[i + l]);
        }
      }
      assert !Cycle(edges, loop);
    }
  }

  /** So it has at most as many identities as the graph. */
  lemma AcyclicWalkBounded(ids: seq<IdentityId>, edges: seq<Edge>, w: seq<IdentityId>)
    requires Acyclic(edges) && Walk(edges, w) && ToSet(w) <= ToSet(ids)
    ensures |w| <= |ToSet(ids)| <= |ids|
  {
    AcyclicWalkDistinct(edges, w);
    DistinctCardinality(w);
    SubsetCardinality(ToSet(w), ToSet(ids));
    SetNoLarger(ids);
  }

  lemma {:induction false} SetNoLarger<T>(s: seq<T>)
    ensures |ToSet(s)| <= |s|
  {
    if s == [] {
      assert ToSet(s) == {};
    } else {
      SetNoLarger(s[..|s| - 1]);
      assert ToSet(s) == ToSet(s[..|s| - 1]) + {s[|s| - 1]};
    }
  }

  // ---- Two certificates -----------------------------------------------------

  ghost predicate Ascends(rank: map<IdentityId, int>, edge: Edge) {
    edge.sourceId in rank && edge.targetId in rank && rank[edge.sourceId] < rank[edge.targetId]
  }

  /** Ranks that grow along every edge leave no room for a cycle. */
  lemma {:induction false} RanksGrow(edges: seq<Edge>, rank: map<IdentityId, int>, w: seq<IdentityId>)
    requires forall k :: 0 <= k < |edges| ==> Ascends(rank, edges[k])
    requires |w| >= 2 && Walk(edges, w)
    ensures w[0] in rank && w[|w| - 1] in rank && rank[w[0]] < rank[w[|w| - 1]]
  {
    assert HasEdge(edges, w[|w| - 2], w[|w| - 1]);
    if |w| > 2 {
      RanksGrow(edges, rank, w[..|w| - 1]);
    }
  }

  lemma RankedIsAcyclic(edges: seq<Edge>, rank: map<IdentityId, int>)
    requires forall k :: 0 <= k < |edges| ==> Ascends(rank, edges[k])
    ensures Acyclic(edges)
  {
    forall w ensures !Cycle(edges, w) {
      if Cycle(edges, w) { RanksGrow(edges, rank, w); }
    }
  }

  ghost predicate HasPredecessor(edges: seq<Edge>, stuck: set<IdentityId>, v: IdentityId) {
    exists u :: u in stuck && HasEdge(edges, u, v)
  }

  lemma ConsWalk(edges: seq<Edge>, u: IdentityId, rest: seq<IdentityId>)
    requires Walk(edges, rest) && HasEdge(edges, u, rest[0])
    ensures Walk(edges, [u] + rest)
  {
    var w := [u] + rest;
    forall i, j | 0 <= i < j < |w| && j == i + 1 ensures HasEdge(edges, w[i], w[j]) {
      if i > 0 { assert HasEdge(edges, rest[i - 1], rest[j - 1]); }
    }
  }

  /** A backward walk of n edges that never leaves `stuck`. */
  lemma {:induction false} BackwardWalk(edges: seq<Edge>, stuck: set<IdentityId>, n: nat) returns (w: seq<IdentityId>)
    requires stuck != {} &&
             forall v {:trigger HasPredecessor(edges, stuck, v)} :: v in stuck ==> HasPredecessor(edges, stuck, v)
    ensures |w| == n + 1 && Walk(edges, w)
    ensures forall i :: 0 <= i < |w| ==> w[i] in stuck
  {
    if n == 0 {
      var v :| v in stuck;
      w := [v];
    } else {
      var rest := BackwardWalk(edges, stuck, n - 1);
      assert HasPredecessor(edges, stuck, rest[0]);
      var u :| u in stuck && HasEdge(edges, u, rest[0]);
      ConsWalk(edges, u, rest);
      w := [u] + rest;
    }
  }

  /** When every member of a nonempty set has a predecessor in the set, some cycle exists. */
  lemma StuckHasCycle(edges: seq<Edge>, stuck: set<IdentityId>)
    requires stuck != {} &&
             forall v {:trigger HasPredecessor(edges, stuck, v)} :: v in stuck ==> HasPredecessor(edges, stuck, v)
    ensures !Acyclic(edges)
  {
    var w := BackwardWalk(edges, stuck, |stuck|);
    var i, j := Pigeonhole(w, stuck);
    if Acyclic(edges) { AcyclicWalkDistinct(edges, w); }
  }

  // ---- Counting inbound edges -----------------------------------------------

  /** The targets of the edges leaving `source`, in edge order, parallel edges repeated. */
  function Targets(edges: seq<Edge>, source: IdentityId): seq<IdentityId> {
    if edges == [] then
      []
    else
      var last := edges[|edges| - 1];
      Targets(edges[..|edges| - 1], source) + (if last.sourceId == source then [last.targetId] else [])
  }

  /** How many edges enter v from a source that is not yet processed. */
  function Pending(edges: seq<Edge>, v: IdentityId, processed: set<IdentityId>): nat {
    if edges == [] then
      0
    else
      var last := edges[|edges| - 1];
      Pending(edges[..|edges| - 1], v, processed)
      + (if last.targetId == v && last.sourceId !in processed then 1 else 0)
  }

  lemma {:induction false} ProcessOne(edges: seq<Edge>, v: IdentityId, processed: set<IdentityId>, u: IdentityId)
    requires u !in processed
    ensures Pending(edges, v, processed) == Pending(edges, v, processed + {u}) + multiset(Targets(edges, u))[v]
  {
    if edges != [] {
      ProcessOne(edges[..|edges| - 1], v, processed, u);
    }
  }

  lemma {:induction false} PendingZero(edges: seq<Edge>, v: IdentityId, processed: set<IdentityId>)
    ensures Pending(edges, v, processed) == 0 <==>
            forall k :: 0 <= k < |edges| && edges[k].targetId == v ==> edges[k].sourceId in processed
  {
    if edges != [] {
      PendingZero(edges[..|edges| - 1], v, processed);
    }
  }

  lemma {:induction false} TargetsExact(edges: seq<Edge>, source: IdentityId, v: IdentityId)
    ensures v in Targets(edges, source) <==> HasEdge(edges, source, v)
  {
    if edges != [] {
      var front := edges[..|edges| - 1];
      TargetsExact(front, source, v);
      assert edges == front + [edges[|front|]];
      if HasEdge(front, source, v) {
        var k :| 0 <= k < |front| && front[k].sourceId == source && front[k].targetId == v;
        assert edges[k] == front[k];
      }
      if HasEdge(edges, source, v) {
        var k :| 0 <= k < |edges| && edges[k].sourceId == source && edges[k].targetId == v;
        if k < |front| { assert front[k] == edges[k]; }
      }
    }
  }

  // ---- Kahn's algorithm -----------------------------------------------------

  ghost predicate Counted(ids: seq<IdentityId>, edges: seq<Edge>, indegree: map<IdentityId, int>,
                          processed: set<IdentityId>, due: seq<IdentityId>) {
    forall v :: v in ids ==> v in indegree && indegree[v] == Pending(edges, v, processed) + multiset(due)[v]
  }

  ghost predicate Tallied(ids: seq<IdentityId>, edges: seq<Edge>, adjacency: map<IdentityId, seq<IdentityId>>,
                          indegree: map<IdentityId, int>) {
    forall v :: v in ids ==>
      v in adjacency && v in indegree && adjacency[v] == Targets(edges, v) && indegree[v] == Pending(edges, v, {})
  }

  lemma TallyOne(ids: seq<IdentityId>, edges: seq<Edge>, e: Edge, adjacency: map<IdentityId, seq<IdentityId>>,
                 indegree: map<IdentityId, int>)
    requires Tallied(ids, edges, adjacency, indegree) && e.sourceId in ids && e.targetId in ids
    ensures Tallied(ids, edges + [e], adjacency[e.sourceId := adjacency[e.sourceId] + [e.targetId]],
                    indegree[e.targetId := indegree[e.targetId] + 1])
  {
    assert (edges + [e])[..|edges|] == edges;
  }

  /** The two dictionaries of the first loop. */
  method CountEdges(ids: seq<IdentityId>, edges: seq<Edge>)
    returns (adjacency: map<IdentityId, seq<IdentityId>>, indegree: map<IdentityId, int>)
    requires KnownEndpoints(ids, edges)
    ensures Tallied(ids, edges, adjacency, indegree)
  {
    adjacency := map v | v in ids :: [];
    indegree := map v | v in ids :: 0;
    for k := 0 to |edges|
      invariant Tallied(ids, edges[..k], adjacency, indegree)
    {
      var edge := edges[k];
      TallyOne(ids, edges[..k], edge, adjacency, indegree);
      assert edges[..k + 1] == edges[..k] + [edge];
      adjacency := adjacency[edge.sourceId := adjacency[edge.sourceId] + [edge.targetId]];
      indegree := indegree[edge.targetId := indegree[edge.targetId] + 1];
    }
    assert edges[..|edges|] == edges;
  }

  /** The identities whose indegree is zero, in order. */
  method Sources(ids: seq<IdentityId>, indegree: map<IdentityId, int>) returns (queue: seq<IdentityId>)
    requires Distinct(ids) && forall v :: v in ids ==> v in indegree
    ensures Distinct(queue)
    ensures forall v :: v in queue <==> v in ids && indegree[v] == 0
  {
    queue := [];
    for k := 0 to |ids|
      invariant Distinct(queue)
      invariant forall v :: v in queue <==> v in ids[..k] && indegree[v] == 0
    {
      if indegree[ids[k]] == 0 {
        queue := queue + [ids[k]];
      }
    }
  }

  /** Which identities wait in the queue: those not yet processed whose indegree has dropped to zero. */
  ghost predicate Queued(ids: seq<IdentityId>, indegree: map<IdentityId, int>, processed: set<IdentityId>,
                         queue: seq<IdentityId>)
    requires forall v :: v in ids ==> v in indegree
  {
    Distinct(queue) &&
    (forall v :: v in queue ==> v in ids && v !in processed) &&
    (forall v :: v in ids ==> (v in queue || v in processed <==> indegree[v] == 0))
  }

  /** The inner loop: one decrement for each edge leaving the identity just processed. */
  method Relax(ids: seq<IdentityId>, edges: seq<Edge>, neighbours: seq<IdentityId>,
               indegree0: map<IdentityId, int>, queue0: seq<IdentityId>, ghost processed: set<IdentityId>)
    returns (indegree: map<IdentityId, int>, queue: seq<IdentityId>)
    requires Counted(ids, edges, indegree0, processed, neighbours)
    requires Queued(ids, indegree0, processed, queue0)
    requires forall v :: v in neighbours ==> v in ids
    ensures Counted(ids, edges, indegree, processed, [])
    ensures Queued(ids, indegree, processed, queue)
  {
    indegree, queue := indegree0, queue0;
    assert neighbours[0..] == neighbours;
    for k := 0 to |neighbours|
      invariant Counted(ids, edges, indegree, processed, neighbours[k..])
      invariant Queued(ids, indegree, processed, queue)
    {
      var neighbour := neighbours[k];
      assert neighbours[k..] == [neighbour] + neighbours[k + 1..];
      indegree := indegree[neighbour := indegree[neighbour] - 1];
      if indegree[neighbour] == 0 {
        queue := queue + [neighbour];
      }
    }
  }

  /** The edges into processed identities come from identities processed earlier. */
  ghost predicate Layered(edges: seq<Edge>, rank: map<IdentityId, int>) {
    forall k :: 0 <= k < |edges| && edges[k].targetId in rank ==> Ascends(rank, edges[k])
  }

  lemma AllProcessed(ids: seq<IdentityId>, edges: seq<Edge>, rank: map<IdentityId, int>)
    requires KnownEndpoints(ids, edges) && Layered(edges, rank) && ToSet(ids) == rank.Keys
    ensures Acyclic(edges)
  {
    forall k | 0 <= k < |edges| ensures Ascends(rank, edges[k]) {
      assert edges[k].targetId in ToSet(ids);
    }
    RankedIsAcyclic(edges, rank);
  }

  lemma SomeStuck(ids: seq<IdentityId>, edges: seq<Edge>, indegree: map<IdentityId, int>, processed: set<IdentityId>)
    requires KnownEndpoints(ids, edges) && Counted(ids, edges, indegree, processed, [])
    requires Queued(ids, indegree, processed, []) && processed <= ToSet(ids) && processed != ToSet(ids)
    ensures !Acyclic(edges)
  {
    var stuck := ToSet(ids) - processed;
    assert ToSet(ids) == processed + stuck;
    forall v | v in stuck ensures HasPredecessor(edges, stuck, v) {
      PendingZero(edges, v, processed);
      var k :| 0 <= k < |edges| && edges[k].targetId == v && edges[k].sourceId !in processed;
      assert HasEdge(edges, edges[k].sourceId, v);
    }
    StuckHasCycle(edges, stuck);
  }

  lemma PopQueue(ids: seq<IdentityId>, indegree: map<IdentityId, int>, processed: set<IdentityId>,
                 queue: seq<IdentityId>)
    requires forall v :: v in ids ==> v in indegree
    requires queue != [] && Queued(ids, indegree, processed, queue)
    ensures var current := queue[|queue| - 1];
            current in ids && current !in processed && indegree[current] == 0 &&
            Queued(ids, indegree, processed + {current}, queue[..|queue| - 1])
  {
    var current, rest := queue[|queue| - 1], queue[..|queue| - 1];
    assert current in queue;
    assert forall v :: v in queue <==> v in rest || v == current;
  }

  /** The popped identity joins the processed ones with a rank above all its predecessors. */
  lemma SettleRank(ids: seq<IdentityId>, edges: seq<Edge>, current: IdentityId, before: set<IdentityId>,
                   rank0: map<IdentityId, int>)
    returns (rank: map<IdentityId, int>)
    requires current !in before && Pending(edges, current, before) == 0
    requires rank0.Keys == before && (forall v :: v in before ==> rank0[v] < |before|) && Layered(edges, rank0)
    ensures rank.Keys == before + {current} && (forall v :: v in rank ==> rank[v] < |before| + 1) &&
            Layered(edges, rank)
  {
    rank := rank0[current := |before|];
    PendingZero(edges, current, before);
    forall k | 0 <= k < |edges| && edges[k].targetId in rank ensures Ascends(rank, edges[k]) {
      if edges[k].targetId in rank0 { assert Ascends(rank0, edges[k]); }
    }
  }

  /** Its outgoing edges are what remains to be decremented. */
  lemma SettleCounts(ids: seq<IdentityId>, edges: seq<Edge>, indegree: map<IdentityId, int>,
                     current: IdentityId, before: set<IdentityId>)
    requires KnownEndpoints(ids, edges) && current !in before
    requires Counted(ids, edges, indegree, before, [])
    ensures Counted(ids, edges, indegree, before + {current}, Targets(edges, current))
    ensures forall v :: v in Targets(edges, current) ==> v in ids
  {
    forall v | v in ids
      ensures indegree[v] == Pending(edges, v, before + {current}) + multiset(Targets(edges, current))[v]
    {
      ProcessOne(edges, v, before, current);
    }
    forall v | v in Targets(edges, current) ensures v in ids { TargetsExact(edges, current, v); }
  }

  /** With an empty queue, counting the processed identities decides the question. */
  lemma Verdict(ids: seq<IdentityId>, edges: seq<Edge>, indegree: map<IdentityId, int>, rank: map<IdentityId, int>)
    requires Distinct(ids) && KnownEndpoints(ids, edges) && Counted(ids, edges, indegree, rank.Keys, [])
    requires Queued(ids, indegree, rank.Keys, []) && Layered(edges, rank) && rank.Keys <= ToSet(ids)
    ensures |rank.Keys| == |ids| <==> Acyclic(edges)
  {
    DistinctCardinality(ids);
    SubsetCardinality(rank.Keys, ToSet(ids));
    if |rank.Keys| == |ids| {
      AllProcessed(ids, edges, rank);
    } else {
      SomeStuck(ids, edges, indegree, rank.Keys);
    }
  }

  /** Accepted exactly when there is no directed cycle. */
  method AssertAcyclic(ids: seq<IdentityId>, edges: seq<Edge>) returns (accepted: bool)
    requires Distinct(ids) && KnownEndpoints(ids, edges)
    ensures accepted <==> Acyclic(edges)
  {
    var adjacency, indegree := CountEdges(ids, edges);
    var queue := Sources(ids, indegree);
    var visited := 0;
    ghost var processed: set<IdentityId> := {};
    ghost var rank: map<IdentityId, int> := map[];
    forall v | v in ids ensures multiset([])[v] == 0 {}
    while queue != []
      invariant processed <= ToSet(ids) && visited == |processed|
      invariant Counted(ids, edges, indegree, processed, [])
      invariant Queued(ids, indegree, processed, queue)
      invariant rank.Keys == processed && forall v :: v in processed ==> rank[v] < visited
      invariant Layered(edges, rank)
      decreases |ToSet(ids)| - visited
    {
      PopQueue(ids, indegree, processed, queue);
      var current := queue[|queue| - 1];
      queue := queue[..|queue| - 1];
      rank := SettleRank(ids, edges, current, processed, rank);
      SettleCounts(ids, edges, indegree, current, processed);
      processed := processed + {current};
      visited := visited + 1;
      SubsetCardinality(processed, ToSet(ids));
      indegree, queue := Relax(ids, edges, adjacency[current], indegree, queue, processed);
    }
    accepted := visited == |ids|;
    Verdict(ids, edges, indegree, rank);
  }
}
