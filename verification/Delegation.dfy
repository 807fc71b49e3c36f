/** Live handles for a compiled graph: one delegation per edge, in edge order, and their renewal. */
module Delegation {
  import opened Wrappers
  import opened Outcomes
  import opened Models
  import opened Acyclicity
  import opened Graphs
  import opened Trees
  import opened Builder
  import opened Evidence
  import opened Adapters

  /** What is held for each materialized identity; the root has neither a credential nor an edge. */
  datatype Handles = Handles(credentials: map<IdentityId, Option<Credential>>, edges: map<IdentityId, Option<Edge>>)

  // ---- What materializing does --------------------------------------------------------

  /** The provider's answer to the k-th delegation. */
  function Minted(script: Script, base: nat, k: nat): Result<Credential, RunError> {
    script.delegations(base + k)
  }

  /** The handles after delegating along the edges in order. */
  function Delegated(script: Script, base: nat, root: IdentityId, edges: seq<Edge>): Result<Handles, RunError> {
    if edges == [] then
      Ok(Handles(map[root := None], map[root := None]))
    else
      var before, e := Delegated(script, base, root, edges[..|edges| - 1]), edges[|edges| - 1];
      if before.Err? then before
      else if e.sourceId !in before.value.credentials then Err(MissingSource(e.sourceId))
      else
        var minted := Minted(script, base, |edges| - 1);
        if minted.Err? then Err(minted.error)
        else Ok(Handles(before.value.credentials[e.targetId := Some(minted.value)],
                        before.value.edges[e.targetId := Some(e)]))
  }

  lemma {:induction false} FailureSticks(script: Script, base: nat, root: IdentityId, edges: seq<Edge>, k: nat)
    requires k <= |edges| && Delegated(script, base, root, edges[..k]).Err?
    ensures Delegated(script, base, root, edges) == Delegated(script, base, root, edges[..k])
    decreases |edges|
  {
    if k == |edges| {
      assert edges[..k] == edges;
    } else {
      assert edges[..|edges| - 1][..k] == edges[..k];
      FailureSticks(script, base, root, edges[..|edges| - 1], k);
    }
  }

  /** One more edge: a missing source or a refusal is final, anything else adds a handle. */
  lemma DelegatedNext(script: Script, base: nat, root: IdentityId, edges: seq<Edge>, k: nat)
    requires k < |edges| && Delegated(script, base, root, edges[..k]).Ok?
    ensures var h, e, minted := Delegated(script, base, root, edges[..k]).value, edges[k], Minted(script, base, k);
            if e.sourceId !in h.credentials then Delegated(script, base, root, edges) == Err(MissingSource(e.sourceId))
            else if minted.Err? then Delegated(script, base, root, edges) == Err(minted.error)
            else Delegated(script, base, root, edges[..k + 1]) ==
                 Ok(Handles(h.credentials[e.targetId := Some(minted.value)], h.edges[e.targetId := Some(e)]))
  {
    assert edges[..k + 1][..k] == edges[..k];
    if Delegated(script, base, root, edges[..k + 1]).Err? { FailureSticks(script, base, root, edges, k + 1); }
  }

  lemma {:induction false} HandlesCover(script: Script, base: nat, root: IdentityId, edges: seq<Edge>)
    requires Delegated(script, base, root, edges).Ok?
    ensures var h := Delegated(script, base, root, edges).value;
            h.credentials.Keys == h.edges.Keys == {root} + TargetSet(edges)
  {
    if edges != [] {
      HandlesCover(script, base, root, edges[..|edges| - 1]);
      TargetSetAppend(edges[..|edges| - 1], edges[|edges| - 1]);
      assert edges == edges[..|edges| - 1] + [edges[|edges| - 1]];
    }
  }

  /** No delegation along these edges is refused. */
  ghost predicate AllMinted(script: Script, base: nat, n: nat) {
    forall i :: 0 <= i < n ==> Minted(script, base, i).Ok?
  }

  lemma SourceInHandles(script: Script, base: nat, root: IdentityId, edges: seq<Edge>, k: nat)
    requires k < |edges| && Delegated(script, base, root, edges[..k]).Ok?
    ensures SourceEarlier(root, edges, k) <==>
            edges[k].sourceId in Delegated(script, base, root, edges[..k]).value.credentials
  {
    var front := edges[..k];
    HandlesCover(script, base, root, front);
    if edges[k].sourceId in TargetSet(front) {
      var e :| e in front && e.targetId == edges[k].sourceId;
      var j :| 0 <= j < k && front[j] == e;
      assert edges[j].targetId == edges[k].sourceId;
    }
    if SourceEarlier(root, edges, k) && edges[k].sourceId != root {
      var j :| 0 <= j < k && edges[j].targetId == edges[k].sourceId;
      assert front[j] in front;
    }
  }

  ghost predicate SourcesFirst(root: IdentityId, edges: seq<Edge>) {
    forall i :: 0 <= i < |edges| ==> SourceEarlier(root, edges, i)
  }

  lemma SourcesFirstSnoc(root: IdentityId, edges: seq<Edge>)
    requires edges != []
    ensures SourcesFirst(root, edges) <==>
            SourcesFirst(root, edges[..|edges| - 1]) && SourceEarlier(root, edges, |edges| - 1)
  {
    var front := edges[..|edges| - 1];
    forall i | 0 <= i < |front| ensures SourceEarlier(root, front, i) <==> SourceEarlier(root, edges, i) {
      forall j | 0 <= j < i ensures front[j] == edges[j] {}
    }
  }

  /** With a provider that refuses nothing, one forward pass suffices exactly when sources come first. */
  lemma {:induction false} OnePassIff(script: Script, base: nat, root: IdentityId, edges: seq<Edge>)
    requires AllMinted(script, base, |edges|)
    ensures Delegated(script, base, root, edges).Ok? <==> SourcesFirst(root, edges)
  {
    if edges != [] {
      OnePassIff(script, base, root, edges[..|edges| - 1]);
      SourcesFirstSnoc(root, edges);
      if Delegated(script, base, root, edges[..|edges| - 1]).Ok? {
        SourceInHandles(script, base, root, edges, |edges| - 1);
      }
    }
  }

  /** What a refused delegation raised. */
  ghost predicate Refused(script: Script, base: nat, n: nat, error: RunError) {
    exists i :: 0 <= i < n && Minted(script, base, i) == Err(error)
  }

  /** On a tree no source is ever missing: only the provider can make the pass fail, and then with its own error. */
  lemma {:induction false} OnlyRefusalFails(script: Script, base: nat, root: IdentityId, edges: seq<Edge>)
    requires SourcesFirst(root, edges)
    ensures Delegated(script, base, root, edges).Ok? <==> AllMinted(script, base, |edges|)
    ensures Delegated(script, base, root, edges).Err? ==>
            Refused(script, base, |edges|, Delegated(script, base, root, edges).error)
  {
    if edges != [] {
      SourcesFirstSnoc(root, edges);
      OnlyRefusalFails(script, base, root, edges[..|edges| - 1]);
      if Delegated(script, base, root, edges[..|edges| - 1]).Ok? {
        SourceInHandles(script, base, root, edges, |edges| - 1);
      }
    }
  }

  lemma {:induction false} EdgeHandle(script: Script, base: nat, root: IdentityId, edges: seq<Edge>, k: nat)
    requires Delegated(script, base, root, edges).Ok? && k < |edges| && edges[k].targetId != root
    requires forall i, j :: 0 <= i < j < |edges| ==> edges[i].targetId != edges[j].targetId
    ensures var h := Delegated(script, base, root, edges).value;
            edges[k].targetId in h.credentials && edges[k].targetId in h.edges &&
            h.edges[edges[k].targetId] == Some(edges[k]) &&
            Minted(script, base, k).Ok? && h.credentials[edges[k].targetId] == Some(Minted(script, base, k).value)
  {
    if k < |edges| - 1 { EdgeHandle(script, base, root, edges[..|edges| - 1], k); }
  }

  lemma {:induction false} RootHandle(script: Script, base: nat, root: IdentityId, edges: seq<Edge>)
    requires Delegated(script, base, root, edges).Ok? && forall i :: 0 <= i < |edges| ==> edges[i].targetId != root
    ensures var h := Delegated(script, base, root, edges).value;
            root in h.credentials && root in h.edges && h.credentials[root] == None && h.edges[root] == None
  {
    if edges != [] { RootHandle(script, base, root, edges[..|edges| - 1]); }
  }

  /** Materializing a tree never misses a reference, and gives every identity exactly its own edge's credential. */
  lemma TreeMaterializes(script: Script, base: nat, g: Graph)
    requires DelegationTree(g)
    ensures var r := Delegated(script, base, Root(g).identityId, g.edges);
            (r.Ok? <==> AllMinted(script, base, |g.edges|)) &&
            (r.Err? ==> Refused(script, base, |g.edges|, r.error)) &&
            (r.Ok? ==>
             r.value.credentials.Keys == r.value.edges.Keys == ToSet(g.Ids()) &&
             r.value.credentials[Root(g).identityId] == None)
  {
    var root := Root(g).identityId;
    OnlyRefusalFails(script, base, root, g.edges);
    if Delegated(script, base, root, g.edges).Ok? {
      HandlesCover(script, base, root, g.edges);
      RootHandle(script, base, root, g.edges);
    }
  }

  lemma {:induction false} DelegatedErrorFrom(script: Script, base: nat, root: IdentityId, edges: seq<Edge>)
    ensures var r := Delegated(script, base, root, edges);
            r.Err? ==> r.error.MissingSource? || FromProvider(script, r.error)
  {
    if edges != [] {
      DelegatedErrorFrom(script, base, root, edges[..|edges| - 1]);
      var minted := Minted(script, base, |edges| - 1);
      if minted.Err? { assert Raises(script, base + |edges| - 1, minted.error); }
    }
  }

  /** Materialization raises what the provider raised, or misses the source of an edge placed before it. */
  lemma DelegationErrorFrom(script: Script, base: nat, root: IdentityId, edges: seq<Edge>)
    requires Delegated(script, base, root, edges).Err?
    ensures var error := Delegated(script, base, root, edges).error;
            FromProvider(script, error) || (error.MissingSource? && !SourcesFirst(root, edges))
  {
    var error := Delegated(script, base, root, edges).error;
    DelegatedErrorFrom(script, base, root, edges);
    if SourcesFirst(root, edges) {
      OnlyRefusalFails(script, base, root, edges);
      var i :| 0 <= i < |edges| && Minted(script, base, i) == Err(error);
      assert Raises(script, base + i, error);
    }
  }

  // ---- Materializing --------------------------------------------------------------------

  class MaterializedGraph {
    var refs: set<IdentityId>
    var credentials: map<IdentityId, Option<Credential>>
    var edgesByTarget: map<IdentityId, Option<Edge>>

    /** The root alone. */
    constructor (root: IdentityId)
      ensures refs == {root} && credentials == map[root := None] && edgesByTarget == map[root := None]
    {
      refs, credentials, edgesByTarget := {root}, map[root := None], map[root := None];
    }

    predicate Holds(h: Handles)
      reads this
    {
      refs == credentials.Keys && credentials == h.credentials && edgesByTarget == h.edges
    }

    ghost predicate Follows(script: Script, base: nat, root: IdentityId, edges: seq<Edge>, k: nat)
      requires k <= |edges|
      reads this
    {
      Delegated(script, base, root, edges[..k]).Ok? && Holds(Delegated(script, base, root, edges[..k]).value)
    }

    /** The handle of one more delegated identity. */
    method Add(e: Edge, credential: Credential)
      modifies this
      ensures refs == old(refs) + {e.targetId} && credentials == old(credentials)[e.targetId := Some(credential)]
      ensures edgesByTarget == old(edgesByTarget)[e.targetId := Some(e)]
    {
      refs := refs + {e.targetId};
      credentials := credentials[e.targetId := Some(credential)];
      edgesByTarget := edgesByTarget[e.targetId := Some(e)];
    }

    /** A renewed credential for an identity that is already there. */
    method Renew(id: IdentityId, credential: Credential)
      modifies this`credentials
      ensures credentials == old(credentials)[id := Some(credential)]
    {
      credentials := credentials[id := Some(credential)];
    }
  }

  /** Delegates along one edge, provided its source is already there. */
  method DelegateAlong(adapter: Adapter, materialized: MaterializedGraph, e: Edge) returns (failure: Option<RunError>)
    modifies adapter`calls, adapter`delegated, materialized
    ensures adapter.delegated == old(adapter.delegated) + (if e.sourceId in old(materialized.refs) then [e] else [])
    ensures failure == if e.sourceId !in old(materialized.refs) then Some(MissingSource(e.sourceId))
                       else if adapter.script.delegations(old(adapter.calls)).Err? then
                         Some(adapter.script.delegations(old(adapter.calls)).error)
                       else None
    ensures failure.None? ==>
              var credential := adapter.script.delegations(old(adapter.calls)).value;
              adapter.calls == old(adapter.calls) + 1 &&
              materialized.refs == old(materialized.refs) + {e.targetId} &&
              materialized.credentials == old(materialized.credentials)[e.targetId := Some(credential)] &&
              materialized.edgesByTarget == old(materialized.edgesByTarget)[e.targetId := Some(e)]
  {
    if e.sourceId !in materialized.refs {
      return Some(MissingSource(e.sourceId));
    }
    var minted := adapter.Delegate(e);
    if minted.Err? {
      return Some(minted.error);
    }
    materialized.Add(e, minted.value);
    return None;
  }

  /** Delegations were asked along these edges, in order, all or up to some. */
  ghost predicate AskedAlong(before: seq<Edge>, edges: seq<Edge>, after: seq<Edge>) {
    exists n :: 0 <= n <= |edges| && after == before + edges[..n]
  }

  method DelegateAll(adapter: Adapter, materialized: MaterializedGraph, ghost root: IdentityId,
                     edges: seq<Edge>) returns (failure: Option<RunError>)
    requires materialized.Follows(adapter.script, adapter.calls, root, edges, 0)
    modifies adapter`calls, adapter`delegated, materialized
    ensures AskedAlong(old(adapter.delegated), edges, adapter.delegated)
    ensures failure.None? ==> adapter.delegated == old(adapter.delegated) + edges
    ensures var spec := Delegated(adapter.script, old(adapter.calls), root, edges);
            if spec.Err? then failure == Some(spec.error) else failure == None && materialized.Holds(spec.value)
  {
    ghost var script, base := adapter.script, adapter.calls;
    hide Delegated;
    for k := 0 to |edges|
      invariant adapter.calls == base + k && materialized.Follows(script, base, root, edges, k)
      invariant adapter.delegated == old(adapter.delegated) + edges[..k]
    {
      assert edges[..k + 1] == edges[..k] + [edges[k]];
      DelegatedNext(script, base, root, edges, k);
      failure := DelegateAlong(adapter, materialized, edges[k]);
      if failure.Some? {
        return;
      }
    }
    assert edges[..|edges|] == edges;
    failure := None;
  }

  /** Registers the root, then delegates along every edge in the graph's own order. */
  method MaterializeGraph(adapter: Adapter, g: Graph) returns (r: Result<MaterializedGraph, RunError>)
    requires ValidGraph(g)
    modifies adapter`calls, adapter`delegated
    ensures r.Ok? ==> fresh(r.value)
    ensures AskedAlong(old(adapter.delegated), g.edges, adapter.delegated)
    ensures r.Ok? ==> adapter.delegated == old(adapter.delegated) + g.edges
    ensures var registered := adapter.script.checks(old(adapter.calls));
            var spec := Delegated(adapter.script, old(adapter.calls) + 1, Root(g).identityId, g.edges);
            if registered.Err? then r == Err(registered.error)
            else if spec.Err? then r == Err(spec.error)
            else r.Ok? && r.value.Holds(spec.value)
  {
    var root := Root(g).identityId;
    var registered := adapter.Check();
    assert adapter.delegated == old(adapter.delegated) + g.edges[..0];
    if registered.Err? {
      return Err(registered.error);
    }
    var materialized := new MaterializedGraph(root);
    var failure := DelegateAll(adapter, materialized, root, g.edges);
    if failure.Some? {
      return Err(failure.value);
    }
    return Ok(materialized);
  }

  /** The depth bound once more, at the point where execution begins. */
  method MaterializeChain(adapter: Adapter, g: Graph, maxDepth: nat) returns (r: Result<MaterializedGraph, RunError>)
    requires ValidGraph(g)
    modifies adapter`calls, adapter`delegated
    ensures r.Ok? ==> fresh(r.value)
    ensures AskedAlong(old(adapter.delegated), g.edges, adapter.delegated)
    ensures r.Ok? ==> adapter.delegated == old(adapter.delegated) + g.edges
    ensures Depth(g.nodes) > maxDepth ==> r == Err(ChainTooDeep) && adapter.calls == old(adapter.calls)
    ensures Depth(g.nodes) <= maxDepth ==>
              var registered := adapter.script.checks(old(adapter.calls));
              var spec := Delegated(adapter.script, old(adapter.calls) + 1, Root(g).identityId, g.edges);
              if registered.Err? then r == Err(registered.error)
              else if spec.Err? then r == Err(spec.error)
              else r.Ok? && r.value.Holds(spec.value)
  {
    if Depth(g.nodes) > maxDepth {
      assert adapter.delegated == old(adapter.delegated) + g.edges[..0];
      return Err(ChainTooDeep);
    }
    r := MaterializeGraph(adapter, g);
  }

  /** The records of the credentials minted for the graph, each target once, in edge order. */
  function CredentialRecords(edges: seq<Edge>, credentials: map<IdentityId, Option<Credential>>): seq<Record> {
    if edges == [] then
      []
    else
      var front, target := edges[..|edges| - 1], edges[|edges| - 1].targetId;
      CredentialRecords(front, credentials) +
      (if target !in TargetSet(front) && Lookup(credentials, target).Some? then
       [CredentialWritten(Lookup(credentials, target).value.credentialId)] else [])
  }

  /** Edge k is the first into its target, which has a credential. */
  ghost predicate FirstMinted(edges: seq<Edge>, credentials: map<IdentityId, Option<Credential>>, k: nat) {
    k < |edges| && Lookup(credentials, edges[k].targetId).Some? &&
    forall j :: 0 <= j < k ==> edges[j].targetId != edges[k].targetId
  }

  /** These are the edges whose targets' credentials are written, in order. */
  ghost predicate Mints(edges: seq<Edge>, credentials: map<IdentityId, Option<Credential>>, at: seq<nat>) {
    (forall i, j :: 0 <= i < j < |at| ==> at[i] < at[j]) &&
    forall k: nat :: k in at <==> FirstMinted(edges, credentials, k)
  }

  lemma MintsNext(edges: seq<Edge>, credentials: map<IdentityId, Option<Credential>>, before: seq<nat>, at: seq<nat>)
    requires edges != [] && Mints(edges[..|edges| - 1], credentials, before)
    requires at == if FirstMinted(edges, credentials, |edges| - 1) then before + [|edges| - 1] else before
    ensures Mints(edges, credentials, at)
  {
    var front, n := edges[..|edges| - 1], |edges| - 1;
    forall k: nat | k < n ensures FirstMinted(front, credentials, k) <==> FirstMinted(edges, credentials, k) {
      forall j | 0 <= j <= k ensures front[j] == edges[j] {}
    }
    hide FirstMinted;
    BelowAll(front, credentials, before);
    forall k: nat ensures k in at <==> FirstMinted(edges, credentials, k) { NotBeyond(edges, credentials, k); }
  }

  lemma BelowAll(edges: seq<Edge>, credentials: map<IdentityId, Option<Credential>>, at: seq<nat>)
    requires Mints(edges, credentials, at)
    ensures forall i :: 0 <= i < |at| ==> at[i] < |edges|
  {
    forall i | 0 <= i < |at| ensures at[i] < |edges| { assert at[i] in at; }
  }

  lemma NotBeyond(edges: seq<Edge>, credentials: map<IdentityId, Option<Credential>>, k: nat)
    ensures FirstMinted(edges, credentials, k) ==> k < |edges|
  {
  }

  /** The credential of every delegated identity is written once, in the order the identities are first delegated to. */
  lemma {:induction false} CredentialsAre(edges: seq<Edge>, credentials: map<IdentityId, Option<Credential>>)
    returns (at: seq<nat>)
    ensures Mints(edges, credentials, at) && |CredentialRecords(edges, credentials)| == |at|
    ensures forall i :: 0 <= i < |at| ==>
              at[i] < |edges| && Lookup(credentials, edges[at[i]].targetId).Some? &&
              CredentialRecords(edges, credentials)[i] ==
              CredentialWritten(Lookup(credentials, edges[at[i]].targetId).value.credentialId)
  {
    hide Mints, FirstMinted;
    if edges == [] {
      at := [];
      NothingMinted(credentials);
    } else {
      var front, n := edges[..|edges| - 1], |edges| - 1;
      var before := CredentialsAre(front, credentials);
      at := if FirstMinted(edges, credentials, n) then before + [n] else before;
      LastMinted(edges, credentials);
      MintsNext(edges, credentials, before, at);
    }
  }

  lemma NothingMinted(credentials: map<IdentityId, Option<Credential>>)
    ensures Mints([], credentials, [])
  {
  }

  lemma LastMinted(edges: seq<Edge>, credentials: map<IdentityId, Option<Credential>>)
    requires edges != []
    ensures var n := |edges| - 1;
            FirstMinted(edges, credentials, n) <==>
            edges[n].targetId !in TargetSet(edges[..n]) && Lookup(credentials, edges[n].targetId).Some?
  {
    var n := |edges| - 1;
    TargetsAre(edges[..n], edges[n].targetId);
    forall j | 0 <= j < n ensures edges[..n][j] == edges[j] {}
  }

  lemma TargetsAre(edges: seq<Edge>, id: IdentityId)
    ensures id in TargetSet(edges) <==> exists j :: 0 <= j < |edges| && edges[j].targetId == id
  {
    if e :| e in edges && e.targetId == id {
      var j :| 0 <= j < |edges| && edges[j] == e;
    }
    if j :| 0 <= j < |edges| && edges[j].targetId == id { assert edges[j] in edges; }
  }

  // ---- Renewal ---------------------------------------------------------------------------

  /** Less than twice the coming matrix's estimated duration is left. */
  predicate NeedsRedelegation(credential: Credential, now: real, estimatedS: real) {
    credential.expiresAtS - now < 2.0 * estimatedS
  }

  function Lookup<T>(m: map<IdentityId, Option<T>>, id: IdentityId): Option<T> {
    if id in m then m[id] else None
  }

  /** The edge an identity was last delegated along, if any. */
  function EdgeInto(edges: seq<Edge>, id: IdentityId): (e: Option<Edge>)
    ensures e.Some? ==> e.value in edges && e.value.targetId == id
  {
    if edges == [] then None
    else if edges[|edges| - 1].targetId == id then Some(edges[|edges| - 1])
    else EdgeInto(edges[..|edges| - 1], id)
  }

  /** What materializing remembers as an identity's edge is the last of the graph's edges into it. */
  lemma {:induction false} HandlesAreEdges(script: Script, base: nat, root: IdentityId, edges: seq<Edge>,
                                           id: IdentityId)
    requires Delegated(script, base, root, edges).Ok?
    ensures Lookup(Delegated(script, base, root, edges).value.edges, id) == EdgeInto(edges, id)
  {
    if edges != [] { HandlesAreEdges(script, base, root, edges[..|edges| - 1], id); }
  }

  /** There is something to renew and it is about to run out. */
  predicate Stale(credential: Option<Credential>, edge: Option<Edge>, now: real, estimatedS: real) {
    edge.Some? && credential.Some? && NeedsRedelegation(credential.value, now, estimatedS)
  }

  // ---- Renewing before a matrix ----------------------------------------------------------

  /**
   How far renewal has come: calls made, credentials held, events to write, edges delegated along again, and why it
   stopped if it did.
   */
  datatype Renewal = Renewal(calls: nat, credentials: map<IdentityId, Option<Credential>>, events: seq<Event>,
                             asked: seq<Edge>, failure: Option<RunError>)

  /** What a matrix renews against: the references, the edges, the time and the matrix's estimated duration. */
  datatype Occasion = Occasion(refs: set<IdentityId>, edges: seq<Edge>, now: real, estimatedS: real)

  /** One identity's turn; `start` numbers the first event of the matrix. */
  function RenewOne(script: Script, o: Occasion, start: nat, before: Renewal, id: IdentityId): Renewal {
    var credential, edge := Lookup(before.credentials, id), EdgeInto(o.edges, id);
    if before.failure.Some? || id !in o.refs || !Stale(credential, edge, o.now, o.estimatedS) then
      before
    else if edge.value.sourceId !in o.refs then
      before.(failure := Some(MissingSource(edge.value.sourceId)))
    else
      var minted := script.delegations(before.calls);
      if minted.Err? then
        before.(calls := before.calls + 1, asked := before.asked + [edge.value], failure := Some(minted.error))
      else
        Renewal(before.calls + 1, before.credentials[id := Some(minted.value)],
                before.events +
                  [Event(start + |before.events|,
                         CredentialRedelegated(id, credential.value.credentialId, minted.value.credentialId))],
                before.asked + [edge.value], None)
  }

  /** All identities in turn: exactly the stale ones are renewed, up to the first that cannot be. */
  function RenewAll(script: Script, o: Occasion, start: nat, before: Renewal, ids: seq<IdentityId>): Renewal {
    if ids == [] then before
    else RenewOne(script, o, start, RenewAll(script, o, start, before, ids[..|ids| - 1]), ids[|ids| - 1])
  }

  /** One more identity: a failure so far is final. */
  lemma RenewNext(script: Script, o: Occasion, start: nat, first: Renewal, ids: seq<IdentityId>, k: nat)
    requires k < |ids|
    ensures var after := RenewOne(script, o, start, RenewAll(script, o, start, first, ids[..k]), ids[k]);
            RenewAll(script, o, start, first, ids[..k + 1]) == after &&
            (after.failure.Some? ==> RenewAll(script, o, start, first, ids) == after) &&
            (ids[k] !in o.refs ==> after == RenewAll(script, o, start, first, ids[..k]))
  {
    assert ids[..k + 1][..k] == ids[..k];
    if RenewAll(script, o, start, first, ids[..k + 1]).failure.Some? {
      RenewalStops(script, o, start, first, ids, k + 1);
    }
  }

  /** One turn touches no other identity's credential. */
  lemma RenewOneKeeps(script: Script, o: Occasion, start: nat, before: Renewal, id: IdentityId)
    ensures forall other :: other != id ==>
              Lookup(RenewOne(script, o, start, before, id).credentials, other) == Lookup(before.credentials, other)
  {
  }

  lemma {:induction false} RenewalStops(script: Script, o: Occasion, start: nat, before: Renewal, ids: seq<IdentityId>,
                                        k: nat)
    requires k <= |ids| && RenewAll(script, o, start, before, ids[..k]).failure.Some?
    ensures RenewAll(script, o, start, before, ids) == RenewAll(script, o, start, before, ids[..k])
    decreases |ids|
  {
    if k == |ids| {
      assert ids[..k] == ids;
    } else {
      assert ids[..|ids| - 1][..k] == ids[..k];
      RenewalStops(script, o, start, before, ids[..|ids| - 1], k);
    }
  }

  /**
   Before a matrix: a delegated identity whose credential has run low is delegated again along its own
   edge, and only then is there an event; everything else is left as it was.
   */
  method EnsureFreshCredential(adapter: Adapter, materialized: MaterializedGraph, id: IdentityId, now: real,
                               estimatedS: real, sequence: nat)
    returns (r: Result<Option<Event>, RunError>)
    modifies adapter`calls, adapter`delegated, materialized`credentials
    ensures var credential, edge := Lookup(old(materialized.credentials), id), Lookup(materialized.edgesByTarget, id);
            adapter.delegated == old(adapter.delegated) +
              (if Stale(credential, edge, now, estimatedS) && edge.value.sourceId in materialized.refs
               then [edge.value] else [])
    ensures var credential, edge := Lookup(old(materialized.credentials), id), Lookup(materialized.edgesByTarget, id);
            if !Stale(credential, edge, now, estimatedS) then
              r == Ok(None) && materialized.credentials == old(materialized.credentials) &&
              adapter.calls == old(adapter.calls)
            else if edge.value.sourceId !in materialized.refs then
              r == Err(MissingSource(edge.value.sourceId)) &&
              materialized.credentials == old(materialized.credentials) &&
              adapter.calls == old(adapter.calls)
            else
              var minted := adapter.script.delegations(old(adapter.calls));
              if minted.Err? then
                r == Err(minted.error) && materialized.credentials == old(materialized.credentials) &&
                adapter.calls == old(adapter.calls) + 1
              else
                adapter.calls == old(adapter.calls) + 1 &&
                r == Ok(Some(Event(sequence,
                                   CredentialRedelegated(id, credential.value.credentialId,
                                                         minted.value.credentialId)))) &&
                materialized.credentials == old(materialized.credentials)[id := Some(minted.value)]
  {
    var edge, credential := Lookup(materialized.edgesByTarget, id), Lookup(materialized.credentials, id);
    if edge.None? || credential.None? {
      return Ok(None);
    }
    if !NeedsRedelegation(credential.value, now, estimatedS) {
      return Ok(None);
    }
    if edge.value.sourceId !in materialized.refs {
      return Err(MissingSource(edge.value.sourceId));
    }
    var minted := adapter.Delegate(edge.value);
    if minted.Err? {
      return Err(minted.error);
    }
    materialized.Renew(id, minted.value);
    return Ok(Some(Event(sequence,
                         CredentialRedelegated(id, credential.value.credentialId, minted.value.credentialId))));
  }
}
