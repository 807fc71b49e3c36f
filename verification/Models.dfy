/** The identities, delegations and graph of a compiled scenario. */
module Models {
  import opened Wrappers
  import opened Outcomes

  datatype PlanPhase =
    | Baseline
    | PostDelegation
    | PreMutation
    | PostMutation
    | DeferredExecution
    | PairedFreshCredential
    | PostExpiry
    | TaskExecution
    | FinalPhase

  datatype ExclusionReason =
    | PreconditionFailed
    | TransientErrorsExhausted
    | InfrastructureError
    | TrialsDisagreed
    | NoBindingInScenario
    | NotProbed
    | ControlCapabilityFailed

  type AuthoritySet = set<Capability>

  datatype ObservedAuthority = ObservedAuthority(
    capabilities: AuthoritySet,
    excluded: map<Capability, ExclusionReason>,
    phase: PlanPhase,
    probeMatrixId: string,
    attempted: nat,
    classified: nat)
  {
    function Coverage(): real {
      if attempted == 0 then 0.0 else classified as real / attempted as real
    }
  }

  /** One probe attempt; observations are referred to by their sequence number. */
  datatype Observation = Observation(
    sequence: nat,
    phase: PlanPhase,
    probeMatrixId: string,
    identityId: IdentityId,
    capabilityId: Capability,
    trial: nat,
    startNs: int,
    outcome: OutcomeClass)

  datatype Node = Node(
    identityId: IdentityId,
    providerBinding: string,
    isRoot: bool,
    hopIndex: nat,
    parentId: Option<IdentityId>,
    expected: AuthoritySet,
    observed: Option<ObservedAuthority>)
  {
    function UnexpectedGain(): AuthoritySet {
      if observed.None? then {} else observed.value.capabilities - expected
    }

    function UnexpectedLoss(): AuthoritySet {
      if observed.None? then {} else expected - observed.value.capabilities
    }

    predicate Diverged() {
      UnexpectedGain() != {} || UnexpectedLoss() != {}
    }
  }

  datatype Edge = Edge(
    edgeId: string,
    sourceId: IdentityId,
    targetId: IdentityId,
    requested: AuthoritySet,
    intended: AuthoritySet,
    expectedEffective: AuthoritySet,
    credentialLifetimeS: int)

  datatype Graph = Graph(nodes: seq<Node>, edges: seq<Edge>) {

    function Ids(): seq<IdentityId> {
      seq(|nodes|, i requires 0 <= i < |nodes| => nodes[i].identityId)
    }

    predicate Knows(id: IdentityId) {
      exists i :: 0 <= i < |nodes| && nodes[i].identityId == id
    }

    /** The first node with this id; looking up an unknown id raises. */
    function NodeOf(id: IdentityId): (n: Node)
      requires Knows(id)
      ensures n in nodes && n.identityId == id
    {
      NodeIn(nodes, id)
    }
  }

  function NodeIn(nodes: seq<Node>, id: IdentityId): (n: Node)
    requires exists i :: 0 <= i < |nodes| && nodes[i].identityId == id
    ensures n in nodes && n.identityId == id
  {
    if nodes[0].identityId == id then nodes[0] else NodeIn(nodes[1..], id)
  }

  predicate DistinctIds(nodes: seq<Node>) {
    forall i, j :: 0 <= i < j < |nodes| ==> nodes[i].identityId != nodes[j].identityId
  }

  /** With distinct ids a lookup returns the one node of that id. */
  lemma NodeOfUnique(g: Graph, n: Node)
    requires DistinctIds(g.nodes) && n in g.nodes
    ensures g.Knows(n.identityId) && g.NodeOf(n.identityId) == n
  {
    var i :| 0 <= i < |g.nodes| && g.nodes[i] == n;
    var m := g.NodeOf(n.identityId);
    var j :| 0 <= j < |g.nodes| && g.nodes[j] == m;
  }
}
