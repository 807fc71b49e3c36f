/** The authority-axis rules: one predicate per finding type, all gated by confidence. */
module Rules {
  import opened Wrappers
  import opened Outcomes
  import opened Models
  import opened Authority
  import opened Divergence

  datatype Confidence = High | Medium | Low | Insufficient

  datatype FindingType =
    | ExpectedBehavior
    | AuthorityExpansion
    | AuthorityNarrowing
    | DelegationDrift
    | AuthoritySurvival
    | Inconclusive

  /** What a finding's content-derived id is computed from. */
  datatype FindingKey = FindingKey(
    findingType: FindingType,
    identityId: IdentityId,
    edgeId: Option<string>,
    hopIndex: Option<nat>,
    refs: set<nat>)

  datatype Finding = Finding(
    findingId: string,
    findingType: FindingType,
    confidence: Confidence,
    identityId: IdentityId,
    edgeId: Option<string>,
    hopIndex: Option<nat>,
    driftClass: Option<DriftClass>,
    gain: AuthoritySet,
    loss: AuthoritySet,
    cites: Option<string>)

  type CellMap = cells: map<Capability, CellResult> | NonEmpty(cells) witness map[]

  /** The cells that back a claim about these capabilities. */
  function Contributing(cells: CellMap, capabilities: AuthoritySet): CellMap {
    map c | c in cells && c in capabilities :: cells[c]
  }

  function Refs(cells: CellMap): set<nat> {
    set c, i | c in cells && 0 <= i < |cells[c].refs| :: cells[c].refs[i]
  }

  predicate AllUnanimous(cells: CellMap) {
    forall c :: c in cells ==> Unanimous(cells[c].trials)
  }

  predicate NoErrors(cells: CellMap) {
    forall c, i :: c in cells && 0 <= i < |cells[c].trials| ==> !cells[c].trials[i].IsError()
  }

  predicate NoneIndeterminate(cells: CellMap) {
    forall c :: c in cells ==> !Resolved(cells[c].trials).Indeterminate?
  }

  function GateConfidence(coverage: real, cells: CellMap): Confidence {
    if cells == map[] then Insufficient
    else if coverage >= 1.0 && AllUnanimous(cells) && NoErrors(cells) then High
    else if coverage >= 0.9 && NoneIndeterminate(cells) then Medium
    else if coverage >= 0.7 then Low
    else Insufficient
  }

  function ByCoverage(coverage: real): Confidence {
    if coverage >= 1.0 then High else if coverage >= 0.9 then Medium else if coverage >= 0.7 then Low else Insufficient
  }

  /** Cells that are all unanimously ALLOWED leave the gate nothing to look at but coverage. */
  lemma AllowedCellsGateOnCoverage(coverage: real, cells: CellMap)
    requires cells != map[] && forall c :: c in cells ==> AllAllowed(cells[c].trials)
    ensures GateConfidence(coverage, cells) == ByCoverage(coverage)
  {
    forall c | c in cells ensures Unanimous(cells[c].trials) && Resolved(cells[c].trials).Allowed? {
      assert cells[c].trials[0] in cells[c].trials;
    }
    forall c, i | c in cells && 0 <= i < |cells[c].trials| ensures !cells[c].trials[i].IsError() {
      assert cells[c].trials[i] in cells[c].trials;
    }
  }

  /** Every rule funnels through here: insufficient confidence turns the finding into an inconclusive one. */
  function Build(digest: FindingKey -> string, natural: FindingType, identityId: IdentityId, edgeId: Option<string>,
                 hopIndex: Option<nat>, drift: Option<DriftClass>, coverage: real, cells: CellMap,
                 gain: AuthoritySet, loss: AuthoritySet, cites: Option<string>): Finding
  {
    var confidence := GateConfidence(coverage, cells);
    var final := if confidence.Insufficient? then Inconclusive else natural;
    Finding(digest(FindingKey(final, identityId, edgeId, hopIndex, Refs(cells))), final, confidence, identityId, edgeId,
            hopIndex,
            drift, gain, loss, cites)
  }

  function Coverage(n: Node): real
    requires n.observed.Some?
  {
    n.observed.value.Coverage()
  }

  function RuleExpectedBehavior(digest: FindingKey -> string, n: Node, cells: CellMap): Option<Finding> {
    if n.observed.None? || n.Diverged() then
      None
    else
      Some(Build(digest, ExpectedBehavior, n.identityId, None, Some(n.hopIndex), None, Coverage(n), cells, {}, {},
                 None))
  }

  function RuleAuthorityExpansion(digest: FindingKey -> string, n: Node, drift: Option<DriftClass>,
                                  cells: CellMap): Option<Finding> {
    var gain := n.UnexpectedGain();
    if gain == {} || !(drift.None? || drift.value.Originated?) then
      None
    else
      Some(Build(digest, AuthorityExpansion, n.identityId, None, Some(n.hopIndex), drift, Coverage(n),
                 Contributing(cells, gain), gain, {}, None))
  }

  function RuleAuthorityNarrowing(digest: FindingKey -> string, n: Node, cells: CellMap): Option<Finding> {
    var loss := n.UnexpectedLoss();
    if loss == {} then
      None
    else
      Some(Build(digest, AuthorityNarrowing, n.identityId, None, Some(n.hopIndex), None, Coverage(n),
                 Contributing(cells, loss), {}, loss, None))
  }

  function RuleDelegationDrift(digest: FindingKey -> string, n: Node, drift: Option<DriftClass>, origin: Option<string>,
                               cells: CellMap): Option<Finding>
  {
    var gain := n.UnexpectedGain();
    if gain == {} || n.hopIndex == 0 || drift.None? || drift.value.Corrected? then
      None
    else
      Some(Build(digest, DelegationDrift, n.identityId, None, Some(n.hopIndex), drift, Coverage(n),
                 Contributing(cells, gain), gain, {}, origin))
  }

  function RuleAuthoritySurvival(digest: FindingKey -> string, e: Edge, d: EdgeDivergence,
                                 targetCells: CellMap): Option<Finding> {
    var survived := d.survivedIncorrectly;
    if survived == {} then
      None
    else
      var contributing := Contributing(targetCells, survived);
      Some(Build(digest, AuthoritySurvival, e.targetId, Some(e.edgeId), None, None,
                 |contributing| as real / |survived| as real,
                 contributing, survived, {}, None))
  }

  /** The rules are complete and exclusive before gating: which of them fire is decided by the two set differences. */
  lemma RulesFire(digest: FindingKey -> string, n: Node, parent: Option<Node>, origin: Option<string>, cells: CellMap)
    requires n.observed.Some? && (n.hopIndex == 0 ==> parent.None?)
    ensures var drift := ClassifyDrift(n, parent);
            var expansion := RuleAuthorityExpansion(digest, n, drift, cells);
            var driftFinding := RuleDelegationDrift(digest, n, drift, origin, cells);
            var observed := n.observed.value.capabilities;
            (RuleExpectedBehavior(digest, n, cells).Some? <==> observed == n.expected) &&
            (RuleAuthorityNarrowing(digest, n, cells).Some? <==> !(n.expected <= observed)) &&
            (expansion.Some? || driftFinding.Some? <==> !(observed <= n.expected)) &&
            (expansion.Some? <==> !(observed <= n.expected) && drift == Some(Originated)) &&
            (expansion.Some? && driftFinding.Some? <==>
             !(observed <= n.expected) && drift == Some(Originated) && n.hopIndex > 0)
  {
    var observed := n.observed.value.capabilities;
    DriftMeans(n, parent);
    assert n.UnexpectedGain() == {} <==> observed <= n.expected by {
      forall c | c in observed && n.UnexpectedGain() == {} ensures c in n.expected { assert c !in n.UnexpectedGain(); }
    }
    assert n.UnexpectedLoss() == {} <==> n.expected <= observed by {
      forall c | c in n.expected && n.UnexpectedLoss() == {} ensures c in observed { assert c !in n.UnexpectedLoss(); }
    }
  }

  /**
   On a node populated from these cells, the cells behind a gain are all unanimously ALLOWED,
   so the confidence of its expansion or drift depends on coverage alone.
   */
  lemma GainConfidence(n: Node, cells: CellMap, phase: PlanPhase, matrixId: string)
    requires n.observed == Some(ObservedFrom(cells.Keys, cells, phase, matrixId)) && n.UnexpectedGain() != {}
    ensures forall c :: c in n.UnexpectedGain() ==> c in cells && AllAllowed(cells[c].trials)
    ensures GateConfidence(Coverage(n), Contributing(cells, n.UnexpectedGain())) == ByCoverage(Coverage(n))
  {
    var gain := n.UnexpectedGain();
    forall c | c in gain ensures c in cells && AllAllowed(cells[c].trials) {
      VerdictMeans(cells, c);
    }
    var c :| c in gain;
    assert c in Contributing(cells, gain);
    AllowedCellsGateOnCoverage(Coverage(n), Contributing(cells, gain));
  }

  /** What the id of a finding about a node's gain is computed from. */
  function GainKey(findingType: FindingType, n: Node, cells: CellMap): FindingKey {
    FindingKey(findingType, n.identityId, None, Some(n.hopIndex), Refs(Contributing(cells, n.UnexpectedGain())))
  }

  /** Below a coverage of 0.7 the expansion and the drift of an originating node are both inconclusive, under one id. */
  lemma LowCoverageCollides(digest: FindingKey -> string, n: Node, parent: Option<Node>, cells: CellMap,
                            phase: PlanPhase,
                            matrixId: string, origin: Option<string>)
    requires n.observed == Some(ObservedFrom(cells.Keys, cells, phase, matrixId)) && n.hopIndex > 0
    requires ClassifyDrift(n, parent) == Some(Originated) && Coverage(n) < 0.7
    ensures var expansion := RuleAuthorityExpansion(digest, n, ClassifyDrift(n, parent), cells);
            var drift := RuleDelegationDrift(digest, n, ClassifyDrift(n, parent), origin, cells);
            expansion.Some? && drift.Some? && expansion.value.findingId == drift.value.findingId &&
            expansion.value.findingType.Inconclusive? && drift.value.findingType.Inconclusive?
  {
    DriftMeans(n, parent);
    GainConfidence(n, cells, phase, matrixId);
  }

  /**
   Ids are not distinct. With a digest that tells an expansion of this gain from a drift, the expansion and the
   drift of one originating node carry the same id exactly when its coverage is below 0.7; both are then
   inconclusive.
   */
  lemma IdsCollideIff(digest: FindingKey -> string, n: Node, parent: Option<Node>, cells: CellMap, phase: PlanPhase,
                      matrixId: string, origin: Option<string>)
    requires n.observed == Some(ObservedFrom(cells.Keys, cells, phase, matrixId)) && n.hopIndex > 0
    requires ClassifyDrift(n, parent) == Some(Originated)
    requires digest(GainKey(AuthorityExpansion, n, cells)) != digest(GainKey(DelegationDrift, n, cells))
    ensures var expansion := RuleAuthorityExpansion(digest, n, ClassifyDrift(n, parent), cells);
            var drift := RuleDelegationDrift(digest, n, ClassifyDrift(n, parent), origin, cells);
            expansion.Some? && drift.Some? &&
            (expansion.value.findingId == drift.value.findingId <==> Coverage(n) < 0.7) &&
            (Coverage(n) < 0.7 ==> expansion.value.findingType.Inconclusive? && drift.value.findingType.Inconclusive?)
  {
    DriftMeans(n, parent);
    GainConfidence(n, cells, phase, matrixId);
  }

  /** The cells behind a node's lost capabilities. */
  function LossCells(n: Node, cells: CellMap): CellMap {
    Contributing(cells, n.UnexpectedLoss())
  }

  /** What the id of a finding about a node's loss is computed from: of the phase, nothing. */
  function LossKey(n: Node, cells: CellMap): FindingKey
    requires n.observed.Some?
  {
    var gated := GateConfidence(Coverage(n), LossCells(n, cells)).Insufficient?;
    FindingKey(if gated then Inconclusive else AuthorityNarrowing, n.identityId, None, Some(n.hopIndex),
               Refs(LossCells(n, cells)))
  }

  lemma CellsHaveRefs(cells: CellMap)
    requires forall c :: c in cells ==> cells[c].refs != []
    ensures Refs(cells) == {} <==> cells == map[]
  {
    if c :| c in cells { assert cells[c].refs[0] in Refs(cells); }
  }

  /**
   Nor are they distinct across phases. Of the narrowings of one identity measured at two phases, whose observations
   are numbered apart, the ids are the same exactly when no lost capability was probed at either; both are then
   inconclusive.
   */
  lemma PhasesCollideIff(digest: FindingKey -> string, n: Node, m: Node, before: CellMap, after: CellMap)
    requires n.observed.Some? && m.observed.Some? && n.identityId == m.identityId && n.hopIndex == m.hopIndex
    requires n.UnexpectedLoss() != {} && m.UnexpectedLoss() != {}
    requires forall c :: (c in before ==> before[c].refs != []) && (c in after ==> after[c].refs != [])
    requires Refs(before) !! Refs(after)
    requires LossKey(n, before) != LossKey(m, after) ==> digest(LossKey(n, before)) != digest(LossKey(m, after))
    ensures var first, second := RuleAuthorityNarrowing(digest, n, before), RuleAuthorityNarrowing(digest, m, after);
            var unprobed := LossCells(n, before) == map[] && LossCells(m, after) == map[];
            first.Some? && second.Some? && (first.value.findingId == second.value.findingId <==> unprobed) &&
            (unprobed ==> first.value.findingType.Inconclusive? && second.value.findingType.Inconclusive?)
  {
    CellsHaveRefs(LossCells(n, before));
    CellsHaveRefs(LossCells(m, after));
    ContributingRefs(before, n.UnexpectedLoss());
    ContributingRefs(after, m.UnexpectedLoss());
  }

  lemma ContributingRefs(cells: CellMap, capabilities: AuthoritySet)
    ensures Refs(Contributing(cells, capabilities)) <= Refs(cells)
  {
  }

  /** Two cells, one ALLOWED and one an error. */
  function OneOfEach(a: Capability, b: Capability): CellMap
    requires a != b
  {
    map[a := CellResult([Allowed], [0]), b := CellResult([ErrorTransient], [1])]
  }

  /** A child that was expected to hold nothing, populated from these cells. */
  function ChildMeasured(parent: Node, id: IdentityId, cells: CellMap, phase: PlanPhase, matrixId: string): Node {
    Node(id, "", false, parent.hopIndex + 1, Some(parent.identityId), {},
         Some(ObservedFrom(cells.Keys, cells, phase, matrixId)))
  }

  lemma OneHeldOneError(a: Capability, b: Capability)
    requires a != b
    ensures var cells := OneOfEach(a, b);
            HeldIn(cells.Keys, cells) == {a} && RefusedIn(cells.Keys, cells) == {} && cells.Keys == {a, b}
  {
    var cells := OneOfEach(a, b);
    VerdictMeans(cells, a);
    VerdictMeans(cells, b);
    assert cells.Keys == {a, b};
    assert cells[b].trials[0] in cells[b].trials;
  }

  /** The collision is reached: below a parent without a gain, a node with one ALLOWED cell and one error. */
  lemma IdsCollideReached(digest: FindingKey -> string, parent: Node, id: IdentityId, a: Capability, b: Capability,
                          phase: PlanPhase,
                          matrixId: string, origin: Option<string>)
    requires a != b && parent.UnexpectedGain() == {}
    ensures var cells := OneOfEach(a, b);
            var n := ChildMeasured(parent, id, cells, phase, matrixId);
            var drift := ClassifyDrift(n, Some(parent));
            n.UnexpectedGain() == {a} && drift == Some(Originated) && Coverage(n) == 0.5 &&
            var expansion, drifting := RuleAuthorityExpansion(digest, n, drift, cells),
              RuleDelegationDrift(digest, n, drift, origin, cells);
            expansion.Some? && drifting.Some? && expansion.value.findingId == drifting.value.findingId
  {
    hide HeldIn, RefusedIn, ExcludedIn, OneOfEach, Build, Contributing, VerdictOn;
    OneHeldOneError(a, b);
    var cells := OneOfEach(a, b);
    var n := ChildMeasured(parent, id, cells, phase, matrixId);
    assert n.observed.value.capabilities == {a} && n.observed.value.attempted == |{a, b}| == 2;
    assert n.UnexpectedGain() == {a};
    LowCoverageCollides(digest, n, Some(parent), cells, phase, matrixId, origin);
  }
}
