/**
 What a finding says, in terms of the observations it rests on: whom it is about, what was gained or lost, how
 confident it is, and what its id is computed from.
 */
module Claims {
  import opened Wrappers
  import opened Outcomes
  import opened Models
  import opened Authority
  import opened Divergence
  import opened Rules

  // ---- Confidence and evidence -------------------------------------------------------

  /** The numbers of an identity's trials of these capabilities at a phase. */
  ghost function Numbers(observations: seq<Observation>, id: IdentityId, phase: PlanPhase,
                         capabilities: AuthoritySet): set<nat> {
    set o | o in observations && o.identityId == id && o.phase == phase && o.capabilityId in capabilities :: o.sequence
  }

  ghost predicate AnyTried(observations: seq<Observation>, id: IdentityId, phase: PlanPhase,
                           capabilities: AuthoritySet) {
    exists c :: c in capabilities && Tried(observations, id, phase, c)
  }

  /** Each capability tried came out the same in every trial, and never as an error. */
  ghost predicate Clean(observations: seq<Observation>, id: IdentityId, phase: PlanPhase, capabilities: AuthoritySet) {
    forall c :: c in capabilities && Tried(observations, id, phase, c) ==>
                  Agreed(observations, id, phase, c) && NeverError(observations, id, phase, c)
  }

  /** Each capability tried was allowed throughout, denied throughout, or failed throughout. */
  ghost predicate Consistent(observations: seq<Observation>, id: IdentityId, phase: PlanPhase,
                             capabilities: AuthoritySet) {
    forall c :: c in capabilities && Tried(observations, id, phase, c) ==>
                  AlwaysAllowed(observations, id, phase, c) || AlwaysDenied(observations, id, phase, c) ||
                  AlwaysError(observations, id, phase, c)
  }

  /** The confidence in a claim about these capabilities, of which this share was classified. */
  ghost predicate ConfidenceIs(confidence: Confidence, share: nat, all: nat, observations: seq<Observation>,
                               id: IdentityId, phase: PlanPhase, capabilities: AuthoritySet) {
    confidence ==
    if all == 0 || !AnyTried(observations, id, phase, capabilities) then Insufficient
    else if share >= all && Clean(observations, id, phase, capabilities) then High
    else if 10 * share >= 9 * all && Consistent(observations, id, phase, capabilities) then Medium
    else if 10 * share >= 7 * all then Low
    else Insufficient
  }

  /** Without enough confidence a finding of any kind becomes an inconclusive one. */
  predicate Gated(f: Finding, natural: FindingType) {
    f.findingType == if f.confidence.Insufficient? then Inconclusive else natural
  }

  lemma NumbersAre(observations: seq<Observation>, id: IdentityId, phase: PlanPhase, capabilities: AuthoritySet)
    ensures Refs(Contributing(CellsOf(observations, id, phase), capabilities)) ==
            Numbers(observations, id, phase, capabilities)
  {
    hide CellsOf;
    var cells := CellsOf(observations, id, phase);
    var some := Contributing(cells, capabilities);
    forall k ensures k in Refs(some) <==> k in Numbers(observations, id, phase, capabilities) {
      if k in Refs(some) {
        var c, i :| c in some && 0 <= i < |some[c].refs| && some[c].refs[i] == k;
        CellAgrees(observations, id, phase, c);
        assert k in cells[c].refs;
      }
      if k in Numbers(observations, id, phase, capabilities) {
        var o :| o in observations && o.identityId == id && o.phase == phase && o.capabilityId in capabilities &&
          o.sequence == k;
        NumberFound(observations, id, phase, o);
        var i :| 0 <= i < |some[o.capabilityId].refs| && some[o.capabilityId].refs[i] == k;
      }
    }
  }

  lemma NumberFound(observations: seq<Observation>, id: IdentityId, phase: PlanPhase, o: Observation)
    requires o in observations && o.identityId == id && o.phase == phase
    ensures var cells := CellsOf(observations, id, phase);
            o.capabilityId in cells && o.sequence in cells[o.capabilityId].refs
  {
    hide CellsOf;
    assert Tries(o, id, phase, o.capabilityId);
    CellReads(observations, id, phase, o.capabilityId);
    CellAgrees(observations, id, phase, o.capabilityId);
  }

  lemma SharesCompare(coverage: real, share: nat, all: nat)
    requires all > 0 && coverage == share as real / all as real
    ensures coverage >= 1.0 <==> share >= all
    ensures coverage >= 0.9 <==> 10 * share >= 9 * all
    ensures coverage >= 0.7 <==> 10 * share >= 7 * all
  {
    var s, a := share as real, all as real;
    Undivided(coverage, s, a);
    ScaledCompare(coverage, s, 1.0, a);
    ScaledCompare(coverage, s, 0.9, a);
    ScaledCompare(coverage, s, 0.7, a);
    assert s >= a <==> share >= all;
    assert 10.0 * s >= 9.0 * a <==> 10 * share >= 9 * all;
    assert 10.0 * s >= 7.0 * a <==> 10 * share >= 7 * all;
  }

  lemma Undivided(q: real, s: real, a: real)
    requires a > 0.0 && q == s / a
    ensures q * a == s
  {
  }

  lemma ScaledCompare(q: real, s: real, x: real, a: real)
    requires a > 0.0 && q * a == s
    ensures q >= x <==> s >= x * a
  {
    assert q * a - x * a == (q - x) * a;
  }

  lemma CellsRead(observations: seq<Observation>, id: IdentityId, phase: PlanPhase, capabilities: AuthoritySet)
    ensures var some := Contributing(CellsOf(observations, id, phase), capabilities);
            (some == map[] <==> !AnyTried(observations, id, phase, capabilities)) &&
            (AllUnanimous(some) && NoErrors(some) <==> Clean(observations, id, phase, capabilities)) &&
            (NoneIndeterminate(some) <==> Consistent(observations, id, phase, capabilities))
  {
    hide CellsOf, Agreed, NeverError, AlwaysAllowed, AlwaysDenied, AlwaysError, Tried, Unanimous, Resolved;
    var cells := CellsOf(observations, id, phase);
    var some := Contributing(cells, capabilities);
    forall c ensures c in some <==> c in capabilities && Tried(observations, id, phase, c) {
      CellReads(observations, id, phase, c);
    }
    forall c | c in some
      ensures Unanimous(some[c].trials) <==> Agreed(observations, id, phase, c)
      ensures (forall i :: 0 <= i < |some[c].trials| ==> !some[c].trials[i].IsError()) <==>
              NeverError(observations, id, phase, c)
      ensures !Resolved(some[c].trials).Indeterminate? <==>
              AlwaysAllowed(observations, id, phase, c) || AlwaysDenied(observations, id, phase, c) ||
              AlwaysError(observations, id, phase, c)
    {
      CellReads(observations, id, phase, c);
      CellAgrees(observations, id, phase, c);
      ResolvedIndeterminate(some[c].trials);
    }
    if some == map[] { assert forall c :: c !in some; }
  }

  lemma ResolvedIndeterminate(trials: seq<OutcomeClass>)
    requires trials != []
    ensures Resolved(trials).Indeterminate? <==> !AllAllowed(trials) && !AllDenials(trials) && !AllErrors(trials)
    ensures (forall t :: t in trials ==> !t.IsError()) <==> (forall i :: 0 <= i < |trials| ==> !trials[i].IsError())
  {
    assert trials[0] in trials;
  }

  /** The gate reads the observations, and nothing else. */
  lemma GateReads(observations: seq<Observation>, id: IdentityId, phase: PlanPhase, capabilities: AuthoritySet,
                  coverage: real, share: nat, all: nat)
    requires coverage == if all == 0 then 0.0 else share as real / all as real
    ensures ConfidenceIs(GateConfidence(coverage, Contributing(CellsOf(observations, id, phase), capabilities)),
                         share, all, observations, id, phase, capabilities)
  {
    hide CellsOf, AllUnanimous, NoErrors, NoneIndeterminate, Clean, Consistent, AnyTried, Contributing;
    CellsRead(observations, id, phase, capabilities);
    if all > 0 { SharesCompare(coverage, share, all); }
  }

  // ---- Findings about a node -----------------------------------------------------------

  /** A finding about a measured node: its claim, and the trials of these capabilities as its evidence. */
  ghost predicate AboutNode(f: Finding, natural: FindingType, n: Node, drift: Option<DriftClass>, gain: AuthoritySet,
                            loss: AuthoritySet, cites: Option<string>, observations: seq<Observation>,
                            phase: PlanPhase, digest: FindingKey -> string, capabilities: AuthoritySet)
    requires n.observed.Some?
  {
    f.identityId == n.identityId && f.edgeId.None? && f.hopIndex == Some(n.hopIndex) && f.driftClass == drift &&
    f.gain == gain && f.loss == loss && f.cites == cites && Gated(f, natural) &&
    ConfidenceIs(f.confidence, n.observed.value.classified, n.observed.value.attempted, observations, n.identityId,
                 phase, capabilities) &&
    f.findingId == digest(FindingKey(f.findingType, n.identityId, None, Some(n.hopIndex),
                                     Numbers(observations, n.identityId, phase, capabilities)))
  }

  /** What is held beyond expectation, of a measured node. */
  function GainOf(n: Node): AuthoritySet {
    if n.observed.None? then {} else n.observed.value.capabilities - n.expected
  }

  /** How a gain relates to the gain one hop up. */
  function KindOf(gain: AuthoritySet, above: AuthoritySet): Option<DriftClass> {
    if gain == {} then (if above == {} then None else Some(Corrected))
    else if gain <= above then Some(Propagated)
    else if above != {} && above <= gain then Some(Amplified)
    else Some(Originated)
  }

  /** The gain one hop up, of which the root has none. */
  function Above(parent: Option<Node>): AuthoritySet {
    if parent.None? then {} else GainOf(parent.value)
  }

  /**
   The findings of one measured node, in order: an expansion if a gain originates here, a drift below the root if
   there is a gain, a narrowing if there is a loss, and agreement if there is neither.
   */
  ghost predicate NodeReported(fs: seq<Finding>, n: Node, parent: Option<Node>, cites: Option<string>,
                               observations: seq<Observation>, phase: PlanPhase, digest: FindingKey -> string)
    requires n.observed.Some?
  {
    var held := n.observed.value.capabilities;
    var gain, loss, kind := held - n.expected, n.expected - held, KindOf(GainOf(n), Above(parent));
    var a := if kind == Some(Originated) then 1 else 0;
    var b := if gain != {} && n.hopIndex > 0 then 1 else 0;
    var c := if loss != {} then 1 else 0;
    var d := if gain == {} && loss == {} then 1 else 0;
    |fs| == a + b + c + d &&
    (a == 1 ==> AboutNode(fs[0], AuthorityExpansion, n, kind, gain, {}, None, observations, phase, digest, gain)) &&
    (b == 1 ==> AboutNode(fs[a], DelegationDrift, n, kind, gain, {}, cites, observations, phase, digest, gain)) &&
    (c == 1 ==>
     AboutNode(fs[a + b], AuthorityNarrowing, n, None, {}, loss, None, observations, phase, digest, loss)) &&
    (d == 1 ==>
     AboutNode(fs[0], ExpectedBehavior, n, None, {}, {}, None, observations, phase, digest,
               TriedBy(observations, n.identityId, phase)))
  }

  /** What the rules build for a node says what it should, whichever rule it is. */
  lemma BuiltAboutNode(digest: FindingKey -> string, natural: FindingType, n: Node, drift: Option<DriftClass>,
                       gain: AuthoritySet, loss: AuthoritySet, cites: Option<string>, observations: seq<Observation>,
                       phase: PlanPhase, capabilities: AuthoritySet)
    requires n.observed.Some?
    ensures var cells := Contributing(CellsOf(observations, n.identityId, phase), capabilities);
            AboutNode(Build(digest, natural, n.identityId, None, Some(n.hopIndex), drift, Coverage(n), cells, gain,
                            loss,
                            cites),
                      natural, n, drift, gain, loss, cites, observations, phase, digest, capabilities)
  {
    hide CellsOf, Contributing, GateConfidence, ConfidenceIs, Refs, Numbers;
    GateReads(observations, n.identityId, phase, capabilities, Coverage(n), n.observed.value.classified,
              n.observed.value.attempted);
    NumbersAre(observations, n.identityId, phase, capabilities);
  }

  lemma AllContribute(observations: seq<Observation>, id: IdentityId, phase: PlanPhase)
    ensures Contributing(CellsOf(observations, id, phase), TriedBy(observations, id, phase)) ==
            CellsOf(observations, id, phase)
  {
    KeysAreTried(observations, id, phase);
    hide CellsOf, TriedBy;
  }

  lemma KindIsDrift(n: Node, parent: Option<Node>)
    ensures KindOf(GainOf(n), Above(parent)) == ClassifyDrift(n, parent)
  {
    DriftMeans(n, parent);
  }

  // ---- Findings about an edge ------------------------------------------------------------

  /** A finding about a hop: its target holds this, which the hop never intended to grant. */
  ghost predicate AboutEdge(f: Finding, e: Edge, survived: AuthoritySet, observations: seq<Observation>,
                            phase: PlanPhase, digest: FindingKey -> string) {
    f.identityId == e.targetId && f.edgeId == Some(e.edgeId) && f.hopIndex.None? && f.driftClass.None? &&
    f.gain == survived && f.loss == {} && f.cites.None? && Gated(f, AuthoritySurvival) &&
    ConfidenceIs(f.confidence, |survived * TriedBy(observations, e.targetId, phase)|, |survived|, observations,
                 e.targetId, phase, survived) &&
    f.findingId == digest(FindingKey(f.findingType, e.targetId, Some(e.edgeId), None,
                                     Numbers(observations, e.targetId, phase, survived)))
  }

  /** One finding, if both ends were measured and the target holds more than the hop intends; otherwise none. */
  ghost predicate EdgeReported(fs: seq<Finding>, g: Graph, e: Edge, observations: seq<Observation>, phase: PlanPhase,
                               digest: FindingKey -> string)
    requires g.Knows(e.sourceId) && g.Knows(e.targetId)
  {
    var source, target := g.NodeOf(e.sourceId).observed, g.NodeOf(e.targetId).observed;
    if source.Some? && target.Some? && target.value.capabilities - e.intended != {} then
      |fs| == 1 && AboutEdge(fs[0], e, target.value.capabilities - e.intended, observations, phase, digest)
    else fs == []
  }

  lemma SurvivalReads(e: Edge, d: EdgeDivergence, survived: AuthoritySet, observations: seq<Observation>,
                      phase: PlanPhase, digest: FindingKey -> string)
    requires d.survivedIncorrectly == survived
    ensures var f := RuleAuthoritySurvival(digest, e, d, CellsOf(observations, e.targetId, phase));
            (f.Some? <==> survived != {}) && (f.Some? ==> AboutEdge(f.value, e, survived, observations, phase, digest))
  {
    hide CellsOf, GateConfidence, ConfidenceIs, Refs, Numbers;
    var cells := CellsOf(observations, e.targetId, phase);
    KeysAreTried(observations, e.targetId, phase);
    var some := Contributing(cells, survived);
    assert some.Keys == survived * TriedBy(observations, e.targetId, phase) && |some| == |some.Keys|;
    GateReads(observations, e.targetId, phase, survived,
              if survived == {} then 0.0 else |some| as real / |survived| as real, |some|, |survived|);
    NumbersAre(observations, e.targetId, phase, survived);
  }

  /** What an edge contributes to a phase's findings. */
  lemma EdgeReports(fs: seq<Finding>, g: Graph, e: Edge, observations: seq<Observation>, phase: PlanPhase,
                    digest: FindingKey -> string)
    requires g.Knows(e.sourceId) && g.Knows(e.targetId)
    requires var d := DivergenceOf(g, e);
             var f := if d.Err? then None
                      else RuleAuthoritySurvival(digest, e, d.value, CellsOf(observations, e.targetId, phase));
             fs == if f.None? then [] else [f.value]
    ensures EdgeReported(fs, g, e, observations, phase, digest)
  {
    hide CellsOf, RuleAuthoritySurvival, AboutEdge;
    var d := DivergenceOf(g, e);
    if d.Ok? {
      SurvivalReads(e, d.value, g.NodeOf(e.targetId).observed.value.capabilities - e.intended, observations, phase,
                    digest);
    }
  }

  /** What survived on a target measured at this very phase is always known for certain, and never gated. */
  lemma SurvivalIsCertain(f: Finding, e: Edge, target: ObservedAuthority, observations: seq<Observation>,
                          phase: PlanPhase, digest: FindingKey -> string)
    requires ReadsAs(target, observations, e.targetId, phase) && target.capabilities - e.intended != {}
    requires AboutEdge(f, e, target.capabilities - e.intended, observations, phase, digest)
    ensures f.confidence.High? && f.findingType.AuthoritySurvival?
  {
    hide Tried, AlwaysAllowed, AlwaysDenied, ReasonIs, FirstMatrix, TriedBy, Agreed, NeverError, Numbers, Consistent;
    var id, survived := e.targetId, target.capabilities - e.intended;
    forall c | c in survived
      ensures c in TriedBy(observations, id, phase) && Agreed(observations, id, phase, c) &&
              NeverError(observations, id, phase, c)
    {
      AllowedIsClean(observations, id, phase, c);
    }
    assert survived * TriedBy(observations, id, phase) == survived;
    var c :| c in survived;
    assert AnyTried(observations, id, phase, survived);
  }

  lemma AllowedIsClean(observations: seq<Observation>, id: IdentityId, phase: PlanPhase, c: Capability)
    requires Tried(observations, id, phase, c) && AlwaysAllowed(observations, id, phase, c)
    ensures c in TriedBy(observations, id, phase) && Agreed(observations, id, phase, c) &&
            NeverError(observations, id, phase, c)
  {
  }

  /** What one node contributes to a phase's findings. */
  lemma NodeReports(fs: seq<Finding>, n: Node, parent: Option<Node>, cites: Option<string>,
                    observations: seq<Observation>, phase: PlanPhase, digest: FindingKey -> string)
    requires n.observed.Some? && (n.hopIndex == 0 ==> parent.None?)
    requires var cells, kind := CellsOf(observations, n.identityId, phase), ClassifyDrift(n, parent);
             var expansion, narrowing :=
               RuleAuthorityExpansion(digest, n, kind, cells), RuleAuthorityNarrowing(digest, n, cells);
             fs == Maybe(expansion) + Maybe(RuleDelegationDrift(digest, n, kind, cites, cells)) + Maybe(narrowing) +
                   (if expansion.None? && narrowing.None? then Maybe(RuleExpectedBehavior(digest, n, cells)) else [])
    ensures NodeReported(fs, n, parent, cites, observations, phase, digest)
  {
    hide CellsOf, AboutNode, Build, Contributing, TriedBy, ClassifyDrift, KindOf;
    var gain, loss, kind := n.UnexpectedGain(), n.UnexpectedLoss(), ClassifyDrift(n, parent);
    var tried := TriedBy(observations, n.identityId, phase);
    KindIsDrift(n, parent);
    DriftMeans(n, parent);
    AllContribute(observations, n.identityId, phase);
    BuiltAboutNode(digest, AuthorityExpansion, n, kind, gain, {}, None, observations, phase, gain);
    BuiltAboutNode(digest, DelegationDrift, n, kind, gain, {}, cites, observations, phase, gain);
    BuiltAboutNode(digest, AuthorityNarrowing, n, None, {}, loss, None, observations, phase, loss);
    BuiltAboutNode(digest, ExpectedBehavior, n, None, {}, {}, None, observations, phase, tried);
  }

  function Maybe(f: Option<Finding>): seq<Finding> {
    if f.None? then [] else [f.value]
  }

  // ---- Whom findings are about -------------------------------------------------------------

  datatype Subject = OnNode(id: IdentityId) | OnEdge(edgeId: string)

  function SubjectOf(f: Finding): Subject {
    if f.edgeId.Some? then OnEdge(f.edgeId.value) else OnNode(f.identityId)
  }

  /** The findings about one node or edge, in order. */
  function Concerning(fs: seq<Finding>, s: Subject): seq<Finding> {
    if fs == [] then
      []
    else
      var last := fs[|fs| - 1];
      Concerning(fs[..|fs| - 1], s) + (if SubjectOf(last) == s then [last] else [])
  }

  lemma {:induction false} ConcerningBoth(a: seq<Finding>, b: seq<Finding>, s: Subject)
    ensures Concerning(a + b, s) == Concerning(a, s) + Concerning(b, s)
  {
    if b == [] {
      assert a + b == a;
    } else {
      assert (a + b)[..|a + b| - 1] == a + b[..|b| - 1];
      ConcerningBoth(a, b[..|b| - 1], s);
    }
  }

  lemma {:induction false} ConcerningOne(fs: seq<Finding>, own: Subject, s: Subject)
    requires forall f :: f in fs ==> SubjectOf(f) == own
    ensures Concerning(fs, s) == if s == own then fs else []
  {
    if fs != [] {
      var front, last := fs[..|fs| - 1], fs[|fs| - 1];
      assert last in fs && forall f :: f in front ==> f in fs;
      ConcerningOne(front, own, s);
      assert fs == front + [last];
    }
  }

  lemma NodeSubject(f: Finding, natural: FindingType, n: Node, drift: Option<DriftClass>, gain: AuthoritySet,
                    loss: AuthoritySet, cites: Option<string>, observations: seq<Observation>, phase: PlanPhase,
                    digest: FindingKey -> string, capabilities: AuthoritySet)
    requires n.observed.Some?
    requires AboutNode(f, natural, n, drift, gain, loss, cites, observations, phase, digest, capabilities)
    ensures SubjectOf(f) == OnNode(n.identityId)
  {
  }

  lemma NodeSubjects(fs: seq<Finding>, n: Node, parent: Option<Node>, cites: Option<string>,
                     observations: seq<Observation>, phase: PlanPhase, digest: FindingKey -> string)
    requires n.observed.Some? && NodeReported(fs, n, parent, cites, observations, phase, digest)
    ensures forall f :: f in fs ==> SubjectOf(f) == OnNode(n.identityId)
  {
    hide AboutNode, TriedBy, SubjectOf;
    var held := n.observed.value.capabilities;
    var gain, loss, kind := held - n.expected, n.expected - held, KindOf(GainOf(n), Above(parent));
    var a := if kind == Some(Originated) then 1 else 0;
    var b := if gain != {} && n.hopIndex > 0 then 1 else 0;
    forall f | f in fs ensures SubjectOf(f) == OnNode(n.identityId) {
      var i :| 0 <= i < |fs| && fs[i] == f;
      if i < a {
        NodeSubject(f, AuthorityExpansion, n, kind, gain, {}, None, observations, phase, digest, gain);
      } else if i < a + b {
        NodeSubject(f, DelegationDrift, n, kind, gain, {}, cites, observations, phase, digest, gain);
      } else if loss != {} {
        NodeSubject(f, AuthorityNarrowing, n, None, {}, loss, None, observations, phase, digest, loss);
      } else {
        NodeSubject(f, ExpectedBehavior, n, None, {}, {}, None, observations, phase, digest,
                    TriedBy(observations, n.identityId, phase));
      }
    }
  }
}
