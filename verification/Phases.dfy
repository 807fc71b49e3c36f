/** The authority analysis of a whole bundle: phase by phase, over a graph that accumulates what each phase measured. */
module Phases {
  import opened Outcomes
  import opened Models
  import opened Graphs
  import opened Trees
  import opened Sorting
  import opened Authority
  import opened Divergence
  import opened Rules
  import opened Pipeline

  /** The phases in the order of their names, which is the order they are analyzed in. */
  const BY_NAME: seq<PlanPhase> := [
    Baseline, PlanPhase.DeferredExecution, FinalPhase, PairedFreshCredential, PostDelegation, PostExpiry, PostMutation,
      PreMutation, TaskExecution]

  /** Revocation polls, deferred and paired probes and tasks have analyses of their own. */
  predicate OnAuthorityAxis(phase: PlanPhase) {
    !phase.PostMutation? && !phase.DeferredExecution? && !phase.PairedFreshCredential? && !phase.TaskExecution?
  }

  predicate Observed(observations: seq<Observation>, phase: PlanPhase) {
    exists i :: 0 <= i < |observations| && observations[i].phase == phase
  }

  /** Those of the first n phases that were observed and belong to this analysis. */
  function PresentAmong(observations: seq<Observation>, phases: seq<PlanPhase>, n: nat): seq<PlanPhase>
    requires n <= |phases|
  {
    if n == 0 then
      []
    else
      PresentAmong(observations, phases, n - 1) +
      (if Observed(observations, phases[n - 1]) && OnAuthorityAxis(phases[n - 1]) then [phases[n - 1]] else [])
  }

  function PhasesPresent(observations: seq<Observation>): seq<PlanPhase> {
    PresentAmong(observations, BY_NAME, |BY_NAME|)
  }

  /** The names the phases are sorted by. */
  function NameOf(phase: PlanPhase): string {
    match phase
    case Baseline => "BASELINE"
    case PostDelegation => "POST_DELEGATION"
    case PreMutation => "PRE_MUTATION"
    case PostMutation => "POST_MUTATION"
    case DeferredExecution => "DEFERRED_EXECUTION"
    case PairedFreshCredential => "PAIRED_FRESH_CREDENTIAL"
    case PostExpiry => "POST_EXPIRY"
    case TaskExecution => "TASK_EXECUTION"
    case FinalPhase => "FINAL"
  }

  /** One name sorts before another: where they first differ, or by being shorter. */
  ghost predicate SortsBefore(a: string, b: string) {
    exists k :: LessAt(a, b, k)
  }

  predicate LessAt(a: string, b: string, k: int) {
    0 <= k <= |a| && k < |b| && a[..k] == b[..k] && (k == |a| || a[k] < b[k])
  }

  lemma SortsTransitively(a: string, b: string, c: string)
    requires SortsBefore(a, b) && SortsBefore(b, c)
    ensures SortsBefore(a, c)
  {
    var j :| LessAt(a, b, j);
    var k :| LessAt(b, c, k);
    var n := if j < k then j else k;
    assert a[..n] == a[..j][..n] == b[..j][..n] == b[..n] == b[..k][..n] == c[..k][..n] == c[..n];
    assert LessAt(a, c, n);
  }

  lemma NextSorts(i: nat)
    requires i < |BY_NAME| - 1
    ensures SortsBefore(NameOf(BY_NAME[i]), NameOf(BY_NAME[i + 1]))
  {
    var a, b := NameOf(BY_NAME[i]), NameOf(BY_NAME[i + 1]);
    var k := if i == 3 || i == 6 then 1 else if i == 4 || i == 5 then 5 else 0;
    assert a[..k] == b[..k];
    assert LessAt(a, b, k);
  }

  lemma {:induction false} NamesSort(i: nat, j: nat)
    requires i < j < |BY_NAME|
    ensures SortsBefore(NameOf(BY_NAME[i]), NameOf(BY_NAME[j]))
  {
    hide NameOf, SortsBefore;
    NextSorts(j - 1);
    if i < j - 1 {
      NamesSort(i, j - 1);
      SortsTransitively(NameOf(BY_NAME[i]), NameOf(BY_NAME[j - 1]), NameOf(BY_NAME[j]));
    }
  }

  lemma {:induction false} PresentIs(observations: seq<Observation>, n: nat)
    requires n <= |BY_NAME|
    ensures var present := PresentAmong(observations, BY_NAME, n);
            (forall p :: p in present <==> p in BY_NAME[..n] && Observed(observations, p) && OnAuthorityAxis(p)) &&
            forall i, j :: 0 <= i < j < |present| ==> SortsBefore(NameOf(present[i]), NameOf(present[j]))
  {
    hide Observed, OnAuthorityAxis, NameOf, SortsBefore;
    if n > 0 {
      PresentIs(observations, n - 1);
      var before, last := PresentAmong(observations, BY_NAME, n - 1), BY_NAME[n - 1];
      assert BY_NAME[..n] == BY_NAME[..n - 1] + [last];
      forall i | 0 <= i < |before| ensures SortsBefore(NameOf(before[i]), NameOf(last)) {
        assert before[i] in BY_NAME[..n - 1];
        var k :| 0 <= k < n - 1 && BY_NAME[k] == before[i];
        NamesSort(k, n - 1);
      }
    }
  }

  lemma IsNamed(p: PlanPhase)
    ensures p in BY_NAME
  {
    match p
    case Baseline => assert BY_NAME[0] == p;
    case DeferredExecution => assert BY_NAME[1] == p;
    case FinalPhase => assert BY_NAME[2] == p;
    case PairedFreshCredential => assert BY_NAME[3] == p;
    case PostDelegation => assert BY_NAME[4] == p;
    case PostExpiry => assert BY_NAME[5] == p;
    case PostMutation => assert BY_NAME[6] == p;
    case PreMutation => assert BY_NAME[7] == p;
    case TaskExecution => assert BY_NAME[8] == p;
  }

  /** The phases analyzed are those of five kinds that were observed, each once, in the order of their names. */
  lemma PhasesPresentAre(observations: seq<Observation>)
    ensures forall p :: p in PhasesPresent(observations) <==>
              (exists o :: o in observations && o.phase == p) &&
              p in {Baseline, PostDelegation, PreMutation, PostExpiry, FinalPhase}
    ensures var present := PhasesPresent(observations);
            forall i, j :: 0 <= i < j < |present| ==> SortsBefore(NameOf(present[i]), NameOf(present[j]))
  {
    PresentIs(observations, |BY_NAME|);
    assert BY_NAME[..|BY_NAME|] == BY_NAME;
    forall p: PlanPhase ensures p in BY_NAME { IsNamed(p); }
    forall p ensures Observed(observations, p) <==> exists o :: o in observations && o.phase == p {
      if o :| o in observations && o.phase == p {
        var i :| 0 <= i < |observations| && observations[i] == o;
      }
    }
    hide PresentAmong, Observed, NameOf;
  }

  // ---- Accumulating --------------------------------------------------------------------

  function Accumulated(g: Graph, observations: seq<Observation>, phases: seq<PlanPhase>): (r: Graph)
    ensures |r.nodes| == |g.nodes| && r.edges == g.edges
  {
    if phases == [] then
      g else Populated(Accumulated(g, observations, phases[..|phases| - 1]), observations, phases[|phases| - 1])
  }

  predicate MeasuredAt(n: Node, observations: seq<Observation>, phase: PlanPhase) {
    CellsOf(observations, n.identityId, phase) != map[]
  }

  lemma {:induction false} AccumulatedIsTree(g: Graph, observations: seq<Observation>, phases: seq<PlanPhase>)
    requires DelegationTree(g)
    ensures DelegationTree(Accumulated(g, observations, phases)) && SameShape(g, Accumulated(g, observations, phases))
  {
    hide DelegationTree;
    if phases != [] {
      var front := phases[..|phases| - 1];
      AccumulatedIsTree(g, observations, front);
      PopulatedIsTree(Accumulated(g, observations, front), observations, phases[|phases| - 1]);
    }
  }

  lemma {:induction false} OnlyObservedDiffers(g: Graph, observations: seq<Observation>, phases: seq<PlanPhase>, i: nat)
    requires i < |g.nodes|
    ensures var n := Accumulated(g, observations, phases).nodes[i]; n == g.nodes[i].(observed := n.observed)
  {
    hide CellsOf, ObservedFrom, MatrixIdOf;
    if phases != [] { OnlyObservedDiffers(g, observations, phases[..|phases| - 1], i); }
  }

  /** A phase this analysis covers measured the node. */
  predicate Counts(n: Node, observations: seq<Observation>, phase: PlanPhase) {
    OnAuthorityAxis(phase) && MeasuredAt(n, observations, phase)
  }

  /** The last of the first k phases that measured the node; -1 if none did. */
  function LastMeasured(n: Node, observations: seq<Observation>, phases: seq<PlanPhase>, k: nat): int
    requires k <= |phases|
  {
    if k == 0 then -1 else if Counts(n, observations, phases[k - 1]) then
      k - 1 else LastMeasured(n, observations, phases, k - 1)
  }

  lemma {:induction false} LastMeasuredIs(n: Node, observations: seq<Observation>, phases: seq<PlanPhase>, k: nat)
    requires k <= |phases|
    ensures var last := LastMeasured(n, observations, phases, k);
            -1 <= last < k && (last >= 0 ==> Counts(n, observations, phases[last])) &&
            forall j :: last < j < k ==> !Counts(n, observations, phases[j])
  {
    hide Counts;
    if k > 0 { LastMeasuredIs(n, observations, phases, k - 1); }
  }

  lemma MeasuredIsObserved(n: Node, observations: seq<Observation>, phase: PlanPhase)
    requires MeasuredAt(n, observations, phase)
    ensures Observed(observations, phase)
  {
    AtPhaseExact(observations, phase);
    var c :| c in CellsOf(observations, n.identityId, phase);
    var o :| o in AtPhase(observations, phase) && o.identityId == n.identityId && o.capabilityId == c;
    var i :| 0 <= i < |observations| && observations[i] == o;
  }

  lemma Repopulated(n: Node, m: Node, observations: seq<Observation>, phase: PlanPhase)
    requires m == n.(observed := m.observed)
    ensures NodePopulated(m, observations, phase) == if MeasuredAt(n, observations, phase) then
            NodePopulated(n, observations, phase) else m
  {
    hide CellsOf, ObservedFrom, MatrixIdOf;
  }

  lemma AccumulatedNext(g: Graph, observations: seq<Observation>, phases: seq<PlanPhase>, i: nat, k: nat)
    requires i < |g.nodes| && 0 < k <= |phases|
    ensures var before := Accumulated(g, observations, PresentAmong(observations, phases, k - 1)).nodes[i];
            Accumulated(g, observations, PresentAmong(observations, phases, k)).nodes[i] ==
            if Observed(observations, phases[k - 1]) && OnAuthorityAxis(phases[k - 1])
            then NodePopulated(before, observations, phases[k - 1]) else before
  {
    hide NodePopulated, Observed, OnAuthorityAxis;
    var present := PresentAmong(observations, phases, k);
    if Observed(observations, phases[k - 1]) && OnAuthorityAxis(phases[k - 1]) {
      assert present[..|present| - 1] == PresentAmong(observations, phases, k - 1);
    } else {
      assert present == PresentAmong(observations, phases, k - 1);
    }
  }

  /** Each node carries the measurement of the last phase in order that has one for it, and of no other. */
  lemma {:induction false} LastMeasurementWins(g: Graph, observations: seq<Observation>, phases: seq<PlanPhase>, i: nat,
                                               k: nat)
    requires i < |g.nodes| && k <= |phases|
    ensures var last := LastMeasured(g.nodes[i], observations, phases, k);
            -1 <= last < k &&
            Accumulated(g, observations, PresentAmong(observations, phases, k)).nodes[i] ==
            if last < 0 then g.nodes[i] else NodePopulated(g.nodes[i], observations, phases[last])
  {
    hide NodePopulated, MeasuredAt, Observed, OnAuthorityAxis;
    LastMeasuredIs(g.nodes[i], observations, phases, k);
    if k > 0 {
      var before := PresentAmong(observations, phases, k - 1);
      LastMeasurementWins(g, observations, phases, i, k - 1);
      OnlyObservedDiffers(g, observations, before, i);
      AccumulatedNext(g, observations, phases, i, k);
      Repopulated(g.nodes[i], Accumulated(g, observations, before).nodes[i], observations, phases[k - 1]);
      if MeasuredAt(g.nodes[i], observations, phases[k - 1]) {
        MeasuredIsObserved(g.nodes[i], observations, phases[k - 1]);
      }
    }
  }

  lemma MeasurementsDiffer(n: Node, observations: seq<Observation>, p: PlanPhase, q: PlanPhase)
    requires MeasuredAt(n, observations, p) && MeasuredAt(n, observations, q)
    ensures NodePopulated(n, observations, p) == NodePopulated(n, observations, q) <==> p == q
  {
  }

  /**
   Accumulation goes by phase name, not by time: of the phases that measured a node, its measurement survives
   exactly when no phase later by name measured the node too.
   */
  lemma SurvivesIffLastByName(g: Graph, observations: seq<Observation>, i: nat, k: nat)
    requires i < |g.nodes| && k < |BY_NAME| && Counts(g.nodes[i], observations, BY_NAME[k])
    ensures Accumulated(g, observations, PhasesPresent(observations)).nodes[i] ==
            NodePopulated(g.nodes[i], observations, BY_NAME[k]) <==>
            forall j :: k < j < |BY_NAME| ==> !Counts(g.nodes[i], observations, BY_NAME[j])
  {
    hide MeasuredAt, OnAuthorityAxis, NodePopulated, Accumulated;
    var last := LastMeasured(g.nodes[i], observations, BY_NAME, |BY_NAME|);
    LastMeasuredIs(g.nodes[i], observations, BY_NAME, |BY_NAME|);
    LastMeasurementWins(g, observations, BY_NAME, i, |BY_NAME|);
    assert last >= k;
    MeasurementsDiffer(g.nodes[i], observations, BY_NAME[last], BY_NAME[k]);
    assert BY_NAME[last] == BY_NAME[k] <==> last == k;
  }

  lemma OneCellFrom(o: Observation)
    ensures CellFrom([o]) == CellResult([o.outcome], [o.sequence])
  {
    assert SortBy(Trial, [o]) == [o];
  }

  lemma OneObservation(o: Observation)
    ensures Cells([o]) == map[KeyOf(o) := CellResult([o.outcome], [o.sequence])]
  {
    hide CellFrom, SortBy;
    OneCellFrom(o);
    assert [o][..0] == [];
    assert Keyed([o], KeyOf(o)) == [o];
    assert Keys([o]) == {KeyOf(o)};
  }

  lemma OneCell(observations: seq<Observation>, o: Observation)
    requires AtPhase(observations, o.phase) == [o]
    ensures CellsOf(observations, o.identityId, o.phase) == map[o.capabilityId := CellResult([o.outcome], [o.sequence])]
  {
    hide CellsOf, Cells, AtPhase;
    OneObservation(o);
    var cells := CellsOf(observations, o.identityId, o.phase);
    forall c ensures (c in cells <==> c == o.capabilityId) &&
      (c in cells ==> cells[c] == CellResult([o.outcome], [o.sequence])) {
      CellsOfAggregate(observations, o.identityId, o.phase, c);
    }
  }

  lemma OneCellHeld(c: Capability, outcome: OutcomeClass, sequence: nat)
    ensures var cells := map[c := CellResult([outcome], [sequence])];
            NonEmpty(cells) && HeldIn(cells.Keys, cells) == if outcome.Allowed? then {c} else {}
  {
    var cells := map[c := CellResult([outcome], [sequence])];
    VerdictMeans(cells, c);
    assert cells[c].trials[0] in cells[c].trials;
    assert cells.Keys == {c};
  }

  /** One observation after delegation, then one of the same capability in the final phase. */
  ghost predicate FinalAfterDelegation(n: Node, first: Observation, second: Observation) {
    first.phase == PostDelegation && second.phase == FinalPhase && first.sequence < second.sequence &&
    first.startNs < second.startNs &&
    first.identityId == second.identityId == n.identityId && first.capabilityId == second.capabilityId &&
    first.outcome.Allowed? && second.outcome.IsDenial()
  }

  lemma MeasuredOnce(n: Node, observations: seq<Observation>, o: Observation)
    requires AtPhase(observations, o.phase) == [o] && o.identityId == n.identityId
    ensures MeasuredAt(n, observations, o.phase) && NodePopulated(n, observations, o.phase).observed.Some?
    ensures NodePopulated(n, observations, o.phase).observed.value.capabilities == if o.outcome.Allowed? then
            {o.capabilityId} else {}
  {
    hide CellsOf, HeldIn, RefusedIn, ExcludedIn, MatrixIdOf;
    OneCell(observations, o);
    OneCellHeld(o.capabilityId, o.outcome, o.sequence);
    assert o.capabilityId in CellsOf(observations, n.identityId, o.phase);
  }

  lemma PhasesOfTwo(first: Observation, second: Observation, phase: PlanPhase)
    requires first.phase != second.phase
    ensures AtPhase([first, second], phase) == if first.phase == phase then [first] else if second.phase == phase then
            [second] else []
  {
    assert [first, second][..1] == [first] && [first][..0] == [];
    assert AtPhase([first], phase) == if first.phase == phase then [first] else [];
  }

  lemma NotMeasured(n: Node, observations: seq<Observation>, phase: PlanPhase)
    requires AtPhase(observations, phase) == []
    ensures !MeasuredAt(n, observations, phase)
  {
    assert CellsOf(observations, n.identityId, phase).Keys == {};
  }

  /** So a capability found refused at the very end is still reported as held: the final measurement gives way. */
  lemma FinalGivesWay(g: Graph, i: nat, first: Observation, second: Observation)
    requires i < |g.nodes| && FinalAfterDelegation(g.nodes[i], first, second)
    ensures var all := [first, second];
            var n := Accumulated(g, all, PhasesPresent(all)).nodes[i];
            Counts(g.nodes[i], all, FinalPhase) && NodePopulated(g.nodes[i], all, FinalPhase).observed.Some? &&
            NodePopulated(g.nodes[i], all, FinalPhase).observed.value.capabilities == {} &&
            n.observed.Some? && n.observed.value.capabilities == {first.capabilityId}
  {
    hide MeasuredAt, NodePopulated, Accumulated, AtPhase, PhasesPresent;
    var all := [first, second];
    forall phase
      ensures AtPhase(all, phase) == if phase == PostDelegation then [first] else if phase == FinalPhase then
      [second] else []
    {
      PhasesOfTwo(first, second, phase);
    }
    MeasuredOnce(g.nodes[i], all, first);
    MeasuredOnce(g.nodes[i], all, second);
    assert BY_NAME[4] == PostDelegation;
    forall j | 4 < j < |BY_NAME| ensures !Counts(g.nodes[i], all, BY_NAME[j]) {
      assert BY_NAME[j] != PostDelegation && BY_NAME[j] != FinalPhase;
      NotMeasured(g.nodes[i], all, BY_NAME[j]);
    }
    SurvivesIffLastByName(g, all, i, 4);
  }

  // ---- The analysis ---------------------------------------------------------------------

  ghost function PhaseContext(g: Graph, observations: seq<Observation>, phase: PlanPhase,
                              digest: FindingKey -> string): Context {
    Context(Populated(g, observations, phase), observations, phase, digest)
  }

  /** Every phase's findings are those of that phase alone. */
  ghost predicate Reported(g: Graph, observations: seq<Observation>, phases: seq<PlanPhase>,
                           digest: FindingKey -> string, perPhase: seq<seq<Finding>>)
    requires DelegationTree(g) && |perPhase| == |phases|
  {
    forall k :: 0 <= k < |phases| ==> PhaseReported(g, observations, phases[k], digest, perPhase[k])
  }

  ghost predicate PhaseReported(g: Graph, observations: seq<Observation>, phase: PlanPhase,
                                digest: FindingKey -> string, findings: seq<Finding>)
    requires DelegationTree(g)
  {
    PopulatedIsTree(g, observations, phase);
    exists origins :: Reports(PhaseContext(g, observations, phase, digest), findings, origins) &&
                      FindingsReported(Populated(g, observations, phase), observations, phase, digest, findings,
                                       origins)
  }

  /** The k-th analyses are of every path of the graph accumulated up to and including the k-th phase. */
  ghost predicate PathsAnalyzed(g: Graph, observations: seq<Observation>, phases: seq<PlanPhase>,
                                analyses: seq<seq<PathAnalysis>>)
    requires DelegationTree(g) && |analyses| == |phases|
  {
    forall k :: 0 <= k < |phases| ==> AllAnalyzed(g, observations, phases[..k + 1], analyses[k])
  }

  ghost predicate AllAnalyzed(g: Graph, observations: seq<Observation>, phases: seq<PlanPhase>,
                              analyses: seq<PathAnalysis>)
    requires DelegationTree(g)
  {
    AccumulatedIsTree(g, observations, phases);
    EveryPathAnalyzed(Accumulated(g, observations, phases), analyses)
  }

  ghost predicate EveryPathAnalyzed(g: Graph, analyses: seq<PathAnalysis>)
    requires DelegationTree(g)
  {
    TreeIsValid(g);
    |analyses| == |PathsOf(g)| && forall i :: 0 <= i < |analyses| ==> PathAnalyzed(g, i, analyses[i])
  }

  ghost predicate PathAnalyzed(g: Graph, i: nat, analysis: PathAnalysis)
    requires DelegationTree(g) && ValidGraph(g) && i < |PathsOf(g)|
  {
    PathKnown(g, i);
    AnalysisIs(g, PathsOf(g)[i], analysis)
  }

  lemma PathKnown(g: Graph, i: nat)
    requires DelegationTree(g) && ValidGraph(g) && i < |PathsOf(g)|
    ensures PathsOf(g)[i] != [] && AllKnown(g, PathsOf(g)[i])
  {
    PathAt(g, i);
    WalkKnown(g, PathsOf(g)[i]);
  }

  /** The first paths are analyzed. */
  ghost predicate FirstAnalyzed(g: Graph, analyses: seq<PathAnalysis>)
    requires DelegationTree(g) && ValidGraph(g)
  {
    |analyses| <= |PathsOf(g)| && forall i :: 0 <= i < |analyses| ==> PathAnalyzed(g, i, analyses[i])
  }

  lemma OneAnalyzed(g: Graph, analyses: seq<PathAnalysis>, analysis: PathAnalysis)
    requires DelegationTree(g) && ValidGraph(g) && FirstAnalyzed(g, analyses) && |analyses| < |PathsOf(g)|
    requires (PathKnown(g, |analyses|); AnalysisIs(g, PathsOf(g)[|analyses|], analysis))
    ensures FirstAnalyzed(g, analyses + [analysis])
  {
    hide DelegationTree, ValidGraph, PathsOf, AnalysisIs;
    assert PathAnalyzed(g, |analyses|, analysis);
  }

  lemma AllPathsAnalyzed(g: Graph, analyses: seq<PathAnalysis>)
    requires DelegationTree(g) && ValidGraph(g) && FirstAnalyzed(g, analyses) && |analyses| == |PathsOf(g)|
    ensures EveryPathAnalyzed(g, analyses)
  {
  }

  method AnalyzeAllPaths(g: Graph) returns (analyses: seq<PathAnalysis>)
    requires DelegationTree(g)
    ensures EveryPathAnalyzed(g, analyses)
  {
    hide DelegationTree, ValidGraph, PathsOf, FirstAnalyzed, EveryPathAnalyzed, AnalysisIs;
    TreeIsValid(g);
    var paths := Paths(g);
    analyses := [];
    NoneAnalyzed(g);
    for k := 0 to |paths|
      invariant |analyses| == k && FirstAnalyzed(g, analyses)
    {
      PathKnown(g, k);
      var analysis := AnalyzePath(g, paths[k]);
      OneAnalyzed(g, analyses, analysis);
      analyses := analyses + [analysis];
    }
    AllPathsAnalyzed(g, analyses);
  }

  lemma NoneAnalyzed(g: Graph)
    requires DelegationTree(g) && ValidGraph(g)
    ensures FirstAnalyzed(g, [])
  {
  }

  method CollectPhases(observations: seq<Observation>) returns (phases: seq<PlanPhase>)
    ensures phases == PhasesPresent(observations)
  {
    phases := [];
    for n := 0 to |BY_NAME|
      invariant phases == PresentAmong(observations, BY_NAME, n)
    {
      if Observed(observations, BY_NAME[n]) && OnAuthorityAxis(BY_NAME[n]) {
        phases := phases + [BY_NAME[n]];
      }
    }
  }

  /** The k-th phase: its own findings, then every path of the graph as accumulated so far. */
  method AnalyzePhase(g: Graph, observations: seq<Observation>, phase: PlanPhase,
                      digest: FindingKey -> string, before: Graph, ghost phases: seq<PlanPhase>)
    returns (findings: seq<Finding>, paths: seq<PathAnalysis>, after: Graph)
    requires DelegationTree(g) && DistinctEdgeIds(g) && before == Accumulated(g, observations, phases)
    ensures PhaseReported(g, observations, phase, digest, findings)
    ensures after == Accumulated(g, observations, phases + [phase])
    ensures AllAnalyzed(g, observations, phases + [phase], paths)
  {
    hide DelegationTree, DistinctEdgeIds, Populated, Reports, FindingsReported, EveryPathAnalyzed, SameShape;
    assert (phases + [phase])[..|phases|] == phases;
    PopulatedIsTree(g, observations, phase);
    ghost var origins;
    findings, origins := AuthorityFindings(g, observations, phase, digest);
    assert Reports(PhaseContext(g, observations, phase, digest), findings, origins);
    after := PopulateObservedAuthority(before, observations, phase);
    AccumulatedIsTree(g, observations, phases + [phase]);
    paths := AnalyzeAllPaths(after);
  }

  /** Findings are computed from each phase alone; the path analyses and the resulting graph accumulate. */
  method AnalyzePhases(g: Graph, observations: seq<Observation>, digest: FindingKey -> string)
    returns (perPhase: seq<seq<Finding>>, analyses: seq<seq<PathAnalysis>>, accumulated: Graph)
    requires DelegationTree(g) && DistinctEdgeIds(g)
    ensures var phases := PhasesPresent(observations);
            |perPhase| == |analyses| == |phases| && Reported(g, observations, phases, digest, perPhase) &&
            PathsAnalyzed(g, observations, phases, analyses) && accumulated == Accumulated(g, observations, phases)
  {
    hide DelegationTree, DistinctEdgeIds, Accumulated, PhaseReported, AllAnalyzed, PhasesPresent;
    var phases := CollectPhases(observations);
    perPhase, analyses, accumulated := [], [], g;
    NothingAccumulated(g, observations);
    for k := 0 to |phases|
      invariant |perPhase| == |analyses| == k && accumulated == Accumulated(g, observations, phases[..k])
      invariant forall i :: 0 <= i < k ==> PhaseReported(g, observations, phases[i], digest, perPhase[i])
      invariant forall i :: 0 <= i < k ==> AllAnalyzed(g, observations, phases[..i + 1], analyses[i])
    {
      var findings, paths;
      findings, paths, accumulated := AnalyzePhase(g, observations, phases[k], digest, accumulated, phases[..k]);
      assert phases[..k] + [phases[k]] == phases[..k + 1];
      perPhase, analyses := perPhase + [findings], analyses + [paths];
    }
    assert phases[..|phases|] == phases;
  }

  lemma NothingAccumulated(g: Graph, observations: seq<Observation>)
    ensures Accumulated(g, observations, []) == g
  {
  }
}
