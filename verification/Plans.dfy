/** Execution order: the declared phases, with a policy snapshot inserted on both sides of every mutation. */
module Plans {
  datatype PhaseKind = Probe | Mutate | Poll | Wait | Defer | Task | Snapshot

  datatype PhaseSpec = PhaseSpec(name: string, kind: PhaseKind)

  datatype PlanStep = PlanStep(order: nat, phaseName: string, kind: PhaseKind, autoInserted: bool)

  const PRE_SNAPSHOT := "-pre-snapshot"

  const POST_SNAPSHOT := "-post-snapshot"

  /** What one phase contributes, from position `order` on. */
  function StepsOf(phase: PhaseSpec, order: nat): seq<PlanStep> {
    if phase.kind.Mutate? then
      [PlanStep(order, phase.name + PRE_SNAPSHOT, Snapshot, true),
       PlanStep(order + 1, phase.name, phase.kind, false),
       PlanStep(order + 2, phase.name + POST_SNAPSHOT, Snapshot, true)]
    else
      [PlanStep(order, phase.name, phase.kind, false)]
  }

  function Steps(phases: seq<PhaseSpec>): seq<PlanStep> {
    if phases == [] then
      []
    else
      var before := Steps(phases[..|phases| - 1]);
      before + StepsOf(phases[|phases| - 1], |before|)
  }

  method BuildPlan(phases: seq<PhaseSpec>) returns (steps: seq<PlanStep>)
    ensures steps == Steps(phases)
  {
    steps := [];
    var order := 0;
    for k := 0 to |phases|
      invariant steps == Steps(phases[..k]) && order == |steps|
    {
      assert phases[..k + 1][..k] == phases[..k];
      if phases[k].kind.Mutate? {
        steps := steps + [PlanStep(order, phases[k].name + PRE_SNAPSHOT, Snapshot, true)];
        order := order + 1;
      }
      steps := steps + [PlanStep(order, phases[k].name, phases[k].kind, false)];
      order := order + 1;
      if phases[k].kind.Mutate? {
        steps := steps + [PlanStep(order, phases[k].name + POST_SNAPSHOT, Snapshot, true)];
        order := order + 1;
      }
    }
    assert phases[..|phases|] == phases;
  }

  /** The steps a scenario author wrote. */
  function Authored(steps: seq<PlanStep>): seq<PhaseSpec> {
    if steps == [] then
      []
    else
      var last := steps[|steps| - 1];
      Authored(steps[..|steps| - 1]) + (if last.autoInserted then [] else [PhaseSpec(last.phaseName, last.kind)])
  }

  lemma {:induction false} AuthoredConcat(a: seq<PlanStep>, b: seq<PlanStep>)
    ensures Authored(a + b) == Authored(a) + Authored(b)
  {
    if b == [] {
      assert a + b == a;
    } else {
      assert (a + b)[..|a + b| - 1] == a + b[..|b| - 1];
      AuthoredConcat(a, b[..|b| - 1]);
    }
  }

  lemma AuthoredOf(phase: PhaseSpec, order: nat)
    ensures Authored(StepsOf(phase, order)) == [phase]
  {
    var steps := StepsOf(phase, order);
    if phase.kind.Mutate? {
      assert Authored([]) == [];
      assert steps[..1][..0] == [] && steps[..2][..1] == steps[..1] && steps[..2] == steps[..|steps| - 1];
      assert Authored(steps[..1]) == [];
      assert Authored(steps[..2]) == [phase];
    } else {
      assert steps[..0] == [];
    }
  }

  /** Planning loses nothing and keeps document order: what is not auto-inserted are the phases. */
  lemma {:induction false} PlanIsThePhases(phases: seq<PhaseSpec>)
    ensures Authored(Steps(phases)) == phases
  {
    if phases != [] {
      var front, last := phases[..|phases| - 1], phases[|phases| - 1];
      PlanIsThePhases(front);
      AuthoredConcat(Steps(front), StepsOf(last, |Steps(front)|));
      AuthoredOf(last, |Steps(front)|);
      assert phases == front + [last];
    }
  }

  /** Positions are consecutive, and nothing but snapshots is inserted. */
  lemma {:induction false} StepsNumbered(phases: seq<PhaseSpec>)
    ensures forall i :: 0 <= i < |Steps(phases)| ==>
                          Steps(phases)[i].order == i &&
                          (Steps(phases)[i].autoInserted ==> Steps(phases)[i].kind.Snapshot?)
  {
    if phases != [] { StepsNumbered(phases[..|phases| - 1]); }
  }

  /** The mutation at position i has its two snapshots right beside it. */
  ghost predicate Bracketed(steps: seq<PlanStep>, i: int) {
    0 < i < |steps| - 1 &&
    steps[i - 1] == PlanStep(i - 1, steps[i].phaseName + PRE_SNAPSHOT, Snapshot, true) &&
    steps[i + 1] == PlanStep(i + 1, steps[i].phaseName + POST_SNAPSHOT, Snapshot, true)
  }

  lemma {:induction false} MutationsBracketed(phases: seq<PhaseSpec>, i: nat)
    requires i < |Steps(phases)| && Steps(phases)[i].kind.Mutate?
    ensures Bracketed(Steps(phases), i)
  {
    var before := Steps(phases[..|phases| - 1]);
    if i < |before| {
      MutationsBracketed(phases[..|phases| - 1], i);
    }
  }

  // ---- Which mutation a snapshot belongs to ----------------------------------------------

  predicate EndsWith(s: string, suffix: string) {
    |suffix| <= |s| && s[|s| - |suffix|..] == suffix
  }

  function RemoveSuffix(s: string, suffix: string): string {
    if EndsWith(s, suffix) then s[..|s| - |suffix|] else s
  }

  /** The mutation phase a snapshot step is taken to belong to: both suffixes are stripped, one after the other. */
  function BaseName(name: string): string {
    RemoveSuffix(RemoveSuffix(name, PRE_SNAPSHOT), POST_SNAPSHOT)
  }

  /** The snapshot after a mutation always finds it again. */
  lemma PostSnapshotFinds(name: string)
    ensures BaseName(name + POST_SNAPSHOT) == name
  {
    var s := name + POST_SNAPSHOT;
    assert s[|s| - |PRE_SNAPSHOT|] == 'p';
    assert !EndsWith(s, PRE_SNAPSHOT);
    assert s[|s| - |POST_SNAPSHOT|..] == POST_SNAPSHOT;
  }

  /** The one before finds it exactly when the phase's own name does not end like a snapshot taken after one. */
  lemma PreSnapshotFindsIff(name: string)
    ensures BaseName(name + PRE_SNAPSHOT) == name <==> !EndsWith(name, POST_SNAPSHOT)
  {
    var s := name + PRE_SNAPSHOT;
    assert s[|s| - |PRE_SNAPSHOT|..] == PRE_SNAPSHOT;
    assert s[..|s| - |PRE_SNAPSHOT|] == name;
    if EndsWith(name, POST_SNAPSHOT) { assert |BaseName(s)| < |name|; }
  }

  /** A mutation phase named like this has its first snapshot taken of another phase's target, or of nothing. */
  lemma PreSnapshotCanMiss()
    ensures BaseName("rotate" + POST_SNAPSHOT + PRE_SNAPSHOT) == "rotate"
  {
    PostSnapshotFinds("rotate");
    var s := "rotate" + POST_SNAPSHOT + PRE_SNAPSHOT;
    assert s[|s| - |PRE_SNAPSHOT|..] == PRE_SNAPSHOT;
    assert s[..|s| - |PRE_SNAPSHOT|] == "rotate" + POST_SNAPSHOT;
    var t := "rotate" + POST_SNAPSHOT;
    assert t[|t| - |POST_SNAPSHOT|..] == POST_SNAPSHOT;
  }
}
