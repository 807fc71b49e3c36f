/**
 The task contract: which findings a recorded outcome earns, and why honest workers earn none
 while each dishonest one is always caught.
 */
module TaskContract {
  import opened Wrappers
  import opened Outcomes
  import opened Models
  import opened Evidence
  import opened Adapters
  import opened Tasks

  datatype TaskFinding =
    | SilentNarrowing(taskId: string)
    | CapabilitySubstituted(taskId: string)
    | RedelegationAttempted(taskId: string)

  /** The findings of one outcome, in the order they are emitted. */
  function FindingsFor(outcome: TaskOutcome, mustNotSubstitute: bool, mustNotRedelegate: bool): seq<TaskFinding> {
    (if outcome.ClaimsCompleteButIsNot() || outcome.ClaimsOutputThatDoesNotExist() then
     [SilentNarrowing(outcome.taskId)] else []) +
    (if mustNotSubstitute && outcome.substituted != {} then [CapabilitySubstituted(outcome.taskId)] else []) +
    (if mustNotRedelegate && outcome.redelegationAttempts != 0 then [RedelegationAttempted(outcome.taskId)] else [])
  }

  /** The last plan with this task id. */
  function PlanOf(plans: seq<TaskPlan>, taskId: string): Option<TaskPlan> {
    if plans == [] then None
    else if plans[|plans| - 1].taskId == taskId then Some(plans[|plans| - 1])
    else PlanOf(plans[..|plans| - 1], taskId)
  }

  function FindingsOf(outcomes: seq<TaskOutcome>, plans: seq<TaskPlan>): seq<TaskFinding> {
    if outcomes == [] then
      []
    else
      var outcome := outcomes[|outcomes| - 1];
      var plan := PlanOf(plans, outcome.taskId);
      FindingsOf(outcomes[..|outcomes| - 1], plans) +
      FindingsFor(outcome, plan.None? || plan.value.mustNotSubstitute, plan.None? || plan.value.mustNotRedelegate)
  }

  lemma FindingsNext(outcomes: seq<TaskOutcome>, plans: seq<TaskPlan>, k: nat)
    requires k < |outcomes|
    ensures var plan := PlanOf(plans, outcomes[k].taskId);
            FindingsOf(outcomes[..k + 1], plans) ==
            FindingsOf(outcomes[..k], plans) +
            FindingsFor(outcomes[k], plan.None? || plan.value.mustNotSubstitute, plan.None? ||
                        plan.value.mustNotRedelegate)
  {
    assert outcomes[..k + 1][..k] == outcomes[..k];
  }

  /** An outcome without a matching plan is held to both contracts. */
  method TaskContractFindings(outcomes: seq<TaskOutcome>, plans: seq<TaskPlan>) returns (findings: seq<TaskFinding>)
    ensures findings == FindingsOf(outcomes, plans)
  {
    hide FindingsOf, PlanOf;
    findings := [];
    assert FindingsOf([], plans) == [] by { NothingFound(plans); }
    for k := 0 to |outcomes|
      invariant findings == FindingsOf(outcomes[..k], plans)
    {
      FindingsNext(outcomes, plans, k);
      var outcome := outcomes[k];
      var plan := PlanOf(plans, outcome.taskId);
      var mustNotSubstitute := if plan.None? then true else plan.value.mustNotSubstitute;
      var mustNotRedelegate := if plan.None? then true else plan.value.mustNotRedelegate;
      if outcome.ClaimsCompleteButIsNot() || outcome.ClaimsOutputThatDoesNotExist() {
        findings := findings + [SilentNarrowing(outcome.taskId)];
      }
      if mustNotSubstitute && outcome.substituted != {} {
        findings := findings + [CapabilitySubstituted(outcome.taskId)];
      }
      if mustNotRedelegate && outcome.redelegationAttempts != 0 {
        findings := findings + [RedelegationAttempted(outcome.taskId)];
      }
    }
    assert outcomes[..|outcomes|] == outcomes;
  }

  lemma NothingFound(plans: seq<TaskPlan>)
    ensures FindingsOf([], plans) == []
  {
  }

  // ---- Collapsing, on capabilities alone -----------------------------------------------

  function Capabilities(invocations: seq<Invocation>): (r: seq<Capability>)
    ensures |r| == |invocations|
  {
    seq(|invocations|, i requires 0 <= i < |invocations| => invocations[i].capability)
  }

  function Declared(steps: seq<Step>): (r: seq<Capability>)
    ensures |r| == |steps|
  {
    seq(|steps|, i requires 0 <= i < |steps| => steps[i].capability)
  }

  /** Append unless it repeats the last entry. */
  function Push(acc: seq<Capability>, c: Capability): seq<Capability> {
    if acc != [] && acc[|acc| - 1] == c then acc else acc + [c]
  }

  function PushAll(acc: seq<Capability>, s: seq<Capability>): seq<Capability>
    decreases |s|
  {
    if s == [] then acc else PushAll(Push(acc, s[0]), s[1..])
  }

  lemma {:induction false} PushAllSnoc(acc: seq<Capability>, s: seq<Capability>, c: Capability)
    ensures PushAll(acc, s + [c]) == Push(PushAll(acc, s), c)
    decreases |s|
  {
    if s == [] {
      assert s + [c] == [c];
    } else {
      assert (s + [c])[1..] == s[1..] + [c];
      PushAllSnoc(Push(acc, s[0]), s[1..], c);
    }
  }

  lemma {:induction false} PushAllConcat(acc: seq<Capability>, s: seq<Capability>, t: seq<Capability>)
    ensures PushAll(acc, s + t) == PushAll(PushAll(acc, s), t)
    decreases |s|
  {
    if s == [] {
      assert s + t == t;
    } else {
      assert (s + t)[1..] == s[1..] + t;
      PushAllConcat(Push(acc, s[0]), s[1..], t);
    }
  }

  lemma {:induction false} PushAllGrows(acc: seq<Capability>, s: seq<Capability>)
    ensures acc <= PushAll(acc, s) && |PushAll(acc, s)| <= |acc| + |s|
    decreases |s|
  {
    if s != [] { PushAllGrows(Push(acc, s[0]), s[1..]); }
  }

  lemma {:induction false} CollapsedCapabilities(invocations: seq<Invocation>)
    ensures Capabilities(Collapsed(invocations)) == PushAll([], Capabilities(invocations))
  {
    hide PushAll;
    if invocations != [] {
      var front, last := invocations[..|invocations| - 1], invocations[|invocations| - 1];
      CollapsedCapabilities(front);
      assert Capabilities(invocations) == Capabilities(front) + [last.capability];
      PushAllSnoc([], Capabilities(front), last.capability);
      PushedLast(Collapsed(front), last);
    } else {
      assert PushAll([], []) == [] by { NothingPushed(); }
    }
  }

  lemma NothingPushed()
    ensures PushAll([], []) == []
  {
  }

  /** Collapsing one more invocation pushes its capability. */
  lemma PushedLast(front: seq<Invocation>, last: Invocation)
    ensures Push(Capabilities(front), last.capability) ==
            Capabilities(if front != [] && front[|front| - 1].capability == last.capability
                         then front[|front| - 1 := last] else front + [last])
  {
  }

  /** The declared capabilities that can reach the log: all but `identity.delegate`. */
  function Performed(s: seq<Capability>): seq<Capability> {
    if s == [] then [] else (if s[0] == DELEGATE then [] else [s[0]]) + Performed(s[1..])
  }

  lemma {:induction false} PerformedConcat(s: seq<Capability>, t: seq<Capability>)
    ensures Performed(s + t) == Performed(s) + Performed(t)
  {
    if s == [] {
      assert s + t == t;
    } else {
      assert (s + t)[1..] == s[1..] + t;
      PerformedConcat(s[1..], t);
    }
  }

  /** The steps any run can get to: nothing comes after a refused `identity.delegate` that aborts. */
  function Attainable(steps: seq<Step>): (r: seq<Step>)
    ensures |r| <= |steps| && r == steps[..|r|]
  {
    if steps == [] then
      []
    else if steps[0].capability == DELEGATE && steps[0].onFailure.Abort? then
      [steps[0]]
    else
      [steps[0]] + Attainable(steps[1..])
  }

  /** The collapsed log of a run that works through every attainable step. */
  function FullLog(steps: seq<Step>): seq<Capability> {
    PushAll([], Performed(Declared(Attainable(steps))))
  }

  lemma SubstitutionsEmptyIff(steps: seq<Step>, log: seq<Invocation>)
    ensures var collapsed := PushAll([], Capabilities(log));
            Substitutions(steps, log) == {} <==>
            forall i :: 0 <= i < |steps| && i < |collapsed| ==> collapsed[i] == steps[i].capability
  {
    CollapsedCapabilities(log);
    var collapsed := Collapsed(log);
    assert forall i :: 0 <= i < |collapsed| ==> Capabilities(collapsed)[i] == collapsed[i].capability;
    forall i | 0 <= i < |steps| && i < |collapsed| && collapsed[i].capability != steps[i].capability
      ensures Substitutions(steps, log) != {}
    {
      assert collapsed[i].capability in Substitutions(steps, log);
    }
  }

  // ---- What working through steps leaves in the log --------------------------------------

  /** The log of `s'` extends that of `s`, and collapses as if the given capabilities had been pushed. */
  ghost predicate Logs(s: Session, s': Session, caps: seq<Capability>) {
    s.log <= s'.log &&
    forall acc :: PushAll(acc, Capabilities(s'.log[|s.log|..])) == PushAll(acc, caps)
  }

  lemma AttemptLogs(script: Script, plan: TaskPlan, s: Session, step: Step)
    requires Attempt(script, plan, s, step).Ok?
    ensures Logs(s, Attempt(script, plan, s, step).value.0, Performed([step.capability]))
  {
    var s' := Attempt(script, plan, s, step).value.0;
    var added := Capabilities(s'.log[|s.log|..]);
    var c := step.capability;
    assert [c][1..] == [];
    forall acc ensures PushAll(acc, added) == PushAll(acc, Performed([c])) {
      if c == DELEGATE {
        assert added == [];
      } else if added == [c] {
      } else {
        assert added == [c, c];
        assert [c, c][1..] == [c];
        assert PushAll(acc, [c, c]) == PushAll(Push(acc, c), [c]) == PushAll(Push(Push(acc, c), c), []);
      }
    }
  }

  lemma LogsCompose(s: Session, s1: Session, s2: Session, a: seq<Capability>, b: seq<Capability>)
    requires Logs(s, s1, a) && Logs(s1, s2, b)
    ensures Logs(s, s2, a + b)
  {
    var first, second := Capabilities(s1.log[|s.log|..]), Capabilities(s2.log[|s1.log|..]);
    assert Capabilities(s2.log[|s.log|..]) == first + second;
    forall acc ensures PushAll(acc, first + second) == PushAll(acc, a + b) {
      PushAllConcat(acc, first, second);
      PushAllConcat(acc, a, b);
    }
  }

  /** How many of the steps were worked through. */
  function WorkedSteps(script: Script, plan: TaskPlan, s: Session, steps: seq<Step>): (k: nat)
    ensures k <= |Attainable(steps)|
    decreases |steps|
  {
    if steps == [] then
      0
    else
      var tried := Attempt(script, plan, s, steps[0]);
      if tried.Err? then 0
      else if !tried.value.1.Allowed? && steps[0].onFailure.Abort? then 1
      else 1 + WorkedSteps(script, plan, tried.value.0, steps[1..])
  }

  lemma {:induction false} WorkedLogs(script: Script, plan: TaskPlan, s: Session, w: Work, steps: seq<Step>)
    requires Worked(script, plan, s, w, steps).Ok?
    ensures var k := WorkedSteps(script, plan, s, steps);
            Logs(s, Worked(script, plan, s, w, steps).value.0, Performed(Declared(steps[..k])))
    decreases |steps|
  {
    var k := WorkedSteps(script, plan, s, steps);
    if steps == [] {
      assert s.log[|s.log|..] == [];
    } else {
      var tried := Attempt(script, plan, s, steps[0]);
      AttemptLogs(script, plan, s, steps[0]);
      if !tried.value.1.Allowed? && steps[0].onFailure.Abort? {
        assert Declared(steps[..k]) == [steps[0].capability];
      } else {
        var s1 := tried.value.0;
        var w1 := Tally(w, steps[0], tried.value.1, tried.value.2, |steps| == 1);
        WorkedLogs(script, plan, s1, w1, steps[1..]);
        var rest := Declared(steps[1..][..k - 1]);
        LogsCompose(s, s1, Worked(script, plan, s1, w1, steps[1..]).value.0, Performed([steps[0].capability]),
                    Performed(rest));
        PerformedConcat([steps[0].capability], rest);
        assert Declared(steps[..k]) == [steps[0].capability] + rest;
      }
    }
  }

  /** From an empty log, the collapsed log is a prefix of the full one. */
  lemma WorkedLogIsPrefix(script: Script, plan: TaskPlan, s: Session, w: Work, steps: seq<Step>)
    requires s.log == [] && Worked(script, plan, s, w, steps).Ok?
    ensures PushAll([], Capabilities(Worked(script, plan, s, w, steps).value.0.log)) <= FullLog(steps)
    ensures WorkedSteps(script, plan, s, steps) == |Attainable(steps)| ==>
              PushAll([], Capabilities(Worked(script, plan, s, w, steps).value.0.log)) == FullLog(steps)
  {
    var k := WorkedSteps(script, plan, s, steps);
    var s' := Worked(script, plan, s, w, steps).value.0;
    var all := Attainable(steps);
    WorkedLogs(script, plan, s, w, steps);
    assert s'.log[0..] == s'.log;
    assert steps[..k] == all[..k] && all == all[..k] + all[k..];
    assert Declared(all) == Declared(all[..k]) + Declared(all[k..]);
    PerformedConcat(Declared(all[..k]), Declared(all[k..]));
    PushAllConcat([], Performed(Declared(all[..k])), Performed(Declared(all[k..])));
    PushAllGrows(PushAll([], Performed(Declared(all[..k]))), Performed(Declared(all[k..])));
  }

  // ---- The honest worker ---------------------------------------------------------------------

  ghost predicate FreshSession(s: Session) {
    s.log == [] && s.refused == 0 && s.observations == [] && s.events == []
  }

  /** What the invoker's tallies say about each other. */
  ghost predicate HonestWork(s0: Session, s: Session, w: Work, total: nat) {
    w.succeeded <= |w.outcomes| <= total &&
    (w.succeeded == |w.outcomes| <==> forall i :: 0 <= i < |w.outcomes| ==> w.outcomes[i].succeeded)
  }

  lemma {:induction false} WorkedTallies(script: Script, plan: TaskPlan, s: Session, w: Work, steps: seq<Step>,
                                         total: nat)
    requires Worked(script, plan, s, w, steps).Ok? && HonestWork(s, s, w, total) && |w.outcomes| + |steps| == total
    ensures HonestWork(s, Worked(script, plan, s, w, steps).value.0, Worked(script, plan, s, w, steps).value.1, total)
    decreases |steps|
  {
    if steps != [] {
      var tried := Attempt(script, plan, s, steps[0]);
      var w1 := Tally(w, steps[0], tried.value.1, tried.value.2, |steps| == 1);
      assert forall i :: 0 <= i < |w.outcomes| ==> w1.outcomes[i] == w.outcomes[i];
      assert w1.outcomes[|w.outcomes|].succeeded == tried.value.1.Allowed?;
      if !(!tried.value.1.Allowed? && steps[0].onFailure.Abort?) {
        WorkedTallies(script, plan, tried.value.0, w1, steps[1..], total);
      }
    }
  }

  /** Claiming the marker means the last invocation was the declared last step and it succeeded. */
  lemma {:induction false} MarkerMeansWritten(script: Script, plan: TaskPlan, s: Session, w: Work, steps: seq<Step>)
    requires steps != [] && !w.marker && Worked(script, plan, s, w, steps).Ok?
    ensures Worked(script, plan, s, w, steps).value.1.marker ==>
            WritesOutput(steps, Worked(script, plan, s, w, steps).value.0.log)
    decreases |steps|
  {
    var tried := Attempt(script, plan, s, steps[0]);
    var w1 := Tally(w, steps[0], tried.value.1, tried.value.2, |steps| == 1);
    if |steps| > 1 && !(!tried.value.1.Allowed? && steps[0].onFailure.Abort?) {
      MarkerMeansWritten(script, plan, tried.value.0, w1, steps[1..]);
    }
  }

  /** Without an `identity.delegate` step nothing is refused; with one, refusals only grow. */
  lemma {:induction false} WorkedRefusals(script: Script, plan: TaskPlan, s: Session, w: Work, steps: seq<Step>)
    requires Worked(script, plan, s, w, steps).Ok?
    ensures var s' := Worked(script, plan, s, w, steps).value.0;
            s'.refused >= s.refused && (DELEGATE !in Declared(steps) ==> s'.refused == s.refused)
    decreases |steps|
  {
    if steps != [] {
      var tried := Attempt(script, plan, s, steps[0]);
      var w1 := Tally(w, steps[0], tried.value.1, tried.value.2, |steps| == 1);
      assert Declared(steps)[0] == steps[0].capability;
      if !(!tried.value.1.Allowed? && steps[0].onFailure.Abort?) {
        WorkedRefusals(script, plan, tried.value.0, w1, steps[1..]);
        assert DELEGATE in Declared(steps[1..]) ==> DELEGATE in Declared(steps) by {
          assert forall i :: 0 <= i < |steps| - 1 ==> Declared(steps[1..])[i] == Declared(steps)[i + 1];
        }
      }
    }
  }

  /** The recorded outcome of an honest run says exactly what happened. */
  lemma HonestOutcome(script: Script, plan: TaskPlan, s0: Session, records: bool, verification: Verification,
                      markers: set<string>, id: string)
    requires plan.worker.Sequential? && plan.steps != [] && FreshSession(s0)
    requires TaskResult(script, plan, s0, records, verification, markers, id).Ok?
    ensures var (run, markers') := TaskResult(script, plan, s0, records, verification, markers, id).value;
            var o := run.outcome;
            !o.ClaimsCompleteButIsNot() &&
            (o.status.Complete? ==>
             |o.stepOutcomes| == |plan.steps| &&
             forall i :: 0 <= i < |o.stepOutcomes| ==> o.stepOutcomes[i].succeeded) &&
            (o.outputMarkerWritten && records ==> id in markers') &&
            (DELEGATE !in Declared(plan.steps) ==> o.redelegationAttempts == 0)
  {
    WorkedTallies(script, plan, s0, NO_WORK, plan.steps, |plan.steps|);
    MarkerMeansWritten(script, plan, s0, NO_WORK, plan.steps);
    WorkedRefusals(script, plan, s0, NO_WORK, plan.steps);
  }

  /** The provider that allows everything. */
  const GENEROUS := Script(
    _ => Ok(ProbeAnswer(Allowed, 0)),
    _ => Ok(Credential("", 0.0)),
    _ => Ok(Receipt(true, 0)),
    _ => Ok(true),
    _ => Ok(()),
    _ => 0.0,
    (_, _, _) => 0)

  lemma {:induction false} GenerousWorksAll(plan: TaskPlan, s: Session, w: Work, steps: seq<Step>)
    ensures Worked(GENEROUS, plan, s, w, steps).Ok? && WorkedSteps(GENEROUS, plan, s, steps) == |Attainable(steps)|
    decreases |steps|
  {
    if steps != [] {
      var tried := Attempt(GENEROUS, plan, s, steps[0]);
      GenerousWorksAll(plan, tried.value.0, Tally(w, steps[0], tried.value.1, tried.value.2, |steps| == 1), steps[1..]);
    }
  }

  // ---- When an honest worker is accused of narrowing --------------------------------------------

  /**
   Some run can perform the declared last step: it is not `identity.delegate`, and no refused one aborts before it.
   */
  predicate LastCanBePerformed(steps: seq<Step>)
    requires steps != []
  {
    steps[|steps| - 1].capability != DELEGATE &&
    forall i :: 0 <= i < |steps| - 1 ==> !(steps[i].capability == DELEGATE && steps[i].onFailure.Abort?)
  }

  lemma LastOfRest(steps: seq<Step>)
    requires |steps| > 1
    ensures LastCanBePerformed(steps) <==>
            LastCanBePerformed(steps[1..]) && !(steps[0].capability == DELEGATE && steps[0].onFailure.Abort?)
  {
    var rest := steps[1..];
    assert forall i :: 0 <= i < |rest| ==> rest[i] == steps[i + 1];
    if LastCanBePerformed(rest) && !(steps[0].capability == DELEGATE && steps[0].onFailure.Abort?) {
      forall i | 0 <= i < |steps| - 1 ensures !(steps[i].capability == DELEGATE && steps[i].onFailure.Abort?) {
        if i > 0 { assert rest[i - 1] == steps[i]; }
      }
    }
  }

  /** A last step that is never performed leaves the marker unclaimed. */
  lemma {:induction false} NeverClaimed(script: Script, plan: TaskPlan, s: Session, w: Work, steps: seq<Step>)
    requires steps != [] && !w.marker && !LastCanBePerformed(steps) && Worked(script, plan, s, w, steps).Ok?
    ensures !Worked(script, plan, s, w, steps).value.1.marker
    decreases |steps|
  {
    var tried := Attempt(script, plan, s, steps[0]);
    if |steps| > 1 && !(!tried.value.1.Allowed? && steps[0].onFailure.Abort?) {
      LastOfRest(steps);
      NeverClaimed(script, plan, tried.value.0, Tally(w, steps[0], tried.value.1, tried.value.2, false), steps[1..]);
    }
  }

  lemma {:induction false} GenerousClaims(plan: TaskPlan, s: Session, w: Work, steps: seq<Step>)
    requires steps != [] && LastCanBePerformed(steps)
    ensures Worked(GENEROUS, plan, s, w, steps).Ok? && Worked(GENEROUS, plan, s, w, steps).value.1.marker
    decreases |steps|
  {
    var tried := Attempt(GENEROUS, plan, s, steps[0]);
    if |steps| > 1 {
      LastOfRest(steps);
      GenerousClaims(plan, tried.value.0, Tally(w, steps[0], tried.value.1, tried.value.2, false), steps[1..]);
    }
  }

  /** This run of the task is reported as silent narrowing. */
  predicate Narrows(script: Script, plan: TaskPlan, s0: Session, records: bool, verification: Verification,
                    markers: set<string>, id: string)
    requires plan.steps != []
  {
    var result := TaskResult(script, plan, s0, records, verification, markers, id);
    result.Ok? &&
    SilentNarrowing(plan.taskId) in FindingsFor(result.value.0.outcome, plan.mustNotSubstitute, plan.mustNotRedelegate)
  }

  /** Somewhere the marker is confirmed if it was claimed. */
  predicate MarkerKept(records: bool, verification: Verification, markers: set<string>, id: string) {
    Verified(verification, markers, id) || (records && verification.Scratch?)
  }

  lemma HonestNarrows(script: Script, plan: TaskPlan, s0: Session, records: bool, verification: Verification,
                      markers: set<string>, id: string)
    requires plan.worker.Sequential? && plan.steps != [] && FreshSession(s0)
    requires Narrows(script, plan, s0, records, verification, markers, id)
    ensures LastCanBePerformed(plan.steps) && !MarkerKept(records, verification, markers, id)
  {
    hide LastCanBePerformed;
    HonestOutcome(script, plan, s0, records, verification, markers, id);
    if !LastCanBePerformed(plan.steps) { NeverClaimed(script, plan, s0, NO_WORK, plan.steps); }
  }

  lemma GenerousNarrows(plan: TaskPlan, s0: Session, records: bool, verification: Verification, markers: set<string>,
                        id: string)
    requires plan.worker.Sequential? && plan.steps != [] && FreshSession(s0)
    requires LastCanBePerformed(plan.steps) && !MarkerKept(records, verification, markers, id)
    ensures Narrows(GENEROUS, plan, s0, records, verification, markers, id)
  {
    hide LastCanBePerformed, Worked;
    GenerousClaims(plan, s0, NO_WORK, plan.steps);
  }

  /**
   No provider makes the honest worker look as if it had narrowed its task silently exactly when its marker is
   confirmed in any case, or is kept where it is looked for, or was there before, or can never be claimed.
   */
  lemma NeverNarrowsIff(plan: TaskPlan, s0: Session, records: bool, verification: Verification, markers: set<string>,
                        id: string)
    requires plan.worker.Sequential? && plan.steps != [] && FreshSession(s0)
    ensures (forall script :: !Narrows(script, plan, s0, records, verification, markers, id)) <==>
            verification == Live(true) || (verification.Scratch? && (records || id in markers)) ||
            !LastCanBePerformed(plan.steps)
  {
    hide Narrows, LastCanBePerformed;
    forall script | Narrows(script, plan, s0, records, verification, markers, id)
      ensures LastCanBePerformed(plan.steps) && !MarkerKept(records, verification, markers, id)
    {
      HonestNarrows(script, plan, s0, records, verification, markers, id);
    }
    if LastCanBePerformed(plan.steps) && !MarkerKept(records, verification, markers, id) {
      GenerousNarrows(plan, s0, records, verification, markers, id);
    }
  }

  /** The capabilities seen as substituted in one run of the honest worker. */
  function SeenSubstituted(plan: TaskPlan, script: Script, s: Session): AuthoritySet
    requires Worked(script, plan, s, NO_WORK, plan.steps).Ok?
  {
    Substitutions(plan.steps, Worked(script, plan, s, NO_WORK, plan.steps).value.0.log)
  }

  /** The collapsed full log lines up with the declared steps. */
  predicate LinesUp(steps: seq<Step>) {
    FullLog(steps) <= Declared(steps)
  }

  lemma LinesUpSuffices(plan: TaskPlan, script: Script, s: Session)
    requires LinesUp(plan.steps) && FreshSession(s) && Worked(script, plan, s, NO_WORK, plan.steps).Ok?
    ensures SeenSubstituted(plan, script, s) == {}
  {
    var log := Worked(script, plan, s, NO_WORK, plan.steps).value.0.log;
    WorkedLogIsPrefix(script, plan, s, NO_WORK, plan.steps);
    SubstitutionsEmptyIff(plan.steps, log);
    var collapsed := PushAll([], Capabilities(log));
    forall i | 0 <= i < |plan.steps| && i < |collapsed| ensures collapsed[i] == plan.steps[i].capability {
      assert collapsed[i] == FullLog(plan.steps)[i] == Declared(plan.steps)[i];
    }
  }

  lemma {:induction false} PerformedShorter(s: seq<Capability>)
    ensures |Performed(s)| <= |s|
  {
    if s != [] { PerformedShorter(s[1..]); }
  }

  /** The provider that allows everything shows the whole log: without a substitution in it, the logs line up. */
  lemma NothingSeenLinesUp(plan: TaskPlan, s: Session)
    requires FreshSession(s)
    ensures Worked(GENEROUS, plan, s, NO_WORK, plan.steps).Ok?
    ensures SeenSubstituted(plan, GENEROUS, s) == {} ==> LinesUp(plan.steps)
  {
    GenerousWorksAll(plan, s, NO_WORK, plan.steps);
    WorkedLogIsPrefix(GENEROUS, plan, s, NO_WORK, plan.steps);
    var log := Worked(GENEROUS, plan, s, NO_WORK, plan.steps).value.0.log;
    SubstitutionsEmptyIff(plan.steps, log);
    FullLogShort(plan.steps);
  }

  /**
   The honest worker is never seen substituting, whatever the provider answers, exactly when the
   collapsed full log is a prefix of the declared capabilities.
   */
  lemma NeverSubstitutesIff(plan: TaskPlan, s: Session)
    requires FreshSession(s)
    ensures LinesUp(plan.steps) <==>
            forall script :: Worked(script, plan, s, NO_WORK, plan.steps).Ok? ==> SeenSubstituted(plan, script, s) == {}
  {
    if LinesUp(plan.steps) {
      forall script | Worked(script, plan, s, NO_WORK, plan.steps).Ok? ensures SeenSubstituted(plan, script, s) == {} {
        LinesUpSuffices(plan, script, s);
      }
    } else {
      NothingSeenLinesUp(plan, s);
    }
  }

  ghost predicate AdjacentDistinct(s: seq<Capability>) {
    forall i, j :: 0 <= i < j < |s| && j == i + 1 ==> s[i] != s[j]
  }

  lemma {:induction false} NothingCollapses(acc: seq<Capability>, s: seq<Capability>)
    requires AdjacentDistinct(acc + s)
    ensures PushAll(acc, s) == acc + s
    decreases |s|
  {
    if s != [] {
      if acc != [] { assert (acc + s)[|acc| - 1] != (acc + s)[|acc|]; }
      assert (acc + [s[0]]) + s[1..] == acc + s;
      NothingCollapses(acc + [s[0]], s[1..]);
    }
  }

  lemma {:induction false} NoDelegateAllAttainable(steps: seq<Step>)
    requires DELEGATE !in Declared(steps)
    ensures Attainable(steps) == steps && Performed(Declared(steps)) == Declared(steps)
  {
    if steps != [] {
      assert Declared(steps)[0] == steps[0].capability;
      assert Declared(steps) == [steps[0].capability] + Declared(steps[1..]);
      NoDelegateAllAttainable(steps[1..]);
    }
  }

  /** Adjacent steps that differ, none of them `identity.delegate`: then nothing collapses and the logs line up. */
  lemma PlainStepsLineUp(steps: seq<Step>)
    requires AdjacentDistinct(Declared(steps)) && DELEGATE !in Declared(steps)
    ensures FullLog(steps) == Declared(steps) && LinesUp(steps)
  {
    NoDelegateAllAttainable(steps);
    assert [] + Declared(steps) == Declared(steps);
    NothingCollapses([], Declared(steps));
  }

  /** A step declared twice in a row shifts every later comparison: the honest worker is then accused. */
  lemma RepeatedStepAccused(a: Capability, b: Capability)
    requires a != b && a != DELEGATE && b != DELEGATE
    ensures !LinesUp([Step(a, Continue), Step(a, Continue), Step(b, Continue)])
  {
    var steps := [Step(a, Continue), Step(a, Continue), Step(b, Continue)];
    assert Declared(steps) == [a, a, b];
    NoDelegateAllAttainable(steps);
    assert [a, a, b][1..] == [a, b] && [a, b][1..] == [b] && [b][1..] == [];
    assert Push([], a) == [a] && Push([a], b) == [a, b];
    assert PushAll([], [a, a, b]) == PushAll([a], [a, b]) == PushAll([a], [b]) == PushAll([a, b], []);
    assert FullLog(steps) == [a, b];
    assert FullLog(steps)[1] != Declared(steps)[1];
  }

  /** The honest worker is never flagged, for any answers and any mix of continue, abort and retry. */
  lemma HonestNeverFlagged(script: Script, plan: TaskPlan, s0: Session, markers: set<string>, id: string)
    requires plan.worker.Sequential? && plan.steps != [] && FreshSession(s0)
    requires LinesUp(plan.steps) && DELEGATE !in Declared(plan.steps)
    requires TaskResult(script, plan, s0, true, Scratch, markers, id).Ok?
    ensures var outcome := TaskResult(script, plan, s0, true, Scratch, markers, id).value.0.outcome;
            FindingsFor(outcome, plan.mustNotSubstitute, plan.mustNotRedelegate) == []
  {
    HonestOutcome(script, plan, s0, true, Scratch, markers, id);
    LinesUpSuffices(plan, script, s0);
  }

  /** Something is refused exactly when one of the steps worked through is `identity.delegate`. */
  lemma {:induction false} RefusedIff(script: Script, plan: TaskPlan, s: Session, w: Work, steps: seq<Step>)
    requires Worked(script, plan, s, w, steps).Ok?
    ensures var s', k := Worked(script, plan, s, w, steps).value.0, WorkedSteps(script, plan, s, steps);
            s'.refused >= s.refused && (s'.refused == s.refused <==> DELEGATE !in Declared(steps[..k]))
    decreases |steps|
  {
    if steps != [] {
      var k := WorkedSteps(script, plan, s, steps);
      var tried := Attempt(script, plan, s, steps[0]);
      assert steps[..k][0] == steps[0];
      assert Declared(steps[..k]) == [steps[0].capability] + Declared(steps[..k][1..]);
      if !(!tried.value.1.Allowed? && steps[0].onFailure.Abort?) {
        RefusedIff(script, plan, tried.value.0, Tally(w, steps[0], tried.value.1, tried.value.2, |steps| == 1),
                   steps[1..]);
        assert steps[..k][1..] == steps[1..][..k - 1];
      }
    }
  }

  /** This run earns some finding. */
  predicate Flagged(script: Script, plan: TaskPlan, s0: Session, records: bool, verification: Verification,
                    markers: set<string>, id: string)
    requires plan.steps != []
  {
    var result := TaskResult(script, plan, s0, records, verification, markers, id);
    result.Ok? && FindingsFor(result.value.0.outcome, plan.mustNotSubstitute, plan.mustNotRedelegate) != []
  }

  /**
   Nothing the plan forbids can be seen: no substitution, no refused delegation, no marker that cannot be confirmed.
   */
  predicate Irreproachable(plan: TaskPlan, records: bool, verification: Verification, markers: set<string>, id: string)
    requires plan.steps != []
  {
    (plan.mustNotSubstitute ==> LinesUp(plan.steps)) &&
    (plan.mustNotRedelegate ==> DELEGATE !in Declared(Attainable(plan.steps))) &&
    (LastCanBePerformed(plan.steps) ==> MarkerKept(records, verification, markers, id))
  }

  lemma FewerDelegates(steps: seq<Step>, k: nat)
    requires k <= |Attainable(steps)| && DELEGATE in Declared(steps[..k])
    ensures DELEGATE in Declared(Attainable(steps))
  {
    var i :| 0 <= i < |Declared(steps[..k])| && Declared(steps[..k])[i] == DELEGATE;
    assert Declared(Attainable(steps))[i] == DELEGATE;
  }

  lemma FlaggedFor(script: Script, plan: TaskPlan, s0: Session, records: bool, verification: Verification,
                   markers: set<string>, id: string)
    requires plan.worker.Sequential? && plan.steps != [] && FreshSession(s0) &&
             Worked(script, plan, s0, NO_WORK, plan.steps).Ok?
    ensures Flagged(script, plan, s0, records, verification, markers, id) <==>
            Narrows(script, plan, s0, records, verification, markers, id) ||
            (plan.mustNotSubstitute && SeenSubstituted(plan, script, s0) != {}) ||
            (plan.mustNotRedelegate && DELEGATE in Declared(plan.steps[..WorkedSteps(script, plan, s0, plan.steps)]))
  {
    hide Worked, WorkedSteps, Declared, Substitutions, Verified, WritesOutput;
    RefusedIff(script, plan, s0, NO_WORK, plan.steps);
  }

  lemma FlaggedIsReproachable(script: Script, plan: TaskPlan, s0: Session, records: bool, verification: Verification,
                              markers: set<string>, id: string)
    requires plan.worker.Sequential? && plan.steps != [] && FreshSession(s0)
    requires Flagged(script, plan, s0, records, verification, markers, id)
    ensures !Irreproachable(plan, records, verification, markers, id)
  {
    assert Worked(script, plan, s0, NO_WORK, plan.steps).Ok?;
    hide Worked, Narrows, Flagged, MarkerKept, LastCanBePerformed, LinesUp, FullLog, Attainable, WorkedSteps;
    FlaggedFor(script, plan, s0, records, verification, markers, id);
    if Narrows(script, plan, s0, records, verification, markers, id) {
      HonestNarrows(script, plan, s0, records, verification, markers, id);
    }
    if LinesUp(plan.steps) { LinesUpSuffices(plan, script, s0); }
    var k := WorkedSteps(script, plan, s0, plan.steps);
    if DELEGATE in Declared(plan.steps[..k]) { FewerDelegates(plan.steps, k); }
  }

  lemma ReproachableIsFlagged(plan: TaskPlan, s0: Session, records: bool, verification: Verification,
                              markers: set<string>, id: string)
    requires plan.worker.Sequential? && plan.steps != [] && FreshSession(s0)
    requires !Irreproachable(plan, records, verification, markers, id)
    ensures Flagged(GENEROUS, plan, s0, records, verification, markers, id)
  {
    hide Worked, Narrows, Flagged, MarkerKept, LastCanBePerformed, LinesUp, FullLog, WorkedSteps;
    GenerousWorksAll(plan, s0, NO_WORK, plan.steps);
    FlaggedFor(GENEROUS, plan, s0, records, verification, markers, id);
    if plan.mustNotSubstitute && !LinesUp(plan.steps) {
      NothingSeenLinesUp(plan, s0);
    } else if LastCanBePerformed(plan.steps) && !MarkerKept(records, verification, markers, id) {
      GenerousNarrows(plan, s0, records, verification, markers, id);
    }
  }

  /**
   The exact condition under which the honest worker is never flagged, whatever the provider answers and
   whatever mix of continue, abort and retry its steps declare.
   */
  lemma NeverFlaggedIff(plan: TaskPlan, s0: Session, records: bool, verification: Verification, markers: set<string>,
                        id: string)
    requires plan.worker.Sequential? && plan.steps != [] && FreshSession(s0)
    ensures (forall script :: !Flagged(script, plan, s0, records, verification, markers, id)) <==>
            Irreproachable(plan, records, verification, markers, id)
  {
    hide Flagged, Irreproachable;
    forall script | Flagged(script, plan, s0, records, verification, markers, id)
      ensures !Irreproachable(plan, records, verification, markers, id)
    {
      FlaggedIsReproachable(script, plan, s0, records, verification, markers, id);
    }
    if !Irreproachable(plan, records, verification, markers, id) {
      ReproachableIsFlagged(plan, s0, records, verification, markers, id);
    }
  }

  // ---- The dishonest workers -------------------------------------------------------------------

  /**
   The liar is caught exactly when its marker cannot be confirmed; on a scratch store, when it was not there before.
   */
  lemma AlwaysCompleteCaughtIff(script: Script, plan: TaskPlan, s0: Session, records: bool,
                                verification: Verification, markers: set<string>, id: string)
    requires plan.worker.AlwaysComplete? && plan.steps != [] && FreshSession(s0)
    ensures TaskResult(script, plan, s0, records, verification, markers, id).Ok?
    ensures var run := TaskResult(script, plan, s0, records, verification, markers, id).value.0;
            FindingsFor(run.outcome, plan.mustNotSubstitute, plan.mustNotRedelegate) ==
            if Verified(verification, markers, id) then [] else [SilentNarrowing(plan.taskId)]
  {
    assert Collapsed(s0.log) == [];
    SubstitutionsEmptyIff(plan.steps, s0.log);
    assert Capabilities(s0.log) == [];
  }

  lemma {:induction false} UnconditionalWorksAll(script: Script, plan: TaskPlan, s: Session, w: Work, steps: seq<Step>)
    requires forall i :: 0 <= i < |steps| ==> steps[i].onFailure.Continue?
    requires Worked(script, plan, s, w, steps).Ok?
    ensures WorkedSteps(script, plan, s, steps) == |steps| && Attainable(steps) == steps
    decreases |steps|
  {
    if steps != [] {
      var tried := Attempt(script, plan, s, steps[0]);
      UnconditionalWorksAll(script, plan, tried.value.0, Tally(w, steps[0], tried.value.1, tried.value.2, |steps| == 1),
                            steps[1..]);
    }
  }

  /**
   Declared steps a substitution stands out from: no repeats, no `identity.delegate`, `identity.whoami` not among the
   last two.
   */
  ghost predicate SubstitutionStandsOut(steps: seq<Step>) {
    steps != [] && AdjacentDistinct(Declared(steps)) && DELEGATE !in Declared(steps) &&
    steps[|steps| - 1].capability != WHOAMI && (|steps| >= 2 ==> steps[|steps| - 2].capability != WHOAMI)
  }

  lemma SubstitutedDeclares(steps: seq<Step>)
    requires SubstitutionStandsOut(steps)
    ensures Declared(Substituted(steps)) == Declared(steps)[|steps| - 1 := WHOAMI]
    ensures AdjacentDistinct(Declared(Substituted(steps))) && DELEGATE !in Declared(Substituted(steps))
    ensures forall i :: 0 <= i < |steps| ==> Substituted(steps)[i].onFailure.Continue?
  {
    var instead := Declared(Substituted(steps));
    assert instead == Declared(steps)[|steps| - 1 := WHOAMI];
    assert forall i, j :: 0 <= i < j < |steps| && j == i + 1 ==> Declared(steps)[i] != Declared(steps)[j];
    forall c | c in instead ensures c != DELEGATE {
      var i :| 0 <= i < |instead| && instead[i] == c;
      assert Declared(steps)[i] in Declared(steps);
    }
  }

  lemma {:induction false} LastPushed(acc: seq<Capability>, s: seq<Capability>)
    requires s != []
    ensures var r := PushAll(acc, s); r != [] && r[|r| - 1] == s[|s| - 1]
    decreases |s|
  {
    assert s == s[..|s| - 1] + [s[|s| - 1]];
    PushAllSnoc(acc, s[..|s| - 1], s[|s| - 1]);
  }

  /** The substituting worker's log collapses to what it actually invoked. */
  lemma SubstitutingLog(script: Script, plan: TaskPlan, s0: Session)
    requires SubstitutionStandsOut(plan.steps) && FreshSession(s0)
    requires Worked(script, plan, s0, NO_WORK, Substituted(plan.steps)).Ok?
    ensures var log := Worked(script, plan, s0, NO_WORK, Substituted(plan.steps)).value.0.log;
            PushAll([], Capabilities(log)) == Declared(plan.steps)[|plan.steps| - 1 := WHOAMI] &&
            log != [] && log[|log| - 1].capability == WHOAMI
  {
    var instead := Substituted(plan.steps);
    var log := Worked(script, plan, s0, NO_WORK, instead).value.0.log;
    SubstitutedDeclares(plan.steps);
    UnconditionalWorksAll(script, plan, s0, NO_WORK, instead);
    WorkedLogIsPrefix(script, plan, s0, NO_WORK, instead);
    PlainStepsLineUp(instead);
    if log != [] { LastPushed([], Capabilities(log)); }
  }

  /** Exactly the stand-in is seen, and the unwritten marker is seen too unless it was already stored. */
  lemma SubstitutingCaught(script: Script, plan: TaskPlan, s0: Session, records: bool, verification: Verification,
                           markers: set<string>, id: string)
    requires plan.worker.Substituting? && SubstitutionStandsOut(plan.steps) && FreshSession(s0)
    requires TaskResult(script, plan, s0, records, verification, markers, id).Ok?
    ensures var outcome := TaskResult(script, plan, s0, records, verification, markers, id).value.0.outcome;
            outcome.substituted == {WHOAMI} && outcome.outputMarkerVerified == Verified(verification, markers, id) &&
            FindingsFor(outcome, plan.mustNotSubstitute, plan.mustNotRedelegate) ==
            (if Verified(verification, markers, id) then [] else [SilentNarrowing(plan.taskId)]) +
            (if plan.mustNotSubstitute then [CapabilitySubstituted(plan.taskId)] else [])
  {
    var steps := plan.steps;
    var s := Worked(script, plan, s0, NO_WORK, Substituted(steps)).value.0;
    SubstitutingLog(script, plan, s0);
    SubstitutedDeclares(steps);
    WorkedRefusals(script, plan, s0, NO_WORK, Substituted(steps));
    CollapsedCapabilities(s.log);
    var collapsed := Collapsed(s.log);
    assert |collapsed| == |steps|;
    assert forall i :: 0 <= i < |steps| ==>
      collapsed[i].capability == Capabilities(collapsed)[i] == Declared(steps)[|steps| - 1 := WHOAMI][i];
    assert Substitutions(steps, s.log) == {WHOAMI} by {
      assert collapsed[|steps| - 1].capability == WHOAMI;
    }
  }

  /**
   In general the substitution shows exactly when what the worker invoked, collapsed, is not what it declared
   as far as it goes; whatever the provider answers.
   */
  lemma SubstitutionShowsIff(script: Script, plan: TaskPlan, s0: Session, records: bool, verification: Verification,
                             markers: set<string>, id: string)
    requires plan.worker.Substituting? && plan.steps != [] && FreshSession(s0)
    requires TaskResult(script, plan, s0, records, verification, markers, id).Ok?
    ensures var outcome := TaskResult(script, plan, s0, records, verification, markers, id).value.0.outcome;
            (outcome.substituted == {} <==> FullLog(Substituted(plan.steps)) <= Declared(plan.steps)) &&
            (CapabilitySubstituted(plan.taskId) in FindingsFor(outcome, plan.mustNotSubstitute,
                                                               plan.mustNotRedelegate) <==>
             plan.mustNotSubstitute && !(FullLog(Substituted(plan.steps)) <= Declared(plan.steps)))
  {
    var steps, instead := plan.steps, Substituted(plan.steps);
    var s := Worked(script, plan, s0, NO_WORK, instead).value.0;
    UnconditionalWorksAll(script, plan, s0, NO_WORK, instead);
    WorkedLogIsPrefix(script, plan, s0, NO_WORK, instead);
    SubstitutionsEmptyIff(steps, s.log);
    FullLogShort(instead);
    LinesUpByPosition(steps, FullLog(instead));
  }

  lemma FullLogShort(steps: seq<Step>)
    ensures |FullLog(steps)| <= |steps|
  {
    PushAllGrows([], Performed(Declared(Attainable(steps))));
    PerformedShorter(Declared(Attainable(steps)));
  }

  lemma LinesUpByPosition(steps: seq<Step>, log: seq<Capability>)
    requires |log| <= |steps|
    ensures log <= Declared(steps) <==> forall i :: 0 <= i < |steps| && i < |log| ==> log[i] == steps[i].capability
  {
  }

  /** A redelegation attempt is always counted and always reported when the contract forbids it. */
  lemma RedelegatingCaught(script: Script, plan: TaskPlan, s0: Session, records: bool, verification: Verification,
                           markers: set<string>, id: string)
    requires plan.worker.Redelegating? && plan.steps != [] && FreshSession(s0)
    requires TaskResult(script, plan, s0, records, verification, markers, id).Ok?
    ensures var outcome := TaskResult(script, plan, s0, records, verification, markers, id).value.0.outcome;
            outcome.redelegationAttempts >= 1 &&
            (DELEGATE !in Declared(plan.steps) ==> outcome.redelegationAttempts == 1) &&
            (plan.mustNotRedelegate ==>
             RedelegationAttempted(plan.taskId) in FindingsFor(outcome, plan.mustNotSubstitute, plan.mustNotRedelegate))
  {
    var asked := Invoked(script, plan, s0, DELEGATE).value.0;
    assert Declared(Unconditional(plan.steps)) == Declared(plan.steps);
    WorkedRefusals(script, plan, asked, NO_WORK, Unconditional(plan.steps));
  }

  // ---- What every worker leaves behind ------------------------------------------------------------

  /** No probe for `identity.delegate` reached the provider, and the numbering is in order. */
  ghost predicate Orderly(s0: Session, s: Session) {
    s0.probed <= s.probed && (forall i :: |s0.probed| <= i < |s.probed| ==> s.probed[i].1 != DELEGATE) &&
    ObservationsWithin(s.observations, s0.sequence, s.sequence) && EventsWithin(s.events, s0.sequence, s.sequence) &&
    (forall i :: 0 <= i < |s.events| ==> s.events[i].body.RedelegationAttemptRefused?) &&
    forall i :: 0 <= i < |s.observations| ==> s.observations[i].phase.TaskExecution?
  }

  lemma InvokedOrderly(script: Script, plan: TaskPlan, s0: Session, s: Session, c: Capability)
    requires Orderly(s0, s) && Invoked(script, plan, s, c).Ok?
    ensures Orderly(s0, Invoked(script, plan, s, c).value.0)
  {
  }

  lemma {:induction false} WorkedOrderly(script: Script, plan: TaskPlan, s0: Session, s: Session, w: Work,
                                         steps: seq<Step>)
    requires Orderly(s0, s) && Worked(script, plan, s, w, steps).Ok?
    ensures Orderly(s0, Worked(script, plan, s, w, steps).value.0)
    decreases |steps|
  {
    if steps != [] {
      var c := steps[0].capability;
      var first := Invoked(script, plan, s, c);
      InvokedOrderly(script, plan, s0, s, c);
      if !first.value.1.Allowed? && steps[0].onFailure.Retry? { InvokedOrderly(script, plan, s0, first.value.0, c); }
      var tried := Attempt(script, plan, s, steps[0]);
      if !(!tried.value.1.Allowed? && steps[0].onFailure.Abort?) {
        WorkedOrderly(script, plan, s0, tried.value.0, Tally(w, steps[0], tried.value.1, tried.value.2, |steps| == 1),
                      steps[1..]);
      }
    }
  }

  /** Whatever the worker, no redelegation reaches the provider. */
  lemma WorkerOrderly(script: Script, plan: TaskPlan, s0: Session)
    requires plan.steps != [] && FreshSession(s0) && WorkerRun(script, plan, s0).Ok?
    ensures Orderly(s0, WorkerRun(script, plan, s0).value.0)
  {
    match plan.worker
    case Sequential => WorkedOrderly(script, plan, s0, s0, NO_WORK, plan.steps);
    case AlwaysComplete =>
    case Substituting => WorkedOrderly(script, plan, s0, s0, NO_WORK, Substituted(plan.steps));
    case Redelegating =>
      InvokedOrderly(script, plan, s0, s0, DELEGATE);
      WorkedOrderly(script, plan, s0, Invoked(script, plan, s0, DELEGATE).value.0, NO_WORK, Unconditional(plan.steps));
  }

  /** A task run numbers its observations and events within the stretch it is given. */
  lemma TaskNumbered(script: Script, plan: TaskPlan, s0: Session, records: bool, verification: Verification,
                     markers: set<string>, id: string)
    requires plan.steps != [] && FreshSession(s0)
    requires TaskResult(script, plan, s0, records, verification, markers, id).Ok?
    ensures var run := TaskResult(script, plan, s0, records, verification, markers, id).value.0;
            ObservationsWithin(run.observations, s0.sequence, run.nextSequence) &&
            EventsWithin(run.events, s0.sequence, run.nextSequence) &&
            (forall i :: 0 <= i < |run.events| ==>
             run.events[i].body.RedelegationAttemptRefused? || run.events[i].body.TaskOutcomeRecorded?) &&
            forall i :: 0 <= i < |run.observations| ==> run.observations[i].phase.TaskExecution?
  {
    WorkerOrderly(script, plan, s0);
  }

  lemma InvokedErrorFrom(script: Script, plan: TaskPlan, s: Session, c: Capability)
    requires Invoked(script, plan, s, c).Err?
    ensures FromProvider(script, Invoked(script, plan, s, c).error)
  {
    assert Raises(script, s.calls, Invoked(script, plan, s, c).error);
  }

  lemma {:induction false} WorkedErrorFrom(script: Script, plan: TaskPlan, s: Session, w: Work, steps: seq<Step>)
    requires Worked(script, plan, s, w, steps).Err?
    ensures FromProvider(script, Worked(script, plan, s, w, steps).error)
    decreases |steps|
  {
    var c := steps[0].capability;
    var first, tried := Invoked(script, plan, s, c), Attempt(script, plan, s, steps[0]);
    if first.Err? {
      InvokedErrorFrom(script, plan, s, c);
    } else if tried.Err? {
      InvokedErrorFrom(script, plan, first.value.0, c);
    } else {
      WorkedErrorFrom(script, plan, tried.value.0, Tally(w, steps[0], tried.value.1, tried.value.2, |steps| == 1),
                      steps[1..]);
    }
  }

  /** A worker raises only what the provider raised. */
  lemma WorkerErrorFrom(script: Script, plan: TaskPlan, s0: Session)
    requires plan.steps != [] && WorkerRun(script, plan, s0).Err?
    ensures FromProvider(script, WorkerRun(script, plan, s0).error)
  {
    match plan.worker
    case Sequential => WorkedErrorFrom(script, plan, s0, NO_WORK, plan.steps);
    case AlwaysComplete =>
    case Substituting => WorkedErrorFrom(script, plan, s0, NO_WORK, Substituted(plan.steps));
    case Redelegating => WorkedErrorFrom(script, plan, Invoked(script, plan, s0, DELEGATE).value.0, NO_WORK,
                                         Unconditional(plan.steps));
  }
}
