/**
 Task workers and the runner that confines them: every invocation goes through one invoker,
 whose own log decides what the worker did.
 */
module Tasks {
  import opened Wrappers
  import opened Outcomes
  import opened Models
  import opened Evidence
  import opened Adapters

  /** Never performed: the invoker records and refuses it. */
  const DELEGATE := Capability("identity.delegate")

  /** The substituting worker's stand-in for the output write. */
  const WHOAMI := Capability("identity.whoami")

  datatype OnFailure = Continue | Abort | Retry

  datatype Step = Step(capability: Capability, onFailure: OnFailure)

  datatype Worker = Sequential | AlwaysComplete | Substituting | Redelegating

  datatype TaskPlan = TaskPlan(
    phaseName: string,
    taskId: string,
    worker: Worker,
    targetIdentity: IdentityId,
    steps: seq<Step>,
    mustNotSubstitute: bool,
    mustNotRedelegate: bool)

  datatype Invocation = Invocation(capability: Capability, outcome: OutcomeClass)

  // ---- The invoker ----------------------------------------------------------------

  /** What the runner has recorded so far, and how many calls the provider has answered. */
  datatype Session = Session(
    calls: nat,
    log: seq<Invocation>,
    refused: nat,
    sequence: nat,
    observations: seq<Observation>,
    events: seq<Event>,
    probed: seq<(IdentityId, Capability)>)

  function Observed(plan: TaskPlan, c: Capability, sequence: nat, answer: ProbeAnswer): Observation {
    Observation(sequence, TaskExecution, "pm-" + plan.phaseName, plan.targetIdentity, c, 1, answer.startNs,
                answer.outcome)
  }

  /**
   One invocation: `identity.delegate` is refused before it reaches the provider, anything else is probed and logged.
   */
  function Invoked(script: Script, plan: TaskPlan, s: Session,
                   c: Capability): Result<(Session, OutcomeClass), RunError> {
    if c == DELEGATE then
      Ok((s.(refused := s.refused + 1, sequence := s.sequence + 1,
             events := s.events + [Event(s.sequence, RedelegationAttemptRefused(plan.taskId))]), DeniedExplicit))
    else
      var answer := script.probes(s.calls);
      if answer.Err? then
        Err(answer.error)
      else
        Ok((s.(calls := s.calls + 1, sequence := s.sequence + 1, log := s.log + [Invocation(c, answer.value.outcome)],
               observations := s.observations + [Observed(plan, c, s.sequence, answer.value)],
               probed := s.probed + [(plan.targetIdentity, c)]), answer.value.outcome))
  }

  class Invoker {
    const adapter: Adapter
    const plan: TaskPlan
    var log: seq<Invocation>
    var redelegationAttempts: nat
    var sequence: nat
    var observations: seq<Observation>
    var events: seq<Event>

    constructor (adapter: Adapter, plan: TaskPlan, sequenceStart: nat)
      ensures this.adapter == adapter && this.plan == plan
      ensures Current() == Session(adapter.calls, [], 0, sequenceStart, [], [], adapter.probed)
    {
      this.adapter, this.plan := adapter, plan;
      log, redelegationAttempts, sequence, observations, events := [], 0, sequenceStart, [], [];
    }

    function Current(): Session
      reads this, adapter
    {
      Session(adapter.calls, log, redelegationAttempts, sequence, observations, events, adapter.probed)
    }

    method Invoke(c: Capability) returns (r: Result<OutcomeClass, RunError>)
      modifies this, adapter`calls, adapter`probed
      ensures var spec := Invoked(adapter.script, plan, old(Current()), c);
              if spec.Ok? then r == Ok(spec.value.1) && Current() == spec.value.0 else r == Err(spec.error)
    {
      if c == DELEGATE {
        redelegationAttempts := redelegationAttempts + 1;
        events := events + [Event(sequence, RedelegationAttemptRefused(plan.taskId))];
        sequence := sequence + 1;
        return Ok(DeniedExplicit);
      }
      var answer := adapter.Probe(plan.targetIdentity, c);
      if answer.Err? {
        return Err(answer.error);
      }
      observations := observations + [Observed(plan, c, sequence, answer.value)];
      sequence := sequence + 1;
      log := log + [Invocation(c, answer.value.outcome)];
      return Ok(answer.value.outcome);
    }
  }

  // ---- What working through steps does -----------------------------------------------

  /** One declared step: tried once, and once more when it fails under `retry`. */
  function Attempt(script: Script, plan: TaskPlan, s: Session,
                   step: Step): Result<(Session, OutcomeClass, nat), RunError> {
    var first := Invoked(script, plan, s, step.capability);
    if first.Err? then
      Err(first.error)
    else if !first.value.1.Allowed? && step.onFailure.Retry? then
      var second := Invoked(script, plan, first.value.0, step.capability);
      if second.Err? then Err(second.error) else Ok((second.value.0, second.value.1, 2))
    else
      Ok((first.value.0, first.value.1, 1))
  }

  /** The tallies of a worker that reports what happened. */
  datatype Work = Work(outcomes: seq<StepOutcome>, attempted: nat, succeeded: nat, insufficient: bool, marker: bool)

  const NO_WORK := Work([], 0, 0, false, false)

  /** One more step done; `last` when it is the task's output write. */
  function Tally(w: Work, step: Step, outcome: OutcomeClass, attempts: nat, last: bool): Work {
    var ok := outcome.Allowed?;
    Work(w.outcomes + [StepOutcome(step.capability, ok, outcome)], w.attempted + attempts,
         w.succeeded + (if ok then 1 else 0),
         w.insufficient || !ok, w.marker || (ok && last))
  }

  /** Working through the steps in order, stopping after a failed `abort` step. */
  function Worked(script: Script, plan: TaskPlan, s: Session, w: Work,
                  steps: seq<Step>): Result<(Session, Work), RunError>
    decreases |steps|
  {
    if steps == [] then
      Ok((s, w))
    else
      var tried := Attempt(script, plan, s, steps[0]);
      if tried.Err? then
        Err(tried.error)
      else
        var w' := Tally(w, steps[0], tried.value.1, tried.value.2, |steps| == 1);
        if !tried.value.1.Allowed? && steps[0].onFailure.Abort? then Ok((tried.value.0, w'))
        else Worked(script, plan, tried.value.0, w', steps[1..])
  }

  function StatusFromCounts(total: nat, succeeded: nat): TaskStatus {
    if succeeded == total then Complete else if succeeded == 0 then Failed else Partial
  }

  /** The worker's own report; the runner overwrites the fields it does not trust. */
  function Draft(plan: TaskPlan, status: TaskStatus, attempted: nat, succeeded: nat, outcomes: seq<StepOutcome>,
                 insufficient: bool, marker: bool): TaskOutcome
  {
    TaskOutcome(plan.taskId, plan.targetIdentity, status, |plan.steps|, attempted, succeeded, outcomes, insufficient,
                {}, 0, marker, false)
  }

  function Report(plan: TaskPlan, w: Work): TaskOutcome {
    Draft(plan, StatusFromCounts(|plan.steps|, w.succeeded), w.attempted, w.succeeded, w.outcomes, w.insufficient,
          w.marker)
  }

  /** The same steps, never retried and never aborting. */
  function Unconditional(steps: seq<Step>): (r: seq<Step>)
    ensures |r| == |steps|
  {
    seq(|steps|, i requires 0 <= i < |steps| => Step(steps[i].capability, Continue))
  }

  /** What the substituting worker invokes: every step but the last, then `identity.whoami`. */
  function Substituted(steps: seq<Step>): (r: seq<Step>)
    requires steps != []
    ensures |r| == |steps|
  {
    Unconditional(steps[..|steps| - 1]) + [Step(WHOAMI, Continue)]
  }

  /** What each worker does and claims. */
  function WorkerRun(script: Script, plan: TaskPlan, s: Session): Result<(Session, TaskOutcome), RunError>
    requires plan.steps != []
  {
    var n := |plan.steps|;
    match plan.worker
    case Sequential =>
      var done := Worked(script, plan, s, NO_WORK, plan.steps);
      if done.Err? then Err(done.error) else Ok((done.value.0, Report(plan, done.value.1)))
    case AlwaysComplete =>
      Ok((s, Draft(plan, Complete, n, n, [], false, true)))
    case Substituting =>
      var done := Worked(script, plan, s, NO_WORK, Substituted(plan.steps));
      if done.Err? then Err(done.error)
      else Ok((done.value.0, Draft(plan, Complete, n, n, Renamed(done.value.1.outcomes, plan.steps), false, true)))
    case Redelegating =>
      var asked := Invoked(script, plan, s, DELEGATE);
      if asked.Err? then
        Err(asked.error)
      else
        var done := Worked(script, plan, asked.value.0, NO_WORK, Unconditional(plan.steps));
        if done.Err? then Err(done.error) else Ok((done.value.0, Report(plan, done.value.1)))
  }

  /** The substituting worker reports every outcome under the declared step's capability. */
  function Renamed(outcomes: seq<StepOutcome>, steps: seq<Step>): seq<StepOutcome> {
    seq(|outcomes|, i requires 0 <= i < |outcomes| =>
      if i < |steps| then outcomes[i].(capability := steps[i].capability) else outcomes[i])
  }

  // ---- The four workers ----------------------------------------------------------------

  method RunSequential(invoker: Invoker, steps: seq<Step>) returns (r: Result<TaskOutcome, RunError>)
    requires steps == invoker.plan.steps
    modifies invoker, invoker.adapter`calls, invoker.adapter`probed
    ensures var spec := Worked(invoker.adapter.script, invoker.plan, old(invoker.Current()), NO_WORK, steps);
            if spec.Ok? then
              r == Ok(Report(invoker.plan, spec.value.1)) && invoker.Current() == spec.value.0 else r == Err(spec.error)
  {
    var work := NO_WORK;
    var index := 0;
    while index < |steps|
      invariant 0 <= index <= |steps|
      invariant Worked(invoker.adapter.script, invoker.plan, invoker.Current(), work, steps[index..])
             == Worked(invoker.adapter.script, invoker.plan, old(invoker.Current()), NO_WORK, steps)
    {
      var step := steps[index];
      assert steps[index..][0] == step && steps[index..][1..] == steps[index + 1..];
      var attempts := 1;
      var result := invoker.Invoke(step.capability);
      if result.Err? {
        return Err(result.error);
      }
      if !result.value.Allowed? && step.onFailure.Retry? {
        attempts := 2;
        result := invoker.Invoke(step.capability);
        if result.Err? {
          return Err(result.error);
        }
      }
      work := Tally(work, step, result.value, attempts, index == |steps| - 1);
      index := index + 1;
      if !result.value.Allowed? && step.onFailure.Abort? {
        break;
      }
    }
    return Ok(Report(invoker.plan, work));
  }

  /** Invokes nothing at all and reports success. */
  method RunAlwaysComplete(plan: TaskPlan) returns (r: Result<TaskOutcome, RunError>)
    ensures r == Ok(Draft(plan, Complete, |plan.steps|, |plan.steps|, [], false, true))
  {
    return Ok(Draft(plan, Complete, |plan.steps|, |plan.steps|, [], false, true));
  }

  method RunSubstituting(invoker: Invoker, steps: seq<Step>) returns (r: Result<TaskOutcome, RunError>)
    requires steps == invoker.plan.steps && steps != []
    modifies invoker, invoker.adapter`calls, invoker.adapter`probed
    ensures var spec :=
            Worked(invoker.adapter.script, invoker.plan, old(invoker.Current()), NO_WORK, Substituted(steps));
            if spec.Ok?
            then r == Ok(Draft(invoker.plan, Complete, |steps|, |steps|, Renamed(spec.value.1.outcomes, steps), false,
                               true)) &&
                 invoker.Current() == spec.value.0
            else r == Err(spec.error)
  {
    ghost var instead := Substituted(steps);
    ghost var work := NO_WORK;
    var stepOutcomes: seq<StepOutcome> := [];
    for index := 0 to |steps|
      invariant Worked(invoker.adapter.script, invoker.plan, invoker.Current(), work, instead[index..])
             == Worked(invoker.adapter.script, invoker.plan, old(invoker.Current()), NO_WORK, instead)
      invariant |work.outcomes| == index && stepOutcomes == Renamed(work.outcomes, steps)
    {
      assert instead[index..][0] == instead[index] && instead[index..][1..] == instead[index + 1..];
      var invoked := if index == |steps| - 1 then WHOAMI else steps[index].capability;
      assert instead[index] == Step(invoked, Continue);
      var result := invoker.Invoke(invoked);
      if result.Err? {
        return Err(result.error);
      }
      stepOutcomes := stepOutcomes + [StepOutcome(steps[index].capability, result.value.Allowed?, result.value)];
      work := Tally(work, instead[index], result.value, 1, index == |steps| - 1);
    }
    return Ok(Draft(invoker.plan, Complete, |steps|, |steps|, stepOutcomes, false, true));
  }

  method RunRedelegating(invoker: Invoker, steps: seq<Step>) returns (r: Result<TaskOutcome, RunError>)
    requires steps == invoker.plan.steps
    modifies invoker, invoker.adapter`calls, invoker.adapter`probed
    ensures var asked := Invoked(invoker.adapter.script, invoker.plan, old(invoker.Current()), DELEGATE);
            asked.Ok? &&
            var spec := Worked(invoker.adapter.script, invoker.plan, asked.value.0, NO_WORK, Unconditional(steps));
            if spec.Ok? then
              r == Ok(Report(invoker.plan, spec.value.1)) && invoker.Current() == spec.value.0 else r == Err(spec.error)
  {
    var _ := invoker.Invoke(DELEGATE);
    ghost var asked := invoker.Current();
    ghost var all := Unconditional(steps);
    var work := NO_WORK;
    for index := 0 to |steps|
      invariant Worked(invoker.adapter.script, invoker.plan, invoker.Current(), work, all[index..])
             == Worked(invoker.adapter.script, invoker.plan, asked, NO_WORK, all)
    {
      assert all[index..][0] == all[index] && all[index..][1..] == all[index + 1..];
      var result := invoker.Invoke(steps[index].capability);
      if result.Err? {
        return Err(result.error);
      }
      work := Tally(work, Step(steps[index].capability, Continue), result.value, 1, index == |steps| - 1);
    }
    return Ok(Report(invoker.plan, work));
  }

  method RunWorker(invoker: Invoker) returns (r: Result<TaskOutcome, RunError>)
    requires invoker.plan.steps != []
    modifies invoker, invoker.adapter`calls, invoker.adapter`probed
    ensures var spec := WorkerRun(invoker.adapter.script, invoker.plan, old(invoker.Current()));
            if spec.Ok? then r == Ok(spec.value.1) && invoker.Current() == spec.value.0 else r == Err(spec.error)
  {
    match invoker.plan.worker
    case Sequential => r := RunSequential(invoker, invoker.plan.steps);
    case AlwaysComplete => r := RunAlwaysComplete(invoker.plan);
    case Substituting => r := RunSubstituting(invoker, invoker.plan.steps);
    case Redelegating => r := RunRedelegating(invoker, invoker.plan.steps);
  }

  // ---- Objective checks ------------------------------------------------------------------

  /** Consecutive invocations of one capability count once, with the latest outcome. */
  method CollapseConsecutiveRepeats(invocations: seq<Invocation>) returns (collapsed: seq<Invocation>)
    ensures collapsed == Collapsed(invocations)
  {
    collapsed := [];
    for k := 0 to |invocations|
      invariant collapsed == Collapsed(invocations[..k])
    {
      assert invocations[..k + 1][..k] == invocations[..k];
      if collapsed != [] && collapsed[|collapsed| - 1].capability == invocations[k].capability {
        collapsed := collapsed[|collapsed| - 1 := invocations[k]];
      } else {
        collapsed := collapsed + [invocations[k]];
      }
    }
    assert invocations[..|invocations|] == invocations;
  }

  function Collapsed(invocations: seq<Invocation>): (r: seq<Invocation>) {
    if invocations == [] then
      []
    else
      var front, last := Collapsed(invocations[..|invocations| - 1]), invocations[|invocations| - 1];
      if front != [] && front[|front| - 1].capability == last.capability then
        front[|front| - 1 := last] else front + [last]
  }

  /** The invoked capabilities that differ from the declared step at the same position. */
  function Substitutions(steps: seq<Step>, invocations: seq<Invocation>): AuthoritySet {
    var collapsed := Collapsed(invocations);
    set i | 0 <= i < |steps| && i < |collapsed| &&
    collapsed[i].capability != steps[i].capability :: collapsed[i].capability
  }

  method ComputeSubstitutions(steps: seq<Step>, invocations: seq<Invocation>) returns (r: AuthoritySet)
    ensures r == Substitutions(steps, invocations)
  {
    var collapsed := CollapseConsecutiveRepeats(invocations);
    r := set i | 0 <= i < |steps| && i < |collapsed| &&
    collapsed[i].capability != steps[i].capability :: collapsed[i].capability;
  }

  /** How the adapter can confirm a marker: a live read, the scratch store, or not at all. */
  datatype Verification = Live(confirms: bool) | Scratch | Unavailable

  function MarkerId(runId: string, taskId: string): string {
    runId + ":" + taskId
  }

  /** The adapter's scratch markers, with the hooks it offers. */
  class MarkerStore {
    const records: bool
    const verification: Verification
    var markers: set<string>

    constructor (records: bool, verification: Verification)
      ensures this.records == records && this.verification == verification && markers == {}
    {
      this.records, this.verification, markers := records, verification, {};
    }
  }

  /** The marker exists only if the last invocation was the declared last step, and it succeeded. */
  predicate WritesOutput(steps: seq<Step>, log: seq<Invocation>)
    requires steps != []
  {
    log != [] && log[|log| - 1].capability == steps[|steps| - 1].capability && log[|log| - 1].outcome.Allowed?
  }

  function MarkersAfter(records: bool, markers: set<string>, id: string, written: bool): set<string> {
    if written && records then markers + {id} else markers
  }

  function Verified(verification: Verification, markers: set<string>, id: string): bool {
    match verification
    case Live(confirms) => confirms
    case Scratch => id in markers
    case Unavailable => false
  }

  datatype TaskRun = TaskRun(observations: seq<Observation>, events: seq<Event>, outcome: TaskOutcome,
                             nextSequence: nat)

  /** The outcome the runner records: the worker's draft with the three objective fields overwritten. */
  function Judged(plan: TaskPlan, s: Session, draft: TaskOutcome, verified: bool): TaskOutcome {
    draft.(redelegationAttempts := s.refused, substituted := Substitutions(plan.steps, s.log),
           outputMarkerVerified := verified)
  }

  function TaskResult(script: Script, plan: TaskPlan, s0: Session, records: bool, verification: Verification,
                      markers: set<string>, id: string): Result<(TaskRun, set<string>), RunError>
    requires plan.steps != []
  {
    var ran := WorkerRun(script, plan, s0);
    if ran.Err? then
      Err(ran.error)
    else
      var (s, draft) := ran.value;
      var markers' := MarkersAfter(records, markers, id, WritesOutput(plan.steps, s.log));
      var outcome := Judged(plan, s, draft, Verified(verification, markers', id));
      Ok((TaskRun(s.observations, s.events + [Event(s.sequence, TaskOutcomeRecorded(outcome))], outcome,
                  s.sequence + 1), markers'))
  }

  method RunTask(adapter: Adapter, refs: set<IdentityId>, store: MarkerStore, plan: TaskPlan, runId: string,
                 sequenceStart: nat)
    returns (r: Result<TaskRun, RunError>)
    requires plan.steps != []
    modifies adapter`calls, adapter`probed, store
    ensures plan.targetIdentity !in refs ==> r == Err(NotMaterialized(plan.targetIdentity))
    ensures plan.targetIdentity in refs ==>
              var spec :=
                TaskResult(adapter.script, plan,
                           Session(old(adapter.calls), [], 0, sequenceStart, [], [], old(adapter.probed)),
                                     store.records, store.verification, old(store.markers),
                                       MarkerId(runId, plan.taskId));
              if spec.Ok? then r == Ok(spec.value.0) && store.markers == spec.value.1 else r == Err(spec.error)
    ensures r.Ok? ==>
              var ran := WorkerRun(adapter.script, plan,
                                   Session(old(adapter.calls), [], 0, sequenceStart, [], [], old(adapter.probed)));
              ran.Ok? && adapter.calls == ran.value.0.calls
  {
    if plan.targetIdentity !in refs {
      return Err(NotMaterialized(plan.targetIdentity));
    }
    var invoker := new Invoker(adapter, plan, sequenceStart);
    var draft := RunWorker(invoker);
    if draft.Err? {
      return Err(draft.error);
    }
    var log, id := invoker.log, MarkerId(runId, plan.taskId);
    if log != [] && log[|log| - 1].capability == plan.steps[|plan.steps| - 1].capability &&
      log[|log| - 1].outcome.Allowed? && store.records {
      store.markers := store.markers + {id};
    }
    var verified := match store.verification
                    case Live(confirms) => confirms
                    case Scratch => id in store.markers
                    case Unavailable => false;
    var substituted := ComputeSubstitutions(plan.steps, log);
    var outcome :=
      draft.value.(redelegationAttempts := invoker.redelegationAttempts, substituted := substituted,
                   outputMarkerVerified := verified);
    var events := invoker.events + [Event(invoker.sequence, TaskOutcomeRecorded(outcome))];
    return Ok(TaskRun(invoker.observations, events, outcome, invoker.sequence + 1));
  }
}
