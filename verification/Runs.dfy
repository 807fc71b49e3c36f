/**
 What a run writes: the records of its header, of every completed step in order, of the step that was
 cut short if any, of the reverts, and the final record of a clean completion.
 */
module Runs {
  import opened Wrappers
  import opened Outcomes
  import opened Models
  import opened Evidence
  import opened Logs
  import opened Adapters
  import opened Probes
  import opened Matrix
  import opened Polling
  import opened Delegation
  import opened Deferred
  import opened Tasks
  import opened TaskContract
  import opened Plans
  import opened Reverts

  /** A compiled scenario, with each kind of plan by phase name. */
  datatype Compiled = Compiled(
    graph: Graph,
    plan: seq<PlanStep>,
    controls: seq<Capability>,
    matrices: map<string, ProbeMatrix>,
    mutations: map<string, MutationPlan>,
    polls: map<string, PollPlan>,
    waits: set<string>,
    deferreds: map<string, DeferredPlan>,
    tasks: map<string, TaskPlan>)
  {
    /** The field types of the plans. */
    ghost predicate Valid() {
      (forall name :: name in polls ==> polls[name].Valid()) &&
      (forall name :: name in tasks ==> tasks[name].steps != [])
    }
  }

  /** What the run has no say in: the provider, what it offers, and the name of the run. */
  datatype Setting = Setting(script: Script, hooks: Hooks, records: bool, verification: Verification, runId: string)

  /** The phases a matrix may be run in, by name. */
  function ResolvePlanPhase(name: string): (phase: Option<PlanPhase>)
    ensures phase == Some(Baseline) <==> name in {"baseline", "confirm-present"}
    ensures phase.None? <==>
            name !in {"baseline", "confirm-present", "after-delegation", "paired-fresh-credential", "final"}
    ensures phase.Some? ==> phase.value in {Baseline, PostDelegation, PairedFreshCredential, FinalPhase}
  {
    if name == "baseline" || name == "confirm-present" then Some(Baseline)
    else if name == "after-delegation" then Some(PostDelegation)
    else if name == "paired-fresh-credential" then Some(PairedFreshCredential)
    else if name == "final" then Some(FinalPhase)
    else None
  }

  // ---- What a run holds ----------------------------------------------------------------

  /** The credentials current for each identity, and those recorded as current when a phase ran. */
  datatype Holdings = Holdings(
    credentials: map<IdentityId, Option<Credential>>,
    recorded: map<(string, IdentityId), Option<Credential>>)

  /** The store once a phase has recorded the credentials of these identities. */
  function RecordedFor(recorded: map<(string, IdentityId), Option<Credential>>, name: string, ids: seq<IdentityId>,
                       refs: set<IdentityId>,
                       credentials: map<IdentityId, Option<Credential>>): map<(string, IdentityId),
                                                                              Option<Credential>> {
    recorded + map id | id in ids && id in refs :: (name, id) := Lookup(credentials, id)
  }

  /** What renewing before the named matrix comes to, when it starts with reading the clock as this call. */
  function Prepared(x: Setting, c: Compiled, refs: set<IdentityId>, name: string, calls: nat, start: nat,
                    credentials: map<IdentityId, Option<Credential>>): Renewal
    requires name in c.matrices
  {
    RenewAll(x.script, Occasion(refs, c.graph.edges, x.script.now(calls), EstimateDurationS(c.matrices[name])), start,
             Renewal(calls + 1, credentials, [], [], None), c.matrices[name].identities)
  }

  // ---- One step ------------------------------------------------------------------------

  datatype Detail =
    | Matrixed(calls: nat, renewals: seq<Event>, base: nat, run: MatrixRun)
    | Discarded(calls: nat, renewals: seq<Event>, error: RunError)
    | Snapped(target: Option<IdentityId>)
    | Mutated(plan: RevertPlan, applied: EventBody)
    | CellPolled(base: nat, polled: PollRun)
    | Waited
    | Deferral(base: nat, before: Before, deferral: DeferredRun, credential: Option<Credential>)
    | TaskDone(from: Session, markers: set<string>, taskRun: TaskRun)

  /**
   One completed step: its numbers, what it did, what the run held before and after it, between which calls of
   the provider it ran, and for each of its records how many calls had been made when it was written.
   */
  datatype Segment = Segment(step: PlanStep, start: nat, next: nat, detail: Detail, before: Holdings, after: Holdings,
                             from: nat, to: nat, stamps: seq<nat>)

  function CurrentCredential(credential: Option<Credential>): seq<Record> {
    if credential.Some? then [CredentialWritten(credential.value.credentialId)] else []
  }

  function Written(s: Segment): seq<Record> {
    match s.detail
    case Matrixed(_, renewals, _, run) => Announcing(renewals) + Noted(run.observations) + Announcing(run.events)
    case Discarded(_, renewals, _) =>
      Announcing(renewals) + Announcing([Event(s.start + |renewals|, MatrixDiscarded(s.step.phaseName))])
    case Snapped(target) => if target.Some? then [PolicyStateWritten(target.value)] else []
    case Mutated(plan, applied) => [EventWritten(Event(s.start, RevertLogWritten(plan))),
                                    EventWritten(Event(s.start + 1, applied))]
    case CellPolled(_, run) =>
      Noted(run.observations) +
        Announcing([Event(run.nextSequence, PollStopped(s.step.phaseName, run.stopReason, run.pollCount))])
    case Waited => Announcing([Event(s.start, WaitCompleted(s.step.phaseName))])
    case Deferral(_, _, run, credential) => Noted(run.observations) + Announcing(run.events) +
      CurrentCredential(credential)
    case TaskDone(_, _, run) => Noted(run.observations) + Announcing(run.events)
  }

  /** Consecutively numbered renewals of credentials. */
  ghost predicate Renewals(events: seq<Event>, start: nat) {
    forall i :: 0 <= i < |events| ==> events[i].sequence == start + i && events[i].body.CredentialRedelegated?
  }

  /** The identity a snapshot step is taken of. */
  function SnapshotTarget(c: Compiled, refs: set<IdentityId>, name: string): Option<IdentityId> {
    var base := BaseName(name);
    if base in c.mutations && c.mutations[base].targetIdentity in refs then
      Some(c.mutations[base].targetIdentity) else None
  }

  /** The matrix of a step, started at a call, under a number. */
  function SweepOf(x: Setting, c: Compiled, name: string, base: nat, start: nat): Sweep
    requires name in c.matrices && ResolvePlanPhase(name).Some?
  {
    Sweep(x.script, base, start, Tag(ResolvePlanPhase(name).value, c.matrices[name].matrixId), c.controls)
  }

  /** Before its matrix, a probe step renewed exactly the stale credentials and recorded all that were then current. */
  ghost predicate PreparedRight(x: Setting, c: Compiled, refs: set<IdentityId>, name: string, start: nat,
                                before: Holdings, calls: nat,
                                renewals: seq<Event>, after: Holdings) {
    name in c.matrices && ResolvePlanPhase(name).Some? &&
    var p := Prepared(x, c, refs, name, calls, start, before.credentials);
    p.failure.None? && p.events == renewals && Renewals(renewals, start) &&
    after == Holdings(p.credentials,
                      RecordedFor(before.recorded, name, c.matrices[name].identities, refs, p.credentials))
  }

  ghost predicate MatrixRight(x: Setting, c: Compiled, refs: set<IdentityId>, s: Segment)
    requires s.detail.Matrixed?
  {
    var name, calls, renewals := s.step.phaseName, s.detail.calls, s.detail.renewals;
    PreparedRight(x, c, refs, name, s.start, s.before, calls, renewals, s.after) &&
    s.next == s.detail.run.nextSequence &&
    var verifying := Prepared(x, c, refs, name, calls, s.start, s.before.credentials).calls;
    x.script.checks(verifying).Ok? && s.detail.base == verifying + 1 &&
    MatrixOutcome(SweepOf(x, c, name, s.detail.base, s.start + |renewals|), c.matrices[name], refs, Ok(s.detail.run))
  }

  /** The preconditions failed, or a control capability did: nothing else discards a matrix. */
  ghost predicate DiscardRight(x: Setting, c: Compiled, refs: set<IdentityId>, s: Segment)
    requires s.detail.Discarded?
  {
    var name, calls, renewals, error := s.step.phaseName, s.detail.calls, s.detail.renewals, s.detail.error;
    PreparedRight(x, c, refs, name, s.start, s.before, calls, renewals, s.after) &&
    s.next == s.start + |renewals| + 1 &&
    Discards(error) &&
    MatrixFails(x, c, refs, name, Prepared(x, c, refs, name, calls, s.start, s.before.credentials).calls,
                s.start + |renewals|, error)
  }

  /** The two errors a matrix is discarded for; any other ends the run. */
  predicate Discards(error: RunError) {
    error == RunError.PreconditionFailed || error == RunError.ControlCapabilityFailed
  }

  /** A matrix whose preconditions are verified as this call raises this: there, or at its first failing probe. */
  ghost predicate MatrixFails(x: Setting, c: Compiled, refs: set<IdentityId>, name: string, verifying: nat, start: nat,
                              error: RunError)
    requires name in c.matrices && ResolvePlanPhase(name).Some?
  {
    if x.script.checks(verifying).Err? then
      x.script.checks(verifying).error == error
    else
      MatrixOutcome(SweepOf(x, c, name, verifying + 1, start), c.matrices[name], refs, Err(error))
  }

  /** The mutation recorded as applied is the one planned, with the receipt the provider gave when it was sent. */
  ghost predicate MutationRight(x: Setting, c: Compiled, refs: set<IdentityId>, s: Segment)
    requires s.detail.Mutated?
  {
    var name, applied := s.step.phaseName, s.detail.applied;
    name in c.mutations && c.mutations[name].targetIdentity in refs && s.next == s.start + 2 &&
    BuildRevertPlan(c.graph, c.mutations[name].targetIdentity, c.mutations[name].kind) == Ok(s.detail.plan) &&
    applied.PolicyMutationApplied? && applied.target == c.mutations[name].targetIdentity &&
    applied.kind == c.mutations[name].kind && applied.denies == c.mutations[name].denies &&
    applied.grants == c.mutations[name].grants &&
    Sent(x.script, s.from, refs, c.mutations[name]) == Ok(Receipt(applied.confirmed, applied.sentNs))
  }

  ghost predicate PollRight(x: Setting, c: Compiled, refs: set<IdentityId>, s: Segment)
    requires c.Valid() && s.detail.CellPolled?
  {
    var name := s.step.phaseName;
    name in c.polls && c.polls[name].targetIdentity in refs && s.next == s.detail.polled.nextSequence + 1 &&
    Polled(x.script, s.detail.base, c.polls[name], s.start, s.detail.polled.observations) &&
    Finished(c.polls[name], s.start, s.detail.polled)
  }

  /**
   A deferral starts from the identity's own edge and from the credential recorded for the phase it names,
   and writes the credential that is current once it is over.
   */
  ghost predicate DeferralRight(x: Setting, c: Compiled, refs: set<IdentityId>, s: Segment)
    requires s.detail.Deferral?
  {
    var name, b := s.step.phaseName, s.detail.before;
    name in c.deferreds && s.next == s.detail.deferral.nextSequence &&
    var plan := c.deferreds[name];
    b == Before(refs, EdgeInto(c.graph.edges, plan.targetIdentity),
                Pinned(s.before.recorded, plan.credentialSource, plan.targetIdentity)) &&
    RefusalOf(b, plan).None? && DeferredOutcome(x.script, s.detail.base, s.start, plan, b, Ok(s.detail.deferral)) &&
    s.after == Holdings(Renewed(x.script, s.detail.base, plan, b, s.before.credentials), s.before.recorded) &&
    s.detail.credential == Lookup(s.after.credentials, plan.targetIdentity)
  }

  ghost predicate TaskRight(x: Setting, c: Compiled, refs: set<IdentityId>, s: Segment)
    requires c.Valid() && s.detail.TaskDone?
  {
    var name := s.step.phaseName;
    name in c.tasks && c.tasks[name].targetIdentity in refs && s.next == s.detail.taskRun.nextSequence &&
    s.detail.from.sequence == s.start && FreshSession(s.detail.from) &&
    var result := TaskResult(x.script, c.tasks[name], s.detail.from, x.records, x.verification, s.detail.markers,
                             MarkerId(x.runId, c.tasks[name].taskId));
    result.Ok? && result.value.0 == s.detail.taskRun
  }

  // ---- Calls and records ---------------------------------------------------------------

  /** n records written after the same number of calls. */
  function Times(n: nat, calls: nat): (stamps: seq<nat>)
    ensures |stamps| == n
  {
    seq(n, _ => calls)
  }

  /** The policy changes a completed step asked for: a mutation asks for one. */
  function OrdersOf(s: Segment): seq<Order> {
    if s.detail.Mutated? && s.detail.applied.PolicyMutationApplied?
    then [Apply(s.from, s.detail.applied.target, s.detail.applied.kind, s.detail.applied.denies,
                s.detail.applied.grants)]
    else []
  }

  /**
   Which calls the step made, and when it wrote its records: a mutation its revert log before its one call and
   the event after it, every other step its records once it has made its calls, renewals aside.
   */
  ghost predicate Timed(x: Setting, c: Compiled, s: Segment)
    requires c.Valid()
  {
    var n, name := |Written(s)|, s.step.phaseName;
    match s.detail
    case Matrixed(calls, renewals, base, run) =>
      calls == s.from && s.to == base + |run.observations| && WrittenAtEnd(s, |renewals|)
    case Discarded(calls, renewals, _) => calls == s.from && WrittenAtEnd(s, |renewals|)
    case Snapped(target) => s.to == s.from + (if target.Some? then 1 else 0) && s.stamps == Times(n, s.to)
    case Mutated(_, _) => s.to == s.from + 1 && s.stamps == [s.from, s.from + 1]
    case CellPolled(base, run) => base == s.from && s.to == s.from + 3 * run.pollCount && s.stamps == Times(n, s.to)
    case Waited => s.to == s.from + 1 && s.stamps == Times(n, s.to)
    case Deferral(base, _, run, _) =>
      base == s.from && s.to == s.from + |run.observations| + 1 && s.stamps == Times(n, s.to)
    case TaskDone(from, _, run) =>
      from.calls == s.from && s.stamps == Times(n, s.to) &&
      (name in c.tasks ==> var ran := WorkerRun(x.script, c.tasks[name], from); ran.Ok? && s.to == ran.value.0.calls)
  }

  /** All but the first k records were written when the step had made its calls. */
  ghost predicate WrittenAtEnd(s: Segment, k: nat) {
    |s.stamps| == |Written(s)| && forall i :: k <= i < |s.stamps| ==> s.stamps[i] == s.to
  }

  lemma TimedStamps(x: Setting, c: Compiled, s: Segment)
    requires c.Valid() && Timed(x, c, s)
    ensures |s.stamps| == |Written(s)|
  {
    hide WorkerRun;
  }

  /** The segment is what the step does when it completes. */
  ghost predicate Right(x: Setting, c: Compiled, refs: set<IdentityId>, s: Segment)
    requires c.Valid()
  {
    var name := s.step.phaseName;
    (!s.step.kind.Probe? && !s.step.kind.Defer? ==> s.after == s.before) && Timed(x, c, s) &&
    match s.step.kind
    case Probe => (s.detail.Matrixed? && MatrixRight(x, c, refs, s)) ||
      (s.detail.Discarded? && DiscardRight(x, c, refs, s))
    case Snapshot => s.detail.Snapped? && s.next == s.start && s.detail.target == SnapshotTarget(c, refs, name)
    case Mutate => s.detail.Mutated? && MutationRight(x, c, refs, s)
    case Poll => s.detail.CellPolled? && PollRight(x, c, refs, s)
    case Wait => s.detail.Waited? && name in c.waits && s.next == s.start + 1
    case Defer => s.detail.Deferral? && DeferralRight(x, c, refs, s)
    case Task => s.detail.TaskDone? && TaskRight(x, c, refs, s)
  }

  // ---- Every step numbers within its stretch -----------------------------------------------

  /** What is left of a matrix step once its renewals are set apart. */
  lemma MatrixIsSwept(x: Setting, c: Compiled, refs: set<IdentityId>, s: Segment)
    requires s.detail.Matrixed? && MatrixRight(x, c, refs, s)
    ensures s.step.phaseName in c.matrices && ResolvePlanPhase(s.step.phaseName).Some? &&
            Renewals(s.detail.renewals, s.start)
    ensures s.next == s.detail.run.nextSequence
    ensures MatrixOutcome(SweepOf(x, c, s.step.phaseName, s.detail.base, s.start + |s.detail.renewals|),
                          c.matrices[s.step.phaseName], refs,
                          Ok(s.detail.run))
  {
    hide MatrixOutcome, RenewAll, ResolvePlanPhase;
  }

  lemma MatrixStepNumbered(x: Setting, c: Compiled, refs: set<IdentityId>, s: Segment)
    requires s.detail.Matrixed? && MatrixRight(x, c, refs, s)
    ensures Numbered(Written(s), s.start, s.next)
  {
    hide MatrixOutcome, MatrixRight, Numbered, ObservationsWithin, EventsWithin;
    MatrixIsSwept(x, c, refs, s);
    var renewals, run, mid := s.detail.renewals, s.detail.run, s.start + |s.detail.renewals|;
    NumberedEvents(renewals, s.start);
    MatrixNumbered(SweepOf(x, c, s.step.phaseName, s.detail.base, mid), c.matrices[s.step.phaseName], refs, run);
    NumberedBoth(run.observations, run.events, mid, s.next);
    NumberedJoin(Announcing(renewals), Noted(run.observations) + Announcing(run.events), s.start, mid, s.next);
    assert Written(s) == Announcing(renewals) + (Noted(run.observations) + Announcing(run.events));
  }

  lemma PolledInOrder(script: Script, base: nat, plan: PollPlan, start: nat, run: PollRun)
    requires plan.Valid() && Polled(script, base, plan, start, run.observations) && Finished(plan, start, run)
    ensures ObservationsWithin(run.observations, start, run.nextSequence)
  {
    forall i | 0 <= i < |run.observations| ensures run.observations[i].sequence == start + i {
      assert PolledAt(script, base, plan, start, i, run.observations[i]);
    }
  }

  lemma PollStepNumbered(x: Setting, c: Compiled, refs: set<IdentityId>, s: Segment)
    requires c.Valid() && s.detail.CellPolled? && PollRight(x, c, refs, s)
    ensures Numbered(Written(s), s.start, s.next)
  {
    var name, run := s.step.phaseName, s.detail.polled;
    PolledInOrder(x.script, s.detail.base, c.polls[name], s.start, run);
    NumberedBoth(run.observations, [Event(run.nextSequence, PollStopped(name, run.stopReason, run.pollCount))], s.start,
                 s.next);
  }

  lemma DeferralStepNumbered(x: Setting, c: Compiled, refs: set<IdentityId>, s: Segment)
    requires s.detail.Deferral? && DeferralRight(x, c, refs, s)
    ensures Numbered(Written(s), s.start, s.next)
  {
    var run, credential := s.detail.deferral, CurrentCredential(s.detail.credential);
    DeferredNumbered(x.script, s.detail.base, s.start, c.deferreds[s.step.phaseName], s.detail.before, run);
    NumberedBoth(run.observations, run.events, s.start, s.next);
    NothingNumbered(credential, s.next);
    NumberedJoin(Noted(run.observations) + Announcing(run.events), credential, s.start, s.next, s.next);
  }

  lemma TaskStepNumbered(x: Setting, c: Compiled, refs: set<IdentityId>, s: Segment)
    requires c.Valid() && s.detail.TaskDone? && TaskRight(x, c, refs, s)
    ensures Numbered(Written(s), s.start, s.next)
  {
    var plan, run := c.tasks[s.step.phaseName], s.detail.taskRun;
    TaskNumbered(x.script, plan, s.detail.from, x.records, x.verification, s.detail.markers,
                 MarkerId(x.runId, plan.taskId));
    NumberedBoth(run.observations, run.events, s.start, s.next);
  }

  lemma MutationStepNumbered(x: Setting, c: Compiled, refs: set<IdentityId>, s: Segment)
    requires s.detail.Mutated? && MutationRight(x, c, refs, s)
    ensures Numbered(Written(s), s.start, s.next)
  {
    var events := [Event(s.start, RevertLogWritten(s.detail.plan)), Event(s.start + 1, s.detail.applied)];
    NumberedEvents(events, s.start);
    assert Written(s) == Announcing(events);
  }

  lemma DiscardNumbered(s: Segment)
    requires s.detail.Discarded? && Renewals(s.detail.renewals, s.start) && s.next == s.start + |s.detail.renewals| + 1
    ensures Numbered(Written(s), s.start, s.next)
    ensures ObservationsIn(Written(s)) == []
  {
    NumberedThenOne(s.detail.renewals, Event(s.start + |s.detail.renewals|, MatrixDiscarded(s.step.phaseName)),
                    s.start);
  }

  lemma DiscardIsCaused(x: Setting, c: Compiled, refs: set<IdentityId>, s: Segment)
    requires s.detail.Discarded? && DiscardRight(x, c, refs, s)
    ensures Renewals(s.detail.renewals, s.start) && s.next == s.start + |s.detail.renewals| + 1
    ensures Discards(s.detail.error)
  {
    hide MatrixOutcome, RenewAll;
  }

  lemma SnapshotNumbered(s: Segment)
    requires s.detail.Snapped?
    ensures Numbered(Written(s), s.start, s.start)
  {
    NothingNumbered(Written(s), s.start);
  }

  lemma StepNumbered(x: Setting, c: Compiled, refs: set<IdentityId>, s: Segment)
    requires c.Valid() && Right(x, c, refs, s)
    ensures Numbered(Written(s), s.start, s.next)
  {
    hide MatrixRight, DiscardRight, MutationRight, PollRight, DeferralRight, TaskRight, Numbered;
    match s.detail
    case Matrixed(_, _, _, _) => MatrixStepNumbered(x, c, refs, s);
    case Discarded(_, _, _) =>
      DiscardIsCaused(x, c, refs, s);
      DiscardNumbered(s);
    case Snapped(_) => SnapshotNumbered(s);
    case Mutated(_, _) => MutationStepNumbered(x, c, refs, s);
    case CellPolled(_, _) => PollStepNumbered(x, c, refs, s);
    case Waited => NumberedEvents([Event(s.start, WaitCompleted(s.step.phaseName))], s.start);
    case Deferral(_, _, _, _) => DeferralStepNumbered(x, c, refs, s);
    case TaskDone(_, _, _) => TaskStepNumbered(x, c, refs, s);
  }

  // ---- What every step says about mutations ---------------------------------------------------

  lemma QuietBoth(observations: seq<Observation>, events: seq<Event>)
    requires forall i :: 0 <= i < |events| ==> QuietRecord(EventWritten(events[i]))
    ensures Quiet(Noted(observations) + Announcing(events))
  {
    var all := Noted(observations) + Announcing(events);
    forall i | 0 <= i < |all| ensures QuietRecord(all[i]) {
      if i >= |observations| { assert all[i] == EventWritten(events[i - |observations|]); }
    }
  }

  lemma QuietConcat(a: seq<Record>, b: seq<Record>)
    requires Quiet(a) && Quiet(b)
    ensures Quiet(a + b)
  {
  }

  lemma QuietRenewals(events: seq<Event>, start: nat)
    requires Renewals(events, start)
    ensures Quiet(Announcing(events))
  {
  }

  lemma MatrixStepQuiet(x: Setting, c: Compiled, refs: set<IdentityId>, s: Segment)
    requires s.detail.Matrixed? && MatrixRight(x, c, refs, s)
    ensures Quiet(Written(s))
  {
    hide MatrixRight, Recorded;
    MatrixIsSwept(x, c, refs, s);
    var run, m := s.detail.run, c.matrices[s.step.phaseName];
    QuietRenewals(s.detail.renewals, s.start);
    OnlyShuffles(x.script, c.controls, m, refs, s.start + |s.detail.renewals|, m.identities);
    assert forall i :: 0 <= i < |run.events| ==> run.events[i] in run.events;
    QuietBoth(run.observations, run.events);
    QuietConcat(Announcing(s.detail.renewals), Noted(run.observations) + Announcing(run.events));
    assert Written(s) == Announcing(s.detail.renewals) + (Noted(run.observations) + Announcing(run.events));
  }

  lemma TaskStepQuiet(x: Setting, c: Compiled, refs: set<IdentityId>, s: Segment)
    requires c.Valid() && s.detail.TaskDone? && TaskRight(x, c, refs, s)
    ensures Quiet(Written(s))
  {
    var plan, run := c.tasks[s.step.phaseName], s.detail.taskRun;
    TaskNumbered(x.script, plan, s.detail.from, x.records, x.verification, s.detail.markers,
                 MarkerId(x.runId, plan.taskId));
    QuietBoth(run.observations, run.events);
  }

  lemma DeferralStepQuiet(x: Setting, c: Compiled, refs: set<IdentityId>, s: Segment)
    requires s.detail.Deferral? && DeferralRight(x, c, refs, s)
    ensures Quiet(Written(s))
  {
    var run := s.detail.deferral;
    QuietBoth(run.observations, run.events);
  }

  lemma OtherStepQuiet(x: Setting, c: Compiled, refs: set<IdentityId>, s: Segment)
    requires c.Valid() && Right(x, c, refs, s) && !s.detail.Mutated?
    ensures Quiet(Written(s))
  {
    hide MatrixRight, DiscardRight, PollRight, DeferralRight, TaskRight;
    match s.detail
    case Matrixed(_, _, _, _) => MatrixStepQuiet(x, c, refs, s);
    case Discarded(_, renewals, _) =>
      DiscardIsCaused(x, c, refs, s);
      QuietRenewals(renewals, s.start);
    case Snapped(_) =>
    case CellPolled(_, run) => QuietBoth(run.observations,
                                         [Event(run.nextSequence,
                                                PollStopped(s.step.phaseName, run.stopReason, run.pollCount))]);
    case Waited =>
    case Deferral(_, _, _, _) => DeferralStepQuiet(x, c, refs, s);
    case TaskDone(_, _, _) => TaskStepQuiet(x, c, refs, s);
  }

  function OwnPlan(s: Segment): seq<RevertPlan> {
    if s.detail.Mutated? then [s.detail.plan] else []
  }

  /** All a whole run needs to know about one of its steps. */
  ghost predicate Sound(s: Segment) {
    Numbered(Written(s), s.start, s.next) && Paired(Written(s)) && AppliedPlans(Written(s)) == OwnPlan(s) &&
    (Written(s) != [] ==> !IsApplied(Written(s)[0]))
  }

  lemma MutationStepSound(x: Setting, c: Compiled, refs: set<IdentityId>, s: Segment)
    requires s.detail.Mutated? && MutationRight(x, c, refs, s)
    ensures Sound(s)
  {
    MutationStepNumbered(x, c, refs, s);
    var records := Written(s);
    assert records[..1] == [records[0]] && |records| == 2;
    assert Announces(records[0], records[1]);
    assert AppliedPlans(records[..1]) == [];
  }

  lemma StepSound(x: Setting, c: Compiled, refs: set<IdentityId>, s: Segment)
    requires c.Valid() && Right(x, c, refs, s)
    ensures Sound(s)
  {
    if s.detail.Mutated? {
      MutationStepSound(x, c, refs, s);
    } else {
      StepNumbered(x, c, refs, s);
      OtherStepQuiet(x, c, refs, s);
      QuietIsPaired(Written(s));
      assert forall i :: 0 <= i < |Written(s)| ==> QuietRecord(Written(s)[i]);
      NothingApplied(Written(s));
    }
  }
}
