/** The run state machine: preflight, materialize, walk the plan, revert whatever was applied, finalize a clean run. */
module Orchestrator {
  import opened Wrappers
  import opened Outcomes
  import opened Models
  import opened Acyclicity
  import opened Graphs
  import opened Trees
  import opened Builder
  import opened Evidence
  import opened Logs
  import opened Adapters
  import opened Probes
  import opened Matrix
  import opened Polling
  import opened Delegation
  import opened Deferred
  import opened Tasks
  import opened TaskContract
  import opened Plans
  import opened Reverts
  import opened Runs
  import opened Traces

  /**
   What the run itself keeps, what it holds of the provider's credentials, and what it has asked of the provider;
   for each record written, `stamps` has the number of calls made by then.
   */
  datatype State = State(sink: seq<Record>, stamps: seq<nat>, sequence: nat, pending: seq<RevertPlan>, discarded: nat,
                         held: Holdings, calls: nat, orders: seq<Order>)

  /** A step that completed: its segment was written, and only a mutation is queued for revert. */
  ghost predicate StepDone(x: Setting, c: Compiled, refs: set<IdentityId>, step: PlanStep, before: State, s: Segment,
                           after: State)
    requires c.Valid()
  {
    s.step == step && s.start == before.sequence && s.before == before.held && s.from == before.calls &&
    Right(x, c, refs, s) && after == Left(before, s)
  }

  /** What a completed step makes of the state it began in. */
  function Left(before: State, s: Segment): State {
    State(before.sink + Written(s), before.stamps + s.stamps, s.next, before.pending + OwnPlan(s),
          before.discarded + (if s.detail.Discarded? then 1 else 0), s.after, s.to, before.orders + OrdersOf(s))
  }

  /** A step that raised: at most its renewals or its revert log were written, and nothing is queued. */
  ghost predicate StepCut(x: Setting, c: Compiled, refs: set<IdentityId>, step: PlanStep, before: State, cut: Cut,
                          after: State) {
    cut.step == step && cut.start == before.sequence && cut.before == before.held && cut.from == before.calls &&
    CutRight(x, c, refs, cut) &&
    after == State(before.sink + cut.records, before.stamps + cut.stamps, cut.next, before.pending, before.discarded,
                   after.held, cut.to, before.orders + cut.orders)
  }

  /** Why a step may raise: the provider did, or the scenario asks for something that is not there. */
  ghost predicate Excused(x: Setting, c: Compiled, refs: set<IdentityId>, step: PlanStep, error: RunError) {
    FromProvider(x.script, error) || Unplanned(c, step, error) || Unreachable(c, refs, step, error) ||
    Unconfirmed(x, c, step, error)
  }

  /** The plan names something the scenario does not define. */
  ghost predicate Unplanned(c: Compiled, step: PlanStep, error: RunError) {
    var name := step.phaseName;
    match step.kind
    case Probe => (name !in c.matrices && error == MissingPlan(name)) ||
      (ResolvePlanPhase(name).None? && error == NoPlanPhase(name))
    case Mutate =>
      (name !in c.mutations && error == MissingPlan(name)) ||
      (name in c.mutations && !c.graph.Knows(c.mutations[name].targetIdentity) &&
       error == NoSuchIdentity(c.mutations[name].targetIdentity))
    case Poll => name !in c.polls && error == MissingPlan(name)
    case Wait => name !in c.waits && error == MissingPlan(name)
    case Defer =>
      (name !in c.deferreds && error == MissingPlan(name)) ||
      (name in c.deferreds && (error == NoPinnedCredential || error == NotDelegated(c.deferreds[name].targetIdentity)))
    case Task => name !in c.tasks && error == MissingPlan(name)
    case Snapshot => false
  }

  function TargetOf(c: Compiled, step: PlanStep): Option<IdentityId> {
    var name := step.phaseName;
    match step.kind
    case Mutate => if name in c.mutations then Some(c.mutations[name].targetIdentity) else None
    case Poll => if name in c.polls then Some(c.polls[name].targetIdentity) else None
    case Defer => if name in c.deferreds then Some(c.deferreds[name].targetIdentity) else None
    case Task => if name in c.tasks then Some(c.tasks[name].targetIdentity) else None
    case _ => None
  }

  /** The step's target, or the source of an edge to delegate along again, was never materialized. */
  ghost predicate Unreachable(c: Compiled, refs: set<IdentityId>, step: PlanStep, error: RunError) {
    match error
    case NotMaterialized(id) => id !in refs && TargetOf(c, step) == Some(id)
    case MissingSource(id) => id !in refs && IsSource(c.graph, id)
    case _ => false
  }

  ghost predicate IsSource(g: Graph, id: IdentityId) {
    exists k :: 0 <= k < |g.edges| && g.edges[k].sourceId == id
  }

  /** A mutation that asked for a receipt did not get a confirmed one. */
  ghost predicate Unconfirmed(x: Setting, c: Compiled, step: PlanStep, error: RunError) {
    error.MutationNotConfirmed? && step.phaseName in c.mutations && c.mutations[step.phaseName].recordReceipt &&
    exists n :: UnconfirmedReceipt(x.script, n)
  }

  ghost predicate UnconfirmedReceipt(script: Script, n: nat) {
    script.receipts(n).Ok? && !script.receipts(n).value.confirmed
  }

  /** What a run starts its plan from: what it has written and holds by then, and what it has asked for. */
  datatype Opening = Opening(header: seq<Record>, stamps: seq<nat>, initial: Holdings, began: nat, orders: seq<Order>)

  /** The run's state after its opening and these segments. */
  function StateAfter(o: Opening, done: seq<Segment>): State {
    State(o.header + Flat(done), o.stamps + FlatStamps(done), NextOf(done), PlansOf(done), DiscardCount(done),
          HeldAfter(o.initial, done), CallsAfter(o.began, done), o.orders + FlatOrders(done))
  }

  /** The deadline check before a step is one call. */
  function Checked(now: State): State {
    now.(calls := now.calls + 1)
  }

  lemma StateSnoc(o: Opening, done: seq<Segment>, s: Segment)
    ensures Left(Checked(StateAfter(o, done)), s) == StateAfter(o, done + [s])
  {
    hide Flat, Written, NextOf, PlansOf, OwnPlan, DiscardCount, FlatStamps, FlatOrders, OrdersOf;
    DoneSnoc(done, s);
    assert o.header + Flat(done) + Written(s) == o.header + (Flat(done) + Written(s));
    assert o.stamps + FlatStamps(done) + s.stamps == o.stamps + (FlatStamps(done) + s.stamps);
    assert o.orders + FlatOrders(done) + OrdersOf(s) == o.orders + (FlatOrders(done) + OrdersOf(s));
  }

  /** After n reverts, these plans are what is left of the due ones. */
  ghost predicate LeftToRevert(hooks: Hooks, due: seq<RevertPlan>, n: nat, left: seq<RevertPlan>) {
    n <= |due| && due[n..] == RevertsDue(hooks, left)
  }

  lemma NoneReverted(hooks: Hooks, pending: seq<RevertPlan>)
    ensures LeftToRevert(hooks, RevertsDue(hooks, pending), 0, pending[..|pending|])
  {
    assert pending[..|pending|] == pending;
  }

  lemma NothingDue(hooks: Hooks, due: seq<RevertPlan>, n: nat)
    requires LeftToRevert(hooks, due, n, [])
    ensures n == |due|
  {
    assert RevertsDue(hooks, []) == [];
    assert |due[n..]| == |due| - n;
  }

  lemma NextDue(hooks: Hooks, due: seq<RevertPlan>, n: nat, pending: seq<RevertPlan>, k: nat)
    requires 0 < k <= |pending| && LeftToRevert(hooks, due, n, pending[..k])
    ensures if Revertible(hooks, pending[k - 1]) then
            n < |due| && due[n] == pending[k - 1] && LeftToRevert(hooks, due, n + 1, pending[..k - 1])
            else LeftToRevert(hooks, due, n, pending[..k - 1])
  {
    assert pending[..k][..k - 1] == pending[..k - 1];
    if Revertible(hooks, pending[k - 1]) {
      assert due[n..][0] == pending[k - 1];
      assert due[n + 1..] == due[n..][1..];
    }
  }

  /** The identities that materializing the graph covers. */
  function MaterializedIds(g: Graph): set<IdentityId>
    requires OneRoot(g.nodes)
  {
    {Root(g).identityId} + TargetSet(g.edges)
  }

  class Run {
    const x: Setting
    const c: Compiled
    const adapter: Adapter
    const store: CredentialStore
    const markers: MarkerStore
    var sink: seq<Record>
    var sequence: nat
    var pendingReverts: seq<RevertPlan>
    var discarded: nat
    /** For each record of the sink, how many calls of the provider had been made when it was written. */
    ghost var stamps: seq<nat>

    constructor (x: Setting, c: Compiled, adapter: Adapter, store: CredentialStore, markers: MarkerStore)
      ensures this.x == x && this.c == c && this.adapter == adapter && this.store == store && this.markers == markers
      ensures sink == [] && sequence == 0 && pendingReverts == [] && discarded == 0 && stamps == []
    {
      this.x, this.c, this.adapter, this.store, this.markers := x, c, adapter, store, markers;
      sink, sequence, pendingReverts, discarded, stamps := [], 0, [], 0, [];
    }

    ghost function Current(m: MaterializedGraph): State
      reads this, store, m, adapter
    {
      State(sink, stamps, sequence, pendingReverts, discarded, Holdings(m.credentials, store.recorded), adapter.calls,
            adapter.orders)
    }

    /** The parts belong together. */
    ghost predicate Wired() {
      adapter.script == x.script && markers.records == x.records && markers.verification == x.verification && c.Valid()
    }

    // ---- Writing ---------------------------------------------------------------------------

    method Write(r: Record)
      modifies this`sink, this`stamps
      ensures sink == old(sink) + [r] && stamps == old(stamps) + [adapter.calls]
    {
      sink, stamps := sink + [r], stamps + [adapter.calls];
    }

    method WriteObservations(observations: seq<Observation>)
      modifies this`sink, this`stamps
      ensures sink == old(sink) + Noted(observations) && stamps == old(stamps) + Times(|observations|, adapter.calls)
    {
      for k := 0 to |observations|
        invariant sink == old(sink) + Noted(observations)[..k] && stamps == old(stamps) + Times(k, adapter.calls)
      {
        Write(ObservationWritten(observations[k]));
      }
    }

    method WriteEvents(events: seq<Event>)
      modifies this`sink, this`stamps
      ensures sink == old(sink) + Announcing(events) && stamps == old(stamps) + Times(|events|, adapter.calls)
    {
      for k := 0 to |events|
        invariant sink == old(sink) + Announcing(events)[..k] && stamps == old(stamps) + Times(k, adapter.calls)
      {
        Write(EventWritten(events[k]));
      }
    }

    // ---- The simple steps --------------------------------------------------------------------

    /** A step about which nothing is known yet. */
    ghost function NoSegment(step: PlanStep, m: MaterializedGraph): Segment
      reads this, store, m, adapter
    {
      var now := Current(m);
      Segment(step, now.sequence, now.sequence, Waited, now.held, now.held, now.calls, now.calls, [])
    }

    /** A step that has done nothing yet. */
    ghost function NoCut(step: PlanStep, m: MaterializedGraph): Cut
      reads this, store, m, adapter
    {
      var now := Current(m);
      Cut(step, now.sequence, now.sequence, [], now.held, now.calls, now.calls, [], [], DeadlineExceeded)
    }

    /** A step that has written nothing when it raises, and asked for nothing. */
    lemma NothingWritten(refs: set<IdentityId>, step: PlanStep, before: State, error: RunError, after: State)
      requires !step.kind.Probe? && !step.kind.Mutate?
      requires after == before.(held := after.held, calls := after.calls)
      ensures StepCut(x, c, refs, step, before, EmptyCut(step, before, error, after), after)
    {
      NothingAdded(before);
    }

    ghost function EmptyCut(step: PlanStep, before: State, error: RunError, after: State): Cut {
      Cut(step, before.sequence, before.sequence, [], before.held, before.calls, after.calls, [], [], error)
    }

    /** A step that changes no policy has done what it should once its segment says so and its records are written. */
    lemma Completed(refs: set<IdentityId>, step: PlanStep, before: State, s: Segment, after: State)
      requires Wired() && s.step == step && s.start == before.sequence && s.before == before.held &&
               s.from == before.calls
      requires !s.detail.Mutated? && !s.detail.Discarded? && Right(x, c, refs, s)
      requires after ==
               State(before.sink + Written(s), before.stamps + s.stamps, s.next, before.pending, before.discarded,
                              s.after, s.to, before.orders)
      ensures StepDone(x, c, refs, step, before, s, after)
    {
      hide Right;
      NothingAdded(before);
    }

    lemma NothingAdded(before: State)
      ensures before.pending + [] == before.pending && before.orders + [] == before.orders
      ensures before.sink + [] == before.sink && before.stamps + [] == before.stamps
    {
    }

    method DoWait(step: PlanStep,
                  ghost m: MaterializedGraph) returns (failure: Option<RunError>, ghost s: Segment, ghost cut: Cut)
      requires Wired() && step.kind.Wait?
      modifies this, adapter`calls, adapter`probed
      ensures failure.None? ==> StepDone(x, c, m.refs, step, old(Current(m)), s, Current(m))
      ensures failure.Some? ==>
              StepCut(x, c, m.refs, step, old(Current(m)), cut, Current(m)) &&
              cut.error == failure.value && Excused(x, c, m.refs, step, failure.value)
    {
      hide StepDone, StepCut;
      ghost var before := Current(m);
      s, cut := NoSegment(step, m), NoCut(step, m);
      if step.phaseName !in c.waits {
        failure, cut := Some(MissingPlan(step.phaseName)),
          EmptyCut(step, before, MissingPlan(step.phaseName), Current(m));
        NothingWritten(m.refs, step, before, failure.value, Current(m));
        return;
      }
      var waited := RunWaitPhase(adapter, step.phaseName, sequence);
      if waited.Err? {
        assert Raises(x.script, before.calls, waited.error);
        failure, cut := Some(waited.error), EmptyCut(step, before, waited.error, Current(m));
        NothingWritten(m.refs, step, before, failure.value, Current(m));
        return;
      }
      WriteEvents([waited.value]);
      sequence := sequence + 1;
      s := Segment(step, before.sequence, sequence, Waited, before.held, before.held, before.calls, adapter.calls,
                   Times(1, adapter.calls));
      WaitIsDone(m.refs, step, before, s, Current(m));
      failure := None;
    }

    lemma WaitIsDone(refs: set<IdentityId>, step: PlanStep, before: State, s: Segment, after: State)
      requires Wired() && step.kind.Wait? && step.phaseName in c.waits && s.step == step
      requires s.start == before.sequence && s.next == s.start + 1 && s.before == s.after == before.held &&
               s.detail.Waited?
      requires s.from == before.calls && s.to == s.from + 1 && s.stamps == Times(1, s.to)
      requires after == State(before.sink + Announcing([Event(s.start, WaitCompleted(step.phaseName))]),
                              before.stamps + s.stamps, s.next, before.pending, before.discarded, s.after, s.to,
                              before.orders)
      ensures StepDone(x, c, refs, step, before, s, after)
    {
      hide StepDone;
      assert |Written(s)| == 1;
      Completed(refs, step, before, s, after);
    }

    method DoSnapshot(step: PlanStep,
                      m: MaterializedGraph) returns (failure: Option<RunError>, ghost s: Segment, ghost cut: Cut)
      requires Wired() && step.kind.Snapshot?
      modifies this, adapter`calls, adapter`probed
      ensures failure.None? ==> StepDone(x, c, m.refs, step, old(Current(m)), s, Current(m))
      ensures failure.Some? ==>
              StepCut(x, c, m.refs, step, old(Current(m)), cut, Current(m)) &&
              cut.error == failure.value && Excused(x, c, m.refs, step, failure.value)
    {
      hide StepDone, StepCut;
      ghost var before := Current(m);
      s, cut := NoSegment(step, m), NoCut(step, m);
      var base := BaseName(step.phaseName);
      if base in c.mutations && c.mutations[base].targetIdentity in m.refs {
        var snapshot := adapter.Check();
        if snapshot.Err? {
          assert Raises(x.script, before.calls, snapshot.error);
          failure, cut := Some(snapshot.error), EmptyCut(step, before, snapshot.error, Current(m));
          NothingWritten(m.refs, step, before, failure.value, Current(m));
          return;
        }
        Write(PolicyStateWritten(c.mutations[base].targetIdentity));
      } else {
        NothingAdded(before);
      }
      ghost var target := SnapshotTarget(c, m.refs, step.phaseName);
      s := Segment(step, sequence, sequence, Snapped(target), before.held, before.held, before.calls, adapter.calls,
                   Times(if target.Some? then 1 else 0, adapter.calls));
      assert |Written(s)| == if target.Some? then 1 else 0;
      assert sink == before.sink + Written(s) && stamps == before.stamps + s.stamps;
      SnapshotIsDone(m.refs, step, before, s, Current(m));
      failure := None;
    }

    lemma SnapshotIsDone(refs: set<IdentityId>, step: PlanStep, before: State, s: Segment, after: State)
      requires Wired() && step.kind.Snapshot? && s.step == step && s.start == before.sequence == s.next
      requires s.before == s.after == before.held && s.from == before.calls
      requires s.detail == Snapped(SnapshotTarget(c, refs, step.phaseName))
      requires s.to == s.from + |Written(s)| && s.stamps == Times(|Written(s)|, s.to)
      requires after ==
               State(before.sink + Written(s), before.stamps + s.stamps, s.next, before.pending, before.discarded,
                              s.after, s.to, before.orders)
      ensures StepDone(x, c, refs, step, before, s, after)
    {
      hide StepDone;
      Completed(refs, step, before, s, after);
    }

    /** The revert log is written before the mutation is sent; only a mutation that returned is queued for revert. */
    method DoMutate(step: PlanStep,
                    m: MaterializedGraph) returns (failure: Option<RunError>, ghost s: Segment, ghost cut: Cut)
      requires Wired() && step.kind.Mutate?
      modifies this, adapter`calls, adapter`orders
      ensures failure.None? ==> StepDone(x, c, m.refs, step, old(Current(m)), s, Current(m))
      ensures failure.Some? ==>
              StepCut(x, c, m.refs, step, old(Current(m)), cut, Current(m)) &&
              cut.error == failure.value && Excused(x, c, m.refs, step, failure.value)
    {
      hide StepDone, StepCut, Right;
      ghost var before := Current(m);
      var name := step.phaseName;
      s, cut := NoSegment(step, m), NoCut(step, m);
      if name !in c.mutations {
        failure, cut := Some(MissingPlan(name)), EmptyCut(step, before, MissingPlan(name), Current(m));
        MutationUnplanned(m.refs, step, before, failure.value);
        return;
      }
      var plan := c.mutations[name];
      var revert := BuildRevertPlan(c.graph, plan.targetIdentity, plan.kind);
      if revert.Err? {
        failure, cut := Some(revert.error), EmptyCut(step, before, revert.error, Current(m));
        MutationUnplanned(m.refs, step, before, failure.value);
        return;
      }
      Write(EventWritten(Event(sequence, RevertLogWritten(revert.value))));
      sequence := sequence + 1;
      var applied := ApplyMutation(adapter, m.refs, plan, sequence);
      if applied.Err? {
        failure := Some(applied.error);
        cut := MutationFailed(m.refs, step, before, revert.value, applied.error, Current(m));
        return;
      }
      pendingReverts := pendingReverts + [revert.value];
      Write(EventWritten(applied.value));
      sequence := sequence + 1;
      failure := None;
      s := Segment(step, before.sequence, sequence, Mutated(revert.value, applied.value.body), before.held, before.held,
                   before.calls, adapter.calls, [before.calls, adapter.calls]);
      MutationIsDone(step, m.refs, before, s, Current(m));
    }

    lemma MutationUnplanned(refs: set<IdentityId>, step: PlanStep, before: State, error: RunError)
      requires step.kind.Mutate?
      requires var name := step.phaseName;
               name !in c.mutations ||
               BuildRevertPlan(c.graph, c.mutations[name].targetIdentity, c.mutations[name].kind).Err?
      ensures StepCut(x, c, refs, step, before, EmptyCut(step, before, error, before), before)
    {
      NothingAdded(before);
    }

    /** The revert log was written, and then sending the mutation raised. */
    lemma MutationFailed(refs: set<IdentityId>, step: PlanStep, before: State, revert: RevertPlan, error: RunError,
                         after: State) returns (cut: Cut)
      requires step.kind.Mutate? && step.phaseName in c.mutations
      requires var plan := c.mutations[step.phaseName];
               BuildRevertPlan(c.graph, plan.targetIdentity, plan.kind) == Ok(revert) &&
               Sent(x.script, before.calls, refs, plan) == Err(error) &&
               after == State(before.sink + [EventWritten(Event(before.sequence, RevertLogWritten(revert)))],
                              before.stamps + [before.calls], before.sequence + 1, before.pending, before.discarded,
                                before.held,
                              before.calls + |Asked(before.calls, refs, plan)|,
                              before.orders + Asked(before.calls, refs, plan))
      ensures StepCut(x, c, refs, step, before, cut, after) && cut.error == error && Excused(x, c, refs, step, error)
    {
      var plan := c.mutations[step.phaseName];
      cut := Cut(step, before.sequence, after.sequence,
                 [EventWritten(Event(before.sequence, RevertLogWritten(revert)))],
                 before.held, before.calls, after.calls, [before.calls], Asked(before.calls, refs, plan), error);
      assert Raises(x.script, before.calls, error) || UnconfirmedReceipt(x.script, before.calls) ||
             plan.targetIdentity !in refs;
    }

    lemma MutationIsDone(step: PlanStep, refs: set<IdentityId>, before: State, s: Segment, after: State)
      requires Wired() && step.kind.Mutate? && s.step == step && s.start == before.sequence &&
               s.before == s.after == before.held && s.from == before.calls
      requires s.detail.Mutated? && s.detail.applied.PolicyMutationApplied? && MutationRight(x, c, refs, s)
      requires s.to == s.from + 1 && s.stamps == [s.from, s.to]
      requires var plan, applied := s.detail.plan, s.detail.applied;
               after == State(before.sink + [EventWritten(Event(s.start, RevertLogWritten(plan)))] +
                              [EventWritten(Event(s.start + 1, applied))],
                              before.stamps + [s.from] + [s.to], s.next, before.pending + [plan], before.discarded,
                              s.after, s.to,
                                before.orders + [Apply(s.from, applied.target, applied.kind, applied.denies,
                                                               applied.grants)])
      ensures StepDone(x, c, refs, step, before, s, after)
    {
      hide MutationRight;
      assert before.sink + Written(s) == after.sink;
      assert before.stamps + [s.from] + [s.to] == before.stamps + s.stamps;
    }

    // ---- Polls, deferrals and tasks ------------------------------------------------------------

    method DoPoll(step: PlanStep,
                  m: MaterializedGraph) returns (failure: Option<RunError>, ghost s: Segment, ghost cut: Cut)
      requires Wired() && step.kind.Poll?
      modifies this, adapter`calls, adapter`probed
      ensures failure.None? ==> StepDone(x, c, m.refs, step, old(Current(m)), s, Current(m))
      ensures failure.Some? ==>
              StepCut(x, c, m.refs, step, old(Current(m)), cut, Current(m)) &&
              cut.error == failure.value && Excused(x, c, m.refs, step, failure.value)
    {
      hide StepDone, StepCut, Polled, Finished;
      ghost var before := Current(m);
      var name := step.phaseName;
      s, cut := NoSegment(step, m), NoCut(step, m);
      if name !in c.polls {
        failure, cut := Some(MissingPlan(name)), EmptyCut(step, before, MissingPlan(name), Current(m));
        NothingWritten(m.refs, step, before, failure.value, Current(m));
        return;
      }
      var run := RunPollPhase(adapter, m.refs, c.polls[name], sequence);
      if run.Err? {
        PollExcused(step, m.refs, before.calls, sequence, run.error);
        failure, cut := Some(run.error), EmptyCut(step, before, run.error, Current(m));
        NothingWritten(m.refs, step, before, failure.value, Current(m));
        return;
      }
      WriteObservations(run.value.observations);
      sequence := run.value.nextSequence;
      WriteEvents([Event(sequence, PollStopped(name, run.value.stopReason, run.value.pollCount))]);
      sequence := sequence + 1;
      s := Segment(step, before.sequence, sequence, CellPolled(before.calls, run.value), before.held, before.held,
                   before.calls, adapter.calls, Times(|run.value.observations| + 1, adapter.calls));
      PollIsDone(step, m.refs, before, s, Current(m));
      failure := None;
    }

    lemma PollIsDone(step: PlanStep, refs: set<IdentityId>, before: State, s: Segment, after: State)
      requires Wired() && step.kind.Poll? && s.step == step && s.start == before.sequence &&
               s.before == s.after == before.held && s.from == before.calls
      requires s.detail.CellPolled? && PollRight(x, c, refs, s) && s.detail.base == s.from
      requires s.to == s.from + 3 * s.detail.polled.pollCount
      requires s.stamps == Times(|s.detail.polled.observations| + 1, s.to)
      requires var run := s.detail.polled;
               after == State(before.sink + Noted(run.observations) +
                                Announcing([Event(run.nextSequence,
                                                  PollStopped(step.phaseName, run.stopReason, run.pollCount))]),
                              before.stamps + Times(|run.observations|, s.to) + Times(1, s.to), s.next, before.pending,
                              before.discarded, s.after, s.to, before.orders)
      ensures StepDone(x, c, refs, step, before, s, after)
    {
      hide PollRight, StepDone;
      assert before.sink + Written(s) == after.sink;
      assert before.stamps + Times(|s.detail.polled.observations|, s.to) + Times(1, s.to) == before.stamps + s.stamps;
      Completed(refs, step, before, s, after);
    }

    lemma PollExcused(step: PlanStep, refs: set<IdentityId>, base: nat, start: nat, error: RunError)
      requires Wired() && step.kind.Poll? && step.phaseName in c.polls
      requires c.polls[step.phaseName].targetIdentity !in refs ==>
               error == NotMaterialized(c.polls[step.phaseName].targetIdentity)
      requires c.polls[step.phaseName].targetIdentity in refs ==>
                 exists before: seq<Observation> ::
                   Polled(x.script, base, c.polls[step.phaseName], start, before) &&
                   |before| < c.polls[step.phaseName].Limit() &&
                   NeverStable(c.polls[step.phaseName], before, |before|) &&
                   RoundError(x.script, base, |before|) == Some(error)
      ensures Excused(x, c, refs, step, error)
    {
      var plan := c.polls[step.phaseName];
      if plan.targetIdentity in refs {
        var before: seq<Observation> :| Polled(x.script, base, plan, start, before) && |before| < plan.Limit() &&
          NeverStable(plan, before, |before|) && RoundError(x.script, base, |before|) == Some(error);
        RoundErrorFrom(x.script, base, |before|);
      }
    }

    /** Identities are only ever delegated again along the graph's own edges. */
    ghost predicate Renewable(m: MaterializedGraph)
      reads m`edgesByTarget
    {
      forall id :: Lookup(m.edgesByTarget, id) == EdgeInto(c.graph.edges, id)
    }

    lemma EdgeHasSource(id: IdentityId)
      ensures EdgeInto(c.graph.edges, id).Some? ==> IsSource(c.graph, EdgeInto(c.graph.edges, id).value.sourceId)
    {
    }

    method DoDefer(step: PlanStep,
                   m: MaterializedGraph) returns (failure: Option<RunError>, ghost s: Segment, ghost cut: Cut)
      requires Wired() && step.kind.Defer? && Renewable(m)
      modifies this, adapter`calls, adapter`probed, adapter`delegated, m`credentials
      ensures failure.None? ==> StepDone(x, c, m.refs, step, old(Current(m)), s, Current(m))
      ensures failure.Some? ==>
              StepCut(x, c, m.refs, step, old(Current(m)), cut, Current(m)) &&
              cut.error == failure.value && Excused(x, c, m.refs, step, failure.value)
    {
      hide DeferredOutcome, StepDone, StepCut, Right, Excused, CutRight, Pinned, RefusalOf, Renewed, IsSource,
           LegError, EdgeInto;
      ghost var before := Current(m);
      var name := step.phaseName;
      s, cut := NoSegment(step, m), NoCut(step, m);
      if name !in c.deferreds {
        failure, cut := Some(MissingPlan(name)), EmptyCut(step, before, MissingPlan(name), Current(m));
        NoDeferral(m.refs, step, before);
        return;
      }
      var plan := c.deferreds[name];
      ghost var b :=
          Before(m.refs, Lookup(m.edgesByTarget, plan.targetIdentity),
                 Pinned(store.recorded, plan.credentialSource, plan.targetIdentity));
      EdgeHasSource(plan.targetIdentity);
      PinnedRefusal(store.recorded, plan.credentialSource, plan.targetIdentity);
      var run := RunDeferredExecutionPhase(adapter, m, store, plan, sequence);
      if run.Err? {
        DeferExcused(step, m.refs, before.calls, sequence, b, run.error);
        failure, cut := Some(run.error), EmptyCut(step, before, run.error, Current(m));
        NothingWritten(m.refs, step, before, failure.value, Current(m));
        return;
      }
      var credential := Lookup(m.credentials, plan.targetIdentity);
      WriteDeferral(run.value, credential);
      sequence := run.value.nextSequence;
      s := Segment(step, before.sequence, sequence, Deferral(before.calls, b, run.value, credential), before.held,
                   Current(m).held, before.calls, adapter.calls, stamps[|before.stamps|..]);
      DeferDone(m.refs, step, before, s, Current(m));
      failure := None;
    }

    lemma PinnedRefusal(recorded: map<(string, IdentityId), Option<Credential>>, source: string, id: IdentityId)
      ensures Pinned(recorded, source, id).Err? ==> Pinned(recorded, source, id).error == NoPinnedCredential
    {
    }

    lemma NoDeferral(refs: set<IdentityId>, step: PlanStep, before: State)
      requires step.kind.Defer? && step.phaseName !in c.deferreds
      ensures var error := MissingPlan(step.phaseName);
              StepCut(x, c, refs, step, before, EmptyCut(step, before, error, before), before) &&
              Excused(x, c, refs, step, error)
    {
      NothingWritten(refs, step, before, MissingPlan(step.phaseName), before);
    }

    lemma DeferDone(refs: set<IdentityId>, step: PlanStep, before: State, s: Segment, after: State)
      requires Wired() && step.kind.Defer? && s.step == step && s.start == before.sequence && s.before == before.held
      requires s.detail.Deferral? && s.from == before.calls && DeferralRight(x, c, refs, s) && s.detail.base == s.from
      requires s.to == s.from + |s.detail.deferral.observations| + 1 && s.stamps == Times(|Written(s)|, s.to)
      requires after ==
               State(before.sink + Written(s), before.stamps + s.stamps, s.next, before.pending, before.discarded,
                              s.after, s.to, before.orders)
      ensures StepDone(x, c, refs, step, before, s, after)
    {
      hide StepDone, DeferralRight;
      Completed(refs, step, before, s, after);
    }

    method WriteDeferral(run: DeferredRun, credential: Option<Credential>)
      modifies this`sink, this`stamps
      ensures var records := Noted(run.observations) + Announcing(run.events) + CurrentCredential(credential);
              sink == old(sink) + records && stamps == old(stamps) + Times(|records|, adapter.calls)
    {
      WriteObservations(run.observations);
      WriteEvents(run.events);
      if credential.Some? {
        Write(CredentialWritten(credential.value.credentialId));
      }
    }

    lemma DeferExcused(step: PlanStep, refs: set<IdentityId>, base: nat, start: nat, b: Before, error: RunError)
      requires Wired() && step.kind.Defer? && step.phaseName in c.deferreds
      requires b.refs == refs && (b.edge.Some? ==> IsSource(c.graph, b.edge.value.sourceId))
      requires b.pinned.Err? ==> b.pinned.error == NoPinnedCredential
      requires var plan := c.deferreds[step.phaseName];
               if RefusalOf(b, plan).Some? then
                 error == RefusalOf(b, plan).value else DeferredOutcome(x.script, base, start, plan, b, Err(error))
      ensures Excused(x, c, refs, step, error)
    {
      var plan := c.deferreds[step.phaseName];
      if RefusalOf(b, plan).None? { DeferralErrorFrom(x.script, base, start, plan, b, error); }
    }

    method DoTask(step: PlanStep,
                  m: MaterializedGraph) returns (failure: Option<RunError>, ghost s: Segment, ghost cut: Cut)
      requires Wired() && step.kind.Task?
      modifies this, adapter`calls, adapter`probed, markers
      ensures failure.None? ==> StepDone(x, c, m.refs, step, old(Current(m)), s, Current(m))
      ensures failure.Some? ==>
              StepCut(x, c, m.refs, step, old(Current(m)), cut, Current(m)) &&
              cut.error == failure.value && Excused(x, c, m.refs, step, failure.value)
    {
      hide StepDone, StepCut;
      ghost var before := Current(m);
      var name := step.phaseName;
      s, cut := NoSegment(step, m), NoCut(step, m);
      if name !in c.tasks {
        failure, cut := Some(MissingPlan(name)), EmptyCut(step, before, MissingPlan(name), Current(m));
        NothingWritten(m.refs, step, before, failure.value, Current(m));
        return;
      }
      var plan := c.tasks[name];
      ghost var session, known := Session(adapter.calls, [], 0, sequence, [], [], adapter.probed), markers.markers;
      var run := RunTask(adapter, m.refs, markers, plan, x.runId, sequence);
      if run.Err? {
        TaskExcused(m.refs, step, session, run.error);
        failure, cut := Some(run.error), EmptyCut(step, before, run.error, Current(m));
        NothingWritten(m.refs, step, before, failure.value, Current(m));
        return;
      }
      WriteObservations(run.value.observations);
      WriteEvents(run.value.events);
      sequence := run.value.nextSequence;
      s := Segment(step, before.sequence, sequence, TaskDone(session, known, run.value), before.held, before.held,
                   before.calls, adapter.calls, Times(|run.value.observations| + |run.value.events|, adapter.calls));
      TaskIsDone(step, m.refs, before, s, Current(m));
      failure := None;
    }

    lemma TaskExcused(refs: set<IdentityId>, step: PlanStep, session: Session, error: RunError)
      requires Wired() && step.kind.Task? && step.phaseName in c.tasks
      requires var plan := c.tasks[step.phaseName];
               if plan.targetIdentity !in refs then error == NotMaterialized(plan.targetIdentity)
               else WorkerRun(x.script, plan, session) == Err(error)
      ensures Excused(x, c, refs, step, error)
    {
      if c.tasks[step.phaseName].targetIdentity in refs { WorkerErrorFrom(x.script, c.tasks[step.phaseName], session); }
    }

    lemma TaskIsDone(step: PlanStep, refs: set<IdentityId>, before: State, s: Segment, after: State)
      requires Wired() && step.kind.Task? && s.step == step && s.start == before.sequence &&
               s.before == s.after == before.held && s.detail.TaskDone? && s.from == before.calls
      requires TaskRight(x, c, refs, s) && s.detail.from.calls == s.from
      requires var ran := WorkerRun(x.script, c.tasks[step.phaseName], s.detail.from);
               ran.Ok? && s.to == ran.value.0.calls
      requires s.stamps == Times(|s.detail.taskRun.observations| + |s.detail.taskRun.events|, s.to)
      requires after == State(before.sink + Noted(s.detail.taskRun.observations) + Announcing(s.detail.taskRun.events),
                              before.stamps + Times(|s.detail.taskRun.observations|, s.to) +
                              Times(|s.detail.taskRun.events|, s.to),
                              s.next, before.pending, before.discarded, s.after, s.to, before.orders)
      ensures StepDone(x, c, refs, step, before, s, after)
    {
      hide StepDone, TaskRight, WorkerRun;
      var run := s.detail.taskRun;
      assert before.sink + Written(s) == after.sink;
      assert before.stamps + Times(|run.observations|, s.to) + Times(|run.events|, s.to) == before.stamps + s.stamps;
      Completed(refs, step, before, s, after);
    }

    // ---- Matrices ----------------------------------------------------------------------------------

    ghost predicate Unrenewable(refs: set<IdentityId>, error: RunError) {
      error.MissingSource? && error.identityId !in refs && IsSource(c.graph, error.identityId)
    }

    /** The events of a matrix's renewals so far have been written under consecutive numbers. */
    ghost predicate RenewalsWritten(base: seq<Record>, times: seq<nat>, start: nat, renewals: seq<Event>)
      reads this
    {
      Renewals(renewals, start) && sink == base + Announcing(renewals) && sequence == start + |renewals| &&
      times <= stamps && |stamps| == |times| + |renewals|
    }

    /** One identity's credential is renewed if it runs low; whichever is then current is recorded. */
    method RenewIdentity(m: MaterializedGraph, id: IdentityId, name: string, now: real, estimated: real,
                         ghost base: seq<Record>, ghost times: seq<nat>, ghost start: nat,
                         ghost renewals: seq<Event>, ghost asked: seq<Edge>)
      returns (failure: Option<RunError>, ghost after: Renewal)
      requires Wired() && Renewable(m) && id in m.refs && RenewalsWritten(base, times, start, renewals)
      modifies this`sink, this`stamps, this`sequence, adapter`calls, adapter`delegated, m`credentials, store
      ensures after == RenewOne(x.script, Occasion(m.refs, c.graph.edges, now, estimated), start,
                                Renewal(old(adapter.calls), old(m.credentials), renewals, asked, None), id)
      ensures RenewalsWritten(base, times, start, after.events)
      ensures asked <= after.asked && adapter.delegated == old(adapter.delegated) + after.asked[|asked|..]
      ensures failure == after.failure && m.credentials == after.credentials && adapter.calls == after.calls
      ensures failure.Some? ==> FromProvider(x.script, failure.value) || Unrenewable(m.refs, failure.value)
      ensures failure.None? ==> store.recorded == old(store.recorded)[(name, id) := Lookup(m.credentials, id)]
    {
      ghost var n := adapter.calls;
      EdgeHasSource(id);
      after := RenewOne(x.script, Occasion(m.refs, c.graph.edges, now, estimated), start,
                        Renewal(adapter.calls, m.credentials, renewals, asked, None), id);
      ghost var delegated := adapter.delegated;
      var renewed := EnsureFreshCredential(adapter, m, id, now, estimated, sequence);
      assert adapter.delegated == delegated + after.asked[|asked|..];
      if renewed.Err? {
        assert Raises(x.script, n, renewed.error) || Unrenewable(m.refs, renewed.error);
        return Some(renewed.error), after;
      }
      if renewed.value.Some? {
        Write(EventWritten(renewed.value.value));
        assert Announcing(renewals + [renewed.value.value]) ==
          Announcing(renewals) + [EventWritten(renewed.value.value)];
        sequence := sequence + 1;
      }
      store.Record(name, id, Lookup(m.credentials, id));
      failure := None;
    }

    /**
     Before a matrix, exactly the stale credentials are renewed, in the order of its identities, and the
     credential then current for each identity is recorded under the phase's name.
     */
    method RenewCredentials(m: MaterializedGraph, matrix: ProbeMatrix, name: string, now: real)
      returns (failure: Option<RunError>, ghost renewals: seq<Event>)
      requires Wired() && Renewable(m)
      modifies this`sink, this`stamps, this`sequence, adapter`calls, adapter`delegated, m`credentials, store
      ensures var o := Occasion(m.refs, c.graph.edges, now, EstimateDurationS(matrix));
              var first := Renewal(old(adapter.calls), old(m.credentials), [], [], None);
              var after := RenewAll(x.script, o, old(sequence), first, matrix.identities);
              failure == after.failure && renewals == after.events && m.credentials == after.credentials &&
              adapter.calls == after.calls && adapter.delegated == old(adapter.delegated) + after.asked
      ensures RenewalsWritten(old(sink), old(stamps), old(sequence), renewals)
      ensures failure.Some? ==> FromProvider(x.script, failure.value) || Unrenewable(m.refs, failure.value)
      ensures failure.None? ==>
              store.recorded == RecordedFor(old(store.recorded), name, matrix.identities, m.refs, m.credentials)
    {
      hide RenewOne, RenewAll, RenewalsWritten, Renewable, RecordedFor;
      var estimated := EstimateDurationS(matrix);
      ghost var o, first := Occasion(m.refs, c.graph.edges, now, estimated),
          Renewal(adapter.calls, m.credentials, [], [], None);
      ghost var asked, delegated: seq<Edge> := [], adapter.delegated;
      ghost var base, times, start, recorded := sink, stamps, sequence, store.recorded;
      renewals := [];
      NothingRenewed(o, start, first);
      NothingRecorded(recorded, name, m.refs, m.credentials);
      for k := 0 to |matrix.identities|
        invariant Renewable(m) && RenewalsWritten(base, times, start, renewals)
        invariant store.recorded == RecordedFor(recorded, name, matrix.identities[..k], m.refs, m.credentials)
        invariant RenewAll(x.script, o, start, first, matrix.identities[..k]) ==
                  Renewal(adapter.calls, m.credentials, renewals, asked, None)
        invariant adapter.delegated == delegated + asked
      {
        var id := matrix.identities[k];
        RenewNext(x.script, o, start, first, matrix.identities, k);
        ghost var held := m.credentials;
        if id !in m.refs {
          RecordOneMore(recorded, name, matrix.identities, k, m.refs, held, held);
          continue;
        }
        ghost var before, after := Renewal(adapter.calls, m.credentials, renewals, asked, None), first;
        RenewOneKeeps(x.script, o, start, before, id);
        failure, after := RenewIdentity(m, id, name, now, estimated, base, times, start, renewals, asked);
        assert delegated + asked + after.asked[|asked|..] == delegated + after.asked;
        renewals, asked := after.events, after.asked;
        if failure.Some? {
          return;
        }
        RecordOneMore(recorded, name, matrix.identities, k, m.refs, held, m.credentials);
      }
      assert matrix.identities[..|matrix.identities|] == matrix.identities;
      failure := None;
    }

    lemma NothingRecorded(recorded: map<(string, IdentityId), Option<Credential>>, name: string, refs: set<IdentityId>,
                          credentials: map<IdentityId, Option<Credential>>)
      ensures forall ids: seq<IdentityId> :: RecordedFor(recorded, name, ids[..0], refs, credentials) == recorded
    {
    }

    /** Recording one more identity, whose credential is the only one that may have changed. */
    lemma RecordOneMore(recorded: map<(string, IdentityId), Option<Credential>>, name: string, ids: seq<IdentityId>,
                        k: nat,
                        refs: set<IdentityId>, before: map<IdentityId, Option<Credential>>,
                        after: map<IdentityId, Option<Credential>>)
      requires k < |ids| && forall id :: id != ids[k] ==> Lookup(before, id) == Lookup(after, id)
      ensures var last := RecordedFor(recorded, name, ids[..k], refs, before);
              RecordedFor(recorded, name, ids[..k + 1], refs, after) ==
              if ids[k] in refs then last[(name, ids[k]) := Lookup(after, ids[k])] else last
    {
      hide RecordedFor;
      var last, next := RecordedFor(recorded, name, ids[..k], refs, before),
        RecordedFor(recorded, name, ids[..k + 1], refs, after);
      forall key ensures (key in next <==> key in last || (key == (name, ids[k]) && ids[k] in refs)) {
        RecordedKey(recorded, name, ids, k, refs, before, key);
        RecordedKey(recorded, name, ids, k + 1, refs, after, key);
        TakeOneMore(ids, k, key.1);
      }
      forall key | key in next
        ensures next[key] == if key == (name, ids[k]) && ids[k] in refs then Lookup(after, ids[k]) else last[key]
      {
        RecordedKey(recorded, name, ids, k, refs, before, key);
        RecordedKey(recorded, name, ids, k + 1, refs, after, key);
        TakeOneMore(ids, k, key.1);
      }
    }

    lemma TakeOneMore(ids: seq<IdentityId>, k: nat, id: IdentityId)
      requires k < |ids|
      ensures id in ids[..k + 1] <==> id in ids[..k] || id == ids[k]
    {
      assert ids[..k + 1] == ids[..k] + [ids[k]];
    }

    lemma RecordedKey(recorded: map<(string, IdentityId), Option<Credential>>, name: string, ids: seq<IdentityId>,
                      k: nat,
                      refs: set<IdentityId>, credentials: map<IdentityId, Option<Credential>>,
                      key: (string, IdentityId))
      requires k <= |ids|
      ensures var own := key.0 == name && key.1 in ids[..k] && key.1 in refs;
              var m := RecordedFor(recorded, name, ids[..k], refs, credentials);
              (key in m <==> key in recorded || own) &&
              (key in m ==> m[key] == if own then Lookup(credentials, key.1) else recorded[key])
    {
    }

    lemma NothingRenewed(o: Occasion, start: nat, first: Renewal)
      ensures RenewAll(x.script, o, start, first, []) == first
      ensures first.events == [] && sequence == start ==> RenewalsWritten(sink, stamps, start, [])
    {
    }

    /** What a state becomes by writing these renewals. */
    ghost predicate AfterRenewals(before: State, renewals: seq<Event>, now: State) {
      before.stamps <= now.stamps && |now.stamps| == |before.stamps| + |renewals| &&
      now == State(before.sink + Announcing(renewals), now.stamps, before.sequence + |renewals|, before.pending,
                   before.discarded, now.held, now.calls, before.orders)
    }

    /** The renewals of a matrix step have been written and its credentials recorded, and nothing else was done. */
    ghost predicate Readied(refs: set<IdentityId>, step: PlanStep, before: State, renewals: seq<Event>, now: State) {
      PreparedRight(x, c, refs, step.phaseName, before.sequence, before.held, before.calls, renewals, now.held) &&
      AfterRenewals(before, renewals, now) && now.calls == Verifying(refs, step, before)
    }

    /** The call that verifies the preconditions of the matrix. */
    ghost function Verifying(refs: set<IdentityId>, step: PlanStep, before: State): nat
      requires step.phaseName in c.matrices
    {
      Prepared(x, c, refs, step.phaseName, before.calls, before.sequence, before.held.credentials).calls
    }

    /**
     A matrix whose preconditions or controls fail is discarded whole: one event, no observation; any other raises.
     */
    method RunMatrix(step: PlanStep, m: MaterializedGraph, matrix: ProbeMatrix, phase: PlanPhase, ghost before: State,
                     ghost renewals: seq<Event>)
      returns (failure: Option<RunError>, ghost s: Segment)
      requires Wired() && step.kind.Probe? && step.phaseName in c.matrices && matrix == c.matrices[step.phaseName]
      requires ResolvePlanPhase(step.phaseName) == Some(phase) && Readied(m.refs, step, before, renewals, Current(m))
      modifies this, adapter`calls, adapter`probed
      ensures failure.None? ==> StepDone(x, c, m.refs, step, before, s, Current(m))
      ensures failure.Some? ==> Current(m) == old(Current(m)).(calls := adapter.calls) && !Discards(failure.value)
      ensures failure.Some? ==>
              SweptFrom(m.refs, step, phase, old(adapter.calls), old(sequence), Err(failure.value)) &&
              FromProvider(x.script, failure.value)
    {
      hide StepDone, Right, MatrixOutcome, Readied, Prepared, PreparedRight, Wired, FromProvider, ResolvePlanPhase,
           Verifying;
      ReadiedIs(m.refs, step, before, renewals, Current(m));
      ghost var base, held := adapter.calls, Current(m).held;
      var run := RunProbeMatrix(adapter, matrix, m.refs, c.controls, phase, sequence);
      assert SweptFrom(m.refs, step, phase, base, old(sequence), run) by { WiredIs(); }
      if run.Err? {
        if run.error == RunError.PreconditionFailed || run.error == RunError.ControlCapabilityFailed {
          discarded := discarded + 1;
          WriteEvents([Event(sequence, MatrixDiscarded(step.phaseName))]);
          sequence := sequence + 1;
          s := Segment(step, before.sequence, sequence, Discarded(before.calls, renewals, run.error), before.held, held,
                       before.calls, adapter.calls, stamps[|before.stamps|..]);
          DiscardDone(m.refs, step, phase, before, base, old(stamps), s, Current(m));
          return None, s;
        }
        MatrixExcused(step, m.refs, phase, base, sequence, run.error);
        s := NoSegment(step, m);
        return Some(run.error), s;
      }
      WriteObservations(run.value.observations);
      WriteEvents(run.value.events);
      sequence := run.value.nextSequence;
      s := Segment(step, before.sequence, sequence, Matrixed(before.calls, renewals, base + 1, run.value), before.held,
                   held, before.calls, adapter.calls, stamps[|before.stamps|..]);
      MatrixDone(m.refs, step, phase, before, base, old(stamps), s, Current(m));
      failure := None;
    }

    lemma WiredIs()
      requires Wired()
      ensures adapter.script == x.script && c.Valid()
    {
    }

    lemma ReadiedIs(refs: set<IdentityId>, step: PlanStep, before: State, renewals: seq<Event>, now: State)
      requires Readied(refs, step, before, renewals, now)
      ensures PreparedRight(x, c, refs, step.phaseName, before.sequence, before.held, before.calls, renewals, now.held)
      ensures AfterRenewals(before, renewals, now)
      ensures step.phaseName in c.matrices && now.calls == Verifying(refs, step, before)
    {
      hide Prepared;
    }

    /** The stamps of a probe step: those of its renewals, then the same for everything written at its end. */
    lemma ProbeStamps(before: seq<nat>, renewed: seq<nat>, now: seq<nat>, n: nat, k: nat, calls: nat)
      requires before <= renewed && |renewed| == |before| + k && now == renewed + Times(n, calls)
      ensures before + now[|before|..] == now && |now[|before|..]| == k + n
      ensures forall i :: k <= i < |now[|before|..]| ==> now[|before|..][i] == calls
    {
    }

    lemma DiscardDone(refs: set<IdentityId>, step: PlanStep, phase: PlanPhase, before: State, base: nat,
                      renewed: seq<nat>, s: Segment, after: State)
      requires Wired() && step.kind.Probe? && s.step == step && s.start == before.sequence && s.before == before.held &&
               s.from == before.calls && s.detail.Discarded? && s.detail.calls == s.from
      requires var d := s.detail;
               PreparedRight(x, c, refs, step.phaseName, s.start, s.before, d.calls, d.renewals, s.after) &&
               base == Verifying(refs, step, before) && s.next == s.start + |d.renewals| + 1 && Discards(d.error) &&
               ResolvePlanPhase(step.phaseName) == Some(phase) &&
               SweptFrom(refs, step, phase, base, s.start + |d.renewals|, Err(d.error))
      requires before.stamps <= renewed && |renewed| == |before.stamps| + |s.detail.renewals|
      requires after.stamps == renewed + Times(1, s.to) && s.stamps == after.stamps[|before.stamps|..]
      requires after == State(before.sink + Announcing(s.detail.renewals) +
                                Announcing([Event(before.sequence + |s.detail.renewals|,
                                                  MatrixDiscarded(step.phaseName))]),
                              after.stamps, s.next, before.pending, before.discarded + 1, s.after, s.to, before.orders)
      ensures StepDone(x, c, refs, step, before, s, after)
    {
      hide PreparedRight, MatrixOutcome, Prepared;
      assert DiscardRight(x, c, refs, s);
      ProbeStamps(before.stamps, renewed, after.stamps, 1, |s.detail.renewals|, s.to);
      NothingAdded(before);
      assert before.sink + Written(s) == after.sink;
    }

    /** What `run_probe_matrix` promises of its result, for the matrix of this step. */
    ghost predicate SweptFrom(refs: set<IdentityId>, step: PlanStep, phase: PlanPhase, base: nat, start: nat,
                              r: Result<MatrixRun, RunError>)
      requires step.phaseName in c.matrices
    {
      var matrix := c.matrices[step.phaseName];
      var verified := x.script.checks(base);
      if verified.Err? then r == Err(verified.error)
      else MatrixOutcome(Sweep(x.script, base + 1, start, Tag(phase, matrix.matrixId), c.controls), matrix, refs, r)
    }

    lemma MatrixDone(refs: set<IdentityId>, step: PlanStep, phase: PlanPhase, before: State, base: nat,
                     renewed: seq<nat>, s: Segment, after: State)
      requires Wired() && step.kind.Probe? && s.step == step && s.start == before.sequence && s.before == before.held &&
               s.from == before.calls && s.detail.Matrixed? && s.detail.calls == s.from
      requires var d := s.detail;
               PreparedRight(x, c, refs, step.phaseName, s.start, s.before, d.calls, d.renewals, s.after) &&
               base == Verifying(refs, step, before) && s.next == d.run.nextSequence && d.base == base + 1 &&
               ResolvePlanPhase(step.phaseName) == Some(phase) &&
               SweptFrom(refs, step, phase, base, s.start + |d.renewals|, Ok(d.run))
      requires before.stamps <= renewed && |renewed| == |before.stamps| + |s.detail.renewals|
      requires s.to == s.detail.base + |s.detail.run.observations|
      requires after.stamps == renewed + Times(|s.detail.run.observations|, s.to) + Times(|s.detail.run.events|, s.to)
      requires s.stamps == after.stamps[|before.stamps|..]
      requires after ==
               State(before.sink + Announcing(s.detail.renewals) + Noted(s.detail.run.observations) +
                     Announcing(s.detail.run.events),
                     after.stamps, s.next, before.pending, before.discarded, s.after, s.to, before.orders)
      ensures StepDone(x, c, refs, step, before, s, after)
    {
      hide PreparedRight, MatrixOutcome, Prepared;
      assert MatrixRight(x, c, refs, s);
      var run := s.detail.run;
      assert after.stamps == renewed + Times(|run.observations| + |run.events|, s.to);
      ProbeStamps(before.stamps, renewed, after.stamps, |run.observations| + |run.events|, |s.detail.renewals|, s.to);
      NothingAdded(before);
      assert before.sink + Written(s) == after.sink;
    }

    /** The step's matrix, and the fixed phase its name stands for. */
    method ResolveMatrix(step: PlanStep) returns (r: Result<(ProbeMatrix, PlanPhase), RunError>)
      requires step.kind.Probe?
      ensures r.Ok? ==>
              step.phaseName in c.matrices && r.value.0 == c.matrices[step.phaseName] &&
              ResolvePlanPhase(step.phaseName) == Some(r.value.1)
      ensures r.Err? ==> Unplanned(c, step, r.error)
    {
      var name := step.phaseName;
      if name !in c.matrices {
        return Err(MissingPlan(name));
      }
      var phase := ResolvePlanPhase(name);
      if phase.None? {
        return Err(NoPlanPhase(name));
      }
      return Ok((c.matrices[name], phase.value));
    }

    method DoProbe(step: PlanStep,
                   m: MaterializedGraph) returns (failure: Option<RunError>, ghost s: Segment, ghost cut: Cut)
      requires Wired() && step.kind.Probe? && Renewable(m)
      modifies this, adapter`calls, adapter`probed, adapter`delegated, m`credentials, store
      ensures failure.None? ==> StepDone(x, c, m.refs, step, old(Current(m)), s, Current(m))
      ensures failure.Some? ==>
              StepCut(x, c, m.refs, step, old(Current(m)), cut, Current(m)) &&
              cut.error == failure.value && Excused(x, c, m.refs, step, failure.value)
    {
      hide StepDone, StepCut;
      ghost var before := Current(m);
      s, cut := NoSegment(step, m), NoCut(step, m);
      var resolved := ResolveMatrix(step);
      if resolved.Err? {
        cut := cut.(error := resolved.error);
        NothingCut(m.refs, step, before, resolved.error);
        return Some(resolved.error), s, cut;
      }
      failure, s, cut := RenewThenSweep(step, m, resolved.value.0, resolved.value.1);
    }

    method RenewThenSweep(step: PlanStep, m: MaterializedGraph, matrix: ProbeMatrix, phase: PlanPhase)
      returns (failure: Option<RunError>, ghost s: Segment, ghost cut: Cut)
      requires Wired() && step.kind.Probe? && Renewable(m)
      requires step.phaseName in c.matrices && matrix == c.matrices[step.phaseName] &&
               ResolvePlanPhase(step.phaseName) == Some(phase)
      modifies this, adapter`calls, adapter`probed, adapter`delegated, m`credentials, store
      ensures failure.None? ==> StepDone(x, c, m.refs, step, old(Current(m)), s, Current(m))
      ensures failure.Some? ==>
              StepCut(x, c, m.refs, step, old(Current(m)), cut, Current(m)) &&
              cut.error == failure.value && Excused(x, c, m.refs, step, failure.value)
    {
      hide StepDone, StepCut, Right, RenewAll, RecordedFor, MatrixOutcome, PreparedRight, SweptFrom, Excused, Readied,
           Renewable, ResolvePlanPhase, MatrixFails, FromProvider, Unrenewable, Discards;
      ghost var before := Current(m);
      s, cut := NoSegment(step, m), NoCut(step, m);
      ghost var renewals: seq<Event>;
      var now := adapter.Now();
      failure, renewals := RenewCredentials(m, matrix, step.phaseName, now);
      if failure.Some? {
        cut := CutOf(step, before, renewals, Current(m), failure.value);
        CutAfterRenewals(m.refs, step, before, renewals, Current(m), Current(m), failure.value);
        SweepExcused(m.refs, step, failure.value);
        return;
      }
      ReadiedNow(m.refs, step, before, renewals, Current(m));
      ghost var readied := Current(m);
      failure, s := RunMatrix(step, m, matrix, phase, before, renewals);
      if failure.Some? {
        cut := CutOf(step, before, renewals, Current(m), failure.value);
        SweptIsMatrixFails(m.refs, step, phase, readied.calls, readied.sequence, failure.value);
        CutAfterRenewals(m.refs, step, before, renewals, readied, Current(m), failure.value);
        SweepExcused(m.refs, step, failure.value);
      }
    }

    lemma SweepExcused(refs: set<IdentityId>, step: PlanStep, error: RunError)
      requires FromProvider(x.script, error) || Unrenewable(refs, error)
      ensures Excused(x, c, refs, step, error)
    {
    }

    lemma ReadiedNow(refs: set<IdentityId>, step: PlanStep, before: State, renewals: seq<Event>, now: State)
      requires step.phaseName in c.matrices && ResolvePlanPhase(step.phaseName).Some?
      requires AfterRenewals(before, renewals, now) && Renewals(renewals, before.sequence)
      requires var p := Prepared(x, c, refs, step.phaseName, before.calls, before.sequence, before.held.credentials);
               p.failure.None? && p.events == renewals && now.calls == p.calls &&
               now.held.credentials == p.credentials &&
               now.held.recorded ==
               RecordedFor(before.held.recorded, step.phaseName, c.matrices[step.phaseName].identities, refs,
                           p.credentials)
      ensures Readied(refs, step, before, renewals, now)
    {
      hide Prepared, RecordedFor;
    }

    lemma SweptIsMatrixFails(refs: set<IdentityId>, step: PlanStep, phase: PlanPhase, base: nat, start: nat,
                             error: RunError)
      requires step.phaseName in c.matrices && ResolvePlanPhase(step.phaseName) == Some(phase)
      requires SweptFrom(refs, step, phase, base, start, Err(error))
      ensures MatrixFails(x, c, refs, step.phaseName, base, start, error)
    {
      hide MatrixOutcome;
    }

    lemma NothingCut(refs: set<IdentityId>, step: PlanStep, before: State, error: RunError)
      requires step.kind.Probe? && (step.phaseName !in c.matrices || ResolvePlanPhase(step.phaseName).None?)
      ensures StepCut(x, c, refs, step, before,
                      Cut(step, before.sequence, before.sequence, [], before.held, before.calls, before.calls, [], [],
                          error),
                      before)
    {
      NothingAdded(before);
    }

    /** A probe step that raised this once it had written these renewals. */
    ghost function CutOf(step: PlanStep, before: State, renewals: seq<Event>, now: State, error: RunError): Cut
      requires |before.stamps| <= |now.stamps|
    {
      Cut(step, before.sequence, now.sequence, Announcing(renewals), before.held, before.calls, now.calls,
          now.stamps[|before.stamps|..], [], error)
    }

    lemma CutAfterRenewals(refs: set<IdentityId>, step: PlanStep, before: State, renewals: seq<Event>, readied: State,
                           now: State, error: RunError)
      requires step.kind.Probe? && step.phaseName in c.matrices && ResolvePlanPhase(step.phaseName).Some?
      requires Renewals(renewals, before.sequence) && AfterRenewals(before, renewals, readied)
      requires now == readied.(calls := now.calls)
      requires var p := Prepared(x, c, refs, step.phaseName, before.calls, before.sequence, before.held.credentials);
               renewals == p.events &&
               if p.failure.Some? then error == p.failure.value
               else !Discards(error) &&
                    MatrixFails(x, c, refs, step.phaseName, p.calls, before.sequence + |renewals|, error)
      ensures StepCut(x, c, refs, step, before, CutOf(step, before, renewals, now, error), now)
    {
      hide Prepared, MatrixFails;
      var cut := CutOf(step, before, renewals, now, error);
      assert RenewalsCut(x, c, refs, cut);
      assert before.stamps + cut.stamps == now.stamps;
      NothingAdded(before);
    }

    lemma MatrixExcused(step: PlanStep, refs: set<IdentityId>, phase: PlanPhase, base: nat, start: nat, error: RunError)
      requires step.phaseName in c.matrices && SweptFrom(refs, step, phase, base, start, Err(error))
      requires error != RunError.ControlCapabilityFailed
      ensures FromProvider(x.script, error)
    {
      var verified, matrix := x.script.checks(base), c.matrices[step.phaseName];
      if verified.Err? {
        assert Raises(x.script, base, error);
      } else {
        var sweep := Sweep(x.script, base + 1, start, Tag(phase, matrix.matrixId), c.controls);
        FirstErrorFrom(sweep, Requests(x.script, c.controls, matrix, refs, matrix.identities));
      }
    }

    // ---- The plan --------------------------------------------------------------------------------

    method DoStep(step: PlanStep,
                  m: MaterializedGraph) returns (failure: Option<RunError>, ghost s: Segment, ghost cut: Cut)
      requires Wired() && Renewable(m)
      modifies this, adapter, m`credentials, store, markers
      ensures failure.None? ==> StepDone(x, c, m.refs, step, old(Current(m)), s, Current(m))
      ensures failure.Some? ==>
              StepCut(x, c, m.refs, step, old(Current(m)), cut, Current(m)) &&
              cut.error == failure.value && Excused(x, c, m.refs, step, failure.value)
    {
      match step.kind
      case Probe => failure, s, cut := DoProbe(step, m);
      case Snapshot => failure, s, cut := DoSnapshot(step, m);
      case Mutate => failure, s, cut := DoMutate(step, m);
      case Poll => failure, s, cut := DoPoll(step, m);
      case Wait => failure, s, cut := DoWait(step, m);
      case Defer => failure, s, cut := DoDefer(step, m);
      case Task => failure, s, cut := DoTask(step, m);
    }

    /** So far the run has written its opening and these segments, and queued exactly their mutations. */
    ghost predicate Walked(refs: set<IdentityId>, o: Opening, done: seq<Segment>, now: State)
      requires Wired()
    {
      DoneRight(x, c, refs, done) && (done != [] ==> done[0].before == o.initial && done[0].from == o.began + 1) &&
      now == StateAfter(o, done)
    }

    lemma OneMore(refs: set<IdentityId>, o: Opening, done: seq<Segment>, before: State, s: Segment, after: State)
      requires Wired() && Walked(refs, o, done, before) && |done| < |c.plan|
      requires StepDone(x, c, refs, c.plan[|done|], Checked(before), s, after)
      ensures Walked(refs, o, done + [s], after)
    {
      hide Right;
      DoneRightSnoc(x, c, refs, done, s);
      StateSnoc(o, done, s);
    }

    /** The step after these raised, and left the run in this state. */
    ghost predicate WalkCut(refs: set<IdentityId>, o: Opening, done: seq<Segment>, cut: Cut, now: State)
      requires Wired()
    {
      |done| < |c.plan| &&
      exists before :: Walked(refs, o, done, before) && StepCut(x, c, refs, c.plan[|done|], Checked(before), cut, now)
    }

    /** The walk is over: after its last step, after a step that raised, or at a deadline check that did. */
    ghost predicate WalkOver(refs: set<IdentityId>, o: Opening, done: seq<Segment>, cut: Option<Cut>, now: State)
      requires Wired()
    {
      |done| <= |c.plan| &&
      if cut.Some? then WalkCut(refs, o, done, cut.value, now)
      else exists walked :: Walked(refs, o, done, walked) && now == if |done| < |c.plan| then
        Checked(walked) else walked
    }

    /** Walks the plan until a step, or the deadline check before it, raises. */
    method RunPlan(m: MaterializedGraph, ghost o: Opening)
      returns (failure: Option<RunError>, ghost done: seq<Segment>, ghost cut: Option<Cut>)
      requires Wired() && Renewable(m) && Walked(m.refs, o, [], Current(m))
      modifies this, adapter, m`credentials, store, markers
      ensures WalkOver(m.refs, o, done, cut, Current(m))
      ensures failure.None? <==> |done| == |c.plan| && cut.None?
      ensures failure.Some? ==> |done| < |c.plan| && Excused(x, c, m.refs, c.plan[|done|], failure.value)
      ensures cut.Some? ==> failure == Some(cut.value.error)
    {
      hide Walked, StepDone, StepCut, Excused;
      done, cut := [], None;
      for k := 0 to |c.plan|
        invariant |done| == k && cut.None? && Walked(m.refs, o, done, Current(m))
      {
        ghost var n, before := adapter.calls, Current(m);
        var checked := adapter.Check();
        if checked.Err? {
          DeadlineExcused(m.refs, c.plan[k], n, checked.error);
          return Some(checked.error), done, cut;
        }
        ghost var s, cutting;
        failure, s, cutting := DoStep(c.plan[k], m);
        if failure.Some? {
          cut := Some(cutting);
          assert WalkCut(m.refs, o, done, cutting, Current(m));
          return;
        }
        OneMore(m.refs, o, done, before, s, Current(m));
        done := done + [s];
      }
      failure := None;
    }

    lemma DeadlineExcused(refs: set<IdentityId>, step: PlanStep, n: nat, error: RunError)
      requires x.script.checks(n) == Err(error)
      ensures Excused(x, c, refs, step, error)
    {
      assert Raises(x.script, n, error);
    }

    // ---- Reverting ---------------------------------------------------------------------------------

    /** How far reverting has come: these events recorded, each for one restoring call. */
    ghost predicate Reverting(due: seq<RevertPlan>, start: nat, left: nat, reverts: seq<Event>) {
      RevertsRight(due, start, reverts) && RevertsMade(x, due, left, reverts)
    }

    lemma NothingReverting(due: seq<RevertPlan>, start: nat, left: nat)
      ensures Reverting(due, start, left, [])
    {
    }

    lemma OneReverted(due: seq<RevertPlan>, start: nat, left: nat, reverts: seq<Event>, e: Event)
      requires Reverting(due, start, left, reverts) && |reverts| < |due|
      requires e.sequence == start + |reverts| && e.body.MutationReverted? && e.body.plan == due[|reverts|]
      requires Restored(x.script, left + |reverts|, x.hooks, due[|reverts|]) == Ok(e.body.confirmed)
      ensures Reverting(due, start, left, reverts + [e])
      ensures Announcing(reverts + [e]) == Announcing(reverts) + [EventWritten(e)]
    {
      hide Restored;
    }

    /** Undoes the queued mutations, last first; a revert that raises leaves the earlier mutations as they are. */
    method RevertAll() returns (failure: Option<RunError>, ghost reverts: seq<Event>)
      requires Wired()
      modifies this`sink, this`stamps, this`sequence, adapter`calls, adapter`orders
      ensures var due := RevertsDue(x.hooks, pendingReverts);
              Reverting(due, old(sequence), old(adapter.calls), reverts) &&
              sink == old(sink) + Announcing(reverts) &&
              stamps == old(stamps) + Since(old(adapter.calls) + 1, |reverts|) &&
              var asked := |reverts| + (if failure.Some? then 1 else 0);
              asked <= |due| && adapter.calls == old(adapter.calls) + asked &&
              adapter.orders == old(adapter.orders) + RevertOrders(x.hooks, due, old(adapter.calls), asked) &&
              (failure.None? ==> |reverts| == |due|) &&
              (failure.Some? ==>
               Restored(x.script, old(adapter.calls) + |reverts|, x.hooks, due[|reverts|]) == Err(failure.value))
    {
      hide LeftToRevert, Reverting, RevertsDue, Restored, Revertible, Undoing;
      reverts := [];
      ghost var due, left := RevertsDue(x.hooks, pendingReverts), adapter.calls;
      var k := |pendingReverts|;
      NoneReverted(x.hooks, pendingReverts);
      NothingReverting(due, sequence, left);
      while k > 0
        invariant 0 <= k <= |pendingReverts|
        invariant sink == old(sink) + Announcing(reverts) && sequence == old(sequence) + |reverts|
        invariant stamps == old(stamps) + Since(left + 1, |reverts|)
        invariant |reverts| <= |due| && adapter.calls == left + |reverts|
        invariant adapter.orders == old(adapter.orders) + RevertOrders(x.hooks, due, left, |reverts|)
        invariant Reverting(due, old(sequence), left, reverts)
        invariant LeftToRevert(x.hooks, due, |reverts|, pendingReverts[..k])
      {
        NextDue(x.hooks, due, |reverts|, pendingReverts, k);
        var reverted := RevertMutation(adapter, x.hooks, pendingReverts[k - 1], sequence);
        if reverted.Err? {
          OneMoreOrder(due, left, |reverts|);
          return Some(reverted.error), reverts;
        }
        if reverted.value.Some? {
          OneMoreOrder(due, left, |reverts|);
          OneReverted(due, old(sequence), left, reverts, reverted.value.value);
          Write(EventWritten(reverted.value.value));
          reverts := reverts + [reverted.value.value];
          sequence := sequence + 1;
        }
        k := k - 1;
      }
      assert pendingReverts[..0] == [];
      NothingDue(x.hooks, due, |reverts|);
      failure := None;
    }

    lemma OneMoreOrder(due: seq<RevertPlan>, left: nat, n: nat)
      requires n < |due|
      ensures RevertOrders(x.hooks, due, left, n + 1) ==
              RevertOrders(x.hooks, due, left, n) + [Undoing(left + n, x.hooks, due[n])]
    {
    }

    // ---- The run -----------------------------------------------------------------------------------

    method WriteCredentials(m: MaterializedGraph) returns (ghost written: seq<Record>)
      modifies this`sink, this`stamps
      ensures stamps == old(stamps) + Times(|written|, adapter.calls)
      ensures sink == old(sink) + written && written == CredentialRecords(c.graph.edges, m.credentials)
    {
      written := [];
      var seen: set<IdentityId> := {};
      for k := 0 to |c.graph.edges|
        invariant stamps == old(stamps) + Times(|written|, adapter.calls)
        invariant sink == old(sink) + written && written == CredentialRecords(c.graph.edges[..k], m.credentials)
        invariant seen == TargetSet(c.graph.edges[..k])
      {
        assert c.graph.edges[..k + 1][..k] == c.graph.edges[..k];
        TargetSetAppend(c.graph.edges[..k], c.graph.edges[k]);
        assert c.graph.edges[..k + 1] == c.graph.edges[..k] + [c.graph.edges[k]];
        var target := c.graph.edges[k].targetId;
        var credential := Lookup(m.credentials, target);
        if credential.Some? && target !in seen {
          Write(CredentialWritten(credential.value.credentialId));
          written := written + [CredentialWritten(credential.value.credentialId)];
        }
        seen := seen + {target};
      }
      assert c.graph.edges[..|c.graph.edges|] == c.graph.edges;
    }

    /** One of the calls that must succeed before anything else happens. */
    method Require() returns (failure: Option<RunError>)
      requires Wired()
      modifies adapter`calls
      ensures failure.Some? ==> FromProvider(x.script, failure.value)
      ensures failure.None? ==> x.script.checks(old(adapter.calls)).Ok? && adapter.calls == old(adapter.calls) + 1
    {
      ghost var n := adapter.calls;
      var checked := adapter.Check();
      if checked.Err? {
        assert Raises(x.script, n, checked.error);
        return Some(checked.error);
      }
      failure := None;
    }

    /** Describing the environment, the safety gate, the deadline and the provider's preflight all succeeded. */
    ghost predicate PreflightPassed(base: nat) {
      x.script.checks(base).Ok? && x.script.checks(base + 1).Ok? && x.script.checks(base + 2).Ok? &&
      x.script.checks(base + 3).Ok?
    }

    method Preflight() returns (failure: Option<RunError>)
      requires Wired()
      modifies adapter`calls
      ensures failure.Some? ==> FromProvider(x.script, failure.value)
      ensures failure.None? ==> PreflightPassed(old(adapter.calls))
    {
      failure := Require();
      if failure.Some? {
        return;
      }
      failure := Require();
      if failure.Some? {
        return;
      }
      failure := Require();
      if failure.Some? {
        return;
      }
      failure := Require();
    }

    method WriteHeader()
      modifies this`sink, this`stamps
      ensures sink == old(sink) + OPENING && stamps == old(stamps) + Times(|OPENING|, adapter.calls)
    {
      Write(ScenarioWritten);
      Write(EnvironmentWritten);
      Write(GraphWritten);
    }

    /** The graph itself cannot be materialized: it is too deep, or an edge's source does not come first. */
    ghost predicate Unmaterialized(maxDepth: nat, error: RunError)
      requires OneRoot(c.graph.nodes)
    {
      (error.ChainTooDeep? && Depth(c.graph.nodes) > maxDepth) ||
      (error.MissingSource? && !SourcesFirst(Root(c.graph).identityId, c.graph.edges))
    }

    lemma HandlesRenewable(base: nat, root: IdentityId, m: MaterializedGraph)
      requires Delegated(x.script, base, root, c.graph.edges).Ok?
      requires m.Holds(Delegated(x.script, base, root, c.graph.edges).value)
      ensures Renewable(m)
    {
      forall id ensures Lookup(m.edgesByTarget, id) == EdgeInto(c.graph.edges, id) {
        HandlesAreEdges(x.script, base, root, c.graph.edges, id);
      }
    }

    /** The provider minted what is held, at some point of its answers. */
    ghost predicate Minting(m: MaterializedGraph)
      requires OneRoot(c.graph.nodes)
      reads m
    {
      exists base :: MintedFor(x, c, base, m.refs, m.credentials)
    }

    method Materialize(maxDepth: nat) returns (r: Result<MaterializedGraph, RunError>)
      requires Wired() && ValidGraph(c.graph)
      modifies adapter`calls, adapter`delegated
      ensures r.Ok? ==>
              fresh(r.value) && r.value.refs == MaterializedIds(c.graph) && Renewable(r.value) &&
              Depth(c.graph.nodes) <= maxDepth
      ensures r.Ok? ==> Minting(r.value)
      ensures r.Err? ==> FromProvider(x.script, r.error) || Unmaterialized(maxDepth, r.error)
    {
      hide Renewable, Delegated, FromProvider, Unmaterialized;
      ghost var n, root := adapter.calls, Root(c.graph).identityId;
      r := MaterializeChain(adapter, c.graph, maxDepth);
      if r.Ok? {
        HandlesCover(x.script, n + 1, root, c.graph.edges);
        HandlesRenewable(n + 1, root, r.value);
        assert MintedFor(x, c, n + 1, r.value.refs, r.value.credentials);
      } else {
        Undelegated(maxDepth, n, r.error);
      }
    }

    lemma Undelegated(maxDepth: nat, n: nat, error: RunError)
      requires OneRoot(c.graph.nodes)
      requires Depth(c.graph.nodes) > maxDepth ==> error == ChainTooDeep
      requires Depth(c.graph.nodes) <= maxDepth ==>
                 if x.script.checks(n).Err? then error == x.script.checks(n).error
                 else Delegated(x.script, n + 1, Root(c.graph).identityId, c.graph.edges) == Err(error)
      ensures FromProvider(x.script, error) || Unmaterialized(maxDepth, error)
    {
      hide Delegated;
      if x.script.checks(n).Err? {
        assert Depth(c.graph.nodes) <= maxDepth ==> Raises(x.script, n, error);
      } else if Depth(c.graph.nodes) <= maxDepth {
        DelegationErrorFrom(x.script, n + 1, Root(c.graph).identityId, c.graph.edges);
      }
    }

    lemma OpenedNow(m: MaterializedGraph, header: seq<Record>)
      requires OneRoot(c.graph.nodes) && Minting(m) &&
               header == OPENING + CredentialRecords(c.graph.edges, m.credentials)
      ensures OpenedRight(x, c, m.refs, header, Holdings(m.credentials, map[]))
    {
    }

    /** Everything up to the first step: nothing is written before preflight passed, no credential before it exists. */
    method Open(maxDepth: nat) returns (r: Result<MaterializedGraph, RunError>, ghost header: seq<Record>)
      requires Wired() && ValidGraph(c.graph)
      modifies this`sink, this`stamps, adapter`calls, adapter`delegated
      ensures sink == old(sink) + header && HeaderRight(header)
      ensures old(stamps) <= stamps && |stamps| == |old(stamps)| + |header|
      ensures header != [] ==> PreflightPassed(old(adapter.calls))
      ensures r.Ok? ==> header != []
      ensures r.Ok? ==> fresh(r.value) && r.value.refs == MaterializedIds(c.graph) && Renewable(r.value)
      ensures r.Ok? ==>
              Depth(c.graph.nodes) <= maxDepth &&
              OpenedRight(x, c, r.value.refs, header, Holdings(r.value.credentials, map[]))
      ensures r.Err? ==> FromProvider(x.script, r.error) || Unmaterialized(maxDepth, r.error)
    {
      hide HeaderRight, PreflightPassed, Renewable, MaterializedIds, Unmaterialized, FromProvider, OpenedRight;
      Headers();
      header := [];
      var failure := Preflight();
      if failure.Some? {
        return Err(failure.value), header;
      }
      WriteHeader();
      ghost var minted;
      r, minted := OpenGraph(maxDepth);
      header := OPENING + minted;
    }

    /** Materializes the graph and writes the credentials minted for it. */
    method OpenGraph(maxDepth: nat) returns (r: Result<MaterializedGraph, RunError>, ghost minted: seq<Record>)
      requires Wired() && ValidGraph(c.graph)
      modifies this`sink, this`stamps, adapter`calls, adapter`delegated
      ensures sink == old(sink) + minted && HeaderRight(OPENING + minted)
      ensures old(stamps) <= stamps && |stamps| == |old(stamps)| + |minted|
      ensures r.Ok? ==> fresh(r.value) && r.value.refs == MaterializedIds(c.graph) && Renewable(r.value)
      ensures r.Ok? ==>
              Depth(c.graph.nodes) <= maxDepth &&
              OpenedRight(x, c, r.value.refs, OPENING + minted, Holdings(r.value.credentials, map[]))
      ensures r.Err? ==> FromProvider(x.script, r.error) || Unmaterialized(maxDepth, r.error)
    {
      hide HeaderRight, Renewable, MaterializedIds, Unmaterialized, FromProvider, Minting, OpenedRight;
      Headers();
      minted := [];
      assert OPENING + [] == OPENING;
      var failure := Require();
      if failure.Some? {
        return Err(failure.value), minted;
      }
      r := Materialize(maxDepth);
      if r.Err? {
        return;
      }
      minted := WriteCredentials(r.value);
      HeaderWith(c.graph.edges, r.value.credentials);
      OpenedNow(r.value, OPENING + minted);
      failure := Require();
      if failure.Some? {
        return Err(failure.value), minted;
      }
    }

    lemma Headers()
      ensures HeaderRight([]) && HeaderRight(OPENING)
    {
    }

    lemma HeaderWith(edges: seq<Edge>, credentials: map<IdentityId, Option<Credential>>)
      ensures HeaderRight(OPENING + CredentialRecords(edges, credentials))
    {
      OnlyCredentials(edges, credentials);
    }

    lemma {:induction false} OnlyCredentials(edges: seq<Edge>, credentials: map<IdentityId, Option<Credential>>)
      ensures forall i :: 0 <= i < |CredentialRecords(edges, credentials)| ==>
              CredentialRecords(edges, credentials)[i].CredentialWritten?
    {
      if edges != [] { OnlyCredentials(edges[..|edges| - 1], credentials); }
    }

    /** A run's error is the provider's, or says what the scenario lacks: nothing else ends a run early. */
    ghost predicate Justified(maxDepth: nat, refs: set<IdentityId>, t: Trace, error: RunError)
      requires OneRoot(c.graph.nodes)
    {
      FromProvider(x.script, error) || Unmaterialized(maxDepth, error) ||
      (refs == MaterializedIds(c.graph) && |t.done| < |c.plan| && Excused(x, c, refs, c.plan[|t.done|], error))
    }

    lemma NothingWalked(refs: set<IdentityId>, o: Opening)
      requires Wired()
      ensures Walked(refs, o, [], State(o.header, o.stamps, 0, [], 0, o.initial, o.began, o.orders))
    {
      assert o.header + Flat([]) == o.header && o.stamps + FlatStamps([]) == o.stamps;
      assert o.orders + FlatOrders([]) == o.orders;
    }

    /** The trace of a run that did not get past its opening. */
    ghost function Unopened(header: seq<Record>, times: seq<nat>): Trace {
      Trace(header, times, Holdings(map[], map[]), 0, [], None, 0, [], None, None)
    }

    lemma NothingDone(header: seq<Record>, times: seq<nat>)
      requires Wired() && HeaderRight(header) && |times| == |header|
      ensures ValidTrace(x, c, {}, Unopened(header, times)) && OrderedRight(Unopened(header, times))
      ensures Log(Unopened(header, times)) == header && Stamps(Unopened(header, times)) == times
      ensures Orders(x.hooks, Unopened(header, times)) == []
    {
      hide HeaderRight, Right, CutRight, OpenedRight;
      assert RevertsDue(x.hooks, []) == [];
    }

    ghost predicate OrderedRight(t: Trace) {
      |t.reverts| + (if t.revertRaised.Some? then 1 else 0) <= |RevertsDue(x.hooks, PlansOf(t.done))|
    }

    /** The trace of a run whose plan was walked this far and whose reverts went this far. */
    ghost function TraceOf(o: Opening, done: seq<Segment>, cut: Option<Cut>, left: nat, reverts: seq<Event>,
                           raised: bool, finalized: Option<nat>): Trace {
      Trace(o.header, o.stamps, o.initial, o.began, done, cut, left, reverts,
            if raised then Some(left + |reverts|) else None, finalized)
    }

    /** What is left once the walk is over. */
    lemma WalkOverIs(refs: set<IdentityId>, o: Opening, done: seq<Segment>, cut: Option<Cut>, walked: State)
      requires Wired() && WalkOver(refs, o, done, cut, walked)
      ensures var t := TraceOf(o, done, cut, walked.calls, [], false, None);
              DoneRight(x, c, refs, done) &&
              (done != [] ==> done[0].before == o.initial && done[0].from == o.began + 1) &&
              LeftAfter(c, t) && |done| <= |c.plan| && walked.pending == PlansOf(done) &&
              walked.sequence == Reached(t) &&
              walked.discarded == DiscardCount(done) && walked.sink == Body(t) &&
              walked.stamps == o.stamps + FlatStamps(done) + CutStamps(t) &&
              walked.orders == o.orders + MutationOrders(t) &&
              (cut.Some? ==>
               |done| < |c.plan| && CutAfter(t) && cut.value.step == c.plan[|done|] && CutRight(x, c, refs, cut.value))
    {
      hide Right, CutRight, Flat, FlatStamps, FlatOrders;
      if cut.Some? {
        var before :| Walked(refs, o, done, before) &&
          StepCut(x, c, refs, c.plan[|done|], Checked(before), cut.value, walked);
        assert o.header + Flat(done) + cut.value.records == walked.sink;
        assert o.orders + FlatOrders(done) + cut.value.orders == o.orders + (FlatOrders(done) + cut.value.orders);
      } else {
        var now :| Walked(refs, o, done, now) && walked == if |done| < |c.plan| then Checked(now) else now;
        assert o.header + Flat(done) + [] == walked.sink && o.stamps + FlatStamps(done) + [] == walked.stamps;
        assert FlatOrders(done) + [] == FlatOrders(done);
      }
    }

    /** Reverting went to its end, or to a restoring call that raised. */
    ghost predicate Reverted(walked: State, reverts: seq<Event>, raised: bool) {
      var due := RevertsDue(x.hooks, walked.pending);
      Reverting(due, walked.sequence, walked.calls, reverts) &&
      if raised then |reverts| < |due| && Restored(x.script, walked.calls + |reverts|, x.hooks, due[|reverts|]).Err?
      else |reverts| == |due|
    }

    lemma TraceRight(refs: set<IdentityId>, o: Opening, done: seq<Segment>, cut: Option<Cut>, walked: State,
                     reverts: seq<Event>, raised: bool, finalized: Option<nat>)
      requires Wired() && HeaderRight(o.header) && |o.stamps| == |o.header| &&
               OpenedRight(x, c, refs, o.header, o.initial)
      requires WalkOver(refs, o, done, cut, walked) && Reverted(walked, reverts, raised)
      requires finalized.Some? ==> |done| == |c.plan| && cut.None? && !raised && finalized.value == walked.discarded
      ensures ValidTrace(x, c, refs, TraceOf(o, done, cut, walked.calls, reverts, raised, finalized))
    {
      hide Right, CutRight, Flat, FlatStamps, FlatOrders, HeaderRight, OpenedRight, Restored, WalkOver, DoneRight;
      WalkOverIs(refs, o, done, cut, walked);
    }

    lemma TraceLogged(refs: set<IdentityId>, o: Opening, done: seq<Segment>, cut: Option<Cut>, walked: State,
                      reverts: seq<Event>, raised: bool, finalized: Option<nat>)
      requires Wired() && WalkOver(refs, o, done, cut, walked) && Reverted(walked, reverts, raised)
      ensures var t := TraceOf(o, done, cut, walked.calls, reverts, raised, finalized);
              Log(t) == walked.sink + Announcing(reverts) + Closing(t) &&
              Stamps(t) == walked.stamps + Since(walked.calls + 1, |reverts|) + ClosingStamps(t) &&
              OrderedRight(t) &&
              o.orders + Orders(x.hooks, t) ==
              walked.orders + RevertOrders(x.hooks, RevertsDue(x.hooks, walked.pending), walked.calls,
                                           |reverts| + (if raised then 1 else 0))
    {
      hide Right, CutRight, Flat, FlatStamps, FlatOrders, Restored, WalkOver, DoneRight, Reverting, LeftAfter, CutAfter;
      WalkOverIs(refs, o, done, cut, walked);
      var t := TraceOf(o, done, cut, walked.calls, reverts, raised, finalized);
      var asked :=
        RevertOrders(x.hooks, RevertsDue(x.hooks, walked.pending), walked.calls, |reverts| + (if raised then 1 else 0));
      assert o.orders + MutationOrders(t) + asked == o.orders + (MutationOrders(t) + asked);
    }

    /**
     One run, from preflight to the final record. Whatever the provider answers, what it leaves in the sink is
     the log of a valid trace, and what it asked of the provider are that trace's policy changes and no other: the
     mutations that returned are reverted last first even when the run is aborted, and the final record is written
     exactly when nothing raised.
     */
    method Orchestrate(maxDepth: nat) returns (failure: Option<RunError>, ghost t: Trace, ghost refs: set<IdentityId>)
      requires Wired() && ValidGraph(c.graph)
      requires sink == [] && stamps == [] && sequence == 0 && pendingReverts == [] && discarded == 0
      requires store.recorded == map[]
      modifies this, adapter, store, markers
      ensures ValidTrace(x, c, refs, t) && sink == Log(t) && stamps == Stamps(t)
      ensures OrderedRight(t) && adapter.orders == old(adapter.orders) + Orders(x.hooks, t)
      ensures failure.None? <==> t.finalized.Some?
      ensures sink != [] ==> PreflightPassed(old(adapter.calls))
      ensures failure.Some? && t.revertRaised.None? ==> Justified(maxDepth, refs, t, failure.value)
      ensures t.cut.Some? && t.revertRaised.None? ==> failure == Some(t.cut.value.error)
      ensures t.done != [] || t.cut.Some? ==> refs == MaterializedIds(c.graph) && Depth(c.graph.nodes) <= maxDepth
    {
      hide HeaderRight, PreflightPassed, Renewable, KnownEndpoints, RootUntargeted, Acyclic, Unmaterialized, ValidTrace,
           OpenedRight, Log, Stamps, Orders, MaterializedIds, RevertsDue, Walked, Justified;
      ghost var header;
      var ready: Result<MaterializedGraph, RunError>;
      ready, header := Open(maxDepth);
      assert sink == header && |stamps| == |header|;
      if ready.Err? {
        t, refs := Unopened(header, stamps), {};
        NothingDone(header, stamps);
        NotOpened(maxDepth, t, ready.error);
        return Some(ready.error), t, refs;
      }
      refs := ready.value.refs;
      ghost var o := Opening(header, stamps, Holdings(ready.value.credentials, map[]), adapter.calls, adapter.orders);
      NothingWalked(refs, o);
      failure, t := RunOpened(maxDepth, ready.value, o);
    }

    /** The part of a run that follows its opening: its plan, its reverts, and its final record. */
    method RunOpened(maxDepth: nat, m: MaterializedGraph, ghost o: Opening)
      returns (failure: Option<RunError>, ghost t: Trace)
      requires Wired() && OneRoot(c.graph.nodes) && Renewable(m) && m.refs == MaterializedIds(c.graph)
      requires HeaderRight(o.header) && |o.stamps| == |o.header| && OpenedRight(x, c, m.refs, o.header, o.initial)
      requires Walked(m.refs, o, [], Current(m))
      modifies this, adapter, m`credentials, store, markers
      ensures ValidTrace(x, c, m.refs, t) && sink == Log(t) && stamps == Stamps(t)
      ensures OrderedRight(t) && adapter.orders == o.orders + Orders(x.hooks, t)
      ensures failure.None? <==> t.finalized.Some?
      ensures failure.Some? && t.revertRaised.None? ==> Justified(maxDepth, m.refs, t, failure.value)
      ensures t.cut.Some? && t.revertRaised.None? ==> failure == Some(t.cut.value.error)
    {
      hide HeaderRight, Renewable, Excused, ValidTrace, OpenedRight, WalkOver, Reverting, Restored, Log, Stamps, Orders,
           MaterializedIds, RevertsDue, Walked, Justified, RevertOrders;
      ghost var done, cut, reverts;
      failure, done, cut := RunPlan(m, o);
      ghost var walked, refs := Current(m), m.refs;
      var raised: Option<RunError>;
      raised, reverts := RevertAll();
      ghost var finalized := if raised.Some? || failure.Some? then None else Some(discarded);
      t := TraceOf(o, done, cut, walked.calls, reverts, raised.Some?, finalized);
      TraceRight(refs, o, done, cut, walked, reverts, raised.Some?, finalized);
      TraceLogged(refs, o, done, cut, walked, reverts, raised.Some?, finalized);
      if raised.Some? {
        return raised, t;
      }
      if failure.Some? {
        StepJustified(maxDepth, refs, t, failure.value);
        return;
      }
      Write(Finalized(discarded));
    }

    lemma NotOpened(maxDepth: nat, t: Trace, error: RunError)
      requires OneRoot(c.graph.nodes) && (FromProvider(x.script, error) || Unmaterialized(maxDepth, error))
      ensures Justified(maxDepth, {}, t, error)
    {
    }

    lemma StepJustified(maxDepth: nat, refs: set<IdentityId>, t: Trace, error: RunError)
      requires OneRoot(c.graph.nodes) && refs == MaterializedIds(c.graph) && |t.done| < |c.plan|
      requires Excused(x, c, refs, c.plan[|t.done|], error)
      ensures Justified(maxDepth, refs, t, error)
    {
    }
  }

  // ---- When a run cannot fail ------------------------------------------------------------------

  /** Every step finds its plan, and every plan's target is an identity of the graph. */
  ghost predicate Complete(c: Compiled) {
    forall i :: 0 <= i < |c.plan| ==> StepComplete(c, c.plan[i])
  }

  ghost predicate StepComplete(c: Compiled, step: PlanStep) {
    var name := step.phaseName;
    match step.kind
    case Probe => name in c.matrices && ResolvePlanPhase(name).Some?
    case Snapshot => true
    case Wait => name in c.waits
    case _ => TargetOf(c, step).Some? && c.graph.Knows(TargetOf(c, step).value)
  }

  /** A provider that answers every call, and confirms every mutation. */
  ghost predicate Benign(script: Script) {
    (forall error :: !FromProvider(script, error)) && forall n :: !UnconfirmedReceipt(script, n)
  }

  lemma SourcesMaterialized(g: Graph, id: IdentityId)
    requires DelegationTree(g) && IsSource(g, id)
    ensures id in MaterializedIds(g)
  {
    var k :| 0 <= k < |g.edges| && g.edges[k].sourceId == id;
    assert g.edges[k].sourceId in ToSet(g.Ids());
  }

  lemma KnownMaterialized(g: Graph, id: IdentityId)
    requires DelegationTree(g) && g.Knows(id)
    ensures id in MaterializedIds(g)
  {
    KnownIds(g, id);
    assert id in ToSet(g.Ids());
  }

  lemma StepCannotFail(x: Setting, c: Compiled, refs: set<IdentityId>, step: PlanStep, error: RunError)
    requires DelegationTree(c.graph) && StepComplete(c, step) && Benign(x.script) && refs == MaterializedIds(c.graph)
    requires Excused(x, c, refs, step, error)
    ensures step.kind.Defer? && (error.NoPinnedCredential? || error.NotDelegated?)
  {
    if Unreachable(c, refs, step, error) {
      match error
      case NotMaterialized(id) => KnownMaterialized(c.graph, id);
      case MissingSource(id) => SourcesMaterialized(c.graph, id);
    }
  }

  /**
   On a delegation tree within the depth bound, with a complete plan and a provider that neither raises nor
   leaves a mutation unconfirmed, a run can end early for one reason only: a deferred execution whose
   credential source names nothing that could be pinned. Reverting cannot fail at all.
   */
  lemma OnlyTheProviderFails(run: Run, maxDepth: nat, refs: set<IdentityId>, t: Trace, error: RunError)
    requires DelegationTree(run.c.graph) && Depth(run.c.graph.nodes) <= maxDepth && Complete(run.c)
    requires Benign(run.x.script)
    requires run.Justified(maxDepth, refs, t, error)
    ensures |t.done| < |run.c.plan| && run.c.plan[|t.done|].kind.Defer? &&
            (error.NoPinnedCredential? || error.NotDelegated?)
  {
    var g := run.c.graph;
    forall i | 0 <= i < |g.edges| ensures SourceEarlier(Root(g).identityId, g.edges, i) {}
    if !run.Unmaterialized(maxDepth, error) {
      StepCannotFail(run.x, run.c, refs, run.c.plan[|t.done|], error);
    }
  }

  lemma RevertsCannotFail(x: Setting, due: seq<RevertPlan>, t: Trace)
    requires Benign(x.script) && RevertsEnd(x, due, t)
    ensures t.revertRaised.None? && |t.reverts| == |due|
  {
    if t.revertRaised.Some? {
      var n, plan := t.revertRaised.value, due[|t.reverts|];
      assert Raises(x.script, n, Restored(x.script, n, x.hooks, plan).error);
      assert FromProvider(x.script, Restored(x.script, n, x.hooks, plan).error);
    }
  }
}
