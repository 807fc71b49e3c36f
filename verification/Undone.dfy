/** What every run undoes: which of its mutations, by which calls, and what those calls restore. */
module Undone {
  import opened Wrappers
  import opened Outcomes
  import opened Models
  import opened Evidence
  import opened Logs
  import opened Adapters
  import opened Reverts
  import opened Runs
  import opened Traces
  import opened Scenarios
  import W = Walks
  import C = Compiler
  import T = CompiledTrees

  // ---- What is announced ------------------------------------------------------------------

  /** The plan restores what the graph expects of a planned mutation's target, and is for all kinds but one. */
  ghost predicate PlanIs(c: Compiled, plan: RevertPlan) {
    c.graph.Knows(plan.targetIdentity) && plan.declared == c.graph.NodeOf(plan.targetIdentity).expected &&
    (plan.actionable <==> plan.mutationKind != DeleteSessionPolicyScope) &&
    exists name :: name in c.mutations && c.mutations[name].targetIdentity == plan.targetIdentity &&
                   c.mutations[name].kind == plan.mutationKind
  }

  lemma BuiltPlanIs(c: Compiled, name: string)
    requires name in c.mutations
    requires BuildRevertPlan(c.graph, c.mutations[name].targetIdentity, c.mutations[name].kind).Ok?
    ensures PlanIs(c, BuildRevertPlan(c.graph, c.mutations[name].targetIdentity, c.mutations[name].kind).value)
  {
  }

  /** What a completed mutation step logged, sent and recorded. */
  lemma MutationStepIs(x: Setting, c: Compiled, refs: set<IdentityId>, s: Segment)
    requires c.Valid() && Right(x, c, refs, s) && s.detail.Mutated?
    ensures s.detail.applied.PolicyMutationApplied? && PlanIs(c, s.detail.plan)
    ensures s.detail.plan.targetIdentity == s.detail.applied.target &&
            s.detail.plan.mutationKind == s.detail.applied.kind
    ensures OrdersOf(s) == [Apply(s.from, s.detail.applied.target, s.detail.applied.kind, s.detail.applied.denies,
                                  s.detail.applied.grants)]
    ensures s.step.phaseName in c.mutations && Planned(c, s.step.phaseName, OrdersOf(s)[0])
  {
    BuiltPlanIs(c, s.step.phaseName);
  }

  /** The mutation asked for is the one the scenario plans under this name. */
  ghost predicate Planned(c: Compiled, name: string, o: Order)
    requires name in c.mutations
  {
    o.Apply? && o.target == c.mutations[name].targetIdentity && o.kind == c.mutations[name].kind &&
    o.denies == c.mutations[name].denies && o.grants == c.mutations[name].grants
  }

  /** Every revert-log entry among these records announces such a plan. */
  ghost predicate Announced(c: Compiled, records: seq<Record>) {
    forall k :: 0 <= k < |records| && IsLog(records[k]) ==> PlanIs(c, records[k].event.body.plan)
  }

  lemma AnnouncedBoth(c: Compiled, a: seq<Record>, b: seq<Record>)
    requires Announced(c, a) && Announced(c, b)
    ensures Announced(c, a + b)
  {
    hide PlanIs;
  }

  lemma NotAnnounced(c: Compiled, records: seq<Record>)
    requires forall k :: 0 <= k < |records| ==> !IsLog(records[k])
    ensures Announced(c, records)
  {
  }

  lemma StepAnnounced(x: Setting, c: Compiled, refs: set<IdentityId>, s: Segment)
    requires c.Valid() && Right(x, c, refs, s)
    ensures Announced(c, Written(s))
  {
    hide Right, PlanIs;
    if s.detail.Mutated? {
      MutationStepIs(x, c, refs, s);
    } else {
      OtherStepQuiet(x, c, refs, s);
      assert forall i :: 0 <= i < |Written(s)| ==> QuietRecord(Written(s)[i]);
      NotAnnounced(c, Written(s));
    }
  }

  lemma {:induction false} DoneAnnounced(x: Setting, c: Compiled, refs: set<IdentityId>, done: seq<Segment>)
    requires c.Valid() && DoneRight(x, c, refs, done)
    ensures Announced(c, Flat(done))
    decreases |done|
  {
    hide Right, Written, Announced;
    if done == [] {
      NotAnnounced(c, []);
    } else {
      DoneAnnounced(x, c, refs, done[..|done| - 1]);
      StepAnnounced(x, c, refs, done[|done| - 1]);
      AnnouncedBoth(c, Flat(done[..|done| - 1]), Written(done[|done| - 1]));
    }
  }

  lemma CutAnnounced(x: Setting, c: Compiled, refs: set<IdentityId>, cut: Cut)
    requires CutRight(x, c, refs, cut)
    ensures Announced(c, cut.records)
  {
    hide Prepared, MatrixFails;
    if cut.step.kind.Mutate? && cut.records != [] { BuiltPlanIs(c, cut.step.phaseName); }
  }

  /** In every run, what the revert log announces is to restore what the graph expects the target to hold. */
  lemma LogDeclares(x: Setting, c: Compiled, refs: set<IdentityId>, t: Trace)
    requires c.Valid() && ValidTrace(x, c, refs, t)
    ensures Announced(c, Log(t))
  {
    hide Right, CutRight, OpenedRight, RevertsMade, RevertsEnd, LeftAfter, CutAfter, PlanIs, Flat, Announced,
      HeaderRight,
         DoneRight, RevertsRight;
    DoneAnnounced(x, c, refs, t.done);
    HeaderAnnounced(c, t);
    if t.cut.Some? { CutAnnounced(x, c, refs, t.cut.value); }
    NotAnnounced(c, []);
    TailAnnounced(x, c, t);
    AnnouncedBoth(c, t.header, Flat(t.done));
    AnnouncedBoth(c, t.header + Flat(t.done), CutRecords(t));
    LogSplits(t);
    AnnouncedBoth(c, Body(t), Announcing(t.reverts) + Closing(t));
  }

  lemma HeaderAnnounced(c: Compiled, t: Trace)
    requires HeaderRight(t.header)
    ensures Announced(c, t.header)
  {
    HeaderIsQuiet(t.header);
    NotAnnounced(c, t.header);
  }

  lemma TailAnnounced(x: Setting, c: Compiled, t: Trace)
    requires RevertsRight(RevertsDue(x.hooks, PlansOf(t.done)), Reached(t), t.reverts)
    ensures Announced(c, Announcing(t.reverts) + Closing(t))
  {
    NotAnnounced(c, Announcing(t.reverts) + Closing(t));
  }

  // ---- What is undone ----------------------------------------------------------------------

  /** A mutation of this kind is undone: every one that changes a policy, a trust policy through its own hook only. */
  predicate Undoable(hooks: Hooks, kind: MutationKind) {
    match kind
    case AttachInlineDeny => true
    case RemoveInlinePolicy => true
    case ReplaceInlinePolicy => true
    case RevokeOlderSessions => true
    case UpdateTrustPolicy => hooks.trustPolicy
    case DeleteSessionPolicyScope => false
  }

  /** The call undoes a mutation of this kind on this target: it restores what the graph expects the target to hold. */
  ghost predicate Undoes(g: Graph, hooks: Hooks, o: Order, target: IdentityId, kind: MutationKind) {
    g.Knows(target) && o.target == target && Undoable(hooks, kind) &&
    match o
    case RestoreTrust(_, _) => kind.UpdateTrustPolicy? && hooks.trustPolicy
    case RestoreDeclared(_, _, declared) =>
      !kind.UpdateTrustPolicy? && hooks.declaredPolicy && declared == g.NodeOf(target).expected
    case Apply(_, _, replace, denies, grants) =>
      !kind.UpdateTrustPolicy? && !hooks.declaredPolicy && replace.ReplaceInlinePolicy? && denies == {} &&
      grants == g.NodeOf(target).expected
  }

  lemma UndoingUndoes(c: Compiled, hooks: Hooks, plan: RevertPlan, calls: nat)
    requires PlanIs(c, plan)
    ensures Revertible(hooks, plan) <==> Undoable(hooks, plan.mutationKind)
    ensures Revertible(hooks, plan) ==>
              Undoes(c.graph, hooks, Undoing(calls, hooks, plan), plan.targetIdentity, plan.mutationKind)
  {
  }

  /** Step k completed a mutation that is to be undone. */
  ghost predicate LeavesToUndo(hooks: Hooks, done: seq<Segment>, k: int) {
    0 <= k < |done| && done[k].detail.Mutated? && done[k].detail.applied.PolicyMutationApplied? &&
    Undoable(hooks, done[k].detail.applied.kind)
  }

  /** The steps whose mutations are to be undone, the last one first. */
  ghost predicate ToUndo(hooks: Hooks, done: seq<Segment>, at: seq<nat>) {
    (forall i, j :: 0 <= i < j < |at| ==> at[j] < at[i]) && forall k: nat :: k in at <==> LeavesToUndo(hooks, done, k)
  }

  lemma OneMoreStep(hooks: Hooks, done: seq<Segment>, before: seq<nat>, at: seq<nat>)
    requires done != [] && ToUndo(hooks, done[..|done| - 1], before)
    requires at == if LeavesToUndo(hooks, done, |done| - 1) then [|done| - 1] + before else before
    ensures ToUndo(hooks, done, at)
  {
    hide Undoable;
    var front := done[..|done| - 1];
    forall i | 0 <= i < |before| ensures before[i] < |front| { assert before[i] in before; }
    forall k: nat ensures k in at <==> LeavesToUndo(hooks, done, k) {
      if k < |front| { assert front[k] == done[k]; }
    }
  }

  lemma {:induction false} DueSteps(x: Setting, c: Compiled, refs: set<IdentityId>, done: seq<Segment>)
    returns (at: seq<nat>)
    requires c.Valid() && DoneRight(x, c, refs, done)
    ensures ToUndo(x.hooks, done, at) && |at| == |RevertsDue(x.hooks, PlansOf(done))|
    ensures forall i :: 0 <= i < |at| ==>
              at[i] < |done| && done[at[i]].detail.Mutated? &&
              RevertsDue(x.hooks, PlansOf(done))[i] == done[at[i]].detail.plan
    decreases |done|
  {
    hide Right, PlanIs, Undoable, Revertible, ToUndo, RevertsDue;
    if done == [] {
      at := [];
      NothingToUndo(x.hooks);
    } else {
      var front, last := done[..|done| - 1], done[|done| - 1];
      var before := DueSteps(x, c, refs, front);
      at := before;
      if last.detail.Mutated? {
        MutationStepIs(x, c, refs, last);
        UndoingUndoes(c, x.hooks, last.detail.plan, 0);
        DuePlan(x.hooks, PlansOf(front), last.detail.plan);
        if Revertible(x.hooks, last.detail.plan) { at := [|front|] + before; }
      } else {
        assert PlansOf(done) == PlansOf(front);
      }
      OneMoreStep(x.hooks, done, before, at);
      DueAt(RevertsDue(x.hooks, PlansOf(done)), RevertsDue(x.hooks, PlansOf(front)), done, before, at);
    }
  }

  lemma DueAt(due: seq<RevertPlan>, earlier: seq<RevertPlan>, done: seq<Segment>, before: seq<nat>, at: seq<nat>)
    requires done != [] && |before| == |earlier|
    requires forall i :: 0 <= i < |before| ==>
               before[i] < |done| - 1 && done[..|done| - 1][before[i]].detail.Mutated? &&
               earlier[i] == done[..|done| - 1][before[i]].detail.plan
    requires (at == before && due == earlier) ||
             (done[|done| - 1].detail.Mutated? && at == [|done| - 1] + before &&
              due == [done[|done| - 1].detail.plan] + earlier)
    ensures |at| == |due|
    ensures forall i :: 0 <= i < |at| ==>
              at[i] < |done| && done[at[i]].detail.Mutated? && due[i] == done[at[i]].detail.plan
  {
    forall i | 0 <= i < |before| ensures done[before[i]] == done[..|done| - 1][before[i]] {}
  }

  lemma NothingToUndo(hooks: Hooks)
    ensures ToUndo(hooks, [], []) && RevertsDue(hooks, PlansOf([])) == []
  {
  }

  lemma DuePlan(hooks: Hooks, plans: seq<RevertPlan>, plan: RevertPlan)
    ensures RevertsDue(hooks, plans + [plan]) ==
            (if Revertible(hooks, plan) then [plan] else []) + RevertsDue(hooks, plans)
  {
    assert (plans + [plan])[..|plans|] == plans;
  }

  // ---- The calls of a run ---------------------------------------------------------------------

  /** Every mutation asked for is one the scenario plans. */
  ghost predicate AllPlanned(c: Compiled, orders: seq<Order>) {
    forall k :: 0 <= k < |orders| ==> IsPlanned(c, orders[k])
  }

  ghost predicate IsPlanned(c: Compiled, o: Order) {
    exists name :: name in c.mutations && Planned(c, name, o)
  }

  lemma PlannedBoth(c: Compiled, a: seq<Order>, b: seq<Order>)
    requires AllPlanned(c, a) && AllPlanned(c, b)
    ensures AllPlanned(c, a + b)
  {
    hide IsPlanned;
  }

  lemma {:induction false} DonePlanned(x: Setting, c: Compiled, refs: set<IdentityId>, done: seq<Segment>)
    requires c.Valid() && DoneRight(x, c, refs, done)
    ensures AllPlanned(c, FlatOrders(done))
    decreases |done|
  {
    hide Right, Planned, PlanIs, AllPlanned, OrdersOf;
    if done == [] {
      NothingPlanned(c);
    } else {
      DonePlanned(x, c, refs, done[..|done| - 1]);
      StepPlanned(x, c, refs, done[|done| - 1]);
      PlannedBoth(c, FlatOrders(done[..|done| - 1]), OrdersOf(done[|done| - 1]));
    }
  }

  lemma NothingPlanned(c: Compiled)
    ensures AllPlanned(c, [])
  {
  }

  lemma StepPlanned(x: Setting, c: Compiled, refs: set<IdentityId>, s: Segment)
    requires c.Valid() && Right(x, c, refs, s)
    ensures AllPlanned(c, OrdersOf(s))
  {
    hide Right, Planned, PlanIs;
    if s.detail.Mutated? {
      MutationStepIs(x, c, refs, s);
      assert IsPlanned(c, OrdersOf(s)[0]);
    }
  }

  lemma CutPlanned(x: Setting, c: Compiled, refs: set<IdentityId>, cut: Cut)
    requires CutRight(x, c, refs, cut)
    ensures AllPlanned(c, cut.orders)
  {
    hide RenewalsCut, Sent;
    if cut.orders != [] { assert Planned(c, cut.step.phaseName, cut.orders[0]) && IsPlanned(c, cut.orders[0]); }
  }

  /**
   What every run asks of the provider. First the mutations of its plan, as the scenario has them; then, one for each
   mutation that returned and is to be undone, last first, a call that restores what the graph expects the target to
   hold: through the hook for its kind, or else by a fresh mutation that grants it. All of them are made unless one
   raises, and which kinds are undone is decided by the kind and the trust hook alone.
   */
  lemma RunRestores(x: Setting, c: Compiled, refs: set<IdentityId>, t: Trace) returns (at: seq<nat>)
    requires c.Valid() && ValidTrace(x, c, refs, t)
    ensures ToUndo(x.hooks, t.done, at) && AllPlanned(c, MutationOrders(t))
    ensures |t.reverts| + (if t.revertRaised.Some? then 1 else 0) <= |RevertsDue(x.hooks, PlansOf(t.done))|
    ensures var orders, n := Orders(x.hooks, t), |MutationOrders(t)|;
            MutationOrders(t) <= orders && |orders| - n <= |at| && (t.revertRaised.None? ==> |orders| - n == |at|) &&
            forall i :: 0 <= i < |orders| - n ==>
              LeavesToUndo(x.hooks, t.done, at[i]) && orders[n + i].at == t.left + i &&
              Undoes(c.graph, x.hooks, orders[n + i], t.done[at[i]].detail.applied.target,
                     t.done[at[i]].detail.applied.kind)
  {
    hide Right, CutRight, OpenedRight, RevertsMade, LeftAfter, CutAfter, HeaderRight, RevertsRight, PlanIs, Planned,
      ToUndo,
         AllPlanned, Undoes, FlatOrders, DoneRight;
    at := DueSteps(x, c, refs, t.done);
    MutationsPlanned(x, c, refs, t);
    var orders, n := Orders(x.hooks, t), |MutationOrders(t)|;
    forall i | 0 <= i < |orders| - n
      ensures LeavesToUndo(x.hooks, t.done, at[i]) && orders[n + i].at == t.left + i &&
              Undoes(c.graph, x.hooks, orders[n + i], t.done[at[i]].detail.applied.target,
                     t.done[at[i]].detail.applied.kind)
    {
      StepUndone(x, c, refs, t, at, i);
    }
  }

  lemma MutationsPlanned(x: Setting, c: Compiled, refs: set<IdentityId>, t: Trace)
    requires c.Valid() && ValidTrace(x, c, refs, t)
    ensures AllPlanned(c, MutationOrders(t))
  {
    hide Right, CutRight, OpenedRight, RevertsMade, RevertsEnd, LeftAfter, CutAfter, HeaderRight, RevertsRight, Planned,
         FlatOrders, DoneRight, AllPlanned;
    DonePlanned(x, c, refs, t.done);
    NothingPlanned(c);
    if t.cut.Some? { CutPlanned(x, c, refs, t.cut.value); }
    PlannedBoth(c, FlatOrders(t.done), if t.cut.Some? then t.cut.value.orders else []);
  }

  lemma StepUndone(x: Setting, c: Compiled, refs: set<IdentityId>, t: Trace, at: seq<nat>, i: nat)
    requires c.Valid() && DoneRight(x, c, refs, t.done) && ToUndo(x.hooks, t.done, at) && i < |at|
    requires |at| == |RevertsDue(x.hooks, PlansOf(t.done))| && at[i] < |t.done| && t.done[at[i]].detail.Mutated?
    requires RevertsDue(x.hooks, PlansOf(t.done))[i] == t.done[at[i]].detail.plan
    ensures LeavesToUndo(x.hooks, t.done, at[i])
    ensures var s := t.done[at[i]];
            Undoing(t.left + i, x.hooks, s.detail.plan).at == t.left + i &&
            Undoes(c.graph, x.hooks, Undoing(t.left + i, x.hooks, s.detail.plan), s.detail.applied.target,
                   s.detail.applied.kind)
  {
    hide Right, DoneRight, PlanIs, RevertsDue, Undoes, Undoable;
    assert at[i] in at;
    DoneStep(x, c, refs, t.done, at[i]);
    MutationStepIs(x, c, refs, t.done[at[i]]);
    UndoingUndoes(c, x.hooks, t.done[at[i]].detail.plan, t.left + i);
  }

  // ---- What was answered -----------------------------------------------------------------------

  /**
   What a completed mutation recorded is the provider's own receipt for that call; if the scenario asks for a receipt,
   it was confirmed.
   */
  lemma ReceiptKept(x: Setting, c: Compiled, refs: set<IdentityId>, t: Trace, k: nat)
    requires c.Valid() && ValidTrace(x, c, refs, t) && k < |t.done| && t.done[k].detail.Mutated?
    ensures var s := t.done[k];
            s.detail.applied.PolicyMutationApplied? && s.step.phaseName in c.mutations &&
            s.detail.applied.target in refs &&
            x.script.receipts(s.from) == Ok(Receipt(s.detail.applied.confirmed, s.detail.applied.sentNs)) &&
            (c.mutations[s.step.phaseName].recordReceipt ==> s.detail.applied.confirmed)
  {
    hide DoneRight, CutRight, OpenedRight, RevertsMade, RevertsEnd, LeftAfter, CutAfter, HeaderRight, RevertsRight;
    DoneStep(x, c, refs, t.done, k);
  }

  /**
   Why a run stops at a mutation it has announced: the target was never materialized, the provider raised, or it
   confirmed nothing though a receipt was asked for.
   */
  lemma MutationRaises(x: Setting, c: Compiled, refs: set<IdentityId>, t: Trace)
    requires c.Valid() && ValidTrace(x, c, refs, t)
    requires t.cut.Some? && t.cut.value.step.kind.Mutate? && t.cut.value.records != []
    ensures var cut := t.cut.value;
            cut.step.phaseName in c.mutations &&
            var plan, receipt := c.mutations[cut.step.phaseName], x.script.receipts(cut.from);
            if plan.targetIdentity !in refs then cut.error == NotMaterialized(plan.targetIdentity)
            else receipt == Err(cut.error) ||
                 (receipt.Ok? && plan.recordReceipt && !receipt.value.confirmed && cut.error == MutationNotConfirmed)
  {
    hide DoneRight, OpenedRight, RevertsMade, RevertsEnd, LeftAfter, CutAfter, HeaderRight, RevertsRight,
         BuildRevertPlan;
  }

  /** The provider's answer to a restoring call. */
  function AnswerTo(script: Script, o: Order): Result<bool, RunError> {
    if !o.Apply? then script.restores(o.at)
    else if script.receipts(o.at).Err? then Err(script.receipts(o.at).error)
    else Ok(script.receipts(o.at).value.confirmed)
  }

  /** Every revert recorded carries the answer to its own call, and if one raised it was the last. */
  lemma RevertsAnswered(x: Setting, c: Compiled, refs: set<IdentityId>, t: Trace)
    requires c.Valid() && ValidTrace(x, c, refs, t)
    ensures |t.reverts| + (if t.revertRaised.Some? then 1 else 0) <= |RevertsDue(x.hooks, PlansOf(t.done))|
    ensures var orders, n := Orders(x.hooks, t), |MutationOrders(t)|;
            |orders| == n + |t.reverts| + (if t.revertRaised.Some? then 1 else 0) &&
            (forall i :: 0 <= i < |t.reverts| ==>
               t.reverts[i].body.MutationReverted? &&
               AnswerTo(x.script, orders[n + i]) == Ok(t.reverts[i].body.confirmed)) &&
            (t.revertRaised.Some? ==> AnswerTo(x.script, orders[n + |t.reverts|]).Err?)
  {
    hide Right, CutRight, OpenedRight, LeftAfter, CutAfter, HeaderRight, DoneRight, FlatOrders, RevertsDue, PlansOf;
  }

  /**
   In a compiled graph, what such a call restores is what the specification intends the target to hold: the root's
   capabilities met with the intents along the last chain of lookups that visits it.
   */
  lemma RestoresIntent(spec: Spec, c: Compiled, hooks: Hooks, o: Order, target: IdentityId, kind: MutationKind)
    returns (s: int)
    requires T.Compiled(spec, c.graph) && Undoes(c.graph, hooks, o, target, kind)
    ensures C.LastVisit(spec, target, s)
    ensures o.RestoreDeclared? ==> forall k :: k in o.declared <==> W.HeldAlong(spec, C.Walk(spec)[s], k)
    ensures o.Apply? ==> forall k :: k in o.grants <==> W.HeldAlong(spec, C.Walk(spec)[s], k)
  {
    var i :| 0 <= i < |c.graph.nodes| && c.graph.nodes[i].identityId == target;
    T.CompiledIds(spec, c.graph);
    assert c.graph.Ids()[i] == target;
    hide T.Compiled, W.HeldAlong, C.Walk, C.LastVisit;
    s := T.SourceVisit(spec, c.graph, target);
  }
}
