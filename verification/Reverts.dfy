/** Applying one policy mutation, and undoing it from the plan logged before it was sent. */
module Reverts {
  import opened Wrappers
  import opened Outcomes
  import opened Models
  import opened Evidence
  import opened Adapters

  datatype MutationPlan = MutationPlan(phaseName: string, targetIdentity: IdentityId, kind: MutationKind,
                                       denies: AuthoritySet, grants: AuthoritySet, recordReceipt: bool)

  /** Every kind but one is undone; only the session policy scope is left alone. */
  predicate Actionable(kind: MutationKind) {
    !kind.DeleteSessionPolicyScope?
  }

  function BuildRevertPlan(g: Graph, target: IdentityId, kind: MutationKind): Result<RevertPlan, RunError> {
    if !g.Knows(target) then Err(NoSuchIdentity(target))
    else Ok(RevertPlan(target, kind, g.NodeOf(target).expected, Actionable(kind)))
  }

  /** The answer to the mutation request, as the run sees it. */
  function Sent(script: Script, calls: nat, refs: set<IdentityId>, plan: MutationPlan): Result<Receipt, RunError> {
    if plan.targetIdentity !in refs then Err(NotMaterialized(plan.targetIdentity))
    else if script.receipts(calls).Err? then Err(script.receipts(calls).error)
    else if plan.recordReceipt && !script.receipts(calls).value.confirmed then Err(MutationNotConfirmed)
    else script.receipts(calls)
  }

  /** What is asked of the provider: the mutation, unless its target was never materialized. */
  function Asked(calls: nat, refs: set<IdentityId>, plan: MutationPlan): seq<Order> {
    if plan.targetIdentity in refs
    then [Apply(calls, plan.targetIdentity, plan.kind, plan.denies, plan.grants)]
    else []
  }

  /** An unconfirmed mutation was sent all the same when it raises. */
  method ApplyMutation(adapter: Adapter, refs: set<IdentityId>, plan: MutationPlan,
                       sequence: nat) returns (r: Result<Event, RunError>)
    modifies adapter`calls, adapter`orders
    ensures adapter.orders == old(adapter.orders) + Asked(old(adapter.calls), refs, plan)
    ensures adapter.calls == old(adapter.calls) + |Asked(old(adapter.calls), refs, plan)|
    ensures var sent := Sent(adapter.script, old(adapter.calls), refs, plan);
            r == if sent.Err? then Err(sent.error)
                 else Ok(Event(sequence,
                               PolicyMutationApplied(plan.targetIdentity, plan.kind, plan.denies, plan.grants,
                                                     sent.value.sentNs, sent.value.confirmed)))
  {
    if plan.targetIdentity !in refs {
      return Err(NotMaterialized(plan.targetIdentity));
    }
    var receipt := adapter.ApplyPolicyMutation(plan.targetIdentity, plan.kind, plan.denies, plan.grants);
    if receipt.Err? {
      return Err(receipt.error);
    }
    if plan.recordReceipt && !receipt.value.confirmed {
      return Err(MutationNotConfirmed);
    }
    return Ok(Event(sequence,
                    PolicyMutationApplied(plan.targetIdentity, plan.kind, plan.denies, plan.grants,
                                          receipt.value.sentNs,
                                          receipt.value.confirmed)));
  }

  /** The optional restore operations an adapter may offer. */
  datatype Hooks = Hooks(trustPolicy: bool, declaredPolicy: bool)

  /** Something is done about this plan: it is actionable, and a trust policy needs its own hook. */
  predicate Revertible(hooks: Hooks, plan: RevertPlan) {
    plan.actionable && (plan.mutationKind.UpdateTrustPolicy? ==> hooks.trustPolicy)
  }

  /** Restored through the hook for its kind; without the declared-policy hook, by a fresh mutation. */
  function Restored(script: Script, calls: nat, hooks: Hooks, plan: RevertPlan): Result<bool, RunError> {
    if plan.mutationKind.UpdateTrustPolicy? || hooks.declaredPolicy then script.restores(calls)
    else if script.receipts(calls).Err? then Err(script.receipts(calls).error)
    else Ok(script.receipts(calls).value.confirmed)
  }

  /** What is asked of the provider to undo a mutation. */
  function Undoing(calls: nat, hooks: Hooks, plan: RevertPlan): Order {
    if plan.mutationKind.UpdateTrustPolicy? then RestoreTrust(calls, plan.targetIdentity)
    else if hooks.declaredPolicy then RestoreDeclared(calls, plan.targetIdentity, plan.declared)
    else Apply(calls, plan.targetIdentity, ReplaceInlinePolicy, {}, plan.declared)
  }

  method RevertMutation(adapter: Adapter, hooks: Hooks, plan: RevertPlan,
                        sequence: nat) returns (r: Result<Option<Event>, RunError>)
    modifies adapter`calls, adapter`orders
    ensures !Revertible(hooks, plan) ==>
              r == Ok(None) && adapter.calls == old(adapter.calls) && adapter.orders == old(adapter.orders)
    ensures Revertible(hooks, plan) ==>
              adapter.orders == old(adapter.orders) + [Undoing(old(adapter.calls), hooks, plan)]
    ensures Revertible(hooks, plan) ==>
              var restored := Restored(adapter.script, old(adapter.calls), hooks, plan);
              adapter.calls == old(adapter.calls) + 1 &&
              r == if restored.Err? then
                Err(restored.error) else Ok(Some(Event(sequence, MutationReverted(plan, restored.value))))
  {
    if !plan.actionable {
      return Ok(None);
    }
    var confirmed: bool;
    if plan.mutationKind.UpdateTrustPolicy? {
      if !hooks.trustPolicy {
        return Ok(None);
      }
      var restored := adapter.RestoreTrustPolicy(plan.targetIdentity);
      if restored.Err? {
        return Err(restored.error);
      }
      confirmed := restored.value;
    } else if hooks.declaredPolicy {
      var restored := adapter.RestoreDeclaredPolicy(plan.targetIdentity, plan.declared);
      if restored.Err? {
        return Err(restored.error);
      }
      confirmed := restored.value;
    } else {
      var receipt := adapter.ApplyPolicyMutation(plan.targetIdentity, ReplaceInlinePolicy, {}, plan.declared);
      if receipt.Err? {
        return Err(receipt.error);
      }
      confirmed := receipt.value.confirmed;
    }
    return Ok(Some(Event(sequence, MutationReverted(plan, confirmed))));
  }
}
