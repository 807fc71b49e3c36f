/** Waiting, and probing with a credential pinned at an earlier phase before a fresh one is minted. */
module Deferred {
  import opened Wrappers
  import opened Outcomes
  import opened Models
  import opened Evidence
  import opened Adapters
  import opened Probes
  import opened Delegation

  datatype DeferredPlan = DeferredPlan(phaseName: string, targetIdentity: IdentityId, capabilities: seq<Capability>,
                                       credentialSource: string)

  datatype DeferredRun = DeferredRun(observations: seq<Observation>, events: seq<Event>, nextSequence: nat)

  const PHASE_PREFIX := "phase:"

  function RemovePrefix(s: string, prefix: string): string {
    if prefix <= s then s[|prefix|..] else s
  }

  // ---- Pinned credentials -----------------------------------------------------------------

  /** Which credential was current for an identity as of a phase. */
  class CredentialStore {
    var recorded: map<(string, IdentityId), Option<Credential>>

    constructor ()
      ensures recorded == map[]
    {
      recorded := map[];
    }

    method Record(phaseName: string, id: IdentityId, credential: Option<Credential>)
      modifies this
      ensures recorded == old(recorded)[(phaseName, id) := credential]
    {
      recorded := recorded[(phaseName, id) := credential];
    }
  }

  /** A phase that never ran for the identity, and one that ran for the root, have nothing to pin. */
  function Pinned(recorded: map<(string, IdentityId), Option<Credential>>, source: string,
                  id: IdentityId): Result<Credential, RunError> {
    var key := (RemovePrefix(source, PHASE_PREFIX), id);
    if key !in recorded || recorded[key].None? then Err(NoPinnedCredential) else Ok(recorded[key].value)
  }

  // ---- Waiting ------------------------------------------------------------------------------

  method RunWaitPhase(adapter: Adapter, phaseName: string, sequence: nat) returns (r: Result<Event, RunError>)
    modifies adapter`calls
    ensures var waited := adapter.script.checks(old(adapter.calls));
            r == if waited.Err? then Err(waited.error) else Ok(Event(sequence, WaitCompleted(phaseName)))
    ensures adapter.calls == old(adapter.calls) + 1
  {
    var waited := adapter.Check();
    if waited.Err? {
      return Err(waited.error);
    }
    return Ok(Event(sequence, WaitCompleted(phaseName)));
  }

  // ---- One leg --------------------------------------------------------------------------------

  function Leg(plan: DeferredPlan): (r: seq<Request>)
    ensures |r| == |plan.capabilities|
  {
    seq(|plan.capabilities|,
        i requires 0 <= i < |plan.capabilities| => Request(plan.targetIdentity, plan.capabilities[i], 1))
  }

  function LegTag(plan: DeferredPlan, phase: PlanPhase): Tag {
    Tag(phase, "pm-" + plan.phaseName)
  }

  function LegError(script: Script, base: nat, n: nat): Option<RunError> {
    if n == 0 then
      None
    else
      var before := LegError(script, base, n - 1);
      if before.Some? then before
      else if script.probes(base + n - 1).Err? then Some(script.probes(base + n - 1).error) else None
  }

  lemma {:induction false} LegFails(script: Script, base: nat, k: nat, n: nat)
    requires k <= n && LegError(script, base, k).Some?
    ensures LegError(script, base, n) == LegError(script, base, k)
    decreases n
  {
    if k < n { LegFails(script, base, k, n - 1); }
  }

  lemma {:induction false} LegErrorFrom(script: Script, base: nat, n: nat)
    ensures LegError(script, base, n).Some? ==> FromProvider(script, LegError(script, base, n).value)
  {
    if n > 0 {
      LegErrorFrom(script, base, n - 1);
      var answer := script.probes(base + n - 1);
      if answer.Err? { assert Raises(script, base + n - 1, answer.error); }
    }
  }

  /** The leg is probed capability by capability, up to the first probe that raises. */
  ghost predicate LegDone(script: Script, base: nat, start: nat, plan: DeferredPlan, phase: PlanPhase,
                          r: Result<seq<Observation>, RunError>) {
    var error := LegError(script, base, |plan.capabilities|);
    if error.Some? then
      r == Err(error.value)
    else
      r.Ok? && |r.value| == |plan.capabilities| &&
      Recorded(script, base, start, LegTag(plan, phase), Leg(plan), r.value)
  }

  method ProbeLeg(adapter: Adapter, plan: DeferredPlan, phase: PlanPhase,
                  sequence: nat) returns (r: Result<seq<Observation>, RunError>)
    modifies adapter`calls, adapter`probed
    ensures LegDone(adapter.script, old(adapter.calls), sequence, plan, phase, r)
    ensures r.Ok? ==> adapter.calls == old(adapter.calls) + |plan.capabilities|
  {
    var observations: seq<Observation> := [];
    ghost var script, base, all := adapter.script, adapter.calls, Leg(plan);
    for k := 0 to |plan.capabilities|
      invariant adapter.calls == base + k && |observations| == k
      invariant LegError(script, base, k).None?
      invariant Recorded(script, base, sequence, LegTag(plan, phase), all[..k], observations)
    {
      var q := Request(plan.targetIdentity, plan.capabilities[k], 1);
      var asked := Ask(adapter, LegTag(plan, phase), q, sequence + |observations|);
      if asked.Err? {
        LegFails(script, base, k + 1, |plan.capabilities|);
        return Err(asked.error);
      }
      assert RecordedAt(script, base, sequence, LegTag(plan, phase), k, q, asked.value);
      RecordedSnoc(script, base, sequence, LegTag(plan, phase), all[..k], observations, q, asked.value);
      assert all[..k] + [q] == all[..k + 1];
      observations := observations + [asked.value];
    }
    assert all[..|plan.capabilities|] == all;
    return Ok(observations);
  }

  // ---- Both legs --------------------------------------------------------------------------------

  /** The state the phase starts from, as far as it matters to it. */
  datatype Before = Before(refs: set<IdentityId>, edge: Option<Edge>, pinned: Result<Credential, RunError>)

  function RefusalOf(b: Before, plan: DeferredPlan): Option<RunError> {
    if plan.targetIdentity !in b.refs then Some(NotMaterialized(plan.targetIdentity))
    else if b.edge.None? then Some(NotDelegated(plan.targetIdentity))
    else if b.pinned.Err? then Some(b.pinned.error)
    else None
  }

  /** Both legs were probed, the second only after a fresh credential was minted between them. */
  ghost predicate PairedLegs(script: Script, base: nat, start: nat, plan: DeferredPlan, pinned: Credential,
                             run: DeferredRun) {
    var n := |plan.capabilities|;
    var minted := script.delegations(base + n);
    |run.observations| == 2 * n && minted.Ok? && run.nextSequence == start + 2 * n + 1 &&
    run.events ==
      [Event(start + n, PairedFreshCredentialMinted(plan.phaseName, pinned.credentialId, minted.value.credentialId))] &&
    Recorded(script, base, start, LegTag(plan, PlanPhase.DeferredExecution), Leg(plan), run.observations[..n]) &&
    Recorded(script, base + n + 1, start + n + 1, LegTag(plan, PairedFreshCredential), Leg(plan), run.observations[n..])
  }

  /** Only the pinned leg was probed; the refusal to mint takes the number after it. */
  ghost predicate PinnedOnly(script: Script, base: nat, start: nat, plan: DeferredPlan, pinned: Credential,
                             run: DeferredRun) {
    var n := |plan.capabilities|;
    script.delegations(base + n) == Err(DelegationRefused) && run.nextSequence == start + n + 1 &&
    run.events == [Event(start + n, PairedFreshCredentialMintFailed(plan.phaseName, pinned.credentialId))] &&
    Recorded(script, base, start, LegTag(plan, PlanPhase.DeferredExecution), Leg(plan), run.observations)
  }

  /** A refused delegation ends the phase with the pinned leg alone; every other failure raises. */
  ghost predicate DeferredOutcome(script: Script, base: nat, start: nat, plan: DeferredPlan, b: Before,
                                  r: Result<DeferredRun, RunError>)
    requires RefusalOf(b, plan).None?
  {
    var n := |plan.capabilities|;
    var minted := script.delegations(base + n);
    if LegError(script, base, n).Some? then r == Err(LegError(script, base, n).value)
    else if b.edge.value.sourceId !in b.refs then r == Err(MissingSource(b.edge.value.sourceId))
    else if minted == Err(DelegationRefused) then
      r.Ok? && PinnedOnly(script, base, start, plan, b.pinned.value, r.value)
    else if minted.Err? then r == Err(minted.error)
    else if LegError(script, base + n + 1, n).Some? then r == Err(LegError(script, base + n + 1, n).value)
    else r.Ok? && PairedLegs(script, base, start, plan, b.pinned.value, r.value)
  }

  /** The credentials after the phase: renewed unconditionally once the pinned leg is done and the provider mints. */
  function Renewed(script: Script, base: nat, plan: DeferredPlan, b: Before,
                   credentials: map<IdentityId, Option<Credential>>): map<IdentityId, Option<Credential>> {
    var minted := script.delegations(base + |plan.capabilities|);
    if RefusalOf(b, plan).None? && LegError(script, base, |plan.capabilities|).None? &&
      b.edge.value.sourceId in b.refs && minted.Ok?
    then credentials[plan.targetIdentity := Some(minted.value)]
    else credentials
  }

  /** The fresh credential is asked for along the target's own edge, once the pinned leg is done. */
  function Requested(script: Script, base: nat, plan: DeferredPlan, b: Before): seq<Edge> {
    if RefusalOf(b, plan).None? && LegError(script, base, |plan.capabilities|).None? && b.edge.value.sourceId in b.refs
    then [b.edge.value] else []
  }

  method RunDeferredExecutionPhase(adapter: Adapter, materialized: MaterializedGraph, store: CredentialStore,
                                   plan: DeferredPlan, sequenceStart: nat)
    returns (r: Result<DeferredRun, RunError>)
    modifies adapter`calls, adapter`probed, adapter`delegated, materialized`credentials
    ensures var b := Before(materialized.refs, Lookup(materialized.edgesByTarget, plan.targetIdentity),
                            Pinned(store.recorded, plan.credentialSource, plan.targetIdentity));
            adapter.delegated == old(adapter.delegated) + Requested(adapter.script, old(adapter.calls), plan, b)
    ensures r.Ok? ==> adapter.calls == old(adapter.calls) + |r.value.observations| + 1
    ensures var b := Before(materialized.refs, Lookup(materialized.edgesByTarget, plan.targetIdentity),
                            Pinned(store.recorded, plan.credentialSource, plan.targetIdentity));
            if RefusalOf(b, plan).Some? then r == Err(RefusalOf(b, plan).value) && adapter.calls == old(adapter.calls)
            else DeferredOutcome(adapter.script, old(adapter.calls), sequenceStart, plan, b, r)
    ensures var b := Before(materialized.refs, Lookup(materialized.edgesByTarget, plan.targetIdentity),
                            Pinned(store.recorded, plan.credentialSource, plan.targetIdentity));
            materialized.credentials ==
              Renewed(adapter.script, old(adapter.calls), plan, b, old(materialized.credentials))
  {
    var id := plan.targetIdentity;
    if id !in materialized.refs {
      return Err(NotMaterialized(id));
    }
    var edge := Lookup(materialized.edgesByTarget, id);
    if edge.None? {
      return Err(NotDelegated(id));
    }
    var pinned := Pinned(store.recorded, plan.credentialSource, id);
    if pinned.Err? {
      return Err(pinned.error);
    }
    var before := ProbeLeg(adapter, plan, PlanPhase.DeferredExecution, sequenceStart);
    if before.Err? {
      return Err(before.error);
    }
    var sequence := sequenceStart + |before.value|;
    if edge.value.sourceId !in materialized.refs {
      return Err(MissingSource(edge.value.sourceId));
    }
    var minted := adapter.Delegate(edge.value);
    if minted.Err? {
      if minted.error.DelegationRefused? {
        var failed := Event(sequence, PairedFreshCredentialMintFailed(plan.phaseName, pinned.value.credentialId));
        return Ok(DeferredRun(before.value, [failed], sequence + 1));
      }
      return Err(minted.error);
    }
    materialized.Renew(id, minted.value);
    var announced :=
      Event(sequence,
            PairedFreshCredentialMinted(plan.phaseName, pinned.value.credentialId, minted.value.credentialId));
    sequence := sequence + 1;
    var after := ProbeLeg(adapter, plan, PairedFreshCredential, sequence);
    if after.Err? {
      return Err(after.error);
    }
    return Ok(DeferredRun(before.value + after.value, [announced], sequence + |after.value|));
  }

  /** Either way, the phase numbers its observations and its one event within its stretch. */
  lemma DeferredNumbered(script: Script, base: nat, start: nat, plan: DeferredPlan, b: Before, run: DeferredRun)
    requires RefusalOf(b, plan).None? && DeferredOutcome(script, base, start, plan, b, Ok(run))
    ensures ObservationsWithin(run.observations, start, run.nextSequence)
    ensures EventsWithin(run.events, start, run.nextSequence)
  {
    hide PinnedOnly, PairedLegs, LegError;
    if PinnedOnly(script, base, start, plan, b.pinned.value, run) {
      PinnedNumbered(script, base, start, plan, b.pinned.value, run);
    } else {
      PairNumbered(script, base, start, plan, b.pinned.value, run);
    }
  }

  lemma PinnedNumbered(script: Script, base: nat, start: nat, plan: DeferredPlan, pinned: Credential, run: DeferredRun)
    requires PinnedOnly(script, base, start, plan, pinned, run)
    ensures ObservationsWithin(run.observations, start, run.nextSequence)
    ensures EventsWithin(run.events, start, run.nextSequence)
  {
    RecordedWithin(script, base, start, LegTag(plan, PlanPhase.DeferredExecution), Leg(plan), run.observations);
  }

  lemma PairNumbered(script: Script, base: nat, start: nat, plan: DeferredPlan, pinned: Credential, run: DeferredRun)
    requires PairedLegs(script, base, start, plan, pinned, run)
    ensures ObservationsWithin(run.observations, start, run.nextSequence)
    ensures EventsWithin(run.events, start, run.nextSequence)
  {
    hide Recorded, ObservationsWithin, Leg;
    var n := |plan.capabilities|;
    var first, second := run.observations[..n], run.observations[n..];
    RecordedWithin(script, base, start, LegTag(plan, PlanPhase.DeferredExecution), Leg(plan), first);
    RecordedWithin(script, base + n + 1, start + n + 1, LegTag(plan, PairedFreshCredential), Leg(plan), second);
    ObservationsJoin(first, second, start, start + n, start + n + 1, run.nextSequence);
    assert first + second == run.observations;
  }

  /** Once it starts, only the provider, or an edge whose source was never materialized, can make the phase raise. */
  lemma DeferralErrorFrom(script: Script, base: nat, start: nat, plan: DeferredPlan, b: Before, error: RunError)
    requires RefusalOf(b, plan).None? && DeferredOutcome(script, base, start, plan, b, Err(error))
    ensures FromProvider(script, error) ||
            (error == MissingSource(b.edge.value.sourceId) && b.edge.value.sourceId !in b.refs)
  {
    var n := |plan.capabilities|;
    LegErrorFrom(script, base, n);
    LegErrorFrom(script, base + n + 1, n);
    if script.delegations(base + n) == Err(error) { assert Raises(script, base + n, error); }
  }
}
