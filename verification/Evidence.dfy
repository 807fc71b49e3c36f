/** What a run writes to its evidence sink, in the order it is written. */
module Evidence {
  import opened Outcomes
  import opened Models

  datatype MutationKind =
    | AttachInlineDeny
    | RemoveInlinePolicy
    | ReplaceInlinePolicy
    | UpdateTrustPolicy
    | RevokeOlderSessions
    | DeleteSessionPolicyScope

  datatype StopReason = StableDenial | StableAllow | Timeout

  datatype RevertPlan = RevertPlan(
    targetIdentity: IdentityId,
    mutationKind: MutationKind,
    declared: AuthoritySet,
    actionable: bool)

  datatype TaskStatus = Complete | Partial | Failed

  datatype StepOutcome = StepOutcome(capability: Capability, succeeded: bool, outcome: OutcomeClass)

  datatype TaskOutcome = TaskOutcome(
    taskId: string,
    identityId: IdentityId,
    status: TaskStatus,
    stepsTotal: nat,
    stepsAttempted: nat,
    stepsSucceeded: nat,
    stepOutcomes: seq<StepOutcome>,
    reportedInsufficientAuthority: bool,
    substituted: AuthoritySet,
    redelegationAttempts: nat,
    outputMarkerWritten: bool,
    outputMarkerVerified: bool)
  {
    predicate ClaimsCompleteButIsNot() {
      status.Complete? && stepsSucceeded < stepsTotal
    }

    predicate ClaimsOutputThatDoesNotExist() {
      outputMarkerWritten && !outputMarkerVerified
    }
  }

  datatype EventBody =
    | RevertLogWritten(plan: RevertPlan)
    | PolicyMutationApplied(target: IdentityId, kind: MutationKind, denies: AuthoritySet, grants: AuthoritySet,
                            sentNs: int, confirmed: bool)
    | MutationReverted(plan: RevertPlan, confirmed: bool)
    | MatrixDiscarded(phaseName: string)
    | CredentialRedelegated(identityId: IdentityId, previous: string, renewed: string)
    | ProbeOrderShuffled(identityId: IdentityId, order: seq<Capability>)
    | PollStopped(phaseName: string, reason: StopReason, pollCount: nat)
    | WaitCompleted(phaseName: string)
    | PairedFreshCredentialMinted(phaseName: string, pinned: string, minted: string)
    | PairedFreshCredentialMintFailed(phaseName: string, pinned: string)
    | RedelegationAttemptRefused(taskId: string)
    | TaskOutcomeRecorded(outcome: TaskOutcome)

  datatype Event = Event(sequence: nat, body: EventBody)

  datatype Record =
    | ScenarioWritten
    | EnvironmentWritten
    | GraphWritten
    | CredentialWritten(credentialId: string)
    | PolicyStateWritten(identityId: IdentityId)
    | ObservationWritten(observation: Observation)
    | EventWritten(event: Event)
    | Finalized(discarded: nat)

  /** Observation numbers of one stretch of a run: strictly increasing, from `low` up to but excluding `high`. */
  ghost predicate ObservationsWithin(observations: seq<Observation>, low: nat, high: nat) {
    low <= high &&
    (forall i :: 0 <= i < |observations| ==> low <= observations[i].sequence < high) &&
    (forall i, j :: 0 <= i < j < |observations| ==> observations[i].sequence < observations[j].sequence)
  }

  /** Event numbers of one stretch of a run: never decreasing, from `low` up to and including `high`. */
  ghost predicate EventsWithin(events: seq<Event>, low: nat, high: nat) {
    low <= high &&
    (forall i :: 0 <= i < |events| ==> low <= events[i].sequence <= high) &&
    (forall i, j :: 0 <= i < j < |events| ==> events[i].sequence <= events[j].sequence)
  }

  lemma ObservationsJoin(a: seq<Observation>, b: seq<Observation>, low: nat, mid: nat, mid': nat, high: nat)
    requires ObservationsWithin(a, low, mid) && mid <= mid' && ObservationsWithin(b, mid', high)
    ensures ObservationsWithin(a + b, low, high)
  {
  }

  lemma EventsJoin(a: seq<Event>, b: seq<Event>, low: nat, mid: nat, high: nat)
    requires EventsWithin(a, low, mid) && EventsWithin(b, mid, high)
    ensures EventsWithin(a + b, low, high)
  {
  }
}
