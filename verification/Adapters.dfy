/**
 The provider and the run clock, as an adversary: every call may return any answer or raise.
 Answers are indexed by the number of calls made so far.
 */
module Adapters {
  import opened Wrappers
  import opened Outcomes
  import opened Models
  import opened Evidence

  datatype RunError =
    | DeadlineExceeded
    | AdapterFailure
    | DelegationRefused
    | PreconditionFailed
    | ControlCapabilityFailed
    | MutationNotConfirmed
    | NotMaterialized(identityId: IdentityId)
    | NotDelegated(identityId: IdentityId)
    | NoPinnedCredential
    | NoPlanPhase(phaseName: string)
    | MissingPlan(phaseName: string)
    | MissingSource(identityId: IdentityId)
    | NoSuchIdentity(identityId: IdentityId)
    | ChainTooDeep
    | SafetyRefused

  datatype ProbeAnswer = ProbeAnswer(outcome: OutcomeClass, startNs: int)

  datatype Credential = Credential(credentialId: string, expiresAtS: real)

  datatype Receipt = Receipt(confirmed: bool, sentNs: int)

  /** Everything the outside world will ever answer. */
  datatype Script = Script(
    probes: nat -> Result<ProbeAnswer, RunError>,
    delegations: nat -> Result<Credential, RunError>,
    receipts: nat -> Result<Receipt, RunError>,
    restores: nat -> Result<bool, RunError>,
    checks: nat -> Result<(), RunError>,
    now: nat -> real,
    draws: (string, IdentityId, nat) -> nat)

  /** The n-th call, whichever kind it is, raises this. */
  ghost predicate Raises(script: Script, n: nat, error: RunError) {
    script.probes(n) == Err(error) || script.delegations(n) == Err(error) || script.receipts(n) == Err(error) ||
    script.restores(n) == Err(error) || script.checks(n) == Err(error)
  }

  /** The error was raised outside the run's own code. */
  ghost predicate FromProvider(script: Script, error: RunError) {
    exists n :: Raises(script, n, error)
  }

  /** A call that asks the provider to change a policy: the number of the call, and what it asks for. */
  datatype Order =
    | Apply(at: nat, target: IdentityId, kind: MutationKind, denies: AuthoritySet, grants: AuthoritySet)
    | RestoreTrust(at: nat, target: IdentityId)
    | RestoreDeclared(at: nat, target: IdentityId, declared: AuthoritySet)

  class Adapter {
    const script: Script
    var calls: nat
    /** Which probes reached the provider, in order. */
    var probed: seq<(IdentityId, Capability)>
    /** Which policy changes were asked of the provider, in order; whether it complied or raised is in its answers. */
    var orders: seq<Order>
    /** Along which edges delegations were asked of the provider, in order. */
    var delegated: seq<Edge>

    constructor (script: Script)
      ensures this.script == script && calls == 0 && probed == [] && orders == [] && delegated == []
    {
      this.script, calls, probed, orders, delegated := script, 0, [], [], [];
    }

    method Probe(identityId: IdentityId, capability: Capability) returns (r: Result<ProbeAnswer, RunError>)
      modifies this`calls, this`probed
      ensures r == script.probes(old(calls)) && calls == old(calls) + 1
      ensures probed == old(probed) + [(identityId, capability)]
    {
      r := script.probes(calls);
      calls, probed := calls + 1, probed + [(identityId, capability)];
    }

    /** Asks for the edge's target, from the edge's source, for as long and as much as the edge says. */
    method Delegate(e: Edge) returns (r: Result<Credential, RunError>)
      modifies this`calls, this`delegated
      ensures r == script.delegations(old(calls)) && calls == old(calls) + 1 && delegated == old(delegated) + [e]
    {
      r := script.delegations(calls);
      calls, delegated := calls + 1, delegated + [e];
    }

    method ApplyPolicyMutation(target: IdentityId, kind: MutationKind, denies: AuthoritySet, grants: AuthoritySet)
      returns (r: Result<Receipt, RunError>)
      modifies this`calls, this`orders
      ensures r == script.receipts(old(calls)) && calls == old(calls) + 1
      ensures orders == old(orders) + [Apply(old(calls), target, kind, denies, grants)]
    {
      r := script.receipts(calls);
      calls, orders := calls + 1, orders + [Apply(calls, target, kind, denies, grants)];
    }

    method RestoreTrustPolicy(target: IdentityId) returns (r: Result<bool, RunError>)
      modifies this`calls, this`orders
      ensures r == script.restores(old(calls)) && calls == old(calls) + 1
      ensures orders == old(orders) + [RestoreTrust(old(calls), target)]
    {
      r := script.restores(calls);
      calls, orders := calls + 1, orders + [RestoreTrust(calls, target)];
    }

    method RestoreDeclaredPolicy(target: IdentityId, declared: AuthoritySet) returns (r: Result<bool, RunError>)
      modifies this`calls, this`orders
      ensures r == script.restores(old(calls)) && calls == old(calls) + 1
      ensures orders == old(orders) + [RestoreDeclared(old(calls), target, declared)]
    {
      r := script.restores(calls);
      calls, orders := calls + 1, orders + [RestoreDeclared(calls, target, declared)];
    }

    /** Anything else that may raise: a deadline check, a wait, a snapshot, a preflight step. */
    method Check() returns (r: Result<(), RunError>)
      modifies this`calls
      ensures r == script.checks(old(calls)) && calls == old(calls) + 1
    {
      r := script.checks(calls);
      calls := calls + 1;
    }

    method Now() returns (t: real)
      modifies this`calls
      ensures t == script.now(old(calls)) && calls == old(calls) + 1
    {
      t := script.now(calls);
      calls := calls + 1;
    }
  }
}
