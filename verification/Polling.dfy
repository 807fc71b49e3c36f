/** Serial polling of one (identity, capability) cell until its outcomes are stable or time runs out. */
module Polling {
  import opened Wrappers
  import opened Outcomes
  import opened Models
  import opened Evidence
  import opened Adapters

  datatype PollPlan = PollPlan(
    phaseName: string,
    targetIdentity: IdentityId,
    capabilityId: Capability,
    intervalMs: int,
    maxDurationSeconds: int,
    stopOn: StopReason,
    stabilityCount: int)
  {
    /** The field types of the plan. */
    predicate Valid() {
      intervalMs > 0 && maxDurationSeconds > 0 && stabilityCount > 0
    }

    /** ceil(max_ms / interval_ms): the polls after which time has run out. */
    function Limit(): nat
      requires Valid()
    {
      (maxDurationSeconds * 1000 + intervalMs - 1) / intervalMs
    }
  }

  datatype PollRun = PollRun(observations: seq<Observation>, nextSequence: nat, stopReason: StopReason, pollCount: nat)

  predicate Matches(stopOn: StopReason, outcome: OutcomeClass) {
    if stopOn.StableAllow? then outcome.Allowed? else outcome.IsDenial()
  }

  /** After k polls the last `stability_count` outcomes all match the target. */
  predicate StableAt(plan: PollPlan, observations: seq<Observation>, k: int) {
    !plan.stopOn.Timeout? && plan.stabilityCount <= k <= |observations| &&
    forall i :: 0 <= i < |observations| && k - plan.stabilityCount <= i < k ==>
      Matches(plan.stopOn, observations[i].outcome)
  }

  ghost predicate NeverStable(plan: PollPlan, observations: seq<Observation>, upTo: int) {
    forall k :: 0 <= k <= upTo ==> !StableAt(plan, observations, k)
  }

  // ---- Rounds -------------------------------------------------------------------

  /** Round i makes three calls: wait for the interval, probe, check the deadline. */
  ghost function RoundError(script: Script, base: nat, i: nat): Option<RunError> {
    if script.checks(base + 3 * i).Err? then Some(script.checks(base + 3 * i).error)
    else if script.probes(base + 3 * i + 1).Err? then Some(script.probes(base + 3 * i + 1).error)
    else if script.checks(base + 3 * i + 2).Err? then Some(script.checks(base + 3 * i + 2).error)
    else None
  }

  lemma RoundErrorFrom(script: Script, base: nat, i: nat)
    ensures RoundError(script, base, i).Some? ==> FromProvider(script, RoundError(script, base, i).value)
  {
    if RoundError(script, base, i).Some? {
      var error := RoundError(script, base, i).value;
      assert Raises(script, base + 3 * i, error) || Raises(script, base + 3 * i + 1, error) ||
        Raises(script, base + 3 * i + 2, error);
    }
  }

  ghost predicate Polled(script: Script, base: nat, plan: PollPlan, start: nat, observations: seq<Observation>) {
    forall i :: 0 <= i < |observations| ==> PolledAt(script, base, plan, start, i, observations[i])
  }

  /** What the i-th poll recorded. */
  ghost predicate PolledAt(script: Script, base: nat, plan: PollPlan, start: nat, i: nat, o: Observation) {
    RoundError(script, base, i).None? &&
    var answer := script.probes(base + 3 * i + 1).value;
    o == Observation(start + i, PostMutation, "pm-poll-" + plan.phaseName, plan.targetIdentity, plan.capabilityId, 1,
                     answer.startNs, answer.outcome)
  }

  /** Why and when a finished poll stopped. */
  ghost predicate Finished(plan: PollPlan, start: nat, run: PollRun)
    requires plan.Valid()
  {
    var n := |run.observations|;
    1 <= n <= plan.Limit() && run.pollCount == n && run.nextSequence == start + n &&
    if run.stopReason.Timeout? then
      n == plan.Limit() && NeverStable(plan, run.observations, n)
    else
      run.stopReason == plan.stopOn && StableAt(plan, run.observations, n) &&
      NeverStable(plan, run.observations, n - 1)
  }

  lemma LimitIsCeiling(plan: PollPlan, n: nat)
    requires plan.Valid()
    ensures n >= plan.Limit() <==> n * plan.intervalMs >= plan.maxDurationSeconds * 1000
    ensures plan.Limit() >= 1
  {
    var max, step := plan.maxDurationSeconds * 1000, plan.intervalMs;
    var limit := (max + step - 1) / step;
    assert limit * step <= max + step - 1 < (limit + 1) * step by { DivisionBounds(max + step - 1, step); }
    if n >= limit {
      assert n * step >= limit * step;
    } else {
      assert (limit - 1) * step < max;
      assert n * step <= (limit - 1) * step;
    }
  }

  lemma DivisionBounds(a: int, b: int)
    requires b > 0
    ensures (a / b) * b <= a < (a / b + 1) * b
  {
  }

  /** `consecutive` is the length of the matching run at the end, and it has not yet been long enough. */
  ghost predicate Counting(plan: PollPlan, observations: seq<Observation>, consecutive: int) {
    0 <= consecutive <= |observations| && (plan.stopOn.Timeout? ==> consecutive == 0) &&
    (!plan.stopOn.Timeout? ==> MatchingTail(plan, observations, consecutive)) &&
    consecutive < plan.stabilityCount && NeverStable(plan, observations, |observations|)
  }

  predicate MatchingTail(plan: PollPlan, observations: seq<Observation>, consecutive: int) {
    0 <= consecutive <= |observations| &&
    (forall i :: |observations| - consecutive <= i < |observations| ==>
     Matches(plan.stopOn, observations[i].outcome)) &&
    (consecutive < |observations| ==> !Matches(plan.stopOn, observations[|observations| - consecutive - 1].outcome))
  }

  lemma Unfinished(plan: PollPlan, observations: seq<Observation>, consecutive: int)
    requires Counting(plan, observations, consecutive)
    ensures NeverStable(plan, observations, |observations|)
  {
  }

  lemma NextPoll(plan: PollPlan, observations: seq<Observation>, o: Observation, consecutive: int)
    requires plan.Valid() && Counting(plan, observations, consecutive)
    ensures var next := if plan.stopOn.Timeout? then 0 else if Matches(plan.stopOn, o.outcome) then
            consecutive + 1 else 0;
            var n := |observations| + 1;
            NeverStable(plan, observations + [o], n - 1) &&
            (StableAt(plan, observations + [o], n) <==> next >= plan.stabilityCount) &&
            (next < plan.stabilityCount ==> Counting(plan, observations + [o], next))
  {
    var all := observations + [o];
    var n := |all|;
    var next := if plan.stopOn.Timeout? then 0 else if Matches(plan.stopOn, o.outcome) then consecutive + 1 else 0;
    forall k | 0 <= k <= n - 1 ensures !StableAt(plan, all, k) {
      assert !StableAt(plan, observations, k);
      if StableAt(plan, all, k) {
        forall i | 0 <= i < |observations| && k - plan.stabilityCount <= i < k
          ensures Matches(plan.stopOn, observations[i].outcome)
        {
          assert all[i] == observations[i];
        }
      }
    }
    if !plan.stopOn.Timeout? {
      assert MatchingTail(plan, all, next);
      assert next < plan.stabilityCount <= n ==> !Matches(plan.stopOn, all[n - next - 1].outcome);
    }
  }

  /** Waits for the interval, probes once and records the answer. */
  method PollOnce(adapter: Adapter, plan: PollPlan, ghost base: nat, ghost i: nat, sequence: nat, ghost start: nat)
    returns (r: Result<Observation, RunError>)
    requires adapter.calls == base + 3 * i && sequence == start + i
    modifies adapter`calls, adapter`probed
    ensures r.Ok? ==> PolledAt(adapter.script, base, plan, start, i, r.value) && adapter.calls == base + 3 * (i + 1)
    ensures r.Err? ==> RoundError(adapter.script, base, i) == Some(r.error)
  {
    var waited := adapter.Check();
    if waited.Err? {
      return Err(waited.error);
    }
    var answer := adapter.Probe(plan.targetIdentity, plan.capabilityId);
    if answer.Err? {
      return Err(answer.error);
    }
    var checked := adapter.Check();
    if checked.Err? {
      return Err(checked.error);
    }
    return Ok(Observation(sequence, PostMutation, "pm-poll-" + plan.phaseName, plan.targetIdentity, plan.capabilityId,
                          1,
                          answer.value.startNs, answer.value.outcome));
  }

  /**
   Barring a raise, the loop ends: on stability at the first poll where it holds, otherwise after
   exactly ceil(max_ms / interval_ms) polls; and it raises exactly at the first round that raises
   before either.
   */
  method RunPollPhase(adapter: Adapter, refs: set<IdentityId>, plan: PollPlan, sequenceStart: nat)
    returns (r: Result<PollRun, RunError>)
    requires plan.Valid()
    modifies adapter`calls, adapter`probed
    ensures r.Ok? ==>
            plan.targetIdentity in refs &&
            Polled(adapter.script, old(adapter.calls), plan, sequenceStart, r.value.observations)
    ensures r.Ok? ==>
            Finished(plan, sequenceStart, r.value) && adapter.calls == old(adapter.calls) + 3 * r.value.pollCount
    ensures r.Err? && plan.targetIdentity in refs ==>
              exists before: seq<Observation> ::
                Polled(adapter.script, old(adapter.calls), plan, sequenceStart, before) && |before| < plan.Limit() &&
                NeverStable(plan, before, |before|) &&
                RoundError(adapter.script, old(adapter.calls), |before|) == Some(r.error)
    ensures plan.targetIdentity !in refs ==> r == Err(NotMaterialized(plan.targetIdentity))
  {
    if plan.targetIdentity !in refs {
      return Err(NotMaterialized(plan.targetIdentity));
    }
    var observations: seq<Observation> := [];
    var sequence, consecutive, elapsedMs := sequenceStart, 0, 0;
    LimitIsCeiling(plan, 0);
    while true
      invariant elapsedMs == |observations| * plan.intervalMs && sequence == sequenceStart + |observations|
      invariant |observations| < plan.Limit()
      invariant adapter.calls == old(adapter.calls) + 3 * |observations|
      invariant Polled(adapter.script, old(adapter.calls), plan, sequenceStart, observations)
      invariant Counting(plan, observations, consecutive)
      decreases plan.Limit() - |observations|
    {
      Unfinished(plan, observations, consecutive);
      elapsedMs := elapsedMs + plan.intervalMs;
      var polled := PollOnce(adapter, plan, old(adapter.calls), |observations|, sequence, sequenceStart);
      if polled.Err? {
        return Err(polled.error);
      }
      NextPoll(plan, observations, polled.value, consecutive);
      LimitIsCeiling(plan, |observations| + 1);
      observations := observations + [polled.value];
      sequence := sequence + 1;
      if !plan.stopOn.Timeout? {
        consecutive := if Matches(plan.stopOn, polled.value.outcome) then consecutive + 1 else 0;
        if consecutive >= plan.stabilityCount {
          return Ok(PollRun(observations, sequence, plan.stopOn, |observations|));
        }
      }
      if elapsedMs >= plan.maxDurationSeconds * 1000 {
        return Ok(PollRun(observations, sequence, Timeout, |observations|));
      }
    }
  }
}
