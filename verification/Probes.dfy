/** One probe, one observation: what every phase that probes records. */
module Probes {
  import opened Wrappers
  import opened Outcomes
  import opened Models
  import opened Evidence
  import opened Adapters

  /** A probe to be made: of which identity, for which capability, for the how-manieth time. */
  datatype Request = Request(identityId: IdentityId, capability: Capability, trial: nat)

  /** Where a stretch of observations belongs. */
  datatype Tag = Tag(phase: PlanPhase, matrixId: string)

  /** The i-th observation of a stretch whose first probe is call `base` and whose first number is `start`. */
  ghost predicate RecordedAt(script: Script, base: nat, start: nat, tag: Tag, i: nat, q: Request, o: Observation) {
    script.probes(base + i).Ok? &&
    var answer := script.probes(base + i).value;
    o == Observation(start + i, tag.phase, tag.matrixId, q.identityId, q.capability, q.trial, answer.startNs,
                     answer.outcome)
  }

  /** These requests were probed one after the other, and each was recorded under the next number. */
  ghost predicate Recorded(script: Script, base: nat, start: nat, tag: Tag, requests: seq<Request>,
                           observations: seq<Observation>) {
    |observations| == |requests| &&
    forall i :: 0 <= i < |requests| ==> RecordedAt(script, base, start, tag, i, requests[i], observations[i])
  }

  lemma RecordedSnoc(script: Script, base: nat, start: nat, tag: Tag, requests: seq<Request>,
                     observations: seq<Observation>, q: Request, o: Observation)
    requires Recorded(script, base, start, tag, requests, observations)
    requires RecordedAt(script, base, start, tag, |requests|, q, o)
    ensures Recorded(script, base, start, tag, requests + [q], observations + [o])
  {
  }

  lemma RecordedAfter(script: Script, base: nat, start: nat, tag: Tag, first: seq<Request>, seen: seq<Observation>,
                      second: seq<Request>, more: seq<Observation>)
    requires Recorded(script, base, start, tag, first, seen)
    requires Recorded(script, base + |first|, start + |first|, tag, second, more)
    ensures Recorded(script, base, start, tag, first + second, seen + more)
  {
    forall i | 0 <= i < |first + second|
      ensures RecordedAt(script, base, start, tag, i, (first + second)[i], (seen + more)[i])
    {
      if i >= |first| {
        assert RecordedAt(script, base + |first|, start + |first|, tag, i - |first|, second[i - |first|],
                          more[i - |first|]);
      } else {
        assert RecordedAt(script, base, start, tag, i, first[i], seen[i]);
      }
    }
  }

  /** Recorded observations are numbered without gaps. */
  lemma RecordedWithin(script: Script, base: nat, start: nat, tag: Tag, requests: seq<Request>,
                       observations: seq<Observation>)
    requires Recorded(script, base, start, tag, requests, observations)
    ensures ObservationsWithin(observations, start, start + |observations|)
    ensures forall i :: 0 <= i < |observations| ==> observations[i].sequence == start + i
  {
    forall i | 0 <= i < |observations| ensures observations[i].sequence == start + i {
      assert RecordedAt(script, base, start, tag, i, requests[i], observations[i]);
    }
  }

  /** Probes once and records the answer. */
  method Ask(adapter: Adapter, tag: Tag, q: Request, sequence: nat) returns (r: Result<Observation, RunError>)
    modifies adapter`calls, adapter`probed
    ensures adapter.calls == old(adapter.calls) + 1
    ensures var answer := adapter.script.probes(old(adapter.calls));
            if answer.Err? then r == Err(answer.error)
            else r.Ok? && RecordedAt(adapter.script, old(adapter.calls), sequence, tag, 0, q, r.value)
  {
    var answer := adapter.Probe(q.identityId, q.capability);
    if answer.Err? {
      return Err(answer.error);
    }
    return Ok(Observation(sequence, tag.phase, tag.matrixId, q.identityId, q.capability, q.trial, answer.value.startNs,
                          answer.value.outcome));
  }
}
