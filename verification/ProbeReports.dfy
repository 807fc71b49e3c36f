/** What matrices and deferred executions record, observation by observation. */
module ProbeReports {
  import opened Wrappers
  import opened Outcomes
  import opened Models
  import opened Evidence
  import opened Adapters
  import opened Probes
  import opened Matrix
  import D = Deferred

  /** The provider's answer to this call, recorded under this number. */
  ghost predicate Answers(script: Script, call: nat, number: nat, phase: PlanPhase, matrixId: string, id: IdentityId,
                          c: Capability, trial: nat, o: Observation) {
    script.probes(call).Ok? && o.startNs == script.probes(call).value.startNs &&
    o.outcome == script.probes(call).value.outcome && o.sequence == number && o.phase == phase &&
    o.probeMatrixId == matrixId && o.identityId == id && o.capabilityId == c && o.trial == trial
  }

  // ---- Deferred executions ---------------------------------------------------------------

  /** One probe of each capability, in order. */
  ghost predicate LegReads(script: Script, call: nat, number: nat, phase: PlanPhase, plan: D.DeferredPlan,
                           observations: seq<Observation>) {
    |observations| == |plan.capabilities| &&
    forall i :: 0 <= i < |observations| ==>
      Answers(script, call + i, number + i, phase, "pm-" + plan.phaseName, plan.targetIdentity, plan.capabilities[i], 1,
              observations[i])
  }

  /**
   What a deferral leaves: the target's capabilities probed with the pinned credential, then one delegation. If that is
   refused there is an event saying so and no more; else an event names both credentials, and they are probed again.
   */
  ghost predicate DeferralReads(script: Script, base: nat, start: nat, plan: D.DeferredPlan, pinned: Credential,
                                run: D.DeferredRun) {
    var n := |plan.capabilities|;
    var minted := script.delegations(base + n);
    n <= |run.observations| &&
    LegReads(script, base, start, PlanPhase.DeferredExecution, plan, run.observations[..n]) &&
    if minted.Err? then
      minted.error == DelegationRefused && |run.observations| == n && run.nextSequence == start + n + 1 &&
      run.events == [Event(start + n, PairedFreshCredentialMintFailed(plan.phaseName, pinned.credentialId))]
    else
      LegReads(script, base + n + 1, start + n + 1, PairedFreshCredential, plan, run.observations[n..]) &&
      run.nextSequence == start + 2 * n + 1 &&
      run.events == [Event(start + n, PairedFreshCredentialMinted(plan.phaseName, pinned.credentialId,
                                                                  minted.value.credentialId))]
  }

  lemma LegRecorded(script: Script, call: nat, number: nat, phase: PlanPhase, plan: D.DeferredPlan,
                    observations: seq<Observation>)
    requires Recorded(script, call, number, D.LegTag(plan, phase), D.Leg(plan), observations)
    ensures LegReads(script, call, number, phase, plan, observations)
  {
    forall i | 0 <= i < |observations|
      ensures Answers(script, call + i, number + i, phase, "pm-" + plan.phaseName, plan.targetIdentity,
                      plan.capabilities[i], 1, observations[i])
    {
      assert RecordedAt(script, call, number, D.LegTag(plan, phase), i, D.Leg(plan)[i], observations[i]);
    }
  }

  lemma DeferralIs(script: Script, base: nat, start: nat, plan: D.DeferredPlan, b: D.Before, run: D.DeferredRun)
    requires D.RefusalOf(b, plan).None? && D.DeferredOutcome(script, base, start, plan, b, Ok(run))
    ensures DeferralReads(script, base, start, plan, b.pinned.value, run)
  {
    hide Recorded, LegReads, D.LegError, D.Leg;
    var n := |plan.capabilities|;
    if script.delegations(base + n).Err? {
      assert D.PinnedOnly(script, base, start, plan, b.pinned.value, run);
      LegRecorded(script, base, start, PlanPhase.DeferredExecution, plan, run.observations);
      LegLong(script, base, start, plan, run.observations);
      assert run.observations[..n] == run.observations;
    } else {
      assert D.PairedLegs(script, base, start, plan, b.pinned.value, run);
      LegRecorded(script, base, start, PlanPhase.DeferredExecution, plan, run.observations[..n]);
      LegRecorded(script, base + n + 1, start + n + 1, PairedFreshCredential, plan, run.observations[n..]);
    }
  }

  /** After a deferral the target holds what was minted, if anything was; no other credential changes. */
  lemma DeferralMints(script: Script, base: nat, start: nat, plan: D.DeferredPlan, b: D.Before,
                      r: Result<D.DeferredRun, RunError>, credentials: map<IdentityId, Option<Credential>>)
    requires D.RefusalOf(b, plan).None? && D.DeferredOutcome(script, base, start, plan, b, r)
    ensures var n, after := |plan.capabilities|, D.Renewed(script, base, plan, b, credentials);
            (r.Ok? && script.delegations(base + n).Ok? ==>
               after == credentials[plan.targetIdentity := Some(script.delegations(base + n).value)]) &&
            (after != credentials ==>
               script.delegations(base + n).Ok? && forall k: nat :: base <= k < base + n ==> script.probes(k).Ok?)
  {
    hide LegReads, Recorded;
    LegErrorIs(script, base, |plan.capabilities|);
  }

  lemma LegLong(script: Script, call: nat, number: nat, plan: D.DeferredPlan, observations: seq<Observation>)
    requires LegReads(script, call, number, PlanPhase.DeferredExecution, plan, observations)
    ensures |observations| == |plan.capabilities|
  {
  }

  /** Of the probes from one call up to another, the first to raise raised this. */
  ghost predicate RaisedIn(script: Script, low: nat, high: nat, error: RunError) {
    exists k :: low <= k < high && RaisedAt(script, low, k, error)
  }

  ghost predicate RaisedAt(script: Script, low: nat, k: nat, error: RunError) {
    script.probes(k) == Err(error) && forall j: nat :: low <= j < k ==> script.probes(j).Ok?
  }

  lemma {:induction false} LegErrorIs(script: Script, base: nat, n: nat)
    ensures D.LegError(script, base, n).None? <==> forall k: nat :: base <= k < base + n ==> script.probes(k).Ok?
    ensures D.LegError(script, base, n).Some? ==> RaisedIn(script, base, base + n, D.LegError(script, base, n).value)
  {
    if n > 0 {
      LegErrorIs(script, base, n - 1);
      var error := D.LegError(script, base, n);
      if D.LegError(script, base, n - 1).Some? {
        var k :| base <= k < base + n - 1 && RaisedAt(script, base, k, error.value);
      } else if error.Some? {
        assert RaisedAt(script, base, base + n - 1, error.value);
      }
    }
  }

  /** Why a deferral raises: a probe of its first leg, a missing source, the provider minting, or its second leg. */
  lemma DeferralRaises(script: Script, base: nat, start: nat, plan: D.DeferredPlan, b: D.Before, error: RunError)
    requires D.RefusalOf(b, plan).None? && D.DeferredOutcome(script, base, start, plan, b, Err(error))
    ensures var n, source := |plan.capabilities|, b.edge.value.sourceId;
            RaisedIn(script, base, base + n, error) ||
            (source !in b.refs && error == MissingSource(source)) ||
            (source in b.refs && script.delegations(base + n) == Err(error) && error != DelegationRefused) ||
            (source in b.refs && script.delegations(base + n).Ok? &&
             RaisedIn(script, base + n + 1, base + 2 * n + 1, error))
  {
    LegErrorIs(script, base, |plan.capabilities|);
    LegErrorIs(script, base + |plan.capabilities| + 1, |plan.capabilities|);
  }

  /** A credential is pinned to exactly what was recorded when the named phase ran. */
  lemma PinnedBy(recorded: map<(string, IdentityId), Option<Credential>>, name: string, id: IdentityId, c: Credential)
    ensures D.Pinned(recorded, "phase:" + name, id) == Ok(c) <==>
            (name, id) in recorded && recorded[(name, id)] == Some(c)
  {
    assert ("phase:" + name)[6..] == name;
  }

  // ---- Matrices --------------------------------------------------------------------------

  /** The probes of one capability: its trials, numbered from one. */
  ghost predicate TrialsRead(s: Sweep, id: IdentityId, c: Capability, trials: nat, seen: seq<Observation>) {
    |seen| == trials &&
    forall i :: 0 <= i < trials ==>
      Answers(s.script, s.base + i, s.start + i, s.tag.phase, s.tag.matrixId, id, c, i + 1, seen[i])
  }

  /** The probes of these capabilities, one after the other, all trials of each together. */
  ghost predicate BlocksRead(s: Sweep, id: IdentityId, order: seq<Capability>, trials: nat, seen: seq<Observation>)
    decreases |order|
  {
    if order == [] then
      seen == []
    else
      var n, k := |order| - 1, |seen| - trials;
      k >= 0 && BlocksRead(s, id, order[..n], trials, seen[..k]) &&
      TrialsRead(s.After(k), id, order[n], trials, seen[k..])
  }

  /** One probe of every control, in order. */
  ghost predicate ControlsRead(s: Sweep, id: IdentityId, seen: seq<Observation>) {
    |seen| == |s.controls| &&
    forall i :: 0 <= i < |seen| ==>
      Answers(s.script, s.base + i, s.start + i, s.tag.phase, s.tag.matrixId, id, s.controls[i], 1, seen[i])
  }

  /** The order is one of the capabilities that are not controls, each as often as the matrix lists it. */
  ghost predicate Reorders(controls: seq<Capability>, m: ProbeMatrix, order: seq<Capability>) {
    forall c :: multiset(order)[c] == if c in controls then 0 else multiset(m.capabilities)[c]
  }

  /** An identity's row: its controls, then an event that announces an order, then its capabilities in that order. */
  ghost predicate RowReads(s: Sweep, m: ProbeMatrix, id: IdentityId, seen: seq<Observation>, e: Event) {
    var n := |s.controls|;
    e.body.ProbeOrderShuffled? && e.body.identityId == id && e.sequence == s.start + n && n <= |seen| &&
    ControlsRead(s, id, seen[..n]) && Reorders(s.controls, m, e.body.order) &&
    BlocksRead(s.After(n), id, e.body.order, m.trials, seen[n..])
  }

  /** One row, with one event, for each materialized identity of the matrix, in order and without gaps. */
  ghost predicate RowsRead(s: Sweep, m: ProbeMatrix, refs: set<IdentityId>, ids: seq<IdentityId>,
                           seen: seq<Observation>, events: seq<Event>)
    decreases |ids|
  {
    if ids == [] then
      seen == [] && events == []
    else if ids[|ids| - 1] !in refs then
      RowsRead(s, m, refs, ids[..|ids| - 1], seen, events)
    else
      events != [] &&
      exists k :: 0 <= k <= |seen| &&
                  RowsRead(s, m, refs, ids[..|ids| - 1], seen[..k], events[..|events| - 1]) &&
                  RowReads(s.After(k), m, ids[|ids| - 1], seen[k..], events[|events| - 1])
  }

  lemma RecordedSplit(s: Sweep, a: seq<Request>, b: seq<Request>, seen: seq<Observation>)
    requires Recorded(s.script, s.base, s.start, s.tag, a + b, seen)
    ensures |seen| == |a| + |b| && Recorded(s.script, s.base, s.start, s.tag, a, seen[..|a|])
    ensures Recorded(s.script, s.base + |a|, s.start + |a|, s.tag, b, seen[|a|..])
  {
    forall i | 0 <= i < |a| ensures RecordedAt(s.script, s.base, s.start, s.tag, i, a[i], seen[..|a|][i]) {
      assert RecordedAt(s.script, s.base, s.start, s.tag, i, (a + b)[i], seen[i]);
    }
    forall i | 0 <= i < |b|
      ensures RecordedAt(s.script, s.base + |a|, s.start + |a|, s.tag, i, b[i], seen[|a|..][i])
    {
      assert RecordedAt(s.script, s.base, s.start, s.tag, |a| + i, (a + b)[|a| + i], seen[|a| + i]);
    }
  }

  lemma TrialsRecorded(s: Sweep, id: IdentityId, c: Capability, trials: nat, seen: seq<Observation>)
    requires Recorded(s.script, s.base, s.start, s.tag, Trials(id, c, trials), seen)
    ensures TrialsRead(s, id, c, trials, seen)
  {
    forall i | 0 <= i < trials
      ensures Answers(s.script, s.base + i, s.start + i, s.tag.phase, s.tag.matrixId, id, c, i + 1, seen[i])
    {
      assert RecordedAt(s.script, s.base, s.start, s.tag, i, Trials(id, c, trials)[i], seen[i]);
    }
  }

  lemma {:induction false} BlocksRecorded(s: Sweep, id: IdentityId, order: seq<Capability>, trials: nat,
                                          seen: seq<Observation>)
    requires Recorded(s.script, s.base, s.start, s.tag, Cells(id, order, trials), seen)
    ensures BlocksRead(s, id, order, trials, seen)
    decreases |order|
  {
    if order != [] {
      var n := |order| - 1;
      var before := Cells(id, order[..n], trials);
      RecordedSplit(s, before, Trials(id, order[n], trials), seen);
      BlocksRecorded(s, id, order[..n], trials, seen[..|before|]);
      TrialsRecorded(s.After(|before|), id, order[n], trials, seen[|before|..]);
    }
  }

  lemma ControlsRecorded(s: Sweep, id: IdentityId, seen: seq<Observation>)
    requires Recorded(s.script, s.base, s.start, s.tag, Calibrations(id, s.controls), seen)
    ensures ControlsRead(s, id, seen)
  {
    forall i | 0 <= i < |seen|
      ensures Answers(s.script, s.base + i, s.start + i, s.tag.phase, s.tag.matrixId, id, s.controls[i], 1, seen[i])
    {
      assert RecordedAt(s.script, s.base, s.start, s.tag, i, Calibrations(id, s.controls)[i], seen[i]);
    }
  }

  lemma OrderReorders(script: Script, controls: seq<Capability>, m: ProbeMatrix, id: IdentityId)
    ensures Reorders(controls, m, RowOrder(script, controls, m, id))
  {
    forall c ensures multiset(RowOrder(script, controls, m, id))[c] ==
      if c in controls then 0 else multiset(m.capabilities)[c]
    {
      WithoutCount(m.capabilities, controls, c);
    }
  }

  lemma RowRecorded(s: Sweep, m: ProbeMatrix, id: IdentityId, seen: seq<Observation>)
    requires Recorded(s.script, s.base, s.start, s.tag, Row(s.script, s.controls, m, id), seen)
    ensures RowReads(s, m, id, seen, Announced(s.script, s.controls, m, id, s.start))
  {
    hide Recorded, RowOrder, BlocksRead, ControlsRead, Reorders, Cells;
    var order := RowOrder(s.script, s.controls, m, id);
    RecordedSplit(s, Calibrations(id, s.controls), Cells(id, order, m.trials), seen);
    ControlsRecorded(s, id, seen[..|s.controls|]);
    BlocksRecorded(s.After(|s.controls|), id, order, m.trials, seen[|s.controls|..]);
    OrderReorders(s.script, s.controls, m, id);
  }

  lemma {:induction false} RowsRecorded(s: Sweep, m: ProbeMatrix, refs: set<IdentityId>, ids: seq<IdentityId>,
                                        seen: seq<Observation>)
    requires Recorded(s.script, s.base, s.start, s.tag, Requests(s.script, s.controls, m, refs, ids), seen)
    ensures RowsRead(s, m, refs, ids, seen, Shuffles(s.script, s.controls, m, refs, s.start, ids))
    decreases |ids|
  {
    hide Recorded, Row, RowReads, Announced;
    if ids == [] {
      NothingRecorded(s, seen);
    } else if ids[|ids| - 1] !in refs {
      RowsRecorded(s, m, refs, ids[..|ids| - 1], seen);
    } else {
      var front, id := ids[..|ids| - 1], ids[|ids| - 1];
      var before := Requests(s.script, s.controls, m, refs, front);
      var events, k := Shuffles(s.script, s.controls, m, refs, s.start, ids), |before|;
      RecordedSplit(s, before, Row(s.script, s.controls, m, id), seen);
      RowsRecorded(s, m, refs, front, seen[..k]);
      RowRecorded(s.After(k), m, id, seen[k..]);
      assert events[..|events| - 1] == Shuffles(s.script, s.controls, m, refs, s.start, front);
    }
  }

  lemma NothingRecorded(s: Sweep, seen: seq<Observation>)
    requires Recorded(s.script, s.base, s.start, s.tag, [], seen)
    ensures seen == []
  {
  }

  /**
   What a matrix that is not discarded leaves, under any draws: row by row, the controls, an event that announces an
   order of the other capabilities, and then all trials of each capability in that very order.
   */
  lemma MatrixReads(s: Sweep, m: ProbeMatrix, refs: set<IdentityId>, run: MatrixRun)
    requires MatrixOutcome(s, m, refs, Ok(run))
    ensures RowsRead(s, m, refs, m.identities, run.observations, run.events)
  {
    hide Recorded, RowsRead, Requests, Shuffles;
    RowsRecorded(s, m, refs, m.identities, run.observations);
  }

  /** A probe goes through: the provider answers, and a control is ALLOWED. */
  predicate Passes(s: Sweep, i: nat, q: Request) {
    s.script.probes(s.base + i).Ok? &&
    (q.capability in s.controls ==> s.script.probes(s.base + i).value.outcome.Allowed?)
  }

  /** Probe i is the first that does not go through, and this is why. */
  ghost predicate StopsWith(s: Sweep, requests: seq<Request>, i: int, error: RunError) {
    0 <= i < |requests| && (forall j :: 0 <= j < i ==> Passes(s, j, requests[j])) &&
    (s.script.probes(s.base + i) == Err(error) ||
     (s.script.probes(s.base + i).Ok? && !Passes(s, i, requests[i]) && error == RunError.ControlCapabilityFailed))
  }

  lemma {:induction false} FirstErrorIs(s: Sweep, requests: seq<Request>)
    ensures FirstError(s, requests).None? <==> forall i :: 0 <= i < |requests| ==> Passes(s, i, requests[i])
    ensures FirstError(s, requests).Some? ==> exists i :: StopsWith(s, requests, i, FirstError(s, requests).value)
  {
    if requests != [] {
      var front, n := requests[..|requests| - 1], |requests| - 1;
      FirstErrorIs(s, front);
      forall j | 0 <= j < n ensures front[j] == requests[j] {}
      if FirstError(s, front).Some? {
        var i :| StopsWith(s, front, i, FirstError(s, front).value);
        assert StopsWith(s, requests, i, FirstError(s, requests).value);
      } else if FirstError(s, requests).Some? {
        assert StopsWith(s, requests, n, FirstError(s, requests).value);
      }
    }
  }

  /** A matrix raises exactly if some probe does not go through, and then what the first of them calls for. */
  lemma MatrixRaises(s: Sweep, m: ProbeMatrix, refs: set<IdentityId>, r: Result<MatrixRun, RunError>)
    requires MatrixOutcome(s, m, refs, r)
    ensures var asked := Requests(s.script, s.controls, m, refs, m.identities);
            (r.Ok? <==> forall i :: 0 <= i < |asked| ==> Passes(s, i, asked[i])) &&
            (r.Err? ==> exists i :: StopsWith(s, asked, i, r.error))
  {
    FirstErrorIs(s, Requests(s.script, s.controls, m, refs, m.identities));
    hide Requests, FirstError, Shuffles, Recorded;
  }
}
