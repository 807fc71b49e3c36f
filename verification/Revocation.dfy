/** Revocation measurements: the poll loop's samples fed to the window arithmetic, cell by cell. */
module Revocation {
  import opened Wrappers
  import opened Outcomes
  import opened Models
  import opened Evidence
  import opened Timing
  import opened Polling

  datatype Cell = Cell(identityId: IdentityId, capabilityId: Capability)

  datatype CellMeasurement = CellMeasurement(cell: Cell, kind: MutationKind, measurement: Measurement)

  const POLL_INTERVAL_MS := 500

  predicate InCell(o: Observation, cell: Cell) {
    o.phase.PostMutation? && o.identityId == cell.identityId && o.capabilityId == cell.capabilityId
  }

  /** The poll samples of one cell, in the order they were observed. */
  function CellSamples(observations: seq<Observation>, cell: Cell): seq<PollSample> {
    if observations == [] then
      []
    else
      var o := observations[|observations| - 1];
      CellSamples(observations[..|observations| - 1], cell) +
        (if InCell(o, cell) then [PollSample(o.startNs, o.outcome)] else [])
  }

  /** The polled cells, each once, in order of first appearance. */
  function Cells(observations: seq<Observation>): (cells: seq<Cell>)
    ensures forall i, j :: 0 <= i < j < |cells| ==> cells[i] != cells[j]
  {
    if observations == [] then
      []
    else
      var front, o := Cells(observations[..|observations| - 1]), observations[|observations| - 1];
      var cell := Cell(o.identityId, o.capabilityId);
      if o.phase.PostMutation? && cell !in front then front + [cell] else front
  }

  lemma {:induction false} CellsExact(observations: seq<Observation>, cell: Cell)
    ensures cell in Cells(observations) <==> exists o :: o in observations && InCell(o, cell)
    ensures cell in Cells(observations) <==> CellSamples(observations, cell) != []
  {
    if observations != [] {
      var front, o := observations[..|observations| - 1], observations[|observations| - 1];
      CellsExact(front, cell);
      assert observations == front + [o];
      assert InCell(o, cell) <==> o.phase.PostMutation? && cell == Cell(o.identityId, o.capabilityId);
      if InCell(o, cell) { assert o in observations; }
    }
  }

  ghost predicate Grouped(observations: seq<Observation>, polls: map<Cell, seq<PollSample>>, order: seq<Cell>) {
    order == Cells(observations) && (forall c :: c in polls <==> c in order) &&
    forall c :: c in order ==> polls[c] == CellSamples(observations, c)
  }

  lemma GroupOne(observations: seq<Observation>, polls: map<Cell, seq<PollSample>>, order: seq<Cell>, o: Observation)
    requires Grouped(observations, polls, order)
    ensures var cell := Cell(o.identityId, o.capabilityId);
            var samples := (if cell in polls then polls[cell] else []) + [PollSample(o.startNs, o.outcome)];
            if !o.phase.PostMutation? then Grouped(observations + [o], polls, order)
            else Grouped(observations + [o], polls[cell := samples], if cell in polls then order else order + [cell])
  {
    var all := observations + [o];
    assert all[..|observations|] == observations;
    var cell := Cell(o.identityId, o.capabilityId);
    CellsExact(observations, cell);
    forall c ensures CellSamples(all, c) ==
      CellSamples(observations, c) + (if InCell(o, c) then [PollSample(o.startNs, o.outcome)] else []) {}
  }

  method GroupPolls(observations: seq<Observation>) returns (polls: map<Cell, seq<PollSample>>, order: seq<Cell>)
    ensures Grouped(observations, polls, order)
  {
    polls, order := map[], [];
    for k := 0 to |observations|
      invariant Grouped(observations[..k], polls, order)
    {
      var o := observations[k];
      GroupOne(observations[..k], polls, order, o);
      assert observations[..k + 1] == observations[..k] + [o];
      if o.phase.PostMutation? {
        var cell := Cell(o.identityId, o.capabilityId);
        if cell in polls {
          polls := polls[cell := polls[cell] + [PollSample(o.startNs, o.outcome)]];
        } else {
          polls := polls[cell := [] + [PollSample(o.startNs, o.outcome)]];
          order := order + [cell];
        }
      }
    }
    assert observations[..|observations|] == observations;
  }

  /** The first applied mutation of the run. */
  function FirstMutation(events: seq<Event>): Option<EventBody> {
    if events == [] then None
    else if events[0].body.PolicyMutationApplied? then Some(events[0].body)
    else FirstMutation(events[1..])
  }

  /** These cells measured against a mutation, in order, up to the first measurement that is malformed. */
  function MeasureAll(mutation: EventBody, observations: seq<Observation>,
                      cells: seq<Cell>): Result<seq<CellMeasurement>, InvalidMeasurement>
    requires mutation.PolicyMutationApplied?
  {
    if cells == [] then
      Ok([])
    else
      var before, cell := MeasureAll(mutation, observations, cells[..|cells| - 1]), cells[|cells| - 1];
      if before.Err? then
        before
      else
        var m := CellMeasured(mutation, observations, cell);
        if m.Err? then Err(m.error) else Ok(before.value + [CellMeasurement(cell, mutation.kind, m.value)])
  }

  function CellMeasured(mutation: EventBody, observations: seq<Observation>,
                        cell: Cell): Result<Measurement, InvalidMeasurement>
    requires mutation.PolicyMutationApplied?
  {
    Measured(CellSamples(observations, cell), mutation.sentNs, POLL_INTERVAL_MS, mutation.confirmed)
  }

  /** What the analysis of a run's events and observations returns. */
  function MeasurementsOf(events: seq<Event>,
                          observations: seq<Observation>): Result<seq<CellMeasurement>, InvalidMeasurement> {
    FirstMutationApplied(events);
    if FirstMutation(events).None? then
      Ok([]) else MeasureAll(FirstMutation(events).value, observations, Cells(observations))
  }

  lemma {:induction false} MeasureAllFails(mutation: EventBody, observations: seq<Observation>, cells: seq<Cell>,
                                           k: nat)
    requires mutation.PolicyMutationApplied? && k <= |cells| && MeasureAll(mutation, observations, cells[..k]).Err?
    ensures MeasureAll(mutation, observations, cells) == MeasureAll(mutation, observations, cells[..k])
    decreases |cells|
  {
    if k == |cells| {
      assert cells[..k] == cells;
    } else {
      assert cells[..|cells| - 1][..k] == cells[..k];
      MeasureAllFails(mutation, observations, cells[..|cells| - 1], k);
    }
  }

  /** All cells are measured, each once and in order, exactly when every one of the measurements is well formed. */
  lemma {:induction false} MeasureAllIs(mutation: EventBody, observations: seq<Observation>, cells: seq<Cell>)
    requires mutation.PolicyMutationApplied?
    ensures var r := MeasureAll(mutation, observations, cells);
            (r.Ok? <==> forall c :: c in cells ==> CellMeasured(mutation, observations, c).Ok?) &&
            (r.Ok? ==> |r.value| == |cells| &&
                       forall i :: 0 <= i < |cells| ==>
                         CellMeasured(mutation, observations, cells[i]).Ok? &&
                         r.value[i] ==
                           CellMeasurement(cells[i], mutation.kind,
                                           CellMeasured(mutation, observations, cells[i]).value))
  {
    hide CellMeasured;
    if cells != [] {
      var front, last := cells[..|cells| - 1], cells[|cells| - 1];
      MeasureAllIs(mutation, observations, front);
      assert cells == front + [last];
    }
  }

  /** The analysis fails exactly when some polled cell has no sample from when the mutation was sent or later. */
  lemma MeasurementsFailIff(events: seq<Event>, observations: seq<Observation>)
    requires FirstMutation(events).Some? && FirstMutation(events).value.PolicyMutationApplied?
    ensures MeasurementsOf(events, observations).Err? <==>
            exists c :: c in Cells(observations) &&
                        forall s :: s in CellSamples(observations, c) ==>
                          s.monotonicNs < FirstMutation(events).value.sentNs
  {
    var mutation := FirstMutation(events).value;
    MeasureAllIs(mutation, observations, Cells(observations));
    hide MeasureAll, Cells, CellSamples, FirstMutation;
    forall c | c in Cells(observations)
      ensures CellMeasured(mutation, observations, c).Ok? <==>
              exists s :: s in CellSamples(observations, c) && s.monotonicNs >= mutation.sentNs
    {
      CellsExact(observations, c);
      MeasuredIff(CellSamples(observations, c), mutation.sentNs, POLL_INTERVAL_MS, mutation.confirmed);
    }
  }

  /** Event i is the first mutation applied. */
  ghost predicate FirstAppliedAt(events: seq<Event>, i: int) {
    0 <= i < |events| && events[i].body.PolicyMutationApplied? &&
    forall j :: 0 <= j < i ==> !events[j].body.PolicyMutationApplied?
  }

  lemma {:induction false} FirstMutationIs(events: seq<Event>)
    ensures FirstMutation(events).None? <==> forall i :: 0 <= i < |events| ==> !events[i].body.PolicyMutationApplied?
    ensures FirstMutation(events).Some? ==>
              exists i :: FirstAppliedAt(events, i) && FirstMutation(events) == Some(events[i].body)
  {
    if events != [] {
      FirstMutationIs(events[1..]);
      if events[0].body.PolicyMutationApplied? {
        assert FirstAppliedAt(events, 0);
      } else if FirstMutation(events).Some? {
        var i :| FirstAppliedAt(events[1..], i) && FirstMutation(events) == Some(events[1..][i].body);
        assert forall j :: 0 < j <= i ==> events[j] == events[1..][j - 1];
        assert FirstAppliedAt(events, i + 1);
      }
      if forall i :: 0 <= i < |events| ==> !events[i].body.PolicyMutationApplied? {
        assert forall i :: 0 <= i < |events[1..]| ==> events[1..][i] == events[i + 1];
      }
    }
  }

  /** Each polled cell, in order of first appearance, with what its own samples show since this mutation was sent. */
  ghost predicate EachReported(mutation: EventBody, observations: seq<Observation>, r: seq<CellMeasurement>)
    requires mutation.PolicyMutationApplied?
  {
    |r| == |Cells(observations)| &&
    forall k :: 0 <= k < |r| ==>
      r[k].cell == Cells(observations)[k] && r[k].kind == mutation.kind &&
      Reports(r[k].measurement, CellSamples(observations, r[k].cell), mutation.sentNs, 500, mutation.confirmed)
  }

  /** The measurements returned are those of every polled cell against the first mutation of the run. */
  ghost predicate AllReported(events: seq<Event>, observations: seq<Observation>, r: seq<CellMeasurement>) {
    if exists i :: FirstAppliedAt(events, i) then
      exists i :: FirstAppliedAt(events, i) && EachReported(events[i].body, observations, r)
    else r == []
  }

  lemma MeasurementsReport(events: seq<Event>, observations: seq<Observation>)
    ensures var r := MeasurementsOf(events, observations); r.Ok? ==> AllReported(events, observations, r.value)
  {
    hide FirstMutation, MeasureAll, Cells, CellSamples, Reports, Measured, CellMeasured;
    FirstMutationIs(events);
    FirstMutationApplied(events);
    var r := MeasurementsOf(events, observations);
    if r.Ok? && FirstMutation(events).Some? {
      var i :| FirstAppliedAt(events, i) && FirstMutation(events) == Some(events[i].body);
      EachMeasured(events[i].body, observations, r.value);
    }
  }

  lemma EachMeasured(mutation: EventBody, observations: seq<Observation>, r: seq<CellMeasurement>)
    requires mutation.PolicyMutationApplied? && MeasureAll(mutation, observations, Cells(observations)) == Ok(r)
    ensures EachReported(mutation, observations, r)
  {
    hide MeasureAll, Cells, CellSamples, Reports, Measured;
    MeasureAllIs(mutation, observations, Cells(observations));
    forall k | 0 <= k < |r|
      ensures Reports(r[k].measurement, CellSamples(observations, r[k].cell), mutation.sentNs, 500, mutation.confirmed)
    {
      MeasurementReports(CellSamples(observations, r[k].cell), mutation.sentNs, 500, mutation.confirmed);
    }
  }

  /** One measurement per polled cell, all against the run's first mutation; none without a mutation. */
  method RevocationMeasurements(events: seq<Event>, observations: seq<Observation>)
    returns (r: Result<seq<CellMeasurement>, InvalidMeasurement>)
    ensures r == MeasurementsOf(events, observations)
    ensures r.Ok? ==> AllReported(events, observations, r.value)
  {
    hide Measured, CellSamples, Cells, FirstMutation, MeasureAll, AllReported, Reports;
    MeasurementsReport(events, observations);
    var mutation := FirstMutation(events);
    var polls, order := GroupPolls(observations);
    FirstMutationApplied(events);
    NothingMeasured(observations);
    if mutation.None? || order == [] {
      return Ok([]);
    }
    var event := mutation.value;
    var measurements: seq<CellMeasurement> := [];
    for k := 0 to |order|
      invariant MeasureAll(event, observations, order[..k]) == Ok(measurements)
    {
      MeasureNext(event, observations, order, k);
      var window := ComputeRevocationWindow(polls[order[k]], event.sentNs, POLL_INTERVAL_MS, event.confirmed);
      if window.Err? {
        MeasureAllFails(event, observations, order, k + 1);
        return Err(window.error);
      }
      measurements := measurements + [CellMeasurement(order[k], event.kind, window.value)];
    }
    assert order[..|order|] == order;
    return Ok(measurements);
  }

  lemma NothingMeasured(observations: seq<Observation>)
    ensures forall mutation: EventBody :: mutation.PolicyMutationApplied? ==>
            MeasureAll(mutation, observations, []) == Ok([])
  {
  }

  lemma MeasureNext(mutation: EventBody, observations: seq<Observation>, cells: seq<Cell>, k: nat)
    requires mutation.PolicyMutationApplied? && k < |cells| && MeasureAll(mutation, observations, cells[..k]).Ok?
    ensures var m := CellMeasured(mutation, observations, cells[k]);
            MeasureAll(mutation, observations, cells[..k + 1]) ==
            if m.Err? then Err(m.error)
            else Ok(MeasureAll(mutation, observations, cells[..k]).value +
                    [CellMeasurement(cells[k], mutation.kind, m.value)])
  {
    assert cells[..k + 1][..k] == cells[..k];
  }

  lemma {:induction false} FirstMutationApplied(events: seq<Event>)
    ensures FirstMutation(events).Some? ==> FirstMutation(events).value.PolicyMutationApplied?
  {
    if events != [] { FirstMutationApplied(events[1..]); }
  }

  // ---- Warm poll, mutation, poll ------------------------------------------------------

  ghost predicate StrictlyLater(samples: seq<PollSample>) {
    forall i, j :: 0 <= i < j < |samples| ==> samples[i].monotonicNs < samples[j].monotonicNs
  }

  /** A warm-baseline poll that ended stable-allow. */
  ghost predicate WarmEnded(plan: PollPlan, start: nat, run: PollRun) {
    plan.Valid() && plan.stopOn.StableAllow? && Finished(plan, start, run) && run.stopReason.StableAllow?
  }

  /** A poll that ended in a stable denial. */
  ghost predicate DenialEnded(plan: PollPlan, start: nat, run: PollRun) {
    plan.Valid() && plan.stopOn.StableDenial? && Finished(plan, start, run) && run.stopReason.StableDenial?
  }

  /** A cell's samples are those of the warm run followed by those of the run after the mutation. */
  ghost predicate TwoPolls(samples: seq<PollSample>, warm: PollRun, after: PollRun) {
    var n, m := |warm.observations|, |after.observations|;
    |samples| == n + m &&
    (forall i :: 0 <= i < n ==> samples[i] == PollSample(warm.observations[i].startNs, warm.observations[i].outcome)) &&
    (forall i :: 0 <= i < m ==>
     samples[n + i] == PollSample(after.observations[i].startNs, after.observations[i].outcome))
  }

  /** The last sample is a denial, and every ALLOWED lies before the final stable run. */
  lemma FinalRunDenied(plan: PollPlan, start: nat, warm: PollRun, after: PollRun, samples: seq<PollSample>)
    requires DenialEnded(plan, start, after) && TwoPolls(samples, warm, after) && StrictlyLater(samples)
    ensures 0 <= |samples| - plan.stabilityCount
    ensures forall i :: |samples| - plan.stabilityCount <= i < |samples| ==> samples[i].outcome.IsDenial()
    ensures forall s :: s in samples && s.outcome.Allowed? ==>
            s.monotonicNs < samples[|samples| - plan.stabilityCount].monotonicNs
  {
    var n, m := |warm.observations|, |after.observations|;
    forall i | |samples| - plan.stabilityCount <= i < |samples| ensures samples[i].outcome.IsDenial() {
      assert samples[n + (i - n)] == PollSample(after.observations[i - n].startNs, after.observations[i - n].outcome);
    }
    forall s | s in samples && s.outcome.Allowed?
      ensures s.monotonicNs < samples[|samples| - plan.stabilityCount].monotonicNs
    {
      var i :| 0 <= i < |samples| && samples[i] == s;
    }
  }

  lemma ShowsTransition(samples: seq<PollSample>, allowed: PollSample, d: PollSample)
    requires allowed in samples && allowed.outcome.Allowed? && Settles(samples, d)
    ensures HasTransition(samples)
  {
  }

  /** The two samples that pin the transition down: the last of the warm run, and the first of the final stable run. */
  lemma LastWarmAndSettled(warmPlan: PollPlan, warmStart: nat, warm: PollRun, plan: PollPlan, start: nat,
                           after: PollRun, samples: seq<PollSample>)
    requires WarmEnded(warmPlan, warmStart, warm) && DenialEnded(plan, start, after)
    requires TwoPolls(samples, warm, after) && StrictlyLater(samples)
    ensures 0 < |warm.observations| < |samples| && 0 < plan.stabilityCount <= |samples|
    ensures var lastWarm, settled := samples[|warm.observations| - 1], samples[|samples| - plan.stabilityCount];
            lastWarm in samples && settled in samples && lastWarm.outcome.Allowed? && Settles(samples, settled) &&
            HasTransition(samples)
  {
    hide HasTransition;
    var n := |warm.observations|;
    FinalRunDenied(plan, start, warm, after, samples);
    assert Matches(warmPlan.stopOn, warm.observations[n - 1].outcome);
    ShowsTransition(samples, samples[n - 1], samples[|samples| - plan.stabilityCount]);
  }

  /** Any transition of these samples opens no earlier than the last warm one and closes after the mutation was sent. */
  lemma TransitionAfterWarm(samples: seq<PollSample>, n: nat, sentNs: int, t: int, u: int)
    requires 0 < n < |samples| && StrictlyLater(samples) && samples[n - 1].outcome.Allowed?
    requires samples[n - 1].monotonicNs <= sentNs <= samples[n].monotonicNs
    requires IsLastAllow(samples, t) && IsFirstDenialAfter(samples, t, u)
    ensures samples[n - 1].monotonicNs <= t && sentNs <= u
  {
    assert samples[n - 1] in samples;
    var d :| d in samples && d.outcome.IsDenial() && d.monotonicNs == u;
    var i :| 0 <= i < |samples| && samples[i] == d;
    assert i >= n;
  }

  /**
   A warm baseline that ended stable-allow, a mutation sent after it, and a poll that ended in a stable
   denial always yield a valid, observed transition: it starts no earlier than the last warm sample, ends
   after the mutation was sent, and no later than the first sample of the final stable run.
   */
  lemma WarmThenDeniedIsMeasured(warmPlan: PollPlan, warmStart: nat, warm: PollRun, plan: PollPlan, start: nat,
                                 after: PollRun,
                                 samples: seq<PollSample>, sentNs: int, confirmed: bool)
    requires WarmEnded(warmPlan, warmStart, warm) && DenialEnded(plan, start, after)
    requires TwoPolls(samples, warm, after) && StrictlyLater(samples)
    requires samples[|warm.observations| - 1].monotonicNs <= sentNs <= samples[|warm.observations|].monotonicNs
    ensures var r := Measured(samples, sentNs, POLL_INTERVAL_MS, confirmed);
            r.Ok? && r.value.transitionObserved && r.value.transitionWindow.Some? &&
            exists t, u :: IsLastAllow(samples, t) && IsFirstDenialAfter(samples, t, u) &&
                           EndsAt(r.value.transitionWindow.value, t, u, sentNs) &&
                           samples[|warm.observations| - 1].monotonicNs <= t && sentNs <= u &&
                           u <= samples[|samples| - plan.stabilityCount].monotonicNs
  {
    hide Measured, EndsAt, HasTransition, TwoPolls, WarmEnded, DenialEnded;
    var n := |warm.observations|;
    LastWarmAndSettled(warmPlan, warmStart, warm, plan, start, after, samples);
    assert samples[|samples| - 1] in samples && samples[|samples| - 1].monotonicNs >= sentNs;
    MeasuredIff(samples, sentNs, POLL_INTERVAL_MS, confirmed);
    TransitionReportedIff(samples, sentNs, POLL_INTERVAL_MS, confirmed);
    var w := Measured(samples, sentNs, POLL_INTERVAL_MS, confirmed).value.transitionWindow.value;
    var t, u :| IsLastAllow(samples, t) && IsFirstDenialAfter(samples, t, u) && EndsAt(w, t, u, sentNs);
    TransitionAfterWarm(samples, n, sentNs, t, u);
  }
}
