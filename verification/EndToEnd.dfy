/** From a run to its findings: what the evidence of a whole run is worth to the analysis. */
module EndToEnd {
  import opened Wrappers
  import opened Outcomes
  import opened Models
  import opened Evidence
  import opened Logs
  import opened Adapters
  import opened Probes
  import opened Matrix
  import opened Polling
  import opened Deferred
  import opened Tasks
  import opened TaskContract
  import opened Plans
  import opened Timing
  import Revocation
  import opened Runs
  import opened Traces

  // ---- Snapshots around mutations --------------------------------------------------------

  lemma SnapshotOf(x: Setting, c: Compiled, refs: set<IdentityId>, s: Segment, name: string)
    requires c.Valid() && Right(x, c, refs, s) && s.step.kind.Snapshot? && BaseName(s.step.phaseName) == name
    requires name in c.mutations && c.mutations[name].targetIdentity in refs
    ensures Written(s) == [PolicyStateWritten(c.mutations[name].targetIdentity)]
  {
  }

  lemma MutationOf(x: Setting, c: Compiled, refs: set<IdentityId>, s: Segment)
    requires c.Valid() && Right(x, c, refs, s) && s.detail.Mutated?
    ensures s.step.kind.Mutate? && s.step.phaseName in c.mutations
    ensures var target := c.mutations[s.step.phaseName].targetIdentity;
            target in refs && s.detail.plan.targetIdentity == target
  {
  }

  /**
   In a run of a built plan, the records right before a mutation's log entry and right after the applied
   mutation are snapshots of the mutation's own target, provided its phase is not named like a snapshot.
   */
  lemma MutationsAreSnapshotted(x: Setting, c: Compiled, refs: set<IdentityId>, done: seq<Segment>,
                                phases: seq<PhaseSpec>, i: nat)
    requires c.Valid() && DoneRight(x, c, refs, done) && c.plan == Steps(phases)
    requires i + 1 < |done| && done[i].detail.Mutated? && !EndsWith(done[i].step.phaseName, POST_SNAPSHOT)
    ensures i > 0
    ensures Written(done[i - 1]) == [PolicyStateWritten(done[i].detail.plan.targetIdentity)] == Written(done[i + 1])
  {
    hide Right, DoneRight, Steps, BaseName, Written, EndsWith;
    DoneStep(x, c, refs, done, i);
    MutationOf(x, c, refs, done[i]);
    MutationsBracketed(phases, i);
    DoneStep(x, c, refs, done, i - 1);
    DoneStep(x, c, refs, done, i + 1);
    var name := done[i].step.phaseName;
    PreSnapshotFindsIff(name);
    PostSnapshotFinds(name);
    SnapshotOf(x, c, refs, done[i - 1], name);
    SnapshotOf(x, c, refs, done[i + 1], name);
  }

  // ---- Samples of a cell -------------------------------------------------------------------

  lemma {:induction false} SamplesConcat(a: seq<Observation>, b: seq<Observation>, cell: Revocation.Cell)
    ensures Revocation.CellSamples(a + b, cell) == Revocation.CellSamples(a, cell) + Revocation.CellSamples(b, cell)
  {
    if b == [] {
      assert a + b == a;
    } else {
      assert (a + b)[..|a + b| - 1] == a + b[..|b| - 1];
      SamplesConcat(a, b[..|b| - 1], cell);
    }
  }

  lemma {:induction false} OtherPhases(observations: seq<Observation>, cell: Revocation.Cell)
    requires forall i :: 0 <= i < |observations| ==> !observations[i].phase.PostMutation?
    ensures Revocation.CellSamples(observations, cell) == []
  {
    if observations != [] { OtherPhases(observations[..|observations| - 1], cell); }
  }

  /** What a poll contributes to its own cell. */
  function SamplesOf(observations: seq<Observation>): (r: seq<PollSample>)
    ensures |r| == |observations|
  {
    seq(|observations|,
        i requires 0 <= i < |observations| => PollSample(observations[i].startNs, observations[i].outcome))
  }

  lemma {:induction false} OwnCell(observations: seq<Observation>, cell: Revocation.Cell)
    requires forall i :: 0 <= i < |observations| ==> Revocation.InCell(observations[i], cell)
    ensures Revocation.CellSamples(observations, cell) == SamplesOf(observations)
  {
    if observations != [] {
      var front := observations[..|observations| - 1];
      OwnCell(front, cell);
      assert SamplesOf(observations) == SamplesOf(front) + [SamplesOf(observations)[|front|]];
    }
  }

  function CellOf(plan: PollPlan): Revocation.Cell {
    Revocation.Cell(plan.targetIdentity, plan.capabilityId)
  }

  lemma PollSamples(x: Setting, c: Compiled, refs: set<IdentityId>, s: Segment)
    requires c.Valid() && s.detail.CellPolled? && PollRight(x, c, refs, s)
    ensures Revocation.CellSamples(ObservationsIn(Written(s)), CellOf(c.polls[s.step.phaseName])) ==
            SamplesOf(s.detail.polled.observations)
  {
    var run, plan := s.detail.polled, c.polls[s.step.phaseName];
    InBoth(run.observations, [Event(run.nextSequence, PollStopped(s.step.phaseName, run.stopReason, run.pollCount))]);
    forall i | 0 <= i < |run.observations| ensures Revocation.InCell(run.observations[i], CellOf(plan)) {
      assert PolledAt(x.script, s.detail.base, plan, s.start, i, run.observations[i]);
    }
    OwnCell(run.observations, CellOf(plan));
  }

  lemma RecordedPhase(script: Script, base: nat, start: nat, tag: Tag, requests: seq<Request>,
                      observations: seq<Observation>)
    requires Recorded(script, base, start, tag, requests, observations)
    ensures forall i :: 0 <= i < |observations| ==> observations[i].phase == tag.phase
  {
    forall i | 0 <= i < |observations| ensures observations[i].phase == tag.phase {
      assert RecordedAt(script, base, start, tag, i, requests[i], observations[i]);
    }
  }

  lemma BothNotPolled(observations: seq<Observation>, events: seq<Event>, cell: Revocation.Cell)
    requires forall i :: 0 <= i < |observations| ==> !observations[i].phase.PostMutation?
    ensures Revocation.CellSamples(ObservationsIn(Noted(observations) + Announcing(events)), cell) == []
  {
    InBoth(observations, events);
    OtherPhases(observations, cell);
  }

  lemma ThreePartsNotPolled(first: seq<Record>, observations: seq<Observation>, events: seq<Event>, last: seq<Record>,
                            cell: Revocation.Cell)
    requires forall i :: 0 <= i < |observations| ==> !observations[i].phase.PostMutation?
    requires ObservationsIn(first) == [] && ObservationsIn(last) == []
    ensures Revocation.CellSamples(ObservationsIn(first + Noted(observations) + Announcing(events) + last), cell) == []
  {
    BothNotPolled(observations, events, cell);
    InConcat(first, Noted(observations) + Announcing(events));
    assert first + (Noted(observations) + Announcing(events)) == first + Noted(observations) + Announcing(events);
    InConcat(first + Noted(observations) + Announcing(events), last);
    assert ObservationsIn(first + Noted(observations) + Announcing(events) + last) ==
      ObservationsIn(Noted(observations) + Announcing(events));
  }

  lemma MatrixPhases(x: Setting, c: Compiled, refs: set<IdentityId>, s: Segment)
    requires s.detail.Matrixed? && MatrixRight(x, c, refs, s)
    ensures forall i :: 0 <= i < |s.detail.run.observations| ==> !s.detail.run.observations[i].phase.PostMutation?
  {
    hide MatrixRight, Recorded, Requests;
    MatrixIsSwept(x, c, refs, s);
    var run, name := s.detail.run, s.step.phaseName;
    var sweep := SweepOf(x, c, name, s.detail.base, s.start + |s.detail.renewals|);
    assert !sweep.tag.phase.PostMutation?;
    RecordedPhase(x.script, sweep.base, sweep.start, sweep.tag,
                  Requests(x.script, c.controls, c.matrices[name], refs, c.matrices[name].identities),
                  run.observations);
  }

  lemma MatrixNotPolled(x: Setting, c: Compiled, refs: set<IdentityId>, s: Segment, cell: Revocation.Cell)
    requires s.detail.Matrixed? && MatrixRight(x, c, refs, s)
    ensures Revocation.CellSamples(ObservationsIn(Written(s)), cell) == []
  {
    var run := s.detail.run;
    MatrixPhases(x, c, refs, s);
    InAnnouncing(s.detail.renewals);
    ThreePartsNotPolled(Announcing(s.detail.renewals), run.observations, run.events, [], cell);
    assert Written(s) == Announcing(s.detail.renewals) + Noted(run.observations) + Announcing(run.events) + [];
  }

  lemma DeferralPhases(script: Script, base: nat, start: nat, plan: DeferredPlan, b: Before, run: DeferredRun)
    requires RefusalOf(b, plan).None? && DeferredOutcome(script, base, start, plan, b, Ok(run))
    ensures forall i :: 0 <= i < |run.observations| ==> !run.observations[i].phase.PostMutation?
  {
    if PinnedOnly(script, base, start, plan, b.pinned.value, run) {
      RecordedPhase(script, base, start, LegTag(plan, PlanPhase.DeferredExecution), Leg(plan), run.observations);
    } else {
      PairPhases(script, base, start, plan, b.pinned.value, run);
    }
  }

  lemma PairPhases(script: Script, base: nat, start: nat, plan: DeferredPlan, pinned: Credential, run: DeferredRun)
    requires PairedLegs(script, base, start, plan, pinned, run)
    ensures forall i :: 0 <= i < |run.observations| ==> !run.observations[i].phase.PostMutation?
  {
    hide Recorded, Leg;
    var n := |plan.capabilities|;
    RecordedPhase(script, base, start, LegTag(plan, PlanPhase.DeferredExecution), Leg(plan), run.observations[..n]);
    RecordedPhase(script, base + n + 1, start + n + 1, LegTag(plan, PairedFreshCredential), Leg(plan),
                  run.observations[n..]);
    forall i | 0 <= i < |run.observations| ensures !run.observations[i].phase.PostMutation? {
      if i < n {
        assert run.observations[..n][i] == run.observations[i];
      } else {
        assert run.observations[n..][i - n] == run.observations[i];
      }
    }
  }

  lemma CredentialNotPolled(observations: seq<Observation>, events: seq<Event>, credential: Option<Credential>,
                            cell: Revocation.Cell)
    requires forall i :: 0 <= i < |observations| ==> !observations[i].phase.PostMutation?
    ensures Revocation.CellSamples(ObservationsIn(Noted(observations) + Announcing(events) +
                                                  CurrentCredential(credential)), cell) == []
  {
    NothingNumbered(CurrentCredential(credential), 0);
    ThreePartsNotPolled([], observations, events, CurrentCredential(credential), cell);
    assert [] + Noted(observations) == Noted(observations);
  }

  lemma DeferralNotPolled(x: Setting, c: Compiled, refs: set<IdentityId>, s: Segment, cell: Revocation.Cell)
    requires s.detail.Deferral? && DeferralRight(x, c, refs, s)
    ensures Revocation.CellSamples(ObservationsIn(Written(s)), cell) == []
  {
    var run := s.detail.deferral;
    DeferralPhases(x.script, s.detail.base, s.start, c.deferreds[s.step.phaseName], s.detail.before, run);
    CredentialNotPolled(run.observations, run.events, s.detail.credential, cell);
  }

  lemma TaskNotPolled(x: Setting, c: Compiled, refs: set<IdentityId>, s: Segment, cell: Revocation.Cell)
    requires c.Valid() && s.detail.TaskDone? && TaskRight(x, c, refs, s)
    ensures Revocation.CellSamples(ObservationsIn(Written(s)), cell) == []
  {
    var plan, run := c.tasks[s.step.phaseName], s.detail.taskRun;
    TaskNumbered(x.script, plan, s.detail.from, x.records, x.verification, s.detail.markers,
                 MarkerId(x.runId, plan.taskId));
    BothNotPolled(run.observations, run.events, cell);
  }

  lemma DiscardNotPolled(x: Setting, c: Compiled, refs: set<IdentityId>, s: Segment, cell: Revocation.Cell)
    requires s.detail.Discarded? && DiscardRight(x, c, refs, s)
    ensures Revocation.CellSamples(ObservationsIn(Written(s)), cell) == []
  {
    DiscardIsCaused(x, c, refs, s);
    DiscardNumbered(s);
  }

  lemma EventsNotPolled(s: Segment, cell: Revocation.Cell)
    requires s.detail.Snapped? || s.detail.Mutated? || s.detail.Waited?
    ensures Revocation.CellSamples(ObservationsIn(Written(s)), cell) == []
  {
    NothingObserved(Written(s));
  }

  lemma {:induction false} NothingObserved(records: seq<Record>)
    requires forall i :: 0 <= i < |records| ==> !records[i].ObservationWritten?
    ensures ObservationsIn(records) == []
  {
    if records != [] { NothingObserved(records[..|records| - 1]); }
  }

  /** Only polls observe at the phase the revocation analysis reads. */
  lemma OnlyPollsPoll(x: Setting, c: Compiled, refs: set<IdentityId>, s: Segment, cell: Revocation.Cell)
    requires c.Valid() && Right(x, c, refs, s) && !s.detail.CellPolled?
    ensures Revocation.CellSamples(ObservationsIn(Written(s)), cell) == []
  {
    hide MatrixRight, DiscardRight, MutationRight, PollRight, DeferralRight, TaskRight, Timed, Written;
    match s.detail
    case Matrixed(_, _, _, _) => MatrixNotPolled(x, c, refs, s, cell);
    case Discarded(_, _, _) => DiscardNotPolled(x, c, refs, s, cell);
    case Deferral(_, _, _, _) => DeferralNotPolled(x, c, refs, s, cell);
    case TaskDone(_, _, _) => TaskNotPolled(x, c, refs, s, cell);
    case _ => EventsNotPolled(s, cell);
  }

  /** The step polled this cell. */
  ghost predicate Polls(c: Compiled, s: Segment, cell: Revocation.Cell) {
    s.detail.CellPolled? && s.step.phaseName in c.polls && CellOf(c.polls[s.step.phaseName]) == cell
  }

  /** The samples the polls of this cell left, in order. */
  ghost function PolledSamples(c: Compiled, done: seq<Segment>, cell: Revocation.Cell): seq<PollSample> {
    if done == [] then
      []
    else
      var last := done[|done| - 1];
      PolledSamples(c, done[..|done| - 1], cell) +
        (if Polls(c, last, cell) then SamplesOf(last.detail.polled.observations) else [])
  }

  lemma {:induction false} OtherCell(observations: seq<Observation>, own: Revocation.Cell, cell: Revocation.Cell)
    requires forall i :: 0 <= i < |observations| ==> Revocation.InCell(observations[i], own)
    requires own != cell
    ensures Revocation.CellSamples(observations, cell) == []
  {
    if observations != [] { OtherCell(observations[..|observations| - 1], own, cell); }
  }

  lemma PollsOwnCell(x: Setting, c: Compiled, refs: set<IdentityId>, s: Segment, cell: Revocation.Cell)
    requires c.Valid() && s.detail.CellPolled? && PollRight(x, c, refs, s) && CellOf(c.polls[s.step.phaseName]) != cell
    ensures Revocation.CellSamples(ObservationsIn(Written(s)), cell) == []
  {
    hide Finished;
    var run, plan := s.detail.polled, c.polls[s.step.phaseName];
    InBoth(run.observations, [Event(run.nextSequence, PollStopped(s.step.phaseName, run.stopReason, run.pollCount))]);
    forall i | 0 <= i < |run.observations| ensures Revocation.InCell(run.observations[i], CellOf(plan)) {
      assert PolledAt(x.script, s.detail.base, plan, s.start, i, run.observations[i]);
    }
    OtherCell(run.observations, CellOf(plan), cell);
  }

  /** A step leaves samples of a cell exactly if it polled that cell. */
  lemma StepSamples(x: Setting, c: Compiled, refs: set<IdentityId>, s: Segment, cell: Revocation.Cell)
    requires c.Valid() && Right(x, c, refs, s)
    ensures Revocation.CellSamples(ObservationsIn(Written(s)), cell) ==
            if Polls(c, s, cell) then SamplesOf(s.detail.polled.observations) else []
  {
    hide PollRight, MatrixRight, DiscardRight, DeferralRight, TaskRight, MutationRight, Revocation.CellSamples, Written;
    if s.detail.CellPolled? {
      PollFindsPlan(x, c, refs, s);
      if Polls(c, s, cell) { PollSamples(x, c, refs, s); } else { PollsOwnCell(x, c, refs, s, cell); }
    } else {
      OnlyPollsPoll(x, c, refs, s, cell);
    }
  }

  lemma PollFindsPlan(x: Setting, c: Compiled, refs: set<IdentityId>, s: Segment)
    requires c.Valid() && s.detail.CellPolled? && PollRight(x, c, refs, s)
    ensures s.step.phaseName in c.polls
  {
  }

  lemma {:induction false} RunSamples(x: Setting, c: Compiled, refs: set<IdentityId>, done: seq<Segment>,
                                      cell: Revocation.Cell)
    requires c.Valid() && DoneRight(x, c, refs, done)
    ensures Revocation.CellSamples(ObservationsIn(Flat(done)), cell) == PolledSamples(c, done, cell)
    decreases |done|
  {
    hide Right, Written, Polls;
    if done != [] {
      var front, last := done[..|done| - 1], done[|done| - 1];
      RunSamples(x, c, refs, front, cell);
      StepSamples(x, c, refs, last, cell);
      InConcat(Flat(front), Written(last));
      SamplesConcat(ObservationsIn(Flat(front)), ObservationsIn(Written(last)), cell);
    }
  }

  /**
   A run that polls this cell once before and once after its first mutation; of other cells it may poll as it likes.
   */
  ghost predicate PollMutatePoll(c: Compiled, done: seq<Segment>, a: nat, m: nat, b: nat, cell: Revocation.Cell) {
    a < m < b < |done| && Polls(c, done[a], cell) && done[m].detail.Mutated? && Polls(c, done[b], cell) &&
    (forall i :: 0 <= i < |done| && Polls(c, done[i], cell) ==> i == a || i == b) &&
    (forall i :: 0 <= i < m ==> !done[i].detail.Mutated?)
  }

  lemma {:induction false} NoSamples(c: Compiled, done: seq<Segment>, cell: Revocation.Cell)
    requires forall i :: 0 <= i < |done| ==> !Polls(c, done[i], cell)
    ensures PolledSamples(c, done, cell) == []
  {
    if done != [] { NoSamples(c, done[..|done| - 1], cell); }
  }

  lemma {:induction false} OnePoll(c: Compiled, done: seq<Segment>, a: nat, cell: Revocation.Cell)
    requires a < |done| && Polls(c, done[a], cell) && forall i :: 0 <= i < |done| && i != a ==> !Polls(c, done[i], cell)
    ensures PolledSamples(c, done, cell) == SamplesOf(done[a].detail.polled.observations)
  {
    if a == |done| - 1 { NoSamples(c, done[..a], cell); } else { OnePoll(c, done[..|done| - 1], a, cell); }
  }

  lemma {:induction false} TwoPollsOnly(c: Compiled, done: seq<Segment>, a: nat, b: nat, cell: Revocation.Cell)
    requires a < b < |done| && Polls(c, done[a], cell) && Polls(c, done[b], cell)
    requires forall i :: 0 <= i < |done| && Polls(c, done[i], cell) ==> i == a || i == b
    ensures PolledSamples(c, done, cell) ==
            SamplesOf(done[a].detail.polled.observations) + SamplesOf(done[b].detail.polled.observations)
  {
    if b == |done| - 1 { OnePoll(c, done[..b], a, cell); } else { TwoPollsOnly(c, done[..|done| - 1], a, b, cell); }
  }

  // ---- The whole log -----------------------------------------------------------------------

  lemma CutObservesNothing(x: Setting, c: Compiled, refs: set<IdentityId>, cut: Cut)
    requires CutRight(x, c, refs, cut)
    ensures ObservationsIn(cut.records) == []
  {
    match cut.step.kind
    case Probe =>
      if cut.records != [] {
        InAnnouncing(Prepared(x, c, refs, cut.step.phaseName, cut.from, cut.start, cut.before.credentials).events);
      }
    case Mutate => if cut.records != [] { assert cut.records[..0] == []; }
    case _ =>
  }

  lemma TailObservesNothing(t: Trace)
    ensures ObservationsIn(Announcing(t.reverts) + Closing(t)) == []
  {
    InAnnouncing(t.reverts);
    NothingNumbered(Closing(t), 0);
    InConcat(Announcing(t.reverts), Closing(t));
  }

  lemma LogObservations(x: Setting, c: Compiled, refs: set<IdentityId>, t: Trace)
    requires c.Valid() && ValidTrace(x, c, refs, t)
    ensures ObservationsIn(Log(t)) == ObservationsIn(Flat(t.done))
  {
    HeaderIsQuiet(t.header);
    NothingNumbered(t.header, 0);
    if t.cut.Some? { CutObservesNothing(x, c, refs, t.cut.value); }
    TailObservesNothing(t);
    JoinObservations(t.header, Flat(t.done), CutRecords(t), Announcing(t.reverts) + Closing(t));
    LogSplits(t);
  }

  lemma JoinObservations(header: seq<Record>, done: seq<Record>, cut: seq<Record>, tail: seq<Record>)
    requires ObservationsIn(header) == [] && ObservationsIn(cut) == [] && ObservationsIn(tail) == []
    ensures ObservationsIn(header + done + cut + tail) == ObservationsIn(done)
  {
    InConcat(header, done);
    InConcat(header + done, cut);
    InConcat(header + done + cut, tail);
  }

  // ---- Discarded matrices --------------------------------------------------------------------

  /** No observation carries a number of this stretch. */
  ghost predicate NoneWithin(observations: seq<Observation>, low: nat, high: nat) {
    forall k :: 0 <= k < |observations| ==> !(low <= observations[k].sequence < high)
  }

  lemma WithinStretch(s: Segment)
    requires Sound(s)
    ensures s.start <= s.next && ObservationsWithin(ObservationsIn(Written(s)), s.start, s.next)
  {
  }

  lemma {:induction false} NumbersGrow(done: seq<Segment>, i: nat)
    requires SoundDone(done) && i < |done|
    ensures done[i].start <= done[i].next <= NextOf(done)
    decreases |done|
  {
    hide Sound;
    var front, last := done[..|done| - 1], done[|done| - 1];
    WithinStretch(last);
    if i < |front| { NumbersGrow(front, i); }
  }

  lemma JoinOutside(a: seq<Observation>, b: seq<Observation>, low: nat, high: nat)
    requires NoneWithin(a, low, high) && NoneWithin(b, low, high)
    ensures NoneWithin(a + b, low, high)
  {
  }

  /** A step that observed nothing leaves the numbers it used up to no observation. */
  lemma {:induction false} NumbersUnobserved(done: seq<Segment>, i: nat)
    requires SoundDone(done) && i < |done| && ObservationsIn(Written(done[i])) == []
    ensures NoneWithin(ObservationsIn(Flat(done)), done[i].start, done[i].next)
    decreases |done|
  {
    hide Sound, Written, Numbered;
    var front, last := done[..|done| - 1], done[|done| - 1];
    InConcat(Flat(front), Written(last));
    WithinStretch(last);
    if i == |front| {
      DoneNumbered(front);
      StretchBelow(ObservationsIn(Flat(front)), Flat(front), last.start, last.next);
    } else {
      NumbersUnobserved(front, i);
      NumbersGrow(front, i);
    }
    JoinOutside(ObservationsIn(Flat(front)), ObservationsIn(Written(last)), done[i].start, done[i].next);
  }

  lemma StretchBelow(observations: seq<Observation>, records: seq<Record>, low: nat, high: nat)
    requires observations == ObservationsIn(records) && Numbered(records, 0, low)
    ensures NoneWithin(observations, low, high)
  {
  }

  lemma {:induction false} WrittenInLog(done: seq<Segment>, i: nat, r: Record)
    requires i < |done| && r in Written(done[i])
    ensures r in Flat(done)
    decreases |done|
  {
    hide Written;
    if i < |done| - 1 { WrittenInLog(done[..|done| - 1], i, r); }
  }

  lemma DiscardedStep(x: Setting, c: Compiled, refs: set<IdentityId>, s: Segment)
    requires c.Valid() && Right(x, c, refs, s) && s.detail.Discarded?
    ensures ObservationsIn(Written(s)) == [] && s.next > s.start && Discards(s.detail.error)
    ensures EventWritten(Event(s.next - 1, MatrixDiscarded(s.step.phaseName))) in Written(s)
  {
    hide MatrixRight, DiscardRight, MutationRight, PollRight, DeferralRight, TaskRight, Timed;
    DiscardIsCaused(x, c, refs, s);
    DiscardNumbered(s);
    assert Written(s)[|s.detail.renewals|] == EventWritten(Event(s.next - 1, MatrixDiscarded(s.step.phaseName)));
  }

  /**
   In every run, a matrix is discarded only for preconditions that failed or a control that did, and then the log has
   its one event, and not a single observation under any number the step used up.
   */
  lemma DiscardedForCause(x: Setting, c: Compiled, refs: set<IdentityId>, t: Trace, i: nat)
    requires c.Valid() && ValidTrace(x, c, refs, t) && i < |t.done| && t.done[i].detail.Discarded?
    ensures Discards(t.done[i].detail.error)
    ensures NoneWithin(ObservationsIn(Log(t)), t.done[i].start, t.done[i].next)
    ensures t.done[i].next > 0 &&
            EventWritten(Event(t.done[i].next - 1, MatrixDiscarded(t.done[i].step.phaseName))) in Log(t)
  {
    hide Right, CutRight, RevertsRight, RevertsMade, RevertsEnd, OpenedRight, LeftAfter, CutAfter, DoneRight, Written,
      Log,
         Flat, NoneWithin, SoundDone, ObservationsIn;
    DoneStep(x, c, refs, t.done, i);
    DiscardedStep(x, c, refs, t.done[i]);
    DoneIsSound(x, c, refs, t.done);
    NumbersUnobserved(t.done, i);
    LogObservations(x, c, refs, t);
    WrittenInLog(t.done, i, EventWritten(Event(t.done[i].next - 1, MatrixDiscarded(t.done[i].step.phaseName))));
    DoneInLog(t, EventWritten(Event(t.done[i].next - 1, MatrixDiscarded(t.done[i].step.phaseName))));
  }

  lemma DoneInLog(t: Trace, r: Record)
    requires r in Flat(t.done)
    ensures r in Log(t)
  {
    LogSplits(t);
  }

  predicate TellsOfDiscard(r: Record) {
    r.EventWritten? && r.event.body.MatrixDiscarded?
  }

  /** How many matrices a stretch of the log says were discarded. */
  function DiscardsTold(records: seq<Record>): nat {
    if records == [] then
      0
    else
      DiscardsTold(records[..|records| - 1]) + (if TellsOfDiscard(records[|records| - 1]) then 1 else 0)
  }

  lemma {:induction false} ToldBoth(a: seq<Record>, b: seq<Record>)
    ensures DiscardsTold(a + b) == DiscardsTold(a) + DiscardsTold(b)
  {
    if b == [] {
      assert a + b == a;
    } else {
      assert (a + b)[..|a + b| - 1] == a + b[..|b| - 1];
      ToldBoth(a, b[..|b| - 1]);
    }
  }

  lemma {:induction false} NoneTold(records: seq<Record>)
    requires forall i :: 0 <= i < |records| ==> !TellsOfDiscard(records[i])
    ensures DiscardsTold(records) == 0
  {
    if records != [] { NoneTold(records[..|records| - 1]); }
  }

  lemma BothNotTold(observations: seq<Observation>, events: seq<Event>)
    requires forall e :: e in events ==> !e.body.MatrixDiscarded?
    ensures DiscardsTold(Noted(observations) + Announcing(events)) == 0
  {
    forall i | 0 <= i < |events| ensures !TellsOfDiscard(Announcing(events)[i]) { assert events[i] in events; }
    NoneTold(Noted(observations));
    NoneTold(Announcing(events));
    ToldBoth(Noted(observations), Announcing(events));
  }

  lemma RenewalsNotTold(renewals: seq<Event>, start: nat)
    requires Renewals(renewals, start)
    ensures DiscardsTold(Announcing(renewals)) == 0
  {
    NoneTold(Announcing(renewals));
  }

  lemma MatrixNotTold(x: Setting, c: Compiled, refs: set<IdentityId>, s: Segment)
    requires s.detail.Matrixed? && MatrixRight(x, c, refs, s)
    ensures DiscardsTold(Written(s)) == 0
  {
    hide MatrixRight, Recorded;
    MatrixIsSwept(x, c, refs, s);
    var run, m := s.detail.run, c.matrices[s.step.phaseName];
    RenewalsNotTold(s.detail.renewals, s.start);
    OnlyShuffles(x.script, c.controls, m, refs, s.start + |s.detail.renewals|, m.identities);
    BothNotTold(run.observations, run.events);
    ToldBoth(Announcing(s.detail.renewals), Noted(run.observations) + Announcing(run.events));
    assert Written(s) == Announcing(s.detail.renewals) + (Noted(run.observations) + Announcing(run.events));
  }

  lemma DiscardTold(x: Setting, c: Compiled, refs: set<IdentityId>, s: Segment)
    requires s.detail.Discarded? && DiscardRight(x, c, refs, s)
    ensures DiscardsTold(Written(s)) == 1
  {
    hide DiscardRight;
    DiscardIsCaused(x, c, refs, s);
    RenewalsNotTold(s.detail.renewals, s.start);
    var e := Event(s.start + |s.detail.renewals|, MatrixDiscarded(s.step.phaseName));
    ToldBoth(Announcing(s.detail.renewals), Announcing([e]));
    assert Announcing([e])[..0] == [];
  }

  lemma DeferralNotTold(x: Setting, c: Compiled, refs: set<IdentityId>, s: Segment)
    requires s.detail.Deferral? && DeferralRight(x, c, refs, s)
    ensures DiscardsTold(Written(s)) == 0
  {
    var run := s.detail.deferral;
    BothNotTold(run.observations, run.events);
    NoneTold(CurrentCredential(s.detail.credential));
    ToldBoth(Noted(run.observations) + Announcing(run.events), CurrentCredential(s.detail.credential));
  }

  lemma TaskNotTold(x: Setting, c: Compiled, refs: set<IdentityId>, s: Segment)
    requires c.Valid() && s.detail.TaskDone? && TaskRight(x, c, refs, s)
    ensures DiscardsTold(Written(s)) == 0
  {
    var plan, run := c.tasks[s.step.phaseName], s.detail.taskRun;
    TaskNumbered(x.script, plan, s.detail.from, x.records, x.verification, s.detail.markers,
                 MarkerId(x.runId, plan.taskId));
    BothNotTold(run.observations, run.events);
  }

  lemma PollNotTold(s: Segment)
    requires s.detail.CellPolled?
    ensures DiscardsTold(Written(s)) == 0
  {
    var run := s.detail.polled;
    BothNotTold(run.observations,
                [Event(run.nextSequence, PollStopped(s.step.phaseName, run.stopReason, run.pollCount))]);
  }

  lemma ShortNotTold(s: Segment)
    requires s.detail.Snapped? || s.detail.Waited? || (s.detail.Mutated? && s.detail.applied.PolicyMutationApplied?)
    ensures DiscardsTold(Written(s)) == 0
  {
    NoneTold(Written(s));
  }

  lemma MutationApplies(x: Setting, c: Compiled, refs: set<IdentityId>, s: Segment)
    requires s.detail.Mutated? && MutationRight(x, c, refs, s)
    ensures s.detail.applied.PolicyMutationApplied?
  {
  }

  lemma StepTold(x: Setting, c: Compiled, refs: set<IdentityId>, s: Segment)
    requires c.Valid() && Right(x, c, refs, s)
    ensures DiscardsTold(Written(s)) == if s.detail.Discarded? then 1 else 0
  {
    hide MatrixRight, DiscardRight, MutationRight, PollRight, DeferralRight, TaskRight, Timed, Written;
    match s.detail
    case Matrixed(_, _, _, _) => MatrixNotTold(x, c, refs, s);
    case Discarded(_, _, _) => DiscardTold(x, c, refs, s);
    case Deferral(_, _, _, _) => DeferralNotTold(x, c, refs, s);
    case TaskDone(_, _, _) => TaskNotTold(x, c, refs, s);
    case CellPolled(_, _) => PollNotTold(s);
    case Mutated(_, _) =>
      MutationApplies(x, c, refs, s);
      ShortNotTold(s);
    case _ => ShortNotTold(s);
  }

  lemma {:induction false} DoneTold(x: Setting, c: Compiled, refs: set<IdentityId>, done: seq<Segment>)
    requires c.Valid() && DoneRight(x, c, refs, done)
    ensures DiscardsTold(Flat(done)) == DiscardCount(done)
    decreases |done|
  {
    hide Right, Written;
    if done != [] {
      var front, last := done[..|done| - 1], done[|done| - 1];
      DoneTold(x, c, refs, front);
      StepTold(x, c, refs, last);
      ToldBoth(Flat(front), Written(last));
    }
  }

  /** The final record of a clean run counts exactly the matrices that its log says were discarded. */
  lemma FinalCounts(x: Setting, c: Compiled, refs: set<IdentityId>, t: Trace)
    requires c.Valid() && ValidTrace(x, c, refs, t) && t.finalized.Some?
    ensures Log(t) != [] && Log(t)[|Log(t)| - 1] == Finalized(t.finalized.value)
    ensures t.finalized.value == DiscardsTold(Log(t))
  {
    hide Right, CutRight, OpenedRight, RevertsMade, RevertsEnd, LeftAfter, CutAfter, Flat, DoneRight;
    DoneTold(x, c, refs, t.done);
    HeaderIsQuiet(t.header);
    NoneTold(t.header);
    NoneTold(Announcing(t.reverts) + Closing(t));
    ToldBoth(t.header, Flat(t.done));
    LogSplits(t);
    assert Body(t) == t.header + Flat(t.done);
    ToldBoth(Body(t), Announcing(t.reverts) + Closing(t));
  }

  // ---- The first mutation --------------------------------------------------------------------

  lemma {:induction false} FirstOfTwo(a: seq<Event>, b: seq<Event>)
    ensures Revocation.FirstMutation(a + b) == if Revocation.FirstMutation(a).Some? then
            Revocation.FirstMutation(a) else Revocation.FirstMutation(b)
  {
    if a == [] {
      assert a + b == b;
    } else {
      assert (a + b)[1..] == a[1..] + b;
      FirstOfTwo(a[1..], b);
    }
  }

  lemma {:induction false} NoMutationIn(records: seq<Record>)
    requires forall i :: 0 <= i < |records| ==> !IsApplied(records[i])
    ensures Revocation.FirstMutation(EventsIn(records)).None?
  {
    if records != [] {
      var front, last := records[..|records| - 1], records[|records| - 1];
      NoMutationIn(front);
      FirstOfTwo(EventsIn(front), if last.EventWritten? then [last.event] else []);
    }
  }

  lemma StepMutates(x: Setting, c: Compiled, refs: set<IdentityId>, s: Segment)
    requires c.Valid() && Right(x, c, refs, s)
    ensures Revocation.FirstMutation(EventsIn(Written(s))) == if s.detail.Mutated? then Some(s.detail.applied) else None
  {
    if s.detail.Mutated? {
      var events := [Event(s.start, RevertLogWritten(s.detail.plan)), Event(s.start + 1, s.detail.applied)];
      InAnnouncing(events);
      assert Written(s) == Announcing(events);
    } else {
      OtherStepQuiet(x, c, refs, s);
      assert forall i :: 0 <= i < |Written(s)| ==> QuietRecord(Written(s)[i]);
      NoMutationIn(Written(s));
    }
  }

  lemma {:induction false} FirstMutationOf(x: Setting, c: Compiled, refs: set<IdentityId>, done: seq<Segment>, m: nat)
    requires c.Valid() && DoneRight(x, c, refs, done) && m <= |done| &&
             forall i :: 0 <= i < m ==> !done[i].detail.Mutated?
    requires m < |done| ==> done[m].detail.Mutated?
    ensures Revocation.FirstMutation(EventsIn(Flat(done))) == if m < |done| then Some(done[m].detail.applied) else None
    decreases |done|
  {
    hide Right, Written;
    if done != [] {
      var front, last := done[..|done| - 1], done[|done| - 1];
      FirstMutationOf(x, c, refs, front, if m < |done| then m else m - 1);
      StepMutates(x, c, refs, last);
      InConcat(Flat(front), Written(last));
      FirstOfTwo(EventsIn(Flat(front)), EventsIn(Written(last)));
    }
  }

  lemma LogFirstMutation(x: Setting, c: Compiled, refs: set<IdentityId>, t: Trace, m: nat)
    requires c.Valid() && ValidTrace(x, c, refs, t) && m < |t.done| && t.done[m].detail.Mutated?
    requires forall i :: 0 <= i < m ==> !t.done[i].detail.Mutated?
    ensures Revocation.FirstMutation(EventsIn(Log(t))) == Some(t.done[m].detail.applied)
  {
    FirstMutationOf(x, c, refs, t.done, m);
    HeaderIsQuiet(t.header);
    NothingNumbered(t.header, 0);
    JoinFirst(t.header, Flat(t.done), Rest(t));
    LogSplits(t);
  }

  lemma JoinFirst(header: seq<Record>, done: seq<Record>, rest: seq<Record>)
    requires EventsIn(header) == [] && Revocation.FirstMutation(EventsIn(done)).Some?
    ensures Revocation.FirstMutation(EventsIn(header + done + rest)) == Revocation.FirstMutation(EventsIn(done))
  {
    InConcat(header, done);
    InConcat(header + done, rest);
    assert [] + EventsIn(done) == EventsIn(done);
    FirstOfTwo(EventsIn(done), EventsIn(rest));
  }

  // ---- A revocation run is measured ------------------------------------------------------------

  /** The provider's clock: samples strictly apart, the mutation sent between the two polls. */
  ghost predicate Clocked(warm: seq<PollSample>, after: seq<PollSample>, sentNs: int)
    requires warm != [] && after != []
  {
    Revocation.StrictlyLater(warm + after) && warm[|warm| - 1].monotonicNs <= sentNs <= after[0].monotonicNs
  }

  /**
   The observed transition: it opens no earlier than the last warm sample and closes no later than the final stable
   run begins.
   */
  ghost predicate Transition(samples: seq<PollSample>, warm: nat, stable: nat, sentNs: int,
                             r: Result<Measurement, InvalidMeasurement>)
    requires 0 < warm < |samples| && stable <= |samples| && stable > 0
  {
    r.Ok? && r.value.transitionObserved && r.value.transitionWindow.Some? &&
    Spans(r.value.windowLengthS, samples, sentNs) &&
    exists low, high :: IsLastAllow(samples, low) && IsFirstDenialAfter(samples, low, high) &&
                        EndsAt(r.value.transitionWindow.value, low, high, sentNs) &&
                        samples[warm - 1].monotonicNs <= low && sentNs <= high &&
                        high <= samples[|samples| - stable].monotonicNs
  }

  lemma PollsAreTwo(warm: PollRun, after: PollRun)
    ensures Revocation.TwoPolls(SamplesOf(warm.observations) + SamplesOf(after.observations), warm, after)
  {
  }

  lemma TwoPollsMeasured(warmPlan: PollPlan, warmStart: nat, warm: PollRun, plan: PollPlan, start: nat,
                         after: PollRun, sentNs: int, confirmed: bool)
    requires Revocation.WarmEnded(warmPlan, warmStart, warm) && Revocation.DenialEnded(plan, start, after)
    requires Clocked(SamplesOf(warm.observations), SamplesOf(after.observations), sentNs)
    ensures var samples := SamplesOf(warm.observations) + SamplesOf(after.observations);
            Transition(samples, |warm.observations|, plan.stabilityCount, sentNs,
                       Measured(samples, sentNs, Revocation.POLL_INTERVAL_MS, confirmed))
  {
    hide Measured, EndsAt, IsLastAllow, IsFirstDenialAfter, Finished, Spans, Brackets, Explained, AllowedAfterDenial,
         HasTransition;
    var samples := SamplesOf(warm.observations) + SamplesOf(after.observations);
    MeasurementReports(samples, sentNs, Revocation.POLL_INTERVAL_MS, confirmed);
    PollsAreTwo(warm, after);
    Revocation.WarmThenDeniedIsMeasured(warmPlan, warmStart, warm, plan, start, after, samples, sentNs, confirmed);
  }

  /** What the log of such a run holds for the polled cell. */
  lemma LogOfPolls(x: Setting, c: Compiled, refs: set<IdentityId>, t: Trace, a: nat, m: nat, b: nat,
                   cell: Revocation.Cell)
    requires c.Valid() && ValidTrace(x, c, refs, t) && PollMutatePoll(c, t.done, a, m, b, cell)
    ensures Revocation.CellSamples(ObservationsIn(Log(t)), cell) ==
            SamplesOf(t.done[a].detail.polled.observations) + SamplesOf(t.done[b].detail.polled.observations)
    ensures Revocation.FirstMutation(EventsIn(Log(t))) == Some(t.done[m].detail.applied)
  {
    hide CutRight, RevertsRight;
    LogObservations(x, c, refs, t);
    LogFirstMutation(x, c, refs, t, m);
    RunSamples(x, c, refs, t.done, cell);
    TwoPollsOnly(c, t.done, a, b, cell);
  }

  /** What the analysis of the run's evidence returns. */
  function Analysed(t: Trace): Result<seq<Revocation.CellMeasurement>, InvalidMeasurement> {
    Revocation.MeasurementsOf(EventsIn(Log(t)), ObservationsIn(Log(t)))
  }

  /** Every cell some poll of the run observed has a sample from when the mutation was sent or later. */
  ghost predicate AllSampledAfter(t: Trace, sentNs: int) {
    var observations := ObservationsIn(Log(t));
    forall cell :: cell in Revocation.Cells(observations) ==>
      exists s :: s in Revocation.CellSamples(observations, cell) && s.monotonicNs >= sentNs
  }

  /** The measurement of one polled cell is among those returned, if any are. */
  lemma MeasurementFound(events: seq<Event>, observations: seq<Observation>, cell: Revocation.Cell) returns (k: nat)
    requires Revocation.FirstMutation(events).Some? && Revocation.FirstMutation(events).value.PolicyMutationApplied?
    requires Revocation.CellSamples(observations, cell) != [] && Revocation.MeasurementsOf(events, observations).Ok?
    ensures var r := Revocation.MeasurementsOf(events, observations).value;
            k < |r| && r[k].cell == cell &&
            Revocation.CellMeasured(Revocation.FirstMutation(events).value, observations, cell) == Ok(r[k].measurement)
  {
    var cells := Revocation.Cells(observations);
    Revocation.CellsExact(observations, cell);
    Revocation.MeasureAllIs(Revocation.FirstMutation(events).value, observations, cells);
    k :| 0 <= k < |cells| && cells[k] == cell;
  }

  /**
   From the run to what its analysis returns. A run polls a cell warm, mutates, and polls the cell again, the
   first poll having ended stable-allow and the second in a stable denial; other cells it may poll as it likes,
   and it may be cut short after the second poll. Then the analysis of the evidence it left returns
   measurements exactly when every polled cell was sampled after the mutation was sent too, and among them a
   valid, observed transition of this cell.
   */
  lemma RunIsMeasured(x: Setting, c: Compiled, refs: set<IdentityId>, t: Trace, a: nat, m: nat, b: nat,
                      cell: Revocation.Cell)
    requires c.Valid() && ValidTrace(x, c, refs, t) && PollMutatePoll(c, t.done, a, m, b, cell)
    requires Revocation.WarmEnded(c.polls[t.done[a].step.phaseName], t.done[a].start, t.done[a].detail.polled)
    requires Revocation.DenialEnded(c.polls[t.done[b].step.phaseName], t.done[b].start, t.done[b].detail.polled)
    requires t.done[m].detail.applied.PolicyMutationApplied?
    requires Clocked(SamplesOf(t.done[a].detail.polled.observations), SamplesOf(t.done[b].detail.polled.observations),
                     t.done[m].detail.applied.sentNs)
    ensures var sentNs := t.done[m].detail.applied.sentNs;
            (Analysed(t).Ok? <==> AllSampledAfter(t, sentNs)) &&
            (Analysed(t).Ok? ==>
               var samples :=
                 SamplesOf(t.done[a].detail.polled.observations) + SamplesOf(t.done[b].detail.polled.observations);
               exists k :: 0 <= k < |Analysed(t).value| && Analysed(t).value[k].cell == cell &&
                           Transition(samples, |t.done[a].detail.polled.observations|,
                                      c.polls[t.done[b].step.phaseName].stabilityCount,
                                      sentNs, Ok(Analysed(t).value[k].measurement)))
  {
    hide ValidTrace, Measured, Transition, Clocked, Revocation.CellSamples, Revocation.Cells, Log,
      Revocation.MeasurementsOf;
    LogOfPolls(x, c, refs, t, a, m, b, cell);
    TwoPollsMeasured(c.polls[t.done[a].step.phaseName], t.done[a].start, t.done[a].detail.polled,
                     c.polls[t.done[b].step.phaseName],
                     t.done[b].start, t.done[b].detail.polled, t.done[m].detail.applied.sentNs,
                       t.done[m].detail.applied.confirmed);
    Revocation.MeasurementsFailIff(EventsIn(Log(t)), ObservationsIn(Log(t)));
    if Analysed(t).Ok? {
      var k := MeasurementFound(EventsIn(Log(t)), ObservationsIn(Log(t)), cell);
    }
  }
}
