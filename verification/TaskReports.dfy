/** What a task run reports, read on the tries its worker made and the provider's answers to them. */
module TaskReports {
  import opened Outcomes
  import opened Models
  import opened Evidence
  import opened Adapters
  import opened Tasks
  import opened TaskContract

  // ---- Tries ---------------------------------------------------------------------------

  /** The tries that reach the provider: all but those of `identity.delegate`. */
  function Probing(tries: seq<Invocation>): seq<Invocation> {
    if tries == [] then
      []
    else
      Probing(tries[..|tries| - 1]) +
      (if tries[|tries| - 1].capability == DELEGATE then [] else [tries[|tries| - 1]])
  }

  lemma {:induction false} ProbingBoth(a: seq<Invocation>, b: seq<Invocation>)
    ensures Probing(a + b) == Probing(a) + Probing(b)
  {
    if b == [] {
      assert a + b == a;
    } else {
      assert (a + b)[..|a + b| - 1] == a + b[..|b| - 1];
      ProbingBoth(a, b[..|b| - 1]);
    }
  }

  lemma {:induction false} ProbingShort(tries: seq<Invocation>)
    ensures |Probing(tries)| <= |tries|
  {
    if tries != [] { ProbingShort(tries[..|tries| - 1]); }
  }

  /** The observation of a try: whose it is, of what, and the provider's own answer. */
  ghost predicate ObservedAs(script: Script, plan: TaskPlan, call: nat, t: Invocation, o: Observation) {
    script.probes(call).Ok? && script.probes(call).value.outcome == t.outcome == o.outcome &&
    script.probes(call).value.startNs == o.startNs && o.capabilityId == t.capability &&
    o.identityId == plan.targetIdentity && o.phase == TaskExecution && o.probeMatrixId == "pm-" + plan.phaseName &&
    o.trial == 1
  }

  /**
   These tries were made, one number each: a delegation request was refused with an event, anything else was one call
   of the provider, logged and observed with its answer.
   */
  ghost predicate Tried(script: Script, plan: TaskPlan, s: Session, after: Session, tries: seq<Invocation>) {
    var probing := Probing(tries);
    var n, m, k := |s.observations|, |s.events|, |probing|;
    after.log == s.log + probing && after.calls == s.calls + k && after.refused == s.refused + |tries| - k &&
    after.sequence == s.sequence + |tries| && s.observations <= after.observations && s.events <= after.events &&
    |after.observations| == n + k && |after.events| == m + |tries| - k &&
    (forall i :: 0 <= i < k ==> ObservedAs(script, plan, s.calls + i, probing[i], after.observations[n + i])) &&
    forall j :: 0 <= j < |tries| ==> NumberedAs(plan, s, after, tries, j)
  }

  /** Try j of the stretch took the j-th number. */
  ghost predicate NumberedAs(plan: TaskPlan, s: Session, after: Session, tries: seq<Invocation>, j: nat)
    requires j < |tries|
  {
    var i := |Probing(tries[..j])|;
    if tries[j].capability == DELEGATE then
      tries[j].outcome == DeniedExplicit && i <= j && |s.events| + j - i < |after.events| &&
      after.events[|s.events| + j - i] == Event(s.sequence + j, RedelegationAttemptRefused(plan.taskId))
    else
      |s.observations| + i < |after.observations| &&
      after.observations[|s.observations| + i].sequence == s.sequence + j
  }

  lemma NothingTried(script: Script, plan: TaskPlan, s: Session)
    ensures Tried(script, plan, s, s, [])
  {
  }

  lemma InvokedTried(script: Script, plan: TaskPlan, s: Session, c: Capability)
    requires Invoked(script, plan, s, c).Ok?
    ensures Tried(script, plan, s, Invoked(script, plan, s, c).value.0,
                  [Invocation(c, Invoked(script, plan, s, c).value.1)])
  {
    var t := Invocation(c, Invoked(script, plan, s, c).value.1);
    assert [t][..0] == [];
  }

  lemma TriedBoth(script: Script, plan: TaskPlan, s: Session, mid: Session, after: Session, a: seq<Invocation>,
                  b: seq<Invocation>)
    requires Tried(script, plan, s, mid, a) && Tried(script, plan, mid, after, b)
    ensures Tried(script, plan, s, after, a + b)
  {
    hide ObservedAs, NumberedAs;
    ProbingBoth(a, b);
    var probing, n, k := Probing(a + b), |s.observations|, |Probing(a)|;
    forall i | 0 <= i < |probing|
      ensures ObservedAs(script, plan, s.calls + i, probing[i], after.observations[n + i])
    {
      if i < k {
        assert ObservedAs(script, plan, s.calls + i, Probing(a)[i], mid.observations[n + i]);
      } else {
        assert ObservedAs(script, plan, mid.calls + (i - k), Probing(b)[i - k],
                          after.observations[|mid.observations| + (i - k)]);
      }
    }
    forall j | 0 <= j < |a + b| ensures NumberedAs(plan, s, after, a + b, j) {
      if j < |a| {
        EarlierNumber(plan, s, mid, after, a, b, j);
      } else {
        LaterNumber(plan, s, mid, after, a, b, j);
      }
    }
  }

  lemma EarlierNumber(plan: TaskPlan, s: Session, mid: Session, after: Session, a: seq<Invocation>, b: seq<Invocation>,
                      j: nat)
    requires j < |a| && NumberedAs(plan, s, mid, a, j)
    requires mid.observations <= after.observations && mid.events <= after.events
    ensures NumberedAs(plan, s, after, a + b, j)
  {
    assert (a + b)[..j] == a[..j];
  }

  lemma LaterNumber(plan: TaskPlan, s: Session, mid: Session, after: Session, a: seq<Invocation>, b: seq<Invocation>,
                    j: nat)
    requires |a| <= j < |a + b| && NumberedAs(plan, mid, after, b, j - |a|)
    requires mid.sequence == s.sequence + |a| && |mid.observations| == |s.observations| + |Probing(a)|
    requires |mid.events| == |s.events| + |a| - |Probing(a)|
    ensures NumberedAs(plan, s, after, a + b, j)
  {
    assert (a + b)[..j] == a + b[..j - |a|];
    ProbingBoth(a, b[..j - |a|]);
    ProbingShort(a);
  }

  // ---- Turns -----------------------------------------------------------------------------

  /** How a step's turn ended: with the outcome of its last try. */
  function Ended(turn: seq<Invocation>): OutcomeClass
    requires turn != []
  {
    turn[|turn| - 1].outcome
  }

  /** One step's turn: one try of its own capability, or two if the first was not allowed and it is to be retried. */
  ghost predicate TurnOf(step: Step, turn: seq<Invocation>) {
    turn != [] && (forall i :: 0 <= i < |turn| ==> turn[i].capability == step.capability) &&
    |turn| == if step.onFailure.Retry? && !turn[0].outcome.Allowed? then 2 else 1
  }

  /** The turn failed and its step aborts the task. */
  predicate Aborts(step: Step, turn: seq<Invocation>) {
    turn != [] && !Ended(turn).Allowed? && step.onFailure.Abort?
  }

  /** The steps had their turns in order: all of them, or up to one that aborts. */
  ghost predicate TurnsOf(steps: seq<Step>, turns: seq<seq<Invocation>>) {
    |turns| <= |steps| && (forall i :: 0 <= i < |turns| ==> TurnOf(steps[i], turns[i])) &&
    (forall i :: 0 <= i < |turns| - 1 ==> !Aborts(steps[i], turns[i])) &&
    (|turns| < |steps| ==> turns != [] && Aborts(steps[|turns| - 1], turns[|turns| - 1]))
  }

  function Flat(turns: seq<seq<Invocation>>): seq<Invocation> {
    if turns == [] then [] else turns[0] + Flat(turns[1..])
  }

  /** How many turns ended well. */
  function Successes(turns: seq<seq<Invocation>>): nat {
    if turns == [] then
      0
    else
      (if turns[0] != [] && Ended(turns[0]).Allowed? then 1 else 0) + Successes(turns[1..])
  }

  /** What is reported step by step: the capability, and how its turn ended. */
  ghost predicate Tells(steps: seq<Step>, turns: seq<seq<Invocation>>, outcomes: seq<StepOutcome>) {
    |outcomes| == |turns| <= |steps| &&
    forall i :: 0 <= i < |turns| ==>
      turns[i] != [] &&
      outcomes[i] == StepOutcome(steps[i].capability, Ended(turns[i]).Allowed?, Ended(turns[i]))
  }

  ghost predicate SomeFailed(turns: seq<seq<Invocation>>) {
    exists i :: 0 <= i < |turns| && turns[i] != [] && !Ended(turns[i]).Allowed?
  }

  /** The last declared step had its turn, and it ended well. */
  ghost predicate LastDone(steps: seq<Step>, turns: seq<seq<Invocation>>) {
    steps != [] && |turns| == |steps| && turns[|steps| - 1] != [] && Ended(turns[|steps| - 1]).Allowed?
  }

  /** What a worker that reports what happened has to tell of these turns. */
  ghost predicate Tallied(steps: seq<Step>, turns: seq<seq<Invocation>>, before: Work, after: Work) {
    before.outcomes <= after.outcomes && Tells(steps, turns, after.outcomes[|before.outcomes|..]) &&
    after.attempted == before.attempted + |Flat(turns)| && after.succeeded == before.succeeded + Successes(turns) &&
    (after.insufficient <==> before.insufficient || SomeFailed(turns)) &&
    (after.marker <==> before.marker || LastDone(steps, turns))
  }

  lemma AttemptTurn(script: Script, plan: TaskPlan, s: Session, step: Step) returns (turn: seq<Invocation>)
    requires Attempt(script, plan, s, step).Ok?
    ensures var (after, outcome, tries) := Attempt(script, plan, s, step).value;
            TurnOf(step, turn) && Ended(turn) == outcome && |turn| == tries && Tried(script, plan, s, after, turn)
  {
    hide Tried, Invoked;
    var c := step.capability;
    var first := Invoked(script, plan, s, c).value;
    InvokedTried(script, plan, s, c);
    turn := [Invocation(c, first.1)];
    if step.onFailure.Retry? && !first.1.Allowed? {
      var second := Invoked(script, plan, first.0, c).value;
      InvokedTried(script, plan, first.0, c);
      TriedBoth(script, plan, s, first.0, second.0, turn, [Invocation(c, second.1)]);
      turn := turn + [Invocation(c, second.1)];
    }
  }

  lemma TurnsFirst(steps: seq<Step>, turn: seq<Invocation>, rest: seq<seq<Invocation>>)
    requires steps != [] && TurnOf(steps[0], turn)
    requires if Aborts(steps[0], turn) then rest == [] else TurnsOf(steps[1..], rest)
    ensures TurnsOf(steps, [turn] + rest)
  {
    hide TurnOf, Aborts;
    var turns := [turn] + rest;
    forall i | 0 < i < |turns| ensures turns[i] == rest[i - 1] && steps[i] == steps[1..][i - 1] {}
  }

  lemma TalliedFirst(steps: seq<Step>, turn: seq<Invocation>, rest: seq<seq<Invocation>>, w: Work, mid: Work,
                     after: Work)
    requires steps != [] && turn != [] && mid == Tally(w, steps[0], Ended(turn), |turn|, |steps| == 1)
    requires if Aborts(steps[0], turn) then rest == [] && after == mid else Tallied(steps[1..], rest, mid, after)
    ensures Tallied(steps, [turn] + rest, w, after)
  {
    var turns := [turn] + rest;
    assert turns[1..] == rest;
    forall i | 0 < i < |turns| ensures turns[i] == rest[i - 1] {}
    if SomeFailed(rest) {
      var i :| 0 <= i < |rest| && rest[i] != [] && !Ended(rest[i]).Allowed?;
      assert turns[i + 1] == rest[i];
    }
    if SomeFailed(turns) && Ended(turn).Allowed? {
      var i :| 0 <= i < |turns| && turns[i] != [] && !Ended(turns[i]).Allowed?;
      assert turns[i] == rest[i - 1];
    }
    if !Ended(turn).Allowed? { assert turns[0] == turn; }
  }

  /** Working through steps is their turns, and the tally tells them. */
  lemma {:induction false} WorkedTurns(script: Script, plan: TaskPlan, s: Session, w: Work, steps: seq<Step>)
    returns (turns: seq<seq<Invocation>>)
    requires Worked(script, plan, s, w, steps).Ok?
    ensures var (after, told) := Worked(script, plan, s, w, steps).value;
            TurnsOf(steps, turns) && Tried(script, plan, s, after, Flat(turns)) && Tallied(steps, turns, w, told)
    decreases |steps|
  {
    hide Tried, TurnOf, Tallied, Attempt, Tally;
    if steps == [] {
      turns := [];
      NothingTried(script, plan, s);
      NothingTallied(w);
    } else {
      var tried := Attempt(script, plan, s, steps[0]).value;
      var turn := AttemptTurn(script, plan, s, steps[0]);
      var mid := Tally(w, steps[0], tried.1, tried.2, |steps| == 1);
      var rest: seq<seq<Invocation>> := [];
      var after := Worked(script, plan, s, w, steps).value;
      NothingTried(script, plan, tried.0);
      TurnNotEmpty(steps[0], turn);
      if !Aborts(steps[0], turn) { rest := WorkedTurns(script, plan, tried.0, mid, steps[1..]); }
      turns := [turn] + rest;
      assert turns[1..] == rest;
      TriedBoth(script, plan, s, tried.0, after.0, turn, Flat(rest));
      TurnsFirst(steps, turn, rest);
      TalliedFirst(steps, turn, rest, w, mid, after.1);
    }
  }

  lemma TurnNotEmpty(step: Step, turn: seq<Invocation>)
    requires TurnOf(step, turn)
    ensures turn != []
  {
  }

  lemma NothingTallied(w: Work)
    ensures Tallied([], [], w, w)
  {
  }

  // ---- What each worker reports ------------------------------------------------------------

  /** The honest report of these turns. */
  ghost predicate ReportsTurns(plan: TaskPlan, turns: seq<seq<Invocation>>, o: TaskOutcome) {
    o.stepsTotal == |plan.steps| && o.stepsAttempted == |Flat(turns)| && o.stepsSucceeded == Successes(turns) &&
    Tells(plan.steps, turns, o.stepOutcomes) && (o.reportedInsufficientAuthority <==> SomeFailed(turns)) &&
    (o.outputMarkerWritten <==> LastDone(plan.steps, turns)) &&
    o.status == if Successes(turns) == |plan.steps| then Complete else if Successes(turns) == 0 then Failed else Partial
  }

  /** Whatever happened, all steps are reported attempted and done, and the output written. */
  ghost predicate ReportsSuccess(plan: TaskPlan, o: TaskOutcome) {
    o.status.Complete? && o.stepsTotal == o.stepsAttempted == o.stepsSucceeded == |plan.steps| &&
    !o.reportedInsufficientAuthority && o.outputMarkerWritten
  }

  /** Each step has one try, whatever comes of it, of this capability. */
  ghost predicate OneTryEach(turns: seq<seq<Invocation>>, n: nat) {
    |turns| == n && forall i :: 0 <= i < n ==> |turns[i]| == 1
  }

  /** What this kind of worker did and reports. */
  ghost predicate WorkerReports(plan: TaskPlan, turns: seq<seq<Invocation>>, tries: seq<Invocation>, o: TaskOutcome)
    requires plan.steps != []
  {
    var n := |plan.steps|;
    match plan.worker
    case Sequential => TurnsOf(plan.steps, turns) && tries == Flat(turns) && ReportsTurns(plan, turns, o)
    case AlwaysComplete => tries == [] && o.stepOutcomes == [] && ReportsSuccess(plan, o)
    case Substituting =>
      OneTryEach(turns, n) && tries == Flat(turns) &&
      (forall i :: 0 <= i < n ==>
         turns[i][0].capability == if i < n - 1 then plan.steps[i].capability else WHOAMI) &&
      Tells(plan.steps, turns, o.stepOutcomes) && ReportsSuccess(plan, o)
    case Redelegating =>
      OneTryEach(turns, n) && tries == [Invocation(DELEGATE, DeniedExplicit)] + Flat(turns) &&
      (forall i :: 0 <= i < n ==> turns[i][0].capability == plan.steps[i].capability) && ReportsTurns(plan, turns, o)
  }

  /** The output can be confirmed: by a live read, or in the store, where only a real last step puts it. */
  ghost predicate Confirmed(plan: TaskPlan, log: seq<Invocation>, records: bool, verification: Verification,
                            markers: set<string>, id: string)
    requires plan.steps != []
  {
    match verification
    case Live(confirms) => confirms
    case Scratch =>
      id in markers ||
      (records && log != [] && log[|log| - 1].capability == plan.steps[|plan.steps| - 1].capability &&
       log[|log| - 1].outcome.Allowed?)
    case Unavailable => false
  }

  /**
   What a task run leaves, whatever its worker and whatever the provider answers: the observations and refusals of the
   tries made, one number each; then one outcome, with what the worker reports of its turns, what it was seen to
   request, and whether its output can be confirmed.
   */
  ghost predicate RunReports(script: Script, plan: TaskPlan, s: Session, after: Session, records: bool,
                             verification: Verification, markers: set<string>, id: string, run: TaskRun,
                             turns: seq<seq<Invocation>>, tries: seq<Invocation>)
    requires plan.steps != []
  {
    Tried(script, plan, s, after, tries) && WorkerReports(plan, turns, tries, run.outcome) &&
    run.observations == after.observations && run.nextSequence == after.sequence + 1 &&
    run.events == after.events + [Event(after.sequence, TaskOutcomeRecorded(run.outcome))] &&
    run.outcome.taskId == plan.taskId && run.outcome.identityId == plan.targetIdentity &&
    run.outcome.redelegationAttempts == |tries| - |Probing(tries)| &&
    (run.outcome.outputMarkerVerified <==>
       Confirmed(plan, Probing(tries), records, verification, markers, id)) &&
    SeenSubstituting(plan.steps, Collapsed(Probing(tries)), run.outcome.substituted)
  }

  /** What was requested, repeats aside, where another capability was declared. */
  ghost predicate SeenSubstituting(steps: seq<Step>, collapsed: seq<Invocation>, seen: AuthoritySet) {
    forall c :: c in seen <==>
      exists i :: 0 <= i < |steps| && i < |collapsed| && collapsed[i].capability == c && steps[i].capability != c
  }

  lemma SubstitutionsSeen(steps: seq<Step>, log: seq<Invocation>)
    ensures SeenSubstituting(steps, Collapsed(log), Substitutions(steps, log))
  {
  }

  lemma {:induction false} SingleTurns(steps: seq<Step>, turns: seq<seq<Invocation>>)
    requires TurnsOf(steps, turns) && forall i :: 0 <= i < |steps| ==> steps[i].onFailure.Continue?
    ensures OneTryEach(turns, |steps|)
    ensures forall i :: 0 <= i < |steps| ==> turns[i][0].capability == steps[i].capability
  {
    forall i | 0 <= i < |turns| ensures |turns[i]| == 1 && turns[i][0].capability == steps[i].capability {
      assert TurnOf(steps[i], turns[i]);
    }
  }

  lemma ReportTells(plan: TaskPlan, steps: seq<Step>, turns: seq<seq<Invocation>>, w: Work, o: TaskOutcome)
    requires |steps| == |plan.steps| && forall i :: 0 <= i < |steps| ==> steps[i].capability == plan.steps[i].capability
    requires Tallied(steps, turns, NO_WORK, w)
    requires o == Report(plan, w).(redelegationAttempts := o.redelegationAttempts, substituted := o.substituted,
                                   outputMarkerVerified := o.outputMarkerVerified)
    ensures ReportsTurns(plan, turns, o)
  {
    assert w.outcomes[0..] == w.outcomes;
  }

  lemma SubstitutedTells(plan: TaskPlan, turns: seq<seq<Invocation>>, w: Work)
    requires plan.steps != [] && Tallied(Substituted(plan.steps), turns, NO_WORK, w) && |turns| == |plan.steps|
    ensures Tells(plan.steps, turns, Renamed(w.outcomes, plan.steps))
  {
    assert w.outcomes[0..] == w.outcomes;
  }

  /** What the worker of a task did, in turns, and what it reports of them. */
  lemma WorkerTurns(script: Script, plan: TaskPlan, s: Session, o: TaskOutcome)
    returns (turns: seq<seq<Invocation>>, tries: seq<Invocation>)
    requires plan.steps != [] && WorkerRun(script, plan, s).Ok?
    requires o == WorkerRun(script, plan, s).value.1.(redelegationAttempts := o.redelegationAttempts,
                                                      substituted := o.substituted,
                                                      outputMarkerVerified := o.outputMarkerVerified)
    ensures Tried(script, plan, s, WorkerRun(script, plan, s).value.0, tries) && WorkerReports(plan, turns, tries, o)
  {
    hide Tried, TurnsOf, Tallied, Worked, Tells, ReportsTurns, Invoked;
    match plan.worker
    case Sequential =>
      turns := WorkedTurns(script, plan, s, NO_WORK, plan.steps);
      tries := Flat(turns);
      ReportTells(plan, plan.steps, turns, Worked(script, plan, s, NO_WORK, plan.steps).value.1, o);
    case AlwaysComplete =>
      turns, tries := [], [];
      NothingTried(script, plan, s);
    case Substituting =>
      var instead := Substituted(plan.steps);
      turns := WorkedTurns(script, plan, s, NO_WORK, instead);
      tries := Flat(turns);
      SingleTurns(instead, turns);
      SubstitutedTells(plan, turns, Worked(script, plan, s, NO_WORK, instead).value.1);
    case Redelegating =>
      var all, asked := Unconditional(plan.steps), Invoked(script, plan, s, DELEGATE).value.0;
      DelegateRefused(script, plan, s);
      turns := WorkedTurns(script, plan, asked, NO_WORK, all);
      tries := [Invocation(DELEGATE, DeniedExplicit)] + Flat(turns);
      SingleTurns(all, turns);
      TriedBoth(script, plan, s, asked, WorkerRun(script, plan, s).value.0, [Invocation(DELEGATE, DeniedExplicit)],
                Flat(turns));
      ReportTells(plan, all, turns, Worked(script, plan, asked, NO_WORK, all).value.1, o);
  }

  lemma DelegateRefused(script: Script, plan: TaskPlan, s: Session)
    ensures Invoked(script, plan, s, DELEGATE).Ok?
    ensures Tried(script, plan, s, Invoked(script, plan, s, DELEGATE).value.0, [Invocation(DELEGATE, DeniedExplicit)])
  {
    InvokedTried(script, plan, s, DELEGATE);
  }

  lemma TaskReads(script: Script, plan: TaskPlan, s: Session, records: bool, verification: Verification,
                  markers: set<string>, id: string)
    returns (after: Session, turns: seq<seq<Invocation>>, tries: seq<Invocation>)
    requires plan.steps != [] && FreshSession(s)
    requires TaskResult(script, plan, s, records, verification, markers, id).Ok?
    ensures RunReports(script, plan, s, after, records, verification, markers, id,
                       TaskResult(script, plan, s, records, verification, markers, id).value.0, turns, tries)
  {
    hide WorkerRun, WorkerReports, Substitutions, NumberedAs, ObservedAs, SeenSubstituting;
    var run := TaskResult(script, plan, s, records, verification, markers, id).value.0;
    after := WorkerRun(script, plan, s).value.0;
    turns, tries := WorkerTurns(script, plan, s, run.outcome);
    assert after.log == Probing(tries);
    SubstitutionsSeen(plan.steps, after.log);
    OutcomeNames(script, plan, s);
  }

  lemma OutcomeNames(script: Script, plan: TaskPlan, s: Session)
    requires plan.steps != [] && WorkerRun(script, plan, s).Ok?
    ensures WorkerRun(script, plan, s).value.1.taskId == plan.taskId &&
            WorkerRun(script, plan, s).value.1.identityId == plan.targetIdentity
  {
  }

  // ---- Collapsing ------------------------------------------------------------------------

  /** Invocations from one position up to another are of one capability. */
  ghost predicate OneRun(log: seq<Invocation>, low: int, high: int) {
    0 <= low <= high < |log| && forall j :: low <= j < high ==> log[j].capability == log[high].capability
  }

  /** Entry k ends a run of the log, and is of another capability than the entry before. */
  ghost predicate EndsRun(log: seq<Invocation>, ends: seq<nat>, collapsed: seq<Invocation>, k: nat)
    requires k < |ends| == |collapsed|
  {
    OneRun(log, if k == 0 then 0 else ends[k - 1] + 1, ends[k]) && collapsed[k] == log[ends[k]] &&
    (k > 0 ==> collapsed[k].capability != collapsed[k - 1].capability)
  }

  /** The entries end the runs of one capability that the log falls into. */
  ghost predicate EndsRuns(log: seq<Invocation>, ends: seq<nat>, collapsed: seq<Invocation>) {
    |ends| == |collapsed| && (log != [] ==> ends != [] && ends[|ends| - 1] == |log| - 1) &&
    (log == [] ==> ends == []) &&
    forall k :: 0 <= k < |ends| ==> EndsRun(log, ends, collapsed, k)
  }

  lemma EarlierRun(log: seq<Invocation>, ends: seq<nat>, collapsed: seq<Invocation>, ends': seq<nat>,
                   collapsed': seq<Invocation>, k: nat)
    requires log != [] && k < |ends| == |collapsed| && |ends'| == |collapsed'| && k < |ends'|
    requires EndsRun(log[..|log| - 1], ends, collapsed, k)
    requires ends'[..k + 1] == ends[..k + 1] && collapsed'[..k + 1] == collapsed[..k + 1]
    ensures EndsRun(log, ends', collapsed', k)
  {
    assert ends'[k] == ends'[..k + 1][k] == ends[k] && collapsed'[k] == collapsed'[..k + 1][k] == collapsed[k];
    if k > 0 {
      assert ends'[k - 1] == ends'[..k + 1][k - 1] == ends[k - 1];
      assert collapsed'[k - 1] == collapsed'[..k + 1][k - 1] == collapsed[k - 1];
    }
  }

  /** One entry for each longest run of invocations of one capability, with the outcome of its last. */
  lemma {:induction false} CollapsedRuns(log: seq<Invocation>) returns (ends: seq<nat>)
    ensures EndsRuns(log, ends, Collapsed(log))
  {
    hide EndsRun;
    if log == [] {
      ends := [];
    } else {
      var front, n := log[..|log| - 1], |log| - 1;
      var before := CollapsedRuns(front);
      var collapsed, all := Collapsed(front), Collapsed(log);
      if collapsed != [] && collapsed[|collapsed| - 1].capability == log[n].capability {
        ends := before[..|before| - 1] + [n];
        RunGoesOn(log, before, collapsed, ends, all);
      } else {
        ends := before + [n];
        RunBegins(log, before, collapsed, ends, all);
      }
      forall k | 0 <= k < |ends| - 1 ensures EndsRun(log, ends, all, k) {
        assert EndsRun(front, before, collapsed, k);
        EarlierRun(log, before, collapsed, ends, all, k);
      }
    }
  }

  lemma RunGoesOn(log: seq<Invocation>, before: seq<nat>, collapsed: seq<Invocation>, ends: seq<nat>,
                  all: seq<Invocation>)
    requires log != [] && before != [] && EndsRuns(log[..|log| - 1], before, collapsed)
    requires collapsed[|collapsed| - 1].capability == log[|log| - 1].capability
    requires ends == before[..|before| - 1] + [|log| - 1] && all == collapsed[|collapsed| - 1 := log[|log| - 1]]
    ensures EndsRun(log, ends, all, |ends| - 1)
  {
    var m := |before| - 1;
    assert EndsRun(log[..|log| - 1], before, collapsed, m);
    assert m > 0 ==> ends[m - 1] == before[m - 1];
  }

  lemma RunBegins(log: seq<Invocation>, before: seq<nat>, collapsed: seq<Invocation>, ends: seq<nat>,
                  all: seq<Invocation>)
    requires log != [] && EndsRuns(log[..|log| - 1], before, collapsed)
    requires collapsed != [] ==> collapsed[|collapsed| - 1].capability != log[|log| - 1].capability
    requires ends == before + [|log| - 1] && all == collapsed + [log[|log| - 1]]
    ensures EndsRun(log, ends, all, |ends| - 1)
  {
    hide EndsRun;
    assert |log| > 1 ==> before != [];
    LastRun(log, before, collapsed);
  }

  lemma LastRun(log: seq<Invocation>, before: seq<nat>, collapsed: seq<Invocation>)
    requires log != [] && |before| == |collapsed| && (before == [] <==> |log| == 1)
    requires before != [] ==> before[|before| - 1] == |log| - 2
    requires collapsed != [] ==> collapsed[|collapsed| - 1].capability != log[|log| - 1].capability
    ensures EndsRun(log, before + [|log| - 1], collapsed + [log[|log| - 1]], |before|)
  {
  }

  // ---- Findings --------------------------------------------------------------------------

  /** Which findings an outcome earns, and when; each at most once. */
  ghost predicate Earns(o: TaskOutcome, strict: bool, closed: bool, fs: seq<TaskFinding>) {
    (SilentNarrowing(o.taskId) in fs <==>
       (o.status.Complete? && o.stepsSucceeded < o.stepsTotal) ||
       (o.outputMarkerWritten && !o.outputMarkerVerified)) &&
    (CapabilitySubstituted(o.taskId) in fs <==> strict && o.substituted != {}) &&
    (RedelegationAttempted(o.taskId) in fs <==> closed && o.redelegationAttempts > 0) &&
    (forall f :: f in fs ==> f.taskId == o.taskId) && forall i, j :: 0 <= i < j < |fs| ==> fs[i] != fs[j]
  }

  lemma EarnsFindings(o: TaskOutcome, strict: bool, closed: bool)
    ensures Earns(o, strict, closed, FindingsFor(o, strict, closed))
  {
  }

  /** Plan k is the last one of this task, and binds so. */
  ghost predicate BindsLast(plans: seq<TaskPlan>, taskId: string, k: int, strict: bool, closed: bool) {
    0 <= k < |plans| && plans[k].taskId == taskId && strict == plans[k].mustNotSubstitute &&
    closed == plans[k].mustNotRedelegate && forall j :: k < j < |plans| ==> plans[j].taskId != taskId
  }

  /** The plan an outcome is held to: the last one of its task; without one it is held to both contracts. */
  ghost predicate HeldTo(plans: seq<TaskPlan>, taskId: string, strict: bool, closed: bool) {
    if forall k :: 0 <= k < |plans| ==> plans[k].taskId != taskId then strict && closed
    else exists k :: BindsLast(plans, taskId, k, strict, closed)
  }

  lemma {:induction false} LastPlanBinds(plans: seq<TaskPlan>, taskId: string) returns (k: int)
    ensures var plan := PlanOf(plans, taskId);
            if plan.None? then forall i :: 0 <= i < |plans| ==> plans[i].taskId != taskId
            else BindsLast(plans, taskId, k, plan.value.mustNotSubstitute, plan.value.mustNotRedelegate)
  {
    k := |plans| - 1;
    if plans != [] && plans[k].taskId != taskId {
      var front := plans[..k];
      forall i | 0 <= i < k ensures front[i] == plans[i] {}
      k := LastPlanBinds(front, taskId);
    }
  }

  lemma PlanOfHolds(plans: seq<TaskPlan>, taskId: string)
    ensures var plan := PlanOf(plans, taskId);
            HeldTo(plans, taskId, plan.None? || plan.value.mustNotSubstitute,
                   plan.None? || plan.value.mustNotRedelegate) &&
            (plan.None? <==> forall k :: 0 <= k < |plans| ==> plans[k].taskId != taskId)
  {
    hide PlanOf;
    var _ := LastPlanBinds(plans, taskId);
  }

  /** The findings of the outcomes one after the other, each held to its own task's last plan. */
  ghost predicate FindingsSay(outcomes: seq<TaskOutcome>, plans: seq<TaskPlan>, parts: seq<seq<TaskFinding>>) {
    |parts| == |outcomes| &&
    forall i :: 0 <= i < |outcomes| ==> EarnsUnder(plans, outcomes[i], parts[i])
  }

  ghost predicate EarnsUnder(plans: seq<TaskPlan>, o: TaskOutcome, fs: seq<TaskFinding>) {
    exists strict, closed :: HeldTo(plans, o.taskId, strict, closed) && Earns(o, strict, closed, fs)
  }

  function Joined(parts: seq<seq<TaskFinding>>): seq<TaskFinding> {
    if parts == [] then [] else Joined(parts[..|parts| - 1]) + parts[|parts| - 1]
  }

  lemma OutcomeEarns(plans: seq<TaskPlan>, o: TaskOutcome)
    ensures var plan := PlanOf(plans, o.taskId);
            EarnsUnder(plans, o, FindingsFor(o, plan.None? || plan.value.mustNotSubstitute,
                                             plan.None? || plan.value.mustNotRedelegate))
  {
    hide HeldTo, Earns, FindingsFor, PlanOf;
    var plan := PlanOf(plans, o.taskId);
    PlanOfHolds(plans, o.taskId);
    EarnsFindings(o, plan.None? || plan.value.mustNotSubstitute, plan.None? || plan.value.mustNotRedelegate);
  }

  lemma {:induction false} ContractReads(outcomes: seq<TaskOutcome>, plans: seq<TaskPlan>)
    returns (parts: seq<seq<TaskFinding>>)
    ensures FindingsSay(outcomes, plans, parts) && FindingsOf(outcomes, plans) == Joined(parts)
  {
    hide HeldTo, Earns, FindingsFor, PlanOf, EarnsUnder;
    if outcomes == [] {
      parts := [];
    } else {
      var front, o := outcomes[..|outcomes| - 1], outcomes[|outcomes| - 1];
      var before := ContractReads(front, plans);
      var plan := PlanOf(plans, o.taskId);
      var strict, closed :=
        plan.None? || plan.value.mustNotSubstitute, plan.None? || plan.value.mustNotRedelegate;
      OutcomeEarns(plans, o);
      parts := before + [FindingsFor(o, strict, closed)];
      assert parts[..|parts| - 1] == before;
      forall i | 0 <= i < |front| ensures outcomes[i] == front[i] && parts[i] == before[i] {}
    }
  }
}
