/** Whole runs, wherever they end, and what holds of every log they can leave. */
module Traces {
  import opened Wrappers
  import opened Outcomes
  import opened Graphs
  import opened Evidence
  import opened Logs
  import opened Adapters
  import opened Matrix
  import opened Delegation
  import opened Deferred
  import opened Plans
  import opened Reverts
  import opened Runs

  /**
   A step that raised this error: what the run held when it began, what it had written by then and after how many
   calls, between which calls it ran, and what policy changes it had asked for.
   */
  datatype Cut = Cut(step: PlanStep, start: nat, next: nat, records: seq<Record>, before: Holdings, from: nat, to: nat,
                     stamps: seq<nat>, orders: seq<Order>, error: RunError)

  /** A whole run; `began` and `left` count the calls made when its plan was begun and when reverting was. */
  datatype Trace = Trace(
    header: seq<Record>,
    headerStamps: seq<nat>,
    initial: Holdings,
    began: nat,
    done: seq<Segment>,
    cut: Option<Cut>,
    left: nat,
    reverts: seq<Event>,
    revertRaised: Option<nat>,
    finalized: Option<nat>)

  // ---- Shape ---------------------------------------------------------------------------

  /** What a run that passed preflight writes first. */
  const OPENING: seq<Record> := [ScenarioWritten, EnvironmentWritten, GraphWritten]

  /** Nothing, or the opening records followed by the credentials of the materialized identities. */
  ghost predicate HeaderRight(header: seq<Record>) {
    header == [] ||
    (OPENING <= header && forall i :: |OPENING| <= i < |header| ==> header[i].CredentialWritten?)
  }

  lemma HeaderIsQuiet(header: seq<Record>)
    requires HeaderRight(header)
    ensures forall i :: 0 <= i < |header| ==>
            QuietRecord(header[i]) && !header[i].ObservationWritten? && !header[i].EventWritten?
  {
    forall i | 0 <= i < |header|
      ensures QuietRecord(header[i]) && !header[i].ObservationWritten? && !header[i].EventWritten?
    {
      if i < |OPENING| { assert header[i] == OPENING[i]; }
    }
  }

  function NextOf(done: seq<Segment>): nat {
    if done == [] then 0 else done[|done| - 1].next
  }

  function HeldAfter(initial: Holdings, done: seq<Segment>): Holdings {
    if done == [] then initial else done[|done| - 1].after
  }

  /** How many calls had been made when these steps were done. */
  function CallsAfter(began: nat, done: seq<Segment>): nat {
    if done == [] then began else done[|done| - 1].to
  }

  /** The provider minted these credentials for the graph, its root's being none. */
  ghost predicate MintedFor(x: Setting, c: Compiled, base: nat, refs: set<IdentityId>,
                            credentials: map<IdentityId, Option<Credential>>)
    requires OneRoot(c.graph.nodes)
  {
    var h := Delegated(x.script, base, Root(c.graph).identityId, c.graph.edges);
    h.Ok? && h.value.credentials == credentials && credentials.Keys == refs
  }

  /** Before the first step: the credentials minted have been written, each once, and nothing is recorded. */
  ghost predicate OpenedRight(x: Setting, c: Compiled, refs: set<IdentityId>, header: seq<Record>, initial: Holdings) {
    initial.recorded == map[] && header == OPENING + CredentialRecords(c.graph.edges, initial.credentials) &&
    OneRoot(c.graph.nodes) && exists base :: MintedFor(x, c, base, refs, initial.credentials)
  }

  /** A step starts from the holdings the last one left, one call later: the deadline is checked in between. */
  predicate Follows(s: Segment, next: Segment) {
    next.before == s.after && next.from == s.to + 1
  }

  /** Completed steps in plan order, each starting from the number, the holdings and the calls the last one left. */
  ghost predicate DoneRight(x: Setting, c: Compiled, refs: set<IdentityId>, done: seq<Segment>)
    requires c.Valid()
    decreases |done|
  {
    |done| <= |c.plan| &&
    (done != [] ==>
       var front, last := done[..|done| - 1], done[|done| - 1];
       DoneRight(x, c, refs, front) && last.step == c.plan[|done| - 1] && last.start == NextOf(front) &&
       Right(x, c, refs, last) &&
       (front != [] ==> Follows(front[|front| - 1], last)))
  }

  /**
   A cut step has written nothing, except that renewals precede a matrix and the revert log precedes a mutation;
   and it has asked for no policy change, except the mutation it had logged.
   */
  ghost predicate CutRight(x: Setting, c: Compiled, refs: set<IdentityId>, cut: Cut) {
    |cut.stamps| == |cut.records| && (!cut.step.kind.Mutate? ==> cut.orders == []) &&
    match cut.step.kind
    case Probe =>
      if cut.step.phaseName in c.matrices && ResolvePlanPhase(cut.step.phaseName).Some?
      then RenewalsCut(x, c, refs, cut)
      else cut.records == [] && cut.next == cut.start
    case Mutate => MutationCut(x, c, refs, cut)
    case _ => cut.records == [] && cut.next == cut.start
  }

  /**
   What was written are the renewals made before the matrix: up to the one that failed, or all, and the matrix did.
   */
  ghost predicate RenewalsCut(x: Setting, c: Compiled, refs: set<IdentityId>, cut: Cut)
    requires cut.step.phaseName in c.matrices && ResolvePlanPhase(cut.step.phaseName).Some?
  {
    var name := cut.step.phaseName;
    var p := Prepared(x, c, refs, name, cut.from, cut.start, cut.before.credentials);
    Renewals(p.events, cut.start) && cut.records == Announcing(p.events) && cut.next == cut.start + |p.events| &&
    if p.failure.Some? then
      cut.error == p.failure.value
    else
      !Discards(cut.error) && MatrixFails(x, c, refs, name, p.calls, cut.next, cut.error)
  }

  /**
   Either the mutation could not be planned, and nothing was logged or asked for; or its revert log was written
   before its one call, and sending it raised.
   */
  ghost predicate MutationCut(x: Setting, c: Compiled, refs: set<IdentityId>, cut: Cut) {
    var name := cut.step.phaseName;
    if name !in c.mutations || BuildRevertPlan(c.graph, c.mutations[name].targetIdentity, c.mutations[name].kind).Err?
    then
      cut.records == [] && cut.next == cut.start && cut.to == cut.from && cut.orders == []
    else
      var plan := c.mutations[name];
      var revert := BuildRevertPlan(c.graph, plan.targetIdentity, plan.kind).value;
      cut.records == [EventWritten(Event(cut.start, RevertLogWritten(revert)))] && cut.next == cut.start + 1 &&
      cut.stamps == [cut.from] && Sent(x.script, cut.from, refs, plan) == Err(cut.error) &&
      cut.orders == Asked(cut.from, refs, plan) && cut.to == cut.from + |cut.orders|
  }

  /** The plans of the mutations that returned, in order. */
  function PlansOf(done: seq<Segment>): seq<RevertPlan> {
    if done == [] then
      []
    else
      var last := done[|done| - 1];
      PlansOf(done[..|done| - 1]) + (if last.detail.Mutated? then [last.detail.plan] else [])
  }

  /** What is to be reverted, last mutation first. */
  function RevertsDue(hooks: Hooks, plans: seq<RevertPlan>): seq<RevertPlan> {
    if plans == [] then
      []
    else
      var last := plans[|plans| - 1];
      (if Revertible(hooks, last) then [last] else []) + RevertsDue(hooks, plans[..|plans| - 1])
  }

  ghost predicate RevertsRight(due: seq<RevertPlan>, start: nat, reverts: seq<Event>) {
    |reverts| <= |due| &&
    forall i :: 0 <= i < |reverts| ==>
      reverts[i].sequence == start + i && reverts[i].body.MutationReverted? && reverts[i].body.plan == due[i]
  }

  /** Each revert recorded is a restoring call that returned, one call after the other, with the answer it returned. */
  ghost predicate RevertsMade(x: Setting, due: seq<RevertPlan>, left: nat, reverts: seq<Event>) {
    |reverts| <= |due| &&
    forall i :: 0 <= i < |reverts| ==>
      reverts[i].body.MutationReverted? &&
      Restored(x.script, left + i, x.hooks, due[i]) == Ok(reverts[i].body.confirmed)
  }

  function Reached(t: Trace): nat {
    if t.cut.Some? then t.cut.value.next else NextOf(t.done)
  }

  function DiscardCount(done: seq<Segment>): nat {
    if done == [] then 0 else DiscardCount(done[..|done| - 1]) + (if done[|done| - 1].detail.Discarded? then 1 else 0)
  }

  /**
   A run of the scenario: completed steps in plan order, then possibly one that raised, then reverts.
   It is finalized only if every step completed and every revert due was made.
   */
  ghost predicate ValidTrace(x: Setting, c: Compiled, refs: set<IdentityId>, t: Trace)
    requires c.Valid()
  {
    HeaderRight(t.header) && |t.headerStamps| == |t.header| &&
    (t.done != [] || t.cut.Some? || t.finalized.Some? ==> OpenedRight(x, c, refs, t.header, t.initial)) &&
    DoneRight(x, c, refs, t.done) &&
    (t.done != [] ==> t.done[0].before == t.initial && t.done[0].from == t.began + 1) &&
    (t.done != [] || t.cut.Some? || t.finalized.Some? ==> LeftAfter(c, t)) &&
    (t.cut.Some? ==>
     |t.done| < |c.plan| && CutAfter(t) && t.cut.value.step == c.plan[|t.done|] && CutRight(x, c, refs, t.cut.value)) &&
    RevertsRight(RevertsDue(x.hooks, PlansOf(t.done)), Reached(t), t.reverts) &&
    RevertsMade(x, RevertsDue(x.hooks, PlansOf(t.done)), t.left, t.reverts) &&
    RevertsEnd(x, RevertsDue(x.hooks, PlansOf(t.done)), t) &&
    (t.finalized.Some? ==>
     |t.done| == |c.plan| && t.cut.None? && t.revertRaised.None? && t.finalized.value == DiscardCount(t.done))
  }

  /** The step that was cut started where the completed ones had got to. */
  ghost predicate CutAfter(t: Trace)
    requires t.cut.Some?
  {
    t.cut.value.start == NextOf(t.done) && t.cut.value.before == HeldAfter(t.initial, t.done) &&
    t.cut.value.from == CallsAfter(t.began, t.done) + 1
  }

  /** The plan was left after its last step, after the step that raised, or after a deadline check that did. */
  ghost predicate LeftAfter(c: Compiled, t: Trace) {
    t.left == if t.cut.Some? then t.cut.value.to
              else CallsAfter(t.began, t.done) + (if |t.done| < |c.plan| then 1 else 0)
  }

  /** Reverting goes through to the end, however the run ended, unless a revert call itself raises. */
  ghost predicate RevertsEnd(x: Setting, due: seq<RevertPlan>, t: Trace) {
    if t.revertRaised.None? then |t.reverts| == |due|
    else
      |t.reverts| < |due| && t.revertRaised.value == t.left + |t.reverts| &&
      Restored(x.script, t.revertRaised.value, x.hooks, due[|t.reverts|]).Err?
  }

  function Flat(done: seq<Segment>): seq<Record> {
    if done == [] then [] else Flat(done[..|done| - 1]) + Written(done[|done| - 1])
  }

  lemma DoneSnoc(done: seq<Segment>, s: Segment)
    ensures Flat(done + [s]) == Flat(done) + Written(s) && NextOf(done + [s]) == s.next
    ensures FlatStamps(done + [s]) == FlatStamps(done) + s.stamps
    ensures FlatOrders(done + [s]) == FlatOrders(done) + OrdersOf(s)
    ensures PlansOf(done + [s]) == PlansOf(done) + OwnPlan(s) &&
            DiscardCount(done + [s]) == DiscardCount(done) + (if s.detail.Discarded? then 1 else 0)
  {
    assert (done + [s])[..|done|] == done;
  }

  lemma DoneRightSnoc(x: Setting, c: Compiled, refs: set<IdentityId>, done: seq<Segment>, s: Segment)
    requires c.Valid() && DoneRight(x, c, refs, done) && |done| < |c.plan|
    requires s.step == c.plan[|done|] && s.start == NextOf(done) && Right(x, c, refs, s)
    requires done != [] ==> Follows(done[|done| - 1], s)
    ensures DoneRight(x, c, refs, done + [s])
  {
    assert (done + [s])[..|done|] == done;
  }

  function CutRecords(t: Trace): seq<Record> {
    if t.cut.Some? then t.cut.value.records else []
  }

  /** What was written before any revert. */
  function Body(t: Trace): seq<Record> {
    t.header + Flat(t.done) + CutRecords(t)
  }

  function Closing(t: Trace): seq<Record> {
    if t.finalized.Some? then [Finalized(t.finalized.value)] else []
  }

  /** The evidence the run leaves. */
  function Log(t: Trace): seq<Record> {
    Body(t) + Announcing(t.reverts) + Closing(t)
  }

  // ---- What a trace is sound for, its provider and scenario aside --------------------------

  ghost predicate SoundDone(done: seq<Segment>)
    decreases |done|
  {
    done != [] ==>
      var front, last := done[..|done| - 1], done[|done| - 1];
      SoundDone(front) && last.start == NextOf(front) && Sound(last)
  }

  ghost predicate SoundCut(cut: Cut) {
    Numbered(cut.records, cut.start, cut.next) && (Quiet(cut.records) || (|cut.records| == 1 && IsLog(cut.records[0])))
  }

  ghost predicate SoundTrace(hooks: Hooks, t: Trace) {
    HeaderRight(t.header) && SoundDone(t.done) &&
    (t.cut.Some? ==> t.cut.value.start == NextOf(t.done) && SoundCut(t.cut.value)) &&
    RevertsRight(RevertsDue(hooks, PlansOf(t.done)), Reached(t), t.reverts) &&
    (t.finalized.Some? ==> t.cut.None?)
  }

  lemma {:induction false} DoneIsSound(x: Setting, c: Compiled, refs: set<IdentityId>, done: seq<Segment>)
    requires c.Valid() && DoneRight(x, c, refs, done)
    ensures SoundDone(done)
    decreases |done|
  {
    if done != [] {
      DoneIsSound(x, c, refs, done[..|done| - 1]);
      StepSound(x, c, refs, done[|done| - 1]);
    }
  }

  lemma CutIsSound(x: Setting, c: Compiled, refs: set<IdentityId>, cut: Cut)
    requires CutRight(x, c, refs, cut)
    ensures SoundCut(cut)
  {
    match cut.step.kind
    case Probe =>
      if cut.records == [] && cut.next == cut.start {
        NothingNumbered([], cut.start);
      } else {
        var renewals := Prepared(x, c, refs, cut.step.phaseName, cut.from, cut.start, cut.before.credentials).events;
        NumberedEvents(renewals, cut.start);
        QuietRenewals(renewals, cut.start);
      }
    case Mutate =>
      if cut.records == [] {
        NothingNumbered([], cut.start);
      } else {
        var event := cut.records[0].event;
        NumberedEvents([event], cut.start);
        assert cut.records == Announcing([event]);
      }
    case _ => NothingNumbered([], cut.start);
  }

  lemma ValidIsSound(x: Setting, c: Compiled, refs: set<IdentityId>, t: Trace)
    requires c.Valid() && ValidTrace(x, c, refs, t)
    ensures SoundTrace(x.hooks, t)
  {
    DoneIsSound(x, c, refs, t.done);
    if t.cut.Some? { CutIsSound(x, c, refs, t.cut.value); }
  }

  // ---- Numbering -----------------------------------------------------------------------

  lemma {:induction false} DoneNumbered(done: seq<Segment>)
    requires SoundDone(done)
    ensures Numbered(Flat(done), 0, NextOf(done))
    decreases |done|
  {
    if done == [] {
      NothingNumbered([], 0);
    } else {
      var front, last := done[..|done| - 1], done[|done| - 1];
      DoneNumbered(front);
      NumberedJoin(Flat(front), Written(last), 0, NextOf(front), last.next);
    }
  }

  lemma HeaderNumbered(header: seq<Record>)
    requires HeaderRight(header)
    ensures Numbered(header, 0, 0)
  {
    HeaderIsQuiet(header);
    NothingNumbered(header, 0);
  }

  lemma ClosingNumbered(t: Trace, at: nat)
    ensures Numbered(Closing(t), at, at)
  {
    NothingNumbered(Closing(t), at);
  }

  lemma CutNumbered(t: Trace)
    requires t.cut.Some? ==> t.cut.value.start == NextOf(t.done) && SoundCut(t.cut.value)
    ensures Numbered(CutRecords(t), NextOf(t.done), Reached(t))
  {
    NothingNumbered([], NextOf(t.done));
  }

  lemma RevertsNumbered(due: seq<RevertPlan>, start: nat, reverts: seq<Event>)
    requires RevertsRight(due, start, reverts)
    ensures Numbered(Announcing(reverts), start, start + |reverts|)
  {
    NumberedEvents(reverts, start);
  }

  lemma SoundNumbered(hooks: Hooks, t: Trace)
    requires SoundTrace(hooks, t)
    ensures Numbered(Log(t), 0, Reached(t) + |t.reverts|)
  {
    hide Numbered, SoundDone, SoundCut, RevertsRight, HeaderRight, Flat, Closing, CutRecords, RevertsDue, PlansOf,
         DiscardCount, NextOf, Reached;
    HeaderNumbered(t.header);
    DoneNumbered(t.done);
    CutNumbered(t);
    RevertsNumbered(RevertsDue(hooks, PlansOf(t.done)), Reached(t), t.reverts);
    ClosingNumbered(t, Reached(t) + |t.reverts|);
    JoinNumbered(t.header, Flat(t.done), CutRecords(t), Announcing(t.reverts), Closing(t), NextOf(t.done), Reached(t),
                 Reached(t) + |t.reverts|);
  }

  /**
   Over the whole log of every run, whatever its phases and wherever it ends, observation numbers
   strictly increase and event numbers never decrease.
   */
  lemma RunNumbered(x: Setting, c: Compiled, refs: set<IdentityId>, t: Trace)
    requires c.Valid() && ValidTrace(x, c, refs, t)
    ensures Numbered(Log(t), 0, Reached(t) + |t.reverts|)
  {
    ValidIsSound(x, c, refs, t);
    SoundNumbered(x.hooks, t);
  }

  // ---- Write-ahead and reverts -----------------------------------------------------------

  lemma {:induction false} DonePaired(done: seq<Segment>)
    requires SoundDone(done)
    ensures Paired(Flat(done)) && AppliedPlans(Flat(done)) == PlansOf(done)
    decreases |done|
  {
    if done != [] {
      var front, last := done[..|done| - 1], done[|done| - 1];
      DonePaired(front);
      PairedJoin(Flat(front), Written(last));
      AppliedJoin(Flat(front), Written(last));
    }
  }

  /** Header and completed steps: every mutation announced, none reverted yet. */
  lemma PrefixPaired(hooks: Hooks, t: Trace)
    requires SoundTrace(hooks, t)
    ensures Paired(t.header + Flat(t.done)) && AppliedPlans(t.header + Flat(t.done)) == PlansOf(t.done)
  {
    DonePaired(t.done);
    HeaderIsQuiet(t.header);
    QuietIsPaired(t.header);
    PairedJoin(t.header, Flat(t.done));
    NothingApplied(t.header);
    DoneStartsQuietly(t.done);
    AppliedJoin(t.header, Flat(t.done));
  }

  lemma DoneStartsQuietly(done: seq<Segment>)
    requires SoundDone(done)
    ensures Flat(done) != [] ==> !IsApplied(Flat(done)[0])
  {
    DonePaired(done);
    if Flat(done) != [] { assert AppliedAfterLog(Flat(done), 0); }
  }

  /** What a record of the whole log can be, by where it stands. */
  ghost predicate InPlace(t: Trace, i: nat)
    requires i < |Log(t)|
  {
    AppliedAfterLog(Log(t), i) &&
    (LooseLog(Log(t), i) ==> t.cut.Some? && i == |Body(t)| - 1) &&
    (IsApplied(Log(t)[i]) ==> i < |Body(t)|) &&
    (IsReverted(Log(t)[i]) <==> |Body(t)| <= i < |Body(t)| + |t.reverts|) &&
    (Log(t)[i].Finalized? <==> t.finalized.Some? && i == |Log(t)| - 1)
  }

  lemma PrefixInPlace(hooks: Hooks, t: Trace, i: nat)
    requires SoundTrace(hooks, t) && i < |t.header + Flat(t.done)|
    ensures InPlace(t, i)
  {
    PrefixPaired(hooks, t);
    PairedInPlace(t, t.header + Flat(t.done), Rest(t), i);
  }

  /** A record of a paired prefix stands where it should, whatever follows the prefix. */
  lemma PairedInPlace(t: Trace, prefix: seq<Record>, rest: seq<Record>, i: nat)
    requires prefix == t.header + Flat(t.done) && rest == Rest(t) && Paired(prefix) && i < |prefix|
    ensures InPlace(t, i)
  {
    hide Flat, Rest;
    LogSplits(t);
    var log := prefix + rest;
    assert AppliedAfterLog(prefix, i) && !LooseLog(prefix, i) && !IsReverted(prefix[i]) && !prefix[i].Finalized?;
    assert log[i] == prefix[i] && (i > 0 ==> log[i - 1] == prefix[i - 1]) &&
      (i + 1 < |prefix| ==> log[i + 1] == prefix[i + 1]);
  }

  lemma CutInPlace(hooks: Hooks, t: Trace, i: nat)
    requires SoundTrace(hooks, t) && |t.header + Flat(t.done)| <= i < |Body(t)|
    ensures InPlace(t, i)
  {
    CutRecordInPlace(t, i);
  }

  lemma CutRecordInPlace(t: Trace, i: nat)
    requires t.cut.Some? && SoundCut(t.cut.value) && |t.header + Flat(t.done)| <= i < |Body(t)|
    ensures InPlace(t, i)
  {
    hide Flat;
    var k, records := i - |t.header + Flat(t.done)|, t.cut.value.records;
    assert Log(t)[i] == records[k];
    assert Quiet(records) ==> QuietRecord(records[k]);
    assert QuietRecord(records[k]) || (IsLog(records[k]) && |records| == 1);
    hide SoundCut, Quiet;
  }

  lemma TailInPlace(hooks: Hooks, t: Trace, i: nat)
    requires SoundTrace(hooks, t) && |Body(t)| <= i < |Log(t)|
    ensures InPlace(t, i)
  {
    TailRecordInPlace(t, i);
  }

  lemma TailRecordInPlace(t: Trace, i: nat)
    requires |Body(t)| <= i < |Log(t)| && forall k :: 0 <= k < |t.reverts| ==> t.reverts[k].body.MutationReverted?
    ensures InPlace(t, i)
  {
    hide Body, Flat;
    var k := i - |Body(t)|;
    if k < |t.reverts| {
      assert Log(t)[i] == EventWritten(t.reverts[k]);
    } else {
      assert Log(t)[i] == Closing(t)[k - |t.reverts|];
    }
  }

  /**
   Where mutations, reverts and the end stand in the log of any run. Each applied mutation directly follows
   its log entry; a log entry without its mutation is the last thing written before the reverts of a run that
   was cut short; every revert comes after every mutation; and only a clean run ends with the final record.
   */
  lemma RunWritesAhead(x: Setting, c: Compiled, refs: set<IdentityId>, t: Trace, i: nat)
    requires c.Valid() && ValidTrace(x, c, refs, t) && i < |Log(t)|
    ensures InPlace(t, i)
  {
    ValidIsSound(x, c, refs, t);
    hide SoundTrace, InPlace, ValidTrace;
    if i < |t.header + Flat(t.done)| {
      PrefixInPlace(x.hooks, t, i);
    } else if i < |Body(t)| {
      CutInPlace(x.hooks, t, i);
    } else {
      TailInPlace(x.hooks, t, i);
    }
  }

  /** At most one log entry is left without its mutation, and then the run was not finalized. */
  lemma AtMostOneLoose(x: Setting, c: Compiled, refs: set<IdentityId>, t: Trace, i: nat, j: nat)
    requires c.Valid() && ValidTrace(x, c, refs, t) && i < |Log(t)| && j < |Log(t)|
    requires LooseLog(Log(t), i) && LooseLog(Log(t), j)
    ensures i == j && t.finalized.None?
  {
    RunWritesAhead(x, c, refs, t, i);
    RunWritesAhead(x, c, refs, t, j);
  }

  // ---- Reverts ---------------------------------------------------------------------------

  /** Last in, first out: what is to be reverted after more mutations comes before what was due already. */
  lemma {:induction false} RevertsDueReverse(hooks: Hooks, a: seq<RevertPlan>, b: seq<RevertPlan>)
    ensures RevertsDue(hooks, a + b) == RevertsDue(hooks, b) + RevertsDue(hooks, a)
  {
    if b == [] {
      assert a + b == a;
    } else {
      assert (a + b)[..|a + b| - 1] == a + b[..|b| - 1];
      RevertsDueReverse(hooks, a, b[..|b| - 1]);
    }
  }

  /** With a trust-policy hook, exactly the actionable plans are due. */
  lemma {:induction false} RevertsDueAreActionable(hooks: Hooks, plans: seq<RevertPlan>, p: RevertPlan)
    requires hooks.trustPolicy
    ensures multiset(RevertsDue(hooks, plans))[p] == if p.actionable then multiset(plans)[p] else 0
  {
    if plans != [] {
      RevertsDueAreActionable(hooks, plans[..|plans| - 1], p);
      assert plans == plans[..|plans| - 1] + [plans[|plans| - 1]];
    }
  }

  lemma {:induction false} RevertedAnnounced(due: seq<RevertPlan>, start: nat, reverts: seq<Event>)
    requires RevertsRight(due, start, reverts)
    ensures RevertedPlans(Announcing(reverts)) == due[..|reverts|]
  {
    if reverts != [] {
      var front := reverts[..|reverts| - 1];
      RevertedAnnounced(due, start, front);
      assert Announcing(reverts)[..|reverts| - 1] == Announcing(front);
      assert due[..|reverts|] == due[..|front|] + [due[|front|]];
    }
  }

  /** What follows the completed steps. */
  function Rest(t: Trace): seq<Record> {
    CutRecords(t) + (Announcing(t.reverts) + Closing(t))
  }

  lemma RestNotApplied(due: seq<RevertPlan>, t: Trace)
    requires (t.cut.Some? ==> SoundCut(t.cut.value)) && RevertsRight(due, Reached(t), t.reverts)
    ensures forall i :: 0 <= i < |Rest(t)| ==> !IsApplied(Rest(t)[i])
  {
    forall i | 0 <= i < |Rest(t)| ensures !IsApplied(Rest(t)[i]) {
      var cut, k := CutRecords(t), i - |CutRecords(t)|;
      if k < 0 {
        assert Quiet(cut) ==> QuietRecord(cut[i]);
      } else if k < |t.reverts| {
        assert Rest(t)[i] == EventWritten(t.reverts[k]);
      }
    }
  }

  lemma AllApplied(hooks: Hooks, t: Trace)
    requires SoundTrace(hooks, t)
    ensures AppliedPlans(Log(t)) == PlansOf(t.done)
  {
    PrefixPaired(hooks, t);
    RestNotApplied(RevertsDue(hooks, PlansOf(t.done)), t);
    var prefix, rest := t.header + Flat(t.done), Rest(t);
    hide SoundTrace, Rest, Flat, Paired;
    NothingApplied(rest);
    AppliedJoin(prefix, rest);
    assert Log(t) == prefix + rest by { LogSplits(t); }
  }

  lemma LogSplits(t: Trace)
    ensures Log(t) == t.header + Flat(t.done) + Rest(t)
    ensures Log(t) == Body(t) + (Announcing(t.reverts) + Closing(t))
  {
  }

  lemma BodyNotReverted(hooks: Hooks, t: Trace)
    requires SoundTrace(hooks, t)
    ensures forall i :: 0 <= i < |Body(t)| ==> !IsReverted(Body(t)[i])
  {
    forall i | 0 <= i < |Body(t)| ensures !IsReverted(Body(t)[i]) {
      assert Body(t)[i] == Log(t)[i];
      if i < |t.header + Flat(t.done)| { PrefixInPlace(hooks, t, i); } else { CutInPlace(hooks, t, i); }
    }
  }

  lemma AllReverted(hooks: Hooks, t: Trace)
    requires SoundTrace(hooks, t)
    ensures RevertedPlans(Log(t)) == RevertsDue(hooks, PlansOf(t.done))[..|t.reverts|]
  {
    var due, tail := RevertsDue(hooks, PlansOf(t.done)), Announcing(t.reverts) + Closing(t);
    BodyNotReverted(hooks, t);
    RevertedAnnounced(due, Reached(t), t.reverts);
    hide SoundTrace, RevertsRight, Body, RevertsDue;
    NothingReverted(Body(t));
    NothingReverted(Closing(t));
    RevertedJoin(Announcing(t.reverts), Closing(t));
    RevertedJoin(Body(t), tail);
    LogSplits(t);
  }

  /**
   In the log of any run, however it ended, the recorded reverts are the plans due for the mutations recorded as
   applied, last mutation first: all of them unless a revert call itself raised, and then those before it.
   */
  lemma RunReverts(x: Setting, c: Compiled, refs: set<IdentityId>, t: Trace)
    requires c.Valid() && ValidTrace(x, c, refs, t)
    ensures var due := RevertsDue(x.hooks, AppliedPlans(Log(t)));
            |t.reverts| <= |due| && RevertedPlans(Log(t)) == due[..|t.reverts|] &&
            (t.revertRaised.None? ==> RevertedPlans(Log(t)) == due) && (t.finalized.Some? ==> t.revertRaised.None?) &&
            RevertsMade(x, due, t.left, t.reverts)
  {
    ValidIsSound(x, c, refs, t);
    AllApplied(x.hooks, t);
    AllReverted(x.hooks, t);
  }

  // ---- Logged before it is sent --------------------------------------------------------------

  /** For each record of the log, how many calls had been made when it was written. */
  function FlatStamps(done: seq<Segment>): seq<nat> {
    if done == [] then [] else FlatStamps(done[..|done| - 1]) + done[|done| - 1].stamps
  }

  function CutStamps(t: Trace): seq<nat> {
    if t.cut.Some? then t.cut.value.stamps else []
  }

  /** n consecutive counts. */
  function Since(calls: nat, n: nat): (stamps: seq<nat>)
    ensures |stamps| == n
  {
    seq(n, i requires 0 <= i < n => calls + i)
  }

  /** A revert is recorded once its call has returned. */
  function RevertStamps(t: Trace): seq<nat> {
    Since(t.left + 1, |t.reverts|)
  }

  function ClosingStamps(t: Trace): seq<nat> {
    if t.finalized.Some? then [t.left + |t.reverts|] else []
  }

  function Stamps(t: Trace): seq<nat> {
    t.headerStamps + FlatStamps(t.done) + CutStamps(t) + RevertStamps(t) + ClosingStamps(t)
  }

  function FlatOrders(done: seq<Segment>): seq<Order> {
    if done == [] then [] else FlatOrders(done[..|done| - 1]) + OrdersOf(done[|done| - 1])
  }

  /** Every mutation the plan sent, the one that raised included. */
  function MutationOrders(t: Trace): seq<Order> {
    FlatOrders(t.done) + (if t.cut.Some? then t.cut.value.orders else [])
  }

  /** The first n restoring calls. */
  function RevertOrders(hooks: Hooks, due: seq<RevertPlan>, left: nat, n: nat): seq<Order>
    requires n <= |due|
  {
    seq(n, i requires 0 <= i < n => Undoing(left + i, hooks, due[i]))
  }

  /** Every policy change the run asked the provider for, in order. */
  function Orders(hooks: Hooks, t: Trace): seq<Order>
    requires |t.reverts| + (if t.revertRaised.Some? then 1 else 0) <= |RevertsDue(hooks, PlansOf(t.done))|
  {
    MutationOrders(t) +
    RevertOrders(hooks, RevertsDue(hooks, PlansOf(t.done)), t.left,
                 |t.reverts| + (if t.revertRaised.Some? then 1 else 0))
  }

  /** A call that changes a policy, and whom it is about; of a mutation, its kind. */
  datatype Entry = Entry(at: nat, target: IdentityId, kind: Option<MutationKind>)

  function Heading(o: Order): Entry {
    Entry(o.at, o.target, if o.Apply? then Some(o.kind) else None)
  }

  function Headings(orders: seq<Order>): (entries: seq<Entry>)
    ensures |entries| == |orders|
  {
    seq(|orders|, i requires 0 <= i < |orders| => Heading(orders[i]))
  }

  lemma HeadingsBoth(a: seq<Order>, b: seq<Order>)
    ensures Headings(a + b) == Headings(a) + Headings(b)
  {
  }

  /** The revert-log entries of a log, in order, each with the number of the call made next after it was written. */
  function Entries(records: seq<Record>, stamps: seq<nat>): seq<Entry>
    requires |records| == |stamps|
  {
    if records == [] then
      []
    else
      var n := |records| - 1;
      Entries(records[..n], stamps[..n]) +
      (if IsLog(records[n])
       then [Entry(stamps[n], records[n].event.body.plan.targetIdentity,
                   Some(records[n].event.body.plan.mutationKind))]
       else [])
  }

  lemma {:induction false} EntriesJoin(a: seq<Record>, sa: seq<nat>, b: seq<Record>, sb: seq<nat>)
    requires |a| == |sa| && |b| == |sb|
    ensures Entries(a + b, sa + sb) == Entries(a, sa) + Entries(b, sb)
  {
    if b == [] {
      assert a + b == a && sa + sb == sa;
    } else {
      var n := |b| - 1;
      assert (a + b)[..|a + b| - 1] == a + b[..n] && (sa + sb)[..|a + b| - 1] == sa + sb[..n];
      EntriesJoin(a, sa, b[..n], sb[..n]);
    }
  }

  lemma {:induction false} NoEntries(records: seq<Record>, stamps: seq<nat>)
    requires |records| == |stamps| && forall i :: 0 <= i < |records| ==> !IsLog(records[i])
    ensures Entries(records, stamps) == []
  {
    if records != [] { NoEntries(records[..|records| - 1], stamps[..|records| - 1]); }
  }

  lemma OneEntry(r: Record, at: nat)
    requires IsLog(r)
    ensures Entries([r], [at]) ==
            [Entry(at, r.event.body.plan.targetIdentity, Some(r.event.body.plan.mutationKind))]
  {
    assert [r][..0] == [] && [at][..0] == [];
  }

  lemma MutationEntered(x: Setting, c: Compiled, refs: set<IdentityId>, s: Segment)
    requires c.Valid() && s.detail.Mutated? && MutationRight(x, c, refs, s) && Timed(x, c, s)
    ensures Entries(Written(s), s.stamps) == Headings(OrdersOf(s))
  {
    var log, applied := Written(s)[0], Written(s)[1];
    OneEntry(log, s.from);
    NoEntries([applied], [s.from + 1]);
    EntriesJoin([log], [s.from], [applied], [s.from + 1]);
    assert Written(s) == [log] + [applied] && s.stamps == [s.from] + [s.from + 1];
  }

  /**
   A step enters in the revert log exactly the mutation it asks for, under the number of the call that asks for it.
   */
  lemma StepEntered(x: Setting, c: Compiled, refs: set<IdentityId>, s: Segment)
    requires c.Valid() && Right(x, c, refs, s)
    ensures |s.stamps| == |Written(s)| && Entries(Written(s), s.stamps) == Headings(OrdersOf(s))
  {
    hide MatrixRight, DiscardRight, MutationRight, PollRight, DeferralRight, TaskRight, Timed, Written;
    TimedStamps(x, c, s);
    if s.detail.Mutated? {
      MutationEntered(x, c, refs, s);
    } else {
      OtherStepQuiet(x, c, refs, s);
      assert forall i :: 0 <= i < |Written(s)| ==> QuietRecord(Written(s)[i]);
      NoEntries(Written(s), s.stamps);
    }
  }

  lemma {:induction false} DoneEntered(x: Setting, c: Compiled, refs: set<IdentityId>, done: seq<Segment>)
    requires c.Valid() && DoneRight(x, c, refs, done)
    ensures |FlatStamps(done)| == |Flat(done)| && Entries(Flat(done), FlatStamps(done)) == Headings(FlatOrders(done))
    decreases |done|
  {
    hide Right, Written, OrdersOf;
    if done != [] {
      var front, last := done[..|done| - 1], done[|done| - 1];
      DoneEntered(x, c, refs, front);
      StepEntered(x, c, refs, last);
      EntriesJoin(Flat(front), FlatStamps(front), Written(last), last.stamps);
      HeadingsBoth(FlatOrders(front), OrdersOf(last));
    }
  }

  /**
   A cut step's entries are the mutation it asked for; only one whose target was never materialized asks for nothing.
   */
  lemma CutEntered(x: Setting, c: Compiled, refs: set<IdentityId>, cut: Cut)
    requires CutRight(x, c, refs, cut)
    ensures |cut.stamps| == |cut.records|
    ensures var entries := Entries(cut.records, cut.stamps);
            Headings(cut.orders) <= entries && |entries| <= 1 &&
            (|entries| != |cut.orders| ==> cut.error.NotMaterialized?)
  {
    hide Prepared, MatrixFails;
    if cut.step.kind.Mutate? {
      if cut.records != [] { OneEntry(cut.records[0], cut.from); }
    } else {
      assert forall i :: 0 <= i < |cut.records| ==> !IsLog(cut.records[i]);
      NoEntries(cut.records, cut.stamps);
    }
  }

  lemma TailEntered(t: Trace, tail: seq<Record>, stamps: seq<nat>)
    requires tail == Announcing(t.reverts) + Closing(t) && stamps == RevertStamps(t) + ClosingStamps(t)
    requires forall i :: 0 <= i < |t.reverts| ==> t.reverts[i].body.MutationReverted?
    ensures |stamps| == |tail| && Entries(tail, stamps) == []
  {
    NoEntries(tail, stamps);
  }

  lemma HeaderEntered(t: Trace)
    requires HeaderRight(t.header) && |t.headerStamps| == |t.header|
    ensures Entries(t.header, t.headerStamps) == []
  {
    HeaderIsQuiet(t.header);
    NoEntries(t.header, t.headerStamps);
  }

  lemma JoinEntries(a: seq<Record>, sa: seq<nat>, b: seq<Record>, sb: seq<nat>, d: seq<Record>, sd: seq<nat>,
                    e: seq<Record>,
                    se: seq<nat>)
    requires |a| == |sa| && |b| == |sb| && |d| == |sd| && |e| == |se|
    ensures Entries(a + b + d + e, sa + sb + sd + se) ==
            Entries(a, sa) + Entries(b, sb) + Entries(d, sd) + Entries(e, se)
  {
    EntriesJoin(a, sa, b, sb);
    EntriesJoin(a + b, sa + sb, d, sd);
    EntriesJoin(a + b + d, sa + sb + sd, e, se);
  }

  lemma EntriesOfLog(t: Trace)
    requires |t.headerStamps| == |t.header| && |FlatStamps(t.done)| == |Flat(t.done)| &&
             |CutStamps(t)| == |CutRecords(t)|
    ensures |Stamps(t)| == |Log(t)|
    ensures var tail, tailStamps := Announcing(t.reverts) + Closing(t), RevertStamps(t) + ClosingStamps(t);
            |tailStamps| == |tail| &&
            Entries(Log(t), Stamps(t)) ==
            Entries(t.header, t.headerStamps) + Entries(Flat(t.done), FlatStamps(t.done)) +
            Entries(CutRecords(t), CutStamps(t)) + Entries(tail, tailStamps)
  {
    hide Flat, FlatStamps, Entries;
    var tail, tailStamps := Announcing(t.reverts) + Closing(t), RevertStamps(t) + ClosingStamps(t);
    JoinEntries(t.header, t.headerStamps, Flat(t.done), FlatStamps(t.done), CutRecords(t), CutStamps(t), tail,
                tailStamps);
    assert Log(t) == t.header + Flat(t.done) + CutRecords(t) + tail;
    assert Stamps(t) == t.headerStamps + FlatStamps(t.done) + CutStamps(t) + tailStamps;
  }

  lemma CutPartEntered(x: Setting, c: Compiled, refs: set<IdentityId>, t: Trace)
    requires t.cut.Some? ==> CutRight(x, c, refs, t.cut.value)
    ensures |CutStamps(t)| == |CutRecords(t)|
    ensures var entries, orders := Entries(CutRecords(t), CutStamps(t)), if t.cut.Some? then t.cut.value.orders else [];
            Headings(orders) <= entries && |entries| <= |orders| + 1 &&
            (|entries| != |orders| ==> t.cut.Some? && t.cut.value.error.NotMaterialized?)
  {
    hide CutRight;
    if t.cut.Some? { CutEntered(x, c, refs, t.cut.value); }
  }

  /**
   Write-ahead, over every run and wherever it ends: the mutations its plan asked the provider for, those that
   raised included, are the entries of its revert log, one for one and in order, and each entry was written when
   exactly the calls before that request had been made. One entry more stands at the end only if the run stopped
   at a mutation whose target had never been materialized, and that was never sent.
   */
  lemma LoggedBeforeSent(x: Setting, c: Compiled, refs: set<IdentityId>, t: Trace)
    requires c.Valid() && ValidTrace(x, c, refs, t)
    ensures |Stamps(t)| == |Log(t)|
    ensures var entries := Entries(Log(t), Stamps(t));
            Headings(MutationOrders(t)) <= entries && |entries| <= |MutationOrders(t)| + 1 &&
            (|entries| != |MutationOrders(t)| ==> t.cut.Some? && t.cut.value.error.NotMaterialized?)
  {
    hide Right, CutRight, OpenedRight, Flat, FlatStamps, FlatOrders, Entries, Stamps, Log, RevertsMade, RevertsEnd,
      LeftAfter,
         CutAfter;
    HeadingsBoth(FlatOrders(t.done), if t.cut.Some? then t.cut.value.orders else []);
    HeaderEntered(t);
    DoneEntered(x, c, refs, t.done);
    CutPartEntered(x, c, refs, t);
    TailEntered(t, Announcing(t.reverts) + Closing(t), RevertStamps(t) + ClosingStamps(t));
    EntriesOfLog(t);
  }

  // ---- Pinned credentials -----------------------------------------------------------------

  /** The step recorded which credential was current for this identity, under this name. */
  ghost predicate Records(c: Compiled, refs: set<IdentityId>, s: Segment, name: string, id: IdentityId) {
    s.step.kind.Probe? && s.step.phaseName == name && name in c.matrices && id in c.matrices[name].identities &&
    id in refs
  }

  /** What a step leaves in the store under a key: the credential then current, or what was there before. */
  lemma StepRecords(x: Setting, c: Compiled, refs: set<IdentityId>, s: Segment, name: string, id: IdentityId)
    requires c.Valid() && Right(x, c, refs, s)
    ensures Records(c, refs, s, name, id) ==>
              (name, id) in s.after.recorded && s.after.recorded[(name, id)] == Lookup(s.after.credentials, id)
    ensures !Records(c, refs, s, name, id) ==>
              ((name, id) in s.after.recorded <==> (name, id) in s.before.recorded) &&
              ((name, id) in s.before.recorded ==> s.after.recorded[(name, id)] == s.before.recorded[(name, id)])
  {
    hide MatrixOutcome, DeferredOutcome, RenewAll, MutationRight, PollRight, TaskRight;
  }

  /** Step j was the last of the first n to record the credential current for this identity under this name. */
  ghost predicate LastRecorder(c: Compiled, refs: set<IdentityId>, done: seq<Segment>, n: nat, name: string,
                               id: IdentityId, j: nat)
    requires n <= |done|
  {
    j < n && Records(c, refs, done[j], name, id) && forall k :: j < k < n ==> !Records(c, refs, done[k], name, id)
  }

  lemma DoneStep(x: Setting, c: Compiled, refs: set<IdentityId>, done: seq<Segment>, i: nat)
    requires c.Valid() && DoneRight(x, c, refs, done) && i < |done|
    ensures i < |c.plan| && done[i].step == c.plan[i] && Right(x, c, refs, done[i])
    ensures i > 0 ==> Follows(done[i - 1], done[i])
    decreases |done|
  {
    hide Right;
    if i < |done| - 1 { DoneStep(x, c, refs, done[..|done| - 1], i); }
  }

  /** What is recorded under a key as step n begins was current when the last step to record it had run. */
  lemma {:induction false} RecordedSince(x: Setting, c: Compiled, refs: set<IdentityId>, done: seq<Segment>, n: nat,
                                         name: string,
                                         id: IdentityId)
    returns (j: nat)
    requires c.Valid() && DoneRight(x, c, refs, done) && n < |done| && done[0].before.recorded == map[]
    requires (name, id) in done[n].before.recorded
    ensures j < n && LastRecorder(c, refs, done, n, name, id, j)
    ensures done[n].before.recorded[(name, id)] == Lookup(done[j].after.credentials, id)
    decreases n
  {
    hide Right, Records, DoneRight;
    DoneStep(x, c, refs, done, n);
    assert n > 0;
    DoneStep(x, c, refs, done, n - 1);
    StepRecords(x, c, refs, done[n - 1], name, id);
    if Records(c, refs, done[n - 1], name, id) {
      j := n - 1;
    } else {
      j := RecordedSince(x, c, refs, done, n - 1, name, id);
    }
  }

  lemma DeferralPinned(x: Setting, c: Compiled, refs: set<IdentityId>, s: Segment)
    requires c.Valid() && Right(x, c, refs, s) && s.detail.Deferral?
    ensures s.step.phaseName in c.deferreds
    ensures var plan := c.deferreds[s.step.phaseName];
            var key := (RemovePrefix(plan.credentialSource, PHASE_PREFIX), plan.targetIdentity);
            key in s.before.recorded && s.before.recorded[key].Some? &&
            s.detail.before.pinned == Ok(s.before.recorded[key].value)
  {
    hide DeferredOutcome, MatrixOutcome;
  }

  /**
   In every run, the credential a deferred execution is pinned to is the one that was current for its target
   when the phase it names as its source last ran a matrix over that target, renewals included, whatever has
   been minted since.
   */
  lemma PinnedAsOfSource(x: Setting, c: Compiled, refs: set<IdentityId>, t: Trace, i: nat) returns (j: nat)
    requires c.Valid() && ValidTrace(x, c, refs, t) && i < |t.done| && t.done[i].detail.Deferral?
    ensures t.done[i].step.phaseName in c.deferreds
    ensures var plan := c.deferreds[t.done[i].step.phaseName];
            j < i && LastRecorder(c, refs, t.done, i, RemovePrefix(plan.credentialSource, PHASE_PREFIX),
                                  plan.targetIdentity, j) &&
            t.done[i].detail.before.pinned.Ok? &&
            Lookup(t.done[j].after.credentials, plan.targetIdentity) == Some(t.done[i].detail.before.pinned.value)
  {
    hide Right, LastRecorder, DoneRight, CutRight, RevertsRight;
    DoneStep(x, c, refs, t.done, i);
    DeferralPinned(x, c, refs, t.done[i]);
    var plan := c.deferreds[t.done[i].step.phaseName];
    j := RecordedSince(x, c, refs, t.done, i, RemovePrefix(plan.credentialSource, PHASE_PREFIX), plan.targetIdentity);
  }
}
