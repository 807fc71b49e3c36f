/** Evidence logs: what is numbered in them, and which mutations they announce, apply and revert. */
module Logs {
  import opened Models
  import opened Evidence

  function Noted(observations: seq<Observation>): (r: seq<Record>)
    ensures |r| == |observations|
  {
    seq(|observations|, i requires 0 <= i < |observations| => ObservationWritten(observations[i]))
  }

  function Announcing(events: seq<Event>): (r: seq<Record>)
    ensures |r| == |events|
  {
    seq(|events|, i requires 0 <= i < |events| => EventWritten(events[i]))
  }

  // ---- Observations and events of a log ----------------------------------------------------

  function ObservationsIn(records: seq<Record>): seq<Observation> {
    if records == [] then
      []
    else
      var last := records[|records| - 1];
      ObservationsIn(records[..|records| - 1]) + (if last.ObservationWritten? then [last.observation] else [])
  }

  function EventsIn(records: seq<Record>): seq<Event> {
    if records == [] then
      []
    else
      var last := records[|records| - 1];
      EventsIn(records[..|records| - 1]) + (if last.EventWritten? then [last.event] else [])
  }

  lemma {:induction false} InConcat(a: seq<Record>, b: seq<Record>)
    ensures ObservationsIn(a + b) == ObservationsIn(a) + ObservationsIn(b)
    ensures EventsIn(a + b) == EventsIn(a) + EventsIn(b)
  {
    if b == [] {
      assert a + b == a;
    } else {
      assert (a + b)[..|a + b| - 1] == a + b[..|b| - 1];
      InConcat(a, b[..|b| - 1]);
    }
  }

  lemma {:induction false} InNoted(observations: seq<Observation>)
    ensures ObservationsIn(Noted(observations)) == observations && EventsIn(Noted(observations)) == []
  {
    if observations != [] {
      var front := observations[..|observations| - 1];
      InNoted(front);
      assert Noted(observations)[..|observations| - 1] == Noted(front);
      assert observations == front + [observations[|observations| - 1]];
    }
  }

  lemma {:induction false} InAnnouncing(events: seq<Event>)
    ensures EventsIn(Announcing(events)) == events && ObservationsIn(Announcing(events)) == []
  {
    if events != [] {
      var front := events[..|events| - 1];
      InAnnouncing(front);
      assert Announcing(events)[..|events| - 1] == Announcing(front);
      assert events == front + [events[|events| - 1]];
    }
  }

  /** Observations first, then events: the shape of most steps. */
  lemma InBoth(observations: seq<Observation>, events: seq<Event>)
    ensures ObservationsIn(Noted(observations) + Announcing(events)) == observations
    ensures EventsIn(Noted(observations) + Announcing(events)) == events
  {
    InConcat(Noted(observations), Announcing(events));
    InNoted(observations);
    InAnnouncing(events);
  }

  /** Everything in this stretch of the log is numbered within it. */
  ghost predicate Numbered(records: seq<Record>, low: nat, high: nat) {
    ObservationsWithin(ObservationsIn(records), low, high) && EventsWithin(EventsIn(records), low, high)
  }

  lemma NumberedJoin(a: seq<Record>, b: seq<Record>, low: nat, mid: nat, high: nat)
    requires Numbered(a, low, mid) && Numbered(b, mid, high)
    ensures Numbered(a + b, low, high)
  {
    InConcat(a, b);
    ObservationsJoin(ObservationsIn(a), ObservationsIn(b), low, mid, mid, high);
    EventsJoin(EventsIn(a), EventsIn(b), low, mid, high);
  }

  lemma NumberedBoth(observations: seq<Observation>, events: seq<Event>, low: nat, high: nat)
    requires ObservationsWithin(observations, low, high) && EventsWithin(events, low, high)
    ensures Numbered(Noted(observations) + Announcing(events), low, high)
  {
    InBoth(observations, events);
  }

  lemma NumberedEvents(events: seq<Event>, low: nat)
    requires forall i :: 0 <= i < |events| ==> events[i].sequence == low + i
    ensures Numbered(Announcing(events), low, low + |events|)
  {
    hide Announcing, ObservationsIn, EventsIn;
    InAnnouncing(events);
  }

  lemma NumberedThenOne(events: seq<Event>, e: Event, low: nat)
    requires (forall i :: 0 <= i < |events| ==> events[i].sequence == low + i) && e.sequence == low + |events|
    ensures Numbered(Announcing(events) + Announcing([e]), low, low + |events| + 1)
    ensures ObservationsIn(Announcing(events) + Announcing([e])) == []
  {
    hide Numbered, Announcing, ObservationsIn, EventsIn;
    NumberedEvents(events, low);
    NumberedEvents([e], low + |events|);
    InAnnouncing(events);
    InAnnouncing([e]);
    InConcat(Announcing(events), Announcing([e]));
    NumberedJoin(Announcing(events), Announcing([e]), low, low + |events|, low + |events| + 1);
  }

  lemma {:induction false} NothingNumbered(records: seq<Record>, at: nat)
    requires forall i :: 0 <= i < |records| ==> !records[i].ObservationWritten? && !records[i].EventWritten?
    ensures Numbered(records, at, at) && ObservationsIn(records) == [] && EventsIn(records) == []
  {
    if records != [] { NothingNumbered(records[..|records| - 1], at); }
  }

  lemma JoinNumbered(header: seq<Record>, done: seq<Record>, cut: seq<Record>, reverts: seq<Record>,
                     closing: seq<Record>, mid: nat, reached: nat, high: nat)
    requires Numbered(header, 0, 0) && Numbered(done, 0, mid) && Numbered(cut, mid, reached)
    requires Numbered(reverts, reached, high) && Numbered(closing, high, high)
    ensures Numbered(header + done + cut + reverts + closing, 0, high)
  {
    hide Numbered;
    NumberedJoin(header, done, 0, 0, mid);
    NumberedJoin(header + done, cut, 0, mid, reached);
    NumberedJoin(header + done + cut, reverts, 0, reached, high);
    NumberedJoin(header + done + cut + reverts, closing, 0, high, high);
  }

  // ---- Mutations ---------------------------------------------------------------------------

  predicate IsLog(r: Record) {
    r.EventWritten? && r.event.body.RevertLogWritten?
  }

  predicate IsApplied(r: Record) {
    r.EventWritten? && r.event.body.PolicyMutationApplied?
  }

  predicate IsReverted(r: Record) {
    r.EventWritten? && r.event.body.MutationReverted?
  }

  /** The log entry says how to undo exactly the mutation recorded next. */
  predicate Announces(log: Record, applied: Record) {
    IsLog(log) && IsApplied(applied) && applied.event.sequence == log.event.sequence + 1 &&
    log.event.body.plan.targetIdentity == applied.event.body.target &&
    log.event.body.plan.mutationKind == applied.event.body.kind
  }

  /** Nothing about mutations, and not the end. */
  ghost predicate Quiet(records: seq<Record>) {
    forall i :: 0 <= i < |records| ==> QuietRecord(records[i])
  }

  predicate QuietRecord(r: Record) {
    !IsLog(r) && !IsApplied(r) && !IsReverted(r) && !r.Finalized?
  }

  /** If record i is an applied mutation, the record before it is its log entry. */
  predicate AppliedAfterLog(records: seq<Record>, i: int)
    requires 0 <= i < |records|
  {
    IsApplied(records[i]) ==> i > 0 && Announces(records[i - 1], records[i])
  }

  /** Record i is a log entry whose mutation is not recorded next. */
  predicate LooseLog(records: seq<Record>, i: int)
    requires 0 <= i < |records|
  {
    IsLog(records[i]) && !(i + 1 < |records| && Announces(records[i], records[i + 1]))
  }

  /** Every applied mutation is announced and every announced mutation is applied; nothing is reverted or closed. */
  ghost predicate Paired(records: seq<Record>) {
    forall i :: 0 <= i < |records| ==>
      AppliedAfterLog(records, i) && !LooseLog(records, i) && !IsReverted(records[i]) && !records[i].Finalized?
  }

  lemma PairedJoin(a: seq<Record>, b: seq<Record>)
    requires Paired(a) && Paired(b)
    ensures Paired(a + b)
  {
    forall i | 0 <= i < |a + b|
      ensures AppliedAfterLog(a + b, i) && !LooseLog(a + b, i) && !IsReverted((a + b)[i]) && !(a + b)[i].Finalized?
    {
      if i < |a| {
        assert AppliedAfterLog(a, i) && !LooseLog(a, i);
      } else {
        assert AppliedAfterLog(b, i - |a|) && !LooseLog(b, i - |a|);
      }
    }
  }

  lemma QuietIsPaired(records: seq<Record>)
    requires Quiet(records)
    ensures Paired(records)
  {
    forall i | 0 <= i < |records|
      ensures AppliedAfterLog(records, i) && !LooseLog(records, i) && !IsReverted(records[i]) && !records[i].Finalized?
    {
      assert QuietRecord(records[i]);
    }
  }

  /** The plans of the mutations recorded as applied, in order. */
  function AppliedPlans(records: seq<Record>): seq<RevertPlan> {
    if |records| < 2 then
      []
    else
      var log, last := records[|records| - 2], records[|records| - 1];
      AppliedPlans(records[..|records| - 1]) + (if Announces(log, last) then [log.event.body.plan] else [])
  }

  /** The plans of the recorded reverts, in order. */
  function RevertedPlans(records: seq<Record>): seq<RevertPlan> {
    if records == [] then
      []
    else
      var last := records[|records| - 1];
      RevertedPlans(records[..|records| - 1]) + (if IsReverted(last) then [last.event.body.plan] else [])
  }

  lemma {:induction false} AppliedJoin(a: seq<Record>, b: seq<Record>)
    requires b != [] ==> !IsApplied(b[0])
    ensures AppliedPlans(a + b) == AppliedPlans(a) + AppliedPlans(b)
  {
    if b == [] {
      assert a + b == a;
    } else {
      var front := b[..|b| - 1];
      assert (a + b)[..|a + b| - 1] == a + front;
      AppliedJoin(a, front);
      assert |b| == 1 ==> AppliedPlans(a + b) == AppliedPlans(a + front);
    }
  }

  lemma {:induction false} RevertedJoin(a: seq<Record>, b: seq<Record>)
    ensures RevertedPlans(a + b) == RevertedPlans(a) + RevertedPlans(b)
  {
    if b == [] {
      assert a + b == a;
    } else {
      assert (a + b)[..|a + b| - 1] == a + b[..|b| - 1];
      RevertedJoin(a, b[..|b| - 1]);
    }
  }

  lemma {:induction false} NothingApplied(records: seq<Record>)
    requires forall i :: 0 <= i < |records| ==> !IsApplied(records[i])
    ensures AppliedPlans(records) == []
  {
    if |records| >= 2 { NothingApplied(records[..|records| - 1]); }
  }

  lemma {:induction false} NothingReverted(records: seq<Record>)
    requires forall i :: 0 <= i < |records| ==> !IsReverted(records[i])
    ensures RevertedPlans(records) == []
  {
    if records != [] { NothingReverted(records[..|records| - 1]); }
  }
}
