/** Revocation window arithmetic over integer nanoseconds. */
module Timing {
  import opened Wrappers
  import opened Outcomes
  import opened Sorting

  datatype PollSample = PollSample(monotonicNs: int, outcome: OutcomeClass)

  /** low <= point <= high is the type's own validation. */
  datatype Interval = Interval(low: real, point: real, high: real)

  datatype Note = NoSamples | NeverAllowed | NoTransitionWithinWindow | NonMonotonicTransition

  datatype Measurement = Measurement(
    transitionWindow: Option<Interval>,
    transitionObserved: bool,
    nonMonotonic: bool,
    pollIntervalMs: int,
    pollCount: nat,
    windowLengthS: real,
    receiptConfirmed: bool,
    notes: seq<Note>)

  /** A measurement whose fields fail validation is never built. */
  datatype InvalidMeasurement = InvalidMeasurement

  function Seconds(ns: int): real {
    ns as real / 1_000_000_000.0
  }

  function Validated(m: Measurement): Result<Measurement, InvalidMeasurement> {
    if m.pollIntervalMs > 0 && m.windowLengthS >= 0.0 &&
       (m.transitionObserved <==> m.transitionWindow.Some?) &&
       (m.transitionWindow.Some? ==>
          m.transitionWindow.value.low <= m.transitionWindow.value.point <= m.transitionWindow.value.high)
    then Ok(m)
    else Err(InvalidMeasurement)
  }

  // ---- Specification ----------------------------------------------------------

  function Time(s: PollSample): int {
    s.monotonicNs
  }

  function AllowedTimes(samples: seq<PollSample>): seq<int> {
    if samples == [] then []
    else (if samples[0].outcome.Allowed? then [samples[0].monotonicNs] else []) + AllowedTimes(samples[1..])
  }

  function DenialTimes(samples: seq<PollSample>): seq<int> {
    if samples == [] then []
    else (if samples[0].outcome.IsDenial() then [samples[0].monotonicNs] else []) + DenialTimes(samples[1..])
  }

  function Later(times: seq<int>, t: int): seq<int> {
    if times == [] then [] else (if times[0] > t then [times[0]] else []) + Later(times[1..], t)
  }

  function Greatest(times: seq<int>): (t: int)
    requires times != []
    ensures t in times && forall u :: u in times ==> u <= t
  {
    if |times| == 1 then times[0]
    else
      assert times == [times[0]] + times[1..];
      if Greatest(times[1..]) > times[0] then Greatest(times[1..]) else times[0]
  }

  function Least(times: seq<int>): (t: int)
    requires times != []
    ensures t in times && forall u :: u in times ==> t <= u
  {
    if |times| == 1 then times[0]
    else
      assert times == [times[0]] + times[1..];
      if Least(times[1..]) < times[0] then Least(times[1..]) else times[0]
  }

  /** The allow/deny projection: true for ALLOWED, false for a denial, everything else dropped. */
  function Projection(samples: seq<PollSample>): seq<bool> {
    if samples == [] then
      []
    else
      var last := samples[|samples| - 1];
      Projection(samples[..|samples| - 1]) +
      (if last.outcome.Allowed? then [true] else if last.outcome.IsDenial() then [false] else [])
  }

  function Changes(states: seq<bool>): nat {
    if |states| < 2 then
      0
    else
      Changes(states[..|states| - 1]) + (if states[|states| - 1] != states[|states| - 2] then 1 else 0)
  }

  /** The last ALLOWED and the first denial after it, if both exist. */
  function Bracket(ordered: seq<PollSample>): Option<(int, int)> {
    var allowed := AllowedTimes(ordered);
    if allowed == [] then
      None
    else
      var later := Later(DenialTimes(ordered), Greatest(allowed));
      if later == [] then None else Some((Greatest(allowed), Least(later)))
  }

  function Window(t: int, u: int, sentNs: int): Interval {
    Interval(Seconds(t - sentNs), (Seconds(t - sentNs) + Seconds(u - sentNs)) / 2.0, Seconds(u - sentNs))
  }

  /** What is reported about a nonempty series, given its bracket. */
  function Report(pollCount: nat, lastNs: int, bracket: Option<(int, int)>, flips: bool, missing: Note,
                  sentNs: int, pollIntervalMs: int, confirmed: bool): Result<Measurement, InvalidMeasurement>
  {
    var length := Seconds(lastNs - sentNs);
    Validated(match bracket
              case None => Measurement(None, false, false, pollIntervalMs, pollCount, length, confirmed, [missing])
              case Some(b) =>
                Measurement(Some(Window(b.0, b.1, sentNs)), true, flips, pollIntervalMs, pollCount, length, confirmed,
                            if flips then [NonMonotonicTransition] else []))
  }

  function Measured(samples: seq<PollSample>, sentNs: int, pollIntervalMs: int,
                    confirmed: bool): Result<Measurement, InvalidMeasurement> {
    var ordered := SortBy(Time, samples);
    if ordered == [] then
      Validated(Measurement(None, false, false, pollIntervalMs, 0, 0.0, confirmed, [NoSamples]))
    else
      Report(|ordered|, ordered[|ordered| - 1].monotonicNs, Bracket(ordered), Changes(Projection(ordered)) > 1,
             if AllowedTimes(ordered) == [] then
               NeverAllowed else NoTransitionWithinWindow, sentNs, pollIntervalMs, confirmed)
  }

  // ---- The implementation -----------------------------------------------------

  /** Counts ALLOWED/denied state changes in chronological order; other samples carry no state. */
  method CountTransitions(ordered: seq<PollSample>) returns (transitions: nat)
    ensures transitions == Changes(Projection(ordered))
  {
    hide Projection, Changes;
    transitions := 0;
    var previousState: Option<bool> := None;
    assert ordered[..0] == [];
    CountNothing();
    for k := 0 to |ordered|
      invariant Counted(Projection(ordered[..k]), transitions, previousState)
    {
      var sample := ordered[k];
      ProjectNext(ordered[..k], sample);
      assert ordered[..k + 1] == ordered[..k] + [sample];
      if !sample.outcome.Allowed? && !sample.outcome.IsDenial() {
        continue;
      }
      var state := sample.outcome.Allowed?;
      CountNext(Projection(ordered[..k]), state);
      if previousState.Some? && previousState.value != state {
        transitions := transitions + 1;
      }
      previousState := Some(state);
    }
    assert ordered[..|ordered|] == ordered;
  }

  predicate Counted(states: seq<bool>, transitions: int, previous: Option<bool>) {
    transitions == Changes(states) && previous == if states == [] then None else Some(states[|states| - 1])
  }

  lemma CountNothing()
    ensures Projection([]) == [] && Changes([]) == 0
  {
  }

  lemma ProjectNext(samples: seq<PollSample>, s: PollSample)
    ensures Projection(samples + [s]) ==
            if s.outcome.Allowed? then Projection(samples) + [true]
            else if s.outcome.IsDenial() then Projection(samples) + [false]
            else Projection(samples)
  {
    assert (samples + [s])[..|samples|] == samples;
  }

  lemma CountNext(states: seq<bool>, b: bool)
    ensures Changes(states + [b]) == Changes(states) + (if states != [] && states[|states| - 1] != b then 1 else 0)
  {
    assert (states + [b])[..|states|] == states;
  }

  method ComputeRevocationWindow(samples: seq<PollSample>, mutationSentNs: int, pollIntervalMs: int, confirmed: bool)
    returns (r: Result<Measurement, InvalidMeasurement>)
    ensures r == Measured(samples, mutationSentNs, pollIntervalMs, confirmed)
    ensures r.Ok? ==> Reports(r.value, samples, mutationSentNs, pollIntervalMs, confirmed)
  {
    hide SortBy, AllowedTimes, DenialTimes, Later, Projection, Changes, Validated, Reports;
    MeasurementReports(samples, mutationSentNs, pollIntervalMs, confirmed);
    var ordered := SortBy(Time, samples);
    if ordered == [] {
      return Validated(Measurement(None, false, false, pollIntervalMs, 0, 0.0, confirmed, [NoSamples]));
    }
    var length := Seconds(ordered[|ordered| - 1].monotonicNs - mutationSentNs);
    var allowed, denied := AllowedTimes(ordered), DenialTimes(ordered);
    if allowed == [] {
      return Validated(Measurement(None, false, false, pollIntervalMs, |ordered|, length, confirmed, [NeverAllowed]));
    }
    var lastAllow := Greatest(allowed);
    var laterDenies := Later(denied, lastAllow);
    if laterDenies == [] {
      return Validated(Measurement(None, false, false, pollIntervalMs, |ordered|, length, confirmed,
                                   [NoTransitionWithinWindow]));
    }
    var firstDeny := Least(laterDenies);
    var transitions := CountTransitions(ordered);
    var nonMonotonic := transitions > 1;
    var low := Seconds(lastAllow - mutationSentNs);
    var high := Seconds(firstDeny - mutationSentNs);
    var window := Interval(low, (low + high) / 2.0, high);
    assert window == Window(lastAllow, firstDeny, mutationSentNs);
    return Validated(Measurement(Some(window), true, nonMonotonic, pollIntervalMs, |ordered|, length, confirmed,
                                 if nonMonotonic then [NonMonotonicTransition] else []));
  }

  // ---- What the window means -----------------------------------------------------

  predicate IsLastAllow(samples: seq<PollSample>, t: int) {
    (exists s :: s in samples && s.outcome.Allowed? && s.monotonicNs == t) &&
    forall s :: s in samples && s.outcome.Allowed? ==> s.monotonicNs <= t
  }

  predicate IsFirstDenialAfter(samples: seq<PollSample>, t: int, u: int) {
    (exists s :: s in samples && s.outcome.IsDenial() && s.monotonicNs == u) && t < u &&
    forall s :: s in samples && s.outcome.IsDenial() && s.monotonicNs > t ==> u <= s.monotonicNs
  }

  /** Some ALLOWED exists, and some denial is strictly later than every ALLOWED. */
  predicate HasTransition(samples: seq<PollSample>) {
    (exists s :: s in samples && s.outcome.Allowed?) &&
    exists d :: d in samples && Settles(samples, d)
  }

  ghost predicate AllowsThenDenials(states: seq<bool>) {
    exists k :: SplitAt(states, k)
  }

  ghost predicate SplitAt(states: seq<bool>, k: int) {
    0 <= k <= |states| && (forall i :: 0 <= i < k ==> states[i]) && (forall i :: k <= i < |states| ==> !states[i])
  }

  lemma {:induction false} AllowedTimesExact(samples: seq<PollSample>, t: int)
    ensures t in AllowedTimes(samples) <==> exists s :: s in samples && s.outcome.Allowed? && s.monotonicNs == t
  {
    if samples != [] {
      AllowedTimesExact(samples[1..], t);
      assert samples == [samples[0]] + samples[1..];
    }
  }

  lemma {:induction false} DenialTimesExact(samples: seq<PollSample>, t: int)
    ensures t in DenialTimes(samples) <==> exists s :: s in samples && s.outcome.IsDenial() && s.monotonicNs == t
  {
    if samples != [] {
      DenialTimesExact(samples[1..], t);
      assert samples == [samples[0]] + samples[1..];
    }
  }

  lemma {:induction false} LaterExact(times: seq<int>, t: int, u: int)
    ensures u in Later(times, t) <==> u in times && u > t
  {
    if times != [] { LaterExact(times[1..], t, u); }
  }

  lemma SameMembers(samples: seq<PollSample>)
    ensures forall s :: s in SortBy(Time, samples) <==> s in samples
  {
    forall s ensures s in SortBy(Time, samples) <==> s in samples {
      assert s in SortBy(Time, samples) <==> s in multiset(SortBy(Time, samples));
      assert s in samples <==> s in multiset(samples);
    }
  }

  lemma LastAllowIs(samples: seq<PollSample>)
    ensures var allowed := AllowedTimes(SortBy(Time, samples));
            (allowed != [] <==> exists s :: s in samples && s.outcome.Allowed?) &&
            (allowed != [] ==> IsLastAllow(samples, Greatest(allowed)))
  {
    var allowed := AllowedTimes(SortBy(Time, samples));
    SameMembers(samples);
    forall t ensures t in allowed <==> exists s :: s in samples && s.outcome.Allowed? && s.monotonicNs == t {
      AllowedTimesExact(SortBy(Time, samples), t);
    }
    if allowed != [] {
      assert allowed[0] in allowed;
      assert Greatest(allowed) in allowed;
    }
    forall s | s in samples && s.outcome.Allowed? ensures s.monotonicNs in allowed {}
  }

  lemma FirstDenialIs(samples: seq<PollSample>, t: int)
    ensures var later := Later(DenialTimes(SortBy(Time, samples)), t);
            (later != [] <==> exists d :: d in samples && d.outcome.IsDenial() && d.monotonicNs > t) &&
            (later != [] ==> IsFirstDenialAfter(samples, t, Least(later)))
  {
    var denied := DenialTimes(SortBy(Time, samples));
    var later := Later(denied, t);
    SameMembers(samples);
    forall u ensures u in later <==> u > t && exists s :: s in samples && s.outcome.IsDenial() && s.monotonicNs == u {
      DenialTimesExact(SortBy(Time, samples), u);
      LaterExact(denied, t, u);
    }
    if later != [] {
      assert later[0] in later;
      assert Least(later) in later;
    }
    forall s | s in samples && s.outcome.IsDenial() && s.monotonicNs > t ensures s.monotonicNs in later {}
  }

  /** The bracket taken from the sorted samples, read on the samples themselves. */
  lemma BracketIs(samples: seq<PollSample>)
    ensures var b := Bracket(SortBy(Time, samples));
            (b.Some? <==> HasTransition(samples)) &&
            (b.Some? ==> IsLastAllow(samples, b.value.0) && IsFirstDenialAfter(samples, b.value.0, b.value.1))
  {
    var allowed := AllowedTimes(SortBy(Time, samples));
    LastAllowIs(samples);
    if allowed != [] {
      var t := Greatest(allowed);
      FirstDenialIs(samples, t);
      hide SortBy, AllowedTimes, DenialTimes, Later, Greatest, Least;
      if d :| d in samples && Settles(samples, d) {
        assert d.monotonicNs > t;
      }
      if d :| d in samples && d.outcome.IsDenial() && d.monotonicNs > t {
        assert Settles(samples, d);
      }
    }
  }

  /** No sample is later than this instant, and one is of it. */
  predicate IsLatest(samples: seq<PollSample>, t: int) {
    (exists s :: s in samples && s.monotonicNs == t) && forall s :: s in samples ==> s.monotonicNs <= t
  }

  lemma LatestSample(samples: seq<PollSample>, sentNs: int)
    requires samples != []
    ensures var ordered := SortBy(Time, samples);
            |ordered| == |samples| && IsLatest(samples, ordered[|ordered| - 1].monotonicNs) &&
            (ordered[|ordered| - 1].monotonicNs >= sentNs <==> exists s :: s in samples && s.monotonicNs >= sentNs)
  {
    var ordered := SortBy(Time, samples);
    SameMembers(samples);
    assert ordered[|ordered| - 1] in ordered;
    forall s | s in samples ensures s.monotonicNs <= ordered[|ordered| - 1].monotonicNs {
      var i :| 0 <= i < |ordered| && ordered[i] == s;
      assert Time(ordered[i]) <= Time(ordered[|ordered| - 1]);
    }
  }

  /** A report is valid unless the interval is nonpositive or the series ended before the mutation was sent. */
  lemma ReportIs(pollCount: nat, lastNs: int, bracket: Option<(int, int)>, flips: bool, missing: Note,
                 sentNs: int, pollIntervalMs: int, confirmed: bool)
    requires bracket.Some? ==> bracket.value.0 < bracket.value.1
    ensures var r := Report(pollCount, lastNs, bracket, flips, missing, sentNs, pollIntervalMs, confirmed);
            (r.Ok? <==> pollIntervalMs > 0 && lastNs >= sentNs) &&
            (r.Ok? ==> r.value.transitionObserved == bracket.Some? && r.value.pollCount == pollCount) &&
            (r.Ok? && bracket.Some? ==>
               r.value.transitionWindow == Some(Window(bracket.value.0, bracket.value.1, sentNs)) &&
               r.value.nonMonotonic == flips)
  {
  }

  /** A measurement is refused only for a nonpositive interval or when every sample precedes the mutation. */
  lemma MeasuredIff(samples: seq<PollSample>, sentNs: int, pollIntervalMs: int, confirmed: bool)
    ensures Measured(samples, sentNs, pollIntervalMs, confirmed).Ok? <==>
            pollIntervalMs > 0 && (samples == [] || exists s :: s in samples && s.monotonicNs >= sentNs)
  {
    var ordered := SortBy(Time, samples);
    if samples != [] {
      BracketIs(samples);
      LatestSample(samples, sentNs);
      ReportIs(|ordered|, ordered[|ordered| - 1].monotonicNs, Bracket(ordered), Changes(Projection(ordered)) > 1,
               if AllowedTimes(ordered) == [] then
                 NeverAllowed else NoTransitionWithinWindow, sentNs, pollIntervalMs, confirmed);
      hide SortBy, AllowedTimes, Projection, Changes, Report, Bracket;
    }
  }

  lemma SecondsAre(ns: int)
    ensures Seconds(ns) * 1_000_000_000.0 == ns as real
  {
  }

  /** The window, in seconds since the mutation was sent, opens at the last ALLOWED and closes at the next denial. */
  ghost predicate Brackets(w: Interval, samples: seq<PollSample>, sentNs: int) {
    exists t, u :: IsLastAllow(samples, t) && IsFirstDenialAfter(samples, t, u) && EndsAt(w, t, u, sentNs)
  }

  /** The window's ends are these instants, in seconds since the mutation was sent. */
  predicate EndsAt(w: Interval, t: int, u: int, sentNs: int) {
    w.low * 1_000_000_000.0 == (t - sentNs) as real && w.high * 1_000_000_000.0 == (u - sentNs) as real &&
    w.point == (w.low + w.high) / 2.0
  }

  /** The length reported is that of the series: from the mutation to the latest sample, in seconds. */
  ghost predicate Spans(lengthS: real, samples: seq<PollSample>, sentNs: int) {
    if samples == [] then lengthS == 0.0
    else exists t :: IsLatest(samples, t) && lengthS * 1_000_000_000.0 == (t - sentNs) as real
  }

  /** Why no transition is reported, or that the one reported is not clean. */
  ghost predicate Explained(m: Measurement, samples: seq<PollSample>) {
    m.notes ==
    if samples == [] then [NoSamples]
    else if forall s :: s in samples ==> !s.outcome.Allowed? then [NeverAllowed]
    else if !HasTransition(samples) then [NoTransitionWithinWindow]
    else if m.nonMonotonic then [NonMonotonicTransition]
    else []
  }

  /** Everything a measurement says of the samples it was taken from. */
  ghost predicate Reports(m: Measurement, samples: seq<PollSample>, sentNs: int, pollIntervalMs: int, confirmed: bool) {
    m.pollIntervalMs == pollIntervalMs && m.receiptConfirmed == confirmed && m.pollCount == |samples| &&
    (m.transitionObserved <==> HasTransition(samples)) && (m.transitionWindow.Some? <==> m.transitionObserved) &&
    (m.transitionWindow.Some? ==> Brackets(m.transitionWindow.value, samples, sentNs)) &&
    (m.nonMonotonic <==> m.transitionObserved && AllowedAfterDenial(SortBy(Time, samples))) &&
    Spans(m.windowLengthS, samples, sentNs) && Explained(m, samples)
  }

  lemma WindowIs(samples: seq<PollSample>, sentNs: int, t: int, u: int)
    requires IsLastAllow(samples, t) && IsFirstDenialAfter(samples, t, u)
    ensures Brackets(Window(t, u, sentNs), samples, sentNs)
  {
    hide Seconds, IsLastAllow, IsFirstDenialAfter;
    SecondsAre(t - sentNs);
    SecondsAre(u - sentNs);
  }

  lemma SpanIs(samples: seq<PollSample>, sentNs: int, t: int)
    requires samples != [] && IsLatest(samples, t)
    ensures Spans(Seconds(t - sentNs), samples, sentNs)
  {
    hide Seconds, IsLatest;
    SecondsAre(t - sentNs);
  }

  /** A measurement reports exactly what its samples show. */
  lemma MeasurementReports(samples: seq<PollSample>, sentNs: int, pollIntervalMs: int, confirmed: bool)
    ensures var r := Measured(samples, sentNs, pollIntervalMs, confirmed);
            r.Ok? ==> Reports(r.value, samples, sentNs, pollIntervalMs, confirmed)
  {
    var ordered := SortBy(Time, samples);
    if Measured(samples, sentNs, pollIntervalMs, confirmed).Ok? {
      if samples == [] {
        NothingReported();
      } else {
        SeriesReports(samples, sentNs, pollIntervalMs, confirmed);
      }
    }
  }

  lemma NothingReported()
    ensures !HasTransition([]) && SortBy(Time, []) == []
  {
  }

  lemma SeriesReports(samples: seq<PollSample>, sentNs: int, pollIntervalMs: int, confirmed: bool)
    requires samples != [] && Measured(samples, sentNs, pollIntervalMs, confirmed).Ok?
    ensures Reports(Measured(samples, sentNs, pollIntervalMs, confirmed).value, samples, sentNs, pollIntervalMs,
                    confirmed)
  {
    hide SortBy, AllowedTimes, Projection, Changes, Bracket, HasTransition, IsLastAllow, IsFirstDenialAfter, Seconds,
         Brackets, Spans, AllowedAfterDenial, IsLatest;
    var ordered := SortBy(Time, samples);
    BracketIs(samples);
    LastAllowIs(samples);
    LatestSample(samples, sentNs);
    SpanIs(samples, sentNs, ordered[|ordered| - 1].monotonicNs);
    var b := Bracket(ordered);
    if b.Some? {
      WindowIs(samples, sentNs, b.value.0, b.value.1);
      FlipsIff(samples);
      AllowFound(samples);
    }
  }

  lemma AllowFound(samples: seq<PollSample>)
    requires HasTransition(samples)
    ensures exists s :: s in samples && s.outcome.Allowed?
  {
  }

  /** A transition is reported exactly when the samples contain one, and its window brackets it. */
  lemma TransitionReportedIff(samples: seq<PollSample>, sentNs: int, pollIntervalMs: int, confirmed: bool)
    requires Measured(samples, sentNs, pollIntervalMs, confirmed).Ok?
    ensures var m := Measured(samples, sentNs, pollIntervalMs, confirmed).value;
            (m.transitionObserved <==> HasTransition(samples)) && m.pollCount == |samples| &&
            (m.transitionObserved ==>
             m.transitionWindow.Some? && Brackets(m.transitionWindow.value, samples, sentNs))
  {
    hide Measured, HasTransition, Spans, Explained, AllowedAfterDenial, Brackets;
    MeasurementReports(samples, sentNs, pollIntervalMs, confirmed);
  }

  /**
   The reported window brackets the change: it opens at an ALLOWED and closes at a denial, no ALLOWED lies
   after its low end, and no sample of either kind strictly inside it.
   */
  lemma WindowBrackets(samples: seq<PollSample>, sentNs: int, pollIntervalMs: int, confirmed: bool)
    requires Measured(samples, sentNs, pollIntervalMs, confirmed).Ok?
    requires Measured(samples, sentNs, pollIntervalMs, confirmed).value.transitionObserved
    ensures Measured(samples, sentNs, pollIntervalMs, confirmed).value.transitionWindow.Some?
    ensures var w := Measured(samples, sentNs, pollIntervalMs, confirmed).value.transitionWindow.value;
            w.low < w.high && w.point == (w.low + w.high) / 2.0 &&
            (exists s :: s in samples && s.outcome.Allowed? &&
                         w.low * 1_000_000_000.0 == (s.monotonicNs - sentNs) as real) &&
            (exists s :: s in samples && s.outcome.IsDenial() &&
                         w.high * 1_000_000_000.0 == (s.monotonicNs - sentNs) as real)
    ensures var w := Measured(samples, sentNs, pollIntervalMs, confirmed).value.transitionWindow.value;
            forall s :: s in samples ==>
              (s.outcome.Allowed? ==> (s.monotonicNs - sentNs) as real <= w.low * 1_000_000_000.0) &&
              (s.outcome.IsDenial() ==>
               (s.monotonicNs - sentNs) as real <= w.low * 1_000_000_000.0 ||
               (s.monotonicNs - sentNs) as real >= w.high * 1_000_000_000.0)
  {
    hide Measured, HasTransition, Spans, Explained, AllowedAfterDenial;
    MeasurementReports(samples, sentNs, pollIntervalMs, confirmed);
    var w := Measured(samples, sentNs, pollIntervalMs, confirmed).value.transitionWindow.value;
    var t, u :| IsLastAllow(samples, t) && IsFirstDenialAfter(samples, t, u) && EndsAt(w, t, u, sentNs);
  }

  // ---- Flip-flops -------------------------------------------------------------------

  lemma {:induction false} NoChangeIsConstant(states: seq<bool>)
    ensures Changes(states) == 0 <==> forall i :: 0 <= i < |states| ==> states[i] == states[0]
  {
    if |states| >= 2 {
      var front := states[..|states| - 1];
      NoChangeIsConstant(front);
      assert forall i :: 0 <= i < |front| ==> states[i] == front[i];
    }
  }

  /** Among projections that end in a denial, at most one change means allows then denials. */
  lemma {:induction false} OneChangeIff(states: seq<bool>)
    requires states != [] && !states[|states| - 1]
    ensures Changes(states) <= 1 <==> AllowsThenDenials(states)
  {
    var n := |states|;
    var front := states[..n - 1];
    if n == 1 {
      assert SplitAt(states, 0);
    } else if !front[n - 2] {
      OneChangeIff(front);
      if AllowsThenDenials(front) {
        var k :| SplitAt(front, k);
        assert SplitAt(states, k);
      }
      if AllowsThenDenials(states) {
        var k :| SplitAt(states, k);
        assert SplitAt(front, k);
      }
    } else {
      NoChangeIsConstant(front);
      if AllowsThenDenials(states) {
        var k :| SplitAt(states, k);
        assert states[n - 2] == front[n - 2];
        assert k == n - 1;
        assert forall i :: 0 <= i < n - 1 ==> front[i] == states[i];
      }
      if Changes(front) == 0 {
        assert forall i :: 0 <= i < n - 1 ==> states[i] == front[i] == front[0] == front[n - 2];
        assert SplitAt(states, n - 1);
      }
    }
  }

  /** A denial later than every ALLOWED. */
  predicate Settles(samples: seq<PollSample>, d: PollSample) {
    d in samples && d.outcome.IsDenial() &&
    forall s :: s in samples && s.outcome.Allowed? ==> s.monotonicNs < d.monotonicNs
  }

  /** The projection of time-sorted samples with a transition ends in a denial. */
  lemma {:induction false} EndsInDenial(ordered: seq<PollSample>, d: PollSample)
    requires SortedBy(Time, ordered) && Settles(ordered, d)
    ensures var p := Projection(ordered); p != [] && !p[|p| - 1]
  {
    var front, last := ordered[..|ordered| - 1], ordered[|ordered| - 1];
    assert ordered == front + [last];
    var i :| 0 <= i < |ordered| && ordered[i] == d;
    assert Time(ordered[i]) <= Time(last);
    assert last in ordered;
    if !last.outcome.IsDenial() {
      assert d in front by { assert front[i] == d; }
      EndsInDenial(front, d);
    }
  }

  /** In this order some ALLOWED comes after a denial. */
  ghost predicate AllowedAfterDenial(ordered: seq<PollSample>) {
    exists i, j :: 0 <= i < j < |ordered| && ordered[i].outcome.IsDenial() && ordered[j].outcome.Allowed?
  }

  ghost predicate HasDenial(samples: seq<PollSample>) {
    exists i :: 0 <= i < |samples| && samples[i].outcome.IsDenial()
  }

  ghost predicate HasFalse(states: seq<bool>) {
    exists k :: 0 <= k < |states| && !states[k]
  }

  /** Allows, then denials: what is projected is, exactly when no ALLOWED comes after a denial. */
  lemma {:induction false} ProjectionSplits(ordered: seq<PollSample>)
    ensures AllowsThenDenials(Projection(ordered)) <==> !AllowedAfterDenial(ordered)
    ensures HasDenial(ordered) <==> HasFalse(Projection(ordered))
  {
    if ordered == [] {
      assert SplitAt([], 0);
    } else {
      hide Projection, AllowsThenDenials, AllowedAfterDenial, HasDenial, HasFalse;
      var front, last := ordered[..|ordered| - 1], ordered[|ordered| - 1];
      ProjectionSplits(front);
      ProjectNext(front, last);
      SplitsNext(Projection(front), true);
      SplitsNext(Projection(front), false);
      FlipsNext(front, last);
      assert ordered == front + [last];
    }
  }

  lemma SplitsNext(states: seq<bool>, b: bool)
    ensures AllowsThenDenials(states + [b]) <==>
            AllowsThenDenials(states) && !(b && HasFalse(states))
    ensures HasFalse(states + [b]) <==> HasFalse(states) || !b
  {
    var n := |states|;
    assert (states + [b])[n] == b && forall i :: 0 <= i < n ==> (states + [b])[i] == states[i];
    if AllowsThenDenials(states + [b]) {
      var k :| SplitAt(states + [b], k);
      assert forall i :: 0 <= i < n ==> (states + [b])[i] == states[i];
      assert (states + [b])[n] == b;
      assert SplitAt(states, if k > n then n else k);
    }
    if AllowsThenDenials(states) {
      var k :| SplitAt(states, k);
      if !b { assert SplitAt(states + [b], k); }
      if b && forall i :: 0 <= i < n ==> states[i] { assert SplitAt(states + [b], n + 1); }
    }
  }

  lemma FlipsNext(front: seq<PollSample>, last: PollSample)
    ensures AllowedAfterDenial(front + [last]) <==>
            AllowedAfterDenial(front) || (last.outcome.Allowed? && HasDenial(front))
    ensures HasDenial(front + [last]) <==> HasDenial(front) || last.outcome.IsDenial()
  {
    var all, n := front + [last], |front|;
    assert all[n] == last && forall i :: 0 <= i < n ==> all[i] == front[i];
    if HasDenial(front) && last.outcome.Allowed? {
      var i :| 0 <= i < n && front[i].outcome.IsDenial();
      assert all[i].outcome.IsDenial() && all[n].outcome.Allowed?;
    }
    if AllowedAfterDenial(front) {
      var i, j :| 0 <= i < j < n && front[i].outcome.IsDenial() && front[j].outcome.Allowed?;
      assert all[i].outcome.IsDenial() && all[j].outcome.Allowed?;
    }
    if i :| 0 <= i < n && front[i].outcome.IsDenial() { assert all[i].outcome.IsDenial(); }
  }

  /** Where the samples show a transition, more than one change of state means an ALLOWED after a denial. */
  lemma FlipsIff(samples: seq<PollSample>)
    requires HasTransition(samples)
    ensures var ordered := SortBy(Time, samples);
            Changes(Projection(ordered)) > 1 <==> AllowedAfterDenial(ordered)
  {
    hide SortBy, Projection, Changes, AllowedAfterDenial, AllowsThenDenials;
    var ordered := SortBy(Time, samples);
    SameMembers(samples);
    var d :| d in samples && Settles(samples, d);
    assert Settles(ordered, d);
    EndsInDenial(ordered, d);
    OneChangeIff(Projection(ordered));
    ProjectionSplits(ordered);
  }

  /** Given a transition, the flag is set exactly when, in the order of time, some ALLOWED comes after a denial. */
  lemma NonMonotonicIff(samples: seq<PollSample>, sentNs: int, pollIntervalMs: int, confirmed: bool)
    requires Measured(samples, sentNs, pollIntervalMs, confirmed).Ok?
    requires Measured(samples, sentNs, pollIntervalMs, confirmed).value.transitionObserved
    ensures Measured(samples, sentNs, pollIntervalMs, confirmed).value.nonMonotonic <==>
            AllowedAfterDenial(SortBy(Time, samples))
  {
    hide Measured, HasTransition, Spans, Explained, AllowedAfterDenial, Brackets;
    MeasurementReports(samples, sentNs, pollIntervalMs, confirmed);
  }

  /** With distinct timestamps the order in which samples were collected does not matter. */
  lemma PermutationInvariant(a: seq<PollSample>, b: seq<PollSample>, sentNs: int, pollIntervalMs: int, confirmed: bool)
    requires multiset(a) == multiset(b)
    requires DistinctKeys(Time, a)
    ensures Measured(a, sentNs, pollIntervalMs, confirmed) == Measured(b, sentNs, pollIntervalMs, confirmed)
  {
    SortForgetsOrder(Time, a, b);
  }
}
