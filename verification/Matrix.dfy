/** One probe matrix: calibration of every identity's controls, then its other capabilities in shuffled order. */
module Matrix {
  import opened Wrappers
  import opened Outcomes
  import opened Models
  import opened Evidence
  import opened Adapters
  import opened Probes

  datatype ProbeMatrix = ProbeMatrix(
    matrixId: string,
    phaseName: string,
    identities: seq<IdentityId>,
    capabilities: seq<Capability>,
    trials: nat)

  datatype MatrixRun = MatrixRun(observations: seq<Observation>, events: seq<Event>, nextSequence: nat)

  function EstimateDurationS(m: ProbeMatrix): real {
    (|m.identities| * |m.capabilities| * m.trials) as real * 0.05
  }

  // ---- Order ----------------------------------------------------------------------------

  /** A shuffle swaps each position, last first, with a drawn one not after it. */
  function Shuffled(items: seq<Capability>, draw: nat -> nat, n: nat): (r: seq<Capability>)
    requires n <= |items|
    ensures multiset(r) == multiset(items) && |r| == |items|
    decreases n
  {
    if n <= 1 then
      items
    else
      var i, j := n - 1, draw(n - 1) % n;
      Shuffled(items[i := items[j]][j := items[i]], draw, n - 1)
  }

  function Without(capabilities: seq<Capability>, controls: seq<Capability>): seq<Capability> {
    if capabilities == [] then
      []
    else
      var last := capabilities[|capabilities| - 1];
      Without(capabilities[..|capabilities| - 1], controls) + (if last in controls then [] else [last])
  }

  /** The non-control capabilities in the order the row of this identity visits them. */
  function RowOrder(script: Script, controls: seq<Capability>, m: ProbeMatrix, id: IdentityId): seq<Capability> {
    var others := Without(m.capabilities, controls);
    Shuffled(others, i => script.draws(m.matrixId, id, i), |others|)
  }

  // ---- What is asked ---------------------------------------------------------------------

  function Calibrations(id: IdentityId, controls: seq<Capability>): (r: seq<Request>)
    ensures |r| == |controls|
  {
    seq(|controls|, i requires 0 <= i < |controls| => Request(id, controls[i], 1))
  }

  function Trials(id: IdentityId, c: Capability, n: nat): (r: seq<Request>)
    ensures |r| == n
  {
    seq(n, i requires 0 <= i < n => Request(id, c, i + 1))
  }

  function Cells(id: IdentityId, order: seq<Capability>, trials: nat): seq<Request> {
    if order == [] then [] else Cells(id, order[..|order| - 1], trials) + Trials(id, order[|order| - 1], trials)
  }

  function Row(script: Script, controls: seq<Capability>, m: ProbeMatrix, id: IdentityId): seq<Request> {
    Calibrations(id, controls) + Cells(id, RowOrder(script, controls, m, id), m.trials)
  }

  /** Everything the matrix asks, in order; identities without a reference are skipped. */
  function Requests(script: Script, controls: seq<Capability>, m: ProbeMatrix, refs: set<IdentityId>,
                    ids: seq<IdentityId>): seq<Request> {
    if ids == [] then
      []
    else
      var id, before := ids[|ids| - 1], Requests(script, controls, m, refs, ids[..|ids| - 1]);
      if id in refs then before + Row(script, controls, m, id) else before
  }

  function Announced(script: Script, controls: seq<Capability>, m: ProbeMatrix, id: IdentityId, rowStart: nat): Event {
    Event(rowStart + |controls|, ProbeOrderShuffled(id, RowOrder(script, controls, m, id)))
  }

  /** One event per row, under the number its first non-control observation will take. */
  function Shuffles(script: Script, controls: seq<Capability>, m: ProbeMatrix, refs: set<IdentityId>, start: nat,
                    ids: seq<IdentityId>): seq<Event> {
    if ids == [] then
      []
    else
      var id, front := ids[|ids| - 1], ids[..|ids| - 1];
      var before := Shuffles(script, controls, m, refs, start, front);
      if id in refs
      then before + [Announced(script, controls, m, id, start + |Requests(script, controls, m, refs, front)|)]
      else before
  }

  // ---- Sweeping ---------------------------------------------------------------------------

  /** Where a stretch of probes begins: the next call, the next number, and what counts as a control. */
  datatype Sweep = Sweep(script: Script, base: nat, start: nat, tag: Tag, controls: seq<Capability>) {
    function After(n: nat): Sweep {
      this.(base := base + n, start := start + n)
    }
  }

  /** A probe stops the matrix by raising, or by a control capability not being allowed. */
  function AskError(s: Sweep, i: nat, q: Request): Option<RunError> {
    var answer := s.script.probes(s.base + i);
    if answer.Err? then Some(answer.error)
    else if q.capability in s.controls && !answer.value.outcome.Allowed? then Some(RunError.ControlCapabilityFailed)
    else None
  }

  function FirstError(s: Sweep, requests: seq<Request>): Option<RunError> {
    if requests == [] then
      None
    else
      var before := FirstError(s, requests[..|requests| - 1]);
      if before.Some? then before else AskError(s, |requests| - 1, requests[|requests| - 1])
  }

  lemma {:induction false} FirstErrorFrom(s: Sweep, requests: seq<Request>)
    ensures FirstError(s, requests).Some? ==>
              FromProvider(s.script, FirstError(s, requests).value) ||
              FirstError(s, requests).value == RunError.ControlCapabilityFailed
  {
    if requests != [] {
      FirstErrorFrom(s, requests[..|requests| - 1]);
      var answer := s.script.probes(s.base + |requests| - 1);
      if answer.Err? { assert Raises(s.script, s.base + |requests| - 1, answer.error); }
    }
  }

  lemma {:induction false} FirstErrorConcat(s: Sweep, a: seq<Request>, b: seq<Request>)
    ensures FirstError(s, a + b) == var first := FirstError(s, a);
            if first.Some? then first else FirstError(s.After(|a|), b)
  {
    if b == [] {
      assert a + b == a;
    } else {
      assert (a + b)[..|a + b| - 1] == a + b[..|b| - 1];
      FirstErrorConcat(s, a, b[..|b| - 1]);
    }
  }

  /** The requests were probed up to the first that stops the matrix, and recorded if none does. */
  ghost predicate Swept(s: Sweep, requests: seq<Request>, r: Result<seq<Observation>, RunError>) {
    var error := FirstError(s, requests);
    if error.Some? then
      r == Err(error.value)
    else
      r.Ok? && |r.value| == |requests| && Recorded(s.script, s.base, s.start, s.tag, requests, r.value)
  }

  lemma SweptOn(s: Sweep, a: seq<Request>, x: seq<Observation>, b: seq<Request>, r: Result<seq<Observation>, RunError>)
    requires Swept(s, a, Ok(x)) && Swept(s.After(|a|), b, r)
    ensures Swept(s, a + b, if r.Err? then r else Ok(x + r.value))
  {
    hide FirstError, Recorded;
    FirstErrorConcat(s, a, b);
    if r.Ok? { RecordedAfter(s.script, s.base, s.start, s.tag, a, x, b, r.value); }
  }

  lemma SweptLength(s: Sweep, requests: seq<Request>, x: seq<Observation>)
    requires Swept(s, requests, Ok(x))
    ensures |x| == |requests|
  {
  }

  lemma SweptStops(s: Sweep, a: seq<Request>, b: seq<Request>, r: Result<seq<Observation>, RunError>)
    requires Swept(s, a, r) && r.Err?
    ensures Swept(s, a + b, r)
  {
    FirstErrorConcat(s, a, b);
  }

  // ---- One cell -----------------------------------------------------------------------------

  /** One probe of a sweep. */
  method AskOne(adapter: Adapter, ghost s: Sweep, tag: Tag, controls: seq<Capability>, q: Request,
                sequence: nat) returns (r: Result<Observation, RunError>)
    requires s == Sweep(adapter.script, adapter.calls, sequence, tag, controls)
    modifies adapter`calls, adapter`probed
    ensures adapter.calls == old(adapter.calls) + 1
    ensures Swept(s, [q], if r.Err? then Err(r.error) else Ok([r.value]))
  {
    r := Ask(adapter, tag, q, sequence);
    assert [q][..0] == [];
    if r.Ok? && q.capability in controls && !r.value.outcome.Allowed? {
      return Err(RunError.ControlCapabilityFailed);
    }
  }

  /** The first k of these requests have been answered. */
  ghost predicate Going(s: Sweep, all: seq<Request>, k: nat, seen: seq<Observation>) {
    k == |seen| <= |all| && Swept(s, all[..k], Ok(seen))
  }

  lemma GoesOn(s: Sweep, all: seq<Request>, k: nat, seen: seq<Observation>, r: Result<Observation, RunError>)
    requires Going(s, all, k, seen) && k < |all|
    requires Swept(s.After(k), [all[k]], if r.Err? then Err(r.error) else Ok([r.value]))
    ensures r.Ok? ==> Going(s, all, k + 1, seen + [r.value])
    ensures r.Err? ==> Swept(s, all, Err(r.error))
  {
    hide Swept;
    assert all[..k] + [all[k]] == all[..k + 1];
    SweptOn(s, all[..k], seen, [all[k]], if r.Err? then Err(r.error) else Ok([r.value]));
    if r.Err? {
      SweptStops(s, all[..k + 1], all[k + 1..], Err(r.error));
      assert all[..k + 1] + all[k + 1..] == all;
    }
  }

  lemma AllAnswered(s: Sweep, all: seq<Request>, seen: seq<Observation>)
    requires Going(s, all, |all|, seen)
    ensures Swept(s, all, Ok(seen)) && |seen| == |all|
  {
    assert all[..|all|] == all;
  }

  /** Every control capability is probed once and must be allowed. */
  method Calibrate(adapter: Adapter, ghost s: Sweep, tag: Tag, controls: seq<Capability>, id: IdentityId, sequence: nat)
    returns (r: Result<seq<Observation>, RunError>)
    requires s == Sweep(adapter.script, adapter.calls, sequence, tag, controls)
    modifies adapter`calls, adapter`probed
    ensures Swept(s, Calibrations(id, controls), r)
    ensures r.Ok? ==> |r.value| == |controls| && adapter.calls == old(adapter.calls) + |controls|
  {
    var observations: seq<Observation> := [];
    ghost var all := Calibrations(id, controls);
    for k := 0 to |controls|
      invariant adapter.calls == old(adapter.calls) + k && Going(s, all, k, observations)
    {
      var asked := AskOne(adapter, s.After(k), tag, controls, Request(id, controls[k], 1), sequence + |observations|);
      GoesOn(s, all, k, observations, asked);
      if asked.Err? {
        return Err(asked.error);
      }
      observations := observations + [asked.value];
    }
    AllAnswered(s, all, observations);
    return Ok(observations);
  }

  /** Every trial of one capability. */
  method ProbeTrials(adapter: Adapter, ghost s: Sweep, tag: Tag, controls: seq<Capability>, id: IdentityId,
                     c: Capability, trials: nat, sequence: nat)
    returns (r: Result<seq<Observation>, RunError>)
    requires s == Sweep(adapter.script, adapter.calls, sequence, tag, controls)
    modifies adapter`calls, adapter`probed
    ensures Swept(s, Trials(id, c, trials), r)
    ensures r.Ok? ==> |r.value| == trials && adapter.calls == old(adapter.calls) + trials
  {
    var observations: seq<Observation> := [];
    ghost var all := Trials(id, c, trials);
    for k := 0 to trials
      invariant adapter.calls == old(adapter.calls) + k && Going(s, all, k, observations)
    {
      var asked := AskOne(adapter, s.After(k), tag, controls, Request(id, c, k + 1), sequence + |observations|);
      GoesOn(s, all, k, observations, asked);
      if asked.Err? {
        return Err(asked.error);
      }
      observations := observations + [asked.value];
    }
    AllAnswered(s, all, observations);
    return Ok(observations);
  }

  // ---- One row ------------------------------------------------------------------------------

  lemma {:induction false} CellsPrefix(id: IdentityId, order: seq<Capability>, trials: nat,
                                       k: nat) returns (rest: seq<Request>)
    requires k <= |order|
    ensures Cells(id, order, trials) == Cells(id, order[..k], trials) + rest
    decreases |order|
  {
    if k == |order| {
      assert order[..k] == order;
      rest := [];
    } else {
      var front := order[..|order| - 1];
      assert front[..k] == order[..k];
      rest := CellsPrefix(id, front, trials, k);
      rest := rest + Trials(id, order[|order| - 1], trials);
    }
  }

  lemma NextCell(s: Sweep, id: IdentityId, order: seq<Capability>, trials: nat, k: nat, seen: seq<Observation>,
                 cell: Result<seq<Observation>, RunError>)
    requires k < |order| && Swept(s, Cells(id, order[..k], trials), Ok(seen))
    requires Swept(s.After(|seen|), Trials(id, order[k], trials), cell)
    ensures Swept(s, Cells(id, order[..k + 1], trials), if cell.Err? then cell else Ok(seen + cell.value))
    ensures cell.Err? ==> Swept(s, Cells(id, order, trials), cell)
  {
    assert order[..k + 1][..k] == order[..k];
    SweptOn(s, Cells(id, order[..k], trials), seen, Trials(id, order[k], trials), cell);
    if cell.Err? {
      var rest := CellsPrefix(id, order, trials, k + 1);
      SweptStops(s, Cells(id, order[..k + 1], trials), rest, cell);
    }
  }

  /** Every trial of every capability of one row. */
  method ProbeCells(adapter: Adapter, ghost s: Sweep, tag: Tag, controls: seq<Capability>, id: IdentityId,
                    order: seq<Capability>, trials: nat, sequence: nat)
    returns (r: Result<seq<Observation>, RunError>)
    requires s == Sweep(adapter.script, adapter.calls, sequence, tag, controls)
    modifies adapter`calls, adapter`probed
    ensures Swept(s, Cells(id, order, trials), r)
    ensures r.Ok? ==> adapter.calls == old(adapter.calls) + |r.value|
  {
    var observations: seq<Observation> := [];
    for k := 0 to |order|
      invariant adapter.calls == old(adapter.calls) + |observations|
      invariant Swept(s, Cells(id, order[..k], trials), Ok(observations))
    {
      var cell :=
        ProbeTrials(adapter, s.After(|observations|), tag, controls, id, order[k], trials, sequence + |observations|);
      NextCell(s, id, order, trials, k, observations, cell);
      if cell.Err? {
        return cell;
      }
      observations := observations + cell.value;
    }
    assert order[..|order|] == order;
    return Ok(observations);
  }

  /** Calibration first, then the shuffled rest; the order is announced in between. */
  method ProbeRow(adapter: Adapter, ghost s: Sweep, tag: Tag, controls: seq<Capability>, m: ProbeMatrix,
                  id: IdentityId, sequence: nat)
    returns (r: Result<seq<Observation>, RunError>, shuffled: Event)
    requires s == Sweep(adapter.script, adapter.calls, sequence, tag, controls)
    modifies adapter`calls, adapter`probed
    ensures Swept(s, Row(adapter.script, controls, m, id), r)
    ensures r.Ok? ==> adapter.calls == old(adapter.calls) + |r.value|
    ensures shuffled == Announced(adapter.script, controls, m, id, sequence)
  {
    hide Swept, Cells;
    var order := RowOrder(adapter.script, controls, m, id);
    shuffled := Event(sequence + |controls|, ProbeOrderShuffled(id, order));
    var calibration := Calibrate(adapter, s, tag, controls, id, sequence);
    if calibration.Err? {
      SweptStops(s, Calibrations(id, controls), Cells(id, order, m.trials), calibration);
      return calibration, shuffled;
    }
    var cells :=
      ProbeCells(adapter, s.After(|controls|), tag, controls, id, order, m.trials, sequence + |calibration.value|);
    SweptOn(s, Calibrations(id, controls), calibration.value, Cells(id, order, m.trials), cells);
    r := if cells.Err? then cells else Ok(calibration.value + cells.value);
  }

  // ---- The matrix ---------------------------------------------------------------------------

  lemma {:induction false} RequestsPrefix(script: Script, controls: seq<Capability>, m: ProbeMatrix,
                                          refs: set<IdentityId>, ids: seq<IdentityId>, k: nat)
    returns (rest: seq<Request>)
    requires k <= |ids|
    ensures Requests(script, controls, m, refs, ids) == Requests(script, controls, m, refs, ids[..k]) + rest
    decreases |ids|
  {
    hide Row;
    if k == |ids| {
      assert ids[..k] == ids;
      rest := [];
    } else {
      var front := ids[..|ids| - 1];
      assert front[..k] == ids[..k];
      rest := RequestsPrefix(script, controls, m, refs, front, k);
      rest := rest + (if ids[|ids| - 1] in refs then Row(script, controls, m, ids[|ids| - 1]) else []);
    }
  }

  /** The first k rows are done. */
  ghost predicate RowsDone(s: Sweep, m: ProbeMatrix, refs: set<IdentityId>, k: nat, observations: seq<Observation>,
                           events: seq<Event>)
    requires k <= |m.identities|
  {
    Swept(s, Requests(s.script, s.controls, m, refs, m.identities[..k]), Ok(observations)) &&
    |observations| == |Requests(s.script, s.controls, m, refs, m.identities[..k])| &&
    events == Shuffles(s.script, s.controls, m, refs, s.start, m.identities[..k])
  }

  lemma SkipRow(s: Sweep, m: ProbeMatrix, refs: set<IdentityId>, k: nat, observations: seq<Observation>,
                events: seq<Event>)
    requires k < |m.identities| && m.identities[k] !in refs && RowsDone(s, m, refs, k, observations, events)
    ensures RowsDone(s, m, refs, k + 1, observations, events)
  {
    assert m.identities[..k + 1][..k] == m.identities[..k];
  }

  lemma OneMoreRow(script: Script, controls: seq<Capability>, m: ProbeMatrix, refs: set<IdentityId>, start: nat, k: nat)
    requires k < |m.identities| && m.identities[k] in refs
    ensures var before := Requests(script, controls, m, refs, m.identities[..k]);
            Requests(script, controls, m, refs, m.identities[..k + 1]) ==
              before + Row(script, controls, m, m.identities[k]) &&
            Shuffles(script, controls, m, refs, start, m.identities[..k + 1]) ==
              Shuffles(script, controls, m, refs, start, m.identities[..k]) +
                [Announced(script, controls, m, m.identities[k], start + |before|)]
  {
    hide Row, Announced;
    assert m.identities[..k + 1][..k] == m.identities[..k];
  }

  lemma NextRow(s: Sweep, m: ProbeMatrix, refs: set<IdentityId>, k: nat, seen: seq<Observation>, events: seq<Event>,
                row: Result<seq<Observation>, RunError>, shuffled: Event)
    requires k < |m.identities| && m.identities[k] in refs && RowsDone(s, m, refs, k, seen, events)
    requires Swept(s.After(|seen|), Row(s.script, s.controls, m, m.identities[k]), row)
    requires shuffled == Announced(s.script, s.controls, m, m.identities[k], s.start + |seen|)
    ensures row.Ok? ==> RowsDone(s, m, refs, k + 1, seen + row.value, events + [shuffled])
    ensures row.Err? ==> Swept(s, Requests(s.script, s.controls, m, refs, m.identities), row)
  {
    hide Row, Announced, Recorded, FirstError, Requests, Shuffles, Swept;
    OneMoreRow(s.script, s.controls, m, refs, s.start, k);
    var before, own := Requests(s.script, s.controls, m, refs, m.identities[..k]),
      Row(s.script, s.controls, m, m.identities[k]);
    SweptOn(s, before, seen, own, row);
    if row.Err? {
      var rest := RequestsPrefix(s.script, s.controls, m, refs, m.identities, k + 1);
      SweptStops(s, before + own, rest, row);
    } else {
      SweptLength(s.After(|seen|), own, row.value);
    }
  }

  /** Whatever happens to the matrix, in one word: the error it raises, or its run. */
  ghost predicate MatrixOutcome(s: Sweep, m: ProbeMatrix, refs: set<IdentityId>, r: Result<MatrixRun, RunError>) {
    var asked := Requests(s.script, s.controls, m, refs, m.identities);
    var error := FirstError(s, asked);
    if error.Some? then
      r == Err(error.value)
    else
      r.Ok? && Recorded(s.script, s.base, s.start, s.tag, asked, r.value.observations) &&
      r.value.nextSequence == s.start + |asked| &&
      r.value.events == Shuffles(s.script, s.controls, m, refs, s.start, m.identities)
  }

  lemma AllRows(s: Sweep, m: ProbeMatrix, refs: set<IdentityId>, observations: seq<Observation>, events: seq<Event>)
    requires RowsDone(s, m, refs, |m.identities|, observations, events)
    ensures MatrixOutcome(s, m, refs, Ok(MatrixRun(observations, events, s.start + |observations|)))
  {
    assert m.identities[..|m.identities|] == m.identities;
  }

  method ProbeRows(adapter: Adapter, ghost s: Sweep, tag: Tag, controls: seq<Capability>, m: ProbeMatrix,
                   refs: set<IdentityId>, sequenceStart: nat)
    returns (r: Result<MatrixRun, RunError>)
    requires s == Sweep(adapter.script, adapter.calls, sequenceStart, tag, controls)
    modifies adapter`calls, adapter`probed
    ensures MatrixOutcome(s, m, refs, r)
    ensures r.Ok? ==> adapter.calls == old(adapter.calls) + |r.value.observations|
  {
    var observations: seq<Observation>, events: seq<Event> := [], [];
    for k := 0 to |m.identities|
      invariant adapter.calls == old(adapter.calls) + |observations| && RowsDone(s, m, refs, k, observations, events)
    {
      var id := m.identities[k];
      if id !in refs {
        SkipRow(s, m, refs, k, observations, events);
        continue;
      }
      var row, shuffled :=
        ProbeRow(adapter, s.After(|observations|), tag, controls, m, id, sequenceStart + |observations|);
      NextRow(s, m, refs, k, observations, events, row, shuffled);
      if row.Err? {
        return Err(row.error);
      }
      events := events + [shuffled];
      observations := observations + row.value;
    }
    AllRows(s, m, refs, observations, events);
    return Ok(MatrixRun(observations, events, sequenceStart + |observations|));
  }

  /**
   Preconditions once, then row by row. The matrix raises at exactly the first probe that stops it;
   otherwise every request of every row is recorded, in order and without gaps.
   */
  method RunProbeMatrix(adapter: Adapter, m: ProbeMatrix, refs: set<IdentityId>, controls: seq<Capability>,
                        phase: PlanPhase, sequenceStart: nat)
    returns (r: Result<MatrixRun, RunError>)
    modifies adapter`calls, adapter`probed
    ensures r.Ok? ==> adapter.calls == old(adapter.calls) + 1 + |r.value.observations|
    ensures var verified := adapter.script.checks(old(adapter.calls));
            if verified.Err? then r == Err(verified.error)
            else MatrixOutcome(Sweep(adapter.script, old(adapter.calls) + 1, sequenceStart, Tag(phase, m.matrixId),
                                     controls), m, refs, r)
  {
    var verified := adapter.Check();
    if verified.Err? {
      return Err(verified.error);
    }
    var tag := Tag(phase, m.matrixId);
    r := ProbeRows(adapter, Sweep(adapter.script, adapter.calls, sequenceStart, tag, controls), tag, controls, m, refs,
                   sequenceStart);
  }

  // ---- What a run of it leaves ------------------------------------------------------------------

  lemma WithinSnoc(events: seq<Event>, low: nat, high: nat, e: Event, high': nat)
    requires EventsWithin(events, low, high) && high <= e.sequence <= high'
    ensures EventsWithin(events + [e], low, high')
  {
  }

  lemma RowCalibrates(script: Script, controls: seq<Capability>, m: ProbeMatrix, id: IdentityId)
    ensures |Row(script, controls, m, id)| >= |controls|
  {
  }

  lemma ShufflesSnoc(script: Script, controls: seq<Capability>, m: ProbeMatrix, refs: set<IdentityId>, start: nat,
                     ids: seq<IdentityId>)
    requires ids != []
    ensures var front, last := ids[..|ids| - 1], ids[|ids| - 1];
            var n, row := |Requests(script, controls, m, refs, front)|, |Row(script, controls, m, last)|;
            |Requests(script, controls, m, refs, ids)| == n + (if last in refs then row else 0) && row >= |controls| &&
            Shuffles(script, controls, m, refs, start, ids) ==
              if last in refs then
                Shuffles(script, controls, m, refs, start, front) + [Announced(script, controls, m, last, start + n)]
              else Shuffles(script, controls, m, refs, start, front)
  {
    hide Row, RowOrder, Announced, Shuffled, Without, Cells, Trials, Calibrations;
    RowCalibrates(script, controls, m, ids[|ids| - 1]);
  }

  lemma {:induction false} ShufflesWithin(script: Script, controls: seq<Capability>, m: ProbeMatrix,
                                          refs: set<IdentityId>, start: nat, ids: seq<IdentityId>)
    ensures EventsWithin(Shuffles(script, controls, m, refs, start, ids), start,
                         start + |Requests(script, controls, m, refs, ids)|)
  {
    if ids != [] {
      var front, last := ids[..|ids| - 1], ids[|ids| - 1];
      ShufflesWithin(script, controls, m, refs, start, front);
      ShufflesSnoc(script, controls, m, refs, start, ids);
      var before := start + |Requests(script, controls, m, refs, front)|;
      if last in refs {
        WithinSnoc(Shuffles(script, controls, m, refs, start, front), start, before,
                   Announced(script, controls, m, last, before), before + |Row(script, controls, m, last)|);
      }
    }
  }

  lemma {:induction false} OnlyShuffles(script: Script, controls: seq<Capability>, m: ProbeMatrix,
                                        refs: set<IdentityId>, start: nat, ids: seq<IdentityId>)
    ensures forall e :: e in Shuffles(script, controls, m, refs, start, ids) ==> e.body.ProbeOrderShuffled?
  {
    if ids != [] { OnlyShuffles(script, controls, m, refs, start, ids[..|ids| - 1]); }
  }

  /** Observation numbers are contiguous; a shuffle event shares its number with the observation after it. */
  lemma MatrixNumbered(s: Sweep, m: ProbeMatrix, refs: set<IdentityId>, run: MatrixRun)
    requires MatrixOutcome(s, m, refs, Ok(run))
    ensures ObservationsWithin(run.observations, s.start, run.nextSequence)
    ensures EventsWithin(run.events, s.start, run.nextSequence)
    ensures forall i :: 0 <= i < |run.observations| ==> run.observations[i].sequence == s.start + i
  {
    RecordedWithin(s.script, s.base, s.start, s.tag, Requests(s.script, s.controls, m, refs, m.identities),
                   run.observations);
    ShufflesWithin(s.script, s.controls, m, refs, s.start, m.identities);
  }

  lemma {:induction false} TrialsCount(id: IdentityId, c: Capability, n: nat, q: Request)
    ensures multiset(Trials(id, c, n))[q] == if q.identityId == id && q.capability == c && 1 <= q.trial <= n then
            1 else 0
  {
    if n > 0 {
      TrialsCount(id, c, n - 1, q);
      assert Trials(id, c, n) == Trials(id, c, n - 1) + [Request(id, c, n)];
    }
  }

  lemma {:induction false} CellsCount(id: IdentityId, order: seq<Capability>, trials: nat, q: Request)
    ensures multiset(Cells(id, order, trials))[q] == if q.identityId == id && 1 <= q.trial <= trials then
            multiset(order)[q.capability] else 0
  {
    if order != [] {
      var front, last := order[..|order| - 1], order[|order| - 1];
      CellsCount(id, front, trials, q);
      TrialsCount(id, last, trials, q);
      assert order == front + [last];
    }
  }

  lemma {:induction false} WithoutCount(capabilities: seq<Capability>, controls: seq<Capability>, c: Capability)
    ensures multiset(Without(capabilities, controls))[c] == if c in controls then 0 else multiset(capabilities)[c]
  {
    if capabilities != [] {
      WithoutCount(capabilities[..|capabilities| - 1], controls, c);
      assert capabilities == capabilities[..|capabilities| - 1] + [capabilities[|capabilities| - 1]];
    }
  }

  lemma RowCount(script: Script, controls: seq<Capability>, m: ProbeMatrix, id: IdentityId, q: Request)
    requires q.capability !in controls
    ensures multiset(Row(script, controls, m, id))[q] ==
            if q.identityId == id && 1 <= q.trial <= m.trials then multiset(m.capabilities)[q.capability] else 0
  {
    CellsCount(id, RowOrder(script, controls, m, id), m.trials, q);
    WithoutCount(m.capabilities, controls, q.capability);
    assert q !in Calibrations(id, controls);
  }

  /** How often the matrix lists a trial: the materialized identity times the capability. */
  function TimesListed(m: ProbeMatrix, refs: set<IdentityId>, ids: seq<IdentityId>, q: Request): nat {
    if q.identityId in refs && 1 <= q.trial <= m.trials then
      multiset(ids)[q.identityId] * multiset(m.capabilities)[q.capability] else 0
  }

  lemma OneMoreTime(n: nat, k: nat)
    ensures (n + 1) * k == n * k + k
  {
  }

  lemma ListedOnceMore(m: ProbeMatrix, refs: set<IdentityId>, ids: seq<IdentityId>, last: IdentityId, q: Request)
    ensures TimesListed(m, refs, ids + [last], q) ==
            TimesListed(m, refs, ids, q) +
            (if q.identityId == last && last in refs && 1 <= q.trial <= m.trials then
             multiset(m.capabilities)[q.capability] else 0)
  {
    OneMoreTime(multiset(ids)[q.identityId], multiset(m.capabilities)[q.capability]);
  }

  lemma NothingAsked(script: Script, controls: seq<Capability>, m: ProbeMatrix, refs: set<IdentityId>, q: Request)
    ensures multiset(Requests(script, controls, m, refs, []))[q] == TimesListed(m, refs, [], q) == 0
  {
  }

  lemma AllRequestsOf(script: Script, controls: seq<Capability>, m: ProbeMatrix, refs: set<IdentityId>,
                      ids: seq<IdentityId>, q: Request)
    requires ids != []
    ensures var last := ids[|ids| - 1];
            multiset(Requests(script, controls, m, refs, ids))[q] ==
            multiset(Requests(script, controls, m, refs, ids[..|ids| - 1]))[q] +
            (if last in refs then multiset(Row(script, controls, m, last))[q] else 0)
  {
    hide Row;
  }

  /**
   Whatever the shuffles draw, every trial 1..T of every non-control capability of every materialized
   identity is asked exactly as often as the matrix lists the pair, and nothing else is.
   */
  lemma {:induction false} EveryTrialAsked(script: Script, controls: seq<Capability>, m: ProbeMatrix,
                                           refs: set<IdentityId>, ids: seq<IdentityId>, q: Request)
    requires q.capability !in controls
    ensures multiset(Requests(script, controls, m, refs, ids))[q] == TimesListed(m, refs, ids, q)
  {
    hide Requests, Row, TimesListed;
    if ids == [] {
      NothingAsked(script, controls, m, refs, q);
    } else {
      var front, last := ids[..|ids| - 1], ids[|ids| - 1];
      EveryTrialAsked(script, controls, m, refs, front, q);
      RowCount(script, controls, m, last, q);
      AllRequestsOf(script, controls, m, refs, ids, q);
      ListedOnceMore(m, refs, front, last, q);
      assert ids == front + [last];
    }
  }
}
