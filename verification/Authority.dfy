/** Observations become cells by unanimity, and cells become each identity's observed authority. */
module Authority {
  import opened Wrappers
  import opened Outcomes
  import opened Models
  import opened Sorting

  datatype CellKey = CellKey(identityId: IdentityId, capabilityId: Capability, phase: PlanPhase)

  /** The trials of one cell in trial order, with the observations they came from. */
  datatype CellResult = CellResult(trials: seq<OutcomeClass>, refs: seq<nat>)

  // ---- Resolution -------------------------------------------------------------

  predicate AllAllowed(trials: seq<OutcomeClass>) {
    forall t :: t in trials ==> t.Allowed?
  }

  predicate AllDenials(trials: seq<OutcomeClass>) {
    forall t :: t in trials ==> t.IsDenial()
  }

  predicate AllErrors(trials: seq<OutcomeClass>) {
    forall t :: t in trials ==> t.IsError()
  }

  predicate Unanimous(trials: seq<OutcomeClass>)
    requires trials != []
  {
    forall t :: t in trials ==> t == trials[0]
  }

  function Resolved(trials: seq<OutcomeClass>): OutcomeClass
    requires trials != []
  {
    if AllAllowed(trials) then Allowed
    else if AllDenials(trials) then (if Unanimous(trials) then trials[0] else DeniedUnattributed)
    else if AllErrors(trials) then trials[0]
    else Indeterminate
  }

  /** Why an outcome that is neither ALLOWED nor a denial could not be classified. */
  const EXCLUSION_BY_OUTCOME: map<OutcomeClass, ExclusionReason> := map[
    Indeterminate := TrialsDisagreed,
    ErrorTransient := TransientErrorsExhausted,
    ErrorInfrastructure := InfrastructureError,
    ErrorResourceMissing := InfrastructureError
  ]

  /** The lookup never misses: a resolved outcome is ALLOWED, a denial, or has a reason. */
  function ResolveCell(cell: CellResult): (OutcomeClass, Option<ExclusionReason>)
    requires cell.trials != []
  {
    var resolved := Resolved(cell.trials);
    if resolved.Allowed? || resolved.IsDenial() then
      (resolved, None) else (resolved, Some(EXCLUSION_BY_OUTCOME[resolved]))
  }

  /** Only unanimity is a positive or a negative measurement; everything else is an exclusion. */
  lemma ResolutionIs(cell: CellResult)
    requires cell.trials != []
    ensures ResolveCell(cell).0.Allowed? <==> AllAllowed(cell.trials)
    ensures ResolveCell(cell).0.IsDenial() <==> AllDenials(cell.trials)
    ensures ResolveCell(cell).1.Some? <==> !AllAllowed(cell.trials) && !AllDenials(cell.trials)
  {
    var t := cell.trials[0];
    assert t in cell.trials;
  }

  // ---- Aggregation --------------------------------------------------------------

  function KeyOf(o: Observation): CellKey {
    CellKey(o.identityId, o.capabilityId, o.phase)
  }

  function Trial(o: Observation): int {
    o.trial
  }

  function Keyed(observations: seq<Observation>, key: CellKey): seq<Observation> {
    if observations == [] then
      []
    else
      var o := observations[|observations| - 1];
      Keyed(observations[..|observations| - 1], key) + (if KeyOf(o) == key then [o] else [])
  }

  function Keys(observations: seq<Observation>): set<CellKey> {
    set o | o in observations :: KeyOf(o)
  }

  function OutcomesOf(observations: seq<Observation>): (r: seq<OutcomeClass>)
    ensures |r| == |observations|
  {
    seq(|observations|, i requires 0 <= i < |observations| => observations[i].outcome)
  }

  function RefsOf(observations: seq<Observation>): (r: seq<nat>)
    ensures |r| == |observations|
  {
    seq(|observations|, i requires 0 <= i < |observations| => observations[i].sequence)
  }

  function CellFrom(observations: seq<Observation>): CellResult {
    var ordered := SortBy(Trial, observations);
    CellResult(OutcomesOf(ordered), RefsOf(ordered))
  }

  /** One cell per key present, from the observations with that key. */
  function Cells(observations: seq<Observation>): map<CellKey, CellResult> {
    map key | key in Keys(observations) :: CellFrom(Keyed(observations, key))
  }

  lemma {:induction false} KeyedExact(observations: seq<Observation>, key: CellKey)
    ensures forall o :: o in Keyed(observations, key) <==> o in observations && KeyOf(o) == key
    ensures key in Keys(observations) <==> Keyed(observations, key) != []
  {
    if observations != [] {
      var front, last := observations[..|observations| - 1], observations[|observations| - 1];
      KeyedExact(front, key);
      assert observations == front + [last];
      if key in Keys(observations) {
        var o :| o in observations && KeyOf(o) == key;
        assert o in Keyed(observations, key);
      }
      if Keyed(observations, key) != [] {
        var o := Keyed(observations, key)[0];
        assert o in observations && KeyOf(o) == key;
      }
    }
  }

  ghost predicate Grouped(observations: seq<Observation>, groups: map<CellKey, seq<Observation>>) {
    groups.Keys == Keys(observations) && forall key :: key in groups ==> groups[key] == Keyed(observations, key)
  }

  lemma KeysSnoc(observations: seq<Observation>, o: Observation)
    ensures Keys(observations + [o]) == Keys(observations) + {KeyOf(o)}
  {
    var all := observations + [o];
    forall key ensures key in Keys(all) <==> key in Keys(observations) + {KeyOf(o)} {
      if key in Keys(observations) {
        var p :| p in observations && KeyOf(p) == key;
        assert p in all;
      }
      assert o in all;
    }
  }

  lemma KeyedSnoc(observations: seq<Observation>, o: Observation, key: CellKey)
    ensures Keyed(observations + [o], key) == Keyed(observations, key) + (if KeyOf(o) == key then [o] else [])
    ensures key !in Keys(observations) ==> Keyed(observations, key) == []
  {
    assert (observations + [o])[..|observations|] == observations;
    KeyedExact(observations, key);
  }

  lemma GroupOne(observations: seq<Observation>, groups: map<CellKey, seq<Observation>>, o: Observation)
    requires Grouped(observations, groups)
    ensures Grouped(observations + [o], groups[KeyOf(o) := (if KeyOf(o) in groups then groups[KeyOf(o)] else []) + [o]])
  {
    hide Keyed, Keys, KeyOf;
    var after := groups[KeyOf(o) := (if KeyOf(o) in groups then groups[KeyOf(o)] else []) + [o]];
    KeysSnoc(observations, o);
    forall key | key in after ensures after[key] == Keyed(observations + [o], key) {
      KeyedSnoc(observations, o, key);
    }
  }

  method AggregateObservations(observations: seq<Observation>) returns (cells: map<CellKey, CellResult>)
    ensures cells == Cells(observations)
  {
    hide Grouped, KeyOf;
    var groups: map<CellKey, seq<Observation>> := map[];
    GroupNothing();
    for k := 0 to |observations|
      invariant Grouped(observations[..k], groups)
    {
      var o := observations[k];
      GroupOne(observations[..k], groups, o);
      assert observations[..k + 1] == observations[..k] + [o];
      groups := groups[KeyOf(o) := (if KeyOf(o) in groups then groups[KeyOf(o)] else []) + [o]];
    }
    assert observations[..|observations|] == observations;
    cells := map key | key in groups :: CellFrom(groups[key]);
    GroupsAreCells(observations, groups);
  }

  lemma GroupNothing()
    ensures Grouped([], map[])
  {
  }

  lemma GroupsAreCells(observations: seq<Observation>, groups: map<CellKey, seq<Observation>>)
    requires Grouped(observations, groups)
    ensures (map key | key in groups :: CellFrom(groups[key])) == Cells(observations)
  {
  }

  /** Aggregation loses and invents nothing: a cell's trials are the outcomes observed for its key. */
  lemma AggregationConserves(observations: seq<Observation>, key: CellKey)
    requires key in Keys(observations)
    ensures multiset(Cells(observations)[key].trials) == multiset(OutcomesOf(Keyed(observations, key)))
    ensures Cells(observations)[key].trials != []
  {
    KeyedExact(observations, key);
    OutcomesPermute(SortBy(Trial, Keyed(observations, key)), Keyed(observations, key));
  }

  lemma WithoutOne(s: seq<Observation>, j: nat)
    requires j < |s|
    ensures multiset(s) == multiset(s[..j] + s[j + 1..]) + multiset{s[j]}
    ensures multiset(OutcomesOf(s)) == multiset(OutcomesOf(s[..j] + s[j + 1..])) + multiset{s[j].outcome}
  {
    assert s == s[..j] + [s[j]] + s[j + 1..];
    assert OutcomesOf(s) == OutcomesOf(s[..j]) + [s[j].outcome] + OutcomesOf(s[j + 1..]);
    assert OutcomesOf(s[..j] + s[j + 1..]) == OutcomesOf(s[..j]) + OutcomesOf(s[j + 1..]);
  }

  lemma RemainderSame(a: seq<Observation>, b: seq<Observation>, j: nat)
    requires multiset(a) == multiset(b) && a != [] && j < |b| && b[j] == a[0]
    ensures multiset(a[1..]) == multiset(b[..j] + b[j + 1..])
  {
    assert a == [a[0]] + a[1..];
    assert b == b[..j] + [b[j]] + b[j + 1..];
    assert multiset(a[1..]) == multiset(a) - multiset{a[0]};
    assert multiset(b[..j] + b[j + 1..]) == multiset(b) - multiset{a[0]};
  }

  lemma {:induction false} OutcomesPermute(a: seq<Observation>, b: seq<Observation>)
    requires multiset(a) == multiset(b)
    ensures multiset(OutcomesOf(a)) == multiset(OutcomesOf(b))
  {
    if a == [] {
      assert |multiset(b)| == 0;
    } else {
      assert a[0] in multiset(b);
      var j :| 0 <= j < |b| && b[j] == a[0];
      RemainderSame(a, b, j);
      OutcomesPermute(a[1..], b[..j] + b[j + 1..]);
      PutBack(a, b, j);
    }
  }

  lemma PutBack(a: seq<Observation>, b: seq<Observation>, j: nat)
    requires a != [] && j < |b| && b[j] == a[0]
    requires multiset(OutcomesOf(a[1..])) == multiset(OutcomesOf(b[..j] + b[j + 1..]))
    ensures multiset(OutcomesOf(a)) == multiset(OutcomesOf(b))
  {
    hide OutcomesOf;
    WithoutOne(a, 0);
    WithoutOne(b, j);
    assert a[..0] + a[1..] == a[1..];
  }

  // ---- Observed authority -----------------------------------------------------------

  /** Every cell has trials. */
  ghost predicate NonEmpty(cells: map<Capability, CellResult>) {
    forall c :: c in cells ==> cells[c].trials != []
  }

  /** What is known about one capability of the probe universe. */
  datatype Verdict = Held | Refused | Unclassified(reason: ExclusionReason)

  function VerdictOn(cells: map<Capability, CellResult>, c: Capability): Verdict
    requires NonEmpty(cells)
  {
    if c !in cells then
      Unclassified(NotProbed)
    else
      var (resolved, reason) := ResolveCell(cells[c]);
      if resolved.Allowed? then Held else if reason.None? then Refused else Unclassified(reason.value)
  }

  /** A capability is held or refused only on unanimous evidence. */
  lemma VerdictMeans(cells: map<Capability, CellResult>, c: Capability)
    requires NonEmpty(cells)
    ensures VerdictOn(cells, c).Held? <==> c in cells && AllAllowed(cells[c].trials)
    ensures VerdictOn(cells, c).Refused? <==> c in cells && AllDenials(cells[c].trials)
  {
    if c in cells { ResolutionIs(cells[c]); }
  }

  function HeldIn(universe: AuthoritySet, cells: map<Capability, CellResult>): AuthoritySet
    requires NonEmpty(cells)
  {
    set c | c in universe && VerdictOn(cells, c).Held?
  }

  function RefusedIn(universe: AuthoritySet, cells: map<Capability, CellResult>): AuthoritySet
    requires NonEmpty(cells)
  {
    set c | c in universe && VerdictOn(cells, c).Refused?
  }

  function ExcludedIn(universe: AuthoritySet, cells: map<Capability, CellResult>): map<Capability, ExclusionReason>
    requires NonEmpty(cells)
  {
    map c | c in universe && VerdictOn(cells, c).Unclassified? :: VerdictOn(cells, c).reason
  }

  function ObservedFrom(universe: AuthoritySet, cells: map<Capability, CellResult>, phase: PlanPhase,
                        matrixId: string): ObservedAuthority
    requires NonEmpty(cells)
  {
    ObservedAuthority(HeldIn(universe, cells), ExcludedIn(universe, cells), phase, matrixId, |universe|,
                      |HeldIn(universe, cells)| + |RefusedIn(universe, cells)|)
  }

  /** The probe universe splits into held, refused and excluded, and the counts say so. */
  lemma ObservedPartitions(universe: AuthoritySet, cells: map<Capability, CellResult>, phase: PlanPhase,
                           matrixId: string)
    requires NonEmpty(cells)
    ensures var r := ObservedFrom(universe, cells, phase, matrixId);
            var held, refused, excluded := r.capabilities, RefusedIn(universe, cells), r.excluded.Keys;
            universe == held + refused + excluded && held !! refused !! excluded &&
            r.classified <= r.attempted && r.attempted - r.classified == |r.excluded|
  {
    hide VerdictOn;
    var held, refused, excluded := HeldIn(universe, cells), RefusedIn(universe, cells),
      ExcludedIn(universe, cells).Keys;
    assert universe == held + refused + excluded;
    assert |universe| == |held + refused| + |excluded|;
    assert |held + refused| == |held| + |refused|;
    assert |ExcludedIn(universe, cells)| == |excluded|;
  }

  ghost predicate Classified(done: AuthoritySet, cells: map<Capability, CellResult>, held: AuthoritySet,
                             excluded: map<Capability, ExclusionReason>, classified: int)
    requires NonEmpty(cells)
  {
    held == HeldIn(done, cells) && excluded == ExcludedIn(done, cells) &&
    classified == |HeldIn(done, cells)| + |RefusedIn(done, cells)|
  }

  lemma VerdictOnOneMore(done: AuthoritySet, c: Capability, cells: map<Capability, CellResult>)
    requires NonEmpty(cells) && c !in done
    ensures VerdictOn(cells, c).Held? ==> HeldIn(done + {c}, cells) == HeldIn(done, cells) + {c}
    ensures VerdictOn(cells, c).Refused? ==> RefusedIn(done + {c}, cells) == RefusedIn(done, cells) + {c}
    ensures VerdictOn(cells, c).Unclassified? ==>
            ExcludedIn(done + {c}, cells) == ExcludedIn(done, cells)[c := VerdictOn(cells, c).reason]
    ensures !VerdictOn(cells, c).Held? ==> HeldIn(done + {c}, cells) == HeldIn(done, cells)
    ensures !VerdictOn(cells, c).Refused? ==> RefusedIn(done + {c}, cells) == RefusedIn(done, cells)
    ensures !VerdictOn(cells, c).Unclassified? ==> ExcludedIn(done + {c}, cells) == ExcludedIn(done, cells)
    ensures c !in HeldIn(done, cells) && c !in RefusedIn(done, cells)
  {
    hide VerdictOn;
  }

  lemma ClassifyOne(done: AuthoritySet, c: Capability, cells: map<Capability, CellResult>, held: AuthoritySet,
                    excluded: map<Capability, ExclusionReason>, classified: int)
    requires NonEmpty(cells) && c !in done && Classified(done, cells, held, excluded, classified)
    ensures match VerdictOn(cells, c)
            case Held => Classified(done + {c}, cells, held + {c}, excluded, classified + 1)
            case Refused => Classified(done + {c}, cells, held, excluded, classified + 1)
            case Unclassified(reason) => Classified(done + {c}, cells, held, excluded[c := reason], classified)
  {
    hide VerdictOn, HeldIn, RefusedIn, ExcludedIn;
    VerdictOnOneMore(done, c, cells);
  }

  lemma NothingClassified(cells: map<Capability, CellResult>)
    requires NonEmpty(cells)
    ensures Classified({}, cells, {}, map[], 0)
  {
  }

  /** What the loop does with one capability is what its verdict says. */
  lemma ClassifiedAsResolved(cells: map<Capability, CellResult>, c: Capability)
    requires NonEmpty(cells) && c in cells
    ensures var (resolved, reason) := ResolveCell(cells[c]);
            VerdictOn(cells, c) == if resolved.Allowed? then Held else if reason.None? then
              Refused else Unclassified(reason.value)
  {
  }

  /** The result does not depend on the order in which the universe is visited. */
  method BuildObservedAuthority(universe: AuthoritySet, cells: map<Capability, CellResult>, phase: PlanPhase,
                                matrixId: string)
    returns (r: ObservedAuthority)
    requires NonEmpty(cells)
    ensures r == ObservedFrom(universe, cells, phase, matrixId)
  {
    hide Classified, ResolveCell;
    NothingClassified(cells);
    var capabilities: AuthoritySet := {};
    var excluded: map<Capability, ExclusionReason> := map[];
    var classified := 0;
    var remaining := universe;
    ghost var done: AuthoritySet := {};
    while remaining != {}
      invariant remaining == universe - done && done <= universe
      invariant Classified(done, cells, capabilities, excluded, classified)
      decreases |remaining|
    {
      var c :| c in remaining;
      ClassifyOne(done, c, cells, capabilities, excluded, classified);
      remaining, done := remaining - {c}, done + {c};
      if c !in cells {
        excluded := excluded[c := NotProbed];
        continue;
      }
      ClassifiedAsResolved(cells, c);
      var (resolved, reason) := ResolveCell(cells[c]);
      if resolved.Allowed? {
        capabilities := capabilities + {c};
        classified := classified + 1;
      } else if reason.None? {
        classified := classified + 1;
      } else {
        excluded := excluded[c := reason.value];
      }
    }
    assert done == universe;
    AllClassified(universe, cells, capabilities, excluded, classified);
    return ObservedAuthority(capabilities, excluded, phase, matrixId, |universe|, classified);
  }

  lemma AllClassified(universe: AuthoritySet, cells: map<Capability, CellResult>, held: AuthoritySet,
                      excluded: map<Capability, ExclusionReason>, classified: int)
    requires NonEmpty(cells) && Classified(universe, cells, held, excluded, classified)
    ensures held == HeldIn(universe, cells) && excluded == ExcludedIn(universe, cells)
    ensures classified == |held| + |RefusedIn(universe, cells)|
  {
  }

  // ---- Populating a graph -------------------------------------------------------------

  function AtPhase(observations: seq<Observation>, phase: PlanPhase): seq<Observation> {
    if observations == [] then
      []
    else
      var o := observations[|observations| - 1];
      AtPhase(observations[..|observations| - 1], phase) + (if o.phase == phase then [o] else [])
  }

  /** One identity's cells at one phase, by capability. */
  function CellsOf(observations: seq<Observation>, id: IdentityId,
                   phase: PlanPhase): (cells: map<Capability, CellResult>)
    ensures NonEmpty(cells)
  {
    var all := AtPhase(observations, phase);
    var cells := map o | o in all &&
      o.identityId == id :: o.capabilityId := CellFrom(Keyed(all, CellKey(id, o.capabilityId, phase)));
    assert NonEmpty(cells) by { CellsNonEmpty(observations, id, phase); }
    cells
  }

  lemma {:induction false} AtPhaseExact(observations: seq<Observation>, phase: PlanPhase)
    ensures forall o :: o in AtPhase(observations, phase) <==> o in observations && o.phase == phase
  {
    if observations != [] {
      var front, last := observations[..|observations| - 1], observations[|observations| - 1];
      AtPhaseExact(front, phase);
      assert observations == front + [last];
    }
  }

  lemma CellsNonEmpty(observations: seq<Observation>, id: IdentityId, phase: PlanPhase)
    ensures var all := AtPhase(observations, phase);
            forall o :: o in all && o.identityId == id ==>
              CellFrom(Keyed(all, CellKey(id, o.capabilityId, phase))).trials != []
  {
    var all := AtPhase(observations, phase);
    AtPhaseExact(observations, phase);
    forall o | o in all && o.identityId == id
      ensures CellFrom(Keyed(all, CellKey(id, o.capabilityId, phase))).trials != []
    {
      KeyedExact(all, CellKey(id, o.capabilityId, phase));
      assert o in Keyed(all, CellKey(id, o.capabilityId, phase));
    }
  }

  /** The matrix the identity's first observation at the phase came from. */
  function MatrixIdOf(observations: seq<Observation>, id: IdentityId, phase: PlanPhase): string {
    if observations == [] then ""
    else if observations[0].phase == phase && observations[0].identityId == id then observations[0].probeMatrixId
    else MatrixIdOf(observations[1..], id, phase)
  }

  function NodePopulated(n: Node, observations: seq<Observation>, phase: PlanPhase): Node {
    var cells := CellsOf(observations, n.identityId, phase);
    if cells == map[] then n
    else n.(observed := Some(ObservedFrom(cells.Keys, cells, phase, MatrixIdOf(observations, n.identityId, phase))))
  }

  function Populated(g: Graph, observations: seq<Observation>, phase: PlanPhase): (r: Graph)
    ensures |r.nodes| == |g.nodes| && r.edges == g.edges
  {
    Graph(seq(|g.nodes|, i requires 0 <= i < |g.nodes| => NodePopulated(g.nodes[i], observations, phase)), g.edges)
  }

  method AtPhaseOnly(observations: seq<Observation>, phase: PlanPhase) returns (r: seq<Observation>)
    ensures r == AtPhase(observations, phase)
  {
    r := [];
    for k := 0 to |observations|
      invariant r == AtPhase(observations[..k], phase)
    {
      assert observations[..k + 1][..k] == observations[..k];
      if observations[k].phase == phase {
        r := r + [observations[k]];
      }
    }
    assert observations[..|observations|] == observations;
  }

  lemma CellsOfAggregate(observations: seq<Observation>, id: IdentityId, phase: PlanPhase, c: Capability)
    ensures var cells := Cells(AtPhase(observations, phase));
            CellKey(id, c, phase) in cells <==> c in CellsOf(observations, id, phase)
    ensures c in CellsOf(observations, id, phase) ==>
              CellsOf(observations, id, phase)[c] == Cells(AtPhase(observations, phase))[CellKey(id, c, phase)]
  {
    AtPhaseExact(observations, phase);
    KeyedExact(AtPhase(observations, phase), CellKey(id, c, phase));
  }

  lemma AggregateAtPhase(observations: seq<Observation>, phase: PlanPhase)
    ensures forall key :: key in Cells(AtPhase(observations, phase)) ==> key.phase == phase
  {
    AtPhaseExact(observations, phase);
  }

  /** The dictionary of one identity's cells, picked out of the aggregated ones. */
  method CellsByIdentity(cells: map<CellKey, CellResult>, id: IdentityId, phase: PlanPhase,
                         ghost observations: seq<Observation>)
    returns (r: map<Capability, CellResult>)
    requires cells == Cells(AtPhase(observations, phase))
    ensures r == CellsOf(observations, id, phase)
  {
    AggregateAtPhase(observations, phase);
    hide Cells, CellsOf, AtPhase;
    r := map key | key in cells && key.identityId == id :: key.capabilityId := cells[key];
    forall c ensures CellKey(id, c, phase) in cells <==> c in CellsOf(observations, id, phase) {
      CellsOfAggregate(observations, id, phase, c);
    }
    forall c ensures c in r <==> CellKey(id, c, phase) in cells {}
    forall c | c in r ensures r[c] == CellsOf(observations, id, phase)[c] {
      CellsOfAggregate(observations, id, phase, c);
    }
  }

  // ---- Reading the observations themselves -------------------------------------------------

  /** One trial of a capability by an identity at a phase. */
  predicate Tries(o: Observation, id: IdentityId, phase: PlanPhase, c: Capability) {
    o.identityId == id && o.phase == phase && o.capabilityId == c
  }

  ghost predicate Tried(observations: seq<Observation>, id: IdentityId, phase: PlanPhase, c: Capability) {
    exists o :: o in observations && Tries(o, id, phase, c)
  }

  ghost predicate AlwaysAllowed(observations: seq<Observation>, id: IdentityId, phase: PlanPhase, c: Capability) {
    forall o :: o in observations && Tries(o, id, phase, c) ==> o.outcome.Allowed?
  }

  ghost predicate AlwaysDenied(observations: seq<Observation>, id: IdentityId, phase: PlanPhase, c: Capability) {
    forall o :: o in observations && Tries(o, id, phase, c) ==> o.outcome.IsDenial()
  }

  ghost predicate AlwaysError(observations: seq<Observation>, id: IdentityId, phase: PlanPhase, c: Capability) {
    forall o :: o in observations && Tries(o, id, phase, c) ==> o.outcome.IsError()
  }

  ghost predicate NeverError(observations: seq<Observation>, id: IdentityId, phase: PlanPhase, c: Capability) {
    forall o :: o in observations && Tries(o, id, phase, c) ==> !o.outcome.IsError()
  }

  /** No two trials came out differently. */
  ghost predicate Agreed(observations: seq<Observation>, id: IdentityId, phase: PlanPhase, c: Capability) {
    forall o, p :: o in observations && p in observations && Tries(o, id, phase, c) && Tries(p, id, phase, c) ==>
                     o.outcome == p.outcome
  }

  /** The observations behind one cell. */
  ghost function TrialsOf(observations: seq<Observation>, id: IdentityId, phase: PlanPhase,
                          c: Capability): seq<Observation> {
    Keyed(AtPhase(observations, phase), CellKey(id, c, phase))
  }

  lemma TrialsAre(observations: seq<Observation>, id: IdentityId, phase: PlanPhase, c: Capability)
    ensures forall o :: o in TrialsOf(observations, id, phase, c) <==> o in observations && Tries(o, id, phase, c)
    ensures c in CellsOf(observations, id, phase) <==> TrialsOf(observations, id, phase, c) != []
    ensures c in CellsOf(observations, id, phase) ==>
              CellsOf(observations, id, phase)[c] == CellFrom(TrialsOf(observations, id, phase, c))
  {
    AtPhaseExact(observations, phase);
    KeyedExact(AtPhase(observations, phase), CellKey(id, c, phase));
    CellsOfAggregate(observations, id, phase, c);
  }

  lemma SortedMembers(s: seq<Observation>)
    ensures forall o :: o in SortBy(Trial, s) <==> o in s
    ensures |SortBy(Trial, s)| == |s|
  {
    var ordered := SortBy(Trial, s);
    forall o ensures o in ordered <==> o in s { assert o in ordered <==> o in multiset(ordered); }
    assert |multiset(ordered)| == |ordered| && |multiset(s)| == |s|;
  }

  lemma OutcomesAre(s: seq<Observation>)
    ensures forall t :: t in OutcomesOf(s) <==> exists o :: o in s && o.outcome == t
  {
    forall i | 0 <= i < |s| ensures OutcomesOf(s)[i] == s[i].outcome && s[i] in s {}
    forall o | o in s ensures o.outcome in OutcomesOf(s) {
      var i :| 0 <= i < |s| && s[i] == o;
      assert OutcomesOf(s)[i] == o.outcome;
    }
  }

  lemma RefsAre(s: seq<Observation>)
    ensures forall k :: k in RefsOf(s) <==> exists o :: o in s && o.sequence == k
  {
    forall i | 0 <= i < |s| ensures RefsOf(s)[i] == s[i].sequence && s[i] in s {}
    forall o | o in s ensures o.sequence in RefsOf(s) {
      var i :| 0 <= i < |s| && s[i] == o;
      assert RefsOf(s)[i] == o.sequence;
    }
  }

  lemma CellMembers(s: seq<Observation>)
    ensures forall t :: t in CellFrom(s).trials <==> exists o :: o in s && o.outcome == t
    ensures forall k :: k in CellFrom(s).refs <==> exists o :: o in s && o.sequence == k
    ensures |CellFrom(s).trials| == |s|
  {
    hide SortBy, OutcomesOf, RefsOf;
    SortedMembers(s);
    OutcomesAre(SortBy(Trial, s));
    RefsAre(SortBy(Trial, s));
  }

  /** What a cell says, read on the observations. */
  lemma CellReads(observations: seq<Observation>, id: IdentityId, phase: PlanPhase, c: Capability)
    ensures var cells := CellsOf(observations, id, phase);
            (c in cells <==> Tried(observations, id, phase, c)) &&
            (c in cells ==>
               cells[c].trials != [] &&
               (AllAllowed(cells[c].trials) <==> AlwaysAllowed(observations, id, phase, c)) &&
               (AllDenials(cells[c].trials) <==> AlwaysDenied(observations, id, phase, c)) &&
               (AllErrors(cells[c].trials) <==> AlwaysError(observations, id, phase, c)))
  {
    var s := TrialsOf(observations, id, phase, c);
    TrialsAre(observations, id, phase, c);
    CellMembers(s);
    hide TrialsOf, CellsOf, CellFrom;
    if s != [] { assert s[0] in s; }
  }

  /** How evenly the trials of a cell came out, and their numbers. */
  lemma CellAgrees(observations: seq<Observation>, id: IdentityId, phase: PlanPhase, c: Capability)
    requires c in CellsOf(observations, id, phase)
    ensures var cell := CellsOf(observations, id, phase)[c];
            cell.trials != [] && (Unanimous(cell.trials) <==> Agreed(observations, id, phase, c)) &&
            ((forall t :: t in cell.trials ==> !t.IsError()) <==> NeverError(observations, id, phase, c)) &&
            forall k :: k in cell.refs <==> exists o :: o in observations && Tries(o, id, phase, c) && o.sequence == k
  {
    var s := TrialsOf(observations, id, phase, c);
    TrialsAre(observations, id, phase, c);
    CellMembers(s);
    hide TrialsOf, CellsOf, CellFrom;
    var trials := CellsOf(observations, id, phase)[c].trials;
    if Agreed(observations, id, phase, c) {
      assert trials[0] in trials;
      forall t | t in trials ensures t == trials[0] {}
    }
    if Unanimous(trials) {
      forall o, p | o in s && p in s ensures o.outcome == p.outcome {
        assert o.outcome in trials && p.outcome in trials;
      }
    }
  }

  /** The trial with the least number, of those the one observed first. */
  ghost predicate FirstTrial(observations: seq<Observation>, id: IdentityId, phase: PlanPhase, c: Capability, i: int) {
    0 <= i < |observations| && Tries(observations[i], id, phase, c) &&
    forall j :: 0 <= j < |observations| && Tries(observations[j], id, phase, c) ==>
                  observations[i].trial < observations[j].trial ||
                  (observations[i].trial == observations[j].trial && i <= j)
  }

  /** Trials that disagree are excluded as such; if all are errors, the first one's kind is the reason. */
  ghost predicate ReasonIs(reason: ExclusionReason, observations: seq<Observation>, id: IdentityId, phase: PlanPhase,
                           c: Capability) {
    if !AlwaysError(observations, id, phase, c) then
      reason == TrialsDisagreed
    else
      exists i :: FirstTrial(observations, id, phase, c, i) &&
                  reason == if observations[i].outcome.ErrorTransient? then
                    TransientErrorsExhausted else InfrastructureError
  }

  lemma TrialsSnoc(observations: seq<Observation>, id: IdentityId, phase: PlanPhase, c: Capability)
    requires observations != []
    ensures var n := |observations| - 1;
            TrialsOf(observations, id, phase, c) ==
            TrialsOf(observations[..n], id, phase, c) +
            (if Tries(observations[n], id, phase, c) then [observations[n]] else [])
  {
    var n := |observations| - 1;
    var before := AtPhase(observations[..n], phase);
    if observations[n].phase == phase {
      assert (before + [observations[n]])[..|before|] == before;
    } else {
      assert AtPhase(observations, phase) == before;
    }
  }

  /** Where a trial stands among all observations. */
  lemma {:induction false} TrialAt(observations: seq<Observation>, id: IdentityId, phase: PlanPhase, c: Capability,
                                   k: nat) returns (i: nat)
    requires k < |TrialsOf(observations, id, phase, c)|
    ensures i < |observations| && observations[i] == TrialsOf(observations, id, phase, c)[k]
    ensures forall j :: 0 <= j < i && Tries(observations[j], id, phase, c) ==>
              observations[j] in TrialsOf(observations, id, phase, c)[..k]
  {
    hide TrialsOf, Tries;
    SomeObserved(observations, id, phase, c);
    var n := |observations| - 1;
    var front := observations[..n];
    var before := TrialsOf(front, id, phase, c);
    TrialsSnoc(observations, id, phase, c);
    if k < |before| {
      i := TrialAt(front, id, phase, c, k);
      assert before[..k] == TrialsOf(observations, id, phase, c)[..k];
      forall j | 0 <= j < i && Tries(observations[j], id, phase, c) ensures observations[j] in before[..k] {
        assert front[j] == observations[j];
      }
    } else {
      i := n;
      assert TrialsOf(observations, id, phase, c)[..k] == before;
      EarlierTried(observations, id, phase, c);
    }
  }

  lemma SomeObserved(observations: seq<Observation>, id: IdentityId, phase: PlanPhase, c: Capability)
    ensures TrialsOf(observations, id, phase, c) != [] ==> observations != []
  {
  }

  lemma EarlierTried(observations: seq<Observation>, id: IdentityId, phase: PlanPhase, c: Capability)
    requires observations != []
    ensures forall j :: 0 <= j < |observations| - 1 && Tries(observations[j], id, phase, c) ==>
              observations[j] in TrialsOf(observations[..|observations| - 1], id, phase, c)
  {
    hide TrialsOf, Tries;
    var front := observations[..|observations| - 1];
    TrialsAre(front, id, phase, c);
    forall j | 0 <= j < |front| && Tries(observations[j], id, phase, c)
      ensures observations[j] in TrialsOf(front, id, phase, c)
    {
      assert front[j] in front;
    }
  }

  /** Of the elements with the least key, the first stays first when sorted. */
  lemma LeastFirst(s: seq<Observation>) returns (k: nat)
    requires s != []
    ensures k < |s| && SortBy(Trial, s)[0] == s[k]
    ensures forall j :: 0 <= j < |s| ==> s[k].trial <= s[j].trial
    ensures forall j :: 0 <= j < k ==> s[k].trial < s[j].trial
  {
    var ordered := SortBy(Trial, s);
    SortedFirst(s);
    var key := ordered[0].trial;
    FirstWithKey(ordered, key);
    SortStable(Trial, s, key);
    k := FirstOfKey(s, key);
    forall j | 0 <= j < |s| ensures key <= s[j].trial { assert s[j] in s; }
  }

  lemma {:induction false} FirstOfKey(s: seq<Observation>, key: int) returns (k: nat)
    requires WithKey(Trial, key, s) != []
    ensures k < |s| && s[k] == WithKey(Trial, key, s)[0] && s[k].trial == key
    ensures forall j :: 0 <= j < k ==> s[j].trial != key
  {
    var n := |s| - 1;
    if WithKey(Trial, key, s[..n]) != [] {
      k := FirstOfKey(s[..n], key);
    } else {
      k := n;
      NoneOfKey(s[..n], key);
      assert forall j :: 0 <= j < n ==> s[j] == s[..n][j];
    }
  }

  lemma {:induction false} NoneOfKey(s: seq<Observation>, key: int)
    requires WithKey(Trial, key, s) == []
    ensures forall j :: 0 <= j < |s| ==> s[j].trial != key
  {
    if s != [] {
      NoneOfKey(s[..|s| - 1], key);
      assert forall j :: 0 <= j < |s| - 1 ==> s[j] == s[..|s| - 1][j];
    }
  }

  lemma FirstTrialFound(observations: seq<Observation>, id: IdentityId, phase: PlanPhase, c: Capability)
    returns (i: int)
    requires TrialsOf(observations, id, phase, c) != []
    ensures FirstTrial(observations, id, phase, c, i)
    ensures observations[i] == SortBy(Trial, TrialsOf(observations, id, phase, c))[0]
  {
    hide TrialsOf;
    var s := TrialsOf(observations, id, phase, c);
    var k := LeastFirst(s);
    i := TrialAt(observations, id, phase, c, k);
    TrialsAre(observations, id, phase, c);
    assert observations[i] in s;
    forall j | 0 <= j < |observations| && Tries(observations[j], id, phase, c)
      ensures observations[i].trial < observations[j].trial ||
              (observations[i].trial == observations[j].trial && i <= j)
    {
      LeastNumber(s, k, observations[j]);
    }
  }

  lemma LeastNumber(s: seq<Observation>, k: nat, o: Observation)
    requires k < |s| && o in s && forall j :: 0 <= j < |s| ==> s[k].trial <= s[j].trial
    requires forall j :: 0 <= j < k ==> s[k].trial < s[j].trial
    ensures s[k].trial <= o.trial && (o in s[..k] ==> s[k].trial < o.trial)
  {
    var m :| 0 <= m < |s| && s[m] == o;
    if o in s[..k] {
      var l :| 0 <= l < k && s[..k][l] == o;
    }
  }

  /** The capabilities an identity was tried on at a phase. */
  ghost function TriedBy(observations: seq<Observation>, id: IdentityId, phase: PlanPhase): AuthoritySet {
    set o | o in observations && o.identityId == id && o.phase == phase :: o.capabilityId
  }

  /** The matrix of the identity's first observation at the phase. */
  ghost predicate FirstMatrix(observations: seq<Observation>, id: IdentityId, phase: PlanPhase, matrixId: string) {
    exists i :: 0 <= i < |observations| && observations[i].identityId == id && observations[i].phase == phase &&
                observations[i].probeMatrixId == matrixId &&
                forall j :: 0 <= j < i ==> observations[j].identityId != id || observations[j].phase != phase
  }

  /** Everything that is observed of an identity at a phase, in terms of its trials there. */
  ghost predicate ReadsAs(a: ObservedAuthority, observations: seq<Observation>, id: IdentityId, phase: PlanPhase) {
    (forall c :: c in a.capabilities <==>
       Tried(observations, id, phase, c) && AlwaysAllowed(observations, id, phase, c)) &&
    (forall c :: c in a.excluded <==>
       Tried(observations, id, phase, c) && !AlwaysAllowed(observations, id, phase, c) &&
       !AlwaysDenied(observations, id, phase, c)) &&
    (forall c :: c in a.excluded ==> ReasonIs(a.excluded[c], observations, id, phase, c)) &&
    a.phase == phase && FirstMatrix(observations, id, phase, a.probeMatrixId) &&
    a.attempted == |TriedBy(observations, id, phase)| && a.classified == a.attempted - |a.excluded|
  }

  /** A node keeps everything but what was observed of it, and that is what its trials at the phase show. */
  ghost predicate NodeReads(before: Node, after: Node, observations: seq<Observation>, phase: PlanPhase) {
    if TriedBy(observations, before.identityId, phase) == {} then
      after == before
    else
      after.observed.Some? && after == before.(observed := after.observed) &&
      ReadsAs(after.observed.value, observations, before.identityId, phase)
  }

  lemma VerdictReads(observations: seq<Observation>, id: IdentityId, phase: PlanPhase, c: Capability)
    requires c in CellsOf(observations, id, phase)
    ensures var v := VerdictOn(CellsOf(observations, id, phase), c);
            (v.Held? <==> AlwaysAllowed(observations, id, phase, c)) &&
            (v.Unclassified? <==>
             !AlwaysAllowed(observations, id, phase, c) && !AlwaysDenied(observations, id, phase, c)) &&
            (v.Unclassified? ==> ReasonIs(v.reason, observations, id, phase, c))
  {
    hide CellsOf;
    var cells, s := CellsOf(observations, id, phase), TrialsOf(observations, id, phase, c);
    CellReads(observations, id, phase, c);
    TrialsAre(observations, id, phase, c);
    ResolutionIs(cells[c]);
    if VerdictOn(cells, c).Unclassified? {
      if AllErrors(cells[c].trials) {
        var i := FirstTrialFound(observations, id, phase, c);
        assert cells[c].trials[0] == observations[i].outcome;
        assert cells[c].trials[0] in cells[c].trials;
      } else {
        ReasonWithoutErrors(cells[c]);
      }
    }
  }

  lemma {:induction false} MatrixIsFirst(observations: seq<Observation>, id: IdentityId, phase: PlanPhase)
    requires TriedBy(observations, id, phase) != {}
    ensures FirstMatrix(observations, id, phase, MatrixIdOf(observations, id, phase))
  {
    var c :| c in TriedBy(observations, id, phase);
    var o :| o in observations && o.identityId == id && o.phase == phase;
    if observations[0].phase == phase && observations[0].identityId == id {
      assert observations[0].probeMatrixId == MatrixIdOf(observations, id, phase);
    } else {
      var rest := observations[1..];
      assert o in rest;
      assert o.capabilityId in TriedBy(rest, id, phase);
      MatrixIsFirst(rest, id, phase);
      var i :| 0 <= i < |rest| && rest[i].identityId == id && rest[i].phase == phase &&
        rest[i].probeMatrixId == MatrixIdOf(rest, id, phase) &&
        forall j :: 0 <= j < i ==> rest[j].identityId != id || rest[j].phase != phase;
      assert observations[i + 1] == rest[i] && forall j :: 0 < j <= i ==> observations[j] == rest[j - 1];
    }
  }

  lemma KeysAreTried(observations: seq<Observation>, id: IdentityId, phase: PlanPhase)
    ensures CellsOf(observations, id, phase).Keys == TriedBy(observations, id, phase)
    ensures CellsOf(observations, id, phase) == map[] <==> TriedBy(observations, id, phase) == {}
  {
    var cells := CellsOf(observations, id, phase);
    forall c ensures c in cells <==> c in TriedBy(observations, id, phase) { CellReads(observations, id, phase, c); }
    assert cells == map[] <==> cells.Keys == {};
  }

  lemma ObservedReads(observations: seq<Observation>, id: IdentityId, phase: PlanPhase)
    requires TriedBy(observations, id, phase) != {}
    ensures var cells := CellsOf(observations, id, phase);
            ReadsAs(ObservedFrom(cells.Keys, cells, phase, MatrixIdOf(observations, id, phase)), observations, id,
                    phase)
  {
    hide CellsOf, VerdictOn, ReasonIs, AlwaysAllowed, AlwaysDenied, Tried, TriedBy, FirstMatrix, MatrixIdOf;
    var cells := CellsOf(observations, id, phase);
    KeysAreTried(observations, id, phase);
    MatrixIsFirst(observations, id, phase);
    ObservedPartitions(cells.Keys, cells, phase, MatrixIdOf(observations, id, phase));
    forall c ensures c in cells <==> Tried(observations, id, phase, c) { CellReads(observations, id, phase, c); }
    forall c | c in cells
      ensures VerdictOn(cells, c).Held? <==> AlwaysAllowed(observations, id, phase, c)
      ensures VerdictOn(cells, c).Unclassified? <==>
              !AlwaysAllowed(observations, id, phase, c) && !AlwaysDenied(observations, id, phase, c)
      ensures VerdictOn(cells, c).Unclassified? ==>
              ReasonIs(VerdictOn(cells, c).reason, observations, id, phase, c)
    {
      VerdictReads(observations, id, phase, c);
    }
  }

  /** What populating makes of a node is what the observations show of it. */
  lemma PopulatedReads(n: Node, observations: seq<Observation>, phase: PlanPhase)
    ensures NodeReads(n, NodePopulated(n, observations, phase), observations, phase)
  {
    hide CellsOf, ObservedFrom, ReadsAs, TriedBy;
    KeysAreTried(observations, n.identityId, phase);
    if TriedBy(observations, n.identityId, phase) != {} { ObservedReads(observations, n.identityId, phase); }
  }

  /** Nodes without observations at the phase are returned unchanged. */
  method PopulateObservedAuthority(g: Graph, observations: seq<Observation>, phase: PlanPhase) returns (r: Graph)
    ensures r == Populated(g, observations, phase)
    ensures forall i :: 0 <= i < |g.nodes| ==> NodeReads(g.nodes[i], r.nodes[i], observations, phase)
  {
    forall i | 0 <= i < |g.nodes|
      ensures NodeReads(g.nodes[i], Populated(g, observations, phase).nodes[i], observations, phase)
    {
      PopulatedReads(g.nodes[i], observations, phase);
    }
    hide NodeReads;
    var atPhase := AtPhaseOnly(observations, phase);
    var cells := AggregateObservations(atPhase);
    var nodes: seq<Node> := [];
    for k := 0 to |g.nodes|
      invariant |nodes| == k && forall i :: 0 <= i < k ==> nodes[i] == NodePopulated(g.nodes[i], observations, phase)
    {
      var n := g.nodes[k];
      var identityCells := CellsByIdentity(cells, n.identityId, phase, observations);
      if identityCells == map[] {
        nodes := nodes + [n];
      } else {
        var observed :=
          BuildObservedAuthority(identityCells.Keys, identityCells, phase,
                                 MatrixIdOf(observations, n.identityId, phase));
        nodes := nodes + [n.(observed := Some(observed))];
      }
    }
    r := Graph(nodes, g.edges);
    assert r.nodes == Populated(g, observations, phase).nodes;
  }

  /** Populating twice from the same observations changes nothing more. */
  lemma PopulateIdempotent(g: Graph, observations: seq<Observation>, phase: PlanPhase)
    ensures Populated(Populated(g, observations, phase), observations, phase) == Populated(g, observations, phase)
  {
    var once := Populated(g, observations, phase);
    var twice := Populated(once, observations, phase);
    forall i | 0 <= i < |g.nodes| ensures twice.nodes[i] == once.nodes[i] {
      assert once.nodes[i].identityId == g.nodes[i].identityId;
    }
    assert twice.nodes == once.nodes;
  }

  // ---- Order of collection ----------------------------------------------------------------

  lemma {:induction false} AtPhaseCounts(s: seq<Observation>, phase: PlanPhase, o: Observation)
    ensures multiset(AtPhase(s, phase))[o] == if o.phase == phase then multiset(s)[o] else 0
  {
    if s != [] {
      AtPhaseCounts(s[..|s| - 1], phase, o);
      assert s == s[..|s| - 1] + [s[|s| - 1]];
    }
  }

  lemma {:induction false} KeyedCounts(s: seq<Observation>, key: CellKey, o: Observation)
    ensures multiset(Keyed(s, key))[o] == if KeyOf(o) == key then multiset(s)[o] else 0
  {
    if s != [] {
      KeyedCounts(s[..|s| - 1], key, o);
      assert s == s[..|s| - 1] + [s[|s| - 1]];
    }
  }

  lemma KeyedPermutes(a: seq<Observation>, b: seq<Observation>, key: CellKey)
    requires multiset(a) == multiset(b)
    ensures multiset(Keyed(a, key)) == multiset(Keyed(b, key))
  {
    forall o ensures multiset(Keyed(a, key))[o] == multiset(Keyed(b, key))[o] {
      KeyedCounts(a, key, o);
      KeyedCounts(b, key, o);
    }
  }

  lemma AtPhasePermutes(a: seq<Observation>, b: seq<Observation>, phase: PlanPhase)
    requires multiset(a) == multiset(b)
    ensures multiset(AtPhase(a, phase)) == multiset(AtPhase(b, phase))
  {
    forall o ensures multiset(AtPhase(a, phase))[o] == multiset(AtPhase(b, phase))[o] {
      AtPhaseCounts(a, phase, o);
      AtPhaseCounts(b, phase, o);
    }
  }

  /** Whether a cell is held, refused or excluded depends only on which outcomes occurred. */
  predicate SameStanding(v: Verdict, w: Verdict) {
    (v.Held? <==> w.Held?) && (v.Refused? <==> w.Refused?)
  }

  lemma StandingFromOutcomes(x: CellResult, y: CellResult)
    requires multiset(x.trials) == multiset(y.trials)
    ensures (AllAllowed(x.trials) <==> AllAllowed(y.trials)) && (AllDenials(x.trials) <==> AllDenials(y.trials))
  {
    forall t ensures t in x.trials <==> t in y.trials {
      assert t in x.trials <==> t in multiset(x.trials);
      assert t in y.trials <==> t in multiset(y.trials);
    }
  }

  lemma CellFromPermutes(a: seq<Observation>, b: seq<Observation>)
    requires multiset(a) == multiset(b)
    ensures multiset(CellFrom(a).trials) == multiset(CellFrom(b).trials)
  {
    OutcomesPermute(SortBy(Trial, a), SortBy(Trial, b));
  }

  lemma StandingPermutes(a: seq<Observation>, b: seq<Observation>, id: IdentityId, phase: PlanPhase, c: Capability)
    requires multiset(a) == multiset(b)
    ensures c in CellsOf(a, id, phase) <==> c in CellsOf(b, id, phase)
    ensures SameStanding(VerdictOn(CellsOf(a, id, phase), c), VerdictOn(CellsOf(b, id, phase), c))
  {
    var key := CellKey(id, c, phase);
    AtPhasePermutes(a, b, phase);
    KeyedPermutes(AtPhase(a, phase), AtPhase(b, phase), key);
    CellsOfAggregate(a, id, phase, c);
    CellsOfAggregate(b, id, phase, c);
    KeyedExact(AtPhase(a, phase), key);
    KeyedExact(AtPhase(b, phase), key);
    VerdictMeans(CellsOf(a, id, phase), c);
    VerdictMeans(CellsOf(b, id, phase), c);
    CellFromPermutes(Keyed(AtPhase(a, phase), key), Keyed(AtPhase(b, phase), key));
    assert |multiset(Keyed(AtPhase(a, phase), key))| == |Keyed(AtPhase(a, phase), key)|;
    assert |multiset(Keyed(AtPhase(b, phase), key))| == |Keyed(AtPhase(b, phase), key)|;
    if c in CellsOf(a, id, phase) {
      StandingFromOutcomes(CellsOf(a, id, phase)[c], CellsOf(b, id, phase)[c]);
    }
  }

  lemma StandingsDecide(x: map<Capability, CellResult>, y: map<Capability, CellResult>)
    requires NonEmpty(x) && NonEmpty(y) && x.Keys == y.Keys
    requires forall c :: SameStanding(VerdictOn(x, c), VerdictOn(y, c))
    ensures HeldIn(x.Keys, x) == HeldIn(y.Keys, y) && RefusedIn(x.Keys, x) == RefusedIn(y.Keys, y)
    ensures ExcludedIn(x.Keys, x).Keys == ExcludedIn(y.Keys, y).Keys
  {
    hide VerdictOn, NonEmpty;
  }

  /**
   Held capabilities, counts and excluded keys of a node do not depend on the order observations were collected in.
   */
  lemma ObservedForgetsOrder(n: Node, a: seq<Observation>, b: seq<Observation>, phase: PlanPhase)
    requires multiset(a) == multiset(b)
    ensures CellsOf(a, n.identityId, phase) == map[] <==> CellsOf(b, n.identityId, phase) == map[]
    ensures var p, q := NodePopulated(n, a, phase).observed, NodePopulated(n, b, phase).observed;
            (p.Some? <==> q.Some?) &&
            (p.Some? ==>
               p.value.capabilities == q.value.capabilities && p.value.excluded.Keys == q.value.excluded.Keys &&
               p.value.attempted == q.value.attempted && p.value.classified == q.value.classified)
  {
    hide CellsOf, VerdictOn, HeldIn, RefusedIn, ExcludedIn, SameStanding, NonEmpty;
    var x, y := CellsOf(a, n.identityId, phase), CellsOf(b, n.identityId, phase);
    forall c ensures (c in x <==> c in y) && SameStanding(VerdictOn(x, c), VerdictOn(y, c)) {
      StandingPermutes(a, b, n.identityId, phase, c);
    }
    StandingsDecide(x, y);
    assert x.Keys == y.Keys;
  }

  // ---- Which reason is given ------------------------------------------------------------------

  /** Why the cell of these observations is excluded, if it is. */
  function ReasonOf(observations: seq<Observation>): Option<ExclusionReason> {
    if observations == [] then None else ResolveCell(CellFrom(observations)).1
  }

  /** No observation carries a smaller trial number. */
  ghost predicate Earliest(observations: seq<Observation>, o: Observation) {
    o in observations && forall p :: p in observations ==> o.trial <= p.trial
  }

  lemma {:induction false} FirstWithKey(s: seq<Observation>, k: int)
    requires s != [] && s[0].trial == k
    ensures WithKey(Trial, k, s) != [] && WithKey(Trial, k, s)[0] == s[0]
  {
    if |s| > 1 { FirstWithKey(s[..|s| - 1], k); }
  }

  lemma SortedFirst(s: seq<Observation>)
    requires s != []
    ensures Earliest(s, SortBy(Trial, s)[0])
  {
    var ordered := SortBy(Trial, s);
    assert ordered[0] in multiset(s);
    forall p | p in s ensures ordered[0].trial <= p.trial {
      assert p in multiset(ordered);
      var i :| 0 <= i < |ordered| && ordered[i] == p;
      assert Trial(ordered[0]) <= Trial(ordered[i]);
    }
  }

  /** Sorting is stable: of the observations with the least trial number the one collected first stays first. */
  lemma CollectedFirst(s: seq<Observation>)
    requires s != [] && Earliest(s, s[0])
    ensures SortBy(Trial, s)[0] == s[0]
  {
    var ordered, k := SortBy(Trial, s), s[0].trial;
    SortedFirst(s);
    FirstWithKey(s, k);
    FirstWithKey(ordered, k);
    SortStable(Trial, s, k);
  }

  lemma ReasonWithoutErrors(cell: CellResult)
    requires cell.trials != [] && !AllErrors(cell.trials)
    ensures ResolveCell(cell).1 == if AllAllowed(cell.trials) || AllDenials(cell.trials) then
            None else Some(TrialsDisagreed)
  {
    ResolutionIs(cell);
  }

  lemma ReasonOfErrors(s: seq<Observation>)
    requires s != [] && AllErrors(OutcomesOf(s))
    ensures var o := SortBy(Trial, s)[0];
            o in s && o.outcome in EXCLUSION_BY_OUTCOME && ReasonOf(s) == Some(EXCLUSION_BY_OUTCOME[o.outcome])
  {
    var ordered := SortBy(Trial, s);
    OutcomesPermute(ordered, s);
    SameOutcomes(CellFrom(s).trials, OutcomesOf(s));
    SortedFirst(s);
    assert CellFrom(s).trials[0] in CellFrom(s).trials;
  }

  lemma SameOutcomes(x: seq<OutcomeClass>, y: seq<OutcomeClass>)
    requires multiset(x) == multiset(y)
    ensures (AllAllowed(x) <==> AllAllowed(y)) && (AllDenials(x) <==> AllDenials(y)) && (AllErrors(x) <==> AllErrors(y))
  {
    forall t ensures t in x <==> t in y {
      assert t in x <==> t in multiset(x);
      assert t in y <==> t in multiset(y);
    }
  }

  /** Not all trials are errors, or those that could come first in trial order give the same reason. */
  ghost predicate ReasonSettled(observations: seq<Observation>) {
    AllErrors(OutcomesOf(observations)) ==>
      forall o, p :: Earliest(observations, o) && Earliest(observations, p) ==>
        o.outcome in EXCLUSION_BY_OUTCOME && p.outcome in EXCLUSION_BY_OUTCOME &&
        EXCLUSION_BY_OUTCOME[o.outcome] == EXCLUSION_BY_OUTCOME[p.outcome]
  }

  lemma SettledReason(a: seq<Observation>, b: seq<Observation>)
    requires a != [] && multiset(a) == multiset(b) && ReasonSettled(a)
    ensures ReasonOf(a) == ReasonOf(b)
  {
    assert a[0] in multiset(b);
    OutcomesPermute(a, b);
    SameOutcomes(OutcomesOf(a), OutcomesOf(b));
    if AllErrors(OutcomesOf(a)) {
      ReasonOfErrors(a);
      ReasonOfErrors(b);
      SortedFirst(a);
      SortedFirst(b);
      forall p ensures p in a <==> p in b { assert p in a <==> p in multiset(a); }
      assert Earliest(a, SortBy(Trial, b)[0]);
    } else {
      CellOutcomes(a);
      CellOutcomes(b);
      ReasonWithoutErrors(CellFrom(a));
      ReasonWithoutErrors(CellFrom(b));
    }
  }

  lemma CellOutcomes(s: seq<Observation>)
    ensures var x, y := CellFrom(s).trials, OutcomesOf(s);
            (AllAllowed(x) <==> AllAllowed(y)) && (AllDenials(x) <==> AllDenials(y)) && (AllErrors(x) <==> AllErrors(y))
  {
    OutcomesPermute(SortBy(Trial, s), s);
    SameOutcomes(CellFrom(s).trials, OutcomesOf(s));
  }

  /** The same observations, collected with this one first. */
  lemma MovedFirst(a: seq<Observation>, o: Observation) returns (b: seq<Observation>)
    requires o in a
    ensures multiset(b) == multiset(a) && b != [] && b[0] == o
  {
    var j :| 0 <= j < |a| && a[j] == o;
    b := [o] + (a[..j] + a[j + 1..]);
    WithoutOne(a, j);
  }

  lemma FirstGivesReason(a: seq<Observation>, o: Observation) returns (b: seq<Observation>)
    requires AllErrors(OutcomesOf(a)) && Earliest(a, o)
    ensures multiset(b) == multiset(a) && o.outcome in EXCLUSION_BY_OUTCOME &&
            ReasonOf(b) == Some(EXCLUSION_BY_OUTCOME[o.outcome])
  {
    b := MovedFirst(a, o);
    forall p ensures p in b <==> p in a { assert p in b <==> p in multiset(b); }
    OutcomesPermute(a, b);
    SameOutcomes(OutcomesOf(a), OutcomesOf(b));
    CollectedFirst(b);
    ReasonOfErrors(b);
  }

  /**
   The reason a cell is excluded for does not depend on the order its observations were collected in exactly
   when the cell is not all errors, or its errors of the least trial number all map to one reason.
   */
  lemma ReasonForgetsOrderIff(a: seq<Observation>)
    requires a != []
    ensures (forall b :: multiset(b) == multiset(a) ==> ReasonOf(b) == ReasonOf(a)) <==> ReasonSettled(a)
  {
    hide ReasonOf, AllErrors, Earliest;
    if ReasonSettled(a) {
      forall b | multiset(b) == multiset(a) ensures ReasonOf(b) == ReasonOf(a) { SettledReason(a, b); }
    } else if forall b :: multiset(b) == multiset(a) ==> ReasonOf(b) == ReasonOf(a) {
      forall o, p | Earliest(a, o) && Earliest(a, p)
        ensures o.outcome in EXCLUSION_BY_OUTCOME && p.outcome in EXCLUSION_BY_OUTCOME
        ensures EXCLUSION_BY_OUTCOME[o.outcome] == EXCLUSION_BY_OUTCOME[p.outcome]
      {
        var x := FirstGivesReason(a, o);
        var y := FirstGivesReason(a, p);
      }
    }
  }

  /** The smallest case: a transient and an infrastructure error under one trial number. */
  lemma ReasonDependsOnOrder(x: Observation, y: Observation)
    requires x.trial == y.trial && x.outcome.ErrorTransient? && y.outcome.ErrorInfrastructure?
    ensures !ReasonSettled([x, y])
  {
    assert Earliest([x, y], x) && Earliest([x, y], y);
    forall t | t in OutcomesOf([x, y]) ensures t.IsError() {}
  }

  // ---- With distinct trial numbers --------------------------------------------------------------

  /** With distinct trial numbers in the cell the whole cell, reason included, forgets the order. */
  lemma DistinctTrialsForgetOrder(a: seq<Observation>, b: seq<Observation>)
    requires multiset(a) == multiset(b) && DistinctKeys(Trial, a)
    ensures CellFrom(a) == CellFrom(b)
  {
    SortForgetsOrder(Trial, a, b);
  }

  /** Within each cell of this identity at this phase no trial number repeats. */
  ghost predicate TrialsApart(observations: seq<Observation>, id: IdentityId, phase: PlanPhase) {
    forall c :: DistinctKeys(Trial, CellObservations(observations, id, phase, c))
  }

  function CellObservations(observations: seq<Observation>, id: IdentityId, phase: PlanPhase,
                            c: Capability): seq<Observation> {
    Keyed(AtPhase(observations, phase), CellKey(id, c, phase))
  }

  lemma CellForgetsOrder(a: seq<Observation>, b: seq<Observation>, id: IdentityId, phase: PlanPhase, c: Capability)
    requires multiset(a) == multiset(b) && TrialsApart(a, id, phase)
    ensures c in CellsOf(a, id, phase) <==> c in CellsOf(b, id, phase)
    ensures c in CellsOf(a, id, phase) ==> CellsOf(a, id, phase)[c] == CellsOf(b, id, phase)[c]
  {
    assert DistinctKeys(Trial, CellObservations(a, id, phase, c));
    hide TrialsApart, DistinctKeys;
    StandingPermutes(a, b, id, phase, c);
    AtPhasePermutes(a, b, phase);
    KeyedPermutes(AtPhase(a, phase), AtPhase(b, phase), CellKey(id, c, phase));
    DistinctTrialsForgetOrder(CellObservations(a, id, phase, c), CellObservations(b, id, phase, c));
    CellsOfAggregate(a, id, phase, c);
    CellsOfAggregate(b, id, phase, c);
  }

  lemma CellsForgetOrder(a: seq<Observation>, b: seq<Observation>, id: IdentityId, phase: PlanPhase)
    requires multiset(a) == multiset(b) && TrialsApart(a, id, phase)
    ensures CellsOf(a, id, phase) == CellsOf(b, id, phase)
  {
    hide CellsOf, TrialsApart;
    var x, y := CellsOf(a, id, phase), CellsOf(b, id, phase);
    forall c ensures (c in x <==> c in y) && (c in x ==> x[c] == y[c]) { CellForgetsOrder(a, b, id, phase, c); }
  }

  /**
   With distinct trial numbers everything a node is populated with forgets the order of collection, except the
   matrix it names: that is the first one seen, so the node is the same exactly when that is.
   */
  lemma NodeForgetsOrderIff(n: Node, a: seq<Observation>, b: seq<Observation>, phase: PlanPhase)
    requires multiset(a) == multiset(b) && TrialsApart(a, n.identityId, phase)
    ensures CellsOf(a, n.identityId, phase) == CellsOf(b, n.identityId, phase)
    ensures NodePopulated(n, a, phase) == NodePopulated(n, b, phase) <==>
            CellsOf(a, n.identityId, phase) == map[] ||
            MatrixIdOf(a, n.identityId, phase) == MatrixIdOf(b, n.identityId, phase)
  {
    hide CellsOf, TrialsApart, HeldIn, RefusedIn, ExcludedIn;
    CellsForgetOrder(a, b, n.identityId, phase);
  }

  /** All observations of the identity at the phase came from this matrix. */
  ghost predicate FromMatrix(observations: seq<Observation>, id: IdentityId, phase: PlanPhase, matrixId: string) {
    forall o :: o in observations && o.phase == phase && o.identityId == id ==> o.probeMatrixId == matrixId
  }

  lemma {:induction false} OneMatrixNamed(observations: seq<Observation>, id: IdentityId, phase: PlanPhase,
                                          matrixId: string)
    requires FromMatrix(observations, id, phase, matrixId)
    ensures CellsOf(observations, id, phase) != map[] ==> MatrixIdOf(observations, id, phase) == matrixId
  {
    AtPhaseExact(observations, phase);
    if CellsOf(observations, id, phase) != map[] {
      var c :| c in CellsOf(observations, id, phase);
      var o :| o in AtPhase(observations, phase) && o.identityId == id && o.capabilityId == c;
      NamedByFirst(observations, id, phase, matrixId, o);
    }
  }

  lemma {:induction false} NamedByFirst(observations: seq<Observation>, id: IdentityId, phase: PlanPhase,
                                        matrixId: string, o: Observation)
    requires FromMatrix(observations, id, phase, matrixId) && o in observations && o.phase == phase &&
             o.identityId == id
    ensures MatrixIdOf(observations, id, phase) == matrixId
  {
    if !(observations[0].phase == phase && observations[0].identityId == id) {
      NamedByFirst(observations[1..], id, phase, matrixId, o);
    }
  }

  /** All observations of the identity at the phase came from one matrix. */
  ghost predicate OneMatrix(observations: seq<Observation>, id: IdentityId, phase: PlanPhase) {
    exists matrixId :: FromMatrix(observations, id, phase, matrixId)
  }

  /**
   Where each identity is probed by one matrix of its own, with distinct trial numbers, populating forgets the order
   altogether.
   */
  lemma PopulatedForgetsOrder(g: Graph, a: seq<Observation>, b: seq<Observation>, phase: PlanPhase)
    requires multiset(a) == multiset(b)
    requires forall i :: 0 <= i < |g.nodes| ==>
               TrialsApart(a, g.nodes[i].identityId, phase) && OneMatrix(a, g.nodes[i].identityId, phase)
    ensures Populated(g, a, phase) == Populated(g, b, phase)
  {
    hide TrialsApart, CellsOf, NodePopulated, MatrixIdOf, FromMatrix;
    forall i | 0 <= i < |g.nodes| ensures NodePopulated(g.nodes[i], a, phase) == NodePopulated(g.nodes[i], b, phase) {
      NodeForgetsOrderIff(g.nodes[i], a, b, phase);
      SameMatrix(a, b, g.nodes[i].identityId, phase);
    }
    assert Populated(g, a, phase).nodes == Populated(g, b, phase).nodes;
  }

  lemma SameMatrix(a: seq<Observation>, b: seq<Observation>, id: IdentityId, phase: PlanPhase)
    requires multiset(a) == multiset(b) && OneMatrix(a, id, phase) && TrialsApart(a, id, phase)
    ensures CellsOf(a, id, phase) == map[] || MatrixIdOf(a, id, phase) == MatrixIdOf(b, id, phase)
  {
    hide TrialsApart, CellsOf, MatrixIdOf;
    var matrixId :| FromMatrix(a, id, phase, matrixId);
    forall o ensures o in a <==> o in b { assert o in a <==> o in multiset(a); }
    assert FromMatrix(b, id, phase, matrixId);
    OneMatrixNamed(a, id, phase, matrixId);
    OneMatrixNamed(b, id, phase, matrixId);
    CellsForgetOrder(a, b, id, phase);
  }
}
