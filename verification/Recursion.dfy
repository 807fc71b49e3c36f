/** When the compiler's recursion returns: exactly which specifications make it recur without end. */
module Recursion {
  import opened Wrappers
  import opened Outcomes
  import opened Models
  import opened Acyclicity
  import opened Scenarios
  import opened Walks

  // ---- Visits that go on alike -------------------------------------------------------

  /** Two visits of the same identity with the same derived authority. */
  ghost predicate SameVisit(spec: Spec, a: seq<Delegation>, b: seq<Delegation>)
    requires WellFormed(spec)
  {
    Top(spec, a) == Top(spec, b) && Derived(spec, a) == Derived(spec, b)
  }

  lemma SameRefusal(spec: Spec, a: seq<Delegation>, b: seq<Delegation>)
    requires WellFormed(spec) && IsStack(spec, a) && IsStack(spec, b) && SameVisit(spec, a, b)
    ensures Refusal(spec, a) == Refusal(spec, b)
  {
  }

  /** What goes on from one goes on from the other, to the same visits. */
  lemma {:induction false} GoOnAlike(spec: Spec, p: seq<Delegation>, q: seq<Delegation>, r: seq<Delegation>)
    requires WellFormed(spec) && IsStack(spec, p) && IsStack(spec, q) && SameVisit(spec, p, q)
    ensures IsStack(spec, p + r) <==> IsStack(spec, q + r)
    ensures SameVisit(spec, p + r, q + r)
  {
    hide WellFormed, Follows;
    var root := RootSpec(spec).id;
    FollowOn(spec.delegations, root, p, r);
    FollowOn(spec.delegations, root, q, r);
    if r == [] {
      assert p + r == p && q + r == q;
    } else {
      var front := r[..|r| - 1];
      GoOnAlike(spec, p, q, front);
      assert (p + r)[..|p + r| - 1] == p + front && (q + r)[..|q + r| - 1] == q + front;
    }
  }

  lemma PrecedesAlike(spec: Spec, p: seq<Delegation>, q: seq<Delegation>, a: seq<Delegation>, b: seq<Delegation>,
                      n: nat)
    requires WellFormed(spec) && IsStack(spec, p) && IsStack(spec, q) && SameVisit(spec, p, q)
    requires PrecedesAt(spec, q + a, q + b, |q| + n)
    ensures PrecedesAt(spec, p + a, p + b, |p| + n)
  {
    hide WellFormed, IsStack;
    assert (q + a)[..|q| + n] == q + a[..n] && (q + b)[..|q| + n] == q + b[..n];
    assert a[..n] == (q + a[..n])[|q|..] == (q + b[..n])[|q|..] == b[..n];
    assert (p + a)[..|p| + n] == p + a[..n] && (p + b)[..|p| + n] == p + b[..n];
    GoOnAlike(spec, p, q, a[..n]);
  }

  /** What precedes a stack that goes on from q precedes q, or goes on from q as well. */
  lemma PrecedesOn(spec: Spec, q: seq<Delegation>, r: seq<Delegation>, a: seq<Delegation>) returns (n: nat)
    requires WellFormed(spec) && Precedes(spec, a, q + r)
    ensures Precedes(spec, a, q) || (q <= a && PrecedesAt(spec, a, q + r, |q| + n))
  {
    hide WellFormed, Children;
    var m: nat :| PrecedesAt(spec, a, q + r, m);
    if m < |q| {
      n := 0;
      assert (q + r)[..m] == q[..m];
      assert PrecedesAt(spec, a, q, m);
    } else {
      n := m - |q|;
      assert q == (q + r)[..m][..|q|] == a[..m][..|q|];
    }
  }

  /** A clear stack that ends as one of its prefixes does can repeat what lies between, and stays clear. */
  lemma OneMoreLap(spec: Spec, p: seq<Delegation>, q: seq<Delegation>, r: seq<Delegation>)
    requires WellFormed(spec) && IsStack(spec, p) && IsStack(spec, q) && SameVisit(spec, p, q) && Clear(spec, q)
    requires IsStack(spec, p + r) && Clear(spec, p + r)
    ensures IsStack(spec, q + r) && Clear(spec, q + r)
  {
    hide WellFormed, IsStack, Refusal, PrecedesAt, SameVisit;
    GoOnAlike(spec, p, q, r);
    SameRefusal(spec, p + r, q + r);
    forall a | IsStack(spec, a) && Precedes(spec, a, q + r) ensures Refusal(spec, a).None? {
      var n := PrecedesOn(spec, q, r, a);
      if !Precedes(spec, a, q) {
        assert q + a[|q|..] == a;
        PrecedesAlike(spec, p, q, a[|q|..], r, n);
        GoOnAlike(spec, p, q, a[|q|..]);
        SameRefusal(spec, p + a[|q|..], a);
      }
    }
  }

  // ---- Loops ---------------------------------------------------------------------------

  /**
   A stack that comes back to an identity with the authority it had there before, and that the walk comes to without
   a refusal on the way.
   */
  ghost predicate Looping(spec: Spec, c: seq<Delegation>, i: nat)
    requires WellFormed(spec)
  {
    i < |c| && IsStack(spec, c) && Clear(spec, c) && SameVisit(spec, c[..i], c)
  }

  lemma {:induction false} Laps(spec: Spec, c: seq<Delegation>, i: nat, n: nat) returns (r: seq<Delegation>)
    requires WellFormed(spec) && Looping(spec, c, i)
    ensures |r| >= n && IsStack(spec, c[..i] + r) && Clear(spec, c[..i] + r)
  {
    hide WellFormed, Clear, SameVisit, IsStack;
    var p, loop := c[..i], c[i..];
    assert p + loop == c;
    if n == 0 {
      r := loop;
    } else {
      var before := Laps(spec, c, i, n - 1);
      Followed(spec, c, i);
      OneMoreLap(spec, p, c, before);
      r := loop + before;
      assert c + before == p + r;
    }
  }

  lemma LoopingGoesOn(spec: Spec, c: seq<Delegation>, i: nat, depth: nat)
    requires WellFormed(spec) && Looping(spec, c, i)
    ensures IsStack(spec, []) && WalkFrom(spec, [], depth).ending.Unfinished?
  {
    hide WellFormed, IsStack, Refusal, PrecedesAt, WalkFrom;
    EmptyStack(spec);
    var r := Laps(spec, c, i, depth);
    var long := c[..i] + r;
    var stop := WalkFromMeans(spec, [], depth);
    if !WalkFrom(spec, [], depth).ending.Unfinished? {
      assert !Met(spec, long, depth);
      assert WalkFrom(spec, [], depth).ending.Refused?;
      Comparable(spec, long, stop);
      assert false;
    }
  }

  // ---- How deep the walk goes at most --------------------------------------------------------

  /** An identity, and how many capabilities are left of the root's. */
  ghost function States(ids: set<IdentityId>, n: nat): set<(IdentityId, nat)> {
    if n == 0 then WithCount(ids, 0) else States(ids, n - 1) + WithCount(ids, n)
  }

  ghost function WithCount(ids: set<IdentityId>, n: nat): set<(IdentityId, nat)> {
    set v | v in ids :: (v, n)
  }

  /** How deep the walk can get without passing an identity twice with the same authority. */
  ghost function Bound(spec: Spec): nat
    requires WellFormed(spec)
  {
    |Ids(spec)| * (|RootSpec(spec).capabilities| + 1)
  }

  lemma {:induction false} WithCountSize(ids: set<IdentityId>, n: nat)
    ensures |WithCount(ids, n)| == |ids|
  {
    if v :| v in ids {
      WithCountSize(ids - {v}, n);
      assert WithCount(ids, n) == WithCount(ids - {v}, n) + {(v, n)};
    }
  }

  lemma {:induction false} StatesAre(ids: set<IdentityId>, n: nat)
    ensures forall s :: s in States(ids, n) <==> s.0 in ids && s.1 <= n
  {
    if n > 0 { StatesAre(ids, n - 1); }
  }

  lemma OneMoreCount(ids: set<IdentityId>, n: nat)
    ensures |States(ids, n)| == (if n == 0 then 0 else |States(ids, n - 1)|) + |ids|
  {
    WithCountSize(ids, n);
    if n > 0 {
      StatesAre(ids, n - 1);
      DisjointSize(States(ids, n - 1), WithCount(ids, n));
    }
  }

  lemma {:induction false} StatesSize(ids: set<IdentityId>, n: nat)
    ensures |States(ids, n)| == |ids| * (n + 1)
  {
    hide States;
    OneMoreCount(ids, n);
    if n > 0 { StatesSize(ids, n - 1); }
  }

  lemma DisjointSize<T>(a: set<T>, b: set<T>)
    requires a !! b
    ensures |a + b| == |a| + |b|
  {
  }

  lemma {:induction false} DerivedShrinks(spec: Spec, c: seq<Delegation>, i: nat)
    requires WellFormed(spec) && i <= |c|
    ensures Derived(spec, c) <= Derived(spec, c[..i]) <= RootSpec(spec).capabilities
    decreases |c|
  {
    hide WellFormed;
    if i == |c| {
      assert c[..i] == c;
      if c != [] { DerivedShrinks(spec, c[..|c| - 1], 0); assert c[..|c| - 1][..0] == []; }
    } else {
      DerivedShrinks(spec, c[..|c| - 1], i);
      assert c[..|c| - 1][..i] == c[..i];
    }
  }

  lemma StackPrefix(spec: Spec, c: seq<Delegation>, k: nat)
    requires WellFormed(spec) && IsStack(spec, c) && k <= |c|
    ensures IsStack(spec, c[..k])
  {
    FollowedPrefix(spec.delegations, RootSpec(spec).id, c, k);
  }

  /** A stack that long passes some identity twice with the same authority. */
  lemma StateRepeats(spec: Spec, c: seq<Delegation>) returns (i: nat, j: nat)
    requires WellFormed(spec) && IsStack(spec, c) && |c| >= Bound(spec)
    ensures i < j <= |c| && SameVisit(spec, c[..i], c[..j])
  {
    hide WellFormed, IsStack, Derived, Ids, States;
    var root := RootSpec(spec);
    StatesSize(Ids(spec), |root.capabilities|);
    StatesAre(Ids(spec), |root.capabilities|);
    var states := seq(|c| + 1, k requires 0 <= k <= |c| => (Top(spec, c[..k]), |Derived(spec, c[..k])|));
    forall s | s in states ensures s in States(Ids(spec), |root.capabilities|) {
      var k :| 0 <= k <= |c| && states[k] == s;
      StackPrefix(spec, c, k);
      TopKnown(spec, c[..k]);
      DerivedShrinks(spec, c[..k], 0);
      SubsetCardinality(Derived(spec, c[..k]), root.capabilities);
    }
    i, j := Pigeonhole(states, States(Ids(spec), |root.capabilities|));
    DerivedShrinks(spec, c[..j], i);
    assert c[..j][..i] == c[..i];
    SubsetCardinality(Derived(spec, c[..j]), Derived(spec, c[..i]));
  }

  /** A walk that gets that deep has a loop before it. */
  lemma DeepWalkLoops(spec: Spec, depth: nat) returns (c: seq<Delegation>, i: nat)
    requires WellFormed(spec) && IsStack(spec, []) && WalkFrom(spec, [], depth).ending.Unfinished? &&
             depth >= Bound(spec)
    ensures Looping(spec, c, i)
  {
    hide WellFormed, IsStack, WalkFrom, Refusal, PrecedesAt, Bound, SameVisit;
    var long := WalkFromMeans(spec, [], depth);
    var j;
    i, j := StateRepeats(spec, long);
    c := long[..j];
    assert long[..j][..i] == long[..i];
    ClearPrefix(spec, long, i);
    if j < |long| {
      ClearPrefix(spec, long, j);
    } else {
      assert c == long;
      SameRefusal(spec, c[..i], c);
    }
  }

  lemma ClearPrefix(spec: Spec, c: seq<Delegation>, n: nat)
    requires WellFormed(spec) && IsStack(spec, c) && n < |c| && ClearBefore(spec, c)
    ensures IsStack(spec, c[..n]) && Clear(spec, c[..n])
  {
    hide WellFormed, Refusal, PrecedesAt;
    Followed(spec, c, n);
    PrefixPrecedes(spec, c[..n], c);
    forall a | IsStack(spec, a) && Precedes(spec, a, c[..n]) ensures Refusal(spec, a).None? {
      PrecedesLonger(spec, a, c[..n], c);
    }
  }

  lemma PrecedesLonger(spec: Spec, a: seq<Delegation>, b: seq<Delegation>, c: seq<Delegation>)
    requires WellFormed(spec) && b <= c && Precedes(spec, a, b)
    ensures Precedes(spec, a, c)
  {
    hide WellFormed, Children;
    var n: nat :| PrecedesAt(spec, a, b, n);
    assert b[..n] == c[..n];
    assert PrecedesAt(spec, a, c, n);
  }

  /**
   The exact condition, over every specification the schema accepts: the recursion goes on for ever if and only if
   some stack of lookups comes back to an identity with the authority derived there before, and no visit up to it, in
   the order of the walk, is refused. Whether it does shows at a depth of one call per identity and number of
   capabilities left.
   */
  lemma NeverReturnsIff(spec: Spec)
    requires WellFormed(spec)
    ensures !Halts(spec) <==> exists c, i :: Looping(spec, c, i)
    ensures IsStack(spec, []) && (Halts(spec) <==> !WalkFrom(spec, [], Bound(spec)).ending.Unfinished?)
  {
    hide WellFormed, IsStack, WalkFrom, Looping, Bound;
    EmptyStack(spec);
    if c, i :| Looping(spec, c, i) {
      forall depth ensures WalkFrom(spec, [], depth).ending.Unfinished? { LoopingGoesOn(spec, c, i, depth); }
    } else if WalkFrom(spec, [], Bound(spec)).ending.Unfinished? {
      var c, i := DeepWalkLoops(spec, Bound(spec));
    }
  }

  // ---- Without refusals ----------------------------------------------------------------------

  /** On no stack of visits does a declared authority differ from the derived one. */
  ghost predicate AllExpectationsMet(spec: Spec)
    requires WellFormed(spec)
  {
    forall chain :: IsStack(spec, chain) ==> Refusal(spec, chain).None?
  }

  /** Lookups that do not loop return, whatever is declared. */
  lemma LooplessReturns(spec: Spec)
    requires WellFormed(spec) && Loopless(spec)
    ensures Halts(spec)
  {
    hide WellFormed, IsStack, WalkFrom, Loopless, Refusal;
    EmptyStack(spec);
    var c := WalkFromMeans(spec, [], |Ids(spec)|);
    if WalkFrom(spec, [], |Ids(spec)|).ending.Unfinished? {
      DepthBounded(spec, c);
    }
  }

  /** A walk that returns without a refusal met every expectation, and did not loop. */
  lemma ReturnedMeans(spec: Spec, depth: nat)
    requires WellFormed(spec) && IsStack(spec, []) && WalkFrom(spec, [], depth).ending.Returned?
    ensures AllExpectationsMet(spec) && Loopless(spec)
  {
    hide WellFormed, IsStack, WalkFrom, Refusal, Loopless;
    var c := WalkFromMeans(spec, [], depth);
    LooplessIffBounded(spec);
    assert !NestedVisits(spec, depth);
  }

  /** A walk that is refused names the first disagreement it comes to. */
  lemma RefusedMeans(spec: Spec, depth: nat) returns (c: seq<Delegation>)
    requires WellFormed(spec) && IsStack(spec, []) && WalkFrom(spec, [], depth).ending.Refused?
    ensures IsStack(spec, c) && Refusal(spec, c) == Some(WalkFrom(spec, [], depth).ending.error) && ClearBefore(spec, c)
  {
    hide WellFormed, IsStack, WalkFrom, Refusal, PrecedesAt;
    c := WalkFromMeans(spec, [], depth);
  }

  /** Where no declared authority disagrees, the recursion returns exactly when lookups do not loop. */
  lemma UnrefusedReturnIff(spec: Spec)
    requires WellFormed(spec) && AllExpectationsMet(spec)
    ensures Halts(spec) <==> Loopless(spec)
  {
    hide WellFormed, IsStack, WalkFrom, Refusal, Loopless;
    if Loopless(spec) { LooplessReturns(spec); }
    if Halts(spec) {
      EmptyStack(spec);
      var depth :| !WalkFrom(spec, [], depth).ending.Unfinished?;
      if WalkFrom(spec, [], depth).ending.Refused? {
        var c := RefusedMeans(spec, depth);
      } else {
        ReturnedMeans(spec, depth);
      }
    }
  }

  // ---- With unique ids, two laps through the root ------------------------------------------

  lemma {:induction false} DerivedWithin(spec: Spec, c: seq<Delegation>, k: nat)
    requires WellFormed(spec) && k < |c|
    ensures Derived(spec, c) <= c[k].intended
  {
    hide WellFormed;
    DerivedShrinks(spec, c, k + 1);
    assert c[..k + 1][..k] == c[..k];
  }

  lemma {:induction false} NothingLost(spec: Spec, a: seq<Delegation>, b: seq<Delegation>)
    requires WellFormed(spec) && forall k :: 0 <= k < |b| ==> Derived(spec, a) <= b[k].intended
    ensures Derived(spec, a + b) == Derived(spec, a)
  {
    hide WellFormed;
    if b == [] {
      assert a + b == a;
    } else {
      NothingLost(spec, a, b[..|b| - 1]);
      assert (a + b)[..|a + b| - 1] == a + b[..|b| - 1];
    }
  }

  /** A declared chain from the root back into it, that the walk follows twice without a refusal. */
  ghost predicate TwoLaps(spec: Spec, loop: seq<Delegation>)
    requires WellFormed(spec)
  {
    loop != [] && Declared(spec.delegations, RootSpec(spec).id, loop) && Top(spec, loop) == RootSpec(spec).id &&
    IsStack(spec, loop + loop) && Clear(spec, loop + loop)
  }

  lemma TwoLapsLoop(spec: Spec, loop: seq<Delegation>)
    requires WellFormed(spec) && TwoLaps(spec, loop)
    ensures Looping(spec, loop + loop, |loop|)
  {
    hide WellFormed, Clear;
    var twice := loop + loop;
    assert twice[..|loop|] == loop;
    Followed(spec, twice, |loop|);
    FollowOn(spec.delegations, RootSpec(spec).id, loop, loop);
    forall k | 0 <= k < |loop| ensures Derived(spec, loop) <= loop[k].intended { DerivedWithin(spec, loop, k); }
    NothingLost(spec, loop, loop);
  }

  ghost predicate FirstReturn(spec: Spec, c: seq<Delegation>, p: nat)
    requires WellFormed(spec)
  {
    0 < p <= |c| && Top(spec, c[..p]) == RootSpec(spec).id &&
    forall q :: 0 < q < p ==> Top(spec, c[..q]) != RootSpec(spec).id
  }

  lemma {:induction false} EarliestReturn(spec: Spec, c: seq<Delegation>, n: nat) returns (p: nat)
    requires WellFormed(spec) && 0 < n <= |c| && Top(spec, c[..n]) == RootSpec(spec).id
    ensures p <= n && FirstReturn(spec, c, p)
    decreases n
  {
    hide WellFormed, Tip;
    if q :| 0 < q < n && Top(spec, c[..q]) == RootSpec(spec).id {
      p := EarliestReturn(spec, c, q);
    } else {
      p := n;
    }
  }

  /** A stack as long as there are identities has come back to the root. */
  lemma ComesBack(spec: Spec, c: seq<Delegation>) returns (p: nat)
    requires WellFormed(spec) && UniqueDelegationIds(spec) && UniqueTargets(spec.delegations)
    requires IsStack(spec, c) && |c| >= |Ids(spec)|
    ensures p <= |Ids(spec)| && FirstReturn(spec, c, p)
  {
    hide WellFormed, Tip, Stops, Follows, Declared, UniqueTargets, UniqueDelegationIds, FirstReturn, Ids;
    var root, n := RootSpec(spec).id, |Ids(spec)|;
    FollowedPrefix(spec.delegations, root, c, n);
    StopsKnown(spec, c[..n]);
    assert ToSet(Stops(root, c[..n])) <= Ids(spec);
    var i, j := Pigeonhole(Stops(root, c[..n]), Ids(spec));
    StopsAre(root, c[..n], i);
    StopsAre(root, c[..n], j);
    assert c[..n][..i] == c[..i] && c[..n][..j] == c[..j] && c[..j][..j - i] == c[..j - i];
    DeclaredPrefix(spec, c, i);
    DeclaredPrefix(spec, c, j);
    SameEnd(spec.delegations, root, c[..i], c[..j]);
    p := EarliestReturn(spec, c, j - i);
  }

  lemma DeclaredPrefix(spec: Spec, c: seq<Delegation>, n: nat)
    requires WellFormed(spec) && UniqueDelegationIds(spec) && IsStack(spec, c) && n <= |c|
    ensures IsStack(spec, c[..n]) && Declared(spec.delegations, RootSpec(spec).id, c[..n])
  {
    hide WellFormed;
    FollowedPrefix(spec.delegations, RootSpec(spec).id, c, n);
    DeclaredIsFollowed(spec.delegations, RootSpec(spec).id, c[..n]);
  }

  /** Where two stacks first return to the root, they have made the same way. */
  lemma SameLap(spec: Spec, a: seq<Delegation>, p: nat, b: seq<Delegation>, q: nat)
    requires WellFormed(spec) && UniqueDelegationIds(spec) && UniqueTargets(spec.delegations)
    requires IsStack(spec, a) && IsStack(spec, b) && FirstReturn(spec, a, p) && FirstReturn(spec, b, q) && p <= q
    ensures p == q && a[..p] == b[..q]
  {
    hide WellFormed, Follows, Declared, UniqueTargets, UniqueDelegationIds;
    DeclaredPrefix(spec, a, p);
    DeclaredPrefix(spec, b, q);
    SameEnd(spec.delegations, RootSpec(spec).id, a[..p], b[..q]);
    assert b[..q][..q - p] == b[..q - p];
    assert b[..q][0..] == b[..q];
  }

  /** A stack long enough begins with two laps. */
  lemma BeginsWithLaps(spec: Spec, c: seq<Delegation>) returns (loop: seq<Delegation>)
    requires WellFormed(spec) && UniqueDelegationIds(spec) && UniqueTargets(spec.delegations)
    requires IsStack(spec, c) && |c| > 2 * |Ids(spec)| && ClearBefore(spec, c)
    ensures TwoLaps(spec, loop)
  {
    hide WellFormed, Tip, Follows, Declared, UniqueTargets, UniqueDelegationIds, ClearBefore, Refusal, Ids;
    var root := RootSpec(spec).id;
    var p := ComesBack(spec, c);
    assert c[..p] + c[p..] == c;
    DeclaredPrefix(spec, c, p);
    FollowOn(spec.delegations, root, c[..p], c[p..]);
    assert IsStack(spec, c[p..]);
    var q := ComesBack(spec, c[p..]);
    if p <= q { SameLap(spec, c, p, c[p..], q); } else { SameLap(spec, c[p..], q, c, p); }
    loop := c[..p];
    assert c[..p + q] == c[..p] + c[p..][..q];
    ClearPrefix(spec, c, p + q);
  }

  /**
   With unique ids and targets two laps decide: the recursion goes on for ever exactly if some chain of declared
   delegations leads from the root back into it, and the walk comes through it twice without a refusal.
   */
  lemma NeverReturnsIffTwoLaps(spec: Spec)
    requires WellFormed(spec) && UniqueDelegationIds(spec) && UniqueTargets(spec.delegations)
    ensures !Halts(spec) <==> exists loop :: TwoLaps(spec, loop)
  {
    hide WellFormed, IsStack, WalkFrom, TwoLaps, Looping, ClearBefore, Refusal, UniqueTargets, UniqueDelegationIds;
    NeverReturnsIff(spec);
    if loop :| TwoLaps(spec, loop) { TwoLapsLoop(spec, loop); }
    if !Halts(spec) {
      EmptyStack(spec);
      var depth := 2 * |Ids(spec)| + 1;
      assert WalkFrom(spec, [], depth).ending.Unfinished?;
      var c := WalkFromMeans(spec, [], depth);
      MetIsClear(spec, c, depth);
      var loop := BeginsWithLaps(spec, c);
    }
  }

  lemma MetIsClear(spec: Spec, c: seq<Delegation>, limit: nat)
    requires WellFormed(spec) && MetBeforeFrom(spec, [], c, limit)
    ensures ClearBefore(spec, c)
  {
  }

  // ---- Instances -------------------------------------------------------------------------

  lemma NothingDeclared(spec: Spec)
    requires WellFormed(spec) && forall i :: i in spec.identities ==> i.expectCapabilities == None
    ensures AllExpectationsMet(spec)
  {
    hide WellFormed, IsStack;
    forall chain | IsStack(spec, chain) ensures Refusal(spec, chain).None? {
      TopKnown(spec, chain);
      assert SpecOf(spec, Top(spec, chain)) in spec.identities;
    }
  }

  /** Two identities, each delegated to by the other. */
  function BackAndForth(root: IdentityId, a: IdentityId, p: string, q: string, held: AuthoritySet,
                        declared: Option<AuthoritySet>): Spec {
    Spec([Simple(root, true, held), IdentitySpec(a, false, "", {}, declared)],
         [Delegation(p, root, a, held, 900), Delegation(q, a, root, held, 900)])
  }

  lemma BackAndForthIs(root: IdentityId, a: IdentityId, p: string, q: string, held: AuthoritySet,
                       declared: Option<AuthoritySet>)
    requires root != a && p != q
    ensures var spec := BackAndForth(root, a, p, q, held, declared);
            WellFormed(spec) && UniqueTargets(spec.delegations) && UniqueDelegationIds(spec) &&
            RootSpec(spec) == Simple(root, true, held) && a in Ids(spec) &&
            SpecOf(spec, a).expectCapabilities == declared && root in Ids(spec) &&
            SpecOf(spec, root).expectCapabilities == None &&
            Next(spec.delegations, root) == [spec.delegations[0]] && Next(spec.delegations, a) == [spec.delegations[1]]
  {
    var spec := BackAndForth(root, a, p, q, held, declared);
    var ids, d, e := spec.identities, spec.delegations[0], spec.delegations[1];
    assert ids[0].id == root && ids[1].id == a && ids[0] in ids && ids[1] in ids;
    assert Ids(spec) == {root, a};
    OutgoingOfThree(d, e, e, root);
    OutgoingOfThree(d, e, e, a);
    UniqueIdsFollowOwn(spec.delegations, root);
    UniqueIdsFollowOwn(spec.delegations, a);
  }

  /** Its lookups loop, and with no authority declared the recursion never returns. */
  lemma LoopNeverReturns(root: IdentityId, a: IdentityId, p: string, q: string, held: AuthoritySet)
    requires root != a && p != q
    ensures var spec := BackAndForth(root, a, p, q, held, None);
            WellFormed(spec) && UniqueTargets(spec.delegations) && UniqueDelegationIds(spec) && !Loopless(spec) &&
            !Halts(spec)
  {
    hide WellFormed, UniqueTargets, UniqueDelegationIds, Loopless, Halts;
    var spec := BackAndForth(root, a, p, q, held, None);
    BackAndForthIs(root, a, p, q, held, None);
    BackAndForthLoops(root, a, p, q, held, None);
    assert forall i :: i in spec.identities ==> i.expectCapabilities == None;
    NothingDeclared(spec);
    UnrefusedReturnIff(spec);
  }

  lemma BackAndForthLoops(root: IdentityId, a: IdentityId, p: string, q: string, held: AuthoritySet,
                          declared: Option<AuthoritySet>)
    requires root != a && p != q
    ensures WellFormed(BackAndForth(root, a, p, q, held, declared))
    ensures !Loopless(BackAndForth(root, a, p, q, held, declared))
  {
    hide WellFormed, Follows;
    var spec := BackAndForth(root, a, p, q, held, declared);
    BackAndForthIs(root, a, p, q, held, declared);
    var d, e := spec.delegations[0], spec.delegations[1];
    EmptyStack(spec);
    FollowOne(spec.delegations, root, [], d);
    FollowOne(spec.delegations, root, [] + [d], e);
    assert [] + [d] + [e] == [d, e];
    assert IsStack(spec, [d, e]) && Stops(root, [d, e])[0] == Stops(root, [d, e])[2];
  }

  /** The same lookups loop where an authority is declared that is not the derived one, and the code raises. */
  lemma LoopIsRefused(root: IdentityId, a: IdentityId, p: string, q: string, held: AuthoritySet, other: AuthoritySet)
    requires root != a && p != q && held != other
    ensures var spec := BackAndForth(root, a, p, q, held, Some(other));
            WellFormed(spec) && UniqueTargets(spec.delegations) && UniqueDelegationIds(spec) && !Loopless(spec) &&
            Halts(spec) && IsStack(spec, []) &&
            WalkFrom(spec, [], 2).ending == Refused(ExpectationDisagrees(a, other, held))
  {
    hide WellFormed, UniqueTargets, UniqueDelegationIds, Loopless;
    var spec := BackAndForth(root, a, p, q, held, Some(other));
    BackAndForthIs(root, a, p, q, held, Some(other));
    BackAndForthLoops(root, a, p, q, held, Some(other));
    EmptyStack(spec);
    ChildStack(spec, [], 0);
    var d := spec.delegations[0];
    assert [] + [d] == [d] && [d][..0] == [];
    assert Derived(spec, [d]) == held;
    assert WalkFrom(spec, [d], 1).ending == Refused(ExpectationDisagrees(a, other, held));
    assert WalkBelow(spec, [], 0, 2).ending.Returned?;
    assert WalkBelow(spec, [], 1, 2).ending == WalkFrom(spec, [d], 1).ending;
    assert Refusal(spec, []).None?;
    assert |Children(spec, [])| == 1;
    assert WalkFrom(spec, [], 2).ending == WalkBelow(spec, [], 1, 2).ending;
  }

  /** Two delegations of one id whose lookups loop: the recursion never returns. */
  lemma RepeatedIdsNeverReturn(root: IdentityId, a: IdentityId, b: IdentityId, id: string, held: AuthoritySet)
    requires root != a && a != b && root != b && held != {}
    ensures var spec := Spec([Simple(root, true, held), Simple(a, false, {}), Simple(b, false, {})],
                             [Delegation(id, a, b, held, 900), Delegation(id, root, a, held, 900)]);
            WellFormed(spec) && UniqueTargets(spec.delegations) && !RootReentered(spec) && !Halts(spec)
  {
    hide WellFormed, UniqueTargets, RootReentered, Loopless, Halts;
    RepeatedIdsFindThemselves(root, a, b, id, held);
    var spec := Spec([Simple(root, true, held), Simple(a, false, {}), Simple(b, false, {})],
                     [Delegation(id, a, b, held, 900), Delegation(id, root, a, held, 900)]);
    assert forall i :: i in spec.identities ==> i.expectCapabilities == None;
    NothingDeclared(spec);
    UnrefusedReturnIff(spec);
  }
}
