/**
 The compiler's depth-first walk: each visit first checks the authority its identity declares, then follows what it
 looks up; and when that recursion returns.
 */
module Walks {
  import opened Wrappers
  import opened Outcomes
  import opened Models
  import opened Scenarios

  datatype CompileError =
    | DoublyTargeted(target: IdentityId, first: string, second: string)
    | ExpectationDisagrees(id: IdentityId, declared: AuthoritySet, derived: AuthoritySet)
    | NeverReached(ids: set<IdentityId>)

  // ---- One visit ------------------------------------------------------------------

  /** The root's capabilities cut down by every delegation of the chain. */
  ghost function Derived(spec: Spec, chain: seq<Delegation>): AuthoritySet
    requires WellFormed(spec)
  {
    if chain == [] then RootSpec(spec).capabilities
    else Derived(spec, chain[..|chain| - 1]) * chain[|chain| - 1].intended
  }

  /** Why the visit is refused, if it is: a declared authority that differs from the derived one. */
  ghost function Refusal(spec: Spec, chain: seq<Delegation>): Option<CompileError>
    requires WellFormed(spec) && IsStack(spec, chain)
  {
    TopKnown(spec, chain);
    var id := Top(spec, chain);
    var declared := SpecOf(spec, id).expectCapabilities;
    if declared.Some? && declared.value != Derived(spec, chain)
    then Some(ExpectationDisagrees(id, declared.value, Derived(spec, chain)))
    else None
  }

  /** The root holds the capability and every delegation of the chain intends it. */
  ghost predicate HeldAlong(spec: Spec, chain: seq<Delegation>, c: Capability)
    requires WellFormed(spec)
  {
    c in RootSpec(spec).capabilities && forall i :: 0 <= i < |chain| ==> c in chain[i].intended
  }

  lemma {:induction false} DerivedIs(spec: Spec, chain: seq<Delegation>)
    requires WellFormed(spec)
    ensures forall c :: c in Derived(spec, chain) <==> HeldAlong(spec, chain, c)
  {
    hide WellFormed;
    if chain != [] {
      var front := chain[..|chain| - 1];
      DerivedIs(spec, front);
      forall c ensures HeldAlong(spec, chain, c) <==>
        HeldAlong(spec, front, c) && c in chain[|chain| - 1].intended {
        assert forall i :: 0 <= i < |front| ==> front[i] == chain[i];
      }
    }
  }

  /**
   A visit is refused exactly if its identity declares an authority and that is not what is held along the chain;
   the error names the identity, what it declares, and what is held.
   */
  lemma RefusalIs(spec: Spec, chain: seq<Delegation>)
    requires WellFormed(spec) && IsStack(spec, chain)
    ensures Top(spec, chain) in Ids(spec)
    ensures var declared := SpecOf(spec, Top(spec, chain)).expectCapabilities;
            (Refusal(spec, chain).None? <==>
             declared.None? || forall c :: c in declared.value <==> HeldAlong(spec, chain, c)) &&
            (Refusal(spec, chain).Some? ==>
               exists derived: AuthoritySet ::
                 Refusal(spec, chain) == Some(ExpectationDisagrees(Top(spec, chain), declared.value, derived)) &&
                 forall c :: c in derived <==> HeldAlong(spec, chain, c))
  {
    TopKnown(spec, chain);
    DerivedIs(spec, chain);
    hide WellFormed, IsStack, Derived, HeldAlong, SpecIn;
    var declared := SpecOf(spec, Top(spec, chain)).expectCapabilities;
    if declared.Some? && forall c :: c in declared.value <==> HeldAlong(spec, chain, c) {
      assert forall c :: c in declared.value <==> c in Derived(spec, chain);
    }
  }

  ghost function Children(spec: Spec, chain: seq<Delegation>): seq<Delegation>
    requires WellFormed(spec)
  {
    Next(spec.delegations, Top(spec, chain))
  }

  lemma EmptyStack(spec: Spec)
    requires WellFormed(spec)
    ensures IsStack(spec, []) && Top(spec, []) == RootSpec(spec).id
  {
  }

  lemma ChildStack(spec: Spec, chain: seq<Delegation>, k: nat)
    requires WellFormed(spec) && IsStack(spec, chain) && k < |Children(spec, chain)|
    ensures IsStack(spec, chain + [Children(spec, chain)[k]])
    ensures Top(spec, chain + [Children(spec, chain)[k]]) == Children(spec, chain)[k].target
  {
    FollowOne(spec.delegations, RootSpec(spec).id, chain, Children(spec, chain)[k]);
  }

  // ---- The recursion ------------------------------------------------------------------

  datatype Ending = Returned | Refused(error: CompileError) | Unfinished

  /** The visits made, each as its stack of calls, and how making them ended. */
  datatype Walked = Walked(visits: seq<seq<Delegation>>, ending: Ending)

  /** What the visit on top of this stack does if calls may nest this deep, its own included: it refuses or recurs. */
  ghost function WalkFrom(spec: Spec, chain: seq<Delegation>, depth: nat): Walked
    requires WellFormed(spec) && IsStack(spec, chain)
    decreases depth, |Children(spec, chain)| + 1
  {
    if depth == 0 then
      Walked([], Unfinished)
    else if Refusal(spec, chain).Some? then
      Walked([chain], Refused(Refusal(spec, chain).value))
    else
      var below := WalkBelow(spec, chain, |Children(spec, chain)|, depth);
      Walked([chain] + below.visits, below.ending)
  }

  /** The calls made for the first k delegations it follows, up to the first that does not return. */
  ghost function WalkBelow(spec: Spec, chain: seq<Delegation>, k: nat, depth: nat): Walked
    requires WellFormed(spec) && IsStack(spec, chain) && k <= |Children(spec, chain)| && depth > 0
    decreases depth, k
  {
    if k == 0 then
      Walked([], Returned)
    else
      var before := WalkBelow(spec, chain, k - 1, depth);
      if !before.ending.Returned? then
        before
      else
        ChildStack(spec, chain, k - 1);
        var last := WalkFrom(spec, chain + [Children(spec, chain)[k - 1]], depth - 1);
        Walked(before.visits + last.visits, last.ending)
  }

  /** The recursion returns or raises: some depth of nesting is enough for it. */
  ghost predicate Halts(spec: Spec)
    requires WellFormed(spec)
  {
    EmptyStack(spec);
    exists depth :: !WalkFrom(spec, [], depth).ending.Unfinished?
  }

  // ---- The order of the walk --------------------------------------------------------------

  /** Where a delegation first stands among those followed. */
  function Position(children: seq<Delegation>, d: Delegation): (k: nat)
    ensures k <= |children| && (k < |children| ==> children[k] == d)
    ensures forall j :: 0 <= j < k ==> children[j] != d
  {
    if children == [] || children[0] == d then 0 else 1 + Position(children[1..], d)
  }

  ghost predicate PrecedesAt(spec: Spec, a: seq<Delegation>, b: seq<Delegation>, n: nat)
    requires WellFormed(spec)
  {
    n <= |a| && n < |b| && a[..n] == b[..n] &&
    (n == |a| || Position(Children(spec, a[..n]), a[n]) < Position(Children(spec, a[..n]), b[n]))
  }

  /** The walk comes to a first: b is called from a's visit, or where they part a follows the earlier delegation. */
  ghost predicate Precedes(spec: Spec, a: seq<Delegation>, b: seq<Delegation>)
    requires WellFormed(spec)
  {
    exists n: nat :: PrecedesAt(spec, a, b, n)
  }

  /** Neither this visit nor any the walk comes to before it is refused. */
  ghost predicate Clear(spec: Spec, c: seq<Delegation>)
    requires WellFormed(spec) && IsStack(spec, c)
  {
    Refusal(spec, c).None? && ClearBefore(spec, c)
  }

  ghost predicate ClearBefore(spec: Spec, c: seq<Delegation>)
    requires WellFormed(spec)
  {
    forall a :: IsStack(spec, a) && Precedes(spec, a, c) ==> Refusal(spec, a).None?
  }

  lemma PrefixPrecedes(spec: Spec, a: seq<Delegation>, b: seq<Delegation>)
    requires WellFormed(spec) && a < b
    ensures Precedes(spec, a, b)
  {
    assert PrecedesAt(spec, a, b, |a|);
  }

  /** Where two stacks part. */
  lemma {:induction false} Part(a: seq<Delegation>, b: seq<Delegation>) returns (n: nat)
    ensures n <= |a| && n <= |b| && a[..n] == b[..n] && (n == |a| || n == |b| || a[n] != b[n])
  {
    if a == [] || b == [] || a[0] != b[0] {
      n := 0;
    } else {
      var rest := Part(a[1..], b[1..]);
      n := rest + 1;
      assert a[..n] == [a[0]] + a[1..][..rest] && b[..n] == [b[0]] + b[1..][..rest];
    }
  }

  /** Of two different stacks the walk comes to one first. */
  lemma Comparable(spec: Spec, a: seq<Delegation>, b: seq<Delegation>)
    requires WellFormed(spec) && IsStack(spec, a) && IsStack(spec, b) && a != b
    ensures Precedes(spec, a, b) || Precedes(spec, b, a)
  {
    hide Children, WellFormed;
    var n := Part(a, b);
    if n == |a| {
      assert a == a[..n];
      assert PrecedesAt(spec, a, b, n) by { assert |a| != |b| || a == b; assert b[..|b|] == b; }
    } else if n == |b| {
      assert b == b[..n];
      assert PrecedesAt(spec, b, a, n);
    } else {
      Followed(spec, a, n);
      Followed(spec, b, n);
      assert PrecedesAt(spec, a, b, n) || PrecedesAt(spec, b, a, n);
    }
  }

  lemma Followed(spec: Spec, c: seq<Delegation>, n: nat)
    requires WellFormed(spec) && IsStack(spec, c) && n < |c|
    ensures IsStack(spec, c[..n]) && c[n] in Children(spec, c[..n])
    ensures Position(Children(spec, c[..n]), c[n]) < |Children(spec, c[..n])|
  {
    FollowedPrefix(spec.delegations, RootSpec(spec).id, c, n);
  }

  // ---- What an ending means ------------------------------------------------------------------

  ghost predicate Met(spec: Spec, c: seq<Delegation>, limit: nat)
    requires WellFormed(spec) && IsStack(spec, c)
  {
    Refusal(spec, c).None? && |c| < limit
  }

  /** The stacks that go on from this one through one of its first k delegations. */
  ghost predicate Through(spec: Spec, chain: seq<Delegation>, k: nat, c: seq<Delegation>)
    requires WellFormed(spec) && k <= |Children(spec, chain)|
  {
    IsStack(spec, c) && chain < c && c[|chain|] in Children(spec, chain)[..k]
  }

  ghost predicate AllMet(spec: Spec, chain: seq<Delegation>, k: nat, limit: nat)
    requires WellFormed(spec) && k <= |Children(spec, chain)|
  {
    forall c :: Through(spec, chain, k, c) ==> Met(spec, c, limit)
  }

  ghost predicate AllMetFrom(spec: Spec, chain: seq<Delegation>, limit: nat)
    requires WellFormed(spec)
  {
    forall c :: IsStack(spec, c) && chain <= c ==> Met(spec, c, limit)
  }

  /** All stacks below this one that the walk comes to before c. */
  ghost predicate MetBefore(spec: Spec, chain: seq<Delegation>, c: seq<Delegation>, limit: nat)
    requires WellFormed(spec)
  {
    forall a :: IsStack(spec, a) && chain < a && Precedes(spec, a, c) ==> Met(spec, a, limit)
  }

  ghost predicate MetBeforeFrom(spec: Spec, chain: seq<Delegation>, c: seq<Delegation>, limit: nat)
    requires WellFormed(spec)
  {
    forall a :: IsStack(spec, a) && chain <= a && Precedes(spec, a, c) ==> Met(spec, a, limit)
  }

  /** Where the walk stopped: refused for this, or at the depth it may not go beyond. */
  ghost predicate StoppedAt(spec: Spec, c: seq<Delegation>, ending: Ending, limit: nat)
    requires WellFormed(spec)
  {
    IsStack(spec, c) && if ending.Refused? then Refusal(spec, c) == Some(ending.error) else |c| == limit
  }

  lemma NothingPrecedes(spec: Spec, chain: seq<Delegation>, limit: nat)
    requires WellFormed(spec)
    ensures MetBeforeFrom(spec, chain, chain, limit)
  {
    forall a | IsStack(spec, a) && chain <= a ensures !Precedes(spec, a, chain) {
      forall n: nat ensures !PrecedesAt(spec, a, chain, n) {}
    }
  }

  /** Among stacks that go on from one, those that precede c go through an earlier delegation or the same. */
  lemma MetSoFar(spec: Spec, chain: seq<Delegation>, k: nat, c: seq<Delegation>, limit: nat)
    requires WellFormed(spec) && k < |Children(spec, chain)| && AllMet(spec, chain, k, limit)
    requires chain + [Children(spec, chain)[k]] <= c
    requires MetBeforeFrom(spec, chain + [Children(spec, chain)[k]], c, limit)
    ensures MetBefore(spec, chain, c, limit)
  {
    hide Children, IsStack, WellFormed, Met;
    var child := chain + [Children(spec, chain)[k]];
    forall a | IsStack(spec, a) && chain < a && Precedes(spec, a, c) ensures Met(spec, a, limit) {
      var n: nat :| PrecedesAt(spec, a, c, n);
      assert chain == a[..|chain|] == c[..|chain|] && c[|chain|] == child[|chain|];
      if n == |chain| {
        Followed(spec, a, n);
        assert Through(spec, chain, k, a);
      } else if n > |chain| {
        assert a[..n][..|child|] == c[..n][..|child|] == child;
      }
    }
  }

  lemma GoesThrough(spec: Spec, chain: seq<Delegation>, k: nat, limit: nat)
    requires WellFormed(spec) && k < |Children(spec, chain)| && AllMet(spec, chain, k, limit)
    requires AllMetFrom(spec, chain + [Children(spec, chain)[k]], limit)
    ensures AllMet(spec, chain, k + 1, limit)
  {
    hide Children, IsStack, WellFormed, Met;
    forall c | Through(spec, chain, k + 1, c) ensures Met(spec, c, limit) {
      var j :| 0 <= j < k + 1 && Children(spec, chain)[..k + 1][j] == c[|chain|];
      if j < k { assert Children(spec, chain)[..k][j] == c[|chain|]; }
    }
  }

  lemma FollowsAll(spec: Spec, chain: seq<Delegation>, limit: nat)
    requires WellFormed(spec) && IsStack(spec, chain) && Met(spec, chain, limit)
    ensures AllMet(spec, chain, |Children(spec, chain)|, limit) ==> AllMetFrom(spec, chain, limit)
    ensures forall c :: chain < c && MetBefore(spec, chain, c, limit) ==> MetBeforeFrom(spec, chain, c, limit)
  {
    hide IsStack, WellFormed, Met;
    if AllMet(spec, chain, |Children(spec, chain)|, limit) {
      forall c | IsStack(spec, c) && chain <= c ensures Met(spec, c, limit) {
        if c != chain {
          Followed(spec, c, |chain|);
          assert c[..|chain|] == chain;
          assert Through(spec, chain, |Children(spec, chain)|, c);
        }
      }
    }
    forall c, a | chain < c && MetBefore(spec, chain, c, limit) && IsStack(spec, a) && chain <= a &&
      Precedes(spec, a, c)
      ensures Met(spec, a, limit)
    {
      assert a == chain || chain < a;
    }
  }

  lemma MetHere(spec: Spec, c: seq<Delegation>, limit: nat)
    requires WellFormed(spec) && IsStack(spec, c) && Refusal(spec, c).None? && |c| < limit
    ensures Met(spec, c, limit)
  {
  }

  /** What follows from how a visit ends: it returns only if all its stacks are met, and else stops at the first not. */
  lemma {:induction false} WalkFromMeans(spec: Spec, chain: seq<Delegation>, depth: nat) returns (c: seq<Delegation>)
    requires WellFormed(spec) && IsStack(spec, chain)
    ensures var ending, limit := WalkFrom(spec, chain, depth).ending, |chain| + depth;
            if ending.Returned? then AllMetFrom(spec, chain, limit)
            else chain <= c && StoppedAt(spec, c, ending, limit) && MetBeforeFrom(spec, chain, c, limit)
    decreases depth, |Children(spec, chain)| + 1
  {
    hide WellFormed, IsStack, Children, Met, AllMet, AllMetFrom, MetBefore, MetBeforeFrom;
    if depth == 0 || Refusal(spec, chain).Some? {
      c := chain;
      NothingPrecedes(spec, chain, |chain| + depth);
    } else {
      c := WalkBelowMeans(spec, chain, |Children(spec, chain)|, depth);
      MetHere(spec, chain, |chain| + depth);
      FollowsAll(spec, chain, |chain| + depth);
    }
  }

  lemma {:induction false} WalkBelowMeans(spec: Spec, chain: seq<Delegation>, k: nat, depth: nat)
    returns (c: seq<Delegation>)
    requires WellFormed(spec) && IsStack(spec, chain) && k <= |Children(spec, chain)| && depth > 0
    ensures var ending, limit := WalkBelow(spec, chain, k, depth).ending, |chain| + depth;
            if ending.Returned? then AllMet(spec, chain, k, limit)
            else chain < c && StoppedAt(spec, c, ending, limit) && MetBefore(spec, chain, c, limit)
    decreases depth, k
  {
    hide WellFormed, IsStack, Children, Met, AllMet, AllMetFrom, MetBefore, MetBeforeFrom, StoppedAt;
    c := chain;
    if k == 0 {
      NoneThrough(spec, chain, |chain| + depth);
    } else {
      c := WalkBelowMeans(spec, chain, k - 1, depth);
      if WalkBelow(spec, chain, k - 1, depth).ending.Returned? {
        ChildStack(spec, chain, k - 1);
        var child := chain + [Children(spec, chain)[k - 1]];
        c := WalkFromMeans(spec, child, depth - 1);
        if WalkFrom(spec, child, depth - 1).ending.Returned? {
          GoesThrough(spec, chain, k - 1, |chain| + depth);
        } else {
          MetSoFar(spec, chain, k - 1, c, |chain| + depth);
        }
      }
    }
  }

  lemma NoneThrough(spec: Spec, chain: seq<Delegation>, limit: nat)
    requires WellFormed(spec)
    ensures AllMet(spec, chain, 0, limit)
  {
  }
}
