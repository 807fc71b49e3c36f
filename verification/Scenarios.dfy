/**
 Scenario specifications: what their schema guarantees, how the compiler looks delegations up,
 and how deep those lookups can nest.
 */
module Scenarios {
  import opened Wrappers
  import opened Outcomes
  import opened Models
  import opened Acyclicity

  datatype IdentitySpec = IdentitySpec(
    id: IdentityId,
    isRoot: bool,
    providerBinding: string,
    capabilities: AuthoritySet,
    expectCapabilities: Option<AuthoritySet>)

  datatype Delegation = Delegation(
    id: string,
    source: IdentityId,
    target: IdentityId,
    intended: AuthoritySet,
    lifetimeS: int)

  datatype Spec = Spec(identities: seq<IdentitySpec>, delegations: seq<Delegation>)

  // ---- What the schema guarantees -------------------------------------------

  /** Distinct identity ids, exactly one root, and delegations between declared identities. */
  predicate WellFormed(spec: Spec) {
    (forall i, j :: 0 <= i < j < |spec.identities| ==> spec.identities[i].id != spec.identities[j].id) &&
    (exists i :: 0 <= i < |spec.identities| && spec.identities[i].isRoot &&
                 forall j :: 0 <= j < |spec.identities| && spec.identities[j].isRoot ==> j == i) &&
    (forall k :: 0 <= k < |spec.delegations| ==>
                   spec.delegations[k].source in Ids(spec) && spec.delegations[k].target in Ids(spec))
  }

  function Ids(spec: Spec): set<IdentityId> {
    set i | i in spec.identities :: i.id
  }

  function RootSpec(spec: Spec): (root: IdentitySpec)
    requires WellFormed(spec)
    ensures root in spec.identities && root.isRoot && root.id in Ids(spec)
    ensures forall i :: i in spec.identities && i.isRoot ==> i == root
  {
    FirstRoot(spec.identities)
  }

  function FirstRoot(identities: seq<IdentitySpec>): (root: IdentitySpec)
    requires exists i :: 0 <= i < |identities| && identities[i].isRoot
    ensures root in identities && root.isRoot
  {
    if identities[0].isRoot then identities[0] else FirstRoot(identities[1..])
  }

  function SpecOf(spec: Spec, id: IdentityId): (i: IdentitySpec)
    requires id in Ids(spec)
    ensures i in spec.identities && i.id == id
  {
    SpecIn(spec.identities, id)
  }

  function SpecIn(identities: seq<IdentitySpec>, id: IdentityId): (i: IdentitySpec)
    requires exists k :: 0 <= k < |identities| && identities[k].id == id
    ensures i in identities && i.id == id
  {
    if identities[0].id == id then identities[0] else SpecIn(identities[1..], id)
  }

  // ---- What the schema does not guarantee ------------------------------------

  predicate UniqueDelegationIds(spec: Spec) {
    forall i, j :: 0 <= i < j < |spec.delegations| ==> spec.delegations[i].id != spec.delegations[j].id
  }

  predicate UniqueTargets(delegations: seq<Delegation>) {
    forall i, j :: 0 <= i < j < |delegations| ==> delegations[i].target != delegations[j].target
  }

  // ---- Indexing the delegations ----------------------------------------------

  /** The delegations leaving v, in declaration order. */
  function Outgoing(delegations: seq<Delegation>, v: IdentityId): seq<Delegation> {
    if delegations == [] then
      []
    else
      var last := delegations[|delegations| - 1];
      Outgoing(delegations[..|delegations| - 1], v) + (if last.source == v then [last] else [])
  }

  function DelegationIds(delegations: seq<Delegation>): (ids: seq<string>)
    ensures |ids| == |delegations|
  {
    seq(|delegations|, i requires 0 <= i < |delegations| => delegations[i].id)
  }

  lemma {:induction false} OutgoingExact(delegations: seq<Delegation>, v: IdentityId, d: Delegation)
    ensures d in Outgoing(delegations, v) <==> d in delegations && d.source == v
  {
    if delegations != [] {
      OutgoingExact(delegations[..|delegations| - 1], v, d);
      assert delegations == delegations[..|delegations| - 1] + [delegations[|delegations| - 1]];
    }
  }

  lemma {:induction false} OutgoingUnique(delegations: seq<Delegation>, v: IdentityId)
    requires UniqueTargets(delegations)
    ensures UniqueTargets(Outgoing(delegations, v))
  {
    if delegations != [] {
      var front, last := delegations[..|delegations| - 1], delegations[|delegations| - 1];
      OutgoingUnique(front, v);
      var kept := Outgoing(front, v);
      forall i | 0 <= i < |kept| ensures kept[i].target != last.target {
        OutgoingExact(front, v, kept[i]);
      }
    }
  }

  /** `children_by_parent`: per identity, the ids of the delegations leaving it. */
  function ChildMap(delegations: seq<Delegation>): map<IdentityId, seq<string>> {
    if delegations == [] then
      map[]
    else
      var front, last := ChildMap(delegations[..|delegations| - 1]), delegations[|delegations| - 1];
      front[last.source := ChildrenIn(front, last.source) + [last.id]]
  }

  function ChildrenIn(children: map<IdentityId, seq<string>>, v: IdentityId): seq<string> {
    if v in children then children[v] else []
  }

  /** `delegation_by_id`: a later delegation with the same id replaces an earlier one. */
  function ById(delegations: seq<Delegation>): map<string, Delegation> {
    if delegations == [] then
      map[]
    else
      var last := delegations[|delegations| - 1];
      ById(delegations[..|delegations| - 1])[last.id := last]
  }

  /** `targets_seen`: which delegation last targeted an identity. */
  function TargetsSeen(delegations: seq<Delegation>): map<IdentityId, string> {
    if delegations == [] then
      map[]
    else
      var last := delegations[|delegations| - 1];
      TargetsSeen(delegations[..|delegations| - 1])[last.target := last.id]
  }

  lemma {:induction false} ChildMapExact(delegations: seq<Delegation>, v: IdentityId)
    ensures ChildrenIn(ChildMap(delegations), v) == DelegationIds(Outgoing(delegations, v))
  {
    if delegations != [] {
      ChildMapExact(delegations[..|delegations| - 1], v);
    }
  }

  lemma {:induction false} TargetsSeenExact(delegations: seq<Delegation>, t: IdentityId)
    ensures t in TargetsSeen(delegations) <==> exists i :: 0 <= i < |delegations| && delegations[i].target == t
    ensures t in TargetsSeen(delegations) ==> exists i :: 0 <= i < |delegations| && delegations[i].target == t &&
                                                          delegations[i].id == TargetsSeen(delegations)[t]
  {
    if delegations != [] {
      var front, n := delegations[..|delegations| - 1], |delegations| - 1;
      TargetsSeenExact(front, t);
      assert delegations[n].target == t ==> t in TargetsSeen(delegations);
      if t in TargetsSeen(front) && delegations[n].target != t {
        var i :| 0 <= i < |front| && front[i].target == t && front[i].id == TargetsSeen(front)[t];
        assert delegations[i] == front[i];
      }
      if i :| 0 <= i < |delegations| && delegations[i].target == t {
        assert i < n ==> front[i].target == t;
      }
    }
  }

  // ---- What the walk follows -------------------------------------------------

  /** Looking an id up finds the last delegation that carries it. */
  lemma {:induction false} ByIdFinds(delegations: seq<Delegation>, id: string)
    ensures id in ById(delegations) <==> exists k :: 0 <= k < |delegations| && delegations[k].id == id
    ensures id in ById(delegations) ==> ById(delegations)[id] in delegations && ById(delegations)[id].id == id
  {
    if delegations != [] {
      var front, n := delegations[..|delegations| - 1], |delegations| - 1;
      ByIdFinds(front, id);
      assert delegations == front + [delegations[n]];
      if delegations[n].id == id { assert id in ById(delegations); }
      if k :| 0 <= k < |delegations| && delegations[k].id == id { assert k < n ==> front[k].id == id; }
      if k :| 0 <= k < |front| && front[k].id == id { assert delegations[k].id == id; }
    }
  }

  lemma {:induction false} ByIdIsLast(delegations: seq<Delegation>, k: nat)
    requires k < |delegations| && forall j :: k < j < |delegations| ==> delegations[j].id != delegations[k].id
    ensures delegations[k].id in ById(delegations) && ById(delegations)[delegations[k].id] == delegations[k]
  {
    if k < |delegations| - 1 { ByIdIsLast(delegations[..|delegations| - 1], k); }
  }

  lemma ChildIdKnown(delegations: seq<Delegation>, v: IdentityId, i: nat)
    requires i < |ChildrenIn(ChildMap(delegations), v)|
    ensures ChildrenIn(ChildMap(delegations), v)[i] in ById(delegations)
  {
    ChildMapExact(delegations, v);
    var d := Outgoing(delegations, v)[i];
    OutgoingExact(delegations, v, d);
    ByIdFinds(delegations, d.id);
  }

  lemma ChildIdsKnown(delegations: seq<Delegation>, v: IdentityId)
    ensures forall i :: 0 <= i < |ChildrenIn(ChildMap(delegations), v)| ==>
                          ChildrenIn(ChildMap(delegations), v)[i] in ById(delegations)
  {
    forall i | 0 <= i < |ChildrenIn(ChildMap(delegations), v)|
      ensures ChildrenIn(ChildMap(delegations), v)[i] in ById(delegations)
    {
      ChildIdKnown(delegations, v, i);
    }
  }

  /**
   The delegations the walk follows from v: it takes the ids of those that leave v and looks each id up,
   so when ids repeat it may follow a delegation that leaves some other identity.
   */
  ghost function Next(delegations: seq<Delegation>, v: IdentityId): (r: seq<Delegation>)
    ensures |r| == |ChildrenIn(ChildMap(delegations), v)|
  {
    var ids := ChildrenIn(ChildMap(delegations), v);
    ChildIdsKnown(delegations, v);
    seq(|ids|, i requires 0 <= i < |ids| => ById(delegations)[ids[i]])
  }

  lemma NextExact(delegations: seq<Delegation>, v: IdentityId)
    ensures |Next(delegations, v)| == |Outgoing(delegations, v)|
    ensures forall i :: 0 <= i < |Next(delegations, v)| ==>
                          Next(delegations, v)[i] in delegations &&
                          Next(delegations, v)[i].id == Outgoing(delegations, v)[i].id
    ensures forall i :: 0 <= i < |Next(delegations, v)| ==>
                          Next(delegations, v)[i].id in ById(delegations) &&
                          Next(delegations, v)[i] == ById(delegations)[Next(delegations, v)[i].id]
  {
    ChildMapExact(delegations, v);
    forall i | 0 <= i < |Next(delegations, v)|
      ensures Next(delegations, v)[i] in delegations && Next(delegations, v)[i].id == Outgoing(delegations, v)[i].id
    {
      ByIdFinds(delegations, Outgoing(delegations, v)[i].id);
    }
  }

  /** A delegation that leaves v sends the walk to whatever carries its id. */
  lemma LeavingIsFollowed(delegations: seq<Delegation>, d: Delegation)
    requires d in delegations
    ensures d.id in ById(delegations) && ById(delegations)[d.id] in Next(delegations, d.source)
  {
    OutgoingExact(delegations, d.source, d);
    NextExact(delegations, d.source);
    var i :| 0 <= i < |Outgoing(delegations, d.source)| && Outgoing(delegations, d.source)[i] == d;
    assert Next(delegations, d.source)[i] in Next(delegations, d.source);
  }

  /** With unique ids the walk follows exactly the delegations that leave an identity. */
  lemma UniqueIdsFollowOwn(delegations: seq<Delegation>, v: IdentityId)
    requires forall i, j :: 0 <= i < j < |delegations| ==> delegations[i].id != delegations[j].id
    ensures Next(delegations, v) == Outgoing(delegations, v)
  {
    NextExact(delegations, v);
    forall i | 0 <= i < |Next(delegations, v)| ensures Next(delegations, v)[i] == Outgoing(delegations, v)[i] {
      var d := Outgoing(delegations, v)[i];
      OutgoingExact(delegations, v, d);
      var k :| 0 <= k < |delegations| && delegations[k] == d;
      ByIdIsLast(delegations, k);
    }
  }

  // ---- Chains of delegations --------------------------------------------------

  /** Where a chain that starts at v ends. */
  function Tip(v: IdentityId, chain: seq<Delegation>): IdentityId {
    if chain == [] then v else chain[|chain| - 1].target
  }

  /** The identities a chain passes through, the one it starts at first. */
  function Stops(v: IdentityId, chain: seq<Delegation>): (w: seq<IdentityId>)
    ensures |w| == |chain| + 1
  {
    [v] + seq(|chain|, i requires 0 <= i < |chain| => chain[i].target)
  }

  lemma StopsAre(v: IdentityId, chain: seq<Delegation>, i: nat)
    requires i <= |chain|
    ensures Stops(v, chain)[i] == Tip(v, chain[..i])
  {
  }

  /** Each delegation of the chain is declared and leaves the identity reached so far. */
  ghost predicate Declared(delegations: seq<Delegation>, v: IdentityId, chain: seq<Delegation>) {
    chain == [] ||
    var front, last := chain[..|chain| - 1], chain[|chain| - 1];
    Declared(delegations, v, front) && last in delegations && last.source == Tip(v, front)
  }

  /** Some chain of declared delegations leads from the root back into the root. */
  ghost predicate RootReentered(spec: Spec)
    requires WellFormed(spec)
  {
    var root := RootSpec(spec).id;
    exists chain :: chain != [] && Declared(spec.delegations, root, chain) && Tip(root, chain) == root
  }

  /** A stack of nested visits: each delegation of the chain is one the walk follows from where it has got to. */
  ghost predicate Follows(delegations: seq<Delegation>, v: IdentityId, chain: seq<Delegation>) {
    chain == [] ||
    var front, last := chain[..|chain| - 1], chain[|chain| - 1];
    Follows(delegations, v, front) && last in Next(delegations, Tip(v, front))
  }

  ghost predicate IsStack(spec: Spec, chain: seq<Delegation>)
    requires WellFormed(spec)
  {
    Follows(spec.delegations, RootSpec(spec).id, chain)
  }

  /** Where a stack of visits that starts at the root has got to. */
  function Top(spec: Spec, chain: seq<Delegation>): IdentityId
    requires WellFormed(spec)
  {
    Tip(RootSpec(spec).id, chain)
  }

  /** By the lookups alone, no stack of visits comes back to an identity it is still visiting. */
  ghost predicate Loopless(spec: Spec)
    requires WellFormed(spec)
  {
    forall chain :: IsStack(spec, chain) ==> Distinct(Stops(RootSpec(spec).id, chain))
  }

  lemma {:induction false} FollowedPrefix(delegations: seq<Delegation>, v: IdentityId, chain: seq<Delegation>, i: nat)
    requires Follows(delegations, v, chain) && i <= |chain|
    ensures Follows(delegations, v, chain[..i])
    ensures i < |chain| ==> chain[i] in Next(delegations, Tip(v, chain[..i]))
  {
    if i == |chain| {
      assert chain[..i] == chain;
    } else {
      var front := chain[..|chain| - 1];
      FollowedPrefix(delegations, v, front, i);
      assert front[..i] == chain[..i];
    }
  }

  lemma FollowOne(delegations: seq<Delegation>, v: IdentityId, chain: seq<Delegation>, d: Delegation)
    requires Follows(delegations, v, chain) && d in Next(delegations, Tip(v, chain))
    ensures Follows(delegations, v, chain + [d]) && Tip(v, chain + [d]) == d.target
  {
    assert (chain + [d])[..|chain|] == chain;
  }

  lemma {:induction false} FollowOn(delegations: seq<Delegation>, v: IdentityId, a: seq<Delegation>, b: seq<Delegation>)
    requires Follows(delegations, v, a)
    ensures Follows(delegations, Tip(v, a), b) <==> Follows(delegations, v, a + b)
    ensures Tip(v, a + b) == Tip(Tip(v, a), b)
  {
    if b == [] {
      assert a + b == a;
    } else {
      FollowOn(delegations, v, a, b[..|b| - 1]);
      assert (a + b)[..|a + b| - 1] == a + b[..|b| - 1];
    }
  }

  /** Wherever the walk gets to is a declared identity. */
  lemma TopKnown(spec: Spec, chain: seq<Delegation>)
    requires WellFormed(spec) && IsStack(spec, chain)
    ensures Top(spec, chain) in Ids(spec)
  {
    if chain != [] {
      var front, last := chain[..|chain| - 1], chain[|chain| - 1];
      NextExact(spec.delegations, Tip(RootSpec(spec).id, front));
      var k :| 0 <= k < |spec.delegations| && spec.delegations[k] == last;
    }
  }

  lemma StopsKnown(spec: Spec, chain: seq<Delegation>)
    requires WellFormed(spec) && IsStack(spec, chain)
    ensures forall v :: v in Stops(RootSpec(spec).id, chain) ==> v in Ids(spec)
  {
    var root := RootSpec(spec).id;
    forall v | v in Stops(root, chain) ensures v in Ids(spec) {
      var i :| 0 <= i < |Stops(root, chain)| && Stops(root, chain)[i] == v;
      StopsAre(root, chain, i);
      FollowedPrefix(spec.delegations, root, chain, i);
      TopKnown(spec, chain[..i]);
    }
  }

  // ---- How deep lookups nest --------------------------------------------------

  /** By the lookups alone, the walk could be n visits deep below the root's. */
  ghost predicate NestedVisits(spec: Spec, n: nat)
    requires WellFormed(spec)
  {
    exists chain :: |chain| == n && IsStack(spec, chain)
  }

  /** If no visit comes back, the walk is never deeper than there are identities. */
  lemma DepthBounded(spec: Spec, chain: seq<Delegation>)
    requires WellFormed(spec) && Loopless(spec) && IsStack(spec, chain)
    ensures |chain| < |Ids(spec)|
  {
    var stops := Stops(RootSpec(spec).id, chain);
    StopsKnown(spec, chain);
    DistinctCardinality(stops);
    SubsetCardinality(ToSet(stops), Ids(spec));
  }

  lemma {:induction false} LoopAgain(delegations: seq<Delegation>, v: IdentityId, loop: seq<Delegation>, n: nat)
    returns (chain: seq<Delegation>)
    requires loop != [] && Follows(delegations, v, loop) && Tip(v, loop) == v
    ensures |chain| >= n && Follows(delegations, v, chain) && Tip(v, chain) == v
  {
    if n == 0 {
      chain := [];
    } else {
      var rest := LoopAgain(delegations, v, loop, n - 1);
      FollowOn(delegations, v, loop, rest);
      chain := loop + rest;
    }
  }

  /** What a stack of visits does between two of its stops. */
  lemma Between(delegations: seq<Delegation>, v: IdentityId, chain: seq<Delegation>, i: nat, j: nat)
    requires Follows(delegations, v, chain) && i <= j <= |chain|
    ensures Follows(delegations, v, chain[..i]) && Tip(v, chain[..i]) == Stops(v, chain)[i]
    ensures Follows(delegations, Stops(v, chain)[i], chain[i..j]) &&
            Tip(Stops(v, chain)[i], chain[i..j]) == Stops(v, chain)[j]
  {
    hide Follows, Tip, Stops;
    StopsAre(v, chain, i);
    StopsAre(v, chain, j);
    FollowedPrefix(delegations, v, chain, i);
    FollowedPrefix(delegations, v, chain, j);
    assert chain[..i] + chain[i..j] == chain[..j];
    FollowOn(delegations, v, chain[..i], chain[i..j]);
  }

  /** A visit that comes back to v, below v, can come back any number of times. */
  lemma ReturnNests(spec: Spec, chain: seq<Delegation>, i: nat, j: nat, n: nat)
    requires WellFormed(spec) && IsStack(spec, chain) && i < j <= |chain|
    requires Stops(RootSpec(spec).id, chain)[i] == Stops(RootSpec(spec).id, chain)[j]
    ensures NestedVisits(spec, n)
  {
    hide Follows, Tip, Stops, WellFormed;
    var root, before := RootSpec(spec).id, chain[..i];
    Between(spec.delegations, root, chain, i, j);
    var again := LoopAgain(spec.delegations, Tip(root, before), chain[i..j], n);
    FollowOn(spec.delegations, root, before, again);
    FollowedPrefix(spec.delegations, root, before + again, n);
    assert IsStack(spec, (before + again)[..n]);
  }

  /** Lookups nest without bound exactly when some visit can come back to an identity still being visited. */
  lemma LooplessIffBounded(spec: Spec)
    requires WellFormed(spec)
    ensures Loopless(spec) <==> !(forall n: nat :: NestedVisits(spec, n))
  {
    if Loopless(spec) {
      if NestedVisits(spec, |Ids(spec)|) {
        var chain :| |chain| == |Ids(spec)| && IsStack(spec, chain);
        DepthBounded(spec, chain);
      }
    } else {
      var chain :| IsStack(spec, chain) && !Distinct(Stops(RootSpec(spec).id, chain));
      var stops := Stops(RootSpec(spec).id, chain);
      var i, j :| 0 <= i < j < |stops| && stops[i] == stops[j];
      forall n: nat ensures NestedVisits(spec, n) { ReturnNests(spec, chain, i, j, n); }
    }
  }

  lemma {:induction false} DeclaredIsFollowed(delegations: seq<Delegation>, v: IdentityId, chain: seq<Delegation>)
    requires forall i, j :: 0 <= i < j < |delegations| ==> delegations[i].id != delegations[j].id
    ensures Declared(delegations, v, chain) <==> Follows(delegations, v, chain)
  {
    if chain != [] {
      var front, last := chain[..|chain| - 1], chain[|chain| - 1];
      DeclaredIsFollowed(delegations, v, front);
      UniqueIdsFollowOwn(delegations, Tip(v, front));
      OutgoingExact(delegations, Tip(v, front), last);
    }
  }

  lemma SameTargetSame(delegations: seq<Delegation>, d: Delegation, e: Delegation)
    requires UniqueTargets(delegations) && d in delegations && e in delegations && d.target == e.target
    ensures d == e
  {
    var i :| 0 <= i < |delegations| && delegations[i] == d;
    var j :| 0 <= j < |delegations| && delegations[j] == e;
  }

  /** Unique targets: of two declared chains from v with the same end, the shorter one ends the longer one. */
  lemma {:induction false} SameEnd(delegations: seq<Delegation>, v: IdentityId, a: seq<Delegation>, b: seq<Delegation>)
    requires UniqueTargets(delegations) && Declared(delegations, v, a) && Declared(delegations, v, b)
    requires |a| <= |b| && Tip(v, a) == Tip(v, b)
    ensures Tip(v, b[..|b| - |a|]) == v && b[|b| - |a|..] == a
  {
    if a == [] {
      assert b[..|b|] == b;
    } else {
      var x, y := a[..|a| - 1], b[..|b| - 1];
      SameTargetSame(delegations, a[|a| - 1], b[|b| - 1]);
      SameEnd(delegations, v, x, y);
      assert y[..|y| - |x|] == b[..|b| - |a|];
      assert b[|b| - |a|..] == y[|y| - |x|..] + [b[|b| - 1]] && a == x + [a[|a| - 1]];
    }
  }

  lemma LoopReenters(spec: Spec, chain: seq<Delegation>)
    requires WellFormed(spec) && UniqueDelegationIds(spec) && UniqueTargets(spec.delegations)
    requires IsStack(spec, chain) && !Distinct(Stops(RootSpec(spec).id, chain))
    ensures RootReentered(spec)
  {
    hide WellFormed, Follows, Declared, Tip, Stops, UniqueTargets;
    var root := RootSpec(spec).id;
    var i, j :| 0 <= i < j <= |chain| && Stops(root, chain)[i] == Stops(root, chain)[j];
    Between(spec.delegations, root, chain, i, i);
    Between(spec.delegations, root, chain, j, j);
    Between(spec.delegations, root, chain, j - i, j - i);
    DeclaredIsFollowed(spec.delegations, root, chain[..i]);
    DeclaredIsFollowed(spec.delegations, root, chain[..j]);
    DeclaredIsFollowed(spec.delegations, root, chain[..j - i]);
    SameEnd(spec.delegations, root, chain[..i], chain[..j]);
    assert chain[..j][..j - i] == chain[..j - i];
  }

  /**
   With unique delegation ids and unique targets, whether lookups loop is a matter of the declared delegations
   alone: they do if and only if some chain of them leads back into the root.
   */
  lemma LooplessIffRootNotReentered(spec: Spec)
    requires WellFormed(spec) && UniqueDelegationIds(spec) && UniqueTargets(spec.delegations)
    ensures Loopless(spec) <==> !RootReentered(spec)
  {
    var root := RootSpec(spec).id;
    if RootReentered(spec) {
      var chain :| chain != [] && Declared(spec.delegations, root, chain) && Tip(root, chain) == root;
      DeclaredIsFollowed(spec.delegations, root, chain);
      assert IsStack(spec, chain) && Stops(root, chain)[0] == Stops(root, chain)[|chain|];
    }
    forall chain | IsStack(spec, chain) && !Distinct(Stops(root, chain)) ensures RootReentered(spec) {
      LoopReenters(spec, chain);
    }
  }

  // ---- Where ids repeat ----------------------------------------------------------

  function Simple(id: IdentityId, isRoot: bool, capabilities: AuthoritySet): IdentitySpec {
    IdentitySpec(id, isRoot, "", capabilities, None)
  }

  lemma SimpleIds(root: IdentityId, a: IdentityId, b: IdentityId, held: AuthoritySet, spec: Spec)
    requires spec.identities == [Simple(root, true, held), Simple(a, false, {}), Simple(b, false, {})]
    ensures Ids(spec) == {root, a, b}
  {
    var ids := spec.identities;
    assert ids[0].id == root && ids[1].id == a && ids[2].id == b;
    assert ids[0] in ids && ids[1] in ids && ids[2] in ids;
  }

  lemma SimpleIsWellFormed(root: IdentityId, a: IdentityId, b: IdentityId, held: AuthoritySet, spec: Spec)
    requires root != a && a != b && root != b
    requires spec.identities == [Simple(root, true, held), Simple(a, false, {}), Simple(b, false, {})]
    requires forall d :: d in spec.delegations ==> d.source in {root, a, b} && d.target in {root, a, b}
    ensures WellFormed(spec) && RootSpec(spec).id == root && Ids(spec) == {root, a, b}
  {
    hide Ids, FirstRoot;
    SimpleIds(root, a, b, held, spec);
    var ids := spec.identities;
    assert ids[0].isRoot && forall j :: 0 <= j < |ids| && ids[j].isRoot ==> j == 0;
    forall k | 0 <= k < |spec.delegations|
      ensures spec.delegations[k].source in Ids(spec) && spec.delegations[k].target in Ids(spec)
    {
      assert spec.delegations[k] in spec.delegations;
    }
  }

  lemma OutgoingOfThree(d: Delegation, e: Delegation, f: Delegation, v: IdentityId)
    ensures Outgoing([d, e, f], v) ==
            (if d.source == v then [d] else []) + (if e.source == v then [e] else []) +
              (if f.source == v then [f] else [])
    ensures Outgoing([d, e], v) == (if d.source == v then [d] else []) + (if e.source == v then [e] else [])
  {
    assert [d, e, f][..2] == [d, e] && [d, e][..1] == [d] && [d][..0] == [];
    assert Outgoing([d], v) == (if d.source == v then [d] else []);
  }

  lemma SelfLookups(root: IdentityId, d: Delegation, e: Delegation)
    requires d.id == e.id && d.source == e.target && e.source == root && root != e.target
    ensures Next([d, e], root) == [e] && Next([d, e], e.target) == [e]
  {
    ByIdIsLast([d, e], 1);
    OutgoingOfThree(d, e, e, root);
    OutgoingOfThree(d, e, e, e.target);
    NextExact([d, e], root);
    NextExact([d, e], e.target);
  }

  lemma SelfFollows(root: IdentityId, d: Delegation, e: Delegation)
    requires d.id == e.id && d.source == e.target && e.source == root && root != e.target
    ensures Follows([d, e], root, [e, e]) && !Distinct(Stops(root, [e, e]))
  {
    hide Follows, Next;
    SelfLookups(root, d, e);
    assert Follows([d, e], root, []) by { NoFollowing([d, e], root); }
    FollowOne([d, e], root, [], e);
    FollowOne([d, e], root, [] + [e], e);
    assert [] + [e] + [e] == [e, e];
    assert Stops(root, [e, e])[1] == Stops(root, [e, e])[2];
  }

  lemma NoFollowing(delegations: seq<Delegation>, v: IdentityId)
    ensures Follows(delegations, v, [])
  {
  }

  /**
   Two delegations of one id: looking up the child of `a` finds the delegation into `a`, so lookups loop
   although no chain of declared delegations comes back anywhere.
   */
  lemma RepeatedIdsFindThemselves(root: IdentityId, a: IdentityId, b: IdentityId, id: string, held: AuthoritySet)
    requires root != a && a != b && root != b && held != {}
    ensures var spec := Spec([Simple(root, true, held), Simple(a, false, {}), Simple(b, false, {})],
                             [Delegation(id, a, b, held, 900), Delegation(id, root, a, held, 900)]);
            WellFormed(spec) && UniqueTargets(spec.delegations) && !RootReentered(spec) && !Loopless(spec)
  {
    hide Follows, Stops, WellFormed, RootSpec, Distinct;
    var d, e := Delegation(id, a, b, held, 900), Delegation(id, root, a, held, 900);
    var spec := Spec([Simple(root, true, held), Simple(a, false, {}), Simple(b, false, {})], [d, e]);
    SimpleIsWellFormed(root, a, b, held, spec);
    SelfFollows(root, d, e);
    assert IsStack(spec, [e, e]);
  }

  /** The lookups of a specification whose first delegation, into the root, is hidden behind the last. */
  lemma HiddenLookups(root: IdentityId, a: IdentityId, d: Delegation, e: Delegation, f: Delegation, v: IdentityId)
    requires d.id == f.id != e.id && d.source == f.source == a && e.source == root && root != a
    ensures Next([d, e, f], v) == if v == root then [e] else if v == a then [f, f] else []
  {
    ByIdIsLast([d, e, f], 1);
    ByIdIsLast([d, e, f], 2);
    OutgoingOfThree(d, e, f, v);
    NextExact([d, e, f], v);
  }

  lemma HiddenStacks(root: IdentityId, a: IdentityId, d: Delegation, e: Delegation, f: Delegation,
                     chain: seq<Delegation>)
    requires d.id == f.id != e.id && d.source == f.source == a && e.source == root && root != a
    requires e.target == a && f.target != a && f.target != root
    ensures Follows([d, e, f], root, chain) <==> chain == [] || chain == [e] || chain == [e, f]
  {
    var all := [d, e, f];
    HiddenLookups(root, a, d, e, f, root);
    HiddenLookups(root, a, d, e, f, a);
    HiddenLookups(root, a, d, e, f, f.target);
    FollowOne(all, root, [], e);
    FollowOne(all, root, [e], f);
    assert [] + [e] == [e] && [e] + [f] == [e, f];
    if Follows(all, root, chain) {
      forall i | 0 <= i <= |chain| ensures Follows(all, root, chain[..i]) &&
        (i < |chain| ==> chain[i] in Next(all, Tip(root, chain[..i]))) { FollowedPrefix(all, root, chain, i); }
    }
  }

  /**
   A chain of declared delegations leads back into the root, and still no lookup loops: the delegation into
   the root shares its id with a later one and is never found.
   */
  lemma ReenteredYetLoopless(root: IdentityId, a: IdentityId, b: IdentityId, x: string, y: string, held: AuthoritySet)
    requires root != a && a != b && root != b && x != y && held != {}
    ensures var spec := Spec([Simple(root, true, held), Simple(a, false, {}), Simple(b, false, {})],
                             [Delegation(x, a, root, held, 900), Delegation(y, root, a, held, 900),
                              Delegation(x, a, b, held, 900)]);
            WellFormed(spec) && UniqueTargets(spec.delegations) && RootReentered(spec) && Loopless(spec) &&
            !UniqueDelegationIds(spec)
  {
    var d, e, f := Delegation(x, a, root, held, 900), Delegation(y, root, a, held, 900), Delegation(x, a, b, held, 900);
    var spec := Spec([Simple(root, true, held), Simple(a, false, {}), Simple(b, false, {})], [d, e, f]);
    SimpleIsWellFormed(root, a, b, held, spec);
    assert spec.delegations[0] == d && spec.delegations[1] == e && spec.delegations[2] == f;
    assert Declared([d, e, f], root, []);
    assert [e][..0] == [] && Declared([d, e, f], root, [e]);
    assert [e, d][..1] == [e] && Declared([d, e, f], root, [e, d]);
    forall chain | IsStack(spec, chain) ensures Distinct(Stops(root, chain)) {
      HiddenStacks(root, a, d, e, f, chain);
    }
  }
}
