/** Which credentials are renewed before a matrix, along which edges, and what is held afterwards. */
module Renewals {
  import opened Wrappers
  import opened Outcomes
  import opened Models
  import opened Evidence
  import opened Adapters
  import opened Matrix
  import opened Delegation

  /** The credential of an identity once the turns at these positions have each renewed one. */
  ghost function HeldAfter(script: Script, first: Renewal, ids: seq<IdentityId>, at: seq<nat>,
                           id: IdentityId): Option<Credential>
  {
    var n := |at| - 1;
    if at == [] then Lookup(first.credentials, id)
    else if at[n] < |ids| && ids[at[n]] == id && script.delegations(first.calls + n).Ok? then
      Some(script.delegations(first.calls + n).value)
    else HeldAfter(script, first, ids, at[..n], id)
  }

  /** Those of these ascending positions that come before p. */
  ghost function Until(at: seq<nat>, p: nat): (r: seq<nat>)
    ensures r <= at
  {
    if at == [] then []
    else if at[|at| - 1] < p then at
    else
      assert at[..|at| - 1] <= at;
      Until(at[..|at| - 1], p)
  }

  /** The last edge into the identity. */
  ghost predicate LastInto(edges: seq<Edge>, id: IdentityId, e: Edge) {
    exists k :: 0 <= k < |edges| && edges[k] == e && e.targetId == id &&
                forall j :: k < j < |edges| ==> edges[j].targetId != id
  }

  lemma {:induction false} EdgeIntoIs(edges: seq<Edge>, id: IdentityId)
    ensures EdgeInto(edges, id).Some? ==> LastInto(edges, id, EdgeInto(edges, id).value)
    ensures EdgeInto(edges, id).None? <==> forall k :: 0 <= k < |edges| ==> edges[k].targetId != id
  {
    if edges != [] {
      var n := |edges| - 1;
      EdgeIntoIs(edges[..n], id);
      if edges[n].targetId != id && EdgeInto(edges, id).Some? {
        var k :| 0 <= k < n && edges[..n][k] == EdgeInto(edges, id).value && edges[k].targetId == id &&
          forall j :: k < j < n ==> edges[..n][j].targetId != id;
        forall j | k < j < |edges| ensures edges[j].targetId != id {
          if j < n { assert edges[..n][j] == edges[j]; }
        }
      }
      forall k | 0 <= k < n ensures edges[..n][k] == edges[k] {}
    }
  }

  /** Less is left of the credential than a tenth of a second for each probe of the matrix. */
  predicate RunsLow(credential: Credential, now: real, m: ProbeMatrix) {
    10.0 * (credential.expiresAtS - now) < (|m.identities| * |m.capabilities| * m.trials) as real
  }

  /** An identity's credential is to be renewed: the identity is materialized and was delegated, and it runs low. */
  ghost predicate IsDue(o: Occasion, m: ProbeMatrix, id: IdentityId, held: Option<Credential>) {
    id in o.refs && (exists k :: 0 <= k < |o.edges| && o.edges[k].targetId == id) && held.Some? &&
    RunsLow(held.value, o.now, m)
  }

  lemma StaleIsDue(o: Occasion, m: ProbeMatrix, id: IdentityId, held: Option<Credential>)
    requires o.estimatedS == EstimateDurationS(m)
    ensures id in o.refs && Stale(held, EdgeInto(o.edges, id), o.now, o.estimatedS) <==> IsDue(o, m, id, held)
  {
    EdgeIntoIs(o.edges, id);
  }

  /** The renewal made at the k-th of these turns: its edge, and its event, naming what it replaced and what it got. */
  ghost predicate RenewedAt(script: Script, o: Occasion, start: nat, first: Renewal, ids: seq<IdentityId>, at: seq<nat>,
                            k: nat, e: Event, asked: Edge)
    requires k < |at| && at[k] < |ids|
  {
    var id := ids[at[k]];
    script.delegations(first.calls + k).Ok? &&
    var held := HeldAfter(script, first, ids, at[..k], id);
    LastInto(o.edges, id, asked) && asked.sourceId in o.refs && held.Some? &&
    e == Event(start + k, CredentialRedelegated(id, held.value.credentialId,
                                                script.delegations(first.calls + k).value.credentialId))
  }

  /** What renewing for a matrix did, if nothing stopped it. */
  ghost predicate RenewedAll(script: Script, o: Occasion, m: ProbeMatrix, start: nat, first: Renewal,
                             ids: seq<IdentityId>, at: seq<nat>, after: Renewal) {
    (forall k :: 0 <= k < |at| ==> at[k] < |ids|) &&
    (forall j, k :: 0 <= j < k < |at| ==> at[j] < at[k]) &&
    after.calls == first.calls + |at| && |after.events| == |after.asked| == |at| &&
    (forall k :: 0 <= k < |at| ==>
       RenewedAt(script, o, start, first, ids, at, k, after.events[k], after.asked[k])) &&
    (forall p: nat :: p < |ids| ==>
       (p in at <==> IsDue(o, m, ids[p], HeldAfter(script, first, ids, Until(at, p), ids[p])))) &&
    forall id :: Lookup(after.credentials, id) == HeldAfter(script, first, ids, at, id)
  }

  lemma {:induction false} HeldSame(script: Script, first: Renewal, ids: seq<IdentityId>, more: seq<IdentityId>,
                                    at: seq<nat>, id: IdentityId)
    requires ids <= more && forall k :: 0 <= k < |at| ==> at[k] < |ids|
    ensures HeldAfter(script, first, ids, at, id) == HeldAfter(script, first, more, at, id)
  {
    if at != [] { HeldSame(script, first, ids, more, at[..|at| - 1], id); }
  }

  lemma {:induction false} UntilAll(at: seq<nat>, p: nat)
    requires forall k :: 0 <= k < |at| ==> at[k] < p
    ensures Until(at, p) == at
  {
  }

  lemma UntilSnoc(at: seq<nat>, n: nat, p: nat)
    requires p <= n
    ensures Until(at + [n], p) == Until(at, p)
  {
    assert (at + [n])[..|at|] == at;
  }

  lemma SkippedTurn(script: Script, o: Occasion, m: ProbeMatrix, start: nat, first: Renewal, ids: seq<IdentityId>,
                    at: seq<nat>, after: Renewal)
    requires ids != [] && RenewedAll(script, o, m, start, first, ids[..|ids| - 1], at, after)
    requires var id := ids[|ids| - 1]; !IsDue(o, m, id, Lookup(after.credentials, id))
    ensures RenewedAll(script, o, m, start, first, ids, at, after)
  {
    hide IsDue, LastInto;
    var front := ids[..|ids| - 1];
    KeepTurns(script, o, m, start, first, ids, at, after);
    forall id ensures Lookup(after.credentials, id) == HeldAfter(script, first, ids, at, id) {
      HeldSame(script, first, front, ids, at, id);
    }
    UntilAll(at, |front|);
    assert |front| !in at;
  }

  /** What was renewed for the identities before the last reads the same with it. */
  lemma KeepTurns(script: Script, o: Occasion, m: ProbeMatrix, start: nat, first: Renewal, ids: seq<IdentityId>,
                  at: seq<nat>, after: Renewal)
    requires ids != [] && RenewedAll(script, o, m, start, first, ids[..|ids| - 1], at, after)
    ensures forall k :: 0 <= k < |at| ==>
              at[k] < |ids| - 1 && RenewedAt(script, o, start, first, ids, at, k, after.events[k], after.asked[k])
    ensures forall p: nat :: p < |ids| - 1 ==>
              (p in at <==> IsDue(o, m, ids[p], HeldAfter(script, first, ids, Until(at, p), ids[p])))
  {
    hide IsDue, LastInto;
    var front := ids[..|ids| - 1];
    forall k | 0 <= k < |at|
      ensures RenewedAt(script, o, start, first, ids, at, k, after.events[k], after.asked[k])
    {
      assert RenewedAt(script, o, start, first, front, at, k, after.events[k], after.asked[k]);
      HeldSame(script, first, front, ids, at[..k], ids[at[k]]);
    }
    forall p: nat | p < |ids| - 1
      ensures p in at <==> IsDue(o, m, ids[p], HeldAfter(script, first, ids, Until(at, p), ids[p]))
    {
      HeldSame(script, first, front, ids, Until(at, p), ids[p]);
      assert front[p] == ids[p];
    }
  }

  lemma EarlierTurn(script: Script, o: Occasion, start: nat, first: Renewal, ids: seq<IdentityId>, at: seq<nat>, n: nat,
                    k: nat, e: Event, asked: Edge)
    requires k < |at| && at[k] < |ids| && RenewedAt(script, o, start, first, ids, at, k, e, asked)
    ensures RenewedAt(script, o, start, first, ids, at + [n], k, e, asked)
  {
    hide LastInto;
    assert (at + [n])[..k] == at[..k];
  }

  /** One more renewal, of the last identity, along this edge. */
  ghost predicate Takes(script: Script, o: Occasion, m: ProbeMatrix, start: nat, id: IdentityId, before: Renewal,
                        after: Renewal, e: Edge) {
    var held := Lookup(before.credentials, id);
    IsDue(o, m, id, held) && held.Some? && LastInto(o.edges, id, e) && e.sourceId in o.refs &&
    script.delegations(before.calls).Ok? &&
    var minted := script.delegations(before.calls).value;
    after.calls == before.calls + 1 && after.credentials == before.credentials[id := Some(minted)] &&
    after.asked == before.asked + [e] &&
    after.events == before.events + [Event(start + |before.events|,
                                           CredentialRedelegated(id, held.value.credentialId, minted.credentialId))]
  }

  lemma TurnsTaken(script: Script, o: Occasion, m: ProbeMatrix, start: nat, first: Renewal, ids: seq<IdentityId>,
                   at: seq<nat>, before: Renewal, after: Renewal, e: Edge, k: nat)
    requires ids != [] && RenewedAll(script, o, m, start, first, ids[..|ids| - 1], at, before) && k <= |at|
    requires Takes(script, o, m, start, ids[|ids| - 1], before, after, e)
    ensures var at' := at + [|ids| - 1];
            |after.events| == |after.asked| == |at'| && at'[k] < |ids| &&
            RenewedAt(script, o, start, first, ids, at', k, after.events[k], after.asked[k])
  {
    hide IsDue, LastInto, Until, HeldAfter;
    var n := |ids| - 1;
    if k < |at| {
      KeepTurns(script, o, m, start, first, ids, at, before);
      EarlierTurn(script, o, start, first, ids, at, n, k, before.events[k], before.asked[k]);
    } else {
      HeldSame(script, first, ids[..n], ids, at, ids[n]);
      assert (at + [n])[..k] == at;
    }
  }

  lemma TurnsDue(script: Script, o: Occasion, m: ProbeMatrix, start: nat, first: Renewal, ids: seq<IdentityId>,
                 at: seq<nat>, before: Renewal, p: nat)
    requires ids != [] && RenewedAll(script, o, m, start, first, ids[..|ids| - 1], at, before) && p < |ids|
    requires IsDue(o, m, ids[|ids| - 1], Lookup(before.credentials, ids[|ids| - 1]))
    ensures var at' := at + [|ids| - 1];
            p in at' <==> IsDue(o, m, ids[p], HeldAfter(script, first, ids, Until(at', p), ids[p]))
  {
    hide IsDue, LastInto, Until, RenewedAt, HeldAfter;
    var n := |ids| - 1;
    UntilSnoc(at, n, p);
    if p < n {
      KeepTurns(script, o, m, start, first, ids, at, before);
    } else {
      UntilAll(at, n);
      HeldSame(script, first, ids[..n], ids, at, ids[n]);
    }
  }

  lemma TakenTurn(script: Script, o: Occasion, m: ProbeMatrix, start: nat, first: Renewal, ids: seq<IdentityId>,
                  at: seq<nat>, before: Renewal, after: Renewal, e: Edge)
    requires ids != [] && RenewedAll(script, o, m, start, first, ids[..|ids| - 1], at, before)
    requires Takes(script, o, m, start, ids[|ids| - 1], before, after, e)
    ensures RenewedAll(script, o, m, start, first, ids, at + [|ids| - 1], after)
  {
    hide IsDue, LastInto, Until, RenewedAt, HeldAfter;
    var at' := at + [|ids| - 1];
    forall k | 0 <= k < |at'|
      ensures at'[k] < |ids| && RenewedAt(script, o, start, first, ids, at', k, after.events[k], after.asked[k])
    {
      TurnsTaken(script, o, m, start, first, ids, at, before, after, e, k);
    }
    forall p: nat | p < |ids|
      ensures p in at' <==> IsDue(o, m, ids[p], HeldAfter(script, first, ids, Until(at', p), ids[p]))
    {
      TurnsDue(script, o, m, start, first, ids, at, before, p);
    }
    forall id ensures Lookup(after.credentials, id) == HeldAfter(script, first, ids, at', id) {
      HeldNext(script, first, ids, at, id);
      HeldSame(script, first, ids[..|ids| - 1], ids, at, id);
    }
  }

  lemma HeldNext(script: Script, first: Renewal, ids: seq<IdentityId>, at: seq<nat>, id: IdentityId)
    requires ids != [] && script.delegations(first.calls + |at|).Ok?
    ensures HeldAfter(script, first, ids, at + [|ids| - 1], id) ==
            if ids[|ids| - 1] == id then Some(script.delegations(first.calls + |at|).value)
            else HeldAfter(script, first, ids, at, id)
  {
    assert (at + [|ids| - 1])[..|at|] == at;
  }

  /**
   What renewing before a matrix does, for every provider and whatever identities it lists: if nothing stops it, a turn
   renews exactly if its identity is materialized, was delegated, and holds a credential with less than a tenth of a
   second left for each probe of the matrix; each renewal is one delegation along the last edge into the identity; and
   afterwards each identity holds what its last renewal minted, or what it held before.
   */
  lemma {:induction false} RenewalIs(script: Script, o: Occasion, m: ProbeMatrix, start: nat, first: Renewal,
                                     ids: seq<IdentityId>) returns (at: seq<nat>)
    requires o.estimatedS == EstimateDurationS(m) && first.events == [] && first.asked == [] && first.failure.None?
    ensures var after := RenewAll(script, o, start, first, ids);
            after.failure.None? ==> RenewedAll(script, o, m, start, first, ids, at, after)
  {
    hide Stale, IsDue, LastInto, RenewedAll;
    if ids == [] {
      at := [];
      NoTurns(script, o, m, start, first);
    } else {
      var front, id := ids[..|ids| - 1], ids[|ids| - 1];
      var before := RenewAll(script, o, start, first, front);
      at := RenewalIs(script, o, m, start, first, front);
      StaleIsDue(o, m, id, Lookup(before.credentials, id));
      EdgeIntoIs(o.edges, id);
      var after := RenewAll(script, o, start, first, ids);
      if after.failure.None? && before.failure.None? {
        if IsDue(o, m, id, Lookup(before.credentials, id)) {
          DueIs(o, m, id, Lookup(before.credentials, id));
          CountedEvents(script, o, m, start, first, front, at, before);
          TakenTurn(script, o, m, start, first, ids, at, before, after, EdgeInto(o.edges, id).value);
          at := at + [|front|];
        } else {
          SkippedTurn(script, o, m, start, first, ids, at, before);
        }
      }
    }
  }

  /** Why renewing stopped at an identity: there was nothing to delegate from, or the provider raised. */
  ghost predicate Unrenewed(script: Script, o: Occasion, m: ProbeMatrix, id: IdentityId, before: Renewal,
                            error: RunError) {
    IsDue(o, m, id, Lookup(before.credentials, id)) &&
    exists e :: LastInto(o.edges, id, e) &&
                if e.sourceId !in o.refs then error == MissingSource(e.sourceId)
                else script.delegations(before.calls) == Err(error)
  }

  /** If something stops it, everything up to the first turn it fails at was done, and that turn was due. */
  lemma {:induction false} RenewalFails(script: Script, o: Occasion, m: ProbeMatrix, start: nat, first: Renewal,
                                        ids: seq<IdentityId>) returns (q: nat, at: seq<nat>)
    requires o.estimatedS == EstimateDurationS(m) && first.events == [] && first.asked == [] && first.failure.None?
    requires RenewAll(script, o, start, first, ids).failure.Some?
    ensures q < |ids|
    ensures var before := RenewAll(script, o, start, first, ids[..q]);
            RenewedAll(script, o, m, start, first, ids[..q], at, before) &&
            Unrenewed(script, o, m, ids[q], before, RenewAll(script, o, start, first, ids).failure.value)
  {
    hide Stale, IsDue, RenewedAll;
    var front, id := ids[..|ids| - 1], ids[|ids| - 1];
    var before := RenewAll(script, o, start, first, front);
    if before.failure.Some? {
      q, at := RenewalFails(script, o, m, start, first, front);
      assert front[..q] == ids[..q];
    } else {
      q := |front|;
      at := RenewalIs(script, o, m, start, first, front);
      assert ids[..q] == front && ids[q] == id;
      StaleIsDue(o, m, id, Lookup(before.credentials, id));
      DueIs(o, m, id, Lookup(before.credentials, id));
      EdgeIntoIs(o.edges, id);
    }
  }

  lemma NoTurns(script: Script, o: Occasion, m: ProbeMatrix, start: nat, first: Renewal)
    requires first.events == [] && first.asked == []
    ensures RenewedAll(script, o, m, start, first, [], [], first)
  {
  }

  lemma DueIs(o: Occasion, m: ProbeMatrix, id: IdentityId, held: Option<Credential>)
    requires IsDue(o, m, id, held)
    ensures held.Some? && EdgeInto(o.edges, id).Some?
  {
    EdgeIntoIs(o.edges, id);
  }

  lemma CountedEvents(script: Script, o: Occasion, m: ProbeMatrix, start: nat, first: Renewal, ids: seq<IdentityId>,
                      at: seq<nat>, after: Renewal)
    requires RenewedAll(script, o, m, start, first, ids, at, after)
    ensures after.calls == first.calls + |at| && |after.events| == |at|
  {
  }
}
