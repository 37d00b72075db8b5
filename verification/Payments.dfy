/** The harness's ledger of outbound payments: an id is pending, then resolved, and never comes back. */
module Payments {
  import opened Wrappers

  type Id = nat
  type Hash = nat
  type ChannelId = nat

  const HTLC_FAIL_BACK_BUFFER: nat := 39
  const U32_MAX: nat := 0xFFFF_FFFF

  datatype Expectation = MustSucceed | MayFail

  datatype Hop = Hop(channel: ChannelId, amount: nat)

  datatype Payment = Payment(
    id: Id, hash: Hash, generation: nat, paths: seq<seq<Hop>>, minFinalCltvExpiry: nat, expectation: Expectation)

  /** Why failures of some payments become acceptable. */
  datatype Reason = ForId(id: Id) | ForHash(hash: Hash) | ForClosedChannel(channel: ChannelId) | ForHeight(height: nat)

  predicate UsesChannel(p: Payment, channel: ChannelId) {
    exists path | path in p.paths :: exists hop | hop in path :: hop.channel == channel
  }

  predicate Covers(r: Reason, p: Payment) {
    match r
    case ForId(id) => p.id == id
    case ForHash(hash) => p.hash == hash
    case ForClosedChannel(channel) => UsesChannel(p, channel)
    case ForHeight(height) =>
      var unsafeHeight :=
        if height + HTLC_FAIL_BACK_BUFFER + 1 <= U32_MAX then height + HTLC_FAIL_BACK_BUFFER + 1 else U32_MAX;
      p.minFinalCltvExpiry <= unsafeHeight
  }

  /** A reason covers the payment with the id, those with the hash, those with a hop over the closed channel, and those
      that expire within the buffer of the height; the cap at 32 bits makes no difference to that. */
  lemma CoversExactly(p: Payment, id: Id, hash: Hash, channel: ChannelId, height: nat)
    requires p.minFinalCltvExpiry <= U32_MAX
    ensures Covers(ForId(id), p) <==> id == p.id
    ensures Covers(ForHash(hash), p) <==> hash == p.hash
    ensures Covers(ForClosedChannel(channel), p) <==>
            exists i, j | 0 <= i < |p.paths| && 0 <= j < |p.paths[i]| :: p.paths[i][j].channel == channel
    ensures Covers(ForHeight(height), p) <==> p.minFinalCltvExpiry - height <= HTLC_FAIL_BACK_BUFFER + 1
  {
    if i, j :| 0 <= i < |p.paths| && 0 <= j < |p.paths[i]| && p.paths[i][j].channel == channel {
      assert p.paths[i] in p.paths && p.paths[i][j] in p.paths[i];
    }
  }

  type Resolved = map<Id, Option<Hash>>

  ghost predicate DistinctIds(pending: seq<Payment>) {
    forall i | 0 <= i < |pending| :: FreshAt(pending, i)
  }

  ghost predicate FreshAt(pending: seq<Payment>, i: nat)
    requires i < |pending|
  {
    NoneWithId(pending[..i], pending[i].id)
  }

  ghost predicate NoneWithId(pending: seq<Payment>, id: Id) {
    forall p | p in pending :: p.id != id
  }

  lemma DistinctPrefix(pending: seq<Payment>, n: nat)
    requires DistinctIds(pending) && n <= |pending|
    ensures DistinctIds(pending[..n])
  {
    forall i | 0 <= i < n ensures FreshAt(pending[..n], i) {
      assert FreshAt(pending, i) && pending[..n][..i] == pending[..i];
    }
  }

  lemma DistinctSnoc(pending: seq<Payment>, p: Payment)
    requires DistinctIds(pending) && NoneWithId(pending, p.id)
    ensures DistinctIds(pending + [p])
  {
    var all := pending + [p];
    forall i | 0 <= i < |all| ensures FreshAt(all, i) {
      assert i < |pending| ==> FreshAt(pending, i);
      assert all[..i] == pending[..i];
    }
  }

  lemma SameId(pending: seq<Payment>, p: Payment, q: Payment)
    requires DistinctIds(pending) && p in pending && q in pending && p.id == q.id
    ensures p == q
  {
    var i :| 0 <= i < |pending| && pending[i] == p;
    var j :| 0 <= j < |pending| && pending[j] == q;
    assert FreshAt(pending, i) && FreshAt(pending, j);
  }

  ghost predicate Consistent(pending: seq<Payment>, resolved: Resolved) {
    DistinctIds(pending) && forall p | p in pending :: p.id !in resolved
  }

  /** A later version of a pending payment: at most its failure has become acceptable. */
  predicate Relaxed(p: Payment, q: Payment) {
    q == p || q == p.(expectation := MayFail)
  }

  /** How the ledger may change over any run: resolved ids stay resolved and keep a recorded hash, and a pending
      payment stays as it was, at most with its failure allowed, or gets resolved. */
  ghost predicate Evolves(p0: seq<Payment>, r0: Resolved, p1: seq<Payment>, r1: Resolved) {
    && (forall k | k in r0 :: k in r1 && (r0[k].Some? ==> r1[k] == r0[k]))
    && (forall p | p in p0 :: Succeeds(p, p1, r1))
  }

  ghost predicate Succeeds(p: Payment, p1: seq<Payment>, r1: Resolved) {
    p.id in r1 || exists q | q in p1 :: Relaxed(p, q)
  }

  lemma EvolvesTransitive(
    p0: seq<Payment>, r0: Resolved, p1: seq<Payment>, r1: Resolved, p2: seq<Payment>, r2: Resolved)
    requires Evolves(p0, r0, p1, r1) && Evolves(p1, r1, p2, r2)
    ensures Evolves(p0, r0, p2, r2)
  {
    forall p | p in p0 ensures Succeeds(p, p2, r2) {
      assert Succeeds(p, p1, r1);
      if p.id !in r1 {
        var q :| q in p1 && Relaxed(p, q);
        assert Succeeds(q, p2, r2);
      }
    }
  }

  /** A state of the ledger. */
  datatype Ledger = Ledger(pending: seq<Payment>, resolved: Resolved)

  /** Over any run, given as its sequence of states, each of which evolves to the next as every operation ensures: ids
      resolved on the way stay resolved with their hash, and payments pending on the way are kept, at most relaxed, or
      resolved. */
  lemma {:induction false} RunEvolves(run: seq<Ledger>, i: nat, j: nat)
    requires i <= j < |run|
    requires forall k | 0 <= k < |run| - 1 ::
               Evolves(run[k].pending, run[k].resolved, run[k + 1].pending, run[k + 1].resolved)
    ensures Evolves(run[i].pending, run[i].resolved, run[j].pending, run[j].resolved)
    decreases j
  {
    if i == j {
      EvolvesRefl(run[i].pending, run[i].resolved);
    } else {
      RunEvolves(run, i, j - 1);
      assert Evolves(run[j - 1].pending, run[j - 1].resolved, run[j - 1 + 1].pending, run[j - 1 + 1].resolved);
      EvolvesTransitive(run[i].pending, run[i].resolved, run[j - 1].pending, run[j - 1].resolved,
                        run[j].pending, run[j].resolved);
    }
  }

  /** Pending payments other than those with these ids, in order. */
  function Without(pending: seq<Payment>, ids: set<Id>): seq<Payment> {
    if pending == [] then [] else
    var n := |pending| - 1;
    var rest := Without(pending[..n], ids);
    if pending[n].id in ids then rest else rest + [pending[n]]
  }

  lemma {:induction false} WithoutMembers(pending: seq<Payment>, ids: set<Id>, p: Payment)
    ensures p in Without(pending, ids) <==> p in pending && p.id !in ids
    decreases |pending|
  {
    if pending != [] {
      WithoutMembers(pending[..|pending| - 1], ids, p);
    }
  }

  lemma {:induction false} WithoutDistinct(pending: seq<Payment>, ids: set<Id>)
    requires DistinctIds(pending)
    ensures DistinctIds(Without(pending, ids))
    decreases |pending|
  {
    if pending != [] {
      var n := |pending| - 1;
      DistinctPrefix(pending, n);
      WithoutDistinct(pending[..n], ids);
      assert FreshAt(pending, n);
      forall p | p in Without(pending[..n], ids) ensures p.id != pending[n].id {
        WithoutMembers(pending[..n], ids, p);
      }
      DistinctSnoc(Without(pending[..n], ids), pending[n]);
    }
  }

  lemma {:induction false} WithoutTwice(pending: seq<Payment>, a: set<Id>, b: set<Id>)
    ensures Without(Without(pending, a), b) == Without(pending, a + b)
    decreases |pending|
  {
    if pending != [] {
      var n := |pending| - 1;
      WithoutTwice(pending[..n], a, b);
      if pending[n].id !in a {
        assert Without(pending, a)[..|Without(pending[..n], a)|] == Without(pending[..n], a);
      } else {
        assert Without(pending, a) == Without(pending[..n], a);
      }
    }
  }

  lemma {:induction false} WithoutNone(pending: seq<Payment>, ids: set<Id>)
    requires forall p | p in pending :: p.id !in ids
    ensures Without(pending, ids) == pending
    decreases |pending|
  {
    if pending != [] {
      WithoutNone(pending[..|pending| - 1], ids);
    }
  }

  function RemoveAt(pending: seq<Payment>, i: nat): seq<Payment>
    requires i < |pending|
  {
    pending[..i] + pending[i + 1..]
  }

  /** Removing the one entry with an id is dropping that id. */
  lemma {:induction false} RemoveIsWithout(pending: seq<Payment>, i: nat)
    requires DistinctIds(pending) && i < |pending|
    ensures RemoveAt(pending, i) == Without(pending, {pending[i].id})
    decreases |pending|
  {
    var n := |pending| - 1;
    DistinctPrefix(pending, n);
    assert FreshAt(pending, n);
    if i < n {
      RemoveIsWithout(pending[..n], i);
      assert pending[i] in pending[..n];
      assert RemoveAt(pending, i) == RemoveAt(pending[..n], i) + [pending[n]];
    } else {
      WithoutNone(pending[..n], {pending[i].id});
      assert RemoveAt(pending, i) == pending[..n];
    }
  }

  lemma ResolveEvolves(pending: seq<Payment>, resolved: Resolved, p: Payment, hash: Option<Hash>)
    requires Consistent(pending, resolved) && p in pending
    ensures Consistent(Without(pending, {p.id}), resolved[p.id := hash])
    ensures Evolves(pending, resolved, Without(pending, {p.id}), resolved[p.id := hash])
  {
    var rest := Without(pending, {p.id});
    WithoutDistinct(pending, {p.id});
    forall q | q in rest ensures q.id !in resolved[p.id := hash] {
      WithoutMembers(pending, {p.id}, q);
    }
    forall q | q in pending ensures Succeeds(q, rest, resolved[p.id := hash]) {
      WithoutMembers(pending, {p.id}, q);
      assert q in rest ==> Relaxed(q, q);
    }
  }

  /** Payments first persisted after generation `g`. */
  function RolledBack(pending: seq<Payment>, g: nat): seq<Payment> {
    if pending == [] then [] else
    var n := |pending| - 1;
    var rest := RolledBack(pending[..n], g);
    if pending[n].generation > g then rest + [pending[n]] else rest
  }

  /** The others, in order. */
  function Persisted(pending: seq<Payment>, g: nat): seq<Payment> {
    if pending == [] then [] else
    var n := |pending| - 1;
    var rest := Persisted(pending[..n], g);
    if pending[n].generation > g then rest else rest + [pending[n]]
  }

  function Ids(ps: seq<Payment>): set<Id> {
    set p | p in ps :: p.id
  }

  /** Rolled-back payments stay in order. */
  lemma {:induction false} RolledBackConcat(a: seq<Payment>, b: seq<Payment>, g: nat)
    ensures RolledBack(a + b, g) == RolledBack(a, g) + RolledBack(b, g)
    decreases |b|
  {
    if b == [] {
      assert a + b == a;
    } else {
      RolledBackConcat(a, b[..|b| - 1], g);
      assert (a + b)[..|a + b| - 1] == a + b[..|b| - 1];
    }
  }

  lemma {:induction false} RolledBackMembers(pending: seq<Payment>, g: nat, p: Payment)
    ensures p in RolledBack(pending, g) <==> p in pending && p.generation > g
    decreases |pending|
  {
    if pending != [] {
      RolledBackMembers(pending[..|pending| - 1], g, p);
    }
  }

  lemma {:induction false} PersistedIsWithout(pending: seq<Payment>, g: nat, ids: set<Id>)
    requires forall p | p in pending :: p.id in ids <==> p.generation > g
    ensures Persisted(pending, g) == Without(pending, ids)
    decreases |pending|
  {
    if pending != [] {
      PersistedIsWithout(pending[..|pending| - 1], g, ids);
    }
  }

  lemma RollbackExact(pending: seq<Payment>, g: nat)
    requires DistinctIds(pending)
    ensures Persisted(pending, g) == Without(pending, Ids(RolledBack(pending, g)))
  {
    var ids := Ids(RolledBack(pending, g));
    forall p | p in pending ensures p.id in ids <==> p.generation > g {
      RolledBackMembers(pending, g, p);
      if p.id in ids {
        var q :| q in RolledBack(pending, g) && q.id == p.id;
        RolledBackMembers(pending, g, q);
        SameId(pending, p, q);
      }
    }
    PersistedIsWithout(pending, g, ids);
  }

  lemma {:induction false} RolledBackDistinct(pending: seq<Payment>, g: nat)
    requires DistinctIds(pending)
    ensures DistinctIds(RolledBack(pending, g))
    decreases |pending|
  {
    if pending != [] {
      var n := |pending| - 1;
      DistinctPrefix(pending, n);
      RolledBackDistinct(pending[..n], g);
      assert FreshAt(pending, n);
      forall p | p in RolledBack(pending[..n], g) ensures p.id != pending[n].id {
        RolledBackMembers(pending[..n], g, p);
      }
      DistinctSnoc(RolledBack(pending[..n], g), pending[n]);
    }
  }

  class NodePayments {
    var pending: seq<Payment>
    var resolved: Resolved

    ghost predicate Valid()
      reads this
    {
      Consistent(pending, resolved)
    }

    constructor ()
      ensures Valid() && pending == [] && resolved == map[]
    {
      pending, resolved := [], map[];
    }

    method AddPending(id: Id, hash: Hash, generation: nat, paths: seq<seq<Hop>>, minFinalCltvExpiry: nat)
      requires Valid() && NoneWithId(pending, id) && id !in resolved && paths != []
      modifies this`pending
      ensures Valid() && Evolves(old(pending), old(resolved), pending, resolved)
      ensures pending == old(pending) + [Payment(id, hash, generation, paths, minFinalCltvExpiry, MustSucceed)]
    {
      var p := Payment(id, hash, generation, paths, minFinalCltvExpiry, MustSucceed);
      DistinctSnoc(pending, p);
      pending := pending + [p];
      assert forall q | q in old(pending) :: q in pending && Relaxed(q, q);
    }

    /** Moves a pending payment to the resolved ones; fails no assertion if the reported hash is the payment's. */
    method ResolvePending(id: Id, hash: Option<Hash>) returns (p: Payment)
      requires Valid() && !NoneWithId(pending, id)
      requires hash.Some? ==> forall q | q in pending && q.id == id :: q.hash == hash.value
      modifies this
      ensures p in old(pending) && p.id == id
      ensures pending == Without(old(pending), {id}) && resolved == old(resolved)[id := hash]
      ensures Valid() && Evolves(old(pending), old(resolved), pending, resolved)
    {
      var idx := 0;
      while idx < |pending| && pending[idx].id != id
        invariant 0 <= idx <= |pending| && NoneWithId(pending[..idx], id)
      {
        idx := idx + 1;
      }
      assert pending[..|pending|] == pending;
      p := pending[idx];
      RemoveIsWithout(pending, idx);
      ResolveEvolves(pending, resolved, p, hash);
      assert id !in resolved;
      pending := RemoveAt(pending, idx);
      resolved := resolved[id := hash];
    }

    /** Allows the failure of every payment the reason covers, and of no other. */
    method AllowFailure(reason: Reason)
      requires Valid()
      modifies this`pending
      ensures Valid() && Evolves(old(pending), old(resolved), pending, resolved)
      ensures |pending| == |old(pending)|
      ensures forall i | 0 <= i < |pending| ::
                pending[i] == if Covers(reason, old(pending)[i]) then old(pending)[i].(expectation := MayFail)
                              else old(pending)[i]
    {
      var i := 0;
      while i < |pending|
        invariant 0 <= i <= |pending| == |old(pending)|
        invariant forall k | 0 <= k < i ::
                    pending[k] == if Covers(reason, old(pending)[k]) then old(pending)[k].(expectation := MayFail)
                                  else old(pending)[k]
        invariant forall k | i <= k < |pending| :: pending[k] == old(pending)[k]
      {
        if Covers(reason, pending[i]) {
          pending := pending[i := pending[i].(expectation := MayFail)];
        }
        i := i + 1;
      }
      RelaxEvolves(old(pending), pending, resolved);
    }

    method MarkSent(id: Id, hash: Hash)
      requires Valid() && (!NoneWithId(pending, id) || id in resolved)
      requires forall q | q in pending && q.id == id :: q.hash == hash
      requires id in resolved && resolved[id].Some? ==> resolved[id].value == hash
      modifies this
      ensures Valid() && Evolves(old(pending), old(resolved), pending, resolved)
      ensures pending == Without(old(pending), {id}) && resolved == old(resolved)[id := Some(hash)]
    {
      var isPending := exists i | 0 <= i < |pending| :: pending[i].id == id;
      if isPending {
        var _ := ResolvePending(id, Some(hash));
      } else {
        WithoutNone(pending, {id});
        if resolved[id].None? {
          resolved := resolved[id := Some(hash)];
        }
        assert forall q | q in pending :: Relaxed(q, q);
      }
    }

    /** A failure is only acceptable for a payment that may fail; later reports are ignored. */
    method MarkFailed(id: Id)
      requires Valid() && (!NoneWithId(pending, id) || id in resolved)
      requires forall q | q in pending && q.id == id :: q.expectation == MayFail
      modifies this
      ensures Valid() && Evolves(old(pending), old(resolved), pending, resolved)
      ensures pending == Without(old(pending), {id})
      ensures resolved == if id in old(resolved) then old(resolved) else old(resolved)[id := None]
    {
      var isPending := exists i | 0 <= i < |pending| :: pending[i].id == id;
      if isPending {
        var p := ResolvePending(id, None);
        assert p.expectation == MayFail;
      } else {
        WithoutNone(pending, {id});
        assert id in resolved;
        assert forall q | q in pending :: Relaxed(q, q);
      }
    }

    /** Resolves one rolled-back payment without a hash. */
    method DropNext(rolledBack: seq<Payment>, i: nat, ghost p0: seq<Payment>, ghost r0: Resolved)
      requires i < |rolledBack| && DistinctIds(rolledBack) && rolledBack[i] in p0
      requires Dropping(p0, r0, rolledBack, i, pending, resolved)
      modifies this
      ensures Dropping(p0, r0, rolledBack, i + 1, pending, resolved)
    {
      DroppingStep(p0, r0, rolledBack, i, pending, resolved);
      var _ := ResolvePending(rolledBack[i].id, None);
    }

    /** After a reload of an older manager: exactly the payments it does not know of are resolved, the rest kept. */
    method SyncPendingWithManagerGeneration(g: nat) returns (hashes: seq<Hash>)
      requires Valid()
      modifies this
      ensures Valid() && Evolves(old(pending), old(resolved), pending, resolved)
      ensures pending == Persisted(old(pending), g)
      ensures Dropped(old(pending), old(resolved), RolledBack(old(pending), g), pending, resolved)
      ensures |hashes| == |RolledBack(old(pending), g)|
      ensures forall i | 0 <= i < |hashes| :: hashes[i] == RolledBack(old(pending), g)[i].hash
    {
      var rolledBack := RolledBack(pending, g);
      ghost var p0, r0 := pending, resolved;
      DroppingStart(p0, r0, g);
      var i := 0;
      while i < |rolledBack|
        invariant 0 <= i <= |rolledBack|
        invariant Dropping(p0, r0, rolledBack, i, pending, resolved)
      {
        RolledBackMembers(p0, g, rolledBack[i]);
        DropNext(rolledBack, i, p0, r0);
        i := i + 1;
      }
      assert rolledBack[..i] == rolledBack;
      hashes := seq(|rolledBack|, k requires 0 <= k < |rolledBack| => rolledBack[k].hash);
    }
  }

  /** The ledger with these payments resolved without a hash and nothing else changed. */
  ghost predicate Dropped(p0: seq<Payment>, r0: Resolved, dropped: seq<Payment>, p1: seq<Payment>, r1: Resolved) {
    && p1 == Without(p0, Ids(dropped))
    && r1.Keys == r0.Keys + Ids(dropped)
    && (forall k | k in r1 :: r1[k] == if k in Ids(dropped) then None else r0[k])
  }

  /** The ledger after dropping the first `i` of these payments. */
  ghost predicate Dropping(
    p0: seq<Payment>, r0: Resolved, all: seq<Payment>, i: nat, p1: seq<Payment>, r1: Resolved)
    requires i <= |all|
  {
    Consistent(p1, r1) && Evolves(p0, r0, p1, r1) && Dropped(p0, r0, all[..i], p1, r1)
  }

  lemma DroppingStart(p0: seq<Payment>, r0: Resolved, g: nat)
    requires Consistent(p0, r0)
    ensures var all := RolledBack(p0, g);
            && DistinctIds(all) && Dropping(p0, r0, all, 0, p0, r0)
            && Persisted(p0, g) == Without(p0, Ids(all))
  {
    RollbackExact(p0, g);
    RolledBackDistinct(p0, g);
    WithoutNone(p0, {});
    assert Ids(RolledBack(p0, g)[..0]) == {};
    EvolvesRefl(p0, r0);
  }

  lemma DroppingStep(
    p0: seq<Payment>, r0: Resolved, all: seq<Payment>, i: nat, p1: seq<Payment>, r1: Resolved)
    requires DistinctIds(all) && i < |all| && all[i] in p0 && Dropping(p0, r0, all, i, p1, r1)
    ensures all[i] in p1
    ensures Dropping(p0, r0, all, i + 1, Without(p1, {all[i].id}), r1[all[i].id := None])
  {
    DroppedStep(p0, r0, all, i, p1, r1);
    ResolveEvolves(p1, r1, all[i], None);
    EvolvesTransitive(p0, r0, p1, r1, Without(p1, {all[i].id}), r1[all[i].id := None]);
  }

  lemma DroppedStep(
    p0: seq<Payment>, r0: Resolved, all: seq<Payment>, i: nat, p1: seq<Payment>, r1: Resolved)
    requires DistinctIds(all) && i < |all| && all[i] in p0 && Dropped(p0, r0, all[..i], p1, r1)
    ensures all[i] in p1
    ensures Dropped(p0, r0, all[..i + 1], Without(p1, {all[i].id}), r1[all[i].id := None])
  {
    assert FreshAt(all, i);
    WithoutMembers(p0, Ids(all[..i]), all[i]);
    WithoutTwice(p0, Ids(all[..i]), {all[i].id});
    IdsSnoc(all, i);
  }

  lemma IdsSnoc(ps: seq<Payment>, i: nat)
    requires i < |ps|
    ensures Ids(ps[..i + 1]) == Ids(ps[..i]) + {ps[i].id}
  {
    assert ps[..i + 1] == ps[..i] + [ps[i]];
  }

  lemma EvolvesRefl(pending: seq<Payment>, resolved: Resolved)
    ensures Evolves(pending, resolved, pending, resolved)
  {
    assert forall q | q in pending :: Relaxed(q, q);
  }

  lemma RelaxEvolves(p0: seq<Payment>, p1: seq<Payment>, resolved: Resolved)
    requires Consistent(p0, resolved) && |p0| == |p1| && forall i | 0 <= i < |p0| :: Relaxed(p0[i], p1[i])
    ensures Consistent(p1, resolved) && Evolves(p0, resolved, p1, resolved)
  {
    forall i | 0 <= i < |p1| ensures FreshAt(p1, i) {
      assert FreshAt(p0, i);
      forall p | p in p1[..i] ensures p.id != p1[i].id {
        var j :| 0 <= j < i && p1[j] == p;
        assert p0[j] in p0[..i];
      }
    }
    forall p | p in p1 ensures p.id !in resolved {
      var j :| 0 <= j < |p1| && p1[j] == p;
      assert p0[j] in p0;
    }
    forall p | p in p0 ensures Succeeds(p, p1, resolved) {
      var j :| 0 <= j < |p0| && p0[j] == p;
      assert p1[j] in p1 && Relaxed(p, p1[j]);
    }
  }
}
