/** Replacing conflicting transactions in a mempool kept in valid block order. */
module Mempool {
  import opened Ledger

  predicate Doomed(tx: Tx, conflicts: set<Tx>, removed: set<OutPoint>) {
    tx in conflicts || exists i | i in tx.inputs :: i.prev in removed
  }

  /** One pass over the mempool: drops conflicts and spenders of what was dropped, keeping order. */
  function Evict(txs: seq<Tx>, conflicts: set<Tx>): seq<Tx> {
    if txs == [] then [] else
    var n := |txs| - 1;
    var kept := Evict(txs[..n], conflicts);
    if Doomed(txs[n], conflicts, Removed(txs[..n], conflicts)) then kept else kept + [txs[n]]
  }

  /** The outputs of what the pass has dropped. */
  function Removed(txs: seq<Tx>, conflicts: set<Tx>): set<OutPoint> {
    if txs == [] then {} else
    var n := |txs| - 1;
    var removed := Removed(txs[..n], conflicts);
    if Doomed(txs[n], conflicts, removed) then removed + Creates(txs[n]) else removed
  }

  /** Some input of `tx` spends an output of `parent`. */
  ghost predicate SpendsFrom(tx: Tx, parent: Tx) {
    exists i | 0 <= i < |tx.inputs| :: tx.inputs[i].prev in Creates(parent)
  }

  /** `path` leads from a conflict to its last element, each step spending an output of the one before. */
  ghost predicate DescentPath(txs: seq<Tx>, conflicts: set<Tx>, path: seq<Tx>) {
    && path != [] && path[|path| - 1] in txs
    && if |path| == 1 then path[0] in conflicts
       else SpendsFrom(path[|path| - 1], path[|path| - 2]) && DescentPath(txs, conflicts, path[..|path| - 1])
  }

  /** `tx` is a conflict or a transitive descendant of one, in whatever order the mempool lists them. */
  ghost predicate Tainted(txs: seq<Tx>, conflicts: set<Tx>, tx: Tx) {
    exists path :: DescentPath(txs, conflicts, path) && path[|path| - 1] == tx
  }

  ghost function Without(txs: seq<Tx>, bad: set<Tx>): seq<Tx> {
    if txs == [] then [] else
    var n := |txs| - 1;
    Without(txs[..n], bad) + if txs[n] in bad then [] else [txs[n]]
  }

  /** Parents come before their spenders. */
  ghost predicate Topological(txs: seq<Tx>) {
    && Distinct(txs)
    && (forall i, j | 0 <= i < |txs| && 0 <= j < |txs| && SpendsFrom(txs[i], txs[j]) :: j < i)
  }

  /** Mempools in valid block order list parents first. */
  lemma {:induction false} AvailableFrom(utxos: set<OutPoint>, txs: seq<Tx>, o: OutPoint)
    requires o in ApplyAll(utxos, txs)
    ensures o in utxos || exists j | 0 <= j < |txs| :: o in Creates(txs[j])
    decreases |txs|
  {
    if txs != [] && o !in Creates(txs[|txs| - 1]) {
      AvailableFrom(utxos, txs[..|txs| - 1], o);
    }
  }

  lemma SpendableIsTopological(utxos: set<OutPoint>, txs: seq<Tx>)
    requires Distinct(txs) && Spendable(utxos, txs)
    requires forall j | 0 <= j < |txs| :: Creates(txs[j]) !! utxos
    ensures Topological(txs)
  {
    forall i, j | 0 <= i < |txs| && 0 <= j < |txs| && SpendsFrom(txs[i], txs[j]) ensures j < i {
      var k :| 0 <= k < |txs[i].inputs| && txs[i].inputs[k].prev in Creates(txs[j]);
      assert SpendableAt(utxos, txs, i);
      AvailableFrom(utxos, txs[..i], txs[i].inputs[k].prev);
      var m :| 0 <= m < i && txs[i].inputs[k].prev in Creates(txs[..i][m]);
      DistinctPair(txs, j, m);
    }
  }

  /** The transactions the pass drops. */
  ghost function Dropped(txs: seq<Tx>, conflicts: set<Tx>): set<Tx> {
    if txs == [] then {} else
    var n := |txs| - 1;
    Dropped(txs[..n], conflicts) + if Doomed(txs[n], conflicts, Removed(txs[..n], conflicts)) then {txs[n]} else {}
  }

  lemma {:induction false} RemovedByDropped(txs: seq<Tx>, conflicts: set<Tx>, o: OutPoint)
    ensures o in Removed(txs, conflicts) <==> o.OutPoint? && o.txid in Dropped(txs, conflicts) && o in Creates(o.txid)
  {
    if txs != [] {
      RemovedByDropped(txs[..|txs| - 1], conflicts, o);
    }
  }

  lemma {:induction false} DroppedListed(txs: seq<Tx>, conflicts: set<Tx>, tx: Tx)
    requires tx in Dropped(txs, conflicts)
    ensures tx in txs
  {
    if tx != txs[|txs| - 1] {
      DroppedListed(txs[..|txs| - 1], conflicts, tx);
    }
  }

  /** At its turn, a transaction is dropped exactly if it is doomed by what came before. */
  lemma {:induction false} DroppedAt(txs: seq<Tx>, conflicts: set<Tx>, i: nat)
    requires Distinct(txs) && i < |txs|
    ensures txs[i] in Dropped(txs, conflicts) <==> Doomed(txs[i], conflicts, Removed(txs[..i], conflicts))
    decreases |txs|
  {
    var n := |txs| - 1;
    assert NewAt(txs, n);
    if i < n {
      DistinctPrefix(txs, n);
      DroppedAt(txs[..n], conflicts, i);
      assert txs[..n][..i] == txs[..i] && txs[..n][i] == txs[i] && txs[i] in txs[..n];
    } else if txs[n] in Dropped(txs[..n], conflicts) {
      DroppedListed(txs[..n], conflicts, txs[n]);
    }
  }

  lemma {:induction false} DroppedMonotone(txs: seq<Tx>, conflicts: set<Tx>, n: nat)
    requires n <= |txs|
    ensures Dropped(txs[..n], conflicts) <= Dropped(txs, conflicts)
    decreases |txs|
  {
    if n < |txs| {
      DroppedMonotone(txs[..|txs| - 1], conflicts, n);
      assert txs[..|txs| - 1][..n] == txs[..n];
    } else {
      assert txs[..n] == txs;
    }
  }

  /** Nothing is dropped without a path from a conflict. */
  lemma {:induction false} DroppedIsTainted(txs: seq<Tx>, conflicts: set<Tx>, i: nat)
    requires Distinct(txs) && i < |txs| && txs[i] in Dropped(txs, conflicts)
    ensures Tainted(txs, conflicts, txs[i])
    decreases i
  {
    DroppedAt(txs, conflicts, i);
    if txs[i] in conflicts {
      assert DescentPath(txs, conflicts, [txs[i]]);
    } else {
      var k :| 0 <= k < |txs[i].inputs| && txs[i].inputs[k].prev in Removed(txs[..i], conflicts);
      var o := txs[i].inputs[k].prev;
      RemovedByDropped(txs[..i], conflicts, o);
      DroppedListed(txs[..i], conflicts, o.txid);
      DroppedMonotone(txs, conflicts, i);
      var j :| 0 <= j < i && txs[j] == o.txid;
      DroppedIsTainted(txs, conflicts, j);
      var path :| DescentPath(txs, conflicts, path) && path[|path| - 1] == txs[j];
      assert (path + [txs[i]])[..|path|] == path;
      assert DescentPath(txs, conflicts, path + [txs[i]]);
    }
  }

  lemma ChildIsDropped(txs: seq<Tx>, conflicts: set<Tx>, i: nat, j: nat)
    requires Distinct(txs) && j < i < |txs| && SpendsFrom(txs[i], txs[j]) && txs[j] in Dropped(txs, conflicts)
    ensures txs[i] in Dropped(txs, conflicts)
  {
    DroppedAt(txs, conflicts, j);
    assert txs[..i][..j] == txs[..j] && txs[..i][j] == txs[j];
    DistinctPrefix(txs, i);
    DroppedAt(txs[..i], conflicts, j);
    var k :| 0 <= k < |txs[i].inputs| && txs[i].inputs[k].prev in Creates(txs[j]);
    RemovedByDropped(txs[..i], conflicts, txs[i].inputs[k].prev);
    DroppedAt(txs, conflicts, i);
  }

  /** Everything on a path from a conflict is dropped, because parents come first. */
  lemma {:induction false} PathIsDropped(txs: seq<Tx>, conflicts: set<Tx>, path: seq<Tx>)
    requires Topological(txs) && DescentPath(txs, conflicts, path)
    ensures path[|path| - 1] in Dropped(txs, conflicts)
    decreases |path|
  {
    var n := |path| - 1;
    var i :| 0 <= i < |txs| && txs[i] == path[n];
    if n == 0 {
      DroppedAt(txs, conflicts, i);
    } else {
      PathIsDropped(txs, conflicts, path[..n]);
      var j :| 0 <= j < |txs| && txs[j] == path[n - 1];
      assert SpendsFrom(txs[i], txs[j]);
      ChildIsDropped(txs, conflicts, i, j);
    }
  }

  lemma {:induction false} EvictIsWithout(txs: seq<Tx>, conflicts: set<Tx>, bad: set<Tx>)
    requires forall i | 0 <= i < |txs| ::
               txs[i] in bad <==> Doomed(txs[i], conflicts, Removed(txs[..i], conflicts))
    ensures Evict(txs, conflicts) == Without(txs, bad)
    decreases |txs|
  {
    if txs != [] {
      var n := |txs| - 1;
      forall i | 0 <= i < n
        ensures txs[..n][i] in bad <==> Doomed(txs[..n][i], conflicts, Removed(txs[..n][..i], conflicts))
      {
        assert txs[..n][i] == txs[i] && txs[..n][..i] == txs[..i];
      }
      EvictIsWithout(txs[..n], conflicts, bad);
      assert txs[n] in bad <==> Doomed(txs[n], conflicts, Removed(txs[..n], conflicts));
    }
  }

  /** On a mempool in block order the single pass keeps, in order, exactly the transactions that are neither
      conflicts nor transitive descendants of conflicts. */
  lemma EvictionExact(txs: seq<Tx>, conflicts: set<Tx>)
    requires Topological(txs)
    ensures Evict(txs, conflicts) == Without(txs, set tx | tx in txs && Tainted(txs, conflicts, tx))
  {
    var bad := set tx | tx in txs && Tainted(txs, conflicts, tx);
    forall i | 0 <= i < |txs|
      ensures txs[i] in bad <==> Doomed(txs[i], conflicts, Removed(txs[..i], conflicts))
    {
      DroppedAt(txs, conflicts, i);
      if txs[i] in Dropped(txs, conflicts) {
        DroppedIsTainted(txs, conflicts, i);
      }
      if Tainted(txs, conflicts, txs[i]) {
        var path :| DescentPath(txs, conflicts, path) && path[|path| - 1] == txs[i];
        PathIsDropped(txs, conflicts, path);
      }
    }
    EvictIsWithout(txs, conflicts, bad);
  }

  /** What survives is still in valid block order. */
  lemma {:induction false} EvictSpendable(utxos: set<OutPoint>, txs: seq<Tx>, conflicts: set<Tx>)
    requires Spendable(utxos, txs)
    ensures Spendable(utxos, Evict(txs, conflicts))
    ensures ApplyAll(utxos, txs) - Removed(txs, conflicts) <= ApplyAll(utxos, Evict(txs, conflicts))
    decreases |txs|
  {
    if txs != [] {
      var n := |txs| - 1;
      SpendablePrefix(utxos, txs, n);
      EvictSpendable(utxos, txs[..n], conflicts);
      var kept := Evict(txs[..n], conflicts);
      if Evict(txs, conflicts) == kept + [txs[n]] && !Doomed(txs[n], conflicts, Removed(txs[..n], conflicts)) {
        assert SpendableAt(utxos, txs, n);
        SpendableSnoc(utxos, kept, txs[n]);
      }
    }
  }

  lemma {:induction false} EvictSubsequence(txs: seq<Tx>, conflicts: set<Tx>)
    requires Distinct(txs)
    ensures Distinct(Evict(txs, conflicts))
    ensures forall tx | tx in Evict(txs, conflicts) :: tx in txs
    decreases |txs|
  {
    if txs != [] {
      var n := |txs| - 1;
      DistinctPrefix(txs, n);
      EvictSubsequence(txs[..n], conflicts);
      assert NewAt(txs, n);
      var kept := Evict(txs[..n], conflicts);
      if txs[n] !in kept {
        DistinctSnoc(kept, txs[n]);
      }
    }
  }

  lemma {:induction false} EvictNothing(txs: seq<Tx>)
    ensures Evict(txs, {}) == txs && Removed(txs, {}) == {}
  {
    if txs != [] {
      EvictNothing(txs[..|txs| - 1]);
    }
  }

  /** The direct conflicts of `tx`. */
  function Conflicts(txs: seq<Tx>, tx: Tx): set<Tx> {
    set p | p in txs && Conflict(p, tx)
  }

  /** Some direct conflict does not signal replaceability. */
  ghost predicate Blocked(txs: seq<Tx>, tx: Tx) {
    exists p | p in Conflicts(txs, tx) :: !SignalsRbf(p)
  }

  /** Last relayed wins, if every transaction in its way signals replaceability; the evicted ones are gone even if
      the newcomer then turns out to spend something that is not available. */
  ghost function Admit(txs: seq<Tx>, utxos: set<OutPoint>, confirmed: set<Tx>, tx: Tx): seq<Tx> {
    if tx in confirmed || tx in txs || Blocked(txs, tx) then txs else
    var kept := Evict(txs, Conflicts(txs, tx));
    if InputsOk(tx, ApplyAll(utxos, kept)) then kept + [tx] else kept
  }

  /** The conflicts of `tx` in the mempool and their transitive descendants. */
  ghost function InTheWay(txs: seq<Tx>, tx: Tx): set<Tx> {
    set p | p in txs && Tainted(txs, Conflicts(txs, tx), p)
  }

  /** Admission in full, on a mempool that lists parents first: nothing happens for a known or blocked newcomer. For any
      other, what is in its way goes, the rest stays in order, and the newcomer comes last if and only if its inputs are
      then available. */
  lemma AdmitExact(txs: seq<Tx>, utxos: set<OutPoint>, confirmed: set<Tx>, tx: Tx)
    requires Topological(txs)
    ensures tx in confirmed || tx in txs || Blocked(txs, tx) ==> Admit(txs, utxos, confirmed, tx) == txs
    ensures tx !in confirmed && tx !in txs && !Blocked(txs, tx) ==>
              var kept := Without(txs, InTheWay(txs, tx));
              Admit(txs, utxos, confirmed, tx) == kept + if InputsOk(tx, ApplyAll(utxos, kept)) then [tx] else []
  {
    EvictionExact(txs, Conflicts(txs, tx));
    var kept := Without(txs, InTheWay(txs, tx));
    assert kept + [] == kept;
  }

  /** In particular one that is in nobody's way is simply added. */
  lemma AdmitUncontested(txs: seq<Tx>, utxos: set<OutPoint>, confirmed: set<Tx>, tx: Tx)
    requires Conflicts(txs, tx) == {} && tx !in confirmed && tx !in txs && InputsOk(tx, ApplyAll(utxos, txs))
    ensures Admit(txs, utxos, confirmed, tx) == txs + [tx]
  {
    EvictNothing(txs);
  }

  /** The mempool's invariant: its transactions are distinct, unconfirmed, and could be mined in this order. */
  ghost predicate InOrder(txs: seq<Tx>, utxos: set<OutPoint>, confirmed: set<Tx>) {
    Distinct(txs) && Spendable(utxos, txs) && forall p | p in txs :: p !in confirmed
  }

  lemma EvictInOrder(txs: seq<Tx>, utxos: set<OutPoint>, confirmed: set<Tx>, conflicts: set<Tx>)
    requires InOrder(txs, utxos, confirmed)
    ensures InOrder(Evict(txs, conflicts), utxos, confirmed)
  {
    EvictSubsequence(txs, conflicts);
    EvictSpendable(utxos, txs, conflicts);
  }

  lemma SnocInOrder(txs: seq<Tx>, utxos: set<OutPoint>, confirmed: set<Tx>, tx: Tx)
    requires InOrder(txs, utxos, confirmed) && tx !in txs && tx !in confirmed && InputsOk(tx, ApplyAll(utxos, txs))
    ensures InOrder(txs + [tx], utxos, confirmed)
  {
    SpendableSnoc(utxos, txs, tx);
    DistinctSnoc(txs, tx);
  }

  /** Admission keeps that invariant, whatever is relayed. */
  lemma AdmitInOrder(txs: seq<Tx>, utxos: set<OutPoint>, confirmed: set<Tx>, tx: Tx)
    requires InOrder(txs, utxos, confirmed)
    ensures InOrder(Admit(txs, utxos, confirmed, tx), utxos, confirmed)
  {
    var kept := Evict(txs, Conflicts(txs, tx));
    EvictSubsequence(txs, Conflicts(txs, tx));
    EvictInOrder(txs, utxos, confirmed, Conflicts(txs, tx));
    if tx !in confirmed && tx !in txs && InputsOk(tx, ApplyAll(utxos, kept)) {
      SnocInOrder(kept, utxos, confirmed, tx);
    }
  }

  lemma AdmitMembers(txs: seq<Tx>, utxos: set<OutPoint>, confirmed: set<Tx>, tx: Tx)
    requires Distinct(txs)
    ensures forall p | p in Admit(txs, utxos, confirmed, tx) :: p in txs || p == tx
  {
    EvictSubsequence(txs, Conflicts(txs, tx));
  }

  lemma {:induction false} EvictShrinks(txs: seq<Tx>, conflicts: set<Tx>)
    ensures |Evict(txs, conflicts)| <= |txs|
    ensures (exists p | p in conflicts :: p in txs) ==> |Evict(txs, conflicts)| < |txs|
  {
    if txs != [] {
      EvictShrinks(txs[..|txs| - 1], conflicts);
    }
  }

  /** Relaying leaves the mempool as it was or with the newcomer in it, except exactly when conflicts were evicted
      for a newcomer whose inputs are not available. */
  lemma ReplacementAtomic(txs: seq<Tx>, utxos: set<OutPoint>, confirmed: set<Tx>, tx: Tx)
    requires Distinct(txs)
    ensures (Admit(txs, utxos, confirmed, tx) == txs || tx in Admit(txs, utxos, confirmed, tx)) <==>
            (tx in confirmed || tx in txs || Conflicts(txs, tx) == {} || Blocked(txs, tx)
             || InputsOk(tx, ApplyAll(utxos, Evict(txs, Conflicts(txs, tx)))))
  {
    EvictNothing(txs);
    EvictShrinks(txs, Conflicts(txs, tx));
    EvictSubsequence(txs, Conflicts(txs, tx));
  }

  /** A newcomer that spends the contested output and one of the transaction it would replace evicts that one, and with
      it its own input. */
  lemma EvictsOwnInput(coin: OutPoint, confirmed: set<Tx>, held: Tx, newcomer: Tx)
    requires held.inputs == [Input(coin, 0)] && OutPoint(held, 0) != coin
    requires newcomer.inputs == [Input(coin, 0), Input(OutPoint(held, 0), 0)]
    requires newcomer !in confirmed && newcomer != held
    ensures Admit([held], {coin}, confirmed, newcomer) == []
  {
    assert held.inputs[0] in held.inputs && newcomer.inputs[0] in newcomer.inputs;
    assert Conflicts([held], newcomer) == {held} && SignalsRbf(held);
    assert [held][..0] == [] && Evict([held], {held}) == [];
    assert newcomer.inputs[1].prev !in {coin};
  }
}
