/** The harness's chain: blocks, mempool and unspent outputs, advanced by setup mining, relaying and mining. */
module HarnessChain {
  import opened Ledger
  import opened Mempool

  function Flatten(blocks: seq<seq<Tx>>): seq<Tx> {
    if blocks == [] then [] else Flatten(blocks[..|blocks| - 1]) + blocks[|blocks| - 1]
  }

  /** No transaction that came through the mempool is locked by a time or sits at or below the height it was locked
      until. */
  ghost predicate LocksRespected(blocks: seq<seq<Tx>>) {
    forall h | 0 <= h < |blocks| :: LocksRespectedAt(blocks, h)
  }

  ghost predicate LocksRespectedAt(blocks: seq<seq<Tx>>, h: nat)
    requires h < |blocks|
  {
    forall tx | tx in blocks[h] && !IsSetup(tx) :: (HeightLocked(tx) ==> tx.lockTime < h) && !TimeLocked(tx)
  }

  lemma LocksSnoc(blocks: seq<seq<Tx>>, txs: seq<Tx>)
    requires LocksRespected(blocks) && forall tx | tx in txs :: IsSetup(tx) || Relayable(tx, |blocks| - 1)
    ensures LocksRespected(blocks + [txs])
  {
    forall h | 0 <= h < |blocks| + 1 ensures LocksRespectedAt(blocks + [txs], h) {
      assert h < |blocks| ==> LocksRespectedAt(blocks, h);
    }
  }

  ghost predicate AllRelayable(txs: seq<Tx>, tip: int) {
    forall p | p in txs :: Relayable(p, tip)
  }

  ghost predicate Relayable(tx: Tx, tip: int) {
    !IsSetup(tx) && (HeightLocked(tx) ==> tx.lockTime <= tip) && !TimeLocked(tx)
  }

  lemma FlattenSnoc(blocks: seq<seq<Tx>>, txs: seq<Tx>)
    ensures Flatten(blocks + [txs]) == Flatten(blocks) + txs
  {
    assert (blocks + [txs])[..|blocks|] == blocks;
  }

  /** In every state a run can reach, one eviction pass is exact. */
  lemma ReachableEvictionExact(ledger: seq<Tx>, pending: seq<Tx>, tx: Tx)
    requires ValidLedger(ledger) && InOrder(pending, ApplyAll({}, ledger), TxSet(ledger))
    ensures Topological(pending)
    ensures Evict(pending, Conflicts(pending, tx))
            == Without(pending, set p | p in pending && Tainted(pending, Conflicts(pending, tx), p))
  {
    UtxosAreCreatedMinusSpent(ledger);
    forall j | 0 <= j < |pending| ensures Creates(pending[j]) !! ApplyAll({}, ledger) {
      forall o | o in ApplyAll({}, ledger) ensures o !in Creates(pending[j]) {
        CreatedBy(ledger, o);
        assert o.txid in TxSet(ledger) && pending[j] in pending;
      }
    }
    SpendableIsTopological(ApplyAll({}, ledger), pending);
    EvictionExact(pending, Conflicts(pending, tx));
  }

  /** No input of `tx` is repeated and each spends an output created by the transactions and not spent by them. */
  ghost predicate SpendsOnlyUnspent(tx: Tx, txs: seq<Tx>) {
    && (forall i, j | 0 <= i < j < |tx.inputs| :: tx.inputs[i].prev != tx.inputs[j].prev)
    && (forall i | 0 <= i < |tx.inputs| :: UnspentIn(txs, tx.inputs[i].prev))
  }

  lemma InputsMean(tx: Tx, txs: seq<Tx>)
    requires ValidLedger(txs)
    ensures InputsOk(tx, ApplyAll({}, txs)) <==> SpendsOnlyUnspent(tx, txs)
  {
    forall i | 0 <= i < |tx.inputs|
      ensures tx.inputs[i].prev in ApplyAll({}, txs) <==> UnspentIn(txs, tx.inputs[i].prev)
    {
      UtxosAreUnspent(txs, tx.inputs[i].prev);
    }
  }

  /** Some pending transaction spends an output that `tx` spends, and none of its sequences allows replacement. */
  ghost predicate Protected(pending: seq<Tx>, tx: Tx) {
    exists p | p in pending ::
      SharesInput(p, tx) && forall i | 0 <= i < |p.inputs| :: p.inputs[i].sequence > 0xFFFF_FFFD
  }

  ghost predicate SharesInput(p: Tx, tx: Tx) {
    exists o :: SpendsOut(p, o) && SpendsOut(tx, o)
  }

  lemma BlockedMeans(pending: seq<Tx>, tx: Tx)
    ensures Blocked(pending, tx) <==> Protected(pending, tx)
    ensures Conflicts(pending, tx) == set p | p in pending && SharesInput(p, tx)
  {
    forall p | p in pending
      ensures p in Conflicts(pending, tx) <==> SharesInput(p, tx)
      ensures SignalsRbf(p) <==> !(forall i | 0 <= i < |p.inputs| :: p.inputs[i].sequence > 0xFFFF_FFFD)
    {
      ConflictMeans(p, tx);
      SignalsBelowTwoHighest(p);
    }
  }

  /** Relaying `tx`, in terms of the blocks, the mempool and the transactions' inputs and outputs alone: a newcomer that
      is confirmed, listed or up against a transaction that does not allow replacement changes nothing. Any other evicts
      exactly the transactions sharing an input with it and their descendants, and comes last if and only if it repeats
      no input and spends only what blocks and remaining mempool created and did not spend. */
  ghost predicate Relayed(blocks: seq<seq<Tx>>, pending: seq<Tx>, tx: Tx, after: seq<Tx>) {
    if tx in Flatten(blocks) || tx in pending || Protected(pending, tx) then after == pending else
    var direct := set p | p in pending && SharesInput(p, tx);
    var kept := Without(pending, set p | p in pending && Tainted(pending, direct, p));
    after == kept + if SpendsOnlyUnspent(tx, Flatten(blocks) + kept) then [tx] else []
  }

  /** Admission does exactly that in every reachable state. */
  lemma AdmissionExact(blocks: seq<seq<Tx>>, confirmed: set<Tx>, pending: seq<Tx>, utxos: set<OutPoint>, tx: Tx)
    requires Consistent(blocks, confirmed, pending, utxos)
    ensures Relayed(blocks, pending, tx, Admit(pending, utxos, confirmed, tx))
  {
    BlockedMeans(pending, tx);
    ReachableEvictionExact(Flatten(blocks), pending, tx);
    AdmitExact(pending, utxos, confirmed, tx);
    var kept := Evict(pending, Conflicts(pending, tx));
    EvictInOrder(pending, utxos, confirmed, Conflicts(pending, tx));
    LedgerWithMempool(Flatten(blocks), kept);
    InputsMean(tx, Flatten(blocks) + kept);
  }

  /** Mining a setup transaction under a mempool leaves the mempool minable. */
  lemma SetupUnderMempool(ledger: seq<Tx>, pending: seq<Tx>, tx: Tx)
    requires ValidLedger(ledger) && IsSetup(tx) && tx !in ledger
    requires InOrder(pending, ApplyAll({}, ledger), TxSet(ledger)) && forall p | p in pending :: !IsSetup(p)
    ensures ValidLedger(ledger + [tx])
    ensures ApplyAll({}, ledger + [tx]) == Apply(ApplyAll({}, ledger), tx)
    ensures InOrder(pending, ApplyAll({}, ledger + [tx]), TxSet(ledger + [tx]))
  {
    var all := ledger + [tx];
    DistinctSnoc(ledger, tx);
    assert all[..|ledger|] == ledger;
    forall i | 0 <= i < |all| ensures ConfirmableAt(all, i) {
      if i < |ledger| {
        assert ConfirmableAt(ledger, i) && all[..i] == ledger[..i];
      }
    }
    UtxosAreCreatedMinusSpent(ledger);
    NullNeverCreated(ledger);
    assert Spends(tx) <= {Null};
    SpendableMonotone(ApplyAll({}, ledger), ApplyAll({}, all), pending);
  }

  lemma NullNeverCreated(ledger: seq<Tx>)
    ensures Null !in AllCreated(ledger)
  {
    if Null in AllCreated(ledger) {
      CreatedBy(ledger, Null);
    }
  }

  lemma LedgerWithMempool(ledger: seq<Tx>, pending: seq<Tx>)
    requires ValidLedger(ledger) && InOrder(pending, ApplyAll({}, ledger), TxSet(ledger))
    ensures ValidLedger(ledger + pending)
    ensures ApplyAll({}, ledger + pending) == ApplyAll(ApplyAll({}, ledger), pending)
  {
    DistinctConcat(ledger, pending);
    ConfirmAll(ledger, pending);
    ApplyAllConcat({}, ledger, pending);
  }

  /** The invariant of the harness's chain. */
  ghost predicate Consistent(blocks: seq<seq<Tx>>, confirmed: set<Tx>, pending: seq<Tx>, utxos: set<OutPoint>) {
    && blocks != []
    && ValidLedger(Flatten(blocks))
    && confirmed == TxSet(Flatten(blocks))
    && utxos == ApplyAll({}, Flatten(blocks))
    && InOrder(pending, utxos, confirmed)
    && AllRelayable(pending, |blocks| - 1)
    && LocksRespected(blocks)
  }

  lemma ConsistentSetup(blocks: seq<seq<Tx>>, confirmed: set<Tx>, pending: seq<Tx>, utxos: set<OutPoint>, tx: Tx)
    requires Consistent(blocks, confirmed, pending, utxos) && IsSetup(tx) && tx !in confirmed
    ensures Consistent(blocks + [[tx]], confirmed + {tx}, pending, Apply(utxos, tx))
  {
    FlattenSnoc(blocks, [tx]);
    SetupUnderMempool(Flatten(blocks), pending, tx);
    LocksSnoc(blocks, [tx]);
    TxSetConcat(Flatten(blocks), [tx]);
    assert TxSet([tx]) == {tx};
  }

  lemma ConsistentEmpty(blocks: seq<seq<Tx>>, confirmed: set<Tx>, pending: seq<Tx>, utxos: set<OutPoint>)
    requires Consistent(blocks, confirmed, pending, utxos)
    ensures Consistent(blocks + [[]], confirmed, pending, utxos)
  {
    FlattenSnoc(blocks, []);
    LocksSnoc(blocks, []);
    assert Flatten(blocks) + [] == Flatten(blocks);
  }

  lemma ConsistentAdmitted(blocks: seq<seq<Tx>>, confirmed: set<Tx>, pending: seq<Tx>, utxos: set<OutPoint>, tx: Tx)
    requires Consistent(blocks, confirmed, pending, utxos) && Relayable(tx, |blocks| - 1)
    ensures Consistent(blocks, confirmed, Admit(pending, utxos, confirmed, tx), utxos)
  {
    AdmitInOrder(pending, utxos, confirmed, tx);
    AdmitMembers(pending, utxos, confirmed, tx);
  }

  lemma ConsistentMined(blocks: seq<seq<Tx>>, confirmed: set<Tx>, pending: seq<Tx>, utxos: set<OutPoint>)
    requires Consistent(blocks, confirmed, pending, utxos)
    ensures Consistent(blocks + [pending], confirmed + TxSet(pending), [], ApplyAll(utxos, pending))
  {
    FlattenSnoc(blocks, pending);
    LedgerWithMempool(Flatten(blocks), pending);
    TxSetConcat(Flatten(blocks), pending);
    LocksSnoc(blocks, pending);
  }

  /** So a state that setup mining and relaying lead to loses its mempool transaction for a newcomer that is
      rejected. */
  lemma ReplacementNotAtomic(funding: Tx, held: Tx, newcomer: Tx)
    requires funding == Tx([], 1, 0, 0) && held == Tx([Input(OutPoint(funding, 0), 0)], 1, 0, 1)
    requires newcomer == Tx([Input(OutPoint(funding, 0), 0), Input(OutPoint(held, 0), 0)], 1, 0, 2)
    ensures Consistent([[], [funding]], {funding}, [held], {OutPoint(funding, 0)})
    ensures Relayable(newcomer, 1)
    ensures Admit([held], {OutPoint(funding, 0)}, {funding}, newcomer) == []
  {
    ConsistentHeld(funding, held);
    EvictsOwnInput(OutPoint(funding, 0), {funding}, held, newcomer);
  }

  lemma AdmitFirst(coin: OutPoint, confirmed: set<Tx>, tx: Tx)
    requires tx.inputs == [Input(coin, 0)] && tx !in confirmed
    ensures Admit([], {coin}, confirmed, tx) == [tx]
  {
    assert Conflicts([], tx) == {};
    assert [] + [tx] == [tx];
  }

  lemma ConsistentHeld(funding: Tx, held: Tx)
    requires IsSyntheticFunding(funding) && funding.outputs == 1 && funding != held
    requires held.inputs == [Input(OutPoint(funding, 0), 0)] && Relayable(held, 1)
    ensures Consistent([[], [funding]], {funding}, [held], {OutPoint(funding, 0)})
  {
    ConsistentFunded(funding);
    AdmitFirst(OutPoint(funding, 0), {funding}, held);
    ConsistentAdmitted([[], [funding]], {funding}, [], {OutPoint(funding, 0)}, held);
  }

  lemma ConsistentFunded(funding: Tx)
    requires IsSyntheticFunding(funding) && funding.outputs == 1
    ensures Consistent([[], [funding]], {funding}, [], {OutPoint(funding, 0)})
  {
    ConsistentStart();
    ConsistentSetup([[]], {}, [], {}, funding);
    assert [[]] + [[funding]] == [[], [funding]] && {} + {funding} == {funding};
    assert Apply({}, funding) == {OutPoint(funding, 0)};
  }

  lemma ConsistentStart()
    ensures Consistent([[]], {}, [], {})
  {
    assert Flatten([[]]) == [];
  }

  method HasInvalidInputs(tx: Tx, utxos: set<OutPoint>) returns (invalid: bool)
    ensures invalid <==> !InputsOk(tx, utxos)
  {
    var spent: set<OutPoint>, i := {}, 0;
    while i < |tx.inputs|
      invariant 0 <= i <= |tx.inputs|
      invariant spent == set k | 0 <= k < i :: tx.inputs[k].prev
      invariant forall a, b | 0 <= a < b < i :: tx.inputs[a].prev != tx.inputs[b].prev
      invariant forall a | 0 <= a < i :: tx.inputs[a].prev in utxos
    {
      if tx.inputs[i].prev in spent {
        return true;
      }
      spent := spent + {tx.inputs[i].prev};
      if tx.inputs[i].prev !in utxos {
        return true;
      }
      i := i + 1;
    }
    return false;
  }

  class ChainState {
    var blocks: seq<seq<Tx>>
    var confirmedTxids: set<Tx>
    var pendingTxs: seq<Tx>
    var utxos: set<OutPoint>

    ghost function Confirmed(): seq<Tx>
      reads this`blocks
    {
      Flatten(blocks)
    }

    ghost predicate Valid()
      reads this
    {
      Consistent(blocks, confirmedTxids, pendingTxs, utxos)
    }

    /** In every reachable state: unspent is exactly what a confirmed transaction created and none spent, the confirmed
        ids are those in blocks, and nothing is confirmed twice. */
    lemma UtxosExact(o: OutPoint)
      requires Valid()
      ensures o in utxos <==> UnspentIn(Confirmed(), o)
      ensures utxos == AllCreated(Confirmed()) - AllSpent(Confirmed())
      ensures forall tx :: tx in confirmedTxids <==> tx in Confirmed()
      ensures Ledger.Distinct(Confirmed())
    {
      UtxosAreUnspent(Confirmed(), o);
      UtxosAreCreatedMinusSpent(Confirmed());
    }

    /** No two inputs of confirmed transactions spend the same output, coinbases aside. */
    lemma NoDoubleSpend(i: nat, a: nat, j: nat, b: nat)
      requires Valid() && i <= j < |Confirmed()| && (i == j ==> a < b) && !IsCoinbase(Confirmed()[j])
      requires a < |Confirmed()[i].inputs| && b < |Confirmed()[j].inputs|
      ensures Confirmed()[i].inputs[a].prev != Confirmed()[j].inputs[b].prev
    {
      var tx := Confirmed()[j];
      if i < j {
        SpentOnce(Confirmed(), i, j);
        SpendsMeans(Confirmed()[i], Confirmed()[i].inputs[a].prev);
        SpendsMeans(tx, tx.inputs[b].prev);
      } else {
        assert ConfirmableAt(Confirmed(), j);
      }
    }

    /** Every confirmed transaction that came through the mempool is final at its height, commitment transactions, whose
        lock time is no lock, aside. */
    lemma ConfirmedAreFinal(h: nat, tx: Tx)
      requires Valid() && h < |blocks| && tx in blocks[h] && !IsSetup(tx)
      ensures Final(tx, h) || CarriesNumber(tx)
    {
      assert LocksRespectedAt(blocks, h);
      PolicyIsFinality(tx, h);
    }

    constructor ()
      ensures Valid() && blocks == [[]] && pendingTxs == []
    {
      blocks, confirmedTxids, pendingTxs, utxos := [[]], {}, [], {};
    }

    method ApplyTxToUtxos(tx: Tx)
      modifies this`utxos
      ensures utxos == Apply(old(utxos), tx)
    {
      var i := 0;
      while i < |tx.inputs|
        invariant 0 <= i <= |tx.inputs|
        invariant utxos == old(utxos) - set k | 0 <= k < i :: tx.inputs[k].prev
      {
        utxos := utxos - {tx.inputs[i].prev};
        i := i + 1;
      }
      assert utxos == old(utxos) - Spends(tx);
      i := 0;
      while i < tx.outputs
        invariant 0 <= i <= tx.outputs
        invariant utxos == old(utxos) - Spends(tx) + set v | 0 <= v < i :: OutPoint(tx, v)
      {
        utxos := utxos + {OutPoint(tx, i)};
        i := i + 1;
      }
    }

    method MineBlock(txs: seq<Tx>)
      modifies this`blocks
      ensures blocks == old(blocks) + [txs]
      ensures Confirmed() == old(Confirmed()) + txs
    {
      FlattenSnoc(blocks, txs);
      blocks := blocks + [txs];
    }

    method MineEmptyBlocks(count: nat)
      modifies this`blocks
      ensures |blocks| == |old(blocks)| + count && blocks[..|old(blocks)|] == old(blocks)
      ensures Confirmed() == old(Confirmed())
      ensures old(Valid()) ==> Valid()
    {
      var i := 0;
      while i < count
        invariant 0 <= i <= count
        invariant |blocks| == |old(blocks)| + i && blocks[..|old(blocks)|] == old(blocks)
        invariant Confirmed() == old(Confirmed())
        invariant old(Valid()) ==> Valid()
      {
        if Valid() {
          ConsistentEmpty(blocks, confirmedTxids, pendingTxs, utxos);
        }
        MineBlock([]);
        i := i + 1;
      }
    }

    method ConfirmSetup(tx: Tx)
      requires Valid() && IsSetup(tx) && tx !in confirmedTxids
      modifies this`blocks, this`confirmedTxids, this`utxos
      ensures Valid() && blocks == old(blocks) + [[tx]]
    {
      ConsistentSetup(blocks, confirmedTxids, pendingTxs, utxos, tx);
      confirmedTxids := confirmedTxids + {tx};
      ApplyTxToUtxos(tx);
      MineBlock([tx]);
    }

    /** Confirms a coinbase or synthetic funding transaction past the mempool. */
    method MineSetupTxToDepth(tx: Tx, depth: nat)
      requires Valid() && IsSetup(tx) && tx !in confirmedTxids
      modifies this`blocks, this`confirmedTxids, this`utxos
      ensures Valid()
      ensures Confirmed() == old(Confirmed()) + [tx]
      ensures |blocks| == |old(blocks)| + if depth == 0 then 1 else depth
      ensures blocks[..|old(blocks)| + 1] == old(blocks) + [[tx]]
    {
      FlattenSnoc(blocks, [tx]);
      ConfirmSetup(tx);
      MineEmptyBlocks(if depth == 0 then 0 else depth - 1);
    }

    /** Relays one transaction. The asserted policy is a demand on the broadcaster. */
    method AdmitTxToMempool(tx: Tx)
      requires Valid()
      requires Relayable(tx, |blocks| - 1)
      modifies this`pendingTxs
      ensures Valid()
      ensures pendingTxs == Admit(old(pendingTxs), utxos, confirmedTxids, tx)
      ensures Relayed(blocks, old(pendingTxs), tx, pendingTxs)
    {
      AdmissionExact(blocks, confirmedTxids, pendingTxs, utxos, tx);
      ConsistentAdmitted(blocks, confirmedTxids, pendingTxs, utxos, tx);
      pendingTxs := ComputeAdmission(pendingTxs, utxos, confirmedTxids, tx);
    }

    method RelayTransactions(txs: seq<Tx>)
      requires Valid()
      requires forall i | 0 <= i < |txs| :: Relayable(txs[i], |blocks| - 1)
      modifies this`pendingTxs
      ensures Valid()
      ensures pendingTxs == AdmitAll(old(pendingTxs), utxos, confirmedTxids, txs)
    {
      var i := 0;
      while i < |txs|
        invariant 0 <= i <= |txs|
        invariant Valid()
        invariant pendingTxs == AdmitAll(old(pendingTxs), utxos, confirmedTxids, txs[..i])
      {
        AdmitTxToMempool(txs[i]);
        assert txs[..i + 1][..i] == txs[..i];
        i := i + 1;
      }
      assert txs[..i] == txs;
    }

    /** Confirms each mempool transaction in turn. Neither assertion on the way can fail. */
    method ConfirmMempool(mempool: seq<Tx>) returns (confirmed: seq<Tx>)
      requires InOrder(mempool, utxos, confirmedTxids)
      modifies this`utxos, this`confirmedTxids
      ensures confirmed == mempool
      ensures utxos == ApplyAll(old(utxos), mempool)
      ensures confirmedTxids == old(confirmedTxids) + TxSet(mempool)
    {
      confirmed := [];
      var i := 0;
      while i < |mempool|
        invariant 0 <= i <= |mempool| && confirmed == mempool[..i]
        invariant utxos == ApplyAll(old(utxos), mempool[..i])
        invariant confirmedTxids == old(confirmedTxids) + TxSet(mempool[..i])
      {
        var tx := mempool[i];
        assert SpendableAt(old(utxos), mempool, i) && NewAt(mempool, i);
        var invalid := HasInvalidInputs(tx, utxos);
        assert !invalid;
        assert tx !in confirmedTxids;
        confirmedTxids := confirmedTxids + {tx};
        ApplyTxToUtxos(tx);
        confirmed := confirmed + [tx];
        assert mempool[..i + 1][..i] == mempool[..i];
        i := i + 1;
      }
      assert mempool[..i] == mempool;
    }

    /** Confirms the whole mempool in one block, then buries it. */
    method MineBlocks(count: nat) returns (confirmedTxs: seq<Tx>)
      requires Valid() && count > 0
      modifies this
      ensures Valid() && pendingTxs == []
      ensures confirmedTxs == old(pendingTxs) && Confirmed() == old(Confirmed()) + old(pendingTxs)
      ensures |blocks| == |old(blocks)| + count && blocks[..|old(blocks)| + 1] == old(blocks) + [confirmedTxs]
    {
      ConsistentMined(blocks, confirmedTxids, pendingTxs, utxos);
      var mempool := pendingTxs;
      pendingTxs := [];
      if mempool == [] {
        assert confirmedTxids + TxSet(mempool) == confirmedTxids;
        MineBlock([]);
        confirmedTxs := [];
      } else {
        confirmedTxs := ConfirmMempool(mempool);
        MineBlock(confirmedTxs);
      }
      assert Valid();
      MineEmptyBlocks(count - 1);
    }
  }

  ghost function AdmitAll(txs: seq<Tx>, utxos: set<OutPoint>, confirmed: set<Tx>, relayed: seq<Tx>): seq<Tx> {
    if relayed == [] then txs
    else Admit(AdmitAll(txs, utxos, confirmed, relayed[..|relayed| - 1]), utxos, confirmed, relayed[|relayed| - 1])
  }

  /** The mempool after relaying `tx`. */
  method ComputeAdmission(pending: seq<Tx>, utxos: set<OutPoint>, confirmed: set<Tx>, tx: Tx) returns (r: seq<Tx>)
    ensures r == Admit(pending, utxos, confirmed, tx)
  {
    if tx in confirmed || tx in pending {
      return pending;
    }
    var blocked, conflicts := FindConflicts(pending, tx);
    if blocked {
      return pending;
    }
    r := pending;
    if conflicts != {} {
      r := EvictConflicts(pending, conflicts);
    } else {
      EvictNothing(pending);
    }
    var available := AvailableUtxos(utxos, r);
    var invalid := HasInvalidInputs(tx, available);
    if !invalid {
      r := r + [tx];
    }
  }

  /** Scans for direct conflicts, giving up at the first that does not signal replaceability. */
  method FindConflicts(pending: seq<Tx>, tx: Tx) returns (blocked: bool, conflicts: set<Tx>)
    ensures blocked <==> Blocked(pending, tx)
    ensures !blocked ==> conflicts == Conflicts(pending, tx)
  {
    conflicts := {};
    var i := 0;
    while i < |pending|
      invariant 0 <= i <= |pending|
      invariant conflicts == Conflicts(pending[..i], tx)
      invariant forall p | p in conflicts :: SignalsRbf(p)
    {
      if Conflict(pending[i], tx) {
        if !SignalsRbf(pending[i]) {
          assert pending[i] in Conflicts(pending, tx);
          return true, conflicts;
        }
        conflicts := conflicts + {pending[i]};
      }
      i := i + 1;
    }
    assert pending[..i] == pending;
    blocked := false;
  }

  /** The eviction pass as it runs, with the set of removed outputs. */
  method EvictConflicts(pending: seq<Tx>, conflicts: set<Tx>) returns (retained: seq<Tx>)
    ensures retained == Evict(pending, conflicts)
  {
    var removed: set<OutPoint>, i := {}, 0;
    retained := [];
    while i < |pending|
      invariant 0 <= i <= |pending|
      invariant retained == Evict(pending[..i], conflicts) && removed == Removed(pending[..i], conflicts)
    {
      assert pending[..i + 1][..i] == pending[..i];
      if Doomed(pending[i], conflicts, removed) {
        removed := removed + Creates(pending[i]);
      } else {
        retained := retained + [pending[i]];
      }
      i := i + 1;
    }
    assert pending[..i] == pending;
  }

  method AvailableUtxos(utxos: set<OutPoint>, pending: seq<Tx>) returns (available: set<OutPoint>)
    ensures available == ApplyAll(utxos, pending)
  {
    available := utxos;
    var i := 0;
    while i < |pending|
      invariant 0 <= i <= |pending|
      invariant available == ApplyAll(utxos, pending[..i])
    {
      assert pending[..i + 1][..i] == pending[..i];
      available := available - Spends(pending[i]) + Creates(pending[i]);
      i := i + 1;
    }
    assert pending[..i] == pending;
  }
}
