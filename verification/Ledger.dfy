/** Transactions, the unspent outputs they leave behind, and what makes a list of them a valid order to confirm. */
module Ledger {

  const SEQUENCE_MAX: nat := 0xFFFF_FFFF
  const LOCK_TIME_THRESHOLD: nat := 500_000_000

  /** The hash of a transaction is collision-free, so the hashed content itself stands for the txid. */
  datatype Tx = Tx(inputs: seq<Input>, outputs: nat, lockTime: nat, salt: nat)

  datatype Input = Input(prev: OutPoint, sequence: nat)

  datatype OutPoint = Null | OutPoint(txid: Tx, vout: nat)

  predicate IsCoinbase(tx: Tx) {
    |tx.inputs| == 1 && tx.inputs[0].prev.Null?
  }

  predicate IsSyntheticFunding(tx: Tx) {
    !IsCoinbase(tx) && tx.inputs == []
  }

  predicate IsSetup(tx: Tx) {
    IsCoinbase(tx) || IsSyntheticFunding(tx)
  }

  predicate SignalsRbf(tx: Tx) {
    exists i | i in tx.inputs :: i.sequence < SEQUENCE_MAX - 1
  }

  predicate LockTimeEnabled(tx: Tx) {
    exists i | i in tx.inputs :: i.sequence != SEQUENCE_MAX
  }

  /** The transaction may not confirm at or below the height in its lock time. */
  predicate HeightLocked(tx: Tx) {
    LockTimeEnabled(tx) && tx.lockTime < LOCK_TIME_THRESHOLD
  }

  predicate ObscuredCommitment(tx: Tx) {
    |tx.inputs| == 1 && tx.inputs[0].sequence / 0x100_0000 == 0x80 && tx.lockTime / 0x100_0000 == 0x20
  }

  predicate TimeLocked(tx: Tx) {
    LockTimeEnabled(tx) && tx.lockTime >= LOCK_TIME_THRESHOLD && !ObscuredCommitment(tx)
  }

  /** The consensus rule for lock times given as heights. */
  ghost predicate Final(tx: Tx, height: nat) {
    || (forall i | 0 <= i < |tx.inputs| :: tx.inputs[i].sequence == 0xFFFF_FFFF)
    || (tx.lockTime < 500_000_000 && tx.lockTime < height)
  }

  /** A commitment transaction carries 48 bits of an obscured number below the top bytes of its one sequence and of its
      lock time. */
  ghost predicate CarriesNumber(tx: Tx) {
    && |tx.inputs| == 1 && 0x8000_0000 <= tx.inputs[0].sequence <= 0x80FF_FFFF
    && 0x2000_0000 <= tx.lockTime <= 0x20FF_FFFF
  }

  /** What the lock-time policy lets through at a height is final in the next block, except for commitment transactions,
      whose lock time is no lock. */
  lemma PolicyIsFinality(tx: Tx, height: nat)
    ensures (HeightLocked(tx) ==> tx.lockTime < height) && !TimeLocked(tx) <==> Final(tx, height) || CarriesNumber(tx)
  {
    if LockTimeEnabled(tx) {
      var x :| x in tx.inputs && x.sequence != 0xFFFF_FFFF;
      var i :| 0 <= i < |tx.inputs| && tx.inputs[i] == x;
      assert tx.inputs[i].sequence != 0xFFFF_FFFF;
    } else {
      assert forall i | 0 <= i < |tx.inputs| :: tx.inputs[i] in tx.inputs;
    }
    if CarriesNumber(tx) {
      assert tx.inputs[0] in tx.inputs;
    }
  }

  /** Replaceability as BIP 125 has it: some sequence is below the two highest. */
  lemma SignalsBelowTwoHighest(tx: Tx)
    ensures SignalsRbf(tx) <==> exists i | 0 <= i < |tx.inputs| :: tx.inputs[i].sequence <= 0xFFFF_FFFD
  {
  }

  ghost predicate SpendsOut(tx: Tx, o: OutPoint) {
    exists i | 0 <= i < |tx.inputs| :: tx.inputs[i].prev == o
  }

  ghost predicate SpentIn(txs: seq<Tx>, o: OutPoint) {
    exists k | 0 <= k < |txs| :: SpendsOut(txs[k], o)
  }

  ghost predicate CreatedIn(txs: seq<Tx>, o: OutPoint) {
    o.OutPoint? && o.txid in txs && o.vout < o.txid.outputs
  }

  /** Created by one of the transactions and spent by none. */
  ghost predicate UnspentIn(txs: seq<Tx>, o: OutPoint) {
    CreatedIn(txs, o) && !SpentIn(txs, o)
  }

  lemma SpendsMeans(tx: Tx, o: OutPoint)
    ensures o in Spends(tx) <==> SpendsOut(tx, o)
  {
    if SpendsOut(tx, o) {
      var i :| 0 <= i < |tx.inputs| && tx.inputs[i].prev == o;
      assert tx.inputs[i] in tx.inputs;
    }
  }

  /** Transactions conflict if they spend an output in common. */
  lemma ConflictMeans(a: Tx, b: Tx)
    ensures Conflict(a, b) <==> exists o :: SpendsOut(a, o) && SpendsOut(b, o)
  {
    if Conflict(a, b) {
      var i :| i in a.inputs && exists j | j in b.inputs :: i.prev == j.prev;
      SpendsMeans(a, i.prev);
      SpendsMeans(b, i.prev);
    }
    if o :| SpendsOut(a, o) && SpendsOut(b, o) {
      var i :| 0 <= i < |a.inputs| && a.inputs[i].prev == o;
      var j :| 0 <= j < |b.inputs| && b.inputs[j].prev == o;
      assert a.inputs[i] in a.inputs && b.inputs[j] in b.inputs;
    }
  }

  function Spends(tx: Tx): set<OutPoint> {
    set i | i in tx.inputs :: i.prev
  }

  function Creates(tx: Tx): set<OutPoint> {
    set v | 0 <= v < tx.outputs :: OutPoint(tx, v)
  }

  predicate Conflict(a: Tx, b: Tx) {
    exists i | i in a.inputs :: exists j | j in b.inputs :: i.prev == j.prev
  }

  function Apply(utxos: set<OutPoint>, tx: Tx): set<OutPoint> {
    utxos - Spends(tx) + Creates(tx)
  }

  /** The unspent outputs after confirming `txs` in order. */
  function ApplyAll(utxos: set<OutPoint>, txs: seq<Tx>): set<OutPoint> {
    if txs == [] then utxos else Apply(ApplyAll(utxos, txs[..|txs| - 1]), txs[|txs| - 1])
  }

  /** No input is repeated and each spends an unspent output. */
  ghost predicate InputsOk(tx: Tx, utxos: set<OutPoint>) {
    && (forall i, j | 0 <= i < j < |tx.inputs| :: tx.inputs[i].prev != tx.inputs[j].prev)
    && (forall i | 0 <= i < |tx.inputs| :: tx.inputs[i].prev in utxos)
  }

  function TxSet(txs: seq<Tx>): set<Tx> {
    set tx | tx in txs
  }

  lemma TxSetConcat(a: seq<Tx>, b: seq<Tx>)
    ensures TxSet(a + b) == TxSet(a) + TxSet(b)
  {
  }

  ghost predicate Distinct(txs: seq<Tx>) {
    forall i | 0 <= i < |txs| :: NewAt(txs, i)
  }

  ghost predicate NewAt(txs: seq<Tx>, i: nat)
    requires i < |txs|
  {
    txs[i] !in txs[..i]
  }

  lemma DistinctPair(txs: seq<Tx>, i: nat, j: nat)
    requires Distinct(txs) && i < |txs| && j < |txs| && txs[i] == txs[j]
    ensures i == j
  {
    assert NewAt(txs, i) && NewAt(txs, j);
  }

  lemma DistinctPrefix(txs: seq<Tx>, n: nat)
    requires Distinct(txs) && n <= |txs|
    ensures Distinct(txs[..n])
  {
    forall i | 0 <= i < n ensures NewAt(txs[..n], i) {
      assert NewAt(txs, i) && txs[..n][..i] == txs[..i];
    }
  }

  lemma DistinctConcat(a: seq<Tx>, b: seq<Tx>)
    requires Distinct(a) && Distinct(b) && TxSet(a) !! TxSet(b)
    ensures Distinct(a + b)
  {
    var all := a + b;
    forall i | 0 <= i < |all| ensures NewAt(all, i) {
      if i < |a| {
        assert NewAt(a, i) && all[..i] == a[..i];
      } else {
        assert NewAt(b, i - |a|) && all[..i] == a + b[..i - |a|];
        assert b[i - |a|] in TxSet(b) && all[i] !in TxSet(a);
      }
    }
  }

  lemma DistinctSnoc(txs: seq<Tx>, tx: Tx)
    requires Distinct(txs) && tx !in txs
    ensures Distinct(txs + [tx])
  {
    assert NewAt([tx], 0);
    DistinctConcat(txs, [tx]);
  }

  /** Every transaction only spends what is unspent when its turn comes. */
  ghost predicate Spendable(utxos: set<OutPoint>, txs: seq<Tx>) {
    forall i | 0 <= i < |txs| :: SpendableAt(utxos, txs, i)
  }

  ghost predicate SpendableAt(utxos: set<OutPoint>, txs: seq<Tx>, i: nat)
    requires i < |txs|
  {
    InputsOk(txs[i], ApplyAll(utxos, txs[..i]))
  }

  /** A confirmed history: no transaction twice, and each is a setup transaction or spendable at its turn. */
  ghost predicate ValidLedger(txs: seq<Tx>) {
    && Distinct(txs)
    && (forall i | 0 <= i < |txs| :: ConfirmableAt(txs, i))
  }

  ghost predicate ConfirmableAt(txs: seq<Tx>, i: nat)
    requires i < |txs|
  {
    IsSetup(txs[i]) || InputsOk(txs[i], ApplyAll({}, txs[..i]))
  }

  ghost function AllCreated(txs: seq<Tx>): set<OutPoint> {
    if txs == [] then {} else AllCreated(txs[..|txs| - 1]) + Creates(txs[|txs| - 1])
  }

  ghost function AllSpent(txs: seq<Tx>): set<OutPoint> {
    if txs == [] then {} else AllSpent(txs[..|txs| - 1]) + Spends(txs[|txs| - 1])
  }

  lemma {:induction false} CreatedBy(txs: seq<Tx>, o: OutPoint)
    requires o in AllCreated(txs)
    ensures o.OutPoint? && o.txid in txs
  {
    if o !in Creates(txs[|txs| - 1]) {
      CreatedBy(txs[..|txs| - 1], o);
    }
  }

  lemma {:induction false} SpentBy(txs: seq<Tx>, i: nat)
    requires i < |txs|
    ensures Spends(txs[i]) <= AllSpent(txs)
    decreases |txs|
  {
    if i < |txs| - 1 {
      SpentBy(txs[..|txs| - 1], i);
    }
  }

  lemma {:induction false} CreatedMeans(txs: seq<Tx>, o: OutPoint)
    ensures o in AllCreated(txs) <==> CreatedIn(txs, o)
    decreases |txs|
  {
    if txs != [] {
      CreatedMeans(txs[..|txs| - 1], o);
    }
  }

  lemma {:induction false} SpentMeans(txs: seq<Tx>, o: OutPoint)
    ensures o in AllSpent(txs) <==> SpentIn(txs, o)
    decreases |txs|
  {
    if txs != [] {
      var n := |txs| - 1;
      SpentMeans(txs[..n], o);
      SpendsMeans(txs[n], o);
      assert forall k | 0 <= k < n :: txs[..n][k] == txs[k];
    }
  }

  lemma ValidPrefix(txs: seq<Tx>, n: nat)
    requires ValidLedger(txs) && n <= |txs|
    ensures ValidLedger(txs[..n])
  {
    DistinctPrefix(txs, n);
    forall i | 0 <= i < n ensures ConfirmableAt(txs[..n], i) {
      assert ConfirmableAt(txs, i) && txs[..n][..i] == txs[..i];
    }
  }

  /** The unspent outputs of a valid ledger are everything created minus everything spent, and it only ever spent
      what it created. */
  lemma {:induction false} UtxosAreCreatedMinusSpent(txs: seq<Tx>)
    requires ValidLedger(txs)
    ensures ApplyAll({}, txs) == AllCreated(txs) - AllSpent(txs)
    ensures AllSpent(txs) <= AllCreated(txs) + {Null}
  {
    if txs != [] {
      var n := |txs| - 1;
      var earlier, tx := txs[..n], txs[n];
      ValidPrefix(txs, n);
      UtxosAreCreatedMinusSpent(earlier);
      assert ConfirmableAt(txs, n) && NewAt(txs, n);
      assert Spends(tx) <= ApplyAll({}, earlier) + {Null};
      forall o | o in Creates(tx) ensures o !in AllCreated(earlier) {
        if o in AllCreated(earlier) {
          CreatedBy(earlier, o);
        }
      }
    }
  }

  /** So it holds exactly what was created and never spent. */
  lemma UtxosAreUnspent(txs: seq<Tx>, o: OutPoint)
    requires ValidLedger(txs)
    ensures o in ApplyAll({}, txs) <==> UnspentIn(txs, o)
  {
    UtxosAreCreatedMinusSpent(txs);
    CreatedMeans(txs, o);
    SpentMeans(txs, o);
  }

  /** No output is spent by two transactions of a valid ledger; only coinbases share the null outpoint. */
  lemma SpentOnce(txs: seq<Tx>, i: nat, j: nat)
    requires ValidLedger(txs) && i < j < |txs| && !IsCoinbase(txs[j])
    ensures Spends(txs[i]) !! Spends(txs[j])
  {
    var earlier := txs[..j];
    ValidPrefix(txs, j);
    UtxosAreCreatedMinusSpent(earlier);
    SpentBy(earlier, i);
    assert ConfirmableAt(txs, j);
    if IsSetup(txs[j]) {
      assert Spends(txs[j]) == {};
    } else {
      assert Spends(txs[j]) <= ApplyAll({}, earlier);
    }
  }

  lemma {:induction false} ApplyAllConcat(utxos: set<OutPoint>, a: seq<Tx>, b: seq<Tx>)
    ensures ApplyAll(utxos, a + b) == ApplyAll(ApplyAll(utxos, a), b)
    decreases |b|
  {
    if b == [] {
      assert a + b == a;
    } else {
      var n := |b| - 1;
      ApplyAllConcat(utxos, a, b[..n]);
      assert (a + b)[..|a| + n] == a + b[..n];
    }
  }

  lemma {:induction false} ApplyAllMonotone(u: set<OutPoint>, w: set<OutPoint>, txs: seq<Tx>)
    requires u <= w
    ensures ApplyAll(u, txs) <= ApplyAll(w, txs)
    decreases |txs|
  {
    if txs != [] {
      ApplyAllMonotone(u, w, txs[..|txs| - 1]);
    }
  }

  lemma SpendableMonotone(u: set<OutPoint>, w: set<OutPoint>, txs: seq<Tx>)
    requires u <= w && Spendable(u, txs)
    ensures Spendable(w, txs)
  {
    forall i | 0 <= i < |txs| ensures SpendableAt(w, txs, i) {
      assert SpendableAt(u, txs, i);
      ApplyAllMonotone(u, w, txs[..i]);
    }
  }

  lemma SpendablePrefix(utxos: set<OutPoint>, txs: seq<Tx>, n: nat)
    requires Spendable(utxos, txs) && n <= |txs|
    ensures Spendable(utxos, txs[..n])
  {
    forall i | 0 <= i < n ensures SpendableAt(utxos, txs[..n], i) {
      assert SpendableAt(utxos, txs, i) && txs[..n][..i] == txs[..i];
    }
  }

  lemma SpendableAtSnoc(utxos: set<OutPoint>, txs: seq<Tx>, tx: Tx, i: nat)
    requires i < |txs| && SpendableAt(utxos, txs, i)
    ensures SpendableAt(utxos, txs + [tx], i)
  {
    assert (txs + [tx])[..i] == txs[..i] && (txs + [tx])[i] == txs[i];
  }

  lemma SpendableLast(utxos: set<OutPoint>, txs: seq<Tx>, tx: Tx)
    requires InputsOk(tx, ApplyAll(utxos, txs))
    ensures SpendableAt(utxos, txs + [tx], |txs|)
    ensures ApplyAll(utxos, txs + [tx]) == Apply(ApplyAll(utxos, txs), tx)
  {
    assert (txs + [tx])[..|txs|] == txs;
  }

  lemma SpendableSnoc(utxos: set<OutPoint>, txs: seq<Tx>, tx: Tx)
    requires Spendable(utxos, txs) && InputsOk(tx, ApplyAll(utxos, txs))
    ensures Spendable(utxos, txs + [tx])
    ensures ApplyAll(utxos, txs + [tx]) == Apply(ApplyAll(utxos, txs), tx)
  {
    SpendableLast(utxos, txs, tx);
    forall i | 0 <= i < |txs| ensures SpendableAt(utxos, txs + [tx], i) {
      SpendableAtSnoc(utxos, txs, tx, i);
    }
  }

  lemma ConfirmAll(ledger: seq<Tx>, pending: seq<Tx>)
    requires ValidLedger(ledger) && Distinct(ledger + pending) && Spendable(ApplyAll({}, ledger), pending)
    ensures ValidLedger(ledger + pending)
  {
    var all := ledger + pending;
    forall i | 0 <= i < |all| ensures ConfirmableAt(all, i) {
      if i < |ledger| {
        assert ConfirmableAt(ledger, i) && all[..i] == ledger[..i];
      } else {
        var k := i - |ledger|;
        assert all[..i] == ledger + pending[..k];
        ApplyAllConcat({}, ledger, pending[..k]);
        assert SpendableAt(ApplyAll({}, ledger), pending, k);
      }
    }
  }
}
