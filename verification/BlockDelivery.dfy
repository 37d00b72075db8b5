/** Handing a range of blocks to a listener while skipping the empty ones. */
module BlockDelivery {

  type Tx = nat

  /** A block's transactions, each with its position; position 0 is the coinbase's. */
  type TxData = seq<(nat, Tx)>

  datatype Call = TransactionsConfirmed(txs: TxData, height: nat) | BestBlockUpdated(height: nat)

  function Numbered(block: seq<Tx>): (r: TxData)
    ensures |r| == |block|
  {
    seq(|block|, i requires 0 <= i < |block| => (i + 1, block[i]))
  }

  function Connect(block: seq<Tx>, height: nat): seq<Call> {
    [TransactionsConfirmed(Numbered(block), height), BestBlockUpdated(height)]
  }

  /** Every block in turn, empty or not. */
  function Naive(blocks: seq<seq<Tx>>, start: nat, end: nat): seq<Call>
    requires start <= end < |blocks|
    decreases end - start
  {
    if start == end then [] else Naive(blocks, start, end - 1) + Connect(blocks[end], end)
  }

  /** Only the blocks that have transactions. */
  function NonEmpty(blocks: seq<seq<Tx>>, start: nat, end: nat): seq<Call>
    requires start <= end < |blocks|
    decreases end - start
  {
    if start == end then []
    else NonEmpty(blocks, start, end - 1) + if blocks[end] == [] then [] else Connect(blocks[end], end)
  }

  /** Those, and one best-block update for trailing empty blocks. */
  function Skipping(blocks: seq<seq<Tx>>, start: nat, end: nat): seq<Call>
    requires start <= end < |blocks|
  {
    NonEmpty(blocks, start, end) + if start < end && blocks[end] == [] then [BestBlockUpdated(end)] else []
  }

  lemma {:induction false} NonEmptySkips(blocks: seq<seq<Tx>>, start: nat, mid: nat, end: nat)
    requires start <= mid <= end < |blocks|
    requires forall h | mid < h <= end :: blocks[h] == []
    ensures NonEmpty(blocks, start, end) == NonEmpty(blocks, start, mid)
    decreases end - mid
  {
    if mid < end {
      NonEmptySkips(blocks, start, mid, end - 1);
    }
  }

  /** Connects a range to the manager and, if asked, to the monitors in step with it. */
  method ConnectChainRange(blocks: seq<seq<Tx>>, start: nat, target: nat, syncMonitors: bool)
    returns (manager: seq<Call>, monitors: seq<Call>)
    requires start <= target < |blocks|
    ensures manager == Skipping(blocks, start, target)
    ensures monitors == if syncMonitors then manager else []
  {
    manager, monitors := [], [];
    var height := start;
    while height < target
      invariant start <= height <= target
      invariant manager == NonEmpty(blocks, start, height)
      invariant start < height ==> blocks[height] != []
      invariant monitors == if syncMonitors then manager else []
    {
      var next := NextWithTransactions(blocks, height, target);
      NonEmptySkips(blocks, start, height, next - 1);
      if next > target {
        height := target;
        if syncMonitors {
          monitors := monitors + [BestBlockUpdated(height)];
        }
        manager := manager + [BestBlockUpdated(height)];
        return;
      }
      height := next;
      var txdata := Numbered(blocks[height]);
      TwoCalls(manager, TransactionsConfirmed(txdata, height), BestBlockUpdated(height));
      if syncMonitors {
        monitors := monitors + [TransactionsConfirmed(txdata, height)];
      }
      manager := manager + [TransactionsConfirmed(txdata, height)];
      if syncMonitors {
        monitors := monitors + [BestBlockUpdated(height)];
      }
      manager := manager + [BestBlockUpdated(height)];
    }
    assert manager + [] == manager;
  }

  lemma TwoCalls(calls: seq<Call>, a: Call, b: Call)
    ensures calls + [a] + [b] == calls + [a, b]
  {
  }

  /** The first height above `height` whose block has transactions, or one past `target`. */
  method NextWithTransactions(blocks: seq<seq<Tx>>, height: nat, target: nat) returns (next: nat)
    requires height < target < |blocks|
    ensures height < next <= target + 1
    ensures forall h | height < h < next :: blocks[h] == []
    ensures next <= target ==> blocks[next] != []
  {
    next := height + 1;
    while next <= target && blocks[next] == []
      invariant height < next <= target + 1
      invariant forall h | height < h < next :: blocks[h] == []
    {
      next := next + 1;
    }
  }

  /** Brings one reloaded monitor to the tip; makes the same calls as the live path. */
  method SyncMonitorToTip(blocks: seq<seq<Tx>>, start: nat) returns (calls: seq<Call>)
    requires blocks != []
    ensures calls == if start < |blocks| then Skipping(blocks, start, |blocks| - 1) else []
  {
    var target := |blocks| - 1;
    calls := [];
    if start >= target {
      return;
    }
    var height := start + 1;
    while height <= target
      invariant start < height <= target + 1
      invariant calls == NonEmpty(blocks, start, height - 1)
    {
      if blocks[height] != [] {
        var txdata := Numbered(blocks[height]);
        TwoCalls(calls, TransactionsConfirmed(txdata, height), BestBlockUpdated(height));
        calls := calls + [TransactionsConfirmed(txdata, height)];
        calls := calls + [BestBlockUpdated(height)];
      }
      height := height + 1;
    }
    if blocks[target] == [] {
      calls := calls + [BestBlockUpdated(target)];
    } else {
      assert calls + [] == calls;
    }
  }

  /** A listener: how its state answers the two calls. */
  datatype Listener<!S> = Listener(confirmed: (S, TxData, nat) -> S, best: (S, nat) -> S)

  function Feed<S>(l: Listener<S>, s: S, calls: seq<Call>): S {
    if calls == [] then s else
    var before := Feed(l, s, calls[..|calls| - 1]);
    match calls[|calls| - 1]
    case TransactionsConfirmed(txs, height) => l.confirmed(before, txs, height)
    case BestBlockUpdated(height) => l.best(before, height)
  }

  /** A best-block update supersedes an earlier one, also across a confirmation, and confirming nothing does nothing. */
  ghost predicate Absorbs<S>(l: Listener<S>, s: S, txs: TxData, h: nat, k: nat) {
    && l.confirmed(s, [], h) == s
    && (h <= k ==> l.best(l.best(s, h), k) == l.best(s, k))
    && (h <= k ==> l.best(l.confirmed(l.best(s, h), txs, k), k) == l.best(l.confirmed(s, txs, k), k))
  }

  /** What makes a listener indifferent to skipped best-block updates. */
  ghost predicate Skippable<S(!new)>(l: Listener<S>) {
    forall s, txs, h: nat, k: nat :: Absorbs(l, s, txs, h, k)
  }

  lemma FeedConnect<S>(l: Listener<S>, s: S, calls: seq<Call>, block: seq<Tx>, h: nat)
    ensures Feed(l, s, calls + Connect(block, h)) == l.best(l.confirmed(Feed(l, s, calls), Numbered(block), h), h)
  {
    var all := calls + Connect(block, h);
    assert all[..|all| - 1] == calls + [TransactionsConfirmed(Numbered(block), h)];
    assert all[..|all| - 1][..|calls|] == calls;
  }

  lemma {:induction false} NonEmptyUpToBest<S(!new)>(l: Listener<S>, s: S, blocks: seq<seq<Tx>>, start: nat, end: nat)
    requires Skippable(l) && start <= end < |blocks|
    ensures start < end ==>
              Feed(l, s, Naive(blocks, start, end)) == l.best(Feed(l, s, NonEmpty(blocks, start, end)), end)
    ensures start == end || blocks[end] != [] ==>
              Feed(l, s, Naive(blocks, start, end)) == Feed(l, s, NonEmpty(blocks, start, end))
    decreases end - start
  {
    if start < end {
      var all, some, txs := Naive(blocks, start, end - 1), NonEmpty(blocks, start, end - 1), Numbered(blocks[end]);
      NonEmptyUpToBest(l, s, blocks, start, end - 1);
      FeedConnect(l, s, all, blocks[end], end);
      assert Absorbs(l, Feed(l, s, some), txs, end - 1, end);
      if blocks[end] == [] {
        assert txs == [] && NonEmpty(blocks, start, end) == some;
        assert Absorbs(l, Feed(l, s, all), txs, end, end);
      } else {
        FeedConnect(l, s, some, blocks[end], end);
        assert Absorbs(l, l.confirmed(Feed(l, s, some), txs, end), [], end, end);
      }
    }
  }

  /** Skipping empty blocks leaves every such listener exactly as the block-by-block loop does. */
  lemma SkippingRefinesNaive<S(!new)>(l: Listener<S>, s: S, blocks: seq<seq<Tx>>, start: nat, end: nat)
    requires Skippable(l) && start <= end < |blocks|
    ensures Feed(l, s, Skipping(blocks, start, end)) == Feed(l, s, Naive(blocks, start, end))
  {
    NonEmptyUpToBest(l, s, blocks, start, end);
    var calls := NonEmpty(blocks, start, end);
    if start < end && blocks[end] == [] {
      assert (calls + [BestBlockUpdated(end)])[..|calls|] == calls;
    } else {
      assert calls + [] == calls;
    }
  }

  /** A listener that records what was confirmed where and the best height. */
  datatype Record = Record(confirmed: set<(nat, Tx, nat)>, bestHeight: nat)

  function At(txs: TxData, height: nat): set<(nat, Tx, nat)> {
    set i | 0 <= i < |txs| :: (txs[i].0, txs[i].1, height)
  }

  const RECORDER: Listener<Record> :=
    Listener(
      (s: Record, txs: TxData, h: nat) => s.(confirmed := s.confirmed + At(txs, h)),
      (s: Record, h: nat) => s.(bestHeight := h))

  /** Everything confirmed in the range. */
  ghost function ConfirmedIn(blocks: seq<seq<Tx>>, start: nat, end: nat): set<(nat, Tx, nat)>
    requires start <= end < |blocks|
    decreases end - start
  {
    if start == end then {} else ConfirmedIn(blocks, start, end - 1) + At(Numbered(blocks[end]), end)
  }

  /** That is every transaction of the range, at its own height and at its place in the block, behind the coinbase. */
  lemma {:induction false} ConfirmedMeans(blocks: seq<seq<Tx>>, start: nat, end: nat, pos: nat, tx: Tx, h: nat)
    requires start <= end < |blocks|
    ensures (pos, tx, h) in ConfirmedIn(blocks, start, end) <==>
            start < h <= end && 1 <= pos <= |blocks[h]| && blocks[h][pos - 1] == tx
    decreases end - start
  {
    if start < end {
      ConfirmedMeans(blocks, start, end - 1, pos, tx, h);
      var txs := Numbered(blocks[end]);
      if h == end && 1 <= pos <= |blocks[h]| && blocks[h][pos - 1] == tx {
        assert txs[pos - 1] == (pos, tx);
      }
    }
  }

  lemma {:induction false} NaiveRecords(s: Record, blocks: seq<seq<Tx>>, start: nat, end: nat)
    requires start <= end < |blocks|
    ensures Feed(RECORDER, s, Naive(blocks, start, end))
            == Record(s.confirmed + ConfirmedIn(blocks, start, end), if start < end then end else s.bestHeight)
    decreases end - start
  {
    if start < end {
      NaiveRecords(s, blocks, start, end - 1);
      FeedConnect(RECORDER, s, Naive(blocks, start, end - 1), blocks[end], end);
    }
  }

  /** The skipping loop confirms every transaction of the range at its height and ends at the target. */
  lemma SkippingRecords(s: Record, blocks: seq<seq<Tx>>, start: nat, end: nat)
    requires start <= end < |blocks|
    ensures Feed(RECORDER, s, Skipping(blocks, start, end))
            == Record(s.confirmed + ConfirmedIn(blocks, start, end), if start < end then end else s.bestHeight)
  {
    forall s: Record, txs, h: nat, k: nat ensures Absorbs(RECORDER, s, txs, h, k) {
      assert At([], h) == {};
    }
    SkippingRefinesNaive(RECORDER, s, blocks, start, end);
    NaiveRecords(s, blocks, start, end);
  }
}
