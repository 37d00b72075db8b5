/** Splitting a payment over several channels and turning the parts into routes. */
module MppSplit {
  import opened Wrappers

  const FIRST_HOP_FEE: nat := 50_000
  const U64_MAX: nat := 0xFFFF_FFFF_FFFF_FFFF

  datatype Channel = Channel(id: nat, scid: nat)

  datatype PaymentHop = PaymentHop(channel: nat, amount: nat, scid: nat)

  type PaymentPath = seq<PaymentHop>

  lemma FloorTimes(total: nat, n: nat)
    requires 0 < n
    ensures (total / n) * n <= total
  {
  }

  lemma OneLess(q: nat, n: nat)
    requires 0 < n
    ensures 0 <= q * (n - 1) == q * n - q
  {
  }

  /** The `i`-th of `n` parts of `total`: equal floors, with the remainder on the last. Never negative. */
  function Share(total: nat, n: nat, i: nat): (r: nat)
    requires i < n
    ensures total / n <= r <= total
    ensures i < n - 1 ==> r * n <= total < (r + 1) * n
  {
    var q := total / n;
    FloorTimes(total, n);
    OneLess(q, n);
    if i == n - 1 then total - q * (n - 1) else q
  }

  function Sum(s: seq<nat>): nat {
    if s == [] then 0 else Sum(s[..|s| - 1]) + s[|s| - 1]
  }

  function Shares(total: nat, n: nat, k: nat): (r: seq<nat>)
    requires k <= n
    ensures |r| == k
  {
    if k == 0 then [] else Shares(total, n, k - 1) + [Share(total, n, k - 1)]
  }

  lemma {:induction false} SharesBelowLast(total: nat, n: nat, k: nat)
    requires k < n
    ensures Sum(Shares(total, n, k)) == (total / n) * k
    decreases k
  {
    if k > 0 {
      SharesBelowLast(total, n, k - 1);
      assert Shares(total, n, k)[..k - 1] == Shares(total, n, k - 1);
      OneLess(total / n, k);
    }
  }

  /** No part underflows and together they are the total. */
  lemma SharesSum(total: nat, n: nat)
    requires 0 < n
    ensures Sum(Shares(total, n, n)) == total
  {
    SharesBelowLast(total, n, n - 1);
    assert Shares(total, n, n)[..n - 1] == Shares(total, n, n - 1);
  }

  lemma {:induction false} SharesAt(total: nat, n: nat, k: nat, i: nat)
    requires i < k <= n
    ensures Shares(total, n, k)[i] == Share(total, n, i)
    decreases k
  {
    if i < k - 1 {
      SharesAt(total, n, k - 1, i);
    }
  }

  /** One single-hop path per channel. */
  function DirectPaths(dest: seq<Channel>, amount: nat): (r: seq<PaymentPath>)
    ensures |r| == |dest|
  {
    seq(|dest|, i requires 0 <= i < |dest| =>
      [PaymentHop(dest[i].id, Share(amount, |dest|, i), dest[i].scid)])
  }

  function Max(a: nat, b: nat): (r: nat)
    ensures a <= r && b <= r && (r == a || r == b)
  {
    if a >= b then a else b
  }

  function Cycle(channels: seq<Channel>, i: nat): Channel
    requires channels != []
  {
    channels[i % |channels|]
  }

  /** One two-hop path per channel of the longer list, cycling through the shorter one. The first hop carries its
      share of the fee on top. */
  function HopPaths(middle: seq<Channel>, dest: seq<Channel>, amount: nat): (r: seq<PaymentPath>)
    requires middle != [] && dest != []
    ensures |r| == Max(|middle|, |dest|)
  {
    var n := Max(|middle|, |dest|);
    seq(n, i requires 0 <= i < n =>
      var m, d := Cycle(middle, i), Cycle(dest, i);
      [PaymentHop(m.id, Share(amount, n, i) + Share(FIRST_HOP_FEE, n, i), m.scid),
       PaymentHop(d.id, Share(amount, n, i), d.scid)])
  }

  predicate NonEmptyPaths(paths: seq<PaymentPath>) {
    forall i | 0 <= i < |paths| :: paths[i] != []
  }

  function FirstAmounts(paths: seq<PaymentPath>): (r: seq<nat>)
    requires NonEmptyPaths(paths)
    ensures |r| == |paths|
  {
    seq(|paths|, i requires 0 <= i < |paths| => paths[i][0].amount)
  }

  function LastAmounts(paths: seq<PaymentPath>): (r: seq<nat>)
    requires NonEmptyPaths(paths)
    ensures |r| == |paths|
  {
    seq(|paths|, i requires 0 <= i < |paths| => paths[i][|paths[i]| - 1].amount)
  }

  /** Each channel carries its own part of a direct payment. */
  lemma DirectPathsUseAll(dest: seq<Channel>, amount: nat, i: nat)
    requires i < |dest|
    ensures DirectPaths(dest, amount)[i] == [PaymentHop(dest[i].id, Share(amount, |dest|, i), dest[i].scid)]
  {
  }

  /** The hop runs over this channel, named by its id and its scid alike. */
  predicate Over(hop: PaymentHop, channel: Channel) {
    hop.channel == channel.id && hop.scid == channel.scid
  }

  lemma CycleOnce(channels: seq<Channel>, i: nat)
    requires i < |channels|
    ensures Cycle(channels, i) == channels[i]
  {
  }

  /** The first hop of path `i` runs over the `i`-th channel of the middle node and the second over the recipient's, so
      every channel of both lists is used; the shorter list is cycled. The first hop carries its share of the fee. */
  lemma HopPathUses(middle: seq<Channel>, dest: seq<Channel>, amount: nat, i: nat)
    requires middle != [] && dest != [] && i < Max(|middle|, |dest|)
    ensures var path := HopPaths(middle, dest, amount)[i];
            && |path| == 2
            && Over(path[0], middle[if i < |middle| then i else i % |middle|])
            && Over(path[1], dest[if i < |dest| then i else i % |dest|])
            && path[0].amount - path[1].amount == Share(FIRST_HOP_FEE, Max(|middle|, |dest|), i)
  {
    if i < |middle| {
      CycleOnce(middle, i);
    }
    if i < |dest| {
      CycleOnce(dest, i);
    }
  }

  /** What the recipient gets over all parts of a direct payment is the amount sent. */
  lemma DirectPathsDeliver(dest: seq<Channel>, amount: nat)
    requires dest != []
    ensures NonEmptyPaths(DirectPaths(dest, amount))
    ensures Sum(LastAmounts(DirectPaths(dest, amount))) == amount
  {
    var n := |dest|;
    var amounts := LastAmounts(DirectPaths(dest, amount));
    forall i | 0 <= i < n ensures amounts[i] == Shares(amount, n, n)[i] {
      SharesAt(amount, n, n, i);
    }
    assert amounts == Shares(amount, n, n);
    SharesSum(amount, n);
  }

  lemma {:induction false} SumOfSums(a: seq<nat>, b: seq<nat>, c: seq<nat>)
    requires |a| == |b| == |c| && forall i | 0 <= i < |a| :: c[i] == a[i] + b[i]
    ensures Sum(c) == Sum(a) + Sum(b)
    decreases |a|
  {
    if a != [] {
      var n := |a| - 1;
      SumOfSums(a[..n], b[..n], c[..n]);
    }
  }

  /** The recipient gets the amount, and the first hops carry the amount plus exactly the fee. */
  lemma HopPathsDeliver(middle: seq<Channel>, dest: seq<Channel>, amount: nat)
    requires middle != [] && dest != []
    ensures NonEmptyPaths(HopPaths(middle, dest, amount))
    ensures Sum(LastAmounts(HopPaths(middle, dest, amount))) == amount
    ensures Sum(FirstAmounts(HopPaths(middle, dest, amount))) == amount + FIRST_HOP_FEE
  {
    var n := Max(|middle|, |dest|);
    var paths := HopPaths(middle, dest, amount);
    var amounts, fees := Shares(amount, n, n), Shares(FIRST_HOP_FEE, n, n);
    forall i | 0 <= i < n
      ensures LastAmounts(paths)[i] == amounts[i] && FirstAmounts(paths)[i] == amounts[i] + fees[i]
    {
      SharesAt(amount, n, n, i);
      SharesAt(FIRST_HOP_FEE, n, n, i);
    }
    assert LastAmounts(paths) == amounts;
    SumOfSums(amounts, fees, FirstAmounts(paths));
    SharesSum(amount, n);
    SharesSum(FIRST_HOP_FEE, n);
  }

  /** The fee each hop keeps, the last one keeping the whole amount; `None` where the harness would panic because
      amounts increase toward the recipient. */
  function HopFees(path: PaymentPath): Option<seq<nat>> {
    if path == [] then Some([])
    else if |path| == 1 then Some([path[0].amount])
    else if path[0].amount < path[1].amount then None
    else match HopFees(path[1..])
      case None => None
      case Some(fees) => Some([path[0].amount - path[1].amount] + fees)
  }

  ghost predicate NonIncreasing(path: PaymentPath) {
    forall i | 0 <= i < |path| - 1 :: StepsDown(path, i)
  }

  predicate StepsDown(path: PaymentPath, i: nat)
    requires i + 1 < |path|
  {
    path[i].amount >= path[i + 1].amount
  }

  lemma NonIncreasingTail(path: PaymentPath)
    requires |path| > 1
    ensures NonIncreasing(path) <==> path[0].amount >= path[1].amount && NonIncreasing(path[1..])
  {
    if NonIncreasing(path) {
      assert StepsDown(path, 0);
      forall i | 0 <= i < |path| - 2 ensures StepsDown(path[1..], i) {
        assert StepsDown(path, i + 1);
      }
    }
    if path[0].amount >= path[1].amount && NonIncreasing(path[1..]) {
      forall i | 0 <= i < |path| - 1 ensures StepsDown(path, i) {
        assert i > 0 ==> StepsDown(path[1..], i - 1);
      }
    }
  }

  lemma {:induction false} SumCons(x: nat, s: seq<nat>)
    ensures Sum([x] + s) == x + Sum(s)
    decreases |s|
  {
    if s == [] {
      assert ([x] + s)[..0] == [];
    } else {
      var n := |s| - 1;
      SumCons(x, s[..n]);
      assert ([x] + s)[..|s|] == [x] + s[..n];
    }
  }

  /** A route can be built exactly if amounts never increase toward the recipient; its fees then add up to what enters
      the first hop. */
  lemma {:induction false} FeesTelescope(path: PaymentPath)
    requires path != []
    ensures HopFees(path).Some? <==> NonIncreasing(path)
    ensures HopFees(path).Some? ==> |HopFees(path).value| == |path| && Sum(HopFees(path).value) == path[0].amount
    decreases |path|
  {
    if |path| == 1 {
      assert [path[0].amount][..0] == [];
    } else {
      FeesTelescope(path[1..]);
      NonIncreasingTail(path);
      if HopFees(path).Some? {
        SumCons(path[0].amount - path[1].amount, HopFees(path[1..]).value);
      }
    }
  }

  /** Each hop but the last keeps the difference to the next one's amount, the last one keeps its whole amount. */
  lemma {:induction false} FeeAt(path: PaymentPath, i: nat)
    requires i < |path| && HopFees(path).Some?
    ensures |HopFees(path).value| == |path|
    ensures HopFees(path).value[i] == path[i].amount - if i + 1 < |path| then path[i + 1].amount else 0
    decreases |path|
  {
    if |path| > 1 {
      FeeAt(path[1..], if i > 0 then i - 1 else 0);
    }
  }

  /** The two-hop sender only builds paths a route can be made of, within 64 bits if the amount leaves room for the
      fee. */
  lemma PathsAreRoutable(middle: seq<Channel>, dest: seq<Channel>, amount: nat, i: nat)
    requires middle != [] && dest != [] && i < Max(|middle|, |dest|) && amount + FIRST_HOP_FEE <= U64_MAX
    ensures HopFees(HopPaths(middle, dest, amount)[i]).Some?
    ensures HopPaths(middle, dest, amount)[i][0].amount <= U64_MAX
  {
    var n := Max(|middle|, |dest|);
    var path := HopPaths(middle, dest, amount)[i];
    assert path[0].amount == Share(amount, n, i) + Share(FIRST_HOP_FEE, n, i);
    FeesTelescope(HopPaths(middle, dest, amount)[i]);
  }
}
