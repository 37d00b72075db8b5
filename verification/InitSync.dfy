/** Bringing many listeners to the best tip at startup, over one shared path fetched in batches. */
module InitSync {
  import opened BlockTree
  import opened SpvClient
  import opened Wrappers

  const MAX_BLOCKS_AT_ONCE: nat := 6 * 6

  function Max(a: nat, b: nat): (r: nat)
    ensures a <= r && b <= r && (r == a || r == b)
  {
    if a >= b then a else b
  }

  /** Every block of `c` whose parent has one of these hashes claims the height that follows its parent's. */
  ghost predicate LinksRight(c: seq<Header>, named: set<Hash>) {
    forall a {:trigger HeightFollows(c, a)} | 0 < a < |c| && c[a].prev in named :: HeightFollows(c, a)
  }

  /** From position `k` up, claimed heights go up by one from block to block. */
  ghost predicate Rises(c: seq<Header>, k: nat) {
    forall a {:trigger HeightFollows(c, a)} | k <= a < |c| :: HeightFollows(c, a)
  }

  /** Links that were not cached were checked, so right links onto what may be cached are enough. */
  lemma CheckedRises(c: seq<Header>, k: nat, cached: Tree, mainnet: bool, named: set<Hash>)
    requires 0 < k && Checked(c, k, cached, mainnet) && cached.Keys <= named && LinksRight(c, named)
    ensures Rises(c, k)
  {
    forall a | k <= a < |c| ensures HeightFollows(c, a) {
      assert c[a].prev !in cached ==> LinkHolds(c, a, mainnet);
    }
  }

  lemma {:induction false} RisenTo(c: seq<Header>, k: nat, a: nat)
    requires 0 < k <= a + 1 <= |c| && Rises(c, k)
    ensures c[a].height == c[k - 1].height + a - (k - 1)
    decreases a
  {
    if k <= a {
      RisenTo(c, k, a - 1);
      assert HeightFollows(c, a);
    }
  }

  lemma RisesClaims(c: seq<Header>, k: nat, m: nat)
    requires 0 < k <= m <= |c| && Rises(c, k)
    ensures ClaimsAbove(c, m)
  {
    RisenTo(c, k, m - 1);
    forall a | m <= a < |c| ensures c[a].height > c[m - 1].height {
      RisenTo(c, k, a);
    }
  }

  /** A source that is honest about heights has all links right. */
  lemma HonestIsEnough(t: Tree, tip: Header, named: set<Hash>)
    requires WellFormed(t) && HonestHeights(t) && In(t, tip)
    ensures LinksRight(Chain(t, tip), named)
  {
    HonestIsConsecutive(t, tip);
  }

  /** All hashes that the listeners' locators name. */
  ghost function AllNamed(locators: seq<BlockLocator>): set<Hash> {
    set x, h | 0 <= x < |locators| && h in NamedBy(locators[x]) :: h
  }

  type Fetched = Option<(nat, BlockData)>

  method ValidateBestBlockHeader(poller: ChainPoller) returns (r: Result<Header>)
    requires WellFormed(poller.tree)
    ensures r.Ok? ==> In(poller.tree, r.value) && poller.bestBlock == Some(r.value.hash)
    ensures poller.bestBlock.Some?
            && poller.bestBlock.value in poller.tree && poller.bestBlock.value in poller.reliable ==>
              r.Ok?
  {
    match poller.bestBlock {
      case None => return Err;
      case Some(hash) => r := poller.GetHeader(hash);
    }
  }

  /** Fetches the block at position `a` of the chain and remembers its header. */
  method FetchAt(poller: ChainPoller, cache: HeaderCache, header: Header, ghost tip: Header, ghost a: nat)
    returns (r: Fetched)
    requires WellFormed(poller.tree) && In(poller.tree, tip) && CacheOf(cache.headers, poller.tree)
    requires a < |Chain(poller.tree, tip)| && header == Chain(poller.tree, tip)[a]
    modifies cache`headers
    ensures CacheOf(cache.headers, poller.tree)
    ensures r.Some? ==> IsBlock(r, header)
    ensures header.hash in poller.reliable - poller.missing ==> r.Some?
  {
    ChainMember(poller.tree, tip, a);
    CacheOfInsert(cache.headers, poller.tree, header);
    var block := poller.FetchBlock(header);
    if block.Err? {
      return None;
    }
    cache.BlockConnected(header.hash, header);
    return Some((header.height, block.value));
  }

  /** Fetches the next batch: up to `MAX_BLOCKS_AT_ONCE` blocks from the low end of the remaining path, ascending.
      One failure fails the batch. */
  method FetchBatch(poller: ChainPoller, cache: HeaderCache, remaining: seq<Header>, ghost tip: Header)
    returns (ok: bool, fetched: array<Fetched>)
    requires WellFormed(poller.tree) && In(poller.tree, tip) && CacheOf(cache.headers, poller.tree)
    requires |remaining| <= |Chain(poller.tree, tip)|
    requires remaining == Descending(Chain(poller.tree, tip), |Chain(poller.tree, tip)| - |remaining|)
    modifies cache`headers
    ensures CacheOf(cache.headers, poller.tree)
    ensures fresh(fetched) && fetched.Length == MAX_BLOCKS_AT_ONCE
    ensures ok ==> IsBatch(fetched[..], Chain(poller.tree, tip), |Chain(poller.tree, tip)| - |remaining|)
    ensures Fetchable(remaining, poller.reliable - poller.missing) ==> ok
  {
    ghost var c := Chain(poller.tree, tip);
    var n := if |remaining| < MAX_BLOCKS_AT_ONCE then |remaining| else MAX_BLOCKS_AT_ONCE;
    fetched := new Fetched[MAX_BLOCKS_AT_ONCE](_ => None);
    ghost var p := |c| - |remaining|;
    var i := 0;
    while i < n
      invariant 0 <= i <= n
      invariant CacheOf(cache.headers, poller.tree)
      invariant forall y | 0 <= y < i :: IsBlock(fetched[y], c[p + y])
      invariant forall y | i <= y < MAX_BLOCKS_AT_ONCE :: fetched[y].None?
    {
      DescendingAt(c, p, |remaining| - 1 - i);
      var header := remaining[|remaining| - 1 - i];
      var block := FetchAt(poller, cache, header, tip, p + i);
      if block.None? {
        return false, fetched;
      }
      fetched[i] := block;
      i := i + 1;
    }
    ok := true;
  }

  lemma CacheOfInsert(headers: Tree, t: Tree, h: Header)
    requires CacheOf(headers, t) && In(t, h)
    ensures CacheOf(KeepAbove(headers[h.hash := h], Cutoff(h.height)), t)
  {
  }

  ghost predicate IsBlock(f: Fetched, h: Header) {
    f.Some? && f.value.0 == h.height && f.value.1.header == h
  }

  /** The batch holds the blocks of `c` from position `p` on, as many as fit, and nothing after them. */
  ghost predicate IsBatch(fetched: seq<Fetched>, c: seq<Header>, p: nat) {
    forall y | 0 <= y < |fetched| :: if p + y < |c| then IsBlock(fetched[y], c[p + y]) else fetched[y].None?
  }

  lemma {:induction false} DescendingTake<T>(s: seq<T>, k: nat, l: nat)
    requires k <= l <= |s|
    ensures Descending(s, k)[..|s| - l] == Descending(s, l)
    decreases l - k
  {
    if k < l {
      DescendingTake(s, k + 1, l);
    }
  }

  /** Gives a listener that is `k` blocks up the chain, or as far as earlier batches went, the part of the batch it
      lacks. Heights tell the blocks apart, for they rise from below on. */
  method NotifyBatch(
    listener: Listener, listenerHeight: nat, fetched: array<Fetched>,
    ghost t: Tree, ghost tip: Header, ghost k: nat, ghost p: nat, ghost start: View, ghost lowest: nat)
    requires WellFormed(t) && In(t, tip)
    requires 0 < k <= |Chain(t, tip)| && listenerHeight == Chain(t, tip)[k - 1].height
    requires 0 < lowest <= k && lowest <= p && Rises(Chain(t, tip), lowest)
    requires IsBatch(fetched[..], Chain(t, tip), p) && fetched.Length == MAX_BLOCKS_AT_ONCE
    requires Placed(ViewOf(listener), start, Chain(t, tip), k, p)
    modifies listener
    ensures Placed(ViewOf(listener), start, Chain(t, tip), k, Upper(p, |Chain(t, tip)|))
  {
    ghost var c := Chain(t, tip);
    var i := 0;
    while i < fetched.Length
      invariant 0 <= i <= fetched.Length
      invariant listener.blocks == c[..Max(k, if p + i <= |c| then p + i else |c|)]
      invariant listener.notifications == old(listener.notifications) + |listener.blocks| - |old(listener.blocks)|
    {
      match fetched[i] {
        case None =>
          assert fetched[..][i].None?;
        case Some((height, block)) =>
          assert IsBlock(fetched[..][i], c[p + i]);
          RisenTo(c, lowest, p + i);
          RisenTo(c, lowest, k - 1);
          if height > listenerHeight {
            NextBlock(t, tip, listener.blocks, block.header);
            listener.Connect(block, height);
            assert c[..p + i] + [c[p + i]] == c[..p + i + 1];
          }
      }
      i := i + 1;
    }
  }

  /** Where a batch starting at `p` ends. */
  function Upper(p: nat, n: nat): nat {
    if p + MAX_BLOCKS_AT_ONCE <= n then p + MAX_BLOCKS_AT_ONCE else n
  }

  /** A listener that started on `start` with `before` notifications has heard of its disconnect, if any, down to its
      fork point `fork` blocks up the best chain `c`, and then of the blocks of `c` up to `level`, once each. */
  ghost predicate Placed(now: View, start: View, c: seq<Header>, fork: nat, level: nat) {
    && 0 < fork <= |c| && level <= |c| && fork <= |start.blocks| && start.blocks[..fork] == c[..fork]
    && now.blocks == c[..Max(fork, level)]
    && now.notifications == start.notifications + (if fork < |start.blocks| then 1 else 0) + Max(fork, level) - fork
  }

  /** What a listener has been told. */
  datatype View = View(blocks: seq<Header>, notifications: nat)

  ghost predicate Views(listeners: seq<Listener>, views: seq<View>)
    reads listeners
  {
    && |views| == |listeners|
    && (forall x | 0 <= x < |listeners| :: ViewOf(listeners[x]) == views[x])
  }

  ghost function ViewOf(l: Listener): View
    reads l
  {
    View(l.blocks, l.notifications)
  }

  /** What the listeners start from. */
  ghost predicate Starts(start: seq<View>, locators: seq<BlockLocator>, from: seq<Header>, t: Tree) {
    && WellFormed(t)
    && |start| == |locators| == |from|
    && (forall x | 0 <= x < |from| :: StartsAt(start[x], locators[x], from[x], t))
  }

  ghost predicate StartsAt(start: View, locator: BlockLocator, from: Header, t: Tree)
    requires WellFormed(t)
  {
    In(t, from) && LocatorFor(locator, from, t) && start.blocks == Chain(t, from)
  }

  ghost predicate Distinct(listeners: seq<Listener>) {
    forall x, y | 0 <= x < y < |listeners| :: listeners[x] != listeners[y]
  }

  /** Nothing of `c` above its first `fork` blocks is in `start`. */
  ghost predicate Parts(start: seq<Header>, c: seq<Header>, fork: nat) {
    forall a | fork <= a < |c| :: c[a] !in start
  }

  /** Finds one listener's fork point. */
  method LocateFork(
    notifier: ChainNotifier, locator: BlockLocator, tip: Header, poller: ChainPoller, ghost from: Header,
    ghost named: set<Hash>)
    returns (r: Result<Difference>, ghost fork: nat)
    requires WellFormed(poller.tree) && In(poller.tree, tip) && In(poller.tree, from)
    requires LocatorFor(locator, from, poller.tree) && CacheOf(notifier.cache.headers, poller.tree)
    requires notifier.cache.headers.Keys <= named && NamedBy(locator) <= named
    requires LinksRight(Chain(poller.tree, tip), named)
    modifies notifier.cache`headers
    ensures CacheOf(notifier.cache.headers, poller.tree) && notifier.cache.headers.Keys <= named
    ensures r.Ok? ==>
              && IsFork(poller.tree, tip, from, r.value) && fork == |Chain(poller.tree, tip)| - |r.value.connected|
              && Rises(Chain(poller.tree, tip), fork)
    ensures r.Ok? && locator.hash in poller.reliable && Consecutive(Chain(poller.tree, from)) ==>
              Parts(Chain(poller.tree, from), Chain(poller.tree, tip), fork)
    ensures Recoverable(poller.tree, poller.reliable, poller.missing, poller.mainnet, tip, locator) ==>
              r.Ok? && Fetchable(r.value.connected, poller.reliable - poller.missing)
  {
    fork := 0;
    ghost var at;
    r, at := notifier.FindDifferenceFromBestBlock(tip, locator, poller, from);
    if r.Ok? {
      fork := |Chain(poller.tree, tip)| - |r.value.connected|;
      CheckedRises(Chain(poller.tree, tip), fork, notifier.cache.headers, poller.mainnet, named);
      ForkParts(poller.tree, tip, from, fork);
    }
  }

  /** Finds one listener's fork point and takes it back there. */
  method DisconnectStale(
    listener: Listener, locator: BlockLocator, tip: Header, cache: HeaderCache, poller: ChainPoller, ghost from: Header,
    ghost named: set<Hash>)
    returns (r: Result<Difference>, ghost fork: nat)
    requires WellFormed(poller.tree) && In(poller.tree, tip) && CacheOf(cache.headers, poller.tree)
    requires StartsAt(ViewOf(listener), locator, from, poller.tree)
    requires cache.headers.Keys <= named && NamedBy(locator) <= named && LinksRight(Chain(poller.tree, tip), named)
    modifies cache`headers, listener
    ensures CacheOf(cache.headers, poller.tree) && cache.headers.Keys <= named
    ensures r.Err? ==> ViewOf(listener) == old(ViewOf(listener))
    ensures r.Ok? ==>
              && Placed(ViewOf(listener), old(ViewOf(listener)), Chain(poller.tree, tip), fork, 0)
              && r.value == Difference(Chain(poller.tree, tip)[fork - 1], Descending(Chain(poller.tree, tip), fork))
    ensures r.Ok? ==> Rises(Chain(poller.tree, tip), fork)
    ensures r.Ok? && locator.hash in poller.reliable && Consecutive(old(listener.blocks)) ==>
              Parts(old(listener.blocks), Chain(poller.tree, tip), fork)
    ensures Recoverable(poller.tree, poller.reliable, poller.missing, poller.mainnet, tip, locator) ==>
              r.Ok? && Fetchable(r.value.connected, poller.reliable - poller.missing)
  {
    var notifier := new ChainNotifier(cache, listener);
    r, fork := LocateFork(notifier, locator, tip, poller, from, named);
    if r.Ok? {
      ForkPlace(poller.tree, tip, from, r.value);
      if r.value.ancestor.hash != locator.hash {
        notifier.DisconnectBlocks(r.value.ancestor, poller.tree, from, fork, false);
      }
    }
  }

  lemma ForkPlace(t: Tree, tip: Header, from: Header, d: Difference)
    requires WellFormed(t) && In(t, tip) && In(t, from) && IsFork(t, tip, from, d)
    ensures var k, o := |Chain(t, tip)| - |d.connected|, Chain(t, from);
            && o[k - 1] == d.ancestor == Chain(t, tip)[k - 1]
            && (d.ancestor.hash == from.hash ==> k == |o| && o[..k] == o)
            && (d.ancestor.hash != from.hash ==> k < |o|)
  {
    var k, o := |Chain(t, tip)| - |d.connected|, Chain(t, from);
    ChainFacts(t, from);
    assert o[..k][k - 1] == Chain(t, tip)[..k][k - 1];
    assert o[..|o|] == o;
  }

  /** The walk from a listener's own block stops where the chains part, if its heights are consecutive. */
  lemma ForkParts(t: Tree, tip: Header, from: Header, fork: nat)
    requires WellFormed(t) && In(t, tip) && In(t, from) && 0 < fork <= |Chain(t, tip)| && Rises(Chain(t, tip), fork)
    ensures Meet(t, tip, from).Some? && ForkAt(t, tip, from) == fork && Consecutive(Chain(t, from)) ==>
              Parts(Chain(t, from), Chain(t, tip), fork)
  {
    if Meet(t, tip, from).Some? && ForkAt(t, tip, from) == fork && Consecutive(Chain(t, from)) {
      MeetIsFork(t, tip, from);
      SharedParts(t, tip, from, fork);
      RisesClaims(Chain(t, tip), fork, Shared(Chain(t, tip), Chain(t, from)));
      ClaimsDecideFork(t, tip, from);
    }
  }

  /** The same for the listener at position `i`, which leaves the others alone. */
  method DisconnectStaleAt(
    i: nat, listeners: seq<Listener>, locator: BlockLocator, tip: Header, cache: HeaderCache, poller: ChainPoller,
    ghost from: Header, ghost named: set<Hash>, ghost before: seq<View>)
    returns (r: Result<Difference>, ghost fork: nat, ghost now: seq<View>)
    requires i < |listeners| && Distinct(listeners) && Views(listeners, before)
    requires WellFormed(poller.tree) && In(poller.tree, tip) && CacheOf(cache.headers, poller.tree)
    requires StartsAt(before[i], locator, from, poller.tree)
    requires cache.headers.Keys <= named && NamedBy(locator) <= named && LinksRight(Chain(poller.tree, tip), named)
    modifies cache`headers, listeners
    ensures CacheOf(cache.headers, poller.tree) && cache.headers.Keys <= named
    ensures Views(listeners, now) && now == before[i := now[i]]
    ensures r.Err? ==> now == before
    ensures r.Ok? ==>
              && Placed(now[i], before[i], Chain(poller.tree, tip), fork, 0)
              && r.value == Difference(Chain(poller.tree, tip)[fork - 1], Descending(Chain(poller.tree, tip), fork))
    ensures r.Ok? ==> Rises(Chain(poller.tree, tip), fork)
    ensures r.Ok? && locator.hash in poller.reliable && Consecutive(before[i].blocks) ==>
              Parts(before[i].blocks, Chain(poller.tree, tip), fork)
    ensures Recoverable(poller.tree, poller.reliable, poller.missing, poller.mainnet, tip, locator) ==>
              r.Ok? && Fetchable(r.value.connected, poller.reliable - poller.missing)
  {
    assert forall x | 0 <= x < |listeners| && x != i :: listeners[x] != listeners[i];
    r, fork := DisconnectStale(listeners[i], locator, tip, cache, poller, from, named);
    now := before[i := ViewOf(listeners[i])];
  }

  /** `most` is the longest of the paths above the given fork points; `heights` are the fork points' heights. */
  ghost predicate LongestPath(c: seq<Header>, forks: seq<nat>, heights: seq<nat>, most: seq<Header>) {
    && |heights| == |forks|
    && (forall x | 0 <= x < |forks| :: 0 < forks[x] <= |c| && heights[x] == c[forks[x] - 1].height)
    && |most| <= |c| && most == Descending(c, |c| - |most|)
    && (forall x | 0 <= x < |forks| :: |c| - |most| <= forks[x])
    && (most != [] ==> |c| - |most| in forks)
  }

  lemma LongestPathStep(c: seq<Header>, forks: seq<nat>, heights: seq<nat>, most: seq<Header>, k: nat)
    requires LongestPath(c, forks, heights, most) && 0 < k <= |c|
    ensures LongestPath(c, forks + [k], heights + [c[k - 1].height],
                        if |c| - k > |most| then Descending(c, k) else most)
  {
    assert (forks + [k])[|forks|] == k;
    if |c| - k <= |most| && most != [] {
      var x :| 0 <= x < |forks| && forks[x] == |c| - |most|;
      assert (forks + [k])[x] == |c| - |most|;
    }
  }

  /** The first `|forks|` listeners are at their fork points, the others where they started. */
  ghost predicate AtForks(now: seq<View>, start: seq<View>, c: seq<Header>, forks: seq<nat>) {
    && |forks| <= |now| == |start|
    && (forall x | 0 <= x < |forks| :: Placed(now[x], start[x], c, forks[x], 0))
    && (forall x | |forks| <= x < |now| :: now[x] == start[x])
  }

  /** Where a listener's block was sure to be found and its heights are consecutive, its fork point is where the chains
      part. */
  ghost predicate Parted(
    start: seq<View>, c: seq<Header>, forks: seq<nat>, locators: seq<BlockLocator>, answered: set<Hash>)
    requires |forks| <= |start| == |locators|
  {
    forall x | 0 <= x < |forks| && locators[x].hash in answered && Consecutive(start[x].blocks) ::
      Parts(start[x].blocks, c, forks[x])
  }

  ghost predicate AllRise(c: seq<Header>, forks: seq<nat>) {
    forall x | 0 <= x < |forks| :: Rises(c, forks[x])
  }

  /** The listeners visited so far are at their fork points, and the longest path above these is known. */
  ghost predicate Visited(
    now: seq<View>, start: seq<View>, c: seq<Header>, forks: seq<nat>, heights: seq<nat>, most: seq<Header>,
    locators: seq<BlockLocator>, answered: set<Hash>)
  {
    && AtForks(now, start, c, forks) && LongestPath(c, forks, heights, most) && AllRise(c, forks)
    && |start| == |locators| && Parted(start, c, forks, locators, answered)
  }

  lemma VisitedStep(
    before: seq<View>, now: seq<View>, start: seq<View>, c: seq<Header>, forks: seq<nat>, heights: seq<nat>,
    most: seq<Header>, locators: seq<BlockLocator>, answered: set<Hash>, fork: nat)
    requires Visited(before, start, c, forks, heights, most, locators, answered) && |forks| < |before|
    requires |now| == |before| && now == before[|forks| := now[|forks|]]
    requires Placed(now[|forks|], start[|forks|], c, fork, 0)
    requires locators[|forks|].hash in answered && Consecutive(start[|forks|].blocks) ==>
               Parts(start[|forks|].blocks, c, fork)
    requires Rises(c, fork)
    ensures Visited(now, start, c, forks + [fork], heights + [c[fork - 1].height],
                    if |c| - fork > |most| then Descending(c, fork) else most, locators, answered)
  {
    LongestPathStep(c, forks, heights, most, fork);
  }

  lemma VisitedNone(start: seq<View>, c: seq<Header>, locators: seq<BlockLocator>, answered: set<Hash>)
    requires |start| == |locators|
    ensures Visited(start, start, c, [], [], [], locators, answered)
  {
    assert Descending(c, |c|) == [];
  }

  ghost predicate ListenerRecoverable(
    t: Tree, answered: set<Hash>, missing: set<Hash>, mainnet: bool, tip: Header, locators: seq<BlockLocator>, x: int)
    requires WellFormed(t) && In(t, tip)
  {
    0 <= x < |locators| ==> Recoverable(t, answered, missing, mainnet, tip, locators[x])
  }

  ghost predicate AllRecoverable(
    t: Tree, answered: set<Hash>, missing: set<Hash>, mainnet: bool, tip: Header, locators: seq<BlockLocator>)
    requires WellFormed(t) && In(t, tip)
  {
    forall x :: ListenerRecoverable(t, answered, missing, mainnet, tip, locators, x)
  }

  lemma OneRecoverable(
    t: Tree, answered: set<Hash>, missing: set<Hash>, mainnet: bool, tip: Header, locators: seq<BlockLocator>, x: nat)
    requires WellFormed(t) && In(t, tip) && x < |locators|
    ensures AllRecoverable(t, answered, missing, mainnet, tip, locators) ==>
              Recoverable(t, answered, missing, mainnet, tip, locators[x])
  {
    assert AllRecoverable(t, answered, missing, mainnet, tip, locators) ==>
        ListenerRecoverable(t, answered, missing, mainnet, tip, locators, x);
  }

  /** Visits one more listener. */
  method VisitNext(
    listeners: seq<Listener>, locators: seq<BlockLocator>, tip: Header, cache: HeaderCache, poller: ChainPoller,
    heights: seq<nat>, most: seq<Header>, ghost from: Header, ghost start: seq<View>, ghost forks: seq<nat>,
    ghost before: seq<View>, ghost sure: bool)
    returns (ok: bool, heights1: seq<nat>, most1: seq<Header>, ghost forks1: seq<nat>, ghost now: seq<View>)
    requires WellFormed(poller.tree) && In(poller.tree, tip) && CacheOf(cache.headers, poller.tree)
    requires Distinct(listeners) && Views(listeners, before) && |heights| < |listeners|
    requires Visited(before, start, Chain(poller.tree, tip), forks, heights, most, locators, poller.reliable)
    requires StartsAt(start[|heights|], locators[|heights|], from, poller.tree)
    requires cache.headers.Keys <= AllNamed(locators) && LinksRight(Chain(poller.tree, tip), AllNamed(locators))
    requires sure ==> AllRecoverable(poller.tree, poller.reliable, poller.missing, poller.mainnet, tip, locators)
    modifies cache`headers, listeners
    ensures CacheOf(cache.headers, poller.tree) && cache.headers.Keys <= AllNamed(locators) && Views(listeners, now)
    ensures Visited(now, start, Chain(poller.tree, tip), forks1, heights1, most1, locators, poller.reliable)
    ensures |heights1| == |forks1| == (if ok then |forks| + 1 else |forks|) && |now| == |before|
    ensures sure ==> ok && (most1 == most || Fetchable(most1, poller.reliable - poller.missing))
  {
    heights1, most1, forks1 := heights, most, forks;
    var i := |heights|;
    OneRecoverable(poller.tree, poller.reliable, poller.missing, poller.mainnet, tip, locators, i);
    var difference;
    ghost var fork;
    difference, fork, now :=
      DisconnectStaleAt(i, listeners, locators[i], tip, cache, poller, from, AllNamed(locators), before);
    ok := difference.Ok?;
    if ok {
      var d := difference.value;
      VisitedStep(before, now, start, Chain(poller.tree, tip), forks, heights, most, locators, poller.reliable, fork);
      heights1, forks1 := heights + [d.ancestor.height], forks + [fork];
      if |d.connected| > |most| {
        most1 := d.connected;
      }
    }
  }

  /** First phase: every listener is taken back to its own fork point; the longest path to connect is kept.
      A failure leaves the listeners not yet visited where they were. */
  method FindForks(
    listeners: seq<Listener>, locators: seq<BlockLocator>, tip: Header, cache: HeaderCache, poller: ChainPoller,
    ghost from: seq<Header>, ghost start: seq<View>, ghost sure: bool)
    returns (ok: bool, heights: seq<nat>, most: seq<Header>, ghost forks: seq<nat>, ghost now: seq<View>)
    requires Starts(start, locators, from, poller.tree) && In(poller.tree, tip)
    requires Distinct(listeners) && Views(listeners, start)
    requires CacheOf(cache.headers, poller.tree) && cache.headers.Keys <= AllNamed(locators)
    requires LinksRight(Chain(poller.tree, tip), AllNamed(locators))
    requires sure ==> AllRecoverable(poller.tree, poller.reliable, poller.missing, poller.mainnet, tip, locators)
    modifies cache`headers, listeners
    ensures CacheOf(cache.headers, poller.tree)
    ensures Views(listeners, now)
    ensures Visited(now, start, Chain(poller.tree, tip), forks, heights, most, locators, poller.reliable)
    ensures ok <==> |forks| == |now|
    ensures sure ==> ok && Fetchable(most, poller.reliable - poller.missing)
  {
    ok, heights, most, forks, now := true, [], [], [], start;
    VisitedNone(start, Chain(poller.tree, tip), locators, poller.reliable);
    while |heights| < |listeners|
      invariant |heights| == |forks| <= |listeners| == |now| && ok
      invariant CacheOf(cache.headers, poller.tree) && cache.headers.Keys <= AllNamed(locators)
      invariant Views(listeners, now)
      invariant Visited(now, start, Chain(poller.tree, tip), forks, heights, most, locators, poller.reliable)
      invariant sure ==> Fetchable(most, poller.reliable - poller.missing)
      decreases |listeners| - |heights|
    {
      ok, heights, most, forks, now :=
        VisitNext(listeners, locators, tip, cache, poller, heights, most, from[|heights|], start, forks, now, sure);
      if !ok {
        return;
      }
    }
  }

  ghost predicate AllPlaced(now: seq<View>, start: seq<View>, c: seq<Header>, forks: seq<nat>, level: nat) {
    && |now| == |start| == |forks|
    && (forall x | 0 <= x < |now| :: Placed(now[x], start[x], c, forks[x], level))
  }

  lemma StillAtForks(
    now: seq<View>, start: seq<View>, c: seq<Header>, forks: seq<nat>, heights: seq<nat>, most: seq<Header>)
    requires AllPlaced(now, start, c, forks, 0) && LongestPath(c, forks, heights, most)
    ensures AllPlaced(now, start, c, forks, |c| - |most|)
  {
    forall x | 0 <= x < |now| ensures Placed(now[x], start[x], c, forks[x], |c| - |most|) {
      assert Placed(now[x], start[x], c, forks[x], 0) && |c| - |most| <= forks[x];
    }
  }

  /** Hands one fetched batch to the listener at position `i`, which leaves the others alone. */
  method NotifyAt(
    i: nat, listeners: seq<Listener>, listenerHeight: nat, fetched: array<Fetched>, ghost t: Tree, ghost tip: Header,
    ghost k: nat, ghost p: nat, ghost start: View, ghost lowest: nat, ghost before: seq<View>)
    returns (ghost now: seq<View>)
    requires i < |listeners| && Distinct(listeners) && Views(listeners, before)
    requires WellFormed(t) && In(t, tip)
    requires 0 < k <= |Chain(t, tip)| && listenerHeight == Chain(t, tip)[k - 1].height
    requires 0 < lowest <= k && lowest <= p && Rises(Chain(t, tip), lowest)
    requires IsBatch(fetched[..], Chain(t, tip), p) && fetched.Length == MAX_BLOCKS_AT_ONCE
    requires Placed(before[i], start, Chain(t, tip), k, p)
    modifies listeners
    ensures Views(listeners, now) && now == before[i := now[i]]
    ensures Placed(now[i], start, Chain(t, tip), k, Upper(p, |Chain(t, tip)|))
  {
    assert forall x | 0 <= x < |listeners| && x != i :: listeners[x] != listeners[i];
    NotifyBatch(listeners[i], listenerHeight, fetched, t, tip, k, p, start, lowest);
    now := before[i := ViewOf(listeners[i])];
  }

  /** The first `i` listeners have been given the blocks up to `q`, the others are still at `p`. */
  ghost predicate Handed(
    now: seq<View>, start: seq<View>, c: seq<Header>, forks: seq<nat>, p: nat, q: nat, i: nat)
  {
    && i <= |now| == |start| == |forks|
    && (forall x | 0 <= x < i :: Placed(now[x], start[x], c, forks[x], q))
    && (forall x | i <= x < |now| :: Placed(now[x], start[x], c, forks[x], p))
  }

  lemma HandedStep(
    last: seq<View>, now: seq<View>, start: seq<View>, c: seq<Header>, forks: seq<nat>, p: nat, q: nat, i: nat)
    requires Handed(last, start, c, forks, p, q, i) && i < |last| == |now| && now == last[i := now[i]]
    requires Placed(now[i], start[i], c, forks[i], q)
    ensures Handed(now, start, c, forks, p, q, i + 1)
  {
  }

  /** Hands one fetched batch to every listener. */
  method NotifyAll(
    listeners: seq<Listener>, heights: seq<nat>, fetched: array<Fetched>, ghost t: Tree, ghost tip: Header,
    ghost most: seq<Header>, ghost forks: seq<nat>, ghost p: nat, ghost start: seq<View>, ghost before: seq<View>)
    returns (ghost now: seq<View>)
    requires WellFormed(t) && In(t, tip) && p <= |Chain(t, tip)| && LongestPath(Chain(t, tip), forks, heights, most)
    requires Distinct(listeners) && Views(listeners, before)
    requires AllPlaced(before, start, Chain(t, tip), forks, p)
    requires 0 < |Chain(t, tip)| - |most| <= p && Rises(Chain(t, tip), |Chain(t, tip)| - |most|)
    requires IsBatch(fetched[..], Chain(t, tip), p) && fetched.Length == MAX_BLOCKS_AT_ONCE
    modifies listeners
    ensures Views(listeners, now)
    ensures AllPlaced(now, start, Chain(t, tip), forks, Upper(p, |Chain(t, tip)|))
  {
    ghost var c := Chain(t, tip);
    ghost var q := Upper(p, |c|);
    now := before;
    var i := 0;
    while i < |listeners|
      invariant 0 <= i <= |listeners|
      invariant Views(listeners, now)
      invariant Handed(now, start, c, forks, p, q, i)
    {
      ghost var last := now;
      now := NotifyAt(i, listeners, heights[i], fetched, t, tip, forks[i], p, start[i], |c| - |most|, now);
      HandedStep(last, now, start, c, forks, p, q, i);
      i := i + 1;
    }
  }

  /** Fetches the next batch of the shared path and, if that succeeds, hands it out and cuts it off the path. */
  method ConnectBatch(
    listeners: seq<Listener>, heights: seq<nat>, remaining: seq<Header>, cache: HeaderCache, poller: ChainPoller,
    ghost tip: Header, ghost most: seq<Header>, ghost forks: seq<nat>, ghost start: seq<View>, ghost before: seq<View>,
    ghost level: nat)
    returns (ok: bool, rest: seq<Header>, ghost now: seq<View>)
    requires WellFormed(poller.tree) && In(poller.tree, tip) && CacheOf(cache.headers, poller.tree)
    requires LongestPath(Chain(poller.tree, tip), forks, heights, most)
    requires level + |remaining| == |Chain(poller.tree, tip)|
    requires remaining == Descending(Chain(poller.tree, tip), level)
    requires Distinct(listeners) && Views(listeners, before)
    requires AllPlaced(before, start, Chain(poller.tree, tip), forks, level)
    requires 0 < |Chain(poller.tree, tip)| - |most| <= level
    requires Rises(Chain(poller.tree, tip), |Chain(poller.tree, tip)| - |most|)
    modifies cache`headers, listeners
    ensures CacheOf(cache.headers, poller.tree)
    ensures Views(listeners, now)
    ensures !ok ==> now == before
    ensures ok ==> AllPlaced(now, start, Chain(poller.tree, tip), forks, Upper(level, |Chain(poller.tree, tip)|))
    ensures ok ==> rest == Descending(Chain(poller.tree, tip), Upper(level, |Chain(poller.tree, tip)|))
    ensures Fetchable(remaining, poller.reliable - poller.missing) ==>
              ok && Fetchable(rest, poller.reliable - poller.missing)
  {
    ghost var c := Chain(poller.tree, tip);
    rest, now := remaining, before;
    var fetched;
    ok, fetched := FetchBatch(poller, cache, remaining, tip);
    if ok {
      now := NotifyAll(listeners, heights, fetched, poller.tree, tip, most, forks, level, start, before);
      DescendingTake(c, level, Upper(level, |c|));
      rest := remaining[..if |remaining| <= MAX_BLOCKS_AT_ONCE then 0 else |remaining| - MAX_BLOCKS_AT_ONCE];
    }
  }

  /** Second phase: batches until the shared path is used up or one cannot be fetched. Either way each listener has
      been given exactly the blocks of the whole batches fetched that lie above its own fork point. */
  method ConnectAll(
    listeners: seq<Listener>, heights: seq<nat>, most: seq<Header>, cache: HeaderCache, poller: ChainPoller,
    ghost tip: Header, ghost forks: seq<nat>, ghost start: seq<View>, ghost before: seq<View>)
    returns (ok: bool, ghost batches: nat, ghost level: nat, ghost now: seq<View>)
    requires WellFormed(poller.tree) && In(poller.tree, tip) && CacheOf(cache.headers, poller.tree)
    requires LongestPath(Chain(poller.tree, tip), forks, heights, most)
    requires Distinct(listeners) && Views(listeners, before)
    requires AllPlaced(before, start, Chain(poller.tree, tip), forks, 0)
    requires most != [] ==>
               |Chain(poller.tree, tip)| > |most|
               && Rises(Chain(poller.tree, tip), |Chain(poller.tree, tip)| - |most|)
    modifies cache`headers, listeners
    ensures CacheOf(cache.headers, poller.tree)
    ensures Views(listeners, now)
    ensures AllPlaced(now, start, Chain(poller.tree, tip), forks, level)
    ensures level == Level(|Chain(poller.tree, tip)|, |most|, batches)
    ensures ok <==> level == |Chain(poller.tree, tip)|
    ensures Fetchable(most, poller.reliable - poller.missing) ==> ok
  {
    ghost var c := Chain(poller.tree, tip);
    StillAtForks(before, start, c, forks, heights, most);
    var remaining := most;
    batches, level, now := 0, |c| - |most|, before;
    while remaining != []
      invariant CacheOf(cache.headers, poller.tree)
      invariant Connecting(c, most, remaining, level, batches)
      invariant Views(listeners, now)
      invariant AllPlaced(now, start, c, forks, level)
      invariant Fetchable(most, poller.reliable - poller.missing) ==>
                  Fetchable(remaining, poller.reliable - poller.missing)
      decreases |remaining|
    {
      ok, remaining, now :=
        ConnectBatch(listeners, heights, remaining, cache, poller, tip, most, forks, start, now, level);
      if !ok {
        return;
      }
      ConnectingStep(c, most, level, batches);
      level, batches := Upper(level, |c|), batches + 1;
    }
    ok := true;
  }

  /** `remaining` is the part of the shared path above `level`, which `batches` whole batches have reached. */
  ghost predicate Connecting(c: seq<Header>, most: seq<Header>, remaining: seq<Header>, level: nat, batches: nat) {
    && |most| <= |c| && |c| - |most| <= level && level + |remaining| == |c|
    && remaining == Descending(c, level) && level == Level(|c|, |most|, batches)
  }

  lemma ConnectingStep(c: seq<Header>, most: seq<Header>, level: nat, batches: nat)
    requires |most| <= |c| && |c| - |most| <= level <= |c| && level == Level(|c|, |most|, batches)
    ensures Connecting(c, most, Descending(c, Upper(level, |c|)), Upper(level, |c|), batches + 1)
  {
  }

  /** What became of the listeners after a sync to `c`: `forks` are the fork points of those visited, as many as were
      found before an error; blocks were connected up to `level`, which `batches` whole batches reach. */
  ghost predicate Outcome(
    now: seq<View>, start: seq<View>, c: seq<Header>, forks: seq<nat>, level: nat, batches: nat)
  {
    && |forks| <= |now| == |start|
    && (forall x | 0 <= x < |forks| :: Placed(now[x], start[x], c, forks[x], level))
    && (|forks| < |now| ==> level == 0 && forall x | |forks| <= x < |now| :: now[x] == start[x])
    && (|forks| == |now| ==>
          exists most: nat | LowestFork(|c|, forks, most) :: level == Level(|c|, most, batches))
  }

  /** The shared path has `most` blocks: it starts at the lowest fork point. */
  ghost predicate LowestFork(n: nat, forks: seq<nat>, most: nat) {
    most <= n && (forall x | 0 <= x < |forks| :: n - most <= forks[x]) && (most > 0 ==> n - most in forks)
  }

  lemma OutcomeAfterForks(now: seq<View>, start: seq<View>, c: seq<Header>, forks: seq<nat>)
    requires AtForks(now, start, c, forks) && |forks| < |now|
    ensures Outcome(now, start, c, forks, 0, 0)
  {
  }

  lemma OutcomeAfterBatches(
    now: seq<View>, start: seq<View>, c: seq<Header>, forks: seq<nat>, heights: seq<nat>, most: seq<Header>,
    level: nat, batches: nat)
    requires LongestPath(c, forks, heights, most) && AllPlaced(now, start, c, forks, level)
    requires level == Level(|c|, |most|, batches)
    ensures Outcome(now, start, c, forks, level, batches)
    ensures level == |c| ==> forall x | 0 <= x < |now| :: now[x].blocks == c
  {
    assert LowestFork(|c|, forks, |most|);
    assert c[..|c|] == c;
  }

  /** Both phases, towards a given tip. */
  method SynchronizeTo(
    listeners: seq<Listener>, locators: seq<BlockLocator>, tip: Header, cache: HeaderCache, poller: ChainPoller,
    ghost from: seq<Header>, ghost start: seq<View>, ghost sure: bool)
    returns (ok: bool, ghost forks: seq<nat>, ghost level: nat, ghost batches: nat, ghost now: seq<View>)
    requires Starts(start, locators, from, poller.tree) && In(poller.tree, tip)
    requires Distinct(listeners) && Views(listeners, start)
    requires CacheOf(cache.headers, poller.tree) && cache.headers.Keys <= AllNamed(locators)
    requires LinksRight(Chain(poller.tree, tip), AllNamed(locators))
    requires sure ==> AllRecoverable(poller.tree, poller.reliable, poller.missing, poller.mainnet, tip, locators)
    modifies cache`headers, listeners
    ensures CacheOf(cache.headers, poller.tree)
    ensures Views(listeners, now)
    ensures Outcome(now, start, Chain(poller.tree, tip), forks, level, batches)
    ensures Parted(start, Chain(poller.tree, tip), forks, locators, poller.reliable)
    ensures sure ==> ok
    ensures ok ==> forall x | 0 <= x < |now| :: now[x].blocks == Chain(poller.tree, tip)
  {
    ghost var c := Chain(poller.tree, tip);
    var heights, most;
    level, batches := 0, 0;
    ok, heights, most, forks, now := FindForks(listeners, locators, tip, cache, poller, from, start, sure);
    if !ok {
      OutcomeAfterForks(now, start, c, forks);
      return;
    }
    ok, batches, level, now := ConnectAll(listeners, heights, most, cache, poller, tip, forks, start, now);
    OutcomeAfterBatches(now, start, c, forks, heights, most, level, batches);
  }

  /** Brings every listener from its own block to the source's best tip. Links onto blocks that a locator names may not
      be checked, so the heights claimed there have to be right; those of a trusted source are. On success each is on
      the best chain and the returned cache fits the returned tip. */
  method SynchronizeListeners(
    listeners: seq<Listener>, locators: seq<BlockLocator>, poller: ChainPoller,
    ghost from: seq<Header>, ghost start: seq<View>)
    returns (r: Result<(HeaderCache, Header)>, ghost best: Option<Header>, ghost forks: seq<nat>, ghost level: nat,
             ghost batches: nat, ghost now: seq<View>)
    requires Starts(start, locators, from, poller.tree)
    requires poller.bestBlock.Some? && poller.bestBlock.value in poller.tree ==>
               LinksRight(Chain(poller.tree, poller.tree[poller.bestBlock.value]), AllNamed(locators))
    requires Distinct(listeners) && Views(listeners, start)
    modifies listeners
    ensures Views(listeners, now)
    ensures best.None? ==> r.Err? && now == start
    ensures best.Some? ==> In(poller.tree, best.value) && poller.bestBlock == Some(best.value.hash)
    ensures best.Some? ==> Outcome(now, start, Chain(poller.tree, best.value), forks, level, batches)
    ensures best.Some? ==> Parted(start, Chain(poller.tree, best.value), forks, locators, poller.reliable)
    ensures poller.bestBlock.Some?
            && poller.bestBlock.value in poller.tree && poller.bestBlock.value in poller.reliable
            && AllRecoverable(poller.tree, poller.reliable, poller.missing, poller.mainnet,
                              poller.tree[poller.bestBlock.value], locators) ==>
              r.Ok?
    ensures r.Ok? ==> best == Some(r.value.1)
    ensures r.Ok? ==> forall x | 0 <= x < |now| :: now[x].blocks == Chain(poller.tree, r.value.1)
    ensures r.Ok? ==> fresh(r.value.0) && CacheOf(r.value.0.headers, poller.tree) && !r.value.0.retainOnDisconnect
  {
    best, forks, level, batches, now := None, [], 0, 0, start;
    var header := ValidateBestBlockHeader(poller);
    if header.Err? {
      r := Err;
      return;
    }
    var tip := header.value;
    best := Some(tip);
    var cache := new HeaderCache();
    cache.retainOnDisconnect := true;
    ghost var sure := AllRecoverable(poller.tree, poller.reliable, poller.missing, poller.mainnet, tip, locators);
    var ok;
    ok, forks, level, batches, now := SynchronizeTo(listeners, locators, tip, cache, poller, from, start, sure);
    if !ok {
      r := Err;
      return;
    }
    cache.retainOnDisconnect := false;
    r := Ok((cache, tip));
  }

  /** How far up a chain of `n` blocks `batches` whole batches of its last `most` blocks reach. */
  function Level(n: nat, most: nat, batches: nat): nat
    requires most <= n
  {
    if n - most + batches * MAX_BLOCKS_AT_ONCE <= n then n - most + batches * MAX_BLOCKS_AT_ONCE else n
  }
}
