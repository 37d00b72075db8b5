/** Keeping one listener on the best chain: the header cache, the chain notifier and the polling client. */
module SpvClient {
  import opened BlockTree
  import opened Wrappers

  const HEADER_CACHE_LIMIT: nat := 6 * 24 * 7

  datatype ChainTip = Common | Better(tip: Header) | Worse(tip: Header)

  /** Outcome of a listener sync; a failure carries where the listener ended up, if it was moved on a valid path. */
  datatype SyncResult = Synced | Failed(reached: Option<Header>)

  datatype BlockData = FullBlock(header: Header) | HeaderOnly(header: Header)

  /** A validating poller over one block source. The source names `bestBlock` as its best, if it answers that at all.
      Any call for a header or block may fail, except for those in `reliable`, which are sure to be answered; blocks in
      `missing` are sure not to be. */
  class ChainPoller {
    const tree: Tree
    const mainnet: bool
    var bestBlock: Option<Hash>
    var reliable: set<Hash>
    var missing: set<Hash>

    constructor (tree: Tree, mainnet: bool, bestBlock: Option<Hash>, reliable: set<Hash>, missing: set<Hash>)
      ensures this.tree == tree && this.mainnet == mainnet
      ensures this.bestBlock == bestBlock && this.reliable == reliable && this.missing == missing
    {
      this.tree, this.mainnet, this.bestBlock := tree, mainnet, bestBlock;
      this.reliable, this.missing := reliable, missing;
    }

    method GetHeader(hash: Hash) returns (r: Result<Header>)
      ensures r.Ok? ==> hash in tree && r.value == tree[hash]
      ensures hash in tree && hash in reliable ==> r.Ok?
    {
      var answers: bool := *;
      if hash in tree && (hash in reliable || answers) {
        return Ok(tree[hash]);
      }
      return Err;
    }

    method PollChainTip(best: Header) returns (r: Result<ChainTip>)
      requires WellFormed(tree)
      ensures r.Ok? ==> bestBlock == Some(if r.value.Common? then best.hash else r.value.tip.hash)
      ensures r.Ok? && !r.value.Common? ==> In(tree, r.value.tip) && r.value.tip.hash != best.hash
      ensures r.Ok? && r.value.Better? ==> r.value.tip.chainwork > best.chainwork
      ensures r.Ok? && r.value.Worse? ==> r.value.tip.chainwork <= best.chainwork
      ensures bestBlock == Some(best.hash) ==> r.Ok?
      ensures bestBlock.Some? && bestBlock.value in tree && bestBlock.value in reliable ==> r.Ok?
    {
      match bestBlock {
        case None => return Err;
        case Some(hash) =>
          if hash == best.hash {
            return Ok(Common);
          }
          var header := GetHeader(hash);
          match header {
            case Err => return Err;
            case Ok(tip) =>
              if tip.chainwork > best.chainwork {
                return Ok(Better(tip));
              }
              return Ok(Worse(tip));
          }
      }
    }

    method LookUpPreviousHeader(h: Header) returns (r: Result<Header>)
      ensures r.Ok? ==> h.prev in tree && r.value == tree[h.prev] && BuildsOn(h, r.value, mainnet)
      ensures Parent(tree, map[], reliable, mainnet, h).Some? ==> r.Ok?
      ensures r.Ok? ==> h.height > 0 && Acceptable(h, r.value, mainnet)
      ensures h.height > 0 && h.prev in tree && h.prev in reliable && Acceptable(h, tree[h.prev], mainnet) ==> r.Ok?
    {
      if h.prev in tree {
        BuildsOnIsAcceptable(h, tree[h.prev], mainnet);
      }
      if h.height == 0 {
        return Err;
      }
      r := GetHeader(h.prev);
      if r.Ok? && !BuildsOn(h, r.value, mainnet) {
        return Err;
      }
    }

    method FetchBlock(h: Header) returns (r: Result<BlockData>)
      ensures r.Ok? ==> r.value.header == h
      ensures h.hash in reliable - missing ==> r.Ok?
      ensures h.hash in missing ==> r.Err?
    {
      var answers: bool := *;
      var full: bool := *;
      if h.hash in missing || (h.hash !in reliable && !answers) {
        return Err;
      }
      return Ok(if full then FullBlock(h) else HeaderOnly(h));
    }
  }

  /** The blocks up to and including the last one with the given hash. */
  function UpTo(blocks: seq<Header>, hash: Hash): seq<Header> {
    if blocks == [] || blocks[|blocks| - 1].hash == hash then blocks else UpTo(blocks[..|blocks| - 1], hash)
  }

  lemma {:induction false} UpToPrefix(blocks: seq<Header>, k: nat)
    requires 0 < k <= |blocks|
    requires forall a | k <= a < |blocks| :: blocks[a].hash != blocks[k - 1].hash
    ensures UpTo(blocks, blocks[k - 1].hash) == blocks[..k]
    decreases |blocks|
  {
    if k == |blocks| {
      assert blocks[..k] == blocks;
    } else {
      var s := blocks[..|blocks| - 1];
      UpToPrefix(s, k);
      assert s[..k] == blocks[..k];
    }
  }

  /** A chain listener: the stack of blocks it is on, with the heights they were given at. Its preconditions are the
      order of calls: each connected block is a child of the current tip, each disconnect names a strict ancestor of
      it. That every connect was one higher than the last is `Consecutive(blocks)`. */
  class Listener {
    var blocks: seq<Header>
    var notifications: nat

    constructor (blocks: seq<Header>)
      ensures this.blocks == blocks && notifications == 0
    {
      this.blocks, notifications := blocks, 0;
    }

    method FilteredBlockConnected(header: Header, height: nat)
      requires blocks != []
      requires header.prev == blocks[|blocks| - 1].hash
      modifies this
      ensures blocks == old(blocks) + [header.(height := height)]
      ensures notifications == old(notifications) + 1
    {
      blocks := blocks + [header.(height := height)];
      notifications := notifications + 1;
    }

    method BlockConnected(block: BlockData, height: nat)
      requires blocks != []
      requires block.header.prev == blocks[|blocks| - 1].hash
      modifies this
      ensures blocks == old(blocks) + [block.header.(height := height)]
      ensures notifications == old(notifications) + 1
    {
      FilteredBlockConnected(block.header, height);
    }

    /** Full and header-only blocks are handed over by different calls. */
    method Connect(block: BlockData, height: nat)
      requires blocks != []
      requires block.header.prev == blocks[|blocks| - 1].hash
      modifies this
      ensures blocks == old(blocks) + [block.header.(height := height)]
      ensures notifications == old(notifications) + 1
    {
      match block {
        case FullBlock(_) => BlockConnected(block, height);
        case HeaderOnly(h) => FilteredBlockConnected(h, height);
      }
    }

    method BlocksDisconnected(hash: Hash, height: nat)
      requires exists i | 0 <= i < |blocks| - 1 :: blocks[i].hash == hash && blocks[i].height == height
      modifies this
      ensures blocks == UpTo(old(blocks), hash)
      ensures notifications == old(notifications) + 1
    {
      blocks := UpTo(blocks, hash);
      notifications := notifications + 1;
    }
  }

  function Cutoff(height: nat): nat {
    if height <= HEADER_CACHE_LIMIT then 0 else height - HEADER_CACHE_LIMIT
  }

  function KeepAbove(h: Tree, cutoff: nat): Tree {
    map k | k in h && h[k].height >= cutoff :: h[k]
  }

  function KeepUpTo(h: Tree, height: nat): Tree {
    map k | k in h && h[k].height <= height :: h[k]
  }

  class HeaderCache {
    var headers: Tree
    var retainOnDisconnect: bool

    constructor ()
      ensures headers == map[] && !retainOnDisconnect
    {
      headers, retainOnDisconnect := map[], false;
    }

    function LookUp(hash: Hash): Option<Header>
      reads this
    {
      if hash in headers then Some(headers[hash]) else None
    }

    method BlockConnected(hash: Hash, header: Header)
      modifies this`headers
      ensures headers == KeepAbove(old(headers)[hash := header], Cutoff(header.height))
    {
      headers := headers[hash := header];
      headers := KeepAbove(headers, Cutoff(header.height));
    }

    /** Unlike `BlockConnected`, measures age from the highest header held. */
    method InsertDuringDiff(hash: Hash, header: Header)
      modifies this`headers
      ensures var h := old(headers)[hash := header];
              exists b | b in h && (forall k | k in h :: h[k].height <= h[b].height) ::
                headers == KeepAbove(h, Cutoff(h[b].height))
    {
      headers := headers[hash := header];
      ghost var h := headers;
      var rest, best := headers.Keys, hash;
      while rest != {}
        invariant rest <= headers.Keys && best in headers && headers == h
        invariant forall k | k in headers && k !in rest :: headers[k].height <= headers[best].height
        decreases |rest|
      {
        var k :| k in rest;
        if headers[k].height > headers[best].height {
          best := k;
        }
        rest := rest - {k};
      }
      headers := KeepAbove(headers, Cutoff(headers[best].height));
      assert best in h;
    }

    method BlocksDisconnected(forkPoint: Header)
      modifies this`headers
      ensures headers == if retainOnDisconnect then old(headers) else KeepUpTo(old(headers), forkPoint.height)
    {
      if !retainOnDisconnect {
        headers := KeepUpTo(headers, forkPoint.height);
      }
    }
  }

  /** The stack is a nonempty initial part of the chain. */
  ghost predicate On(blocks: seq<Header>, c: seq<Header>) {
    0 < |blocks| <= |c| && blocks == c[..|blocks|]
  }

  /** Where a header of this height sits in a stack of consecutive heights. */
  ghost function Position(blocks: seq<Header>, height: nat): int
    requires blocks != []
  {
    |blocks| - 1 - blocks[|blocks| - 1].height + height
  }

  ghost predicate IsNewest(blocks: seq<Header>, h: Header, n: nat)
    requires blocks != []
  {
    var a := Position(blocks, h.height);
    0 <= a && |blocks| - n <= a < |blocks| && blocks[a] == h
  }

  /** The cache holds exactly the newest `n` blocks of the stack. */
  ghost predicate HoldsNewest(headers: Tree, blocks: seq<Header>, n: nat)
    requires blocks != []
  {
    && n <= |blocks| && n <= HEADER_CACHE_LIMIT + 1
    && (forall a | |blocks| - n <= a < |blocks| :: blocks[a].hash in headers && headers[blocks[a].hash] == blocks[a])
    && (forall h | h in headers :: headers[h].hash == h && IsNewest(blocks, headers[h], n))
  }

  /** The cache is empty or a contiguous ancestor path ending at the stack's top. */
  ghost predicate Contiguous(headers: Tree, blocks: seq<Header>)
    requires blocks != []
  {
    exists n: nat :: HoldsNewest(headers, blocks, n)
  }

  /** Connecting a block keeps the cache a path to the top, one longer unless it is full. */
  lemma ContiguousConnect(headers: Tree, blocks: seq<Header>, top: Header)
    requires blocks != [] && Contiguous(headers, blocks) && Consecutive(blocks + [top])
    requires forall i | 0 <= i < |blocks| :: blocks[i].hash != top.hash
    ensures Contiguous(KeepAbove(headers[top.hash := top], Cutoff(top.height)), blocks + [top])
  {
    var n: nat :| HoldsNewest(headers, blocks, n);
    var kept := KeepAbove(headers[top.hash := top], Cutoff(top.height));
    var all := blocks + [top];
    var m := if n == HEADER_CACHE_LIMIT + 1 then n else n + 1;
    assert all[|all| - 1] == top;
    forall a | |all| - m <= a < |all| ensures all[a].hash in kept && kept[all[a].hash] == all[a] {
      assert a < |blocks| ==> all[a] == blocks[a];
    }
    forall k | k in kept ensures kept[k].hash == k && IsNewest(all, kept[k], m) {
      if k != top.hash {
        var a := Position(blocks, headers[k].height);
        assert IsNewest(blocks, headers[k], n) && all[a] == blocks[a] == headers[k];
        assert all[|blocks| - 1] == blocks[|blocks| - 1];
      }
    }
    assert HoldsNewest(kept, all, m);
  }

  /** Dropping everything above the fork point keeps the cache a path, now to the fork point. */
  lemma ContiguousDisconnect(headers: Tree, blocks: seq<Header>, k: nat)
    requires Consecutive(blocks) && 0 < k <= |blocks| && Contiguous(headers, blocks)
    ensures Contiguous(KeepUpTo(headers, blocks[k - 1].height), blocks[..k])
  {
    var n: nat :| HoldsNewest(headers, blocks, n);
    var m := if n <= |blocks| - k then 0 else n - (|blocks| - k);
    var low := blocks[..k];
    var kept := KeepUpTo(headers, blocks[k - 1].height);
    assert low[k - 1] == blocks[k - 1];
    forall a | k - m <= a < k ensures low[a].hash in kept && kept[low[a].hash] == low[a] {
      assert low[a] == blocks[a];
    }
    forall h | h in kept ensures kept[h].hash == h && IsNewest(low, kept[h], m) {
      assert IsNewest(blocks, headers[h], n);
    }
    assert HoldsNewest(kept, low, m);
  }

  /** Being a path, the cache never holds more than one header over its limit. */
  lemma ContiguousSize(headers: Tree, blocks: seq<Header>)
    requires blocks != [] && Contiguous(headers, blocks)
    ensures |headers| <= HEADER_CACHE_LIMIT + 1
  {
    var n: nat :| HoldsNewest(headers, blocks, n);
    var newest := blocks[|blocks| - n..];
    forall h | h in headers.Keys ensures h in HashesOf(newest) {
      var a := Position(blocks, headers[h].height);
      assert newest[a - (|blocks| - n)].hash == h;
    }
    SubsetSize(headers.Keys, HashesOf(newest));
  }

  function HashesOf(s: seq<Header>): (r: set<Hash>)
    ensures |r| <= |s|
    ensures forall i | 0 <= i < |s| :: s[i].hash in r
  {
    if s == [] then {} else HashesOf(s[..|s| - 1]) + {s[|s| - 1].hash}
  }

  lemma {:induction false} SubsetSize<T>(a: set<T>, b: set<T>)
    requires a <= b
    ensures |a| <= |b|
  {
    if a != {} {
      var x :| x in a;
      SubsetSize(a - {x}, b - {x});
    }
  }

  /** State of the search: `current` is where it has come down to on the chain to connect, `connected` what it has
      passed there. It goes on where `Meet` does, and where `Walk` does if that succeeds. */
  ghost predicate Searching(
    t: Tree, tip: Header, from: Header, cached: Tree, answered: set<Hash>, mainnet: bool,
    current: Header, previous: Header, connected: seq<Header>)
    requires WellFormed(t) && In(t, tip) && In(t, from) && CacheOf(cached, t) && In(t, current) && In(t, previous)
  {
    var walk := Walk(t, cached, answered, mainnet, tip, from);
    && Passed(t, tip, cached, mainnet, current, connected)
    && (walk.Some? ==> walk == After(Walk(t, cached, answered, mainnet, current, previous), connected))
    && Meet(t, tip, from) == After(Meet(t, current, previous), connected)
  }

  ghost predicate Passed(t: Tree, tip: Header, cached: Tree, mainnet: bool, current: Header, connected: seq<Header>)
    requires WellFormed(t) && In(t, tip)
  {
    var c := Chain(t, tip);
    var k := |c| - |connected|;
    0 < k && current == c[k - 1] && connected == Descending(c, k) && Checked(c, k, cached, mainnet)
  }

  lemma PassedStep(
    t: Tree, tip: Header, cached: Tree, mainnet: bool, current: Header, connected: seq<Header>, current1: Header)
    requires WellFormed(t) && In(t, tip) && Passed(t, tip, cached, mainnet, current, connected)
    requires current.prev in t && current1 == t[current.prev]
    requires current.prev !in cached ==> BuildsOn(current, current1, mainnet)
    ensures Passed(t, tip, cached, mainnet, current1, connected + [current])
  {
    ChainParent(t, tip, |Chain(t, tip)| - |connected| - 1);
  }

  lemma SearchStart(t: Tree, tip: Header, from: Header, cached: Tree, answered: set<Hash>, mainnet: bool)
    requires WellFormed(t) && In(t, tip) && In(t, from) && CacheOf(cached, t)
    ensures Searching(t, tip, from, cached, answered, mainnet, tip, from, [])
  {
    AfterNothing(Walk(t, cached, answered, mainnet, tip, from));
    AfterNothing(Meet(t, tip, from));
  }

  lemma SearchStep(
    t: Tree, tip: Header, from: Header, cached: Tree, answered: set<Hash>, mainnet: bool,
    current: Header, previous: Header, connected: seq<Header>, current1: Header, previous1: Header)
    requires WellFormed(t) && In(t, tip) && In(t, from) && CacheOf(cached, t) && In(t, current) && In(t, previous)
    requires Searching(t, tip, from, cached, answered, mainnet, current, previous, connected)
    requires current.hash != previous.hash && SteppedBack(t, current, previous, current1, previous1)
    requires current1 != current && current.prev !in cached ==> BuildsOn(current, current1, mainnet)
    ensures Searching(t, tip, from, cached, answered, mainnet, current1, previous1,
                      if current.height >= previous.height then connected + [current] else connected)
  {
    WalkStep(t, cached, answered, mainnet, current, previous, current1, previous1, connected);
    WalkStep(t, t, {}, true, current, previous, current1, previous1, connected);
    if current.height >= previous.height {
      PassedStep(t, tip, cached, mainnet, current, connected, current1);
    }
  }

  /** What the search has found when it stops. */
  lemma SearchDone(
    t: Tree, tip: Header, from: Header, cached: Tree, answered: set<Hash>, mainnet: bool,
    ancestor: Header, connected: seq<Header>)
    requires WellFormed(t) && In(t, tip) && In(t, from) && CacheOf(cached, t) && In(t, ancestor)
    requires Searching(t, tip, from, cached, answered, mainnet, ancestor, ancestor, connected)
    ensures Meet(t, tip, from) == Some(Difference(ancestor, connected))
    ensures Validated(t, tip, from, cached, mainnet)
    ensures Walk(t, cached, answered, mainnet, tip, from).Some? ==>
              Walk(t, cached, answered, mainnet, tip, from) == Some(Difference(ancestor, connected))
  {
    assert connected + [] == connected;
  }

  /** How many blocks of the chain to `tip` the walk leaves alone. */
  ghost function ForkAt(t: Tree, tip: Header, from: Header): (k: int)
    requires WellFormed(t) && In(t, tip) && In(t, from) && Meet(t, tip, from).Some?
    ensures 0 < k <= |Chain(t, tip)| && k <= |Chain(t, from)|
  {
    MeetIsFork(t, tip, from);
    |Chain(t, tip)| - |Meet(t, tip, from).value.connected|
  }

  /** The walk from `tip` and `from` meets, and every link it took on `tip`'s side was cached or passed the checks. */
  ghost predicate Validated(t: Tree, tip: Header, from: Header, cached: Tree, mainnet: bool)
    requires WellFormed(t) && In(t, tip) && In(t, from)
  {
    && Meet(t, tip, from).Some?
    && Checked(Chain(t, tip), ForkAt(t, tip, from), cached, mainnet)
  }

  /** The first block that only the chain `c` has, if any, claims the height that follows the fork point's. */
  ghost predicate FirstHeightRight(c: seq<Header>, o: seq<Header>) {
    var m := Shared(c, o);
    0 < m < |c| ==> c[m].height == c[m - 1].height + 1
  }

  /** It claims to be above the fork point. */
  ghost predicate FirstClaimsAbove(c: seq<Header>, o: seq<Header>) {
    var m := Shared(c, o);
    0 < m < |c| ==> c[m].height > c[m - 1].height
  }

  /** It claims the chainwork it adds. */
  ghost predicate FirstWorkRight(c: seq<Header>, o: seq<Header>) {
    var m := Shared(c, o);
    0 < m < |c| ==> c[m].chainwork == c[m - 1].chainwork + c[m].work
  }

  /** The tip of `c` claims exactly the work of its blocks on top of what the fork point claims. */
  ghost predicate WorkBacked(c: seq<Header>, o: seq<Header>)
    requires c != []
  {
    var m := Shared(c, o);
    0 < m ==> c[|c| - 1].chainwork == c[m - 1].chainwork + TotalWork(c[m..])
  }

  ghost predicate HeightFollows(c: seq<Header>, a: int) {
    0 < a < |c| && c[a].height == c[a - 1].height + 1
  }

  /** From position `m` up, every block whose parent was cached claims the height that follows its parent's. */
  ghost predicate CachedHeightsRight(c: seq<Header>, m: nat, cached: Tree) {
    forall a {:trigger HeightFollows(c, a)} | m <= a < |c| && c[a].prev in cached :: HeightFollows(c, a)
  }

  /** What the links with a cached parent claim decides whether the chainwork of the chain `c` is backed by work and,
      coming from consecutive heights, whether its heights are consecutive. */
  ghost predicate DecidedByCached(c: seq<Header>, o: seq<Header>, cached: Tree)
    requires 0 < Shared(c, o)
  {
    var m := Shared(c, o);
    && (WorkBacked(c, o) <==> Unbacked(c, m, cached) == 0)
    && (Consecutive(o) ==> (Consecutive(c) <==> CachedHeightsRight(c, m, cached)))
  }

  /** That holds for every validated transition, whatever tree headers the cache holds. */
  lemma CachedLinksDecide(t: Tree, tip: Header, from: Header, cached: Tree, mainnet: bool)
    requires WellFormed(t) && In(t, tip) && In(t, from) && Validated(t, tip, from, cached, mainnet)
    ensures 0 < Shared(Chain(t, tip), Chain(t, from)) && DecidedByCached(Chain(t, tip), Chain(t, from), cached)
  {
    var c, o := Chain(t, tip), Chain(t, from);
    MeetIsFork(t, tip, from);
    SharedParts(t, tip, from, ForkAt(t, tip, from));
    ChainworkTelescopes(c, Shared(c, o), cached, mainnet);
    if Consecutive(o) {
      CachedLinksDecideHeights(c, o, cached, mainnet);
    }
  }

  lemma CachedLinksDecideHeights(c: seq<Header>, o: seq<Header>, cached: Tree, mainnet: bool)
    requires PartAt(c, o, Shared(c, o)) && Checked(c, Shared(c, o), cached, mainnet) && Consecutive(o)
    ensures Consecutive(c) <==> CachedHeightsRight(c, Shared(c, o), cached)
  {
    var m := Shared(c, o);
    if CachedHeightsRight(c, m, cached) {
      forall a | m - 1 <= a < |c| ensures c[a].height == c[m - 1].height + a - (m - 1) {
        HeightsFollow(c, m, a, cached, mainnet);
      }
      forall a | 0 <= a < m ensures c[a].height == c[m - 1].height + a - (m - 1) {
        assert c[a] == c[..m][a] == o[..m][a] == o[a];
        assert c[m - 1] == c[..m][m - 1] == o[..m][m - 1] == o[m - 1];
      }
    }
  }

  lemma {:induction false} HeightsFollow(c: seq<Header>, m: nat, a: nat, cached: Tree, mainnet: bool)
    requires 0 < m <= a + 1 <= |c| && Checked(c, m, cached, mainnet) && CachedHeightsRight(c, m, cached)
    ensures c[a].height == c[m - 1].height + a - (m - 1)
    decreases a
  {
    if m <= a {
      HeightsFollow(c, m, a - 1, cached, mainnet);
      assert c[a].prev !in cached ==> LinkHolds(c, a, mainnet);
      assert c[a].prev in cached ==> HeightFollows(c, a);
    }
  }

  /** The old chain's own blocks claim to be above the fork point if there are none or its heights are consecutive. */
  lemma OldClaimsAbove(c: seq<Header>, o: seq<Header>)
    requires PartAt(c, o, Shared(c, o)) && (o <= c || Consecutive(o))
    ensures ClaimsAbove(o, Shared(c, o))
  {
    if o <= c {
      assert c[..|o|] == o[..|o|] == o;
      SharedLongest(c, o, |o|);
    }
  }

  /** Whatever is cached: for a chain that only adds to the old one, or coming from consecutive heights, the walk finds
      the lowest common ancestor if and only if all new blocks claim to be above it. */
  lemma ClaimsDecideFork(t: Tree, tip: Header, from: Header)
    requires WellFormed(t) && In(t, tip) && In(t, from) && Meet(t, tip, from).Some?
    requires Chain(t, from) <= Chain(t, tip) || Consecutive(Chain(t, from))
    ensures 0 < Shared(Chain(t, tip), Chain(t, from))
    ensures IsDifference(t, tip, from, Meet(t, tip, from).value) <==>
            ClaimsAbove(Chain(t, tip), Shared(Chain(t, tip), Chain(t, from)))
  {
    MeetIsFork(t, tip, from);
    SharedParts(t, tip, from, ForkAt(t, tip, from));
    OldClaimsAbove(Chain(t, tip), Chain(t, from));
    LowestIsShared(t, tip, from);
    ClaimsDecideStop(t, tip, from, Shared(Chain(t, tip), Chain(t, from)));
  }

  lemma ClaimsDecideStop(t: Tree, tip: Header, from: Header, m: nat)
    requires WellFormed(t) && In(t, tip) && In(t, from) && Meet(t, tip, from).Some?
    requires PartAt(Chain(t, tip), Chain(t, from), m) && ClaimsAbove(Chain(t, from), m)
    ensures ForkAt(t, tip, from) == m <==> ClaimsAbove(Chain(t, tip), m)
  {
    if ClaimsAbove(Chain(t, tip), m) {
      MeetFinds(t, tip, from, m);
    } else {
      var a :| m <= a < |Chain(t, tip)| && Chain(t, tip)[a].height <= Chain(t, tip)[m - 1].height;
      MeetMisses(t, tip, from, m, a);
    }
  }

  /** With a cache that is a path to the listener's tip, all new links but the first were checked. */
  lemma OnlyFirstUnchecked(t: Tree, tip: Header, from: Header, cached: Tree, mainnet: bool)
    requires WellFormed(t) && In(t, tip) && In(t, from) && CacheOf(cached, t) && Contiguous(cached, Chain(t, from))
    requires Validated(t, tip, from, cached, mainnet)
    ensures var c, o := Chain(t, tip), Chain(t, from);
            PartAt(c, o, Shared(c, o)) && Checked(c, Shared(c, o) + 1, map[], mainnet)
  {
    var c, o := Chain(t, tip), Chain(t, from);
    MeetIsFork(t, tip, from);
    SharedParts(t, tip, from, ForkAt(t, tip, from));
    forall a | Shared(c, o) + 1 <= a < |c| ensures LinkHolds(c, a, mainnet) {
      CachedIsOld(t, tip, from, cached, a);
      assert c[a - 1] !in o;
    }
  }

  lemma CachedIsOld(t: Tree, tip: Header, from: Header, cached: Tree, a: nat)
    requires WellFormed(t) && In(t, tip) && In(t, from) && CacheOf(cached, t) && Contiguous(cached, Chain(t, from))
    requires 0 < a < |Chain(t, tip)|
    ensures Chain(t, tip)[a].prev in cached ==> Chain(t, tip)[a - 1] in Chain(t, from)
  {
    ChainFacts(t, tip);
    var n: nat :| HoldsNewest(cached, Chain(t, from), n);
    if Chain(t, tip)[a].prev in cached {
      assert In(t, Chain(t, tip)[a - 1]) && IsNewest(Chain(t, from), cached[Chain(t, tip)[a].prev], n);
    }
  }

  lemma {:induction false} AllBacked(c: seq<Header>, k: nat)
    requires 0 < k <= |c|
    ensures Unbacked(c, k, map[]) == 0
    decreases |c| - k
  {
    if k < |c| {
      AllBacked(c, k + 1);
    }
  }

  /** So the new tip's chainwork is backed by work if and only if the first new block's is. */
  lemma FirstLinkDecidesWork(t: Tree, tip: Header, from: Header, cached: Tree, mainnet: bool)
    requires WellFormed(t) && In(t, tip) && In(t, from) && CacheOf(cached, t) && Contiguous(cached, Chain(t, from))
    requires Validated(t, tip, from, cached, mainnet)
    ensures WorkBacked(Chain(t, tip), Chain(t, from)) <==> FirstWorkRight(Chain(t, tip), Chain(t, from))
  {
    var c := Chain(t, tip);
    var m := Shared(c, Chain(t, from));
    OnlyFirstUnchecked(t, tip, from, cached, mainnet);
    if m < |c| {
      ChainworkTelescopes(c, m + 1, map[], mainnet);
      AllBacked(c, m + 1);
      assert c[m..][1..] == c[m + 1..];
    }
  }

  lemma {:induction false} RisingHeights(c: seq<Header>, m: nat, a: nat, mainnet: bool)
    requires m <= a < |c| && Checked(c, m + 1, map[], mainnet)
    ensures c[a].height == c[m].height + a - m
    decreases a
  {
    if m < a {
      RisingHeights(c, m, a - 1, mainnet);
      assert LinkHolds(c, a, mainnet);
    }
  }

  /** From a listener whose blocks are at consecutive heights: the new chain's heights are consecutive if and only if
      the first new block's height is right. */
  lemma FirstLinkDecidesHeights(t: Tree, tip: Header, from: Header, cached: Tree, mainnet: bool)
    requires WellFormed(t) && In(t, tip) && In(t, from) && CacheOf(cached, t) && Contiguous(cached, Chain(t, from))
    requires Validated(t, tip, from, cached, mainnet) && Consecutive(Chain(t, from))
    ensures Consecutive(Chain(t, tip)) <==> FirstHeightRight(Chain(t, tip), Chain(t, from))
  {
    OnlyFirstUnchecked(t, tip, from, cached, mainnet);
    HeightsFromFirst(Chain(t, tip), Chain(t, from), mainnet);
  }

  lemma HeightsFromFirst(c: seq<Header>, o: seq<Header>, mainnet: bool)
    requires PartAt(c, o, Shared(c, o)) && Checked(c, Shared(c, o) + 1, map[], mainnet) && Consecutive(o)
    ensures Consecutive(c) <==> FirstHeightRight(c, o)
    ensures Shared(c, o) < |c| && c[Shared(c, o)].height > c[Shared(c, o) - 1].height ==> ClaimsAbove(c, Shared(c, o))
    ensures ClaimsAbove(o, Shared(c, o))
  {
    var m := Shared(c, o);
    forall a | 0 <= a < m ensures c[a].height == c[m - 1].height + a - (m - 1) {
      assert c[a] == c[..m][a] == o[..m][a] == o[a];
      assert c[m - 1] == c[..m][m - 1] == o[..m][m - 1] == o[m - 1];
    }
    forall a | m <= a < |c| ensures c[a].height == c[m].height + a - m {
      RisingHeights(c, m, a, mainnet);
    }
  }

  /** The walk has found the lowest common ancestor exactly if it leaves all shared blocks alone. */
  lemma LowestIsShared(t: Tree, tip: Header, from: Header)
    requires WellFormed(t) && In(t, tip) && In(t, from) && Meet(t, tip, from).Some?
    ensures IsDifference(t, tip, from, Meet(t, tip, from).value) <==>
            ForkAt(t, tip, from) == Shared(Chain(t, tip), Chain(t, from))
  {
    var c, o := Chain(t, tip), Chain(t, from);
    MeetIsFork(t, tip, from);
    SharedParts(t, tip, from, ForkAt(t, tip, from));
    if PartAt(c, o, ForkAt(t, tip, from)) {
      PartsHighest(c, o, ForkAt(t, tip, from), Shared(c, o));
    }
  }

  /** And the walk finds the lowest common ancestor if and only if the first new block claims to be above it. */
  lemma FirstLinkDecidesFork(t: Tree, tip: Header, from: Header, cached: Tree, mainnet: bool)
    requires WellFormed(t) && In(t, tip) && In(t, from) && CacheOf(cached, t) && Contiguous(cached, Chain(t, from))
    requires Validated(t, tip, from, cached, mainnet) && Consecutive(Chain(t, from))
    ensures IsDifference(t, tip, from, Meet(t, tip, from).value) <==>
            FirstClaimsAbove(Chain(t, tip), Chain(t, from))
  {
    OnlyFirstUnchecked(t, tip, from, cached, mainnet);
    HeightsFromFirst(Chain(t, tip), Chain(t, from), mainnet);
    ClaimsDecideFork(t, tip, from);
  }

  /** Whatever the cache holds, consecutive heights are enough for the walk to find the lowest common ancestor. */
  lemma ConsecutiveFindsFork(t: Tree, tip: Header, from: Header)
    requires WellFormed(t) && In(t, tip) && In(t, from) && Meet(t, tip, from).Some?
    requires Consecutive(Chain(t, tip)) && Consecutive(Chain(t, from))
    ensures IsDifference(t, tip, from, Meet(t, tip, from).value)
  {
    var c, o := Chain(t, tip), Chain(t, from);
    MeetIsFork(t, tip, from);
    SharedParts(t, tip, from, |c| - |Meet(t, tip, from).value.connected|);
    MeetFinds(t, tip, from, Shared(c, o));
  }

  /** The next block to connect extends the stack by one. */
  lemma NextBlock(t: Tree, tip: Header, blocks: seq<Header>, header: Header)
    requires WellFormed(t) && In(t, tip) && |blocks| < |Chain(t, tip)| && On(blocks, Chain(t, tip))
    requires header == Chain(t, tip)[|blocks|]
    ensures On(blocks + [header], Chain(t, tip)) && In(t, header)
    ensures header.prev == blocks[|blocks| - 1].hash
  {
    ChainFacts(t, tip);
    assert blocks[|blocks| - 1] == Chain(t, tip)[|blocks| - 1];
    assert In(t, Chain(t, tip)[|blocks|]);
  }

  /** The cache holds tree headers only and, when `path` is set, is a contiguous path to the top of a stack of
      consecutive heights. */
  ghost predicate CacheState(t: Tree, headers: Tree, blocks: seq<Header>, path: bool)
    requires blocks != []
  {
    CacheOf(headers, t) && (path ==> Contiguous(headers, blocks) && Consecutive(blocks))
  }

  lemma CacheStateNext(t: Tree, tip: Header, headers: Tree, blocks: seq<Header>, header: Header, path: bool)
    requires WellFormed(t) && In(t, tip) && |blocks| < |Chain(t, tip)| && On(blocks, Chain(t, tip))
    requires header == Chain(t, tip)[|blocks|] && CacheState(t, headers, blocks, path)
    requires path ==> Consecutive(Chain(t, tip))
    ensures CacheState(t, KeepAbove(headers[header.hash := header], Cutoff(header.height)), blocks + [header], path)
  {
    ChainFacts(t, tip);
    assert forall i | 0 <= i < |blocks| :: blocks[i] == Chain(t, tip)[i];
    assert In(t, Chain(t, tip)[|blocks|]);
    if path {
      assert Consecutive(blocks + [header]);
      ContiguousConnect(headers, blocks, header);
    }
  }

  lemma PrefixOfChain(t: Tree, tip: Header, blocks: seq<Header>)
    requires WellFormed(t) && In(t, tip) && On(blocks, Chain(t, tip))
    ensures In(t, blocks[|blocks| - 1]) && Chain(t, blocks[|blocks| - 1]) == blocks
  {
    ChainOfMember(t, tip, |blocks| - 1);
  }

  lemma ForkPoint(t: Tree, tip: Header, from: Header)
    requires WellFormed(t) && In(t, tip) && In(t, from) && Meet(t, tip, from).Some?
    ensures var k, d := ForkAt(t, tip, from), Meet(t, tip, from).value;
            && On(Chain(t, from)[..k], Chain(t, tip))
            && d == Difference(Chain(t, from)[k - 1], Descending(Chain(t, tip), k))
            && (d.ancestor == from <==> k == |Chain(t, from)|)
  {
    MeetIsFork(t, tip, from);
    ChainFacts(t, from);
    var k := ForkAt(t, tip, from);
    assert Chain(t, tip)[..k][k - 1] == Chain(t, from)[..k][k - 1];
  }

  /** In a settled state a right first height makes all heights of a validated new chain consecutive. */
  lemma PathContinues(t: Tree, tip: Header, from: Header, cached: Tree, mainnet: bool, path: bool)
    requires WellFormed(t) && In(t, tip) && In(t, from) && Validated(t, tip, from, cached, mainnet)
    requires CacheState(t, cached, Chain(t, from), path)
    requires path ==> FirstHeightRight(Chain(t, tip), Chain(t, from))
    ensures path ==> Consecutive(Chain(t, tip))
  {
    if path {
      FirstLinkDecidesHeights(t, tip, from, cached, mainnet);
    }
  }

  /** A listener's best block, with the hashes of some of its recent ancestors, newest first. */
  datatype BlockLocator = BlockLocator(hash: Hash, height: nat, previous: seq<Option<Hash>>)

  /** The hashes to try in turn, each with its distance below the locator's block. */
  function Candidates(l: BlockLocator): seq<(nat, Hash)> {
    [(0, l.hash)] + Ancestors(l.previous, 1)
  }

  function Ancestors(previous: seq<Option<Hash>>, distance: nat): seq<(nat, Hash)> {
    if previous == [] then []
    else (if previous[0].Some? then [(distance, previous[0].value)] else []) + Ancestors(previous[1..], distance + 1)
  }

  ghost function NamedBy(l: BlockLocator): set<Hash> {
    set i | 0 <= i < |Candidates(l)| :: Candidates(l)[i].1
  }

  /** The locator names `from`, and those of its ancestor hashes that are known are ancestors of `from`. */
  ghost predicate LocatorFor(l: BlockLocator, from: Header, t: Tree)
    requires WellFormed(t) && In(t, from)
  {
    && l.hash == from.hash
    && (forall i | 0 <= i < |l.previous| && l.previous[i].Some? && l.previous[i].value in t ::
          t[l.previous[i].value] in Chain(t, from))
  }

  lemma {:induction false} AncestorsListed(previous: seq<Option<Hash>>, distance: nat, i: nat)
    requires i < |Ancestors(previous, distance)|
    ensures Some(Ancestors(previous, distance)[i].1) in previous
    decreases |previous|
  {
    var head := if previous[0].Some? then [(distance, previous[0].value)] else [];
    if i >= |head| {
      AncestorsListed(previous[1..], distance + 1, i - |head|);
    }
  }

  lemma {:induction false} AncestorAt(previous: seq<Option<Hash>>, distance: nat, i: nat)
    requires i < |Ancestors(previous, distance)|
    ensures var (d, hash) := Ancestors(previous, distance)[i];
            distance <= d < distance + |previous| && previous[d - distance] == Some(hash)
    ensures i > 0 ==> Ancestors(previous, distance)[i - 1].0 < Ancestors(previous, distance)[i].0
    decreases |previous|
  {
    var head := if previous[0].Some? then [(distance, previous[0].value)] else [];
    var rest := Ancestors(previous[1..], distance + 1);
    assert Ancestors(previous, distance) == head + rest;
    if i >= |head| {
      AncestorAt(previous[1..], distance + 1, i - |head|);
    }
  }

  lemma {:induction false} AncestorFound(previous: seq<Option<Hash>>, distance: nat, d: nat)
    requires d < |previous| && previous[d].Some?
    ensures (distance + d, previous[d].value) in Ancestors(previous, distance)
    decreases |previous|
  {
    if d > 0 {
      AncestorFound(previous[1..], distance + 1, d - 1);
    }
  }

  /** The candidates are the locator's own block and then, nearest first, exactly the ancestors it lists, each at the
      distance it is listed at. */
  lemma CandidatesExact(l: BlockLocator, d: nat, hash: Hash)
    ensures Candidates(l)[0] == (0, l.hash)
    ensures (d, hash) in Candidates(l) <==>
            if d == 0 then hash == l.hash else d <= |l.previous| && l.previous[d - 1] == Some(hash)
    ensures forall i | 0 < i < |Candidates(l)| :: Candidates(l)[i - 1].0 < Candidates(l)[i].0
  {
    var listed := Ancestors(l.previous, 1);
    forall i | 0 <= i < |listed|
      ensures 1 <= listed[i].0 <= |l.previous| && l.previous[listed[i].0 - 1] == Some(listed[i].1)
      ensures i > 0 ==> listed[i - 1].0 < listed[i].0
    {
      AncestorAt(l.previous, 1, i);
    }
    if 0 < d <= |l.previous| && l.previous[d - 1] == Some(hash) {
      AncestorFound(l.previous, 1, d - 1);
    }
  }

  lemma CandidateOnChain(l: BlockLocator, from: Header, t: Tree, i: nat)
    requires WellFormed(t) && In(t, from) && LocatorFor(l, from, t) && i < |Candidates(l)|
    ensures i == 0 ==> Candidates(l)[i] == (0, from.hash)
    ensures Candidates(l)[i].1 in t ==> t[Candidates(l)[i].1] in Chain(t, from)
  {
    if i > 0 {
      AncestorsListed(l.previous, 1, i - 1);
    }
  }

  lemma PrefixOfPrefix(c: seq<Header>, a: seq<Header>, o: seq<Header>, k: nat)
    requires k <= |c| && k <= |a| <= |o| && a == o[..|a|] && c[..k] == a[..k]
    ensures c[..k] == o[..k]
  {
    assert o[..|a|][..k] == o[..k];
  }

  lemma ForkFromAncestor(t: Tree, tip: Header, from: Header, ancestor: Header, d: Difference)
    requires WellFormed(t) && In(t, tip) && In(t, from) && In(t, ancestor) && ancestor in Chain(t, from)
    requires IsFork(t, tip, ancestor, d)
    ensures IsFork(t, tip, from, d)
  {
    var i :| 0 <= i < |Chain(t, from)| && Chain(t, from)[i] == ancestor;
    ChainOfMember(t, from, i);
    PrefixOfPrefix(Chain(t, tip), Chain(t, ancestor), Chain(t, from), |Chain(t, tip)| - |d.connected|);
  }

  /** The block at position `n`, which exists, is not among the given ones. */
  ghost predicate Stopped(c: seq<Header>, n: nat, answered: set<Hash>) {
    n < |c| && c[n].hash !in answered
  }

  /** If there is a block at position `barrier`, it cannot be fetched. */
  ghost predicate Barred(c: seq<Header>, barrier: nat, missing: set<Hash>) {
    barrier < |c| ==> c[barrier].hash in missing
  }

  ghost predicate Fetchable(blocks: seq<Header>, answered: set<Hash>) {
    forall h | h in blocks :: h.hash in answered
  }

  lemma FetchableGoesOn(c: seq<Header>, k: nat, n: nat, answered: set<Hash>)
    requires k <= n
    ensures Fetchable(Descending(c, k), answered) ==> !Stopped(c, n, answered)
  {
    if n < |c| {
      DescendingAt(c, k, |c| - 1 - n);
    }
  }

  lemma {:induction false} DescendingAt<T>(s: seq<T>, k: nat, i: nat)
    requires k <= |s| && i < |s| - k
    ensures Descending(s, k)[i] == s[|s| - 1 - i]
    decreases |s| - k
  {
    if i < |s| - k - 1 {
      DescendingAt(s, k + 1, i);
    }
  }

  /** The source answers enough to walk back to the fork point and fetch every block from there. */
  ghost predicate Answerable(
    t: Tree, cached: Tree, answered: set<Hash>, missing: set<Hash>, mainnet: bool, tip: Header, from: Header)
    requires WellFormed(t) && In(t, tip) && In(t, from) && CacheOf(cached, t)
  {
    var w := Walk(t, cached, answered, mainnet, tip, from);
    w.Some? && Fetchable(w.value.connected, answered - missing)
  }

  /** What is answerable without a cache is answerable with any. */
  lemma AnswerableCached(
    t: Tree, cached: Tree, answered: set<Hash>, missing: set<Hash>, mainnet: bool, tip: Header, from: Header)
    requires WellFormed(t) && In(t, tip) && In(t, from) && CacheOf(cached, t)
    requires Answerable(t, map[], answered, missing, mainnet, tip, from)
    ensures Answerable(t, cached, answered, missing, mainnet, tip, from)
  {
    CacheTransparent(t, map[], cached, answered, mainnet, tip, from);
  }

  /** The walk does not go below `from` if the chain to `tip` only adds to it. */
  ghost predicate KeepsOldTip(t: Tree, tip: Header, from: Header)
    requires WellFormed(t) && In(t, tip) && In(t, from)
  {
    Chain(t, from) <= Chain(t, tip) && Meet(t, tip, from).Some? ==> ForkAt(t, tip, from) == |Chain(t, from)|
  }

  /** The chain to `tip` only adds to `from`, and the blocks up to `from` can be fetched but not the next one. */
  ghost predicate StopsAtOldTip(
    t: Tree, cached: Tree, answered: set<Hash>, missing: set<Hash>, mainnet: bool, tip: Header, from: Header)
    requires WellFormed(t) && In(t, tip) && In(t, from) && CacheOf(cached, t)
  {
    var c, n := Chain(t, tip), |Chain(t, from)|;
    && Chain(t, from) < c && c[n].hash in missing
    && Walk(t, cached, answered, mainnet, tip, from).Some?
    && (forall a | 0 <= a < n :: c[a].hash in answered - missing)
  }

  /** The candidate is cached, or sure to be answered. */
  ghost predicate Known(l: BlockLocator, i: nat, t: Tree, cached: Tree, answered: set<Hash>)
    requires i < |Candidates(l)|
  {
    Candidates(l)[i].1 in cached || (Candidates(l)[i].1 in t && Candidates(l)[i].1 in answered)
  }

  /** The search comes to a candidate below height zero before any that is cached or in the tree. */
  ghost predicate TooDeep(l: BlockLocator, i: nat, t: Tree, cached: Tree) {
    && i < |Candidates(l)| && Candidates(l)[i].1 !in cached && Candidates(l)[i].0 > l.height
    && (forall j | 0 <= j < i :: Candidates(l)[j].1 !in cached && Candidates(l)[j].1 !in t)
  }

  /** The source is sure to know this candidate, and to answer the walk from it and from any it may answer before. */
  ghost predicate RecoverableAt(
    t: Tree, answered: set<Hash>, missing: set<Hash>, mainnet: bool, tip: Header, l: BlockLocator, i: nat)
    requires WellFormed(t) && In(t, tip)
  {
    && i < |Candidates(l)| && Candidates(l)[i].1 in t && Candidates(l)[i].1 in answered
    && (forall j | 0 <= j <= i :: Candidates(l)[j].0 <= l.height)
    && (forall j | 0 <= j <= i && Candidates(l)[j].1 in t ::
          Answerable(t, map[], answered, missing, mainnet, tip, t[Candidates(l)[j].1]))
  }

  ghost predicate Recoverable(
    t: Tree, answered: set<Hash>, missing: set<Hash>, mainnet: bool, tip: Header, l: BlockLocator)
    requires WellFormed(t) && In(t, tip)
  {
    exists i :: RecoverableAt(t, answered, missing, mainnet, tip, l, i)
  }

  /** The search does not go past a candidate that makes the locator recoverable, nor past the locator's own block if
      that is known. */
  lemma StartIsSure(
    t: Tree, cached: Tree, answered: set<Hash>, missing: set<Hash>, mainnet: bool, tip: Header, l: BlockLocator,
    at: nat)
    requires WellFormed(t) && In(t, tip) && at <= |Candidates(l)|
    requires forall j | 0 <= j < at :: !Known(l, j, t, cached, answered)
    ensures Recoverable(t, answered, missing, mainnet, tip, l) ==>
              && at < |Candidates(l)| && Candidates(l)[at].0 <= l.height
              && (Candidates(l)[at].1 in t ==>
                    Answerable(t, map[], answered, missing, mainnet, tip, t[Candidates(l)[at].1]))
    ensures l.hash in cached || (l.hash in t && l.hash in answered) ==> at == 0 && Candidates(l)[0].1 == l.hash
  {
    CandidatesExact(l, 0, l.hash);
    if i: nat :| RecoverableAt(t, answered, missing, mainnet, tip, l, i) {
      assert Known(l, i, t, cached, answered);
    }
    if l.hash in cached || (l.hash in t && l.hash in answered) {
      assert Known(l, 0, t, cached, answered);
    }
  }

  /** In a chain all of whose links hold, heights count up from the first block. */
  ghost predicate AllLinksHold(c: seq<Header>, mainnet: bool) {
    forall a {:trigger LinkHolds(c, a, mainnet)} | 0 < a < |c| :: LinkHolds(c, a, mainnet)
  }

  lemma {:induction false} HeightsCountUp(c: seq<Header>, a: nat, mainnet: bool)
    requires a < |c| && AllLinksHold(c, mainnet)
    ensures c[a].height == c[0].height + a
    decreases a
  {
    if a > 0 {
      HeightsCountUp(c, a - 1, mainnet);
      assert LinkHolds(c, a, mainnet);
    }
  }

  lemma AllLinksHoldPrefix(c: seq<Header>, n: nat, mainnet: bool)
    requires n <= |c| && AllLinksHold(c, mainnet)
    ensures AllLinksHold(c[..n], mainnet)
  {
    forall a | 0 < a < n ensures LinkHolds(c[..n], a, mainnet) {
      assert LinkHolds(c, a, mainnet);
    }
  }

  /** What an honest source that answers for a whole chain does to one header of it. */
  lemma ParentAnswered(t: Tree, answered: set<Hash>, mainnet: bool, h: Header)
    requires WellFormed(t) && In(t, h) && AllLinksHold(Chain(t, h), mainnet) && Fetchable(Chain(t, h), answered)
    requires |Chain(t, h)| > 1
    ensures h.prev in t && Parent(t, map[], answered, mainnet, h) == Some(t[h.prev])
    ensures AllLinksHold(Chain(t, t[h.prev]), mainnet) && Fetchable(Chain(t, t[h.prev]), answered)
    ensures Chain(t, t[h.prev])[0] == Chain(t, h)[0]
  {
    var c := Chain(t, h);
    var n := |c| - 1;
    assert LinkHolds(c, n, mainnet);
    SteppedChain(t, h, t[h.prev]);
    AllLinksHoldPrefix(c, n, mainnet);
    assert c[n - 1] == Chain(t, t[h.prev])[n - 1] == t[h.prev];
  }

  /** A source whose links all hold, and that answers for both chains, lets the walk succeed. */
  lemma {:induction false} HonestWalk(t: Tree, answered: set<Hash>, mainnet: bool, cur: Header, prev: Header)
    requires WellFormed(t) && In(t, cur) && In(t, prev) && Chain(t, cur)[0] == Chain(t, prev)[0]
    requires AllLinksHold(Chain(t, cur), mainnet) && Fetchable(Chain(t, cur), answered)
    requires AllLinksHold(Chain(t, prev), mainnet) && Fetchable(Chain(t, prev), answered)
    ensures Walk(t, map[], answered, mainnet, cur, prev).Some?
    decreases cur.hash.depth + prev.hash.depth
  {
    if cur.hash != prev.hash {
      HeightsCountUp(Chain(t, cur), |Chain(t, cur)| - 1, mainnet);
      HeightsCountUp(Chain(t, prev), |Chain(t, prev)| - 1, mainnet);
      var cur1, prev1 := cur, prev;
      if cur.height >= prev.height {
        ParentAnswered(t, answered, mainnet, cur);
        cur1 := t[cur.prev];
      }
      if cur.height <= prev.height {
        ParentAnswered(t, answered, mainnet, prev);
        prev1 := t[prev.prev];
      }
      HonestWalk(t, answered, mainnet, cur1, prev1);
    }
  }

  /** If it also has all the blocks, a sync between the chains is sure to succeed. */
  lemma HonestIsAnswerable(t: Tree, answered: set<Hash>, missing: set<Hash>, mainnet: bool, tip: Header, from: Header)
    requires WellFormed(t) && In(t, tip) && In(t, from) && Chain(t, tip)[0] == Chain(t, from)[0]
    requires AllLinksHold(Chain(t, tip), mainnet) && Fetchable(Chain(t, tip), answered - missing)
    requires AllLinksHold(Chain(t, from), mainnet) && Fetchable(Chain(t, from), answered)
    ensures Answerable(t, map[], answered, missing, mainnet, tip, from)
  {
    HonestWalk(t, answered, mainnet, tip, from);
    CacheTransparent(t, map[], t, answered, mainnet, tip, from);
    WalkCollectsChain(t, answered, mainnet, tip, from);
  }

  lemma {:induction false} WalkCollectsChain(t: Tree, answered: set<Hash>, mainnet: bool, cur: Header, prev: Header)
    requires WellFormed(t) && In(t, cur) && In(t, prev) && Walk(t, map[], answered, mainnet, cur, prev).Some?
    ensures forall h | h in Walk(t, map[], answered, mainnet, cur, prev).value.connected :: h in Chain(t, cur)
    decreases cur.hash.depth + prev.hash.depth
  {
    if cur.hash != prev.hash {
      var cur1 := if cur.height >= prev.height then t[cur.prev] else cur;
      var prev1 := if cur.height <= prev.height then t[prev.prev] else prev;
      WalkCollectsChain(t, answered, mainnet, cur1, prev1);
      SteppedChain(t, cur, cur1);
      assert forall h | h in Chain(t, cur1) :: h in Chain(t, cur);
    }
  }

  lemma DifferenceFacts(t: Tree, tip: Header, from: Header, cached: Tree, mainnet: bool)
    requires WellFormed(t) && In(t, tip) && In(t, from) && Validated(t, tip, from, cached, mainnet)
    ensures IsFork(t, tip, from, Meet(t, tip, from).value)
    ensures var c, k := Chain(t, tip), ForkAt(t, tip, from);
            tip.chainwork == Meet(t, tip, from).value.ancestor.chainwork + TotalWork(c[k..]) + Unbacked(c, k, cached)
    ensures Consecutive(Chain(t, tip)) && Consecutive(Chain(t, from)) ==>
              IsDifference(t, tip, from, Meet(t, tip, from).value)
    ensures mainnet ==> DifficultyKept(Chain(t, tip), ForkAt(t, tip, from), cached)
  {
    if mainnet {
      CheckedKeepsDifficulty(Chain(t, tip), ForkAt(t, tip, from), cached);
    }
    MeetIsFork(t, tip, from);
    ChainworkTelescopes(Chain(t, tip), ForkAt(t, tip, from), cached, mainnet);
    if Consecutive(Chain(t, tip)) && Consecutive(Chain(t, from)) {
      ConsecutiveFindsFork(t, tip, from);
    }
  }

  /** Walks a listener from one header to another. */
  class ChainNotifier {
    const cache: HeaderCache
    const listener: Listener

    constructor (cache: HeaderCache, listener: Listener)
      ensures this.cache == cache && this.listener == listener
    {
      this.cache, this.listener := cache, listener;
    }

    method LookUpPreviousHeader(poller: ChainPoller, h: Header) returns (r: Result<Header>)
      requires CacheOf(cache.headers, poller.tree)
      ensures r.Ok? ==> h.prev in poller.tree && r.value == poller.tree[h.prev]
      ensures r.Ok? && h.prev !in cache.headers ==> BuildsOn(h, r.value, poller.mainnet)
      ensures Parent(poller.tree, cache.headers, poller.reliable, poller.mainnet, h).Some? ==> r.Ok?
    {
      match cache.LookUp(h.prev) {
        case Some(p) => return Ok(p);
        case None => r := poller.LookUpPreviousHeader(h);
      }
    }

    /** One round of the search: replaces the higher of two headers by its parent, or both at equal heights. */
    method StepBack(current: Header, previous: Header, poller: ChainPoller) returns (r: Result<(Header, Header)>)
      requires WellFormed(poller.tree) && In(poller.tree, current) && In(poller.tree, previous)
      requires CacheOf(cache.headers, poller.tree)
      ensures r.Ok? ==> SteppedBack(poller.tree, current, previous, r.value.0, r.value.1)
      ensures r.Ok? && r.value.0 != current && current.prev !in cache.headers ==>
                BuildsOn(current, r.value.0, poller.mainnet)
      ensures r.Err? ==>
                current.hash == previous.hash
                || Walk(poller.tree, cache.headers, poller.reliable, poller.mainnet, current, previous).None?
    {
      var current1, previous1 := current, previous;
      if current.height <= previous.height {
        var p := LookUpPreviousHeader(poller, previous);
        if p.Err? {
          return Err;
        }
        previous1 := p.value;
      }
      if current.height >= previous.height {
        var p := LookUpPreviousHeader(poller, current);
        if p.Err? {
          return Err;
        }
        current1 := p.value;
      }
      return Ok((current1, previous1));
    }

    /** Finds a common block and the path to connect: where `Meet` leads, whatever heights are claimed. Links whose
        parent was not cached were checked, so the tip's chainwork is the common block's, the work of the path, and
        what the unchecked links claim on top. Succeeds whenever `Walk` does on the answers it is sure to get. */
    method FindDifferenceFromHeader(tip: Header, from: Header, poller: ChainPoller) returns (r: Result<Difference>)
      requires WellFormed(poller.tree) && In(poller.tree, tip) && In(poller.tree, from)
      requires CacheOf(cache.headers, poller.tree)
      ensures r.Ok? ==> Meet(poller.tree, tip, from) == Some(r.value) && IsFork(poller.tree, tip, from, r.value)
      ensures r.Ok? ==> Validated(poller.tree, tip, from, cache.headers, poller.mainnet)
      ensures r.Ok? ==>
                var c, k := Chain(poller.tree, tip), ForkAt(poller.tree, tip, from);
                tip.chainwork == r.value.ancestor.chainwork + TotalWork(c[k..]) + Unbacked(c, k, cache.headers)
      ensures r.Ok? && Consecutive(Chain(poller.tree, tip)) && Consecutive(Chain(poller.tree, from)) ==>
                IsDifference(poller.tree, tip, from, r.value)
      ensures r.Ok? && poller.mainnet ==>
                DifficultyKept(Chain(poller.tree, tip), ForkAt(poller.tree, tip, from), cache.headers)
      ensures Walk(poller.tree, cache.headers, poller.reliable, poller.mainnet, tip, from).Some? ==>
                r == Ok(Walk(poller.tree, cache.headers, poller.reliable, poller.mainnet, tip, from).value)
    {
      ghost var t, cached, mainnet := poller.tree, cache.headers, poller.mainnet;
      var connected: seq<Header> := [];
      var current, previous := tip, from;
      SearchStart(t, tip, from, cached, poller.reliable, mainnet);
      while current.hash != previous.hash
        invariant In(t, current) && In(t, previous)
        invariant Searching(t, tip, from, cached, poller.reliable, mainnet, current, previous, connected)
        decreases current.hash.depth + previous.hash.depth
      {
        var step := StepBack(current, previous, poller);
        if step.Err? {
          return Err;
        }
        var (current1, previous1) := step.value;
        SearchStep(t, tip, from, cached, poller.reliable, mainnet, current, previous, connected, current1, previous1);
        if current.height >= previous.height {
          connected := connected + [current];
        }
        current, previous := current1, previous1;
      }
      r := Ok(Difference(current, connected));
      SearchDone(t, tip, from, cached, poller.reliable, mainnet, current, connected);
      DifferenceFacts(t, tip, from, cached, mainnet);
    }

    /** The first candidate that is cached or answered, and remembered. None if none is, or if one would lie below
        height zero. */
    method FindStart(locator: BlockLocator, poller: ChainPoller, ghost from: Header)
      returns (found: Option<Header>, ghost at: nat)
      requires WellFormed(poller.tree) && In(poller.tree, from)
      requires LocatorFor(locator, from, poller.tree) && CacheOf(cache.headers, poller.tree)
      modifies cache`headers
      ensures CacheOf(cache.headers, poller.tree)
      ensures cache.headers.Keys <= old(cache.headers).Keys + NamedBy(locator)
      ensures at <= |Candidates(locator)|
      ensures forall j | 0 <= j < at :: !Known(locator, j, poller.tree, old(cache.headers), poller.reliable)
      ensures forall j | 0 <= j < at :: Candidates(locator)[j].0 <= locator.height
      ensures found.Some? ==>
                && at < |Candidates(locator)| && Candidates(locator)[at].1 in poller.tree
                && found.value == poller.tree[Candidates(locator)[at].1] && found.value in Chain(poller.tree, from)
                && (Candidates(locator)[at].0 <= locator.height || Candidates(locator)[at].1 in old(cache.headers))
      ensures found.None? && at < |Candidates(locator)| ==>
                Candidates(locator)[at].0 > locator.height && Candidates(locator)[at].1 !in old(cache.headers)
    {
      var candidates := Candidates(locator);
      var i := 0;
      at := 0;
      while i < |candidates|
        invariant 0 <= i == at <= |candidates| && cache.headers == old(cache.headers)
        invariant forall j | 0 <= j < i :: !Known(locator, j, poller.tree, old(cache.headers), poller.reliable)
        invariant forall j | 0 <= j < i :: Candidates(locator)[j].0 <= locator.height
      {
        var (heightDiff, hash) := candidates[i];
        CandidateOnChain(locator, from, poller.tree, i);
        assert hash in NamedBy(locator);
        match cache.LookUp(hash) {
          case Some(header) =>
            return Some(header), at;
          case None =>
            if heightDiff > locator.height {
              return None, at;
            }
            var header := poller.GetHeader(hash);
            if header.Ok? {
              cache.InsertDuringDiff(hash, header.value);
              return Some(header.value), at;
            }
        }
        i, at := i + 1, at + 1;
      }
      return None, at;
    }

    /** Like `FindDifferenceFromHeader`, from a listener's locator: its block if that can be resolved, else the
        first of its recent ancestors that can, which is candidate `at`. */
    method FindDifferenceFromBestBlock(tip: Header, locator: BlockLocator, poller: ChainPoller, ghost from: Header)
      returns (r: Result<Difference>, ghost at: nat)
      requires WellFormed(poller.tree) && In(poller.tree, tip) && In(poller.tree, from)
      requires LocatorFor(locator, from, poller.tree) && CacheOf(cache.headers, poller.tree)
      modifies cache`headers
      ensures CacheOf(cache.headers, poller.tree)
      ensures cache.headers.Keys <= old(cache.headers).Keys + NamedBy(locator)
      ensures r.Ok? ==> IsFork(poller.tree, tip, from, r.value)
      ensures r.Ok? ==>
                Checked(Chain(poller.tree, tip), |Chain(poller.tree, tip)| - |r.value.connected|, cache.headers,
                        poller.mainnet)
      ensures r.Ok? ==>
                && at < |Candidates(locator)| && Candidates(locator)[at].1 in poller.tree
                && Meet(poller.tree, tip, poller.tree[Candidates(locator)[at].1]) == Some(r.value)
                && (forall j | 0 <= j < at :: !Known(locator, j, poller.tree, old(cache.headers), poller.reliable))
      ensures r.Ok? && (locator.hash in old(cache.headers) || locator.hash in poller.reliable) ==>
                Meet(poller.tree, tip, from) == Some(r.value)
      ensures Recoverable(poller.tree, poller.reliable, poller.missing, poller.mainnet, tip, locator) ==>
                r.Ok? && Fetchable(r.value.connected, poller.reliable - poller.missing)
      ensures (exists i :: TooDeep(locator, i, poller.tree, old(cache.headers))) ==> r.Err?
    {
      var found;
      ghost var cached := cache.headers;
      found, at := FindStart(locator, poller, from);
      StartIsSure(poller.tree, cached, poller.reliable, poller.missing, poller.mainnet, tip, locator, at);
      if found.None? {
        r := Err;
        return;
      }
      var start := found.value;
      assert forall i :: !TooDeep(locator, i, poller.tree, cached);
      if Answerable(poller.tree, map[], poller.reliable, poller.missing, poller.mainnet, tip, start) {
        AnswerableCached(poller.tree, cache.headers, poller.reliable, poller.missing, poller.mainnet, tip, start);
      }
      r := FindDifferenceFromHeader(tip, start, poller);
      if r.Ok? {
        ForkFromAncestor(poller.tree, tip, from, start, r.value);
      }
    }

    /** Takes the listener back to its fork point with the chain to `tip`. */
    method DisconnectBlocks(forkPoint: Header, ghost t: Tree, ghost from: Header, ghost k: nat, ghost path: bool)
      requires WellFormed(t) && In(t, from) && listener.blocks == Chain(t, from)
      requires 0 < k < |listener.blocks| && forkPoint == listener.blocks[k - 1]
      requires CacheState(t, cache.headers, listener.blocks, path) && (path ==> !cache.retainOnDisconnect)
      modifies cache`headers, listener
      ensures listener.blocks == old(listener.blocks)[..k]
      ensures listener.notifications == old(listener.notifications) + 1
      ensures CacheState(t, cache.headers, listener.blocks, path) && cache.headers.Keys <= old(cache.headers).Keys
    {
      ChainFacts(t, from);
      UpToPrefix(listener.blocks, k);
      if path {
        ContiguousDisconnect(cache.headers, listener.blocks, k);
      }
      cache.BlocksDisconnected(forkPoint);
      listener.BlocksDisconnected(forkPoint.hash, forkPoint.height);
    }

    /** Fetches and connects the next block of the chain to `tip`. */
    method ConnectNext(header: Header, poller: ChainPoller, ghost tip: Header, ghost path: bool) returns (ok: bool)
      requires WellFormed(poller.tree) && In(poller.tree, tip)
      requires |listener.blocks| < |Chain(poller.tree, tip)| && On(listener.blocks, Chain(poller.tree, tip))
      requires header == Chain(poller.tree, tip)[|listener.blocks|]
      requires CacheState(poller.tree, cache.headers, listener.blocks, path)
      requires path ==> Consecutive(Chain(poller.tree, tip))
      modifies cache`headers, listener
      ensures !ok ==> listener.blocks == old(listener.blocks) && listener.notifications == old(listener.notifications)
      ensures header.hash in poller.reliable - poller.missing ==> ok
      ensures header.hash in poller.missing ==> !ok
      ensures ok ==> listener.blocks == old(listener.blocks) + [header]
      ensures ok ==> listener.notifications == old(listener.notifications) + 1
      ensures On(listener.blocks, Chain(poller.tree, tip))
      ensures CacheState(poller.tree, cache.headers, listener.blocks, path)
    {
      NextBlock(poller.tree, tip, listener.blocks, header);
      CacheStateNext(poller.tree, tip, cache.headers, listener.blocks, header, path);
      var block := poller.FetchBlock(header);
      if block.Err? {
        return false;
      }
      listener.Connect(block.value, header.height);
      cache.BlockConnected(header.hash, header);
      return true;
    }

    /** Connects blocks until the first one that cannot be fetched, which is none of those sure to be answered. */
    method ConnectBlocks(
      forkPoint: Header, connectedBlocks: seq<Header>, poller: ChainPoller, ghost tip: Header, ghost path: bool,
      ghost barrier: nat)
      returns (r: SyncResult)
      requires WellFormed(poller.tree) && In(poller.tree, tip)
      requires On(listener.blocks, Chain(poller.tree, tip))
      requires connectedBlocks == Descending(Chain(poller.tree, tip), |listener.blocks|)
      requires forkPoint == listener.blocks[|listener.blocks| - 1]
      requires |listener.blocks| <= barrier && Barred(Chain(poller.tree, tip), barrier, poller.missing)
      requires CacheState(poller.tree, cache.headers, listener.blocks, path)
      requires path ==> Consecutive(Chain(poller.tree, tip))
      modifies cache`headers, listener
      ensures |old(listener.blocks)| <= |listener.blocks| && On(listener.blocks, Chain(poller.tree, tip))
      ensures listener.notifications == old(listener.notifications) + |listener.blocks| - |old(listener.blocks)|
      ensures r.Synced? ==> listener.blocks == Chain(poller.tree, tip)
      ensures r.Failed? ==>
                r.reached == Some(listener.blocks[|listener.blocks| - 1])
                && Stopped(Chain(poller.tree, tip), |listener.blocks|, poller.reliable - poller.missing)
      ensures |listener.blocks| <= barrier
      ensures CacheState(poller.tree, cache.headers, listener.blocks, path)
    {
      ghost var c := Chain(poller.tree, tip);
      var newTip, i := forkPoint, |connectedBlocks|;
      while i > 0
        invariant 0 <= i <= |connectedBlocks|
        invariant i == |c| - |listener.blocks|
        invariant |old(listener.blocks)| <= |listener.blocks| && On(listener.blocks, c)
        invariant newTip == listener.blocks[|listener.blocks| - 1]
        invariant listener.notifications == old(listener.notifications) + |listener.blocks| - |old(listener.blocks)|
        invariant |listener.blocks| <= barrier
        invariant CacheState(poller.tree, cache.headers, listener.blocks, path)
      {
        i := i - 1;
        var header := connectedBlocks[i];
        DescendingAt(c, |c| - |connectedBlocks|, i);
        var ok := ConnectNext(header, poller, tip, path);
        if !ok {
          return Failed(Some(newTip));
        }
        newTip := header;
      }
      return Synced;
    }

    /** Disconnects to the fork point if there is anything to disconnect, then connects. */
    method ApplyDifference(
      d: Difference, from: Header, poller: ChainPoller, ghost tip: Header, ghost k: nat, ghost path: bool,
      ghost barrier: nat)
      returns (r: SyncResult)
      requires WellFormed(poller.tree) && In(poller.tree, tip) && In(poller.tree, from)
      requires listener.blocks == Chain(poller.tree, from) && 0 < k <= |listener.blocks|
      requires On(listener.blocks[..k], Chain(poller.tree, tip))
      requires d == Difference(listener.blocks[k - 1], Descending(Chain(poller.tree, tip), k))
      requires d.ancestor == from <==> k == |listener.blocks|
      requires CacheState(poller.tree, cache.headers, listener.blocks, path) && (path ==> !cache.retainOnDisconnect)
      requires path ==> Consecutive(Chain(poller.tree, tip))
      requires k <= barrier && Barred(Chain(poller.tree, tip), barrier, poller.missing)
      modifies cache`headers, listener
      ensures listener.blocks != [] && CacheState(poller.tree, cache.headers, listener.blocks, path)
      ensures |listener.blocks| >= k && On(listener.blocks, Chain(poller.tree, tip))
      ensures r.Synced? ==> listener.blocks == Chain(poller.tree, tip)
      ensures r.Failed? ==>
                r.reached == Some(listener.blocks[|listener.blocks| - 1])
                && Stopped(Chain(poller.tree, tip), |listener.blocks|, poller.reliable - poller.missing)
      ensures |listener.blocks| <= barrier
      ensures listener.notifications == old(listener.notifications)
                                        + (if k < |old(listener.blocks)| then 1 else 0) + |listener.blocks| - k
    {
      if d.ancestor != from {
        DisconnectBlocks(d.ancestor, poller.tree, from, k, path);
      } else {
        assert listener.blocks[..k] == listener.blocks;
      }
      r := ConnectBlocks(d.ancestor, d.connected, poller, tip, path, barrier);
    }

    /** Moves the listener from `from` to `tip`. On failure reports where it ended up, or `None` if no valid
        transition was found and nothing was done. */
    method SynchronizeListener(tip: Header, from: Header, poller: ChainPoller, ghost path: bool, ghost barrier: nat)
      returns (r: SyncResult)
      requires WellFormed(poller.tree) && In(poller.tree, tip) && In(poller.tree, from)
      requires listener.blocks == Chain(poller.tree, from)
      requires CacheState(poller.tree, cache.headers, listener.blocks, path) && (path ==> !cache.retainOnDisconnect)
      requires path ==> FirstHeightRight(Chain(poller.tree, tip), Chain(poller.tree, from))
      requires |Chain(poller.tree, from)| <= barrier && Barred(Chain(poller.tree, tip), barrier, poller.missing)
      modifies cache`headers, listener
      ensures listener.blocks != [] && CacheState(poller.tree, cache.headers, listener.blocks, path)
      ensures r == Failed(None) ==>
                listener.blocks == old(listener.blocks) && listener.notifications == old(listener.notifications)
      ensures r != Failed(None) ==> Validated(poller.tree, tip, from, old(cache.headers), poller.mainnet)
      ensures r != Failed(None) ==>
                var k := ForkAt(poller.tree, tip, from);
                && |listener.blocks| >= k && On(listener.blocks, Chain(poller.tree, tip))
                && |listener.blocks| <= barrier
                && listener.notifications
                   == old(listener.notifications) + Heard(k, |Chain(poller.tree, from)|, |listener.blocks|)
      ensures r.Synced? ==> listener.blocks == Chain(poller.tree, tip)
      ensures r.Failed? && r.reached.Some? ==>
                r.reached.value == listener.blocks[|listener.blocks| - 1]
                && Stopped(Chain(poller.tree, tip), |listener.blocks|, poller.reliable - poller.missing)
      ensures Answerable(
                poller.tree, old(cache.headers), poller.reliable, poller.missing, poller.mainnet, tip, from) ==>
                r.Synced?
      ensures Walk(poller.tree, old(cache.headers), poller.reliable, poller.mainnet, tip, from).Some? ==>
                r != Failed(None)
    {
      var difference := FindDifferenceFromHeader(tip, from, poller);
      if difference.Err? {
        return Failed(None);
      }
      r := FollowDifference(difference.value, tip, from, poller, path, barrier);
    }

    /** Moves the listener along a difference that the walk has found. */
    method FollowDifference(
      d: Difference, tip: Header, from: Header, poller: ChainPoller, ghost path: bool, ghost barrier: nat)
      returns (r: SyncResult)
      requires WellFormed(poller.tree) && In(poller.tree, tip) && In(poller.tree, from)
      requires Meet(poller.tree, tip, from) == Some(d)
      requires Validated(poller.tree, tip, from, cache.headers, poller.mainnet)
      requires listener.blocks == Chain(poller.tree, from)
      requires CacheState(poller.tree, cache.headers, listener.blocks, path) && (path ==> !cache.retainOnDisconnect)
      requires path ==> FirstHeightRight(Chain(poller.tree, tip), Chain(poller.tree, from))
      requires |Chain(poller.tree, from)| <= barrier && Barred(Chain(poller.tree, tip), barrier, poller.missing)
      modifies cache`headers, listener
      ensures listener.blocks != [] && CacheState(poller.tree, cache.headers, listener.blocks, path)
      ensures ForkAt(poller.tree, tip, from) <= |listener.blocks| <= barrier
      ensures On(listener.blocks, Chain(poller.tree, tip))
      ensures listener.notifications
              == old(listener.notifications)
                 + Heard(ForkAt(poller.tree, tip, from), |Chain(poller.tree, from)|, |listener.blocks|)
      ensures r.Synced? ==> listener.blocks == Chain(poller.tree, tip)
      ensures r.Failed? ==>
                r.reached == Some(listener.blocks[|listener.blocks| - 1])
                && Stopped(Chain(poller.tree, tip), |listener.blocks|, poller.reliable - poller.missing)
      ensures Fetchable(d.connected, poller.reliable - poller.missing) ==> r.Synced?
    {
      ghost var k := ForkAt(poller.tree, tip, from);
      ForkPoint(poller.tree, tip, from);
      PathContinues(poller.tree, tip, from, cache.headers, poller.mainnet, path);
      r := ApplyDifference(d, from, poller, tip, k, path, barrier);
      FetchableGoesOn(Chain(poller.tree, tip), k, |listener.blocks|, poller.reliable - poller.missing);
    }
  }

  /** How many notifications take a listener with `n` blocks down to `k`, if there is anything to take, and up to
      `m`. */
  ghost function Heard(k: int, n: int, m: int): int {
    (if k < n then 1 else 0) + m - k
  }

  /** A listener that a sync left where it was has heard nothing, unless the walk went below its tip. */
  lemma MovedOrSilent(t: Tree, tip: Header, from: Header, blocks: seq<Header>)
    requires WellFormed(t) && In(t, tip) && In(t, from) && Meet(t, tip, from).Some?
    requires On(blocks, Chain(t, tip)) && |blocks| >= ForkAt(t, tip, from)
    ensures var heard := Heard(ForkAt(t, tip, from), |Chain(t, from)|, |blocks|);
            && (blocks != Chain(t, from) ==> heard > 0)
            && (blocks == Chain(t, from) && KeepsOldTip(t, tip, from) ==> heard == 0)
            && (!KeepsOldTip(t, tip, from) ==> heard > 0)
  {
    MeetIsFork(t, tip, from);
    var c, o := Chain(t, tip), Chain(t, from);
    assert c[..|c|] == c && o[..|o|] == o;
  }

  /** For a chain that only adds to the old tip, the walk keeps to the old tip, so that the flag tells of every
      notification, if and only if all new blocks claim to be above it. */
  lemma ClaimsDecideFlag(t: Tree, tip: Header, from: Header)
    requires WellFormed(t) && In(t, tip) && In(t, from) && Meet(t, tip, from).Some? && Chain(t, from) < Chain(t, tip)
    ensures KeepsOldTip(t, tip, from) <==> ClaimsAbove(Chain(t, tip), |Chain(t, from)|)
  {
    var c, o := Chain(t, tip), Chain(t, from);
    assert c[..|o|] == o[..|o|] == o;
    SharedLongest(c, o, |o|);
    ClaimsDecideFork(t, tip, from);
    LowestIsShared(t, tip, from);
  }

  /** With the blocks up to the old tip at hand and the next one out of reach, a listener ends where it was. */
  lemma BackToOldTip(t: Tree, cached: Tree, answered: set<Hash>, missing: set<Hash>, mainnet: bool,
                     tip: Header, from: Header, blocks: seq<Header>)
    requires WellFormed(t) && In(t, tip) && In(t, from) && CacheOf(cached, t)
    requires StopsAtOldTip(t, cached, answered, missing, mainnet, tip, from)
    requires On(blocks, Chain(t, tip)) && |blocks| <= |Chain(t, from)|
    requires blocks == Chain(t, tip) || Stopped(Chain(t, tip), |blocks|, answered - missing)
    ensures blocks == Chain(t, from)
  {
    assert |blocks| == |Chain(t, from)|;
  }

  /** Where the listener is after a sync that found a transition, and whether it heard of anything. */
  lemma Arrived(t: Tree, cached: Tree, answered: set<Hash>, missing: set<Hash>, mainnet: bool,
                tip: Header, from: Header, blocks: seq<Header>)
    requires WellFormed(t) && In(t, tip) && In(t, from) && CacheOf(cached, t) && Meet(t, tip, from).Some?
    requires On(blocks, Chain(t, tip)) && |blocks| >= ForkAt(t, tip, from)
    requires blocks == Chain(t, tip) || Stopped(Chain(t, tip), |blocks|, answered - missing)
    ensures In(t, blocks[|blocks| - 1]) && Chain(t, blocks[|blocks| - 1]) == blocks
    ensures var heard := Heard(ForkAt(t, tip, from), |Chain(t, from)|, |blocks|);
            && (blocks != Chain(t, from) ==> heard > 0)
            && (blocks == Chain(t, from) && KeepsOldTip(t, tip, from) ==> heard == 0)
            && (!KeepsOldTip(t, tip, from) ==> heard > 0)
    ensures StopsAtOldTip(t, cached, answered, missing, mainnet, tip, from) && |blocks| <= |Chain(t, from)| ==>
              blocks == Chain(t, from)
  {
    PrefixOfChain(t, tip, blocks);
    MovedOrSilent(t, tip, from, blocks);
    if StopsAtOldTip(t, cached, answered, missing, mainnet, tip, from) && |blocks| <= |Chain(t, from)| {
      BackToOldTip(t, cached, answered, missing, mainnet, tip, from, blocks);
    }
  }

  /** The first block that only `c` has decides whether its heights are consecutive and its chainwork is backed. */
  ghost predicate DecidedByFirst(c: seq<Header>, o: seq<Header>)
    requires c != []
  {
    && (Consecutive(c) <==> FirstHeightRight(c, o))
    && (WorkBacked(c, o) <==> FirstWorkRight(c, o))
  }

  /** What a validated transition is decided by: by the links with a cached parent, and in a settled client by the first
      link alone. */
  lemma TransitionDecided(t: Tree, tip: Header, from: Header, cached: Tree, mainnet: bool, settled: bool)
    requires WellFormed(t) && In(t, tip) && In(t, from) && CacheOf(cached, t)
    requires Validated(t, tip, from, cached, mainnet)
    requires settled ==> Contiguous(cached, Chain(t, from)) && Consecutive(Chain(t, from))
    ensures 0 < Shared(Chain(t, tip), Chain(t, from)) && DecidedByCached(Chain(t, tip), Chain(t, from), cached)
    ensures settled ==> DecidedByFirst(Chain(t, tip), Chain(t, from))
  {
    CachedLinksDecide(t, tip, from, cached, mainnet);
    if settled {
      FirstLinkDecidesHeights(t, tip, from, cached, mainnet);
      FirstLinkDecidesWork(t, tip, from, cached, mainnet);
    }
  }

  /** The polling client. */
  class Client {
    var chainTip: Header
    const poller: ChainPoller
    const cache: HeaderCache
    const listener: Listener

    /** The listener's stack is the chain ending at `chainTip`, and the cache holds headers of the source only. */
    ghost predicate Valid()
      reads this, cache, listener
    {
      && WellFormed(poller.tree) && In(poller.tree, chainTip)
      && CacheOf(cache.headers, poller.tree)
      && listener.blocks == Chain(poller.tree, chainTip)
    }

    /** The claimed heights are consecutive and the cache is a contiguous path to the tip. */
    ghost predicate Settled()
      reads this, cache, listener
    {
      && listener.blocks != [] && !cache.retainOnDisconnect
      && Contiguous(cache.headers, listener.blocks) && Consecutive(listener.blocks)
    }

    constructor (chainTip: Header, poller: ChainPoller, cache: HeaderCache, listener: Listener)
      requires WellFormed(poller.tree) && In(poller.tree, chainTip) && CacheOf(cache.headers, poller.tree)
      requires listener.blocks == Chain(poller.tree, chainTip)
      ensures Valid() && this.chainTip == chainTip
      ensures this.poller == poller && this.cache == cache && this.listener == listener
      ensures cache.headers == map[] && !cache.retainOnDisconnect && Consecutive(listener.blocks) ==> Settled()
    {
      assert cache.headers == map[] ==> HoldsNewest(cache.headers, listener.blocks, 0);
      this.chainTip, this.poller, this.cache, this.listener := chainTip, poller, cache, listener;
    }

    /** The flag says whether the tip moved. It also says whether the listener was notified, unless the walk went below
        the old tip though the new chain only adds to it. The links with a cached parent decide whether the new
        chainwork is backed by work and the new heights are consecutive. From consecutive heights with a path for a
        cache that is the first new link alone, and the state stays such a one if its height is right. */
    method UpdateChainTip(best: Header) returns (changed: bool)
      requires Valid() && In(poller.tree, best) && best.hash != chainTip.hash
      modifies this`chainTip, cache`headers, listener
      ensures Valid()
      ensures changed <==> chainTip != old(chainTip)
      ensures changed ==> listener.notifications > old(listener.notifications)
      ensures KeepsOldTip(poller.tree, best, old(chainTip)) ==>
                (changed <==> listener.notifications != old(listener.notifications))
      ensures !KeepsOldTip(poller.tree, best, old(chainTip))
              && StopsAtOldTip(poller.tree, old(cache.headers), poller.reliable, poller.missing, poller.mainnet,
                               best, old(chainTip)) ==>
                !changed && listener.notifications > old(listener.notifications)
      ensures changed ==>
                On(listener.blocks, Chain(poller.tree, best))
                && Validated(poller.tree, best, old(chainTip), old(cache.headers), poller.mainnet)
      ensures Answerable(poller.tree, old(cache.headers), poller.reliable, poller.missing, poller.mainnet,
                         best, old(chainTip)) ==>
                chainTip == best
      ensures old(Settled()) && FirstHeightRight(Chain(poller.tree, best), old(listener.blocks)) ==> Settled()
      ensures chainTip == best ==>
                0 < Shared(listener.blocks, old(listener.blocks))
                && DecidedByCached(listener.blocks, old(listener.blocks), old(cache.headers))
      ensures old(Settled()) && chainTip == best ==> DecidedByFirst(listener.blocks, old(listener.blocks))
    {
      ghost var cached, from, settled := cache.headers, chainTip, Settled();
      var result := Transition(best);
      if result != Failed(None) {
        TransitionDecided(poller.tree, best, from, cached, poller.mainnet, settled);
      }
      changed := Adopt(result, best);
    }

    /** Moves the listener; the tip is left for later. */
    method Transition(best: Header) returns (result: SyncResult)
      requires Valid() && In(poller.tree, best) && best.hash != chainTip.hash
      modifies cache`headers, listener
      ensures CacheOf(cache.headers, poller.tree)
      ensures result == Failed(None) ==>
                listener.blocks == old(listener.blocks) && listener.notifications == old(listener.notifications)
      ensures result != Failed(None) ==> Reached(result, best) && On(listener.blocks, Chain(poller.tree, best))
      ensures result != Failed(None) ==> Validated(poller.tree, best, chainTip, old(cache.headers), poller.mainnet)
      ensures listener.blocks != old(listener.blocks) ==> listener.notifications > old(listener.notifications)
      ensures KeepsOldTip(poller.tree, best, chainTip) && listener.blocks == old(listener.blocks) ==>
                listener.notifications == old(listener.notifications)
      ensures !KeepsOldTip(poller.tree, best, chainTip)
              && StopsAtOldTip(poller.tree, old(cache.headers), poller.reliable, poller.missing, poller.mainnet,
                               best, chainTip) ==>
                listener.blocks == old(listener.blocks) && listener.notifications > old(listener.notifications)
      ensures Answerable(poller.tree, old(cache.headers), poller.reliable, poller.missing, poller.mainnet,
                         best, chainTip) ==>
                result.Synced?
      ensures old(Settled()) && FirstHeightRight(Chain(poller.tree, best), old(listener.blocks)) ==> Settled()
    {
      var notifier := new ChainNotifier(cache, listener);
      ghost var path := Settled() && FirstHeightRight(Chain(poller.tree, best), listener.blocks);
      ghost var cached := cache.headers;
      ghost var stops :=
        StopsAtOldTip(poller.tree, cached, poller.reliable, poller.missing, poller.mainnet, best, chainTip);
      ghost var barrier := |listener.blocks| + if stops then 0 else |Chain(poller.tree, best)|;
      result := notifier.SynchronizeListener(best, chainTip, poller, path, barrier);
      if result != Failed(None) {
        Arrived(poller.tree, cached, poller.reliable, poller.missing, poller.mainnet, best, chainTip, listener.blocks);
      }
    }

    /** The listener is on the chain to where the result says. */
    ghost predicate Reached(result: SyncResult, best: Header)
      requires result != Failed(None)
      reads this, listener
    {
      var tip := if result.Synced? then best else result.reached.value;
      WellFormed(poller.tree) && In(poller.tree, tip) && listener.blocks == Chain(poller.tree, tip)
    }

    /** Takes over the tip that a sync reached. */
    method Adopt(result: SyncResult, best: Header) returns (changed: bool)
      modifies this`chainTip
      ensures changed <==> result.Synced? || (result.reached.Some? && result.reached.value.hash != old(chainTip).hash)
      ensures chainTip == if !changed then old(chainTip) else if result.Synced? then best else result.reached.value
    {
      match result {
        case Synced =>
          chainTip := best;
          return true;
        case Failed(Some(reached)) =>
          if reached.hash != chainTip.hash {
            chainTip := reached;
            return true;
          }
          return false;
        case Failed(None) =>
          return false;
      }
    }

    /** Polls once, whatever fails on the way. */
    method PollBestTip() returns (r: Result<(ChainTip, bool)>)
      requires Valid()
      modifies this`chainTip, cache`headers, listener
      ensures Valid()
      ensures (r.Ok? && r.value.1) <==> chainTip != old(chainTip)
      ensures r.Ok? && r.value.1 ==> listener.notifications > old(listener.notifications)
      ensures r.Ok? ==> poller.bestBlock == Some(if r.value.0.Common? then old(chainTip).hash else r.value.0.tip.hash)
      ensures r.Ok? && !r.value.0.Common? ==>
                In(poller.tree, r.value.0.tip)
                && (r.value.0.Better? <==> r.value.0.tip.chainwork > old(chainTip).chainwork)
      ensures (r.Ok? && r.value.0.Better? ==> KeepsOldTip(poller.tree, r.value.0.tip, old(chainTip))) ==>
                ((r.Ok? && r.value.1) <==> listener.notifications != old(listener.notifications))
      ensures r.Ok? && r.value.0.Better? && !KeepsOldTip(poller.tree, r.value.0.tip, old(chainTip))
              && StopsAtOldTip(poller.tree, old(cache.headers), poller.reliable, poller.missing, poller.mainnet,
                               r.value.0.tip, old(chainTip)) ==>
                !r.value.1 && listener.notifications > old(listener.notifications)
      ensures r.Ok? && r.value.1 ==> r.value.0.Better? && On(listener.blocks, Chain(poller.tree, r.value.0.tip))
      ensures r.Ok? && r.value.0.Better?
              && Answerable(poller.tree, old(cache.headers), poller.reliable, poller.missing, poller.mainnet,
                            r.value.0.tip, old(chainTip)) ==>
                chainTip == r.value.0.tip
      ensures poller.bestBlock.Some?
              && poller.bestBlock.value in poller.tree && poller.bestBlock.value in poller.reliable ==>
                r.Ok?
      ensures old(Settled())
              && (r.Ok? && r.value.0.Better? ==>
                    FirstHeightRight(Chain(poller.tree, r.value.0.tip), old(listener.blocks))) ==>
                Settled()
      ensures r.Ok? && r.value.0.Better? && chainTip == r.value.0.tip ==>
                0 < Shared(listener.blocks, old(listener.blocks))
                && DecidedByCached(listener.blocks, old(listener.blocks), old(cache.headers))
      ensures old(Settled()) && r.Ok? && r.value.0.Better? && chainTip == r.value.0.tip ==>
                DecidedByFirst(listener.blocks, old(listener.blocks))
    {
      var polled := poller.PollChainTip(chainTip);
      if polled.Err? {
        return Err;
      }
      var changed := false;
      match polled.value {
        case Common =>
        case Worse(_) =>
        case Better(best) =>
          changed := UpdateChainTip(best);
      }
      return Ok((polled.value, changed));
    }
  }
}
