/** Block headers, the tree of headers a block source serves, and the walk of two chains back to where they fork. */
module BlockTree {
  import opened Wrappers

  /** A block hash fixes all ancestors of its block, so it also fixes how many there are. */
  datatype Hash = Hash(id: nat, depth: nat)

  /** A header whose proof of work and hash were validated, with the height and chainwork the source claims for it. */
  datatype Header = Header(
    hash: Hash, prev: Hash, height: nat, work: nat, chainwork: nat, bits: nat, target: nat)

  type Tree = map<Hash, Header>

  /** The checks of `check_builds_on`: hash link, height, chainwork, and on mainnet the difficulty transition. */
  predicate BuildsOn(h: Header, p: Header, mainnet: bool) {
    && h.prev == p.hash
    && h.height == p.height + 1
    && h.chainwork == p.chainwork + h.work
    && (mainnet ==>
          if h.height % 2016 == 0 then p.target / 4 <= h.target <= p.target * 4 else h.bits == p.bits)
  }

  ghost predicate In(t: Tree, h: Header) {
    h.hash in t && t[h.hash] == h
  }

  /** The source answers a hash with one header. Claimed heights and chainwork, bits and targets are unconstrained. */
  ghost predicate WellFormed(t: Tree) {
    && (forall h | h in t :: t[h].hash == h)
    && (forall h {:trigger t[h].prev in t} | h in t && t[h].prev in t :: h.depth == t[h].prev.depth + 1)
  }

  /** All of `h`'s ancestors in the tree, oldest first, ending with `h` itself. */
  ghost function Chain(t: Tree, h: Header): (c: seq<Header>)
    requires WellFormed(t) && In(t, h)
    ensures c != [] && c[|c| - 1] == h
    decreases h.hash.depth
  {
    if h.prev in t then Chain(t, t[h.prev]) + [h] else [h]
  }

  lemma {:induction false} ChainFacts(t: Tree, h: Header)
    requires WellFormed(t) && In(t, h)
    ensures forall i | 0 <= i < |Chain(t, h)| :: In(t, Chain(t, h)[i])
    ensures forall i | 0 <= i < |Chain(t, h)| :: Chain(t, h)[i].hash.depth == h.hash.depth + 1 + i - |Chain(t, h)|
    ensures forall i | 0 < i < |Chain(t, h)| :: Chain(t, h)[i].prev == Chain(t, h)[i - 1].hash
    decreases h.hash.depth
  {
    if h.prev in t {
      ChainFacts(t, t[h.prev]);
    }
  }

  lemma ChainMember(t: Tree, h: Header, i: nat)
    requires WellFormed(t) && In(t, h) && i < |Chain(t, h)|
    ensures In(t, Chain(t, h)[i])
  {
    ChainFacts(t, h);
  }

  lemma {:induction false} ChainOfMember(t: Tree, h: Header, i: nat)
    requires WellFormed(t) && In(t, h) && i < |Chain(t, h)|
    ensures In(t, Chain(t, h)[i])
    ensures Chain(t, Chain(t, h)[i]) == Chain(t, h)[..i + 1]
    decreases h.hash.depth
  {
    var c := Chain(t, h);
    if i == |c| - 1 {
      assert c[..i + 1] == c;
    } else {
      var p := Chain(t, t[h.prev]);
      assert c == p + [h];
      ChainOfMember(t, t[h.prev], i);
      assert c[i] == p[i] && c[..i + 1] == p[..i + 1];
    }
  }

  /** A parent in the tree of a chain's member is the next member down. */
  lemma ChainParent(t: Tree, h: Header, i: nat)
    requires WellFormed(t) && In(t, h) && i < |Chain(t, h)|
    requires Chain(t, h)[i].prev in t
    ensures i > 0 && Chain(t, h)[i - 1] == t[Chain(t, h)[i].prev]
  {
    var c := Chain(t, h);
    ChainOfMember(t, h, i);
    assert c[..i + 1] == Chain(t, t[c[i].prev]) + [c[i]];
    assert |Chain(t, t[c[i].prev])| == i;
    assert c[i - 1] == c[..i + 1][i - 1];
  }

  /** The claimed heights go up by one from block to block. */
  ghost predicate Consecutive(blocks: seq<Header>) {
    forall i | 0 <= i < |blocks| :: blocks[i].height == blocks[|blocks| - 1].height + 1 + i - |blocks|
  }

  /** Heights go up by one along every parent link of the tree. */
  ghost predicate HonestHeights(t: Tree) {
    forall h {:trigger t[h].prev in t} | h in t && t[h].prev in t :: t[h].height == t[t[h].prev].height + 1
  }

  lemma {:induction false} HonestIsConsecutive(t: Tree, h: Header)
    requires WellFormed(t) && HonestHeights(t) && In(t, h)
    ensures Consecutive(Chain(t, h))
    decreases h.hash.depth
  {
    if h.prev in t {
      HonestIsConsecutive(t, t[h.prev]);
    }
  }

  /** What turns the chain ending at one header into the chain ending at another:
      the fork point, and the blocks to connect, last first. */
  datatype Difference = Difference(ancestor: Header, connected: seq<Header>)

  /** The elements from position `k` on, last first. */
  function Descending<T>(s: seq<T>, k: nat): (r: seq<T>)
    ensures |r| == if k <= |s| then |s| - k else 0
    decreases |s| - k
  {
    if k >= |s| then [] else Descending(s, k + 1) + [s[k]]
  }

  lemma {:induction false} DescendingSnoc<T>(s: seq<T>, x: T, k: nat)
    requires k <= |s|
    ensures Descending(s + [x], k) == [x] + Descending(s, k)
    decreases |s| - k
  {
    if k < |s| {
      DescendingSnoc(s, x, k + 1);
    } else {
      assert Descending(s + [x], k + 1) == [];
    }
  }

  /** `d.ancestor` lies on both chains and `d.connected` is the path from `tip` down to just above it. */
  ghost predicate IsFork(t: Tree, tip: Header, from: Header, d: Difference)
    requires WellFormed(t) && In(t, tip) && In(t, from)
  {
    ForksAt(Chain(t, tip), Chain(t, from), d)
  }

  ghost predicate ForksAt(c: seq<Header>, o: seq<Header>, d: Difference) {
    var k := |c| - |d.connected|;
    0 < k <= |o| && c[..k] == o[..k] && d == Difference(c[k - 1], Descending(c, k))
  }

  /** A fork of two chains is one of longer chains too; the blocks added to the first are added to the path. */
  lemma ForkGrows(c: seq<Header>, o: seq<Header>, c1: seq<Header>, o1: seq<Header>, d: Difference)
    requires ForksAt(c1, o1, d) && o1 <= o && (c == c1 || (c != [] && c1 == c[..|c| - 1]))
    ensures ForksAt(c, o, d.(connected := (if c == c1 then [] else [c[|c| - 1]]) + d.connected))
  {
    var k := |c1| - |d.connected|;
    assert o[..k] == o1[..k] && c[..k] == c1[..k];
    if c == c1 {
      assert [] + d.connected == d.connected;
    } else {
      assert c == c1 + [c[|c| - 1]];
      DescendingSnoc(c1, c[|c| - 1], k);
    }
  }

  /** The first `m` blocks of the two chains are the same, and nothing of `c` above them is in `o`. */
  ghost predicate PartAt(c: seq<Header>, o: seq<Header>, m: nat) {
    && 0 < m <= |c| && m <= |o| && c[..m] == o[..m]
    && (forall a | m <= a < |c| :: c[a] !in o)
  }

  /** `d` is the lowest common ancestor of `tip` and `from` together with exactly the path from `tip`
      down to just above it. */
  ghost predicate IsDifference(t: Tree, tip: Header, from: Header, d: Difference)
    requires WellFormed(t) && In(t, tip) && In(t, from)
  {
    IsFork(t, tip, from, d) && PartAt(Chain(t, tip), Chain(t, from), |Chain(t, tip)| - |d.connected|)
  }

  /** There is only one such difference. */
  lemma DifferenceUnique(t: Tree, tip: Header, from: Header, d: Difference, e: Difference)
    requires WellFormed(t) && In(t, tip) && In(t, from)
    requires IsDifference(t, tip, from, d) && IsDifference(t, tip, from, e)
    ensures d == e
  {
    PartsHighest(Chain(t, tip), Chain(t, from), |Chain(t, tip)| - |d.connected|, |Chain(t, tip)| - |e.connected|);
    PartsHighest(Chain(t, tip), Chain(t, from), |Chain(t, tip)| - |e.connected|, |Chain(t, tip)| - |d.connected|);
  }

  lemma PartsHighest(c: seq<Header>, o: seq<Header>, m: nat, n: nat)
    requires PartAt(c, o, m) && n <= |c| && n <= |o| && c[..n] == o[..n]
    ensures n <= m
  {
    if n > 0 {
      assert c[n - 1] == c[..n][n - 1] == o[..n][n - 1] == o[n - 1];
    }
  }

  /** How many blocks two chains share. */
  ghost function Shared(c: seq<Header>, o: seq<Header>): (m: nat)
    ensures m <= |c| && m <= |o|
  {
    if c == [] || o == [] || c[0] != o[0] then 0 else 1 + Shared(c[1..], o[1..])
  }

  lemma {:induction false} SharedPrefix(c: seq<Header>, o: seq<Header>)
    ensures c[..Shared(c, o)] == o[..Shared(c, o)]
    decreases |c|
  {
    if c != [] && o != [] && c[0] == o[0] {
      SharedPrefix(c[1..], o[1..]);
      var m := Shared(c[1..], o[1..]);
      assert c[..m + 1] == [c[0]] + c[1..][..m] && o[..m + 1] == [o[0]] + o[1..][..m];
    }
  }

  lemma {:induction false} SharedLongest(c: seq<Header>, o: seq<Header>, n: nat)
    requires n <= |c| && n <= |o| && c[..n] == o[..n]
    ensures n <= Shared(c, o)
    decreases n
  {
    if n > 0 {
      assert c[0] == c[..n][0] == o[..n][0] == o[0];
      assert c[1..][..n - 1] == c[..n][1..] && o[1..][..n - 1] == o[..n][1..];
      SharedLongest(c[1..], o[1..], n - 1);
    }
  }

  /** Chains with a block in common part where they stop sharing blocks. */
  lemma SharedParts(t: Tree, tip: Header, from: Header, k: nat)
    requires WellFormed(t) && In(t, tip) && In(t, from) && 0 < k <= |Chain(t, tip)| && k <= |Chain(t, from)|
    requires Chain(t, tip)[..k] == Chain(t, from)[..k]
    ensures k <= Shared(Chain(t, tip), Chain(t, from))
    ensures PartAt(Chain(t, tip), Chain(t, from), Shared(Chain(t, tip), Chain(t, from)))
  {
    var c, o := Chain(t, tip), Chain(t, from);
    SharedPrefix(c, o);
    SharedLongest(c, o, k);
    forall a | 0 <= a < |c| && c[a] in o ensures a < Shared(c, o) {
      var b :| 0 <= b < |o| && o[b] == c[a];
      ChainOfMember(t, tip, a);
      ChainOfMember(t, from, b);
      assert |c[..a + 1]| == |o[..b + 1]|;
      SharedLongest(c, o, a + 1);
    }
  }

  function TotalWork(s: seq<Header>): nat {
    if s == [] then 0 else s[0].work + TotalWork(s[1..])
  }

  ghost predicate LinkHolds(c: seq<Header>, a: int, mainnet: bool) {
    0 < a < |c| && BuildsOn(c[a], c[a - 1], mainnet)
  }

  /** From position `k` up, every link whose parent was not cached passed `BuildsOn`. */
  ghost predicate Checked(c: seq<Header>, k: nat, cached: Tree, mainnet: bool) {
    forall a {:trigger LinkHolds(c, a, mainnet)} | k <= a < |c| && c[a].prev !in cached :: LinkHolds(c, a, mainnet)
  }

  /** Difficulty changes from one period of 2016 blocks to the next only. */
  predicate SamePeriod(h: Header, p: Header) {
    h.height / 2016 == p.height / 2016
  }

  predicate WithinFactorFour(h: Header, p: Header) {
    p.target <= 4 * h.target + 3 && h.target <= 4 * p.target
  }

  /** The checks in terms of periods: in the same one bits are the same, in the next one the target is within a factor
      of four, rounding down. */
  predicate Acceptable(h: Header, p: Header, mainnet: bool) {
    && h.prev == p.hash && h.height - p.height == 1 && h.chainwork - p.chainwork == h.work
    && (mainnet ==> if SamePeriod(h, p) then h.bits == p.bits else WithinFactorFour(h, p))
  }

  lemma BuildsOnIsAcceptable(h: Header, p: Header, mainnet: bool)
    ensures BuildsOn(h, p, mainnet) <==> Acceptable(h, p, mainnet)
  {
    if h.height == p.height + 1 {
      assert h.height % 2016 == 0 <==> h.height / 2016 == p.height / 2016 + 1;
    }
    assert p.target / 4 <= h.target <==> p.target <= 4 * h.target + 3;
  }

  /** None of the links up from `i` to `j` had a cached parent. */
  ghost predicate Uncached(c: seq<Header>, i: int, j: int, cached: Tree) {
    forall a | i < a <= j && 0 <= a < |c| :: c[a].prev !in cached
  }

  ghost predicate RetargetHolds(c: seq<Header>, a: int) {
    0 < a < |c| && (!SamePeriod(c[a], c[a - 1]) ==> WithinFactorFour(c[a], c[a - 1]))
  }

  /** Along links that were not cached, blocks of one period have the same bits, however far apart, and from period to
      period the target changes by a factor of four at most. */
  ghost predicate DifficultyKept(c: seq<Header>, k: nat, cached: Tree) {
    && (forall i, j {:trigger Uncached(c, i, j, cached)} |
          0 <= i <= j < |c| && k <= i + 1 && Uncached(c, i, j, cached) && SamePeriod(c[i], c[j]) ::
          c[i].bits == c[j].bits)
    && (forall a {:trigger RetargetHolds(c, a)} | k <= a < |c| && c[a].prev !in cached :: RetargetHolds(c, a))
  }

  lemma {:induction false} SamePeriodSameBits(c: seq<Header>, k: nat, cached: Tree, i: nat, j: nat)
    requires 0 < k <= i + 1 && i <= j < |c| && Checked(c, k, cached, true) && Uncached(c, i, j, cached)
    ensures c[j].height == c[i].height + j - i
    ensures SamePeriod(c[i], c[j]) ==> c[i].bits == c[j].bits
    decreases j
  {
    if i < j {
      SamePeriodSameBits(c, k, cached, i, j - 1);
      assert LinkHolds(c, j, true);
      BuildsOnIsAcceptable(c[j], c[j - 1], true);
    }
  }

  lemma CheckedKeepsDifficulty(c: seq<Header>, k: nat, cached: Tree)
    requires 0 < k && Checked(c, k, cached, true)
    ensures DifficultyKept(c, k, cached)
  {
    forall i, j | 0 <= i <= j < |c| && k <= i + 1 && Uncached(c, i, j, cached) && SamePeriod(c[i], c[j])
      ensures c[i].bits == c[j].bits
    {
      SamePeriodSameBits(c, k, cached, i, j);
    }
    forall a | k <= a < |c| && c[a].prev !in cached ensures RetargetHolds(c, a) {
      assert LinkHolds(c, a, true);
      BuildsOnIsAcceptable(c[a], c[a - 1], true);
    }
  }

  /** By how much the blocks from position `k` on whose parent was cached claim more chainwork than they add. */
  ghost function Unbacked(c: seq<Header>, k: nat, cached: Tree): int
    requires 0 < k <= |c|
    decreases |c| - k
  {
    if k == |c| then 0 else
    (if c[k].prev in cached then c[k].chainwork - c[k - 1].chainwork - c[k].work else 0) + Unbacked(c, k + 1, cached)
  }

  /** Chainwork grows along a path by the work of its blocks and by what the unchecked links claim on top. */
  lemma {:induction false} ChainworkTelescopes(c: seq<Header>, k: nat, cached: Tree, mainnet: bool)
    requires 0 < k <= |c| && Checked(c, k, cached, mainnet)
    ensures c[|c| - 1].chainwork == c[k - 1].chainwork + TotalWork(c[k..]) + Unbacked(c, k, cached)
    decreases |c| - k
  {
    if k < |c| {
      ChainworkTelescopes(c, k + 1, cached, mainnet);
      assert c[k..][1..] == c[k + 1..];
      assert c[k].prev !in cached ==> LinkHolds(c, k, mainnet);
    }
  }

  /** The parent a walk gets for `h`: from the cache if it is there, else from a source that answers `answered`. */
  ghost function Parent(t: Tree, cache: Tree, answered: set<Hash>, mainnet: bool, h: Header): Option<Header> {
    if h.prev in cache then Some(cache[h.prev])
    else if h.height > 0 && h.prev in answered && h.prev in t && BuildsOn(h, t[h.prev], mainnet) then Some(t[h.prev])
    else None
  }

  ghost predicate CacheOf(cache: Tree, t: Tree) {
    forall h | h in cache :: h in t && cache[h] == t[h]
  }

  lemma ParentInTree(t: Tree, cache: Tree, answered: set<Hash>, mainnet: bool, h: Header)
    requires CacheOf(cache, t)
    ensures var p := Parent(t, cache, answered, mainnet, h);
            p.Some? ==> h.prev in t && p.value == t[h.prev]
  {
  }

  /** The two-sided walk back to the fork point, as a function of what the source answers. */
  ghost function Walk(t: Tree, cache: Tree, answered: set<Hash>, mainnet: bool, cur: Header, prev: Header)
    : Option<Difference>
    requires WellFormed(t) && CacheOf(cache, t) && In(t, cur) && In(t, prev)
    decreases cur.hash.depth + prev.hash.depth
  {
    if cur.hash == prev.hash then Some(Difference(cur, [])) else
    var p := if cur.height <= prev.height then Parent(t, cache, answered, mainnet, prev) else Some(prev);
    var c := if cur.height >= prev.height then Parent(t, cache, answered, mainnet, cur) else Some(cur);
    if p.None? || c.None? then None else
    match Walk(t, cache, answered, mainnet, c.value, p.value)
    case None => None
    case Some(d) =>
      Some(d.(connected := (if cur.height >= prev.height then [cur] else []) + d.connected))
  }

  /** Where the walk leads if it gets every parent there is. */
  ghost function Meet(t: Tree, cur: Header, prev: Header): Option<Difference>
    requires WellFormed(t) && In(t, cur) && In(t, prev)
  {
    Walk(t, t, {}, true, cur, prev)
  }

  /** `cur1` and `prev1` are `cur` and `prev` with the higher one, or both at equal heights, replaced by its parent. */
  ghost predicate SteppedBack(t: Tree, cur: Header, prev: Header, cur1: Header, prev1: Header) {
    && (if cur.height >= prev.height then cur.prev in t && cur1 == t[cur.prev] else cur1 == cur)
    && (if cur.height <= prev.height then prev.prev in t && prev1 == t[prev.prev] else prev1 == prev)
  }

  ghost function After(rest: Option<Difference>, connected: seq<Header>): Option<Difference> {
    if rest.None? then None else Some(Difference(rest.value.ancestor, connected + rest.value.connected))
  }

  lemma AfterNothing(w: Option<Difference>)
    ensures After(w, []) == w
  {
    assert w.Some? ==> [] + w.value.connected == w.value.connected;
  }

  lemma ConcatAssociates<T>(a: seq<T>, b: seq<T>, c: seq<T>)
    ensures a + (b + c) == (a + b) + c
    ensures a + [] == a
  {
  }

  lemma AfterTwice(w: Option<Difference>, step: seq<Header>, connected: seq<Header>)
    ensures After(After(w, step), connected) == After(w, connected + step)
  {
    if w.Some? {
      ConcatAssociates(connected, step, w.value.connected);
    }
  }

  /** One round of the walk: it goes on with the parents it got, and gets all there are if everything is cached. */
  lemma WalkUnfolds(
    t: Tree, cache: Tree, answered: set<Hash>, mainnet: bool, cur: Header, prev: Header, cur1: Header, prev1: Header)
    requires WellFormed(t) && CacheOf(cache, t) && In(t, cur) && In(t, prev) && cur.hash != prev.hash
    requires SteppedBack(t, cur, prev, cur1, prev1)
    ensures var w := Walk(t, cache, answered, mainnet, cur, prev);
            var step := if cur.height >= prev.height then [cur] else [];
            w.Some? || cache == t ==> w == After(Walk(t, cache, answered, mainnet, cur1, prev1), step)
  {
    ParentInTree(t, cache, answered, mainnet, cur);
    ParentInTree(t, cache, answered, mainnet, prev);
  }

  /** The same with what was passed before. */
  lemma WalkStep(
    t: Tree, cache: Tree, answered: set<Hash>, mainnet: bool,
    cur: Header, prev: Header, cur1: Header, prev1: Header, connected: seq<Header>)
    requires WellFormed(t) && CacheOf(cache, t) && In(t, cur) && In(t, prev) && cur.hash != prev.hash
    requires SteppedBack(t, cur, prev, cur1, prev1)
    ensures var connected1 := if cur.height >= prev.height then connected + [cur] else connected;
            var w := Walk(t, cache, answered, mainnet, cur, prev);
            w.Some? || cache == t ==>
              After(w, connected) == After(Walk(t, cache, answered, mainnet, cur1, prev1), connected1)
  {
    WalkUnfolds(t, cache, answered, mainnet, cur, prev, cur1, prev1);
    var step := if cur.height >= prev.height then [cur] else [];
    AfterTwice(Walk(t, cache, answered, mainnet, cur1, prev1), step, connected);
    assert connected + [] == connected;
  }

  /** Whatever a walk finds, a walk with more headers cached finds too; in particular one without any cache. */
  lemma {:induction false} CacheTransparent(
    t: Tree, less: Tree, more: Tree, answered: set<Hash>, mainnet: bool, cur: Header, prev: Header)
    requires WellFormed(t) && CacheOf(less, more) && CacheOf(more, t) && In(t, cur) && In(t, prev)
    requires CacheOf(less, t) && Walk(t, less, answered, mainnet, cur, prev).Some?
    ensures Walk(t, more, answered, mainnet, cur, prev) == Walk(t, less, answered, mainnet, cur, prev)
    decreases cur.hash.depth + prev.hash.depth
  {
    if cur.hash != prev.hash {
      var p := if cur.height <= prev.height then Parent(t, less, answered, mainnet, prev) else Some(prev);
      var c := if cur.height >= prev.height then Parent(t, less, answered, mainnet, cur) else Some(cur);
      CacheTransparent(t, less, more, answered, mainnet, c.value, p.value);
    }
  }

  /** Whatever heights are claimed, the walk ends at a common block and collects the path to it. */
  lemma {:induction false} MeetIsFork(t: Tree, cur: Header, prev: Header)
    requires WellFormed(t) && In(t, cur) && In(t, prev) && Meet(t, cur, prev).Some?
    ensures IsFork(t, cur, prev, Meet(t, cur, prev).value)
    decreases cur.hash.depth + prev.hash.depth
  {
    if cur.hash != prev.hash {
      var cur1 := if cur.height >= prev.height then t[cur.prev] else cur;
      var prev1 := if cur.height <= prev.height then t[prev.prev] else prev;
      MeetIsFork(t, cur1, prev1);
      SteppedChain(t, cur, cur1);
      SteppedChain(t, prev, prev1);
      ForkGrows(Chain(t, cur), Chain(t, prev), Chain(t, cur1), Chain(t, prev1), Meet(t, cur1, prev1).value);
    } else {
      assert Chain(t, cur)[..|Chain(t, cur)|] == Chain(t, cur);
    }
  }

  /** Every block from position `m` on claims to be higher than the one below it. */
  ghost predicate ClaimsAbove(c: seq<Header>, m: nat)
    requires 0 < m <= |c|
  {
    forall a | m <= a < |c| :: c[a].height > c[m - 1].height
  }

  /** `h1` is `h` or its parent. */
  lemma SteppedChain(t: Tree, h: Header, h1: Header)
    requires WellFormed(t) && In(t, h) && (h1 == h || (h.prev in t && h1 == t[h.prev]))
    ensures Chain(t, h1) == Chain(t, h)[..if h1 == h then |Chain(t, h)| else |Chain(t, h)| - 1]
  {
    if h1 == h {
      assert Chain(t, h)[..|Chain(t, h)|] == Chain(t, h);
    } else {
      assert (Chain(t, h1) + [h])[..|Chain(t, h1)|] == Chain(t, h1);
    }
  }

  lemma PrefixParts(c: seq<Header>, o: seq<Header>, m: nat, i: nat, j: nat)
    requires PartAt(c, o, m) && m <= i <= |c| && m <= j <= |o|
    ensures PartAt(c[..i], o[..j], m) && c[m - 1] == o[m - 1]
    ensures ClaimsAbove(c, m) ==> ClaimsAbove(c[..i], m)
    ensures ClaimsAbove(o, m) ==> ClaimsAbove(o[..j], m)
  {
    assert c[..i][..m] == c[..m] && o[..j][..m] == o[..m];
    assert c[..m][m - 1] == o[..m][m - 1];
  }

  /** The walk stops at the fork point if all blocks above it claim to be above it. */
  lemma {:induction false} MeetFinds(t: Tree, cur: Header, prev: Header, m: nat)
    requires WellFormed(t) && In(t, cur) && In(t, prev) && Meet(t, cur, prev).Some?
    requires PartAt(Chain(t, cur), Chain(t, prev), m)
    requires ClaimsAbove(Chain(t, cur), m) && ClaimsAbove(Chain(t, prev), m)
    ensures |Chain(t, cur)| - |Meet(t, cur, prev).value.connected| == m
    decreases cur.hash.depth + prev.hash.depth
  {
    var c, o := Chain(t, cur), Chain(t, prev);
    if cur.hash == prev.hash {
      assert c[|c| - 1] in o;
    } else {
      PrefixParts(c, o, m, |c|, |o|);
      var cur1 := if cur.height >= prev.height then t[cur.prev] else cur;
      var prev1 := if cur.height <= prev.height then t[prev.prev] else prev;
      SteppedChain(t, cur, cur1);
      SteppedChain(t, prev, prev1);
      PrefixParts(c, o, m, |Chain(t, cur1)|, |Chain(t, prev1)|);
      MeetFinds(t, cur1, prev1, m);
    }
  }

  /** And steps over it if one of the new blocks claims not to be, while the old ones do. */
  lemma {:induction false} MeetMisses(t: Tree, cur: Header, prev: Header, m: nat, a: nat)
    requires WellFormed(t) && In(t, cur) && In(t, prev) && Meet(t, cur, prev).Some?
    requires PartAt(Chain(t, cur), Chain(t, prev), m) && m <= a < |Chain(t, cur)|
    requires Chain(t, cur)[a].height <= Chain(t, cur)[m - 1].height && ClaimsAbove(Chain(t, prev), m)
    ensures |Chain(t, cur)| - |Meet(t, cur, prev).value.connected| < m
    decreases cur.hash.depth + prev.hash.depth
  {
    var c, o := Chain(t, cur), Chain(t, prev);
    PrefixParts(c, o, m, |c|, |o|);
    assert c[|c| - 1] !in o;
    var cur1 := if cur.height >= prev.height then t[cur.prev] else cur;
    var prev1 := if cur.height <= prev.height then t[prev.prev] else prev;
    SteppedChain(t, cur, cur1);
    SteppedChain(t, prev, prev1);
    if |Chain(t, prev1)| < m {
      MeetIsFork(t, cur1, prev1);
    } else {
      PrefixParts(c, o, m, |Chain(t, cur1)|, |Chain(t, prev1)|);
      MeetMisses(t, cur1, prev1, m, a);
    }
  }
}
