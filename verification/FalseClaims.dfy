/** What a source can bring about by false claims over a cached parent, whose link is not checked. */
module FalseClaims {
  import opened BlockTree
  import opened SpvClient
  import opened Wrappers

  /** Equal bits mean equal work and targets, which are computed from them. */
  ghost predicate BitsDecide(t: Tree) {
    forall g, h | g in t && h in t && t[g].bits == t[h].bits :: t[g].work == t[h].work && t[g].target == t[h].target
  }

  const BASE := Header(Hash(0, 0), Hash(9, 0), 0, 10, 10, 0, 4)

  const FORK := Header(Hash(1, 1), BASE.hash, 1, 10, 20, 0, 4)

  const TIP := Header(Hash(2, 2), FORK.hash, 2, 10, 30, 0, 4)

  /** A sibling of `TIP` that adds less work and claims more. */
  const LIGHT := Header(Hash(3, 2), FORK.hash, 2, 1, 100, 1, 40)

  /** A child of `TIP` that claims its parent's height. */
  const LOW := Header(Hash(4, 3), TIP.hash, 2, 10, 40, 0, 4)

  /** An honest sibling of `TIP`, and a child of it that claims too much work and height. */
  const STALE := Header(Hash(5, 2), FORK.hash, 2, 10, 30, 0, 4)

  const HIGH := Header(Hash(6, 3), STALE.hash, 5, 10, 1000, 0, 4)

  const HEADERS: Tree :=
    map[BASE.hash := BASE, FORK.hash := FORK, TIP.hash := TIP, LIGHT.hash := LIGHT, LOW.hash := LOW,
        STALE.hash := STALE, HIGH.hash := HIGH]

  const CACHED: Tree := map[FORK.hash := FORK, TIP.hash := TIP]

  /** What a startup sync leaves that found a listener on `STALE` and connected `TIP`. */
  const STARTUP_CACHED: Tree := map[STALE.hash := STALE, TIP.hash := TIP]

  lemma ExampleTree()
    ensures WellFormed(HEADERS) && CacheOf(CACHED, HEADERS) && CacheOf(STARTUP_CACHED, HEADERS)
  {
  }

  lemma ExampleBits()
    ensures BitsDecide(HEADERS)
  {
  }

  lemma ExampleChains()
    ensures WellFormed(HEADERS)
    ensures Chain(HEADERS, TIP) == [BASE, FORK, TIP] && Chain(HEADERS, LIGHT) == [BASE, FORK, LIGHT]
    ensures Chain(HEADERS, LOW) == [BASE, FORK, TIP, LOW] && Chain(HEADERS, HIGH) == [BASE, FORK, STALE, HIGH]
  {
    ExampleTree();
    assert Chain(HEADERS, BASE) == [BASE];
    assert Chain(HEADERS, FORK) == [BASE, FORK];
    assert Chain(HEADERS, STALE) == [BASE, FORK, STALE];
  }

  lemma ExampleSettled()
    ensures HoldsNewest(CACHED, [BASE, FORK, TIP], 2) && Consecutive([BASE, FORK, TIP])
  {
  }

  lemma ExampleWalks(answered: set<Hash>)
    ensures WellFormed(HEADERS) && CacheOf(CACHED, HEADERS)
    ensures Walk(HEADERS, CACHED, answered, true, LIGHT, TIP) == Some(Difference(FORK, [LIGHT]))
    ensures Walk(HEADERS, CACHED, answered, true, LOW, TIP) == Some(Difference(FORK, [LOW, TIP]))
  {
    ExampleTree();
    assert Walk(HEADERS, CACHED, answered, true, FORK, FORK) == Some(Difference(FORK, []));
    assert Walk(HEADERS, CACHED, answered, true, TIP, FORK) == Some(Difference(FORK, [TIP])) by {
      assert [TIP] + [] == [TIP];
    }
    assert [LIGHT] + [] == [LIGHT] && [LOW] + [TIP] == [LOW, TIP];
  }

  lemma HighWalk()
    ensures WellFormed(HEADERS) && CacheOf(STARTUP_CACHED, HEADERS)
    ensures Walk(HEADERS, STARTUP_CACHED, HEADERS.Keys, true, HIGH, TIP) == Some(Difference(FORK, [HIGH, STALE]))
  {
    ExampleTree();
    assert Walk(HEADERS, STARTUP_CACHED, HEADERS.Keys, true, FORK, FORK) == Some(Difference(FORK, []));
    assert Walk(HEADERS, STARTUP_CACHED, HEADERS.Keys, true, STALE, TIP) == Some(Difference(FORK, [STALE])) by {
      assert [STALE] + [] == [STALE];
    }
    assert [HIGH] + [STALE] == [HIGH, STALE];
  }

  lemma LightIsAnswerable()
    ensures WellFormed(HEADERS) && CacheOf(CACHED, HEADERS)
    ensures Answerable(HEADERS, CACHED, HEADERS.Keys, {}, true, LIGHT, TIP)
  {
    ExampleWalks(HEADERS.Keys);
  }

  lemma HighIsAnswerable()
    ensures WellFormed(HEADERS) && CacheOf(STARTUP_CACHED, HEADERS)
    ensures Answerable(HEADERS, STARTUP_CACHED, HEADERS.Keys, {}, true, HIGH, TIP)
  {
    HighWalk();
  }

  lemma LightIsLighter()
    ensures TotalWork([BASE, FORK, LIGHT]) < TotalWork([BASE, FORK, TIP])
    ensures !WorkBacked([BASE, FORK, LIGHT], [BASE, FORK, TIP])
  {
    var c, o := [BASE, FORK, LIGHT], [BASE, FORK, TIP];
    assert c[1..] == [FORK, LIGHT] && o[1..] == [FORK, TIP];
    assert [FORK, LIGHT][1..] == [LIGHT] && [FORK, TIP][1..] == [TIP] && [LIGHT][1..] == [] && [TIP][1..] == [];
    assert TotalWork([LIGHT]) == 1 && TotalWork([TIP]) == 10;
    assert TotalWork([FORK, LIGHT]) == 11 && TotalWork([FORK, TIP]) == 20;
    assert Shared([LIGHT], [TIP]) == 0;
    assert Shared([FORK, LIGHT], [FORK, TIP]) == 1;
    assert Shared(c, o) == 2 && c[2..] == [LIGHT];
  }

  /** The first new block is in order, the next one is not. */
  lemma HighIsUnbacked()
    ensures FirstWorkRight([BASE, FORK, STALE, HIGH], [BASE, FORK, TIP])
    ensures FirstHeightRight([BASE, FORK, STALE, HIGH], [BASE, FORK, TIP])
    ensures !WorkBacked([BASE, FORK, STALE, HIGH], [BASE, FORK, TIP])
    ensures !Consecutive([BASE, FORK, STALE, HIGH])
  {
    var c, o := [BASE, FORK, STALE, HIGH], [BASE, FORK, TIP];
    assert c[1..] == [FORK, STALE, HIGH] && o[1..] == [FORK, TIP];
    assert [FORK, STALE, HIGH][1..] == [STALE, HIGH] && [FORK, TIP][1..] == [TIP];
    assert Shared([STALE, HIGH], [TIP]) == 0;
    assert Shared([FORK, STALE, HIGH], [FORK, TIP]) == 1;
    assert Shared(c, o) == 2 && c[2..] == [STALE, HIGH];
    assert [STALE, HIGH][1..] == [HIGH] && [HIGH][1..] == [];
    assert TotalWork([HIGH]) == 10;
    assert TotalWork([STALE, HIGH]) == STALE.work + TotalWork([HIGH]);
    assert c[2].height != c[3].height + 1 + 2 - |c|;
  }

  lemma LowStops()
    ensures WellFormed(HEADERS) && CacheOf(CACHED, HEADERS)
    ensures !KeepsOldTip(HEADERS, LOW, TIP)
    ensures StopsAtOldTip(HEADERS, CACHED, HEADERS.Keys, {LOW.hash}, true, LOW, TIP)
  {
    ExampleTree();
    ExampleChains();
    ExampleWalks(HEADERS.Keys);
    ExampleWalks({});
    CacheTransparent(HEADERS, CACHED, HEADERS, {}, true, LOW, TIP);
  }

  /** A client whose listener has been connected two blocks from `BASE` to `TIP`, as it stands after that. */
  method ExampleClient(best: Hash, missing: set<Hash>) returns (client: Client)
    ensures fresh(client) && fresh(client.cache) && fresh(client.listener) && fresh(client.poller)
    ensures client.Valid() && client.Settled() && client.chainTip == TIP && client.cache.headers == CACHED
    ensures client.poller.tree == HEADERS && client.poller.mainnet && client.poller.bestBlock == Some(best)
    ensures client.poller.reliable == HEADERS.Keys && client.poller.missing == missing
    ensures client.listener.notifications == 2
  {
    ExampleTree();
    ExampleChains();
    ExampleSettled();
    var cache, listener := ConnectedTwo();
    var poller := new ChainPoller(HEADERS, true, Some(best), HEADERS.Keys, missing);
    client := new Client(TIP, poller, cache, listener);
  }

  method ConnectedTwo() returns (cache: HeaderCache, listener: Listener)
    ensures fresh(cache) && fresh(listener) && cache.headers == CACHED && !cache.retainOnDisconnect
    ensures listener.blocks == [BASE, FORK, TIP] && listener.notifications == 2
  {
    cache := new HeaderCache();
    listener := new Listener([BASE]);
    listener.Connect(FullBlock(FORK), FORK.height);
    cache.BlockConnected(FORK.hash, FORK);
    listener.Connect(FullBlock(TIP), TIP.height);
    cache.BlockConnected(TIP.hash, TIP);
  }

  /** A source that claims chainwork 100 for a block of work 1 gets the client off a branch with more work: the link to
      the cached fork point is not checked. */
  method ReorganizedOntoLessWork() returns (client: Client, r: Result<(ChainTip, bool)>)
    ensures r == Ok((Better(LIGHT), true)) && client.Valid() && client.chainTip == LIGHT
    ensures client.listener.blocks == [BASE, FORK, LIGHT]
    ensures TotalWork([BASE, FORK, LIGHT]) < TotalWork([BASE, FORK, TIP])
    ensures !WorkBacked([BASE, FORK, LIGHT], [BASE, FORK, TIP])
  {
    client, r := PollLight();
    LightIsLighter();
  }

  method PollLight() returns (client: Client, r: Result<(ChainTip, bool)>)
    ensures r == Ok((Better(LIGHT), true)) && client.Valid() && client.chainTip == LIGHT
    ensures client.listener.blocks == [BASE, FORK, LIGHT]
  {
    client := ExampleClient(LIGHT.hash, {});
    ExampleChains();
    LightIsAnswerable();
    r := client.PollBestTip();
    assert r.Ok? && !r.value.0.Common? && r.value.0.tip.hash == LIGHT.hash;
    assert r.value.0.tip == HEADERS[LIGHT.hash] == LIGHT;
  }

  /** A source that claims the height of the cached tip for a child of it makes the walk go below the tip. If that
      child's block cannot be fetched, the listener is taken off its tip and put back, and nothing is reported. */
  method NotifiedUnreported() returns (client: Client, r: Result<(ChainTip, bool)>)
    ensures r == Ok((Better(LOW), false)) && client.Valid() && client.chainTip == TIP
    ensures client.listener.notifications > 2
  {
    client := ExampleClient(LOW.hash, {LOW.hash});
    ExampleChains();
    LowStops();
    r := client.PollBestTip();
  }

  /** A client as a startup sync leaves it that found another listener on `STALE`: that block stays cached. */
  method StartedClient(best: Hash) returns (client: Client)
    ensures fresh(client) && fresh(client.cache) && fresh(client.listener) && fresh(client.poller)
    ensures client.Valid() && client.chainTip == TIP && client.cache.headers == STARTUP_CACHED
    ensures client.poller.tree == HEADERS && client.poller.mainnet && client.poller.bestBlock == Some(best)
    ensures client.poller.reliable == HEADERS.Keys && client.poller.missing == {}
  {
    ExampleTree();
    ExampleChains();
    var cache := new HeaderCache();
    cache.InsertDuringDiff(STALE.hash, STALE);
    assert cache.headers == map[STALE.hash := STALE];
    cache.BlockConnected(TIP.hash, TIP);
    var listener := new Listener([BASE, FORK, TIP]);
    var poller := new ChainPoller(HEADERS, true, Some(best), HEADERS.Keys, {});
    client := new Client(TIP, poller, cache, listener);
  }

  /** There a block on the stale one gets false chainwork and a false height accepted behind an honest first block. */
  method UnbackedBehindHonest() returns (client: Client, r: Result<(ChainTip, bool)>)
    ensures r == Ok((Better(HIGH), true)) && client.Valid() && client.chainTip == HIGH
    ensures client.listener.blocks == [BASE, FORK, STALE, HIGH]
    ensures FirstWorkRight(client.listener.blocks, [BASE, FORK, TIP])
    ensures FirstHeightRight(client.listener.blocks, [BASE, FORK, TIP])
    ensures !WorkBacked(client.listener.blocks, [BASE, FORK, TIP]) && !Consecutive(client.listener.blocks)
  {
    client := StartedClient(HIGH.hash);
    ExampleChains();
    HighIsAnswerable();
    HighIsUnbacked();
    r := client.PollBestTip();
  }
}
