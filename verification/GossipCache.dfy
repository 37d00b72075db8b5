/** Looking up the transaction behind a short channel id, with a small cache of block contents shared by concurrent
    lookups. */
module GossipCache {
  import opened Wrappers

  const TXID_CACHE_SIZE: nat := 50

  type Hash = nat
  type Txid = nat
  type Scid = x: nat | x < 0x1_0000_0000_0000_0000

  /** The three parts of a short channel id: block height, transaction index and output index. */
  function HeightOf(scid: Scid): nat {
    scid / 0x100_0000_0000
  }

  function IndexOf(scid: Scid): nat {
    (scid / 0x1_0000) % 0x100_0000
  }

  function OutputOf(scid: Scid): nat {
    scid % 0x1_0000
  }

  /** The parts lose nothing, and fit 24, 24 and 16 bits. */
  lemma ScidRecomposes(scid: Scid)
    ensures HeightOf(scid) * 0x100_0000_0000 + IndexOf(scid) * 0x1_0000 + OutputOf(scid) == scid
    ensures HeightOf(scid) < 0x100_0000 && IndexOf(scid) < 0x100_0000 && OutputOf(scid) < 0x1_0000
  {
    assert scid / 0x100_0000_0000 == (scid / 0x1_0000) / 0x100_0000;
  }

  /** Why a lookup found nothing. */
  datatype Reason = Immature(tipSeen: nat) | OutOfRange | SourceFailed

  /** Where a lookup is. The join waits for the block hash and the tip, in either order. */
  datatype Lookup =
    | Started(scid: Scid)
    | Joining(scid: Scid, hash: Option<Hash>, tip: Option<nat>)
    | Joined(scid: Scid, block: Hash)
    | Fetched(scid: Scid, txids: seq<Txid>)
    | Found(scid: Scid, txid: Txid)
    | Rejected(scid: Scid, why: Reason)

  type Entry = (nat, seq<Txid>)

  /** The source's best chain by height, the contents of all blocks, the shared cache and the lookups under way. */
  datatype State = State(
    tip: nat, chain: map<nat, Hash>, blocks: map<Hash, seq<Txid>>, cache: seq<Entry>, lookups: map<nat, Lookup>)

  datatype Action =
    | Begin(id: nat, scid: Scid)
    | Scan(id: nat)
    | ReadHash(id: nat)
    | ReadTip(id: nat)
    | Check(id: nat)
    | Fetch(id: nat)
    | Store(id: nat)
    | Fail(id: nat)
    | NewTip(tip: nat)
    | Reorg(height: nat, hash: Hash)

  function Cached(cache: seq<Entry>, h: nat): Option<seq<Txid>> {
    if cache == [] then None else if cache[0].0 == h then Some(cache[0].1) else Cached(cache[1..], h)
  }

  /** What the index selects from a block. */
  function Select(scid: Scid, txids: seq<Txid>): Lookup {
    if IndexOf(scid) < |txids| then Found(scid, txids[IndexOf(scid)]) else Rejected(scid, OutOfRange)
  }

  /** A short channel id put together from its parts selects the transaction at its index, whatever its other parts. */
  lemma SelectByIndex(height: nat, index: nat, output: nat, txids: seq<Txid>)
    requires height < 0x100_0000 && index < 0x100_0000 && output < 0x1_0000
    ensures var scid := height * 0x100_0000_0000 + index * 0x1_0000 + output;
            && HeightOf(scid) == height && OutputOf(scid) == output
            && Select(scid, txids)
               == if index < |txids| then Found(scid, txids[index]) else Rejected(scid, OutOfRange)
  {
    var scid := height * 0x100_0000_0000 + index * 0x1_0000 + output;
    assert scid / 0x1_0000 == height * 0x100_0000 + index;
  }

  function Insert(cache: seq<Entry>, e: Entry): seq<Entry> {
    if Cached(cache, e.0).Some? then cache
    else (if |cache| >= TXID_CACHE_SIZE then cache[1..] else cache) + [e]
  }

  predicate Buried(s: State, h: nat) {
    h + 5 <= s.tip
  }

  function Put(s: State, id: nat, l: Lookup): State {
    s.(lookups := s.lookups[id := l])
  }

  /** One atomic step of a lookup or of the source, whose tip only grows and whose reorganizations never touch buried
      blocks. The two reads of a join happen in any order; in a `careful` run the hash of a block that is not yet
      buried is only read after the tip. */
  function Step(careful: bool, s: State, a: Action): Option<State> {
    match a
    case Begin(id, scid) => if id in s.lookups then None else Some(Put(s, id, Started(scid)))
    case NewTip(tip) => if tip < s.tip then None else Some(s.(tip := tip))
    case Reorg(h, hash) =>
      if Buried(s, h) then None else Some(s.(chain := s.chain[h := hash]))
    case _ => LookupStep(careful, s, a.id, a)
  }

  function LookupStep(careful: bool, s: State, id: nat, a: Action): Option<State> {
    if id !in s.lookups then None else
    var l := s.lookups[id];
    match a
    case Scan(_) =>
      if !l.Started? then None else
      (match Cached(s.cache, HeightOf(l.scid))
       case Some(txids) => Some(Put(s, id, Select(l.scid, txids)))
       case None => Some(Put(s, id, Joining(l.scid, None, None))))
    case ReadHash(_) =>
      if l.Joining? && l.hash.None? && HeightOf(l.scid) in s.chain
         && (careful ==> l.tip.Some? || Buried(s, HeightOf(l.scid)))
      then Some(Put(s, id, l.(hash := Some(s.chain[HeightOf(l.scid)]))))
      else None
    case ReadTip(_) =>
      if l.Joining? && l.tip.None? then Some(Put(s, id, l.(tip := Some(s.tip)))) else None
    case Check(_) =>
      if !(l.Joining? && l.hash.Some? && l.tip.Some?) then None
      else if HeightOf(l.scid) + 5 > l.tip.value then Some(Put(s, id, Rejected(l.scid, Immature(l.tip.value))))
      else Some(Put(s, id, Joined(l.scid, l.hash.value)))
    case Fetch(_) =>
      if l.Joined? && l.block in s.blocks then Some(Put(s, id, Fetched(l.scid, s.blocks[l.block]))) else None
    case Store(_) =>
      if !l.Fetched? then None else
      var result := Select(l.scid, l.txids);
      if result.Rejected? then Some(Put(s, id, result))
      else Some(Put(s.(cache := Insert(s.cache, (HeightOf(l.scid), l.txids))), id, result))
    case Fail(_) =>
      if l.Joining? || l.Joined? then Some(Put(s, id, Rejected(l.scid, SourceFailed))) else None
    case _ => None
  }

  function Run(careful: bool, s: State, actions: seq<Action>): Option<State>
    decreases |actions|
  {
    if actions == [] then Some(s) else
    match Step(careful, s, actions[0])
    case None => None
    case Some(s1) => Run(careful, s1, actions[1..])
  }

  /** What a lookup without a cache comes to when the source answers, by its tip and block at this moment. */
  function CacheFree(s: State, scid: Scid): Lookup {
    var h := HeightOf(scid);
    if !Buried(s, h) then Rejected(scid, Immature(s.tip))
    else if h in s.chain && s.chain[h] in s.blocks then Select(scid, s.blocks[s.chain[h]])
    else Rejected(scid, SourceFailed)
  }

  /** These are the contents of the buried block at height `h`. */
  ghost predicate IsBuriedBlock(s: State, h: nat, txids: seq<Txid>) {
    Buried(s, h) && h in s.chain && s.chain[h] in s.blocks && txids == s.blocks[s.chain[h]]
  }

  ghost predicate IsBuriedHash(s: State, h: nat, hash: Hash) {
    Buried(s, h) && h in s.chain && s.chain[h] == hash
  }

  ghost predicate GoodCache(s: State) {
    forall i | 0 <= i < |s.cache| :: IsBuriedBlock(s, s.cache[i].0, s.cache[i].1)
  }

  ghost predicate GoodLookup(s: State, l: Lookup) {
    match l
    case Started(_) => true
    case Joining(scid, hash, tip) =>
      && (hash.Some? ==> (tip.Some? && tip.value < HeightOf(scid) + 5) || IsBuriedHash(s, HeightOf(scid), hash.value))
      && (tip.Some? ==> tip.value <= s.tip)
    case Joined(scid, hash) => IsBuriedHash(s, HeightOf(scid), hash)
    case Fetched(scid, txids) => IsBuriedBlock(s, HeightOf(scid), txids)
    case Found(scid, _) => CacheFree(s, scid) == l
    case Rejected(scid, OutOfRange) => CacheFree(s, scid) == l
    case Rejected(scid, Immature(tipSeen)) => tipSeen < HeightOf(scid) + 5 && tipSeen <= s.tip
    case Rejected(_, SourceFailed) => true
  }

  ghost predicate GoodLookups(s: State) {
    forall id | id in s.lookups :: GoodLookup(s, s.lookups[id])
  }

  ghost predicate DistinctHeights(cache: seq<Entry>) {
    forall i, j | 0 <= i < j < |cache| :: cache[i].0 != cache[j].0
  }

  lemma {:induction false} CachedEntry(cache: seq<Entry>, h: nat)
    ensures Cached(cache, h).Some? ==> exists i | 0 <= i < |cache| :: cache[i] == (h, Cached(cache, h).value)
    ensures Cached(cache, h).None? ==> forall i | 0 <= i < |cache| :: cache[i].0 != h
    decreases |cache|
  {
    if cache != [] && cache[0].0 != h {
      CachedEntry(cache[1..], h);
      if Cached(cache, h).Some? {
        var i :| 0 <= i < |cache| - 1 && cache[1..][i] == (h, Cached(cache, h).value);
        assert cache[i + 1] == (h, Cached(cache, h).value);
      }
    } else if cache != [] {
      assert cache[0] == (h, Cached(cache, h).value);
    }
  }

  /** The cache never holds two entries for a height nor more than its limit. */
  lemma InsertBounded(cache: seq<Entry>, e: Entry)
    requires DistinctHeights(cache) && |cache| <= TXID_CACHE_SIZE
    ensures DistinctHeights(Insert(cache, e)) && |Insert(cache, e)| <= TXID_CACHE_SIZE
  {
    CachedEntry(cache, e.0);
  }

  function InsertAll(cache: seq<Entry>, es: seq<Entry>): seq<Entry> {
    if es == [] then cache else Insert(InsertAll(cache, es[..|es| - 1]), es[|es| - 1])
  }

  /** The newest entries, as many as fit. */
  function Newest(es: seq<Entry>): seq<Entry> {
    if |es| <= TXID_CACHE_SIZE then es else es[|es| - TXID_CACHE_SIZE..]
  }

  lemma {:induction false} CachedOnlyListed(cache: seq<Entry>, h: nat)
    requires forall i | 0 <= i < |cache| :: cache[i].0 != h
    ensures Cached(cache, h).None?
    decreases |cache|
  {
    if cache != [] {
      CachedOnlyListed(cache[1..], h);
    }
  }

  lemma NewestIsNew(front: seq<Entry>, e: Entry)
    requires forall i | 0 <= i < |front| :: front[i].0 != e.0
    ensures Cached(Newest(front), e.0).None?
  {
    CachedOnlyListed(Newest(front), e.0);
  }

  lemma InsertNewest(front: seq<Entry>, e: Entry)
    requires Cached(Newest(front), e.0).None?
    ensures Insert(Newest(front), e) == Newest(front + [e])
  {
  }

  /** From empty, blocks of different heights are kept first in, first out: the newest fifty, oldest first. */
  lemma {:induction false} FirstInFirstOut(es: seq<Entry>)
    requires DistinctHeights(es)
    ensures InsertAll([], es) == Newest(es)
    decreases |es|
  {
    if es != [] {
      var front, e := es[..|es| - 1], es[|es| - 1];
      FirstInFirstOut(front);
      NewestIsNew(front, e);
      InsertNewest(front, e);
      assert front + [e] == es;
    }
  }

  /** A height already cached is not inserted again. */
  lemma InsertOnce(cache: seq<Entry>, e: Entry, i: nat)
    requires i < |cache| && cache[i].0 == e.0
    ensures Insert(cache, e) == cache
  {
    CachedEntry(cache, e.0);
  }

  /** Adding buried content keeps every entry right. */
  lemma InsertGood(s: State, e: Entry)
    requires GoodCache(s) && IsBuriedBlock(s, e.0, e.1)
    ensures GoodCache(s.(cache := Insert(s.cache, e)))
  {
    var c := Insert(s.cache, e);
    forall i | 0 <= i < |c| ensures IsBuriedBlock(s, c[i].0, c[i].1) {
      assert c[i] == e || c[i] in s.cache;
    }
  }

  lemma SelectGood(s: State, scid: Scid, txids: seq<Txid>)
    requires IsBuriedBlock(s, HeightOf(scid), txids)
    ensures Select(scid, txids) == CacheFree(s, scid) && GoodLookup(s, Select(scid, txids))
  {
  }

  /** A cache hit picks what the lookup would have picked without a cache at that moment. */
  lemma HitIsCacheFree(s: State, scid: Scid)
    requires GoodCache(s) && Cached(s.cache, HeightOf(scid)).Some?
    ensures Select(scid, Cached(s.cache, HeightOf(scid)).value) == CacheFree(s, scid)
    ensures GoodLookup(s, CacheFree(s, scid))
  {
    CachedEntry(s.cache, HeightOf(scid));
    SelectGood(s, scid, Cached(s.cache, HeightOf(scid)).value);
  }

  ghost predicate Inv(s: State) {
    DistinctHeights(s.cache) && |s.cache| <= TXID_CACHE_SIZE && GoodCache(s) && GoodLookups(s)
  }

  lemma PutGood(s: State, id: nat, l: Lookup)
    requires GoodLookups(s) && GoodLookup(s, l)
    ensures GoodLookups(Put(s, id, l))
  {
    var s1 := Put(s, id, l);
    forall k | k in s1.lookups ensures GoodLookup(s1, s1.lookups[k]) {
      var x := s1.lookups[k];
      assert GoodLookup(s, x);
    }
  }

  lemma CacheIrrelevant(s: State, cache: seq<Entry>)
    requires GoodLookups(s)
    ensures GoodLookups(s.(cache := cache))
  {
    forall k | k in s.lookups ensures GoodLookup(s.(cache := cache), s.lookups[k]) {
      assert GoodLookup(s, s.lookups[k]);
    }
  }

  lemma SourceStepKeepsInv(s: State, a: Action)
    requires Inv(s) && (a.NewTip? || a.Reorg?) && Step(true, s, a).Some?
    ensures Inv(Step(true, s, a).value)
  {
    var s1 := Step(true, s, a).value;
    forall i | 0 <= i < |s1.cache| ensures IsBuriedBlock(s1, s1.cache[i].0, s1.cache[i].1) {
      assert IsBuriedBlock(s, s.cache[i].0, s.cache[i].1);
    }
    forall k | k in s1.lookups ensures GoodLookup(s1, s1.lookups[k]) {
      assert GoodLookup(s, s.lookups[k]);
    }
  }

  lemma LookupStepKeepsInv(s: State, a: Action)
    requires Inv(s) && !a.NewTip? && !a.Reorg? && Step(true, s, a).Some?
    ensures Inv(Step(true, s, a).value)
  {
    var s1 := Step(true, s, a).value;
    var l := s1.lookups[a.id];
    if a.Scan? && Cached(s.cache, HeightOf(s.lookups[a.id].scid)).Some? {
      HitIsCacheFree(s, s.lookups[a.id].scid);
    }
    if !a.Begin? {
      assert GoodLookup(s, s.lookups[a.id]);
    }
    if a.Store? {
      var f := s.lookups[a.id];
      var e := (HeightOf(f.scid), f.txids);
      SelectGood(s, f.scid, f.txids);
      InsertBounded(s.cache, e);
      InsertGood(s, e);
      if l.Found? {
        CacheIrrelevant(s, Insert(s.cache, e));
        PutGood(s.(cache := Insert(s.cache, e)), a.id, l);
      } else {
        PutGood(s, a.id, l);
      }
    } else {
      PutGood(s, a.id, l);
    }
  }

  lemma {:induction false} RunKeepsInv(s: State, actions: seq<Action>)
    requires Inv(s) && Run(true, s, actions).Some?
    ensures Inv(Run(true, s, actions).value)
    decreases |actions|
  {
    if actions != [] {
      if actions[0].NewTip? || actions[0].Reorg? {
        SourceStepKeepsInv(s, actions[0]);
      } else {
        LookupStepKeepsInv(s, actions[0]);
      }
      RunKeepsInv(Step(true, s, actions[0]).value, actions[1..]);
    }
  }

  predicate Fresh(s: State) {
    s.cache == [] && s.lookups == map[]
  }

  /** In every careful interleaving, a finished lookup has what a lookup without a cache finds, then and ever after: the
      same transaction, the same out-of-range rejection, or an immaturity that really was reported. */
  lemma LookupsAgreeWithCacheFree(s: State, actions: seq<Action>, id: nat)
    requires Fresh(s) && Run(true, s, actions).Some? && id in Run(true, s, actions).value.lookups
    ensures var s1 := Run(true, s, actions).value; var l := s1.lookups[id];
            && (l.Found? || (l.Rejected? && l.why.OutOfRange?) ==> l == CacheFree(s1, l.scid))
            && (l.Rejected? && l.why.Immature? ==> l.why.tipSeen < HeightOf(l.scid) + 5 && l.why.tipSeen <= s1.tip)
            && |s1.cache| <= TXID_CACHE_SIZE && DistinctHeights(s1.cache)
  {
    RunKeepsInv(s, actions);
    var s1 := Run(true, s, actions).value;
    assert GoodLookup(s1, s1.lookups[id]);
  }

  /** The lookup went by a block's contents: it found a transaction or found the block too short. */
  predicate Judged(l: Lookup) {
    l.Found? || (l.Rejected? && l.why.OutOfRange?)
  }

  /** This lookup, if it went by a block's contents, came to what it would without a cache. */
  ghost predicate Right(s: State, id: nat) {
    id in s.lookups && (Judged(s.lookups[id]) ==> s.lookups[id] == CacheFree(s, s.lookups[id].scid))
  }

  /** Whatever happens from here on, in any order, the lookup ends up right. */
  ghost predicate AlwaysRight(s: State, id: nat) {
    forall actions :: Run(false, s, actions).Some? ==> Right(Run(false, s, actions).value, id)
  }

  /** Past both the cache and the hash, a good lookup stays good however careless the others are. */
  ghost predicate PastHash(l: Lookup) {
    !l.Started? && (l.Joining? ==> l.hash.Some?)
  }

  ghost predicate StaysGood(s: State, a: Action, id: nat)
    requires Step(false, s, a).Some?
  {
    var s1 := Step(false, s, a).value;
    id in s1.lookups && GoodLookup(s1, s1.lookups[id]) && PastHash(s1.lookups[id])
  }

  lemma GoodStaysOwn(s: State, a: Action, id: nat)
    requires id in s.lookups && GoodLookup(s, s.lookups[id]) && PastHash(s.lookups[id]) && Step(false, s, a).Some?
    requires !a.NewTip? && !a.Reorg? && a.id == id
    ensures StaysGood(s, a, id)
  {
    if a.Store? {
      SelectGood(s, s.lookups[id].scid, s.lookups[id].txids);
    }
  }

  lemma GoodStays(s: State, a: Action, id: nat)
    requires id in s.lookups && GoodLookup(s, s.lookups[id]) && PastHash(s.lookups[id]) && Step(false, s, a).Some?
    ensures StaysGood(s, a, id)
  {
    if !a.NewTip? && !a.Reorg? && a.id == id {
      GoodStaysOwn(s, a, id);
    }
  }

  lemma {:induction false} RunStaysGood(s: State, actions: seq<Action>, id: nat)
    requires id in s.lookups && GoodLookup(s, s.lookups[id]) && PastHash(s.lookups[id])
    requires Run(false, s, actions).Some?
    ensures Right(Run(false, s, actions).value, id)
    decreases |actions|
  {
    if actions != [] {
      GoodStays(s, actions[0], id);
      RunStaysGood(Step(false, s, actions[0]).value, actions[1..], id);
    }
  }

  lemma RunCons(careful: bool, s: State, s1: State, a: Action, rest: seq<Action>)
    requires Step(careful, s, a) == Some(s1)
    ensures Run(careful, s, [a] + rest) == Run(careful, s1, rest)
  {
    assert ([a] + rest)[1..] == rest;
  }

  /** A lookup is given up as the source's fault only where the source has failed it. */
  lemma {:induction false} BlamedOnSource(careful: bool, s: State, actions: seq<Action>, id: nat)
    requires Run(careful, s, actions).Some? && id in Run(careful, s, actions).value.lookups
    requires Blamed(Run(careful, s, actions).value.lookups[id]) && (id in s.lookups ==> !Blamed(s.lookups[id]))
    ensures Fail(id) in actions
    decreases |actions|
  {
    if actions != [] {
      var s1 := Step(careful, s, actions[0]).value;
      if id in s1.lookups && Blamed(s1.lookups[id]) {
        assert actions[0] == Fail(id);
      } else {
        BlamedOnSource(careful, s1, actions[1..], id);
      }
    }
  }

  /** The source can fail a lookup at any time while it is being asked, and not before or after. */
  lemma FailsWhileAsked(careful: bool, s: State, id: nat)
    ensures Step(careful, s, Fail(id)).Some? <==>
            id in s.lookups
            && !(s.lookups[id].Started? || s.lookups[id].Fetched? || s.lookups[id].Found? || s.lookups[id].Rejected?)
  {
  }

  predicate Blamed(l: Lookup) {
    l.Rejected? && l.why.SourceFailed?
  }

  lemma CachedConcat(a: seq<Entry>, b: seq<Entry>, h: nat)
    requires Cached(a, h).None?
    ensures Cached(a + b, h) == Cached(b, h)
    decreases |a|
  {
    if a == [] {
      assert a + b == b;
    } else {
      CachedConcat(a[1..], b, h);
      assert (a + b)[1..] == a[1..] + b;
    }
  }

  lemma InsertCaches(cache: seq<Entry>, e: Entry)
    requires Cached(cache, e.0).None?
    ensures Cached(Insert(cache, e), e.0) == Some(e.1)
  {
    CachedConcat(if |cache| >= TXID_CACHE_SIZE then cache[1..] else cache, [e], e.0);
  }

  /** The cache serves contents for `h` that are not those of the buried block there. */
  ghost predicate ServesStale(s: State, h: nat, txids: seq<Txid>, other: Hash) {
    Buried(s, h) && h in s.chain && s.chain[h] == other && other in s.blocks && Cached(s.cache, h) == Some(txids)
  }

  /** Every lookup of that height begun from then on is answered from the cache, wrongly if the contents differ for
      it. */
  lemma LaterIsStale(careful: bool, s: State, id: nat, scid: Scid, txids: seq<Txid>, other: Hash)
    requires ServesStale(s, HeightOf(scid), txids, other) && id !in s.lookups
    requires Select(scid, txids) != Select(scid, s.blocks[other])
    ensures Run(careful, s, [Begin(id, scid)] + ([Scan(id)] + [])) == Some(Put(s, id, Select(scid, txids)))
    ensures !Right(Put(s, id, Select(scid, txids)), id)
  {
    var s1 := Put(s, id, Started(scid));
    RunCons(careful, s, s1, Begin(id, scid), [Scan(id)] + []);
    RunCons(careful, s1, Put(s1, id, Select(scid, txids)), Scan(id), []);
    assert Put(s1, id, Select(scid, txids)).lookups == Put(s, id, Select(scid, txids)).lookups;
  }

  /** A block is stored if the lookup finds its transaction there. */
  function Stored(s: State, scid: Scid, hash: Hash): seq<Entry>
    requires hash in s.blocks
  {
    if Select(scid, s.blocks[hash]).Found? then Insert(s.cache, (HeightOf(scid), s.blocks[hash])) else s.cache
  }

  lemma AcceptsWhatItRead(careful: bool, s: State, id: nat, scid: Scid, hash: Hash)
    requires id in s.lookups && s.lookups[id] == Joining(scid, Some(hash), Some(s.tip))
    requires Buried(s, HeightOf(scid)) && hash in s.blocks
    ensures var end := Run(careful, s, [Check(id)] + ([Fetch(id)] + ([Store(id)] + [])));
            && end.Some? && end.value == Put(s.(cache := end.value.cache), id, Select(scid, s.blocks[hash]))
            && end.value.cache == Stored(s, scid, hash)
            && (Cached(s.cache, HeightOf(scid)).None? && Select(scid, s.blocks[hash]).Found? ==>
                  Cached(end.value.cache, HeightOf(scid)) == Some(s.blocks[hash]))
  {
    var s1 := Put(s, id, Joined(scid, hash));
    var s2 := Put(s1, id, Fetched(scid, s.blocks[hash]));
    var result := Select(scid, s.blocks[hash]);
    var s3 := Put(s2.(cache := Stored(s, scid, hash)), id, result);
    RunCons(careful, s, s1, Check(id), [Fetch(id)] + ([Store(id)] + []));
    RunCons(careful, s1, s2, Fetch(id), [Store(id)] + []);
    RunCons(careful, s2, s3, Store(id), []);
    if Cached(s.cache, HeightOf(scid)).None? {
      InsertCaches(s.cache, (HeightOf(scid), s.blocks[hash]));
    }
    assert s3.lookups == s.lookups[id := result];
  }

  /** The steps of a lookup that meets no cache entry and is not disturbed. */
  function Alone(s: State, id: nat, scid: Scid): seq<Action> {
    [Begin(id, scid)] + ([Scan(id)] + ([ReadTip(id)] + ([ReadHash(id)] + ([Check(id)]
    + if Buried(s, HeightOf(scid)) then [Fetch(id)] + ([Store(id)] + []) else []))))
  }

  lemma PutTwice(s: State, id: nat, l: Lookup, l1: Lookup)
    ensures Put(Put(s, id, l), id, l1) == Put(s, id, l1)
  {
    assert s.lookups[id := l][id := l1] == s.lookups[id := l1];
  }

  /** Such a lookup comes to what it would without a cache, immaturity included, and stores the block if it finds its
      transaction there. */
  lemma AloneAgrees(careful: bool, s: State, id: nat, scid: Scid)
    requires id !in s.lookups && Cached(s.cache, HeightOf(scid)).None?
    requires HeightOf(scid) in s.chain && s.chain[HeightOf(scid)] in s.blocks
    ensures var cache := if Buried(s, HeightOf(scid)) then Stored(s, scid, s.chain[HeightOf(scid)]) else s.cache;
            Run(careful, s, Alone(s, id, scid)) == Some(Put(s.(cache := cache), id, CacheFree(s, scid)))
  {
    var hash, tip := s.chain[HeightOf(scid)], s.tip;
    var end := if Buried(s, HeightOf(scid)) then [Fetch(id)] + ([Store(id)] + []) else [];
    var read := Put(s, id, Joining(scid, Some(hash), Some(tip)));
    AloneReads(careful, s, id, scid, [Check(id)] + end);
    if Buried(s, HeightOf(scid)) {
      AcceptsWhatItRead(careful, read, id, scid, hash);
      PutTwice(s.(cache := Stored(s, scid, hash)), id, read.lookups[id], CacheFree(s, scid));
    } else {
      PutTwice(s, id, read.lookups[id], CacheFree(s, scid));
      RunCons(careful, read, Put(s, id, CacheFree(s, scid)), Check(id), []);
    }
  }

  lemma AloneReads(careful: bool, s: State, id: nat, scid: Scid, rest: seq<Action>)
    requires id !in s.lookups && Cached(s.cache, HeightOf(scid)).None? && HeightOf(scid) in s.chain
    ensures Run(careful, s, [Begin(id, scid)] + ([Scan(id)] + ([ReadTip(id)] + ([ReadHash(id)] + rest))))
            == Run(careful, Put(s, id, Joining(scid, Some(s.chain[HeightOf(scid)]), Some(s.tip))), rest)
  {
    var l1, l2 := Started(scid), Joining(scid, None, None);
    var l3, l4 := l2.(tip := Some(s.tip)), Joining(scid, Some(s.chain[HeightOf(scid)]), Some(s.tip));
    PutTwice(s, id, l1, l2);
    PutTwice(s, id, l2, l3);
    PutTwice(s, id, l3, l4);
    RunCons(careful, s, Put(s, id, l1), Begin(id, scid), [Scan(id)] + ([ReadTip(id)] + ([ReadHash(id)] + rest)));
    RunCons(careful, Put(s, id, l1), Put(s, id, l2), Scan(id), [ReadTip(id)] + ([ReadHash(id)] + rest));
    RunCons(careful, Put(s, id, l2), Put(s, id, l3), ReadTip(id), [ReadHash(id)] + rest);
    RunCons(careful, Put(s, id, l3), Put(s, id, l4), ReadHash(id), rest);
  }

  /** If the block is replaced after its hash was read, and only then a deeper tip arrives, the lookup goes by a block
      that is no longer in the chain; if it finds its transaction there and nothing was cached for the height, it caches
      that block. */
  lemma RaceFindsStale(careful: bool, s: State, id: nat, scid: Scid, hash: Hash, other: Hash) returns (run: seq<Action>)
    requires id in s.lookups && s.lookups[id] == Joining(scid, Some(hash), None)
    requires !Buried(s, HeightOf(scid)) && hash in s.blocks && other in s.blocks
    requires Select(scid, s.blocks[other]) != Select(scid, s.blocks[hash])
    ensures Run(careful, s, run).Some? && !Right(Run(careful, s, run).value, id)
    ensures var end := Run(careful, s, run).value;
            && (Cached(s.cache, HeightOf(scid)).None? && Select(scid, s.blocks[hash]).Found? ==>
                  ServesStale(end, HeightOf(scid), s.blocks[hash], other))
            && end.blocks == s.blocks && end.lookups.Keys == s.lookups.Keys
  {
    var h := HeightOf(scid);
    var s1 := s.(chain := s.chain[h := other]);
    var s2 := s1.(tip := h + 5);
    var s3 := Put(s2, id, Joining(scid, Some(hash), Some(h + 5)));
    AcceptsWhatItRead(careful, s3, id, scid, hash);
    var accept := [Check(id)] + ([Fetch(id)] + ([Store(id)] + []));
    RunCons(careful, s2, s3, ReadTip(id), accept);
    RunCons(careful, s1, s2, NewTip(h + 5), [ReadTip(id)] + accept);
    RunCons(careful, s, s1, Reorg(h, other), [NewTip(h + 5)] + ([ReadTip(id)] + accept));
    run := [Reorg(h, other)] + ([NewTip(h + 5)] + ([ReadTip(id)] + accept));
  }

  lemma {:induction false} RunConcat(careful: bool, s: State, a: seq<Action>, b: seq<Action>)
    requires Run(careful, s, a).Some?
    ensures Run(careful, s, a + b) == Run(careful, Run(careful, s, a).value, b)
    decreases |a|
  {
    if a == [] {
      assert a + b == b;
    } else {
      RunConcat(careful, Step(careful, s, a[0]).value, a[1..], b);
      assert (a + b)[1..] == a[1..] + b;
    }
  }

  /** The race followed by a later lookup of the same height, which never reads a hash and is wrong too. */
  lemma RaceSpreads(careful: bool, s: State, id: nat, scid: Scid, hash: Hash, other: Hash, later: nat)
    returns (run: seq<Action>)
    requires id in s.lookups && s.lookups[id] == Joining(scid, Some(hash), None) && later !in s.lookups
    requires !Buried(s, HeightOf(scid)) && hash in s.blocks && other in s.blocks
    requires Select(scid, s.blocks[hash]).Found? && Select(scid, s.blocks[other]) != Select(scid, s.blocks[hash])
    requires Cached(s.cache, HeightOf(scid)).None?
    ensures Run(careful, s, run).Some?
    ensures var end := Run(careful, s, run).value;
            && end.lookups.Keys == s.lookups.Keys + {later} && !Right(end, id) && !Right(end, later)
            && ServesStale(end, HeightOf(scid), s.blocks[hash], other) && end.blocks == s.blocks
  {
    var race := RaceFindsStale(careful, s, id, scid, hash, other);
    var end := Run(careful, s, race).value;
    LaterIsStale(careful, end, later, scid, s.blocks[hash], other);
    RunConcat(careful, s, race, [Begin(later, scid)] + ([Scan(later)] + []));
    run := race + ([Begin(later, scid)] + ([Scan(later)] + []));
  }

  /** A lookup that has just read a hash is right however careless the others are exactly if it had read the tip before,
      or the block was already buried; given that the source has a block to switch to that would give another answer. */
  lemma ReadOrderDecides(s: State, id: nat, scid: Scid, tip: Option<nat>, other: Hash)
    requires HeightOf(scid) in s.chain && id in s.lookups
    requires s.lookups[id] == Joining(scid, Some(s.chain[HeightOf(scid)]), tip) && (tip.Some? ==> tip.value <= s.tip)
    requires s.chain[HeightOf(scid)] in s.blocks && other in s.blocks
    requires Select(scid, s.blocks[other]) != Select(scid, s.blocks[s.chain[HeightOf(scid)]])
    ensures AlwaysRight(s, id) <==> tip.Some? || Buried(s, HeightOf(scid))
  {
    if tip.Some? || Buried(s, HeightOf(scid)) {
      forall actions | Run(false, s, actions).Some? ensures Right(Run(false, s, actions).value, id) {
        RunStaysGood(s, actions, id);
      }
    } else {
      var run := RaceFindsStale(false, s, id, scid, s.chain[HeightOf(scid)], other);
      assert Run(false, s, run).Some?;
    }
  }

  /** Whatever careful lookups do from here on, every lookup ends up right. */
  ghost predicate AllRight(s: State) {
    forall actions :: Run(true, s, actions).Some? ==>
      forall j | j in Run(true, s, actions).value.lookups :: Right(Run(true, s, actions).value, j)
  }

  /** At least those not yet begun do. */
  ghost predicate LaterRight(s: State) {
    forall actions :: Run(true, s, actions).Some? ==>
      forall j | j in Run(true, s, actions).value.lookups && j !in s.lookups :: Right(Run(true, s, actions).value, j)
  }

  lemma InvIsRight(s: State, actions: seq<Action>)
    requires Inv(s) && Run(true, s, actions).Some?
    ensures forall j | j in Run(true, s, actions).value.lookups :: Right(Run(true, s, actions).value, j)
  {
    RunKeepsInv(s, actions);
    var s1 := Run(true, s, actions).value;
    forall j | j in s1.lookups ensures Right(s1, j) {
      assert GoodLookup(s1, s1.lookups[j]);
    }
  }

  /** Nothing less than a careful read will do: from any state that careful runs lead to, reading one more hash leaves
      this and every other lookup right for good exactly if that read is itself careful. It leaves the later ones right
      for good exactly if it is careful or this lookup will find its block too short, and so not cache it. */
  lemma CarefulIsExact(s: State, id: nat, scid: Scid, tip: Option<nat>, other: Hash, later: nat)
    requires Inv(s) && id in s.lookups && s.lookups[id] == Joining(scid, None, tip) && later !in s.lookups
    requires HeightOf(scid) in s.chain && s.chain[HeightOf(scid)] in s.blocks && other in s.blocks
    requires Select(scid, s.blocks[other]) != Select(scid, s.blocks[s.chain[HeightOf(scid)]])
    ensures Step(false, s, ReadHash(id)).Some?
    ensures AllRight(Step(false, s, ReadHash(id)).value) <==> Step(true, s, ReadHash(id)).Some?
    ensures LaterRight(Step(false, s, ReadHash(id)).value) <==>
            Step(true, s, ReadHash(id)).Some? || !Select(scid, s.blocks[s.chain[HeightOf(scid)]]).Found?
  {
    var hash := s.chain[HeightOf(scid)];
    var s1 := Step(false, s, ReadHash(id)).value;
    if Step(true, s, ReadHash(id)).Some? {
      LookupStepKeepsInv(s, ReadHash(id));
      AllRightFrom(s1);
    } else {
      var run := RaceFindsStale(true, s1, id, scid, hash, other);
      assert Run(true, s1, run).Some? && id in Run(true, s1, run).value.lookups;
      if Select(scid, s.blocks[hash]).Found? {
        NotBuriedNotCached(s, HeightOf(scid));
        run := RaceSpreads(true, s1, id, scid, hash, other, later);
        assert Run(true, s1, run).Some? && later !in s1.lookups;
      } else {
        WithoutInv(s, id);
        assert Without(s1, id) == Without(s, id);
        HarmlessLeavesLaterRight(s1, id);
      }
    }
  }

  lemma AllRightFrom(s: State)
    requires Inv(s)
    ensures AllRight(s) && LaterRight(s)
  {
    forall actions | Run(true, s, actions).Some?
      ensures forall j | j in Run(true, s, actions).value.lookups :: Right(Run(true, s, actions).value, j)
    {
      InvIsRight(s, actions);
    }
  }

  /** The state as if this lookup did not exist. */
  function Without(s: State, id: nat): State {
    s.(lookups := s.lookups - {id})
  }

  lemma WithoutInv(s: State, id: nat)
    requires Inv(s)
    ensures Inv(Without(s, id))
  {
    forall k | k in Without(s, id).lookups ensures GoodLookup(Without(s, id), s.lookups[k]) {
      assert GoodLookup(s, s.lookups[k]);
    }
  }

  /** A lookup that can no longer put anything into the cache: the block it goes by is too short for it. */
  ghost predicate Harmless(s: State, l: Lookup) {
    match l
    case Started(_) => false
    case Joining(scid, hash, _) => hash.Some? && hash.value in s.blocks && !Select(scid, s.blocks[hash.value]).Found?
    case Joined(scid, hash) => hash in s.blocks && !Select(scid, s.blocks[hash]).Found?
    case Fetched(scid, txids) => !Select(scid, txids).Found?
    case Found(_, _) => false
    case Rejected(_, _) => true
  }

  /** Such a lookup's steps do not matter to the others, and it stays such a one whatever they do. */
  lemma HarmlessStep(s: State, a: Action, id: nat)
    requires id in s.lookups && Harmless(s, s.lookups[id]) && Step(true, s, a).Some?
    ensures var s1 := Step(true, s, a).value;
            && id in s1.lookups && Harmless(s1, s1.lookups[id])
            && (Without(s1, id) == Without(s, id) || Step(true, Without(s, id), a) == Some(Without(s1, id)))
  {
    var s1 := Step(true, s, a).value;
    if a.NewTip? || a.Reorg? || a.id != id {
      OthersUnaware(s, a, id);
    } else {
      assert s1.lookups - {id} == s.lookups - {id};
    }
  }

  lemma OthersUnaware(s: State, a: Action, id: nat)
    requires Step(true, s, a).Some? && id in s.lookups && (a.NewTip? || a.Reorg? || a.id != id)
    ensures var s1 := Step(true, s, a).value;
            Step(true, Without(s, id), a) == Some(Without(s1, id))
            && id in s1.lookups && s1.lookups[id] == s.lookups[id] && s1.blocks == s.blocks
  {
    if !a.NewTip? && !a.Reorg? {
      var l := Step(true, s, a).value.lookups[a.id];
      assert (s.lookups - {id})[a.id := l] == s.lookups[a.id := l] - {id};
    }
  }

  lemma {:induction false} HarmlessRun(s: State, actions: seq<Action>, id: nat)
    requires id in s.lookups && Harmless(s, s.lookups[id]) && Inv(Without(s, id)) && Run(true, s, actions).Some?
    ensures Inv(Without(Run(true, s, actions).value, id))
    decreases |actions|
  {
    if actions != [] {
      HarmlessStep(s, actions[0], id);
      var s1 := Step(true, s, actions[0]).value;
      if Without(s1, id) != Without(s, id) {
        if actions[0].NewTip? || actions[0].Reorg? {
          SourceStepKeepsInv(Without(s, id), actions[0]);
        } else {
          LookupStepKeepsInv(Without(s, id), actions[0]);
        }
      }
      HarmlessRun(s1, actions[1..], id);
    }
  }

  lemma HarmlessLeavesLaterRight(s: State, id: nat)
    requires id in s.lookups && Harmless(s, s.lookups[id]) && Inv(Without(s, id))
    ensures LaterRight(s)
  {
    forall actions | Run(true, s, actions).Some?
      ensures forall j | j in Run(true, s, actions).value.lookups && j !in s.lookups ::
                Right(Run(true, s, actions).value, j)
    {
      HarmlessRun(s, actions, id);
      var end := Run(true, s, actions).value;
      forall j | j in end.lookups && j !in s.lookups ensures Right(end, j) {
        assert GoodLookup(Without(end, id), Without(end, id).lookups[j]);
      }
    }
  }

  lemma NotBuriedNotCached(s: State, h: nat)
    requires GoodCache(s) && !Buried(s, h)
    ensures Cached(s.cache, h).None?
  {
    CachedEntry(s.cache, h);
  }

  /** Such a run from nothing: lookup 0 reads the hash of block 0, which holds transaction 7, at tip 4; the block is
      replaced by one holding 8; lookup 0 finds and caches 7, and lookup 1 is served it. */
  lemma StaleBlockFound() returns (s: State, run: seq<Action>)
    ensures Fresh(s) && Run(false, s, run).Some?
    ensures var end := Run(false, s, run).value;
            && end.lookups.Keys == {0, 1} && !Right(end, 0) && !Right(end, 1)
            && Cached(end.cache, 0) == Some([7]) && CacheFree(end, 0) == Found(0, 8)
  {
    s := State(4, map[0 := 1], map[1 := [7], 2 := [8]], [], map[]);
    var s1 := Put(s, 0, Started(0));
    var s2 := Put(s1, 0, Joining(0, None, None));
    var s3 := Put(s2, 0, Joining(0, Some(1), None));
    assert Select(0, [7]) == Found(0, 7) && Select(0, [8]) == Found(0, 8);
    var rest := RaceSpreads(false, s3, 0, 0, 1, 2, 1);
    RunCons(false, s2, s3, ReadHash(0), rest);
    RunCons(false, s1, s2, Scan(0), [ReadHash(0)] + rest);
    RunCons(false, s, s1, Begin(0, 0), [Scan(0)] + ([ReadHash(0)] + rest));
    run := [Begin(0, 0)] + ([Scan(0)] + ([ReadHash(0)] + rest));
  }
}
