/** Which serialized monitors may be loaded after a crash, and which writes still owe a completion callback. */
module MonitorTracker {
  import opened Wrappers

  type Blob = seq<nat>

  /** A monitor id and the monitor serialized under it. */
  type Entry = (nat, Blob)

  datatype Status = Completed | InProgress | UnrecoverableError

  datatype UpdateSelector = First | Second | Last

  datatype ReloadSelector = Persisted | FirstPending | LastPending

  /** The candidates that a durable write of `id` does not supersede. */
  function NewerThan(s: seq<Entry>, id: nat): (r: seq<Entry>)
    ensures forall e | e in r :: e in s && e.0 > id
  {
    if s == [] then [] else
    var rest := NewerThan(s[..|s| - 1], id);
    var e := s[|s| - 1];
    if e.0 > id then rest + [e] else rest
  }

  /** Exactly the newer ones are kept, as often as they were there. */
  lemma {:induction false} NewerThanExact(s: seq<Entry>, id: nat, e: Entry)
    ensures multiset(NewerThan(s, id))[e] == if e.0 > id then multiset(s)[e] else 0
    decreases |s|
  {
    if s != [] {
      NewerThanExact(s[..|s| - 1], id, e);
      assert s == s[..|s| - 1] + [s[|s| - 1]];
    }
  }

  /** And in the order they were in. */
  lemma {:induction false} NewerThanConcat(a: seq<Entry>, b: seq<Entry>, id: nat)
    ensures NewerThan(a + b, id) == NewerThan(a, id) + NewerThan(b, id)
    decreases |b|
  {
    if b == [] {
      assert a + b == a;
    } else {
      NewerThanConcat(a, b[..|b| - 1], id);
      assert (a + b)[..|a + b| - 1] == a + b[..|b| - 1];
    }
  }

  /** Every newer candidate stays selectable, and the newest stays last. */
  ghost predicate NewerKept(before: seq<Entry>, after: seq<Entry>, id: nat) {
    && (forall e | e in before && e.0 > id :: e in after)
    && (before != [] && before[|before| - 1].0 > id ==> after != [] && after[|after| - 1] == before[|before| - 1])
  }

  lemma NewerThanKeeps(s: seq<Entry>, id: nat)
    ensures NewerKept(s, NewerThan(s, id), id)
  {
    forall e | e in s && e.0 > id ensures e in NewerThan(s, id) {
      NewerThanExact(s, id, e);
      assert e in multiset(s) && e in multiset(NewerThan(s, id));
    }
  }

  /** Everything the tracker has promised so far, for stating what it keeps. */
  datatype History = History(
    submitted: set<Entry>,
    durable: Option<nat>,
    lastId: nat,
    owed: multiset<Entry>,
    handedOut: multiset<Entry>,
    finished: multiset<Entry>,
    discarded: multiset<Entry>)

  /** A restart may load any of these without going back behind a reported write. */
  ghost predicate SafeToLoad(e: Entry, h: History) {
    e in h.submitted && (h.durable.Some? ==> h.durable.value <= e.0) && e.0 <= h.lastId
  }

  ghost predicate AllSafe(pending: seq<Entry>, h: History) {
    forall e | e in pending :: SafeToLoad(e, h)
  }

  /** Candidates are never newer than a monitor that arrives in order. */
  lemma NoneNewer(pending: seq<Entry>, h: History, e: Entry)
    requires AllSafe(pending, h) && h.lastId <= e.0
    ensures NewerKept(pending, pending + [e], e.0) && NewerKept(pending, pending, e.0)
  {
    assert pending != [] ==> SafeToLoad(pending[|pending| - 1], h);
  }

  /** The outstanding completions have distinct ids, none of which was already handed out. */
  ghost predicate AllOwed(completions: seq<Entry>, h: History) {
    && (forall i | 0 <= i < |completions| :: completions[i] in h.submitted && completions[i].0 <= h.lastId)
    && Increasing(completions)
    && (forall e | e in h.handedOut :: e in h.submitted && e.0 <= h.lastId && NotOwed(e.0, completions))
  }

  ghost predicate Increasing(completions: seq<Entry>) {
    forall i, j | 0 <= i < j < |completions| :: completions[i].0 < completions[j].0
  }

  ghost predicate NotOwed(id: nat, completions: seq<Entry>) {
    forall c | c in completions :: c.0 != id
  }

  /** The baseline is a submitted monitor, or nothing older than it was ever submitted. */
  ghost predicate Baseline(id: nat, blob: Blob, h: History) {
    && id <= h.lastId
    && (h.durable.Some? ==> SafeToLoad((id, blob), h))
    && ((id, blob) in h.submitted || forall e | e in h.submitted :: id <= e.0)
  }

  ghost predicate Consistent(id: nat, blob: Blob, pending: seq<Entry>, completions: seq<Entry>, h: History) {
    && Baseline(id, blob, h) && AllSafe(pending, h) && AllOwed(completions, h)
    && h.owed == multiset(completions) + h.handedOut + h.finished + h.discarded
  }

  function Newest(d: Option<nat>, id: nat): Option<nat> {
    if d.Some? && d.value >= id then d else Some(id)
  }

  /** A newly durable monitor moves the baseline unless it is older, and retires candidates it supersedes. */
  lemma PersistedKeepsConsistent(
    id: nat, blob: Blob, pending: seq<Entry>, completions: seq<Entry>, h: History, e: Entry)
    requires Consistent(id, blob, pending, completions, h) && e in h.submitted && e.0 <= h.lastId
    ensures var (id1, blob1) := if e.0 >= id then e else (id, blob);
            Consistent(id1, blob1, NewerThan(pending, e.0), completions, h.(durable := Newest(h.durable, e.0)))
  {
  }

  lemma SubmitKeepsConsistent(
    id: nat, blob: Blob, pending: seq<Entry>, completions: seq<Entry>, h: History, e: Entry)
    requires Consistent(id, blob, pending, completions, h) && h.lastId <= e.0
    ensures Consistent(id, blob, pending, completions, h.(submitted := h.submitted + {e}, lastId := e.0))
  {
    var h1 := h.(submitted := h.submitted + {e}, lastId := e.0);
    assert forall p | p in pending :: SafeToLoad(p, h);
    assert AllOwed(completions, h1);
  }

  lemma OweKeepsConsistent(
    id: nat, blob: Blob, pending: seq<Entry>, completions: seq<Entry>, h: History, e: Entry)
    requires Consistent(id, blob, pending, completions, h) && h.lastId < e.0
    ensures var h1 := h.(submitted := h.submitted + {e}, lastId := e.0, owed := h.owed + multiset{e});
            Consistent(id, blob, pending, completions + [e], h1)
  {
    SubmitKeepsConsistent(id, blob, pending, completions, h, e);
    OwedGrows(completions, h, e);
  }

  lemma OwedGrows(completions: seq<Entry>, h: History, e: Entry)
    requires AllOwed(completions, h) && h.lastId < e.0
    ensures AllOwed(completions + [e], h.(submitted := h.submitted + {e}, lastId := e.0, owed := h.owed + multiset{e}))
  {
    var all := completions + [e];
    forall x | x in h.handedOut ensures NotOwed(x.0, all) {
      assert NotOwed(x.0, completions);
    }
  }

  lemma CandidateKeepsConsistent(
    id: nat, blob: Blob, pending: seq<Entry>, completions: seq<Entry>, h: History, e: Entry)
    requires Consistent(id, blob, pending, completions, h) && SafeToLoad(e, h)
    ensures Consistent(id, blob, pending + [e], completions, h)
  {
  }

  /** The history after submitting `e`, owing a completion for it or not. */
  ghost function Submitted(h: History, e: Entry, needsCompletion: bool): History {
    h.(submitted := h.submitted + {e}, lastId := e.0,
       owed := if needsCompletion then h.owed + multiset{e} else h.owed)
  }

  lemma InsertKeepsConsistent(
    id: nat, blob: Blob, pending: seq<Entry>, completions: seq<Entry>, h: History, e: Entry, needsCompletion: bool)
    requires Consistent(id, blob, pending, completions, h)
    requires if needsCompletion then h.lastId < e.0 else h.lastId <= e.0
    ensures Consistent(id, blob, pending + [e], if needsCompletion then completions + [e] else completions,
                       Submitted(h, e, needsCompletion))
    ensures InsertionInOrder(pending, completions, e.0, needsCompletion)
  {
    LastIsNewest(pending, completions, h);
    if needsCompletion {
      OweKeepsConsistent(id, blob, pending, completions, h, e);
      CandidateKeepsConsistent(id, blob, pending, completions + [e], Submitted(h, e, true), e);
    } else {
      SubmitKeepsConsistent(id, blob, pending, completions, h, e);
      CandidateKeepsConsistent(id, blob, pending, completions, Submitted(h, e, false), e);
    }
  }

  /** The order assertions of the two ways to insert. */
  ghost predicate InsertionInOrder(pending: seq<Entry>, completions: seq<Entry>, id: nat, needsCompletion: bool) {
    && (pending != [] ==>
          if needsCompletion then pending[|pending| - 1].0 < id else pending[|pending| - 1].0 <= id)
    && (needsCompletion && completions != [] ==> completions[|completions| - 1].0 < id)
  }

  /** Ids in flight never exceed the last one submitted. */
  lemma LastIsNewest(pending: seq<Entry>, completions: seq<Entry>, h: History)
    requires AllSafe(pending, h) && AllOwed(completions, h)
    ensures pending != [] ==> pending[|pending| - 1].0 <= h.lastId
    ensures completions != [] ==> completions[|completions| - 1].0 <= h.lastId
  {
    assert pending != [] ==> SafeToLoad(pending[|pending| - 1], h);
  }

  /** Where among `n` outstanding completions the selector points, if anywhere. */
  function Position(selector: UpdateSelector, n: nat): int {
    match selector case First => 0 case Second => 1 case Last => n - 1
  }

  /** What taking by each selector leaves. */
  lemma TakenBy(selector: UpdateSelector, s: seq<Entry>)
    requires 0 <= Position(selector, |s|) < |s|
    ensures var k := Position(selector, |s|);
            match selector
            case First => [s[k]] + RemoveAt(s, k) == s
            case Second => RemoveAt(s, k) == [s[0]] + s[2..] && s[k] == s[1]
            case Last => RemoveAt(s, k) + [s[k]] == s
  {
  }

  function RemoveAt(s: seq<Entry>, k: nat): seq<Entry>
    requires k < |s|
  {
    s[..k] + s[k + 1..]
  }

  lemma RemoveAtMultiset(s: seq<Entry>, k: nat)
    requires k < |s|
    ensures multiset(RemoveAt(s, k)) + multiset{s[k]} == multiset(s)
  {
    assert s == s[..k] + [s[k]] + s[k + 1..];
  }

  lemma RemoveAtOwed(completions: seq<Entry>, h: History, k: nat)
    requires AllOwed(completions, h) && k < |completions|
    ensures AllOwed(RemoveAt(completions, k), h.(handedOut := h.handedOut + multiset{completions[k]}))
  {
    var rest, e := RemoveAt(completions, k), completions[k];
    var h1 := h.(handedOut := h.handedOut + multiset{e});
    forall i | 0 <= i < |rest| ensures rest[i] in completions && rest[i].0 != e.0 {
      assert rest[i] == completions[if i < k then i else i + 1];
    }
    forall x | x in h1.handedOut ensures x in h.submitted && x.0 <= h.lastId && NotOwed(x.0, rest) {
      if x != e {
        assert x in h.handedOut && NotOwed(x.0, completions);
      }
    }
  }

  lemma TakeKeepsConsistent(
    id: nat, blob: Blob, pending: seq<Entry>, completions: seq<Entry>, h: History, k: nat)
    requires Consistent(id, blob, pending, completions, h) && k < |completions|
    ensures Consistent(id, blob, pending, RemoveAt(completions, k),
                       h.(handedOut := h.handedOut + multiset{completions[k]}))
  {
    RemoveAtMultiset(completions, k);
    RemoveAtOwed(completions, h, k);
    assert forall p | p in pending :: SafeToLoad(p, h);
  }

  lemma ReloadKeepsConsistent(
    id: nat, blob: Blob, pending: seq<Entry>, completions: seq<Entry>, h: History, e: Entry)
    requires Consistent(id, blob, pending, completions, h) && h.handedOut == multiset{}
    requires e == (id, blob) || e in pending
    ensures Consistent(e.0, e.1, [], [], h.(lastId := e.0, discarded := h.discarded + multiset(completions)))
  {
  }

  class LatestMonitorState {
    var persistedId: nat
    var persistedMonitor: Blob
    var pendingMonitors: seq<Entry>
    var pendingCompletions: seq<Entry>
    ghost var history: History

    ghost predicate Valid()
      reads this
    {
      Consistent(persistedId, persistedMonitor, pendingMonitors, pendingCompletions, history)
    }

    /** The first persist of a channel, already durable. */
    constructor FirstCompleted(id: nat, blob: Blob)
      ensures Valid() && history.durable == Some(id) && (persistedId, persistedMonitor) == (id, blob)
    {
      persistedId, persistedMonitor, pendingMonitors, pendingCompletions := id, blob, [], [];
      history := History({(id, blob)}, Some(id), id, multiset{}, multiset{}, multiset{}, multiset{});
    }

    /** The first persist of a channel, still being written: there is nothing to fall back on yet. */
    constructor FirstInProgress(id: nat, blob: Blob)
      ensures Valid() && history.durable == None && (persistedId, persistedMonitor) == (id, [])
      ensures pendingMonitors == [(id, blob)] == pendingCompletions
    {
      persistedId, persistedMonitor := id, [];
      pendingMonitors, pendingCompletions := [(id, blob)], [(id, blob)];
      history := History({(id, blob)}, None, id, multiset{(id, blob)}, multiset{}, multiset{}, multiset{});
    }

    method MarkPersisted(id: nat, blob: Blob)
      requires Valid() && (id, blob) in history.submitted && id <= history.lastId
      modifies this`persistedId, this`persistedMonitor, this`pendingMonitors, this`history
      ensures Valid()
      ensures history == old(history).(durable := Newest(old(history).durable, id))
      ensures pendingMonitors == NewerThan(old(pendingMonitors), id)
      ensures (persistedId, persistedMonitor)
              == if id >= old(persistedId) then (id, blob) else (old(persistedId), old(persistedMonitor))
      ensures NewerKept(old(pendingMonitors), pendingMonitors, id)
      ensures history.durable.Some? && history.durable.value >= id
              && (history.durable.value == id || history.durable == old(history).durable)
              && (old(history).durable.Some? ==> history.durable.value >= old(history).durable.value)
    {
      PersistedKeepsConsistent(persistedId, persistedMonitor, pendingMonitors, pendingCompletions, history, (id, blob));
      NewerThanKeeps(pendingMonitors, id);
      pendingMonitors := NewerThan(pendingMonitors, id);
      if id >= persistedId {
        persistedId, persistedMonitor := id, blob;
      }
      history := history.(durable := Newest(history.durable, id));
    }

    /** Adds a write in flight; the order assertions cannot fail for ids that arrive in order. */
    method InsertPending(id: nat, blob: Blob, needsCompletion: bool)
      requires Valid() && if needsCompletion then history.lastId < id else history.lastId <= id
      modifies this`pendingMonitors, this`pendingCompletions, this`history
      ensures Valid() && history == Submitted(old(history), (id, blob), needsCompletion)
      ensures pendingMonitors == old(pendingMonitors) + [(id, blob)]
      ensures pendingCompletions == if needsCompletion then old(pendingCompletions) + [(id, blob)]
                                    else old(pendingCompletions)
    {
      var e := (id, blob);
      InsertKeepsConsistent(
        persistedId, persistedMonitor, pendingMonitors, pendingCompletions, history, e, needsCompletion);
      assert InsertionInOrder(pendingMonitors, pendingCompletions, id, needsCompletion);
      pendingMonitors := pendingMonitors + [e];
      pendingCompletions := if needsCompletion then pendingCompletions + [e] else pendingCompletions;
      history := Submitted(history, e, needsCompletion);
    }

    /** A write that is durable as soon as it is submitted. */
    method SubmitPersisted(id: nat, blob: Blob)
      requires Valid() && history.lastId <= id
      modifies this`persistedId, this`persistedMonitor, this`pendingMonitors, this`history
      ensures Valid() && (persistedId, persistedMonitor) == (id, blob)
      ensures history == Submitted(old(history), (id, blob), false).(durable := Some(id))
      ensures pendingMonitors == NewerThan(old(pendingMonitors), id)
      ensures NewerKept(old(pendingMonitors), pendingMonitors, id)
    {
      SubmitKeepsConsistent(persistedId, persistedMonitor, pendingMonitors, pendingCompletions, history, (id, blob));
      history := Submitted(history, (id, blob), false);
      MarkPersisted(id, blob);
    }

    /** A persist call for a channel that is already tracked. */
    method TrackUpdate(id: nat, blob: Blob, status: Status, needsCompletion: bool)
      requires Valid() && if needsCompletion then history.lastId < id else history.lastId <= id
      modifies this
      ensures Valid()
      ensures history == match status
                         case Completed => Submitted(old(history), (id, blob), false).(durable := Some(id))
                         case InProgress => Submitted(old(history), (id, blob), needsCompletion)
                         case UnrecoverableError => old(history)
      ensures (persistedId, persistedMonitor)
              == if status.Completed? then (id, blob) else (old(persistedId), old(persistedMonitor))
      ensures pendingMonitors == match status
                                 case Completed => NewerThan(old(pendingMonitors), id)
                                 case InProgress => old(pendingMonitors) + [(id, blob)]
                                 case UnrecoverableError => old(pendingMonitors)
      ensures pendingCompletions == if status.InProgress? && needsCompletion then old(pendingCompletions) + [(id, blob)]
                                    else old(pendingCompletions)
      ensures NewerKept(old(pendingMonitors), pendingMonitors, id)
    {
      NoneNewer(pendingMonitors, history, (id, blob));
      match status {
        case Completed => SubmitPersisted(id, blob);
        case InProgress => InsertPending(id, blob, needsCompletion);
        case UnrecoverableError =>
      }
    }

    /** Hands out every outstanding completion. */
    method DrainPendingCompletions() returns (taken: seq<Entry>)
      requires Valid()
      modifies this`pendingCompletions, this`history
      ensures Valid() && taken == old(pendingCompletions) && pendingCompletions == []
      ensures history == old(history).(handedOut := old(history).handedOut + multiset(taken))
    {
      taken := pendingCompletions;
      pendingCompletions := [];
      history := history.(handedOut := history.handedOut + multiset(taken));
    }

    /** Hands out one outstanding completion, if the selector finds one. */
    method TakePendingCompletion(selector: UpdateSelector) returns (taken: Option<Entry>)
      requires Valid()
      modifies this`pendingCompletions, this`history
      ensures Valid()
      ensures taken.None? <==> |old(pendingCompletions)| <= if selector.Second? then 1 else 0
      ensures taken.None? ==> history == old(history) && pendingCompletions == old(pendingCompletions)
      ensures taken.Some? ==>
                var k := Position(selector, |old(pendingCompletions)|);
                && taken.value == old(pendingCompletions)[k]
                && pendingCompletions == RemoveAt(old(pendingCompletions), k)
                && history == old(history).(handedOut := old(history).handedOut + multiset{taken.value})
    {
      var n := |pendingCompletions|;
      var k := Position(selector, n);
      if k < 0 || k >= n {
        return None;
      }
      var e := pendingCompletions[k];
      TakeKeepsConsistent(persistedId, persistedMonitor, pendingMonitors, pendingCompletions, history, k);
      pendingCompletions := RemoveAt(pendingCompletions, k);
      history := history.(handedOut := history.handedOut + multiset{e});
      return Some(e);
    }

    /** Reports a handed-out write as done. The double-completion assertion cannot fail. */
    method MarkCompletedUpdatePersisted(id: nat, blob: Blob)
      requires Valid() && (id, blob) in history.handedOut
      modifies this`persistedId, this`persistedMonitor, this`pendingMonitors, this`history
      ensures Valid()
      ensures history == old(history).(durable := Newest(old(history).durable, id),
                                       handedOut := old(history).handedOut - multiset{(id, blob)},
                                       finished := old(history).finished + multiset{(id, blob)})
      ensures NewerKept(old(pendingMonitors), pendingMonitors, id)
    {
      assert forall c | c in pendingCompletions :: c.0 != id;
      history := history.(handedOut := history.handedOut - multiset{(id, blob)},
                          finished := history.finished + multiset{(id, blob)});
      MarkPersisted(id, blob);
    }

    /** A crash: loads the baseline or one of the writes that were in flight, and forgets the rest. Callbacks are
        reported as soon as they are handed out, so none is half-done here. */
    method SelectMonitorForReload(selector: ReloadSelector)
      requires Valid() && history.handedOut == multiset{}
      modifies this
      ensures Valid() && pendingMonitors == [] && pendingCompletions == []
      ensures old(history).durable.Some? ==>
                (persistedId, persistedMonitor) in old(history).submitted && persistedId >= old(history).durable.value
      ensures !selector.Persisted? && old(pendingMonitors) != [] ==>
                (persistedId, persistedMonitor) in old(history).submitted
      ensures (persistedId, persistedMonitor)
              == if selector.Persisted? || old(pendingMonitors) == [] then (old(persistedId), old(persistedMonitor))
                 else if selector.FirstPending? then old(pendingMonitors)[0]
                 else old(pendingMonitors)[|old(pendingMonitors)| - 1]
      ensures history == old(history).(lastId := persistedId,
                                       discarded := old(history).discarded + multiset(old(pendingCompletions)))
    {
      var oldMon := (persistedId, persistedMonitor);
      var chosen := match selector
        case Persisted => oldMon
        case FirstPending => if pendingMonitors == [] then oldMon else pendingMonitors[0]
        case LastPending => if pendingMonitors == [] then oldMon else pendingMonitors[|pendingMonitors| - 1];
      ReloadKeepsConsistent(persistedId, persistedMonitor, pendingMonitors, pendingCompletions, history, chosen);
      assert chosen in pendingMonitors ==> SafeToLoad(chosen, history);
      history := history.(lastId := chosen.0, discarded := history.discarded + multiset(pendingCompletions));
      persistedId, persistedMonitor := chosen.0, chosen.1;
      pendingMonitors, pendingCompletions := [], [];
    }
  }
}
