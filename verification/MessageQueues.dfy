/** The harness's peer message queues between nodes A, B and C, where B talks to both others. */
module MessageQueues {
  import opened Wrappers

  datatype Node = A | B | C

  /** A wire message. */
  datatype Msg = Msg(kind: nat, body: nat)

  /** What a node asks to have sent. `Silent` stands for the kinds the harness never delivers or requeues, `Unsent` for
      channel updates, which it requeues but never delivers. */
  datatype Event =
    | UpdateHTLCs(dest: Node, adds: seq<Msg>, fulfills: seq<Msg>, fails: seq<Msg>, malformed: seq<Msg>,
                  fee: Option<Msg>, commitment: Msg)
    | Single(dest: Node, msg: Msg)
    | Unsent(dest: Node)
    | Silent(dest: Node)

  datatype Limit = AllMessages | OneMessage | OnePendingMessage

  predicate HasChanges(e: Event)
    requires e.UpdateHTLCs?
  {
    e.adds != [] || e.fulfills != [] || e.fails != [] || e.malformed != []
  }

  function Updates(e: Event): seq<Msg>
    requires e.UpdateHTLCs?
  {
    e.adds + e.fulfills + e.fails + e.malformed + if e.fee.Some? then [e.fee.value] else []
  }

  /** The messages an event puts on the wire, in order. */
  function Wire(e: Event): seq<Msg> {
    match e
    case UpdateHTLCs(_, _, _, _, _, _, commitment) => Updates(e) + [commitment]
    case Single(_, msg) => [msg]
    case Unsent(_) => []
    case Silent(_) => []
  }

  /** A batch goes out as adds, fulfills, fails, malformed fails, the fee update if any, and last its commitment_signed,
      each list in its own order. */
  lemma WireOrder(e: Event)
    requires e.UpdateHTLCs?
    ensures var w := Wire(e);
            var fulfills := |e.adds|;
            var fails := fulfills + |e.fulfills|;
            var malformed := fails + |e.fails|;
            var fee := malformed + |e.malformed|;
            && |w| == fee + (if e.fee.Some? then 2 else 1) && w[|w| - 1] == e.commitment
            && (forall i | 0 <= i < |e.adds| :: w[i] == e.adds[i])
            && (forall i | 0 <= i < |e.fulfills| :: w[fulfills + i] == e.fulfills[i])
            && (forall i | 0 <= i < |e.fails| :: w[fails + i] == e.fails[i])
            && (forall i | 0 <= i < |e.malformed| :: w[malformed + i] == e.malformed[i])
            && (e.fee.Some? ==> w[fee] == e.fee.value)
  {
  }

  /** The wire messages for one peer. */
  function WireTo(events: seq<Event>, d: Node): seq<Msg> {
    if events == [] then [] else (if events[0].dest == d then Wire(events[0]) else []) + WireTo(events[1..], d)
  }

  lemma Associates<T>(a: seq<T>, b: seq<T>, c: seq<T>)
    ensures a + (b + c) == a + b + c
  {
  }

  lemma {:induction false} WireToConcat(a: seq<Event>, b: seq<Event>, d: Node)
    ensures WireTo(a + b, d) == WireTo(a, d) + WireTo(b, d)
  {
    if a == [] {
      assert a + b == b;
    } else {
      WireToConcat(a[1..], b, d);
      assert (a + b)[1..] == a[1..] + b;
      Associates(if a[0].dest == d then Wire(a[0]) else [], WireTo(a[1..], d), WireTo(b, d));
    }
  }

  /** One event is worth its messages to the peer it is for, and nothing to others. */
  lemma WireToOne(e: Event, d: Node)
    ensures WireTo([e], d) == if e.dest == d then Wire(e) else []
    ensures e.Single? ==> Wire(e) == [e.msg]
    ensures e.Unsent? || e.Silent? ==> Wire(e) == []
  {
    assert [e][1..] == [];
    assert Wire(e) + [] == Wire(e);
  }

  ghost predicate SentTo(events: seq<Event>, d: Node) {
    forall e | e in events :: e.dest == d
  }

  lemma {:induction false} WireToOther(events: seq<Event>, d: Node, other: Node)
    requires SentTo(events, d) && d != other
    ensures WireTo(events, other) == []
  {
    if events != [] {
      WireToOther(events[1..], d, other);
    }
  }

  /** Each node's peers. */
  predicate Peers(src: Node, dst: Node) {
    (src == B) != (dst == B)
  }

  ghost predicate Addressed(src: Node, events: seq<Event>) {
    forall e | e in events :: Peers(src, e.dest)
  }

  /** What was emitted and what was taken off the wire on one directed link since it was last disconnected. */
  datatype Log = Log(emitted: seq<Msg>, consumed: seq<Msg>)

  const QUIET := Log([], [])

  datatype Logs = Logs(ab: Log, ba: Log, bc: Log, cb: Log)

  ghost predicate LogGrew(before: Log, after: Log) {
    before.emitted <= after.emitted && before.consumed <= after.consumed
  }

  /** Nothing emitted or consumed is taken back. */
  ghost predicate Grew(before: Logs, after: Logs) {
    && LogGrew(before.ab, after.ab) && LogGrew(before.ba, after.ba)
    && LogGrew(before.bc, after.bc) && LogGrew(before.cb, after.cb)
  }

  /** Everything emitted is consumed, queued or not yet fetched from the sender, in that order. */
  ghost predicate Balanced(log: Log, queued: seq<Event>, unfetched: seq<Event>, d: Node) {
    log.emitted == log.consumed + WireTo(queued, d) + WireTo(unfetched, d)
  }

  /** What delivering `e` hands to the peer at once. In the limited modes a batch with changes keeps its
      commitment_signed for later. */
  function Delivered(e: Event, limit: Limit): seq<Msg> {
    if e.UpdateHTLCs? && !limit.AllMessages? && HasChanges(e) then Updates(e) else Wire(e)
  }

  function Extra(e: Event, limit: Limit): Option<Event> {
    if e.UpdateHTLCs? && !limit.AllMessages? && HasChanges(e)
    then Some(UpdateHTLCs(e.dest, [], [], [], [], None, e.commitment))
    else None
  }

  function ExtraSeq(e: Event, limit: Limit): seq<Event> {
    match Extra(e, limit) case None => [] case Some(x) => [x]
  }

  /** Splitting a batch from its commitment_signed loses and reorders nothing, and what is left over is delivered
      whole. */
  lemma SplitDelivery(e: Event, limit: Limit, d: Node)
    ensures e.dest == d ==> Delivered(e, limit) + WireTo(ExtraSeq(e, limit), d) == Wire(e)
    ensures e.dest != d ==> WireTo(ExtraSeq(e, limit), d) == []
    ensures forall x | x in ExtraSeq(e, limit) :: x.dest == e.dest && Extra(x, limit).None?
  {
    var x := ExtraSeq(e, limit);
    if x != [] {
      assert x[1..] == [];
      assert Updates(x[0]) == [];
      assert WireTo(x, d) == (if x[0].dest == d then Wire(x[0]) else []) + [];
    }
  }

  /** A limited mode keeps back the commitment_signed, and only that, of exactly the batches with changes other than a
      fee update. */
  lemma KeptBack(e: Event, limit: Limit)
    ensures ExtraSeq(e, limit) != [] <==>
            limit != AllMessages && e.UpdateHTLCs?
            && |e.adds| + |e.fulfills| + |e.fails| + |e.malformed| > 0
    ensures ExtraSeq(e, limit) != [] ==> Delivered(e, limit) + [e.commitment] == Wire(e)
    ensures ExtraSeq(e, limit) == [] ==> Delivered(e, limit) == Wire(e)
  {
  }

  /** Hands over the messages of a list one by one. */
  method HandleAll(handled: seq<Msg>, msgs: seq<Msg>) returns (r: seq<Msg>)
    ensures r == handled + msgs
  {
    r := handled;
    var i := 0;
    while i < |msgs|
      invariant 0 <= i <= |msgs| && r == handled + msgs[..i]
    {
      r := r + [msgs[i]];
      i := i + 1;
    }
    assert msgs[..i] == msgs;
  }

  /** Hands a batch to its peer, or all of it but its commitment_signed. */
  method HandleUpdateHTLCs(e: Event, limit: Limit) returns (handled: seq<Msg>, extra: Option<Event>)
    requires e.UpdateHTLCs?
    ensures handled == Delivered(e, limit) && extra == Extra(e, limit)
  {
    handled := HandleAll([], e.adds);
    var processedChange := e.adds != [] || e.fulfills != [] || e.fails != [] || e.malformed != [];
    handled := HandleAll(handled, e.fulfills);
    handled := HandleAll(handled, e.fails);
    handled := HandleAll(handled, e.malformed);
    match e.fee {
      case Some(msg) => handled := handled + [msg];
      case None =>
    }
    assert handled == Updates(e);
    if limit != AllMessages && processedChange {
      return handled, Some(UpdateHTLCs(e.dest, [], [], [], [], None, e.commitment));
    }
    handled := handled + [e.commitment];
    extra := None;
  }

  /** Hands one event to its peer. */
  method HandleEvent(e: Event, limit: Limit) returns (handled: seq<Msg>, extra: seq<Event>)
    ensures handled == Delivered(e, limit) && extra == ExtraSeq(e, limit)
  {
    extra := [];
    match e {
      case UpdateHTLCs(_, _, _, _, _, _, _) =>
        var kept;
        handled, kept := HandleUpdateHTLCs(e, limit);
        if kept.Some? {
          extra := [kept.value];
        }
      case Single(_, msg) => handled := [msg];
      case Unsent(_) => handled := [];
      case Silent(_) => handled := [];
    }
  }

  /** What came off each link. */
  datatype Taken = Taken(ab: seq<Msg>, ba: seq<Msg>, bc: seq<Msg>, cb: seq<Msg>)

  ghost function ConsumedOf(logs: Logs): Taken {
    Taken(logs.ab.consumed, logs.ba.consumed, logs.bc.consumed, logs.cb.consumed)
  }

  /** The same with everything `node` has emitted so far. */
  ghost function WithEmitted(logs: Logs, node: Node): Taken {
    match node
    case A => ConsumedOf(logs).(ab := logs.ab.emitted)
    case B => ConsumedOf(logs).(ba := logs.ba.emitted, bc := logs.bc.emitted)
    case C => ConsumedOf(logs).(cb := logs.cb.emitted)
  }

  /** The same with `msgs` of `node` to `d` on top. */
  ghost function WithMessages(t: Taken, node: Node, d: Node, msgs: seq<Msg>): Taken {
    match node
    case A => t.(ab := t.ab + msgs)
    case B => if d == A then t.(ba := t.ba + msgs) else t.(bc := t.bc + msgs)
    case C => t.(cb := t.cb + msgs)
  }

  /** The same with all that `events` of `node` hold on top. */
  ghost function WithEvents(t: Taken, node: Node, events: seq<Event>): Taken {
    match node
    case A => t.(ab := t.ab + WireTo(events, B))
    case B => t.(ba := t.ba + WireTo(events, A), bc := t.bc + WireTo(events, C))
    case C => t.(cb := t.cb + WireTo(events, B))
  }

  /** What one round takes: all that the events hold, or in the limited modes what delivering the first one hands
      over. */
  ghost function TakenFrom(t: Taken, node: Node, events: seq<Event>, limit: Limit): Taken {
    if limit == AllMessages then WithEvents(t, node, events)
    else if events == [] then t
    else WithMessages(t, node, events[0].dest, Delivered(events[0], limit))
  }

  lemma NothingTaken(t: Taken, node: Node)
    ensures WithEvents(t, node, []) == t
  {
    assert t.ab + [] == t.ab && t.ba + [] == t.ba && t.bc + [] == t.bc && t.cb + [] == t.cb;
  }

  /** Delivering the first event of a queue keeps what is on its way to each peer in order. */
  lemma DeliverFirst(log: Log, events: seq<Event>, unfetched: seq<Event>, limit: Limit, d: Node)
    requires events != [] && Balanced(log, events, unfetched, d)
    ensures Balanced(if events[0].dest == d then log.(consumed := log.consumed + Delivered(events[0], limit)) else log,
                     ExtraSeq(events[0], limit) + events[1..], unfetched, d)
  {
    var e, x, rest := events[0], ExtraSeq(events[0], limit), events[1..];
    SplitDelivery(e, limit, d);
    WireToConcat(x, rest, d);
    var w := WireTo(rest, d);
    if e.dest == d {
      Associates(Delivered(e, limit), WireTo(x, d), w);
      Associates(log.consumed, Delivered(e, limit), WireTo(x, d) + w);
    } else {
      assert [] + w == w;
    }
  }

  lemma TakeFirst(taken: seq<Msg>, events: seq<Event>, limit: Limit, d: Node)
    requires events != []
    ensures taken + (if events[0].dest == d then Delivered(events[0], limit) else [])
            + WireTo(ExtraSeq(events[0], limit) + events[1..], d)
            == taken + WireTo(events, d)
  {
    DeliverFirst(Log(taken + WireTo(events, d), taken), events, [], limit, d);
    assert taken + [] == taken;
  }

  /** Delivering the first event leaves the sum of what was taken and what is on its way as it was. */
  lemma DeliveryConserves(t: Taken, node: Node, events: seq<Event>, limit: Limit)
    requires events != [] && Addressed(node, events)
    ensures WithEvents(WithMessages(t, node, events[0].dest, Delivered(events[0], limit)), node,
                       ExtraSeq(events[0], limit) + events[1..])
            == WithEvents(t, node, events)
  {
    assert Peers(node, events[0].dest);
    TakeFirst(t.ab, events, limit, B);
    TakeFirst(t.cb, events, limit, B);
    TakeFirst(t.ba, events, limit, A);
    TakeFirst(t.bc, events, limit, C);
    assert t.ba + [] == t.ba && t.bc + [] == t.bc;
  }

  lemma FetchAll(log: Log, queued: seq<Event>, unfetched: seq<Event>, d: Node)
    requires Balanced(log, queued, unfetched, d)
    ensures Balanced(log, queued + unfetched, [], d)
  {
    WireToConcat(queued, unfetched, d);
    Associates(log.consumed, WireTo(queued, d), WireTo(unfetched, d));
  }

  lemma EmitMore(log: Log, queued: seq<Event>, unfetched: seq<Event>, more: seq<Event>, d: Node)
    requires Balanced(log, queued, unfetched, d)
    ensures Balanced(log.(emitted := log.emitted + WireTo(more, d)), queued, unfetched + more, d)
  {
    WireToConcat(unfetched, more, d);
    Associates(log.consumed + WireTo(queued, d), WireTo(unfetched, d), WireTo(more, d));
  }

  function ForOne(e: Event, d: Node): seq<Event> {
    if e.dest == d && !e.Silent? then [e] else []
  }

  /** The events to queue for one peer. */
  function For(events: seq<Event>, d: Node): seq<Event> {
    if events == [] then [] else ForOne(events[0], d) + For(events[1..], d)
  }

  /** Nothing is misdirected, and only silent events are dropped. */
  lemma {:induction false} ForMembers(events: seq<Event>, d: Node)
    ensures SentTo(For(events, d), d)
    ensures forall e :: e in For(events, d) <==> e in events && e.dest == d && !e.Silent?
  {
    if events != [] {
      ForMembers(events[1..], d);
      assert forall e :: e in events <==> e == events[0] || e in events[1..];
    }
  }

  /** Splitting B's events by peer keeps each peer's messages. */
  lemma {:induction false} WireToFor(events: seq<Event>, d: Node)
    ensures WireTo(For(events, d), d) == WireTo(events, d)
  {
    if events != [] {
      WireToFor(events[1..], d);
      var head := ForOne(events[0], d);
      WireToConcat(head, For(events[1..], d), d);
      assert head != [] ==> head[1..] == [];
    }
  }

  lemma RequeueMiddle(log: Log, events: seq<Event>, unfetched: seq<Event>, d: Node)
    requires Balanced(log, events, unfetched, d)
    ensures Balanced(log, For(events, d), unfetched, d) && SentTo(For(events, d), d)
  {
    WireToFor(events, d);
    ForMembers(events, d);
  }

  /** Emitted logs after the nodes emit these. */
  ghost function Emitted(logs: Logs, moreA: seq<Event>, moreB: seq<Event>, moreC: seq<Event>): Logs {
    Logs(logs.ab.(emitted := logs.ab.emitted + WireTo(moreA, B)),
         logs.ba.(emitted := logs.ba.emitted + WireTo(moreB, A)),
         logs.bc.(emitted := logs.bc.emitted + WireTo(moreB, C)),
         logs.cb.(emitted := logs.cb.emitted + WireTo(moreC, B)))
  }

  /** The four links are balanced for these queue contents and unfetched events. */
  ghost predicate LinksOf(
    logs: Logs, qab: seq<Event>, qba: seq<Event>, qbc: seq<Event>, qcb: seq<Event>,
    fromA: seq<Event>, fromB: seq<Event>, fromC: seq<Event>)
  {
    && Addressed(A, qab) && Addressed(B, qba) && Addressed(B, qbc) && Addressed(C, qcb)
    && Addressed(A, fromA) && Addressed(B, fromB) && Addressed(C, fromC)
    && Balanced(logs.ab, qab, fromA, B) && Balanced(logs.cb, qcb, fromC, B)
    && Balanced(logs.ba, qba, fromB, A) && Balanced(logs.bc, qbc, fromB, C)
  }

  lemma EmitLinks(
    logs: Logs, qab: seq<Event>, qba: seq<Event>, qbc: seq<Event>, qcb: seq<Event>,
    fromA: seq<Event>, fromB: seq<Event>, fromC: seq<Event>,
    moreA: seq<Event>, moreB: seq<Event>, moreC: seq<Event>)
    requires LinksOf(logs, qab, qba, qbc, qcb, fromA, fromB, fromC)
    requires Addressed(A, moreA) && Addressed(B, moreB) && Addressed(C, moreC)
    ensures LinksOf(Emitted(logs, moreA, moreB, moreC), qab, qba, qbc, qcb,
                    fromA + moreA, fromB + moreB, fromC + moreC)
  {
    EmitMore(logs.ab, qab, fromA, moreA, B);
    EmitMore(logs.cb, qcb, fromC, moreC, B);
    EmitMore(logs.ba, qba, fromB, moreB, A);
    EmitMore(logs.bc, qbc, fromB, moreB, C);
  }

  lemma FullyFetched(log: Log, queued: seq<Event>, d: Node)
    requires Balanced(log, queued, [], d)
    ensures log.consumed + WireTo(queued, d) == log.emitted
  {
  }

  /** The queues of the three nodes, what each node has generated but nobody has fetched yet, and the logs of the four
      directed links. */
  class Network {
    var ab: seq<Event>
    var ba: seq<Event>
    var bc: seq<Event>
    var cb: seq<Event>
    var fromA: seq<Event>
    var fromB: seq<Event>
    var fromC: seq<Event>
    ghost var logs: Logs

    /** The four links are balanced for these queue contents. */
    ghost predicate Links(qab: seq<Event>, qba: seq<Event>, qbc: seq<Event>, qcb: seq<Event>)
      reads this
    {
      LinksOf(logs, qab, qba, qbc, qcb, fromA, fromB, fromC)
    }

    /** The same while `events` are being worked off in place of `node`'s own queues. */
    ghost predicate LinksWith(node: Node, events: seq<Event>)
      reads this
    {
      match node
      case A => Links(events, ba, bc, cb)
      case B => Links(ab, events, events, cb)
      case C => Links(ab, ba, bc, events)
    }

    ghost function Queue(node: Node): seq<Event>
      reads this
    {
      match node case A => ab case B => ba + bc case C => cb
    }

    ghost function Unfetched(node: Node): seq<Event>
      reads this
    {
      match node case A => fromA case B => fromB case C => fromC
    }

    /** What a round of processing has to work on: in the pending-only mode nothing new is fetched. */
    ghost function Available(node: Node, limit: Limit): seq<Event>
      reads this
    {
      Queue(node) + if limit == OnePendingMessage then [] else Unfetched(node)
    }

    ghost predicate Valid()
      reads this
    {
      Links(ab, ba, bc, cb) && SentTo(ba, A) && SentTo(bc, C)
    }

    /** In every valid state, what came off each link is a prefix of what was put on it. */
    lemma DeliveredInOrder()
      requires Valid()
      ensures logs.ab.consumed <= logs.ab.emitted && logs.ba.consumed <= logs.ba.emitted
      ensures logs.bc.consumed <= logs.bc.emitted && logs.cb.consumed <= logs.cb.emitted
    {
    }

    constructor ()
      ensures Valid() && logs == Logs(QUIET, QUIET, QUIET, QUIET)
    {
      ab, ba, bc, cb, fromA, fromB, fromC := [], [], [], [], [], [], [];
      logs := Logs(QUIET, QUIET, QUIET, QUIET);
    }

    /** A handler ran: any node may have generated messages for its peers. */
    method Emit(
      moreA: seq<Event>, moreB: seq<Event>, moreC: seq<Event>,
      ghost qab: seq<Event>, ghost qba: seq<Event>, ghost qbc: seq<Event>, ghost qcb: seq<Event>)
      requires Addressed(A, moreA) && Addressed(B, moreB) && Addressed(C, moreC) && Links(qab, qba, qbc, qcb)
      modifies this`fromA, this`fromB, this`fromC, this`logs
      ensures Links(qab, qba, qbc, qcb)
      ensures Grew(old(logs), logs) && ConsumedOf(logs) == ConsumedOf(old(logs))
      ensures fromA == old(fromA) + moreA && fromB == old(fromB) + moreB && fromC == old(fromC) + moreC
      ensures logs == Emitted(old(logs), moreA, moreB, moreC)
    {
      EmitLinks(logs, qab, qba, qbc, qcb, fromA, fromB, fromC, moreA, moreB, moreC);
      logs := Emitted(logs, moreA, moreB, moreC);
      fromA, fromB, fromC := fromA + moreA, fromB + moreB, fromC + moreC;
    }

    method TakeForNode(node: Node) returns (events: seq<Event>)
      requires Valid()
      modifies this`ab, this`ba, this`bc, this`cb
      ensures LinksWith(node, events)
      ensures events == old(Queue(node))
      ensures node == A ==> ab == [] && ba == old(ba) && bc == old(bc) && cb == old(cb)
      ensures node == B ==> ab == old(ab) && ba == bc == [] && cb == old(cb)
      ensures node == C ==> ab == old(ab) && ba == old(ba) && bc == old(bc) && cb == []
    {
      match node {
        case A =>
          events := ab;
          ab := [];
        case B =>
          MergeMiddle(logs.ba, ba, bc, fromB, A);
          MergeMiddle(logs.bc, ba, bc, fromB, C);
          events := ba + bc;
          ba, bc := [], [];
        case C =>
          events := cb;
          cb := [];
      }
    }

    method FetchNewEvents(node: Node, ghost queued: seq<Event>) returns (events: seq<Event>)
      requires LinksWith(node, queued)
      modifies this`fromA, this`fromB, this`fromC
      ensures LinksWith(node, queued + events)
      ensures events == old(Unfetched(node))
      ensures WithEvents(ConsumedOf(logs), node, queued + events) == WithEmitted(logs, node)
    {
      match node {
        case A =>
          FetchAll(logs.ab, queued, fromA, B);
          FullyFetched(logs.ab, queued + fromA, B);
          events := fromA;
          fromA := [];
        case B =>
          FetchAll(logs.ba, queued, fromB, A);
          FetchAll(logs.bc, queued, fromB, C);
          FullyFetched(logs.ba, queued + fromB, A);
          FullyFetched(logs.bc, queued + fromB, C);
          events := fromB;
          fromB := [];
        case C =>
          FetchAll(logs.cb, queued, fromC, B);
          FullyFetched(logs.cb, queued + fromC, B);
          events := fromC;
          fromC := [];
      }
    }

    /** What is being worked off is no longer in `node`'s queues. */
    ghost predicate Emptied(node: Node)
      reads this
    {
      match node
      case A => ab == [] && SentTo(ba, A) && SentTo(bc, C)
      case B => ba == bc == []
      case C => cb == [] && SentTo(ba, A) && SentTo(bc, C)
    }

    method TakeAvailable(node: Node, limit: Limit) returns (events: seq<Event>)
      requires Valid()
      modifies this`ab, this`ba, this`bc, this`cb, this`fromA, this`fromB, this`fromC
      ensures LinksWith(node, events) && Emptied(node)
      ensures events == old(Available(node, limit))
      ensures limit != OnePendingMessage ==> WithEvents(ConsumedOf(logs), node, events) == WithEmitted(logs, node)
    {
      events := TakeForNode(node);
      if limit != OnePendingMessage {
        var newEvents := FetchNewEvents(node, events);
        events := events + newEvents;
      }
    }

    /** Hands `e` from `node` to its peer, or all of it but its commitment_signed. */
    method Deliver(node: Node, events: seq<Event>, limit: Limit, handled: seq<Msg>)
      requires events != [] && LinksWith(node, events) && handled == Delivered(events[0], limit)
      modifies this`logs
      ensures LinksWith(node, ExtraSeq(events[0], limit) + events[1..])
      ensures Grew(old(logs), logs)
      ensures ConsumedOf(logs)
              == WithMessages(ConsumedOf(old(logs)), node, events[0].dest, Delivered(events[0], limit))
    {
      var e := events[0];
      SplitDelivery(e, limit, e.dest);
      match node {
        case A =>
          DeliverFirst(logs.ab, events, fromA, limit, B);
          logs := logs.(ab := logs.ab.(consumed := logs.ab.consumed + handled));
        case B =>
          DeliverFirst(logs.ba, events, fromB, limit, A);
          DeliverFirst(logs.bc, events, fromB, limit, C);
          if e.dest == A {
            logs := logs.(ba := logs.ba.(consumed := logs.ba.consumed + handled));
          } else {
            logs := logs.(bc := logs.bc.(consumed := logs.bc.consumed + handled));
          }
        case C =>
          DeliverFirst(logs.cb, events, fromC, limit, B);
          logs := logs.(cb := logs.cb.(consumed := logs.cb.consumed + handled));
      }
    }

    /** Any node may answer with anything for its peers. */
    method React(node: Node, ghost events: seq<Event>)
      requires LinksWith(node, events)
      modifies this`fromA, this`fromB, this`fromC, this`logs
      ensures LinksWith(node, events)
      ensures Grew(old(logs), logs) && ConsumedOf(logs) == ConsumedOf(old(logs))
    {
      var moreA: seq<Event> := *;
      var moreB: seq<Event> := *;
      var moreC: seq<Event> := *;
      Emit(ToPeers(A, moreA), ToPeers(B, moreB), ToPeers(C, moreC), if node == A then events else ab,
           if node == B then events else ba, if node == B then events else bc, if node == C then events else cb);
    }

    /** Delivers the first event; its recipient and sender may react. What was kept back of it is returned. */
    method ProcessMsgEvent(node: Node, events: seq<Event>, limit: Limit) returns (extra: seq<Event>)
      requires events != [] && LinksWith(node, events)
      modifies this`fromA, this`fromB, this`fromC, this`logs
      ensures LinksWith(node, extra + events[1..])
      ensures extra == ExtraSeq(events[0], limit)
      ensures Grew(old(logs), logs)
      ensures ConsumedOf(logs)
              == WithMessages(ConsumedOf(old(logs)), node, events[0].dest, Delivered(events[0], limit))
    {
      var handled;
      handled, extra := HandleEvent(events[0], limit);
      Deliver(node, events, limit, handled);
      React(node, extra + events[1..]);
    }

    /** Appends B's events to its two queues, dropping the silent ones. */
    method RouteFromMiddle(events: seq<Event>)
      requires Addressed(B, events)
      modifies this`ba, this`bc
      ensures ba == old(ba) + For(events, A) && bc == old(bc) + For(events, C)
    {
      var toA, toC := SplitByPeer(events);
      ba, bc := ba + toA, bc + toC;
    }

    /** Delivers all events, or in the limited modes at most the first. */
    method DeliverEvents(node: Node, events: seq<Event>, limit: Limit) returns (rest: seq<Event>, hadEvents: bool)
      requires LinksWith(node, events)
      modifies this`fromA, this`fromB, this`fromC, this`logs
      ensures LinksWith(node, rest) && Grew(old(logs), logs)
      ensures limit == AllMessages ==> rest == []
      ensures limit != AllMessages && events != [] ==> rest == ExtraSeq(events[0], limit) + events[1..]
      ensures hadEvents <==> events != []
      ensures ConsumedOf(logs) == TakenFrom(ConsumedOf(old(logs)), node, events, limit)
    {
      rest, hadEvents := events, false;
      while rest != []
        invariant LinksWith(node, rest) && Grew(old(logs), logs)
        invariant limit != AllMessages ==> rest == events && logs == old(logs)
        invariant rest == events ==> logs == old(logs) || events != []
        invariant WithEvents(ConsumedOf(logs), node, rest) == WithEvents(ConsumedOf(old(logs)), node, events)
        invariant rest == events || hadEvents
        invariant hadEvents ==> events != []
        decreases |rest|
      {
        hadEvents := true;
        ghost var before := logs;
        DeliveryConserves(ConsumedOf(logs), node, rest, limit);
        var extra := ProcessMsgEvent(node, rest, limit);
        GrewTransitive(old(logs), before, logs);
        rest := extra + rest[1..];
        if limit != AllMessages {
          break;
        }
      }
      NothingTaken(ConsumedOf(logs), node);
    }

    /** Puts what is left back where it came from. */
    method Requeue(node: Node, events: seq<Event>)
      requires LinksWith(node, events)
      requires Emptied(node)
      modifies this`ab, this`ba, this`bc, this`cb
      ensures Valid()
      ensures match node
              case A => ab == events && ba == old(ba) && bc == old(bc) && cb == old(cb)
              case B => ba == For(events, A) && bc == For(events, C) && ab == old(ab) && cb == old(cb)
              case C => cb == events && ab == old(ab) && ba == old(ba) && bc == old(bc)
    {
      match node {
        case A => ab := events;
        case B =>
          RequeueMiddle(logs.ba, events, fromB, A);
          RequeueMiddle(logs.bc, events, fromB, C);
          RouteFromMiddle(events);
          assert ba == For(events, A) && bc == For(events, C);
        case C => cb := events;
      }
    }

    /** One round of message processing for a node, in any of the three delivery modes. */
    method ProcessMsgEvents(node: Node, limit: Limit) returns (hadEvents: bool)
      requires Valid()
      modifies this
      ensures Valid() && Grew(old(logs), logs)
      ensures hadEvents <==> old(Available(node, limit)) != []
      ensures ConsumedOf(logs) == TakenFrom(ConsumedOf(old(logs)), node, old(Available(node, limit)), limit)
      ensures limit == AllMessages ==> ConsumedOf(logs) == WithEmitted(old(logs), node)
    {
      var events := TakeAvailable(node, limit);
      events, hadEvents := DeliverEvents(node, events, limit);
      Requeue(node, events);
    }

    /** Disconnects the link between B and an edge node. Both ends forget what they had for each other, B's other
        messages move to their queue, and the other link goes on undisturbed. */
    method Disconnect(edge: Node)
      requires Valid() && edge != B
      modifies this
      ensures Valid()
      ensures logs == if edge == A then old(logs).(ab := QUIET, ba := QUIET) else old(logs).(bc := QUIET, cb := QUIET)
    {
      if edge == A {
        DisconnectA();
      } else {
        DisconnectC();
      }
    }

    method DisconnectA()
      requires Valid()
      modifies this
      ensures Valid() && logs == old(logs).(ab := QUIET, ba := QUIET)
      ensures ab == ba == fromA == fromB == [] && cb == old(cb) && fromC == old(fromC)
      ensures bc == old(bc) + For(NotFor(old(fromB), A), C)
    {
      LinksWithoutA(logs, ab, ba, bc, cb, fromA, fromB, fromC);
      fromB := NotFor(fromB, A);
      fromA := [];
      RouteFromMiddle(fromB);
      fromB, ab, ba := [], [], [];
      logs := logs.(ab := QUIET, ba := QUIET);
    }

    method DisconnectC()
      requires Valid()
      modifies this
      ensures Valid() && logs == old(logs).(bc := QUIET, cb := QUIET)
      ensures bc == cb == fromB == fromC == [] && ab == old(ab) && fromA == old(fromA)
      ensures ba == old(ba) + For(NotFor(old(fromB), C), A)
    {
      LinksWithoutC(logs, ab, ba, bc, cb, fromA, fromB, fromC);
      fromB := NotFor(fromB, C);
      fromC := [];
      RouteFromMiddle(fromB);
      fromB, bc, cb := [], [], [];
      logs := logs.(bc := QUIET, cb := QUIET);
    }
  }

  lemma LinksWithoutA(
    logs: Logs, ab: seq<Event>, ba: seq<Event>, bc: seq<Event>, cb: seq<Event>,
    fromA: seq<Event>, fromB: seq<Event>, fromC: seq<Event>)
    requires LinksOf(logs, ab, ba, bc, cb, fromA, fromB, fromC)
    ensures LinksOf(logs.(ab := QUIET, ba := QUIET), [], [], bc + For(NotFor(fromB, A), C), cb, [], [], fromC)
    ensures Addressed(B, NotFor(fromB, A)) && SentTo(For(NotFor(fromB, A), C), C)
  {
    ForMembers(NotFor(fromB, A), C);
    KeepOther(logs.bc, bc, fromB, A, C);
  }

  lemma LinksWithoutC(
    logs: Logs, ab: seq<Event>, ba: seq<Event>, bc: seq<Event>, cb: seq<Event>,
    fromA: seq<Event>, fromB: seq<Event>, fromC: seq<Event>)
    requires LinksOf(logs, ab, ba, bc, cb, fromA, fromB, fromC)
    ensures LinksOf(logs.(bc := QUIET, cb := QUIET), ab, ba + For(NotFor(fromB, C), A), [], [], fromA, [], [])
    ensures Addressed(B, NotFor(fromB, C)) && SentTo(For(NotFor(fromB, C), A), A)
  {
    ForMembers(NotFor(fromB, C), A);
    KeepOther(logs.ba, ba, fromB, C, A);
  }

  function NotFor(events: seq<Event>, d: Node): (r: seq<Event>)
    ensures forall e | e in r :: e in events && e.dest != d
  {
    if events == [] then [] else (if events[0].dest == d then [] else [events[0]]) + NotFor(events[1..], d)
  }

  lemma {:induction false} NotForMembers(events: seq<Event>, d: Node)
    ensures forall e :: e in NotFor(events, d) <==> e in events && e.dest != d
  {
    if events != [] {
      NotForMembers(events[1..], d);
      assert forall e :: e in events <==> e == events[0] || e in events[1..];
    }
  }

  lemma {:induction false} WireToNotFor(events: seq<Event>, d: Node, other: Node)
    requires d != other
    ensures WireTo(NotFor(events, d), other) == WireTo(events, other)
  {
    if events != [] {
      WireToNotFor(events[1..], d, other);
      var head := if events[0].dest == d then [] else [events[0]];
      WireToConcat(head, NotFor(events[1..], d), other);
      assert head != [] ==> head[1..] == [];
    }
  }

  /** B's messages for its other peer survive the disconnect, behind those already queued. */
  lemma KeepOther(log: Log, queued: seq<Event>, fromB: seq<Event>, gone: Node, other: Node)
    requires Balanced(log, queued, fromB, other) && gone != other
    ensures Balanced(log, queued + For(NotFor(fromB, gone), other), [], other)
  {
    WireToNotFor(fromB, gone, other);
    WireToFor(NotFor(fromB, gone), other);
    FetchAll(log, queued, For(NotFor(fromB, gone), other), other);
  }

  lemma GrewTransitive(a: Logs, b: Logs, c: Logs)
    requires Grew(a, b) && Grew(b, c)
    ensures Grew(a, c)
  {
  }

  function ToPeers(src: Node, events: seq<Event>): (r: seq<Event>)
    ensures Addressed(src, r)
  {
    if events == [] then []
    else (if Peers(src, events[0].dest) then [events[0]] else []) + ToPeers(src, events[1..])
  }

  /** So that a node can answer with any events for its peers. */
  lemma {:induction false} ToPeersKeeps(src: Node, events: seq<Event>)
    requires Addressed(src, events)
    ensures ToPeers(src, events) == events
  {
    if events != [] {
      assert events[0] in events;
      ToPeersKeeps(src, events[1..]);
    }
  }

  /** Sorts B's events onto its two queues. */
  method SplitByPeer(events: seq<Event>) returns (toA: seq<Event>, toC: seq<Event>)
    requires Addressed(B, events)
    ensures toA == For(events, A) && toC == For(events, C)
  {
    toA, toC := [], [];
    var i := 0;
    while i < |events|
      invariant 0 <= i <= |events|
      invariant toA == For(events[..i], A) && toC == For(events[..i], C)
    {
      ForSnoc(events, i, A);
      ForSnoc(events, i, C);
      assert Peers(B, events[i].dest);
      if !events[i].Silent? {
        if events[i].dest == A {
          toA := toA + [events[i]];
        } else {
          toC := toC + [events[i]];
        }
      }
      i := i + 1;
    }
    assert events[..i] == events;
  }

  /** Merging B's two queues keeps what is on its way to each peer. */
  lemma MergeMiddle(log: Log, ba: seq<Event>, bc: seq<Event>, fromB: seq<Event>, d: Node)
    requires SentTo(ba, A) && SentTo(bc, C) && (d == A || d == C)
    requires Balanced(log, if d == A then ba else bc, fromB, d)
    ensures Balanced(log, ba + bc, fromB, d)
  {
    WireToConcat(ba, bc, d);
    if d == A {
      WireToOther(bc, C, A);
      assert WireTo(ba, A) + [] == WireTo(ba, A);
    } else {
      WireToOther(ba, A, C);
      assert [] + WireTo(bc, C) == WireTo(bc, C);
    }
  }

  lemma {:induction false} ForConcat(a: seq<Event>, b: seq<Event>, d: Node)
    ensures For(a + b, d) == For(a, d) + For(b, d)
  {
    if a == [] {
      assert a + b == b;
    } else {
      ForConcat(a[1..], b, d);
      assert (a + b)[1..] == a[1..] + b && (a + b)[0] == a[0];
      Associates(ForOne(a[0], d), For(a[1..], d), For(b, d));
    }
  }

  lemma ForSnoc(events: seq<Event>, i: nat, d: Node)
    requires i < |events|
    ensures For(events[..i + 1], d)
            == For(events[..i], d) + ForOne(events[i], d)
  {
    assert events[..i + 1] == events[..i] + [events[i]];
    ForConcat(events[..i], [events[i]], d);
    assert [events[i]][1..] == [];
  }
}
