/** The order in which the background processor persists the channel manager and flushes deferred monitor operations,
    as atomic steps of the processor interleaved with those of any number of message handlers. */
module Persistence {
  import opened Wrappers

  /** A handler is known by its number; an operation by the handler that queued it and its place in the history. */
  type Handler = nat

  /** Where the processor is. `n` operations were counted, `left` remain to be flushed, the encoded manager
      reflects the oldest `snap`. */
  datatype Pc =
    | Top
    | Cleared
    | Counted(n: nat)
    | Writing(n: nat, snap: nat)
    | Flushing(left: nat)
    | WriteFailed
    | Rest
    | Exiting
    | FinalCounted(n: nat)
    | FinalWriting(n: nat, snap: nat)
    | FinalFlushing(left: nat)
    | Done
    | Failed

  /** `ops` is every operation queued so far, oldest first; the first `flushed` of them have left the queue. An encoding
      of the manager reflects the operations queued by then; the last one written reflects the oldest `durable`.
      `settled` are the operations whose handler has raised the flag since; `atExit` and `counted` are how many
      operations there were when the loop was left and when the final persist counted them. */
  datatype State = State(
    ops: seq<Handler>, flushed: nat, durable: nat, settled: set<nat>, needsPersist: bool,
    pc: Pc, atExit: nat, counted: nat)

  datatype Action =
    | Queue(h: Handler)
    | Raise(h: Handler)
    | CheckFlag
    | Count
    | Encode
    | WriteOk
    | WriteFails
    | FlushOne
    | EndFlush
    | ReturnErr
    | NextIteration
    | Break
    | DropWrite(landed: bool)

  const INITIAL := State([], 0, 0, {}, false, Top, 0, 0)

  function Pending(s: State): int {
    |s.ops| - s.flushed
  }

  function Exit(s: State): State {
    s.(pc := Exiting, atExit := |s.ops|)
  }

  /** One atomic step; `None` if the action cannot happen there. Only the async processor has work between starting
      the manager's write and learning how it went, and can leave the loop there. */
  function Step(isAsync: bool, s: State, a: Action): Option<State> {
    match a
    case Queue(h) => Some(s.(ops := s.ops + [h]))
    case Raise(h) =>
      Some(s.(settled := s.settled + (set i | 0 <= i < |s.ops| && s.ops[i] == h), needsPersist := true))
    case CheckFlag =>
      if s.pc != Top then None
      else if s.needsPersist then Some(s.(needsPersist := false, pc := Cleared))
      else Some(s.(pc := Rest))
    case Count =>
      if Pending(s) < 0 then None
      else if s.pc == Cleared then Some(s.(pc := Counted(Pending(s))))
      else if s.pc == Exiting then Some(s.(pc := FinalCounted(Pending(s)), counted := |s.ops|))
      else None
    case Encode =>
      if s.pc.Counted? then Some(s.(pc := Writing(s.pc.n, |s.ops|)))
      else if s.pc.FinalCounted? then Some(s.(pc := FinalWriting(s.pc.n, |s.ops|)))
      else None
    case WriteOk =>
      if s.pc.Writing? then Some(s.(durable := s.pc.snap, pc := Flushing(s.pc.n)))
      else if s.pc.FinalWriting? then Some(s.(durable := s.pc.snap, pc := FinalFlushing(s.pc.n)))
      else None
    case WriteFails =>
      if s.pc.Writing? then Some(s.(pc := if isAsync then WriteFailed else Failed))
      else if s.pc.FinalWriting? then Some(s.(pc := Failed))
      else None
    case FlushOne =>
      if s.pc.Flushing? && s.pc.left > 0 then Some(s.(flushed := s.flushed + 1, pc := Flushing(s.pc.left - 1)))
      else if s.pc.FinalFlushing? && s.pc.left > 0 then
        Some(s.(flushed := s.flushed + 1, pc := FinalFlushing(s.pc.left - 1)))
      else None
    case EndFlush =>
      if s.pc == Flushing(0) then Some(s.(pc := Rest))
      else if s.pc == FinalFlushing(0) then Some(s.(pc := Done))
      else None
    case ReturnErr =>
      if s.pc == WriteFailed || (isAsync && s.pc == Rest) then Some(s.(pc := Failed)) else None
    case NextIteration =>
      if s.pc == Rest then Some(s.(pc := Top)) else None
    case Break =>
      if s.pc == Top || (isAsync && (s.pc == Rest || s.pc == WriteFailed)) then Some(Exit(s)) else None
    case DropWrite(landed) =>
      if isAsync && s.pc.Writing?
      then Some(Exit(s.(durable := if landed then s.pc.snap else s.durable)))
      else None
  }

  function Run(isAsync: bool, s: State, actions: seq<Action>): Option<State>
    decreases |actions|
  {
    if actions == [] then Some(s) else
    match Step(isAsync, s, actions[0])
    case None => None
    case Some(s1) => Run(isAsync, s1, actions[1..])
  }

  /** Every settled operation from position `from` on has the flag raised for it. */
  ghost predicate Flagged(s: State, from: int) {
    s.needsPersist || forall i | i in s.settled :: i < from
  }

  ghost predicate PcInv(s: State) {
    match s.pc
    case Top | Rest => Flagged(s, s.flushed)
    case Counted(n) => s.flushed + n <= |s.ops| && Flagged(s, s.flushed + n)
    case Writing(n, snap) =>
      s.flushed + n <= snap <= |s.ops| && s.durable <= snap && Flagged(s, s.flushed + n)
    case Flushing(left) => s.flushed + left <= s.durable && Flagged(s, s.flushed + left)
    case FinalCounted(n) => s.flushed + n == s.counted <= |s.ops| && s.atExit <= s.counted
    case FinalWriting(n, snap) =>
      s.flushed + n == s.counted <= snap <= |s.ops| && s.durable <= snap && s.atExit <= s.counted
    case FinalFlushing(left) => s.flushed + left == s.counted <= s.durable && s.atExit <= s.counted
    case Done => s.atExit <= s.counted == s.flushed
    case Exiting => s.atExit <= |s.ops|
    case Cleared | WriteFailed | Failed => true
  }

  ghost predicate Inv(s: State) {
    && s.flushed <= s.durable <= |s.ops|
    && (forall i | i in s.settled :: i < |s.ops|)
    && PcInv(s)
  }

  lemma QueueKeepsInv(isAsync: bool, s: State, a: Action)
    requires a.Queue?
    requires Inv(s) && Step(isAsync, s, a).Some?
    ensures Inv(Step(isAsync, s, a).value)
  {
  }

  lemma RaiseKeepsInv(isAsync: bool, s: State, a: Action)
    requires a.Raise?
    requires Inv(s) && Step(isAsync, s, a).Some?
    ensures Inv(Step(isAsync, s, a).value)
  {
  }

  lemma PersistKeepsInv(isAsync: bool, s: State, a: Action)
    requires a.Count? || a.Encode? || a.WriteOk? || a.WriteFails?
    requires Inv(s) && Step(isAsync, s, a).Some?
    ensures Inv(Step(isAsync, s, a).value)
  {
  }

  lemma FlushKeepsInv(isAsync: bool, s: State, a: Action)
    requires a.FlushOne? || a.EndFlush?
    requires Inv(s) && Step(isAsync, s, a).Some?
    ensures Inv(Step(isAsync, s, a).value)
  {
  }

  lemma LoopKeepsInv(isAsync: bool, s: State, a: Action)
    requires a.CheckFlag? || a.ReturnErr? || a.NextIteration? || a.Break? || a.DropWrite?
    requires Inv(s) && Step(isAsync, s, a).Some?
    ensures Inv(Step(isAsync, s, a).value)
  {
  }

  lemma StepKeepsInv(isAsync: bool, s: State, a: Action)
    requires Inv(s) && Step(isAsync, s, a).Some?
    ensures Inv(Step(isAsync, s, a).value)
  {
    match a
    case Queue(_) => QueueKeepsInv(isAsync, s, a);
    case Raise(_) => RaiseKeepsInv(isAsync, s, a);
    case Count | Encode | WriteOk | WriteFails => PersistKeepsInv(isAsync, s, a);
    case FlushOne | EndFlush => FlushKeepsInv(isAsync, s, a);
    case CheckFlag | ReturnErr | NextIteration | Break | DropWrite(_) => LoopKeepsInv(isAsync, s, a);
  }

  lemma {:induction false} RunKeepsInv(isAsync: bool, s: State, actions: seq<Action>)
    requires Inv(s) && Run(isAsync, s, actions).Some?
    ensures Inv(Run(isAsync, s, actions).value)
    decreases |actions|
  {
    if actions != [] {
      StepKeepsInv(isAsync, s, actions[0]);
      RunKeepsInv(isAsync, Step(isAsync, s, actions[0]).value, actions[1..]);
    }
  }

  lemma {:induction false} RunSplit(isAsync: bool, s: State, a: seq<Action>, b: seq<Action>)
    requires Run(isAsync, s, a + b).Some?
    ensures Run(isAsync, s, a).Some? && Run(isAsync, Run(isAsync, s, a).value, b) == Run(isAsync, s, a + b)
    decreases |a|
  {
    if a == [] {
      assert a + b == b;
    } else {
      assert (a + b)[1..] == a[1..] + b;
      RunSplit(isAsync, Step(isAsync, s, a[0]).value, a[1..], b);
    }
  }

  /** The queue is first in, first out: no step moves or forgets an operation queued before. */
  lemma {:induction false} OpsKept(isAsync: bool, s: State, actions: seq<Action>)
    requires Run(isAsync, s, actions).Some?
    ensures s.ops <= Run(isAsync, s, actions).value.ops
    decreases |actions|
  {
    if actions != [] {
      OpsKept(isAsync, Step(isAsync, s, actions[0]).value, actions[1..]);
    }
  }

  /** The run's last step, after everything before it. */
  lemma LastStep(isAsync: bool, actions: seq<Action>)
    requires actions != [] && Run(isAsync, INITIAL, actions).Some?
    ensures var front := actions[..|actions| - 1];
            && Run(isAsync, INITIAL, front).Some?
            && Step(isAsync, Run(isAsync, INITIAL, front).value, actions[|actions| - 1])
               == Run(isAsync, INITIAL, actions)
  {
    var front, a := actions[..|actions| - 1], actions[|actions| - 1];
    assert actions == front + [a];
    RunSplit(isAsync, INITIAL, front, [a]);
    assert [a][1..] == [];
  }

  /** A manager was encoded by action `e`, with `n` operations queued by then, and none was encoded since. */
  ghost predicate EncodedAt(isAsync: bool, actions: seq<Action>, e: nat, n: nat) {
    && e < |actions| && actions[e] == Encode && (forall i | e < i < |actions| :: actions[i] != Encode)
    && Run(isAsync, INITIAL, actions[..e]).Some? && |Run(isAsync, INITIAL, actions[..e]).value.ops| == n
  }

  /** The manager that action `e` encoded was written by action `w`. */
  ghost predicate WrittenBy(isAsync: bool, actions: seq<Action>, e: nat, w: nat, n: nat) {
    w < |actions| && (actions[w] == WriteOk || actions[w] == DropWrite(true)) && EncodedAt(isAsync, actions[..w], e, n)
  }

  ghost predicate Encoding(isAsync: bool, actions: seq<Action>, s: State) {
    && (IsWriting(s.pc) ==> exists e :: EncodedAt(isAsync, actions, e, s.pc.snap))
    && (s.durable > 0 ==> exists e, w :: WrittenBy(isAsync, actions, e, w, s.durable))
  }

  lemma EncodedStays(isAsync: bool, actions: seq<Action>, a: Action, e: nat, n: nat)
    requires EncodedAt(isAsync, actions, e, n) && a != Encode
    ensures EncodedAt(isAsync, actions + [a], e, n)
  {
    assert (actions + [a])[..e] == actions[..e];
  }

  lemma WrittenStays(isAsync: bool, actions: seq<Action>, a: Action, e: nat, w: nat, n: nat)
    requires WrittenBy(isAsync, actions, e, w, n)
    ensures WrittenBy(isAsync, actions + [a], e, w, n)
  {
    assert (actions + [a])[..w] == actions[..w];
  }

  predicate IsWriting(pc: Pc) {
    pc.Writing? || pc.FinalWriting?
  }

  /** How one step bears on the manager being written and the last one written. */
  lemma StepEncodes(isAsync: bool, s: State, a: Action)
    requires Step(isAsync, s, a).Some?
    ensures var s1 := Step(isAsync, s, a).value;
            && (a == Encode ==> IsWriting(s1.pc) && s1.pc.snap == |s.ops|)
            && (a != Encode && IsWriting(s1.pc) ==> IsWriting(s.pc) && s1.pc.snap == s.pc.snap)
            && (a == WriteOk || a == DropWrite(true) ==> IsWriting(s.pc) && s1.durable == s.pc.snap)
            && (a != WriteOk && a != DropWrite(true) ==> s1.durable == s.durable)
  {
  }

  lemma EncodingStep(isAsync: bool, front: seq<Action>, a: Action, s: State, s1: State)
    requires Run(isAsync, INITIAL, front) == Some(s) && Step(isAsync, s, a) == Some(s1) && Encoding(isAsync, front, s)
    ensures Encoding(isAsync, front + [a], s1)
  {
    var all := front + [a];
    assert all[..|front|] == front;
    StepEncodes(isAsync, s, a);
    if a == Encode {
      assert EncodedAt(isAsync, all, |front|, |s.ops|);
    } else if IsWriting(s1.pc) {
      var e :| EncodedAt(isAsync, front, e, s.pc.snap);
      EncodedStays(isAsync, front, a, e, s.pc.snap);
    }
    if a == WriteOk || a == DropWrite(true) {
      var e :| EncodedAt(isAsync, front, e, s.pc.snap);
      assert WrittenBy(isAsync, all, e, |front|, s1.durable);
    } else if s.durable > 0 {
      var e, w :| WrittenBy(isAsync, front, e, w, s.durable);
      WrittenStays(isAsync, front, a, e, w, s.durable);
    }
  }

  lemma {:induction false} RunEncoding(isAsync: bool, actions: seq<Action>)
    requires Run(isAsync, INITIAL, actions).Some?
    ensures Encoding(isAsync, actions, Run(isAsync, INITIAL, actions).value)
    decreases |actions|
  {
    if actions != [] {
      var front := actions[..|actions| - 1];
      LastStep(isAsync, actions);
      RunEncoding(isAsync, front);
      EncodingStep(isAsync, front, actions[|actions| - 1], Run(isAsync, INITIAL, front).value,
                   Run(isAsync, INITIAL, actions).value);
      assert actions == front + [actions[|actions| - 1]];
    }
  }

  /** Whatever the interleaving, the operations flushed so far are the oldest of those queued when a manager was encoded
      that has since been written. */
  lemma FlushedAreEncoded(isAsync: bool, actions: seq<Action>) returns (e: nat, w: nat, n: nat)
    requires Run(isAsync, INITIAL, actions).Some? && Run(isAsync, INITIAL, actions).value.flushed > 0
    ensures WrittenBy(isAsync, actions, e, w, n) && e < w && Run(isAsync, INITIAL, actions[..e]).Some?
    ensures var s := Run(isAsync, INITIAL, actions).value;
            s.flushed <= |s.ops| && s.ops[..s.flushed] <= Run(isAsync, INITIAL, actions[..e]).value.ops
  {
    var s := Run(isAsync, INITIAL, actions).value;
    RunKeepsInv(isAsync, INITIAL, actions);
    RunEncoding(isAsync, actions);
    e, w :| WrittenBy(isAsync, actions, e, w, s.durable);
    n := s.durable;
    assert actions[..w][..e] == actions[..e] && actions == actions[..e] + actions[e..];
    RunSplit(isAsync, INITIAL, actions[..e], actions[e..]);
    OpsKept(isAsync, Run(isAsync, INITIAL, actions[..e]).value, actions[e..]);
  }

  /** The handler of operation `i` raised the flag by action `r`, after it had queued the operation. */
  ghost predicate RaisedAt(isAsync: bool, actions: seq<Action>, h: Handler, i: nat, r: nat) {
    && r < |actions| && actions[r] == Raise(h)
    && Run(isAsync, INITIAL, actions[..r]).Some? && i < |Run(isAsync, INITIAL, actions[..r]).value.ops|
  }

  lemma RaisedStays(isAsync: bool, actions: seq<Action>, a: Action, h: Handler, i: nat, r: nat)
    requires r < |actions|
    ensures RaisedAt(isAsync, actions, h, i, r) <==> RaisedAt(isAsync, actions + [a], h, i, r)
  {
    assert (actions + [a])[..r] == actions[..r];
  }

  /** Settled are exactly the operations whose handler has raised the flag since. */
  lemma {:induction false} SettledExact(isAsync: bool, actions: seq<Action>, i: nat)
    requires Run(isAsync, INITIAL, actions).Some? && i < |Run(isAsync, INITIAL, actions).value.ops|
    ensures var s := Run(isAsync, INITIAL, actions).value;
            i in s.settled <==> exists r :: RaisedAt(isAsync, actions, s.ops[i], i, r)
    decreases |actions|, 0
  {
    if actions != [] {
      var front, a := actions[..|actions| - 1], actions[|actions| - 1];
      LastStep(isAsync, actions);
      RunKeepsInv(isAsync, INITIAL, front);
      assert actions == front + [a];
      SettledStep(isAsync, front, a, i);
    }
  }

  /** How one step bears on one operation being settled. */
  lemma StepSettles(isAsync: bool, s: State, a: Action, i: nat)
    requires Inv(s) && Step(isAsync, s, a).Some? && i < |Step(isAsync, s, a).value.ops|
    ensures var s1 := Step(isAsync, s, a).value;
            && s.ops <= s1.ops
            && (i in s1.settled <==> i < |s.ops| && (i in s.settled || a == Raise(s.ops[i])))
  {
  }

  /** Which raise of the run it was, if not the last step. */
  lemma RaisedBefore(isAsync: bool, front: seq<Action>, a: Action, h: Handler, i: nat, r: nat)
    requires Run(isAsync, INITIAL, front).Some? && RaisedAt(isAsync, front + [a], h, i, r)
    ensures i < |Run(isAsync, INITIAL, front).value.ops|
    ensures RaisedAt(isAsync, front, h, i, r) || (r == |front| && a == Raise(h))
  {
    if r < |front| {
      RaisedStays(isAsync, front, a, h, i, r);
      assert front == front[..r] + front[r..];
      RunSplit(isAsync, INITIAL, front[..r], front[r..]);
      OpsKept(isAsync, Run(isAsync, INITIAL, front[..r]).value, front[r..]);
    } else {
      assert (front + [a])[..r] == front;
    }
  }

  lemma SettledStep(isAsync: bool, front: seq<Action>, a: Action, i: nat)
    requires Run(isAsync, INITIAL, front).Some? && Inv(Run(isAsync, INITIAL, front).value)
    requires Step(isAsync, Run(isAsync, INITIAL, front).value, a).Some?
    requires i < |Step(isAsync, Run(isAsync, INITIAL, front).value, a).value.ops|
    ensures var s := Step(isAsync, Run(isAsync, INITIAL, front).value, a).value;
            i in s.settled <==> exists r :: RaisedAt(isAsync, front + [a], s.ops[i], i, r)
    decreases |front|, 1
  {
    var s := Run(isAsync, INITIAL, front).value;
    var h := Step(isAsync, s, a).value.ops[i];
    StepSettles(isAsync, s, a, i);
    if i < |s.ops| {
      SettledExact(isAsync, front, i);
      if i in s.settled {
        var r :| RaisedAt(isAsync, front, h, i, r);
        RaisedStays(isAsync, front, a, h, i, r);
      }
      if a == Raise(h) {
        assert (front + [a])[..|front|] == front;
        assert RaisedAt(isAsync, front + [a], h, i, |front|);
      }
    }
    if r: nat :| RaisedAt(isAsync, front + [a], h, i, r) {
      RaisedBefore(isAsync, front, a, h, i, r);
    }
  }

  /** Whatever the interleaving, every flushed operation is reflected in a manager that has been written: it was
      queued before that manager was encoded. And a flush never finds the queue empty. */
  lemma FlushedAreDurable(isAsync: bool, actions: seq<Action>)
    requires Run(isAsync, INITIAL, actions).Some?
    ensures var s := Run(isAsync, INITIAL, actions).value;
            && s.flushed <= s.durable <= |s.ops|
            && ((s.pc.Flushing? || s.pc.FinalFlushing?) && s.pc.left > 0 ==> Pending(s) > 0)
  {
    RunKeepsInv(isAsync, INITIAL, actions);
  }

  /** Until a manager write succeeds nothing is flushed; in particular not after a failed one. */
  lemma {:induction false} NoWriteNoFlush(isAsync: bool, s: State, actions: seq<Action>)
    requires !s.pc.Flushing? && !s.pc.FinalFlushing? && WriteOk !in actions
    requires Run(isAsync, s, actions).Some?
    ensures Run(isAsync, s, actions).value.flushed == s.flushed
    decreases |actions|
  {
    if actions != [] {
      assert actions[0] in actions;
      NoWriteNoFlush(isAsync, Step(isAsync, s, actions[0]).value, actions[1..]);
    }
  }

  /** At the top of the loop, an unflushed operation whose handler has finished has the flag raised for it. */
  lemma NotStranded(isAsync: bool, actions: seq<Action>, i: nat)
    requires Run(isAsync, INITIAL, actions).Some? && Run(isAsync, INITIAL, actions).value.pc == Top
    requires var s := Run(isAsync, INITIAL, actions).value; i in s.settled && s.flushed <= i
    ensures Run(isAsync, INITIAL, actions).value.needsPersist
  {
    RunKeepsInv(isAsync, INITIAL, actions);
  }

  /** With no handler at work, an unraised flag at the top of the loop means an empty queue. */
  lemma QuiescentMeansFlushed(isAsync: bool, actions: seq<Action>)
    requires Run(isAsync, INITIAL, actions).Some? && Run(isAsync, INITIAL, actions).value.pc == Top
    requires var s := Run(isAsync, INITIAL, actions).value;
             !s.needsPersist && forall i | 0 <= i < |s.ops| :: i in s.settled
    ensures Pending(Run(isAsync, INITIAL, actions).value) == 0
  {
    RunKeepsInv(isAsync, INITIAL, actions);
    var s := Run(isAsync, INITIAL, actions).value;
    assert s.flushed < |s.ops| ==> s.flushed in s.settled;
  }

  /** However the loop was left, a finished processor has flushed everything that was counted then, which includes
      everything queued before it left. */
  lemma DoneMeansFlushed(isAsync: bool, actions: seq<Action>)
    requires Run(isAsync, INITIAL, actions).Some? && Run(isAsync, INITIAL, actions).value.pc == Done
    ensures var s := Run(isAsync, INITIAL, actions).value; s.atExit <= s.flushed == s.counted
  {
    RunKeepsInv(isAsync, INITIAL, actions);
  }

  /** In terms of the run alone: at the top of the loop, an unflushed operation whose handler has raised the flag since
      has the flag raised for it. */
  lemma RaisedNotStranded(isAsync: bool, actions: seq<Action>, i: nat, r: nat)
    requires Run(isAsync, INITIAL, actions).Some? && Run(isAsync, INITIAL, actions).value.pc == Top
    requires var s := Run(isAsync, INITIAL, actions).value;
             s.flushed <= i < |s.ops| && RaisedAt(isAsync, actions, s.ops[i], i, r)
    ensures Run(isAsync, INITIAL, actions).value.needsPersist
  {
    SettledExact(isAsync, actions, i);
    NotStranded(isAsync, actions, i);
  }

  /** The loop has been left, with at least `n` operations queued by then. */
  ghost predicate LeftWith(s: State, n: nat) {
    match s.pc
    case Exiting => n <= |s.ops|
    case FinalCounted(_) | FinalWriting(_, _) | FinalFlushing(_) | Done => n <= s.counted
    case Failed => true
    case _ => false
  }

  lemma {:induction false} LeftStaysLeft(isAsync: bool, s: State, actions: seq<Action>, n: nat)
    requires LeftWith(s, n) && Run(isAsync, s, actions).Some?
    ensures LeftWith(Run(isAsync, s, actions).value, n)
    decreases |actions|
  {
    if actions != [] {
      LeftStaysLeft(isAsync, Step(isAsync, s, actions[0]).value, actions[1..], n);
    }
  }

  /** In terms of the run alone: whatever was queued when the loop was left is flushed when the processor is done. */
  lemma LeftMeansFlushed(isAsync: bool, before: seq<Action>, after: seq<Action>)
    requires Run(isAsync, INITIAL, before + after).Some?
    requires Run(isAsync, INITIAL, before).Some? && Run(isAsync, INITIAL, before).value.pc == Exiting
    requires Run(isAsync, INITIAL, before + after).value.pc == Done
    ensures |Run(isAsync, INITIAL, before).value.ops| <= Run(isAsync, INITIAL, before + after).value.flushed
  {
    var s := Run(isAsync, INITIAL, before).value;
    RunSplit(isAsync, INITIAL, before, after);
    LeftStaysLeft(isAsync, s, after, |s.ops|);
    RunKeepsInv(isAsync, INITIAL, before + after);
  }

  /** Where the processor can go from each place, while handlers may act anywhere. It gets stuck nowhere but at its two
      ends. */
  ghost predicate Allowed(isAsync: bool, pc: Pc, a: Action) {
    match pc
    case Top => a.CheckFlag? || a.Break?
    case Cleared | Exiting => a.Count?
    case Counted(_) | FinalCounted(_) => a.Encode?
    case Writing(_, _) => a.WriteOk? || a.WriteFails? || (isAsync && a.DropWrite?)
    case FinalWriting(_, _) => a.WriteOk? || a.WriteFails?
    case Flushing(left) => if left == 0 then a.EndFlush? else a.FlushOne?
    case FinalFlushing(left) => if left == 0 then a.EndFlush? else a.FlushOne?
    case WriteFailed => a.ReturnErr? || (isAsync && a.Break?)
    case Rest => a.NextIteration? || (isAsync && (a.ReturnErr? || a.Break?))
    case Done | Failed => false
  }

  lemma ControlFlow(isAsync: bool, s: State, a: Action)
    requires Inv(s)
    ensures Step(isAsync, s, a).Some? <==> a.Queue? || a.Raise? || Allowed(isAsync, s.pc, a)
    ensures a.NextIteration? && s.pc == Rest ==> Step(isAsync, s, a) == Some(s.(pc := Top))
    ensures isAsync && a.WriteFails? && s.pc.Writing? ==> Step(isAsync, s, a) == Some(s.(pc := WriteFailed))
  {
  }

  /** As long as no handler raises the flag, a loop that finds it down writes and flushes nothing. */
  lemma {:induction false} IdleWritesNothing(isAsync: bool, s: State, actions: seq<Action>)
    requires !s.needsPersist && (s.pc == Top || s.pc == Rest || s.pc == Failed) && Run(isAsync, s, actions).Some?
    requires forall a | a in actions :: !a.Raise? && !a.Break?
    ensures var s1 := Run(isAsync, s, actions).value;
            s1.durable == s.durable && s1.flushed == s.flushed && !s1.needsPersist
    decreases |actions|
  {
    if actions != [] {
      assert actions[0] in actions;
      IdleWritesNothing(isAsync, Step(isAsync, s, actions[0]).value, actions[1..]);
    }
  }

  /** Both processors can leave the loop at its top; the async one also after the manager's write, successful or not,
      and with the write half done. None of this flushes anything or loses an operation. */
  lemma CanLeave(isAsync: bool, s: State, a: Action)
    ensures Step(isAsync, s, Break).Some? <==> s.pc == Top || (isAsync && (s.pc == Rest || s.pc == WriteFailed))
    ensures a.DropWrite? ==> (Step(isAsync, s, a).Some? <==> isAsync && s.pc.Writing?)
    ensures (a.Break? || a.DropWrite?) && Step(isAsync, s, a).Some? ==>
              var s1 := Step(isAsync, s, a).value;
              s1.pc == Exiting && s1.ops == s.ops && s1.flushed == s.flushed && s1.atExit == |s.ops|
  {
  }

  lemma {:induction false} FailedStays(isAsync: bool, s: State, actions: seq<Action>)
    requires s.pc == Failed && Run(isAsync, s, actions).Some?
    ensures var s1 := Run(isAsync, s, actions).value;
            s1.pc == Failed && s1.flushed == s.flushed && s1.durable == s.durable
    decreases |actions|
  {
    if actions != [] {
      FailedStays(isAsync, Step(isAsync, s, actions[0]).value, actions[1..]);
    }
  }

  /** A failed write ends the sync processor, and the final one ends either: whatever handlers do after, nothing more
      is written or flushed. */
  lemma FailedWriteEnds(isAsync: bool, s: State, actions: seq<Action>)
    requires Step(isAsync, s, WriteFails).Some? && Run(isAsync, Step(isAsync, s, WriteFails).value, actions).Some?
    ensures var s1 := Run(isAsync, Step(isAsync, s, WriteFails).value, actions).value;
            !isAsync || s.pc.FinalWriting? ==>
              s1.pc == Failed && s1.flushed == s.flushed && s1.durable == s.durable
  {
    var s1 := Step(isAsync, s, WriteFails).value;
    if s1.pc == Failed {
      FailedStays(isAsync, s1, actions);
    }
  }

  function FlushAll(n: nat): seq<Action> {
    if n == 0 then [EndFlush] else [FlushOne] + FlushAll(n - 1)
  }

  /** Flushing `left` operations takes exactly the oldest ones, in the loop and at the end. */
  lemma {:induction false} FlushAllRuns(isAsync: bool, s: State)
    requires s.pc.Flushing? || s.pc.FinalFlushing?
    ensures Run(isAsync, s, FlushAll(s.pc.left))
            == Some(s.(flushed := s.flushed + s.pc.left, pc := if s.pc.Flushing? then Rest else Done))
    decreases s.pc.left
  {
    var a := FlushAll(s.pc.left);
    if s.pc.left > 0 {
      assert a[1..] == FlushAll(s.pc.left - 1);
      FlushAllRuns(isAsync, Step(isAsync, s, FlushOne).value);
    } else {
      assert a[1..] == [];
      assert Run(isAsync, Step(isAsync, s, EndFlush).value, a[1..]) == Step(isAsync, s, EndFlush);
    }
  }

  lemma RunCons(isAsync: bool, s: State, a: Action, rest: seq<Action>)
    requires Step(isAsync, s, a).Some?
    ensures Run(isAsync, s, [a] + rest) == Run(isAsync, Step(isAsync, s, a).value, rest)
  {
    assert ([a] + rest)[1..] == rest;
  }

  /** Counting, encoding, writing and flushing with nothing in between. */
  function Round(n: nat): seq<Action> {
    [Count] + ([Encode] + ([WriteOk] + FlushAll(n)))
  }

  lemma RoundRuns(isAsync: bool, s: State)
    requires Inv(s) && (s.pc == Cleared || s.pc == Exiting)
    ensures Run(isAsync, s, Round(Pending(s))).Some?
    ensures var s1 := Run(isAsync, s, Round(Pending(s))).value;
            && s1.pc == (if s.pc == Cleared then Rest else Done)
            && s1.flushed == s1.durable == |s1.ops| && s1.ops == s.ops && s1.needsPersist == s.needsPersist
  {
    var flush := FlushAll(Pending(s));
    var s1 := Step(isAsync, s, Count).value;
    var s2 := Step(isAsync, s1, Encode).value;
    var s3 := Step(isAsync, s2, WriteOk).value;
    RunCons(isAsync, s, Count, [Encode] + ([WriteOk] + flush));
    RunCons(isAsync, s1, Encode, [WriteOk] + flush);
    RunCons(isAsync, s2, WriteOk, flush);
    FlushAllRuns(isAsync, s3);
  }

  /** From every reachable loop top with the flag raised, an undisturbed round whose write succeeds flushes everything
      queued and leaves the flag down. */
  lemma RoundFlushesAll(isAsync: bool, actions: seq<Action>)
    requires Run(isAsync, INITIAL, actions).Some?
    requires Run(isAsync, INITIAL, actions).value.pc == Top && Run(isAsync, INITIAL, actions).value.needsPersist
    ensures var s := Run(isAsync, INITIAL, actions).value;
            Pending(s) >= 0 && Run(isAsync, s, [CheckFlag] + Round(Pending(s))).Some?
    ensures var s := Run(isAsync, INITIAL, actions).value;
            var s1 := Run(isAsync, s, [CheckFlag] + Round(Pending(s))).value;
            s1.pc == Rest && s1.flushed == |s1.ops| && s1.ops == s.ops && !s1.needsPersist
  {
    RunKeepsInv(isAsync, INITIAL, actions);
    var s := Run(isAsync, INITIAL, actions).value;
    StepKeepsInv(isAsync, s, CheckFlag);
    RunCons(isAsync, s, CheckFlag, Round(Pending(s)));
    RoundRuns(isAsync, Step(isAsync, s, CheckFlag).value);
  }

  /** From every way out of the loop the final persist is reached, and if its write succeeds it empties the queue. */
  lemma ExitFlushesAll(isAsync: bool, s: State)
    requires Inv(s) && s.pc == Exiting
    ensures Run(isAsync, s, Round(Pending(s))).Some?
    ensures var s1 := Run(isAsync, s, Round(Pending(s))).value;
            s1.pc == Done && s1.flushed == |s1.ops| == |s.ops|
  {
    RoundRuns(isAsync, s);
  }
}
