/** Promises (promise.go): callbacks registered before or after the result is known. */
module Promise {
  import opened Common
  import opened Order

  /** What a promise is finished with: a producer message, an error, or both missing. */
  datatype Settled = Settled(msg: Option<string>, err: Option<string>)

  /** Callbacks are numbered; `calls` lists the calls made so far. */
  datatype State = State(result: Settled, finished: bool, callbacks: seq<nat>, calls: seq<(nat, Settled)>)

  const Pending := State(Settled(None, None), false, [], [])

  function Notified(callbacks: seq<nat>, result: Settled): seq<(nat, Settled)> {
    seq(|callbacks|, i requires 0 <= i < |callbacks| => (callbacks[i], result))
  }

  function AfterThen(p: State, callback: nat): State {
    if p.finished then p.(calls := p.calls + [(callback, p.result)])
    else p.(callbacks := p.callbacks + [callback])
  }

  function AfterFinish(p: State, result: Settled): State {
    var p := p.(result := result);
    if p.finished then p else p.(calls := p.calls + Notified(p.callbacks, result), finished := true)
  }

  class Promise {
    var result: Settled
    var finished: bool
    var callbacks: seq<nat>
    var calls: seq<(nat, Settled)>

    function View(): State
      reads this
    {
      State(result, finished, callbacks, calls)
    }

    constructor ()
      ensures View() == Pending
    {
      result, finished, callbacks, calls := Settled(None, None), false, [], [];
    }

    method ExecuteCallbacks()
      modifies this`finished, this`calls
      ensures finished
      ensures calls == if old(finished) then old(calls) else old(calls) + Notified(callbacks, result)
    {
      if finished {
        return;
      }
      var i := 0;
      while i < |callbacks|
        invariant 0 <= i <= |callbacks|
        invariant calls == old(calls) + Notified(callbacks, result)[..i]
      {
        calls := calls + [(callbacks[i], result)];
        i := i + 1;
      }
      finished := true;
    }

    method ThenWithMessage(callback: nat)
      modifies this
      ensures View() == AfterThen(old(View()), callback)
    {
      if finished {
        calls := calls + [(callback, result)];
      } else {
        callbacks := callbacks + [callback];
      }
    }

    method Finish(r: Settled)
      modifies this
      ensures View() == AfterFinish(old(View()), r)
    {
      result := r;
      ExecuteCallbacks();
    }
  }

  // ---------- every order of subscribing and finishing ----------

  datatype Op = Then | Finish(result: Settled)

  /** The promise after `ops`; the callback registered by `ops[i]` has number `i`. */
  function After(ops: seq<Op>): State {
    if ops == [] then Pending
    else
      var n := |ops| - 1;
      match ops[n]
      case Then => AfterThen(After(ops[..n]), n)
      case Finish(r) => AfterFinish(After(ops[..n]), r)
  }

  function FirstFinish(ops: seq<Op>): Option<Settled> {
    if ops == [] then None
    else if FirstFinish(ops[..|ops| - 1]).Some? then FirstFinish(ops[..|ops| - 1])
    else if ops[|ops| - 1].Finish? then Some(ops[|ops| - 1].result)
    else None
  }

  function LastFinish(ops: seq<Op>): Option<Settled> {
    if ops == [] then None
    else if ops[|ops| - 1].Finish? then Some(ops[|ops| - 1].result)
    else LastFinish(ops[..|ops| - 1])
  }

  /** The results callback `c` was called with, in order. */
  function CallsOf(calls: seq<(nat, Settled)>, c: nat): seq<Settled> {
    if calls == [] then []
    else CallsOf(calls[..|calls| - 1], c) + if calls[|calls| - 1].0 == c then [calls[|calls| - 1].1] else []
  }

  /** A late subscriber gets the newest result, an early one the first. */
  function Expected(ops: seq<Op>, i: nat): seq<Settled>
    requires i < |ops|
  {
    if LastFinish(ops[..i]).Some? then [LastFinish(ops[..i]).value]
    else if FirstFinish(ops).Some? then [FirstFinish(ops).value]
    else []
  }

  lemma {:induction false} CallsOfConcat(a: seq<(nat, Settled)>, b: seq<(nat, Settled)>, c: nat)
    ensures CallsOf(a + b, c) == CallsOf(a, c) + CallsOf(b, c)
  {
    if b == [] {
      assert a + b == a;
    } else {
      CallsOfConcat(a, b[..|b| - 1], c);
      assert (a + b)[..|a + b| - 1] == a + b[..|b| - 1];
    }
  }

  lemma {:induction false} CallsOfNotified(callbacks: seq<nat>, result: Settled, c: nat)
    requires NoDuplicates(callbacks)
    ensures CallsOf(Notified(callbacks, result), c) == if c in callbacks then [result] else []
  {
    if callbacks != [] {
      var n := |callbacks| - 1;
      CallsOfNotified(callbacks[..n], result, c);
      assert Notified(callbacks, result)[..n] == Notified(callbacks[..n], result);
      assert callbacks == callbacks[..n] + [callbacks[n]];
    }
  }

  lemma {:induction false} FirstFinishOfPrefix(ops: seq<Op>, i: nat)
    requires i <= |ops| && FirstFinish(ops[..i]).Some?
    ensures FirstFinish(ops) == FirstFinish(ops[..i])
  {
    if i == |ops| {
      assert ops[..i] == ops;
    } else {
      assert ops[..|ops| - 1][..i] == ops[..i];
      FirstFinishOfPrefix(ops[..|ops| - 1], i);
    }
  }

  lemma {:induction false} FinishExists(ops: seq<Op>)
    ensures LastFinish(ops).Some? <==> FirstFinish(ops).Some?
    ensures FirstFinish(ops).Some? <==> exists j :: 0 <= j < |ops| && ops[j].Finish?
  {
    if ops != [] {
      var front := ops[..|ops| - 1];
      FinishExists(front);
      if j :| 0 <= j < |front| && front[j].Finish? {
        assert ops[j].Finish?;
      }
      if j :| 0 <= j < |ops| && ops[j].Finish? {
        assert j == |front| || front[j].Finish?;
      }
    }
  }

  /** Before it is finished a promise has called nobody and remembers every subscriber once. */
  lemma {:induction false} PendingPromise(ops: seq<Op>)
    ensures var p := After(ops);
            && (p.finished <==> FirstFinish(ops).Some?)
            && (p.finished ==> LastFinish(ops) == Some(p.result))
            && NoDuplicates(p.callbacks)
            && (forall c | c in p.callbacks :: c < |ops| && ops[c].Then?)
            && (!p.finished ==> p.calls == [] && forall i | 0 <= i < |ops| && ops[i].Then? :: i in p.callbacks)
  {
    if ops != [] {
      var front := ops[..|ops| - 1];
      PendingPromise(front);
      FinishExists(front);
      if !After(front).finished && ops[|front|].Then? {
        forall i | 0 <= i < |ops| && ops[i].Then? ensures i in After(ops).callbacks {
          assert i == |front| || front[i].Then?;
        }
      }
    }
  }

  /** What one more operation calls. */
  lemma CallsAfter(ops: seq<Op>, op: Op, i: nat)
    ensures var p := After(ops);
            CallsOf(After(ops + [op]).calls, i) == CallsOf(p.calls, i) +
              match op
              case Then => if p.finished && i == |ops| then [p.result] else []
              case Finish(r) => if !p.finished && i in p.callbacks then [r] else []
  {
    var p := After(ops);
    assert (ops + [op])[..|ops|] == ops;
    PendingPromise(ops);
    match op
    case Then => CallsOfConcat(p.calls, [(|ops|, p.result)], i);
    case Finish(r) =>
      CallsOfConcat(p.calls, Notified(p.callbacks, r), i);
      CallsOfNotified(p.callbacks, r, i);
  }

  /** What one more operation makes of the expectation of an earlier subscriber. */
  lemma ExpectedAfter(ops: seq<Op>, op: Op, i: nat)
    requires i < |ops|
    ensures Expected(ops + [op], i) ==
            if op.Finish? && FirstFinish(ops).None? then [op.result] else Expected(ops, i)
  {
    assert (ops + [op])[..|ops|] == ops && (ops + [op])[..i] == ops[..i];
    FinishExists(ops[..i]);
    if FirstFinish(ops[..i]).Some? {
      FirstFinishOfPrefix(ops, i);
    }
  }

  /**
    Whatever the order of subscriptions and finishes: a callback runs exactly once if the promise is
    ever finished and never otherwise, with the first result if it was there before it, and with the
    newest one before it if it came late.
   */
  lemma {:induction false} EveryCallbackRunsOnce(ops: seq<Op>, i: nat)
    ensures CallsOf(After(ops).calls, i) == if i < |ops| && ops[i].Then? then Expected(ops, i) else []
  {
    if ops != [] {
      var n := |ops| - 1;
      var front := ops[..n];
      assert ops == front + [ops[n]];
      EveryCallbackRunsOnce(front, i);
      PendingPromise(front);
      CallsAfter(front, ops[n], i);
      FinishExists(front);
      if i < n {
        ExpectedAfter(front, ops[n], i);
      } else if i == n {
        assert ops[..n] == front;
      }
    }
  }

  /** With one finish, or several that agree, every callback sees that one result. */
  lemma OneFinishOneResult(ops: seq<Op>, r: Settled, i: nat)
    requires i < |ops| && ops[i].Then?
    requires exists j :: 0 <= j < |ops| && ops[j].Finish?
    requires forall j | 0 <= j < |ops| && ops[j].Finish? :: ops[j].result == r
    ensures CallsOf(After(ops).calls, i) == [r]
  {
    EveryCallbackRunsOnce(ops, i);
    FinishExists(ops);
    FinishValues(ops, r);
    FinishValues(ops[..i], r);
  }

  lemma {:induction false} FinishValues(ops: seq<Op>, r: Settled)
    requires forall j | 0 <= j < |ops| && ops[j].Finish? :: ops[j].result == r
    ensures LastFinish(ops) in {None, Some(r)} && FirstFinish(ops) in {None, Some(r)}
  {
    if ops != [] {
      FinishValues(ops[..|ops| - 1], r);
    }
  }

  /** A second, different finish splits them: who subscribes after it sees another result. */
  lemma SecondFinishSplitsSubscribers(r: Settled, q: Settled)
    ensures var ops := [Then, Finish(r), Finish(q), Then];
            CallsOf(After(ops).calls, 0) == [r] && CallsOf(After(ops).calls, 3) == [q]
  {
    var ops := [Then, Finish(r), Finish(q), Then];
    EveryCallbackRunsOnce(ops, 0);
    EveryCallbackRunsOnce(ops, 3);
    assert ops[..0] == [];
    FinishExists(ops[..0]);
    FirstFinishOf(r, [Finish(q), Then]);
    assert ops == [Then, Finish(r)] + [Finish(q), Then];
    assert ops[..3] == [Then, Finish(r), Finish(q)];
  }

  lemma FirstFinishOf(r: Settled, more: seq<Op>)
    ensures FirstFinish([Then, Finish(r)] + more) == Some(r)
  {
    var ops := [Then, Finish(r)];
    assert ops[..1] == [Then] && [Then][..0] == [];
    assert FirstFinish([Then]) == None;
    assert (ops + more)[..2] == ops;
    FirstFinishOfPrefix(ops + more, 2);
  }
}
