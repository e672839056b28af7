/**
  The state signal (signal.go): waiters whose channels close when the state matches, and observers that
  are sent every change.  A channel is named by the number of the call that made it.
 */
module Signal {
  import opened Common
  import opened Order

  datatype Waiter = Waiter(made: nat, state: int, minState: bool)

  predicate Matches(w: Waiter, state: int) {
    if w.minState then state >= w.state else state == w.state
  }

  /**
    Calls on a signal.  Stopping an observer closes its `closed` channel first and takes the lock later;
    in between, a change may reach it or not: `late` are those it reaches.
   */
  datatype Call =
    | Set(state: int, late: set<nat>)
    | Wait(state: int, minState: bool)
    | Observe
    | BeginStop(observer: nat)
    | FinishStop(observer: nat)

  datatype Value = Value(
    state: int,
    waiters: seq<Waiter>,
    closed: seq<(Waiter, nat)>, // channels closed, with the call that closed them
    observers: seq<nat>,
    stopping: set<nat>,
    seen: map<nat, seq<int>>)

  const NEW := Value(0, [], [], [], {}, map[])

  // ---------- one call ----------

  function Kept(ws: seq<Waiter>, state: int): seq<Waiter> {
    if ws == [] then []
    else if Matches(ws[|ws| - 1], state) then Kept(ws[..|ws| - 1], state)
    else Kept(ws[..|ws| - 1], state) + [ws[|ws| - 1]]
  }

  function Closings(ws: seq<Waiter>, state: int, now: nat): seq<(Waiter, nat)> {
    if ws == [] then []
    else if Matches(ws[|ws| - 1], state) then Closings(ws[..|ws| - 1], state, now) + [(ws[|ws| - 1], now)]
    else Closings(ws[..|ws| - 1], state, now)
  }

  function SeenBy(seen: map<nat, seq<int>>, o: nat): seq<int> {
    if o in seen then seen[o] else []
  }

  /** The observers that a change reaches. */
  predicate Reached(o: nat, stopping: set<nat>, late: set<nat>) {
    o !in stopping || o in late
  }

  function Notified(seen: map<nat, seq<int>>, os: seq<nat>, stopping: set<nat>, late: set<nat>, state: int)
    : map<nat, seq<int>>
  {
    if os == [] then seen
    else
      var last := os[|os| - 1];
      var before := Notified(seen, os[..|os| - 1], stopping, late, state);
      if Reached(last, stopping, late) then before[last := SeenBy(before, last) + [state]] else before
  }

  function Without(os: seq<nat>, o: nat): seq<nat> {
    if os == [] then []
    else if os[|os| - 1] == o then Without(os[..|os| - 1], o)
    else Without(os[..|os| - 1], o) + [os[|os| - 1]]
  }

  function Called(v: Value, call: Call, now: nat): Value {
    match call
    case Set(state, late) =>
      if state == v.state then v
      else v.(state := state, waiters := Kept(v.waiters, state), closed := v.closed + Closings(v.waiters, state, now),
              seen := Notified(v.seen, v.observers, v.stopping, late, state))
    case Wait(state, minState) =>
      var w := Waiter(now, state, minState);
      if Matches(w, v.state) then v.(closed := v.closed + [(w, now)]) else v.(waiters := v.waiters + [w])
    case Observe => v.(observers := v.observers + [now], seen := v.seen[now := [v.state]])
    case BeginStop(o) => v.(stopping := v.stopping + {o})
    case FinishStop(o) => v.(observers := Without(v.observers, o))
  }

  /** Stopping twice closes a closed channel, which Go does not survive. */
  predicate Allowed(v: Value, call: Call) {
    match call
    case BeginStop(o) => o in v.seen && o !in v.stopping
    case FinishStop(o) => o in v.stopping && o in v.observers
    case _ => true
  }

  function After(calls: seq<Call>): Value {
    if calls == [] then NEW else Called(After(calls[..|calls| - 1]), calls[|calls| - 1], |calls| - 1)
  }

  ghost predicate IsHistory(calls: seq<Call>) {
    forall n | 0 <= n < |calls| :: Allowed(After(calls[..n]), calls[n])
  }

  // ---------- waiters ----------

  /** The state calls leave, from the calls alone. */
  function StateAfter(calls: seq<Call>): int {
    if calls == [] then 0
    else if calls[|calls| - 1].Set? then calls[|calls| - 1].state
    else StateAfter(calls[..|calls| - 1])
  }

  ghost predicate Made(calls: seq<Call>, w: Waiter) {
    w.made < |calls| && calls[w.made] == Wait(w.state, w.minState)
  }

  /** The states after each of the calls. */
  function States(calls: seq<Call>): (states: seq<int>)
    ensures |states| == |calls|
  {
    if calls == [] then [] else States(calls[..|calls| - 1]) + [StateAfter(calls)]
  }

  /** No state since `w` was made has matched. */
  ghost predicate Waits(calls: seq<Call>, w: Waiter) {
    Made(calls, w) && NoMatch(States(calls), w)
  }

  ghost predicate NoMatch(states: seq<int>, w: Waiter) {
    forall j | w.made <= j < |states| :: !Matches(w, states[j])
  }

  /** Call `j` is the first, from the one that made `w` on, after which the state matches. */
  ghost predicate FirstMatch(calls: seq<Call>, w: Waiter, j: nat) {
    Made(calls, w) && IsFirst(States(calls), w, j)
  }

  ghost predicate IsFirst(states: seq<int>, w: Waiter, j: nat) {
    w.made <= j < |states| && Matches(w, states[j]) && forall i | w.made <= i < j :: !Matches(w, states[i])
  }

  lemma {:induction false} StateIsLastSet(calls: seq<Call>)
    ensures After(calls).state == StateAfter(calls)
  {
    if calls != [] {
      StateIsLastSet(calls[..|calls| - 1]);
    }
  }

  lemma {:induction false} KeptCount(ws: seq<Waiter>, state: int, w: Waiter)
    ensures multiset(Kept(ws, state))[w] == if Matches(w, state) then 0 else multiset(ws)[w]
  {
    if ws != [] {
      KeptCount(ws[..|ws| - 1], state, w);
      assert ws == ws[..|ws| - 1] + [ws[|ws| - 1]];
    }
  }

  lemma {:induction false} ClosingsCount(ws: seq<Waiter>, state: int, now: nat, w: Waiter, j: nat)
    ensures multiset(Closings(ws, state, now))[(w, j)] == if j == now && Matches(w, state) then multiset(ws)[w] else 0
  {
    if ws != [] {
      ClosingsCount(ws[..|ws| - 1], state, now, w, j);
      assert ws == ws[..|ws| - 1] + [ws[|ws| - 1]];
    }
  }

  /** `w` waits just before it is known whether the last call's state matches. */
  ghost predicate Candidate(calls: seq<Call>, w: Waiter)
    requires calls != []
  {
    Waits(calls[..|calls| - 1], w) || (w.made == |calls| - 1 && Made(calls, w))
  }

  lemma WaitsStep(calls: seq<Call>, w: Waiter)
    requires calls != []
    ensures Waits(calls, w) <==> Candidate(calls, w) && !Matches(w, StateAfter(calls))
  {
    var before, states := States(calls[..|calls| - 1]), States(calls);
    assert forall j | 0 <= j < |before| :: states[j] == before[j];
    assert states[|calls| - 1] == StateAfter(calls);
  }

  lemma FirstMatchStep(calls: seq<Call>, w: Waiter, j: nat)
    requires calls != []
    ensures FirstMatch(calls, w, j) <==>
            FirstMatch(calls[..|calls| - 1], w, j) ||
            (j == |calls| - 1 && Candidate(calls, w) && Matches(w, StateAfter(calls)))
  {
    var before, states := States(calls[..|calls| - 1]), States(calls);
    assert forall i | 0 <= i < |before| :: states[i] == before[i];
  }

  lemma WaitsIsUnmatched(calls: seq<Call>, w: Waiter)
    requires Waits(calls, w)
    ensures !Matches(w, StateAfter(calls))
  {
    assert States(calls)[|calls| - 1] == StateAfter(calls);
  }

  /** How often `w` stands among the waiters, and how often call `j` closed it. */
  ghost predicate WaiterOk(v: Value, calls: seq<Call>, w: Waiter, j: nat) {
    && multiset(v.waiters)[w] == (if Waits(calls, w) then 1 else 0)
    && multiset(v.closed)[(w, j)] == (if FirstMatch(calls, w, j) then 1 else 0)
  }

  lemma WaiterOnSet(v: Value, calls: seq<Call>, w: Waiter, j: nat)
    requires calls != [] && calls[|calls| - 1].Set? && WaiterOk(v, calls[..|calls| - 1], w, j)
    requires v.state == StateAfter(calls[..|calls| - 1])
    ensures WaiterOk(Called(v, calls[|calls| - 1], |calls| - 1), calls, w, j)
  {
    var now := |calls| - 1;
    WaitsStep(calls, w);
    FirstMatchStep(calls, w, j);
    KeptCount(v.waiters, calls[now].state, w);
    ClosingsCount(v.waiters, calls[now].state, now, w, j);
    if Waits(calls[..now], w) {
      WaitsIsUnmatched(calls[..now], w);
    }
  }

  lemma WaiterOnWait(v: Value, calls: seq<Call>, w: Waiter, j: nat)
    requires calls != [] && calls[|calls| - 1].Wait? && WaiterOk(v, calls[..|calls| - 1], w, j)
    requires v.state == StateAfter(calls[..|calls| - 1])
    ensures WaiterOk(Called(v, calls[|calls| - 1], |calls| - 1), calls, w, j)
  {
    var now := |calls| - 1;
    WaitsStep(calls, w);
    FirstMatchStep(calls, w, j);
    if Waits(calls[..now], w) {
      WaitsIsUnmatched(calls[..now], w);
    }
  }

  lemma WaiterOnOther(v: Value, calls: seq<Call>, w: Waiter, j: nat)
    requires calls != [] && !calls[|calls| - 1].Set? && !calls[|calls| - 1].Wait? &&
             WaiterOk(v, calls[..|calls| - 1], w, j)
    ensures WaiterOk(Called(v, calls[|calls| - 1], |calls| - 1), calls, w, j)
  {
    var now := |calls| - 1;
    WaitsStep(calls, w);
    FirstMatchStep(calls, w, j);
    if Waits(calls[..now], w) {
      WaitsIsUnmatched(calls[..now], w);
    }
  }

  /**
    Whatever is called, the waiters that are kept are those whose state has not come up since they were
    made, once each; and a channel is closed by exactly the call after which the state first matched, once.
   */
  lemma {:induction false} WaitersAreExact(calls: seq<Call>, w: Waiter, j: nat)
    ensures multiset(After(calls).waiters)[w] == if Waits(calls, w) then 1 else 0
    ensures multiset(After(calls).closed)[(w, j)] == if FirstMatch(calls, w, j) then 1 else 0
  {
    if calls != [] {
      var before, last := calls[..|calls| - 1], calls[|calls| - 1];
      WaitersAreExact(before, w, j);
      StateIsLastSet(before);
      if last.Set? {
        WaiterOnSet(After(before), calls, w, j);
      } else if last.Wait? {
        WaiterOnWait(After(before), calls, w, j);
      } else {
        WaiterOnOther(After(before), calls, w, j);
      }
    }
  }

  /** What makes it sound to do nothing when the state is set again. */
  lemma NoWaiterMatches(calls: seq<Call>, w: Waiter)
    requires w in After(calls).waiters
    ensures !Matches(w, After(calls).state)
  {
    WaitersAreExact(calls, w, 0);
    assert w in multiset(After(calls).waiters);
    StateIsLastSet(calls);
    WaitsIsUnmatched(calls, w);
  }

  // ---------- observers ----------

  lemma {:induction false} NotifiedOf(seen: map<nat, seq<int>>, os: seq<nat>, stopping: set<nat>, late: set<nat>,
                                      state: int, o: nat)
    requires NoDuplicates(os)
    ensures SeenBy(Notified(seen, os, stopping, late, state), o) ==
            SeenBy(seen, o) + if o in os && Reached(o, stopping, late) then [state] else []
    ensures o in Notified(seen, os, stopping, late, state) ==> o in seen || o in os
    ensures o in seen ==> o in Notified(seen, os, stopping, late, state)
  {
    if os != [] {
      var front, last := os[..|os| - 1], os[|os| - 1];
      NotifiedOf(seen, front, stopping, late, state, o);
      assert os == front + [last];
      assert forall i | 0 <= i < |front| :: front[i] == os[i] != last;
    }
  }

  lemma AppendDistinct(os: seq<nat>, o: nat)
    requires NoDuplicates(os) && o !in os
    ensures NoDuplicates(os + [o])
  {
  }

  lemma {:induction false} WithoutOf(os: seq<nat>, o: nat)
    requires NoDuplicates(os)
    ensures NoDuplicates(Without(os, o)) && forall x :: x in Without(os, o) <==> x in os && x != o
  {
    if os != [] {
      var front, last := os[..|os| - 1], os[|os| - 1];
      WithoutOf(front, o);
      assert os == front + [last];
      assert forall i | 0 <= i < |front| :: front[i] == os[i] != last;
      AppendDistinct(Without(front, o), last);
    }
  }

  /** The list holds each observer that is not being stopped, once, and only observers that exist. */
  ghost predicate ListOk(v: Value, now: nat) {
    && NoDuplicates(v.observers)
    && (forall o | o in v.observers :: o in v.seen)
    && (forall o | o in v.seen && o !in v.stopping :: o in v.observers)
    && (forall o | o in v.seen :: o < now)
    && (forall o | o in v.stopping :: o in v.seen)
  }

  lemma ListStep(v: Value, call: Call, now: nat)
    requires ListOk(v, now) && Allowed(v, call)
    ensures ListOk(Called(v, call, now), now + 1)
  {
    match call
    case Set(state, late) =>
      forall o: nat ensures o in Notified(v.seen, v.observers, v.stopping, late, state) <==> o in v.seen {
        NotifiedOf(v.seen, v.observers, v.stopping, late, state, o);
      }
    case FinishStop(o) => WithoutOf(v.observers, o);
    case Observe => AppendDistinct(v.observers, now);
    case _ =>
  }

  lemma {:induction false} ListIsOk(calls: seq<Call>)
    requires IsHistory(calls)
    ensures ListOk(After(calls), |calls|)
  {
    if calls != [] {
      var before := calls[..|calls| - 1];
      HistoryPrefix(calls);
      ListIsOk(before);
      ListStep(After(before), calls[|calls| - 1], |calls| - 1);
    }
  }

  lemma HistoryPrefix(calls: seq<Call>)
    requires IsHistory(calls) && calls != []
    ensures IsHistory(calls[..|calls| - 1]) && Allowed(After(calls[..|calls| - 1]), calls[|calls| - 1])
  {
    var before := calls[..|calls| - 1];
    assert forall n | 0 <= n < |before| :: before[..n] == calls[..n] && before[n] == calls[n];
  }

  /** Who is listed, who is being stopped and who is sent anything, from the calls alone. */
  ghost predicate TellsTheCalls(v: Value, calls: seq<Call>, o: nat) {
    && (o in v.seen <==> o < |calls| && calls[o].Observe?)
    && (o in v.stopping <==> BeginStop(o) in calls)
    && (o in v.observers <==> o < |calls| && calls[o].Observe? && FinishStop(o) !in calls)
    && (FinishStop(o) in calls ==> BeginStop(o) in calls && o < |calls| && calls[o].Observe?)
  }

  lemma TellsNext(v: Value, calls: seq<Call>, call: Call, o: nat)
    requires ListOk(v, |calls|) && Allowed(v, call) && TellsTheCalls(v, calls, o)
    ensures TellsTheCalls(Called(v, call, |calls|), calls + [call], o)
  {
    assert forall c :: c in calls + [call] <==> c in calls || c == call;
    if call.Set? {
      NotifiedOf(v.seen, v.observers, v.stopping, call.late, call.state, o);
    } else if call.FinishStop? {
      WithoutOf(v.observers, call.observer);
    }
  }

  /** An observer is listed from the call that made it to the one that removes it, whoever else is removed. */
  lemma {:induction false} ObserversAreExact(calls: seq<Call>, o: nat)
    requires IsHistory(calls)
    ensures NoDuplicates(After(calls).observers) && TellsTheCalls(After(calls), calls, o)
  {
    ListIsOk(calls);
    if calls != [] {
      var before, last := calls[..|calls| - 1], calls[|calls| - 1];
      HistoryPrefix(calls);
      ListIsOk(before);
      ObserversAreExact(before, o);
      TellsNext(After(before), before, last, o);
      assert before + [last] == calls;
    }
  }

  /** A change reaches an observer unless it was removed before, or is being stopped and the change is not late. */
  predicate IsSent(before: seq<Call>, call: Call, o: nat) {
    && call.Set? && call.state != StateAfter(before)
    && FinishStop(o) !in before && (BeginStop(o) !in before || o in call.late)
  }

  /** What is sent to observer `o` after the state it started in. */
  function Sent(calls: seq<Call>, o: nat): seq<int> {
    if |calls| <= o + 1 then []
    else
      var before, last := calls[..|calls| - 1], calls[|calls| - 1];
      Sent(before, o) + if IsSent(before, last, o) then [last.state] else []
  }

  lemma SentNext(v: Value, calls: seq<Call>, o: nat)
    requires o + 1 < |calls| && ListOk(v, |calls| - 1) && TellsTheCalls(v, calls[..|calls| - 1], o)
    requires v.state == StateAfter(calls[..|calls| - 1]) && o in v.seen
    ensures var last := calls[|calls| - 1];
            SeenBy(Called(v, last, |calls| - 1).seen, o) ==
            SeenBy(v.seen, o) + if IsSent(calls[..|calls| - 1], last, o) then [last.state] else []
  {
    var last := calls[|calls| - 1];
    if last.Set? {
      NotifiedOf(v.seen, v.observers, v.stopping, last.late, last.state, o);
    }
  }

  /** Every observer has been sent the state it started in and then what reaches it, in order. */
  lemma {:induction false} ObserverSeesExactly(calls: seq<Call>, o: nat)
    requires IsHistory(calls) && o < |calls| && calls[o].Observe?
    ensures SeenBy(After(calls).seen, o) == [States(calls)[o]] + Sent(calls, o)
  {
    var before := calls[..|calls| - 1];
    HistoryPrefix(calls);
    StateIsLastSet(before);
    if o + 1 < |calls| {
      ObserverSeesExactly(before, o);
      ListIsOk(before);
      ObserversAreExact(before, o);
      SentNext(After(before), calls, o);
    }
  }

  /** The changes of state from call `from` on, in order. */
  function Changes(calls: seq<Call>, from: nat): seq<int> {
    if |calls| <= from then []
    else
      var before := calls[..|calls| - 1];
      Changes(before, from) + if StateAfter(calls) != StateAfter(before) then [StateAfter(calls)] else []
  }

  lemma {:induction false} AllSent(calls: seq<Call>, o: nat)
    requires BeginStop(o) !in calls && FinishStop(o) !in calls
    ensures Sent(calls, o) == Changes(calls, o + 1)
  {
    if calls != [] {
      AllSent(calls[..|calls| - 1], o);
    }
  }

  /** An observer that nobody stops has been sent the state it started in, and every change since, in order. */
  lemma ObserverSeesEveryChange(calls: seq<Call>, o: nat)
    requires IsHistory(calls) && o < |calls| && calls[o].Observe? && BeginStop(o) !in calls
    ensures SeenBy(After(calls).seen, o) == [States(calls)[o]] + Changes(calls, o + 1)
  {
    ObserversAreExact(calls, o);
    ObserverSeesExactly(calls, o);
    AllSent(calls, o);
  }

  lemma {:induction false} NothingSent(calls: seq<Call>, n: nat, o: nat)
    requires o < n <= |calls| && FinishStop(o) in calls[..n]
    ensures Sent(calls, o) == Sent(calls[..n], o) && States(calls)[o] == States(calls[..n])[o]
  {
    if n == |calls| {
      assert calls[..n] == calls;
    } else {
      var before := calls[..|calls| - 1];
      assert before[..n] == calls[..n];
      NothingSent(before, n, o);
    }
  }

  lemma {:induction false} HistoryUpTo(calls: seq<Call>, n: nat)
    requires IsHistory(calls) && n <= |calls|
    ensures IsHistory(calls[..n])
  {
    assert forall m | 0 <= m < n :: calls[..n][..m] == calls[..m] && calls[..n][m] == calls[m];
  }

  /** Once removed, an observer is not listed and never sent anything again. */
  lemma StoppedSeesNothing(calls: seq<Call>, j: nat, n: nat, o: nat)
    requires IsHistory(calls) && j < n <= |calls| && calls[j] == FinishStop(o)
    ensures o !in After(calls[..n]).observers && o !in After(calls).observers
    ensures SeenBy(After(calls).seen, o) == SeenBy(After(calls[..n]).seen, o)
  {
    HistoryUpTo(calls, n);
    assert calls[..n][j] == FinishStop(o);
    ObserversAreExact(calls[..n], o);
    ObserversAreExact(calls, o);
    ObserverSeesExactly(calls[..n], o);
    ObserverSeesExactly(calls, o);
    NothingSent(calls, n, o);
  }

  // ---------- the signal itself ----------

  lemma OneMore(calls: seq<Call>, call: Call)
    requires IsHistory(calls) && Allowed(After(calls), call)
    ensures IsHistory(calls + [call]) && After(calls + [call]) == Called(After(calls), call, |calls|)
  {
    var all := calls + [call];
    assert all[..|calls|] == calls;
    assert forall n | 0 <= n < |calls| :: all[..n] == calls[..n];
  }

  class Signal {
    const allowedStates: set<int>
    var state: int
    var waiters: seq<Waiter>
    var closed: seq<(Waiter, nat)>
    var observers: seq<nat>
    var stopping: set<nat>
    var seen: map<nat, seq<int>>
    var calls: nat
    ghost var history: seq<Call>

    ghost function Current(): Value
      reads this
    {
      Value(state, waiters, closed, observers, stopping, seen)
    }

    /** The signal is what its history of calls makes of it. */
    ghost predicate Valid()
      reads this
    {
      calls == |history| && IsHistory(history) && Current() == After(history)
    }

    constructor (states: set<int>)
      ensures Valid() && history == [] && allowedStates == states
    {
      allowedStates := states;
      state, waiters, closed, observers, stopping, seen := 0, [], [], [], {}, map[];
      calls, history := 0, [];
    }

    /** A state that was not declared panics, and changes nothing. */
    method SetState(state': int, late: set<nat>) returns (panicked: bool)
      requires Valid()
      modifies this
      ensures Valid() && panicked == (state' !in allowedStates) && (!panicked ==> state == state')
      ensures history == if panicked then old(history) else old(history) + [Set(state', late)]
    {
      if state' !in allowedStates {
        return true;
      }
      OneMore(history, Set(state', late));
      if state != state' {
        state := state';
        NotifyWaiters();
        NotifyObservers(late);
      }
      calls, history := calls + 1, history + [Set(state', late)];
      panicked := false;
    }

    method NotifyWaiters()
      modifies this`waiters, this`closed
      ensures waiters == Kept(old(waiters), state) && closed == old(closed) + Closings(old(waiters), state, calls)
    {
      var newWaiters: seq<Waiter> := [];
      var i := 0;
      while i < |waiters|
        invariant 0 <= i <= |waiters| && waiters == old(waiters)
        invariant newWaiters == Kept(waiters[..i], state)
        invariant closed == old(closed) + Closings(waiters[..i], state, calls)
      {
        assert waiters[..i + 1][..i] == waiters[..i];
        var w := waiters[i];
        if w.state == state || (w.minState && state >= w.state) {
          closed := closed + [(w, calls)];
        } else {
          newWaiters := newWaiters + [w];
        }
        i := i + 1;
      }
      assert waiters[..i] == waiters;
      waiters := newWaiters;
    }

    method NotifyObservers(late: set<nat>)
      modifies this`seen
      ensures seen == Notified(old(seen), observers, stopping, late, state)
    {
      var i := 0;
      while i < |observers|
        invariant 0 <= i <= |observers|
        invariant seen == Notified(old(seen), observers[..i], stopping, late, state)
      {
        assert observers[..i + 1][..i] == observers[..i];
        var o := observers[i];
        if o !in stopping || o in late {
          seen := seen[o := SeenBy(seen, o) + [state]];
        }
        i := i + 1;
      }
      assert observers[..i] == observers;
    }

    /** The channel is closed at once if the state is there already. */
    method WaitForWaiter(state': int, minState: bool) returns (done: nat)
      requires Valid()
      modifies this
      ensures Valid() && done == old(calls) && history == old(history) + [Wait(state', minState)]
    {
      OneMore(history, Wait(state', minState));
      done := calls;
      var w := Waiter(done, state', minState);
      if state' == state || (minState && state >= state') {
        closed := closed + [(w, calls)];
      } else {
        waiters := waiters + [w];
      }
      calls, history := calls + 1, history + [Wait(state', minState)];
    }

    method ObserveStateChange() returns (observer: nat)
      requires Valid()
      modifies this
      ensures Valid() && observer == old(calls) && history == old(history) + [Observe]
    {
      OneMore(history, Observe);
      observer := calls;
      seen := seen[observer := [state]];
      observers := observers + [observer];
      calls, history := calls + 1, history + [Observe];
    }

    method CloseObserver(observer: nat)
      requires Valid() && observer in seen && observer !in stopping
      modifies this
      ensures Valid() && history == old(history) + [BeginStop(observer)]
    {
      OneMore(history, BeginStop(observer));
      stopping := stopping + {observer};
      calls, history := calls + 1, history + [BeginStop(observer)];
    }

    method RemoveObserver(observer: nat)
      requires Valid() && observer in stopping && observer in observers
      modifies this
      ensures Valid() && history == old(history) + [FinishStop(observer)]
      ensures forall o :: o in observers <==> o in old(observers) && o != observer
    {
      OneMore(history, FinishStop(observer));
      ListIsOk(history);
      WithoutOf(observers, observer);
      observers := Removed(observers, observer);
      calls, history := calls + 1, history + [FinishStop(observer)];
    }
  }

  /** The loop goes on over the shifted list after a removal, and finds nothing more. */
  method Removed(os: seq<nat>, o: nat) returns (rest: seq<nat>)
    requires NoDuplicates(os)
    ensures rest == Without(os, o)
  {
    var n := |os|;
    var slots: seq<Option<nat>> := seq(n, i requires 0 <= i < n => Some(os[i]));
    var len, idx := n, 0;
    WithoutOf(os, o);
    while idx < n
      invariant 0 <= idx <= n && |slots| == n && n - 1 <= len <= n
      invariant len == n ==> o !in os[..idx] && Filled(slots, os)
      invariant len < n ==> Filled(slots[..len], Without(os, o)) && slots[len].None?
    {
      if slots[idx] == Some(o) {
        StillAll(slots, os, o, idx, len);
        RemovalIsWithout(os, idx);
        ShiftedFills(slots, os, idx);
        slots := slots[..idx] + slots[idx + 1..len] + [None] + slots[len..];
        len := len - 1;
      }
      idx := idx + 1;
    }
    if len == n {
      assert os[..n] == os;
      NothingToRemove(os, o);
    }
    ghost var left := slots[..len];
    rest := seq(len, i requires 0 <= i < len && slots[i].Some? => slots[i].value);
    assert Filled(left, rest);
  }

  /** A slot that holds `o` says that it was not removed yet. */
  lemma StillAll(slots: seq<Option<nat>>, os: seq<nat>, o: nat, idx: nat, len: nat)
    requires |slots| == |os| && idx < |slots| && |os| - 1 <= len <= |os| && slots[idx] == Some(o) &&
             o !in Without(os, o)
    requires len == |os| ==> Filled(slots, os)
    requires len < |os| ==> Filled(slots[..len], Without(os, o)) && slots[len].None?
    ensures len == |os| && os[idx] == o
  {
  }

  ghost predicate Filled(slots: seq<Option<nat>>, os: seq<nat>) {
    |slots| == |os| && forall i | 0 <= i < |os| :: slots[i] == Some(os[i])
  }

  lemma ShiftedFills(slots: seq<Option<nat>>, os: seq<nat>, idx: nat)
    requires Filled(slots, os) && idx < |slots|
    ensures var shifted := slots[..idx] + slots[idx + 1..|slots|] + [None] + slots[|slots|..];
            |shifted| == |slots| && shifted[|slots| - 1].None? &&
            Filled(shifted[..|slots| - 1], os[..idx] + os[idx + 1..])
  {
  }

  lemma {:induction false} NothingToRemove(os: seq<nat>, o: nat)
    requires o !in os
    ensures Without(os, o) == os
  {
    if os != [] {
      NothingToRemove(os[..|os| - 1], o);
    }
  }

  lemma {:induction false} RemovalIsWithout(os: seq<nat>, i: nat)
    requires NoDuplicates(os) && i < |os|
    ensures Without(os, os[i]) == os[..i] + os[i + 1..]
  {
    var last := |os| - 1;
    if i == last {
      NothingToRemove(os[..last], os[i]);
    } else {
      RemovalIsWithout(os[..last], i);
      assert os[..last][..i] + os[..last][i + 1..] + [os[last]] == os[..i] + os[i + 1..];
    }
  }
}
