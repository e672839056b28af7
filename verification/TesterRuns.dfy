/**
  Whole sessions of the test broker (tester/consumergroup.go): what the events alone say about its state,
  and that catchupAndWait cannot get stuck.
 */
module TesterRuns {
  import opened TesterQueue
  import opened TesterSession

  // ---------- queues and marks ----------

  /** What producers added to queue `t`. */
  function ProducedTo(events: seq<Event>, t: string): seq<(string, string)> {
    if events == [] then []
    else
      var e := events[|events| - 1];
      ProducedTo(events[..|events| - 1], t) + if e.Produce? && e.topic == t then [(e.key, e.value)] else []
  }

  function Filled(queue: seq<Message>, added: seq<(string, string)>): seq<Message> {
    queue + seq(|added|, i requires 0 <= i < |added| => Message(|queue| + i, added[i].0, added[i].1))
  }

  lemma FilledMore(queue: seq<Message>, added: seq<(string, string)>, kv: (string, string))
    ensures Filled(queue, added + [kv]) == Filled(queue, added) + [Message(|Filled(queue, added)|, kv.0, kv.1)]
  {
  }

  /** A queue holds what it held and what producers added since, in order, numbered on. */
  lemma {:induction false} QueuesTellTheEvents(run: seq<State>, events: seq<Event>, n: nat, t: string)
    requires IsRun(run, events) && n < |run| && t in run[0].queues
    ensures t in run[n].queues && run[n].queues[t] == Filled(run[0].queues[t], ProducedTo(events[..n], t))
  {
    if n == 0 {
      assert Filled(run[0].queues[t], []) == run[0].queues[t];
    } else {
      var e := events[n - 1];
      QueuesTellTheEvents(run, events, n - 1, t);
      assert events[..n][..n - 1] == events[..n - 1];
      if e.Produce? && e.topic == t {
        FilledMore(run[0].queues[t], ProducedTo(events[..n - 1], t), (e.key, e.value));
      }
    }
  }

  /** The mark is one past the highest offset marked. */
  ghost predicate IsMark(mark: int, events: seq<Event>, t: string) {
    && (forall o: nat | Mark(t, o) in events :: o < mark)
    && (mark == 0 || (mark > 0 && Mark(t, mark - 1) in events))
  }

  lemma UpTo(events: seq<Event>, n: nat)
    requires 0 < n <= |events|
    ensures events[..n] == events[..n - 1] + [events[n - 1]]
  {
  }

  lemma MarkNext(s: State, events: seq<Event>, e: Event, t: string)
    requires t in s.marks && IsMark(s.marks[t], events, t) && Enabled(s, e)
    ensures t in Apply(s, e).marks && IsMark(Apply(s, e).marks[t], events + [e], t)
  {
    assert forall x :: x in events + [e] <==> x in events || x == e;
  }

  lemma {:induction false} MarksTellTheEvents(run: seq<State>, events: seq<Event>, n: nat, t: string)
    requires IsRun(run, events) && n < |run| && t in run[0].queues
    ensures t in run[n].marks && IsMark(run[n].marks[t], events[..n], t)
  {
    if n > 0 {
      MarksTellTheEvents(run, events, n - 1, t);
      MarkNext(run[n - 1], events[..n - 1], events[n - 1], t);
      UpTo(events, n);
    }
  }

  // ---------- who waits ----------

  /** Only what was sent is marked; and what was sent, or is about to be, waits until it is marked. */
  ghost predicate WaitsUnmarked(s: State, events: seq<Event>, t: string, o: nat) {
    && (Mark(t, o) in events ==> o < |Delivered(s.log, t)|)
    && (MsgKey(t, o) in s.waiting <==> o < |Delivered(s.log, t)| + Extra(s.pc, t) && Mark(t, o) !in events)
  }

  lemma WaitsAfterMark(s: State, events: seq<Event>, e: Event, t: string, o: nat)
    requires WaitsUnmarked(s, events, t, o) && e.Mark? && Enabled(s, e)
    ensures WaitsUnmarked(Apply(s, e), events + [e], t, o)
  {
    assert forall x :: x in events + [e] <==> x in events || x == e;
    if MsgKey(t, o) == MsgKey(e.topic, e.offset) {
      MsgKeyIsInjective(t, o, e.topic, e.offset);
    }
  }

  lemma WaitsAfterReserve(s: State, events: seq<Event>, t: string, o: nat)
    requires WaitsUnmarked(s, events, t, o) && Inv(s) && Enabled(s, Reserve)
    ensures WaitsUnmarked(Apply(s, Reserve), events + [Reserve], t, o)
  {
    assert forall x :: x in events + [Reserve] <==> x in events || x == Reserve;
    ReserveIsNew(s);
    if MsgKey(t, o) == MsgKey(s.pc.topic, s.pc.rest[0].offset) {
      MsgKeyIsInjective(t, o, s.pc.topic, s.pc.rest[0].offset);
    }
  }

  lemma WaitsAfterOther(s: State, events: seq<Event>, e: Event, t: string, o: nat)
    requires WaitsUnmarked(s, events, t, o) && !e.Mark? && !e.Reserve? && Enabled(s, e)
    ensures WaitsUnmarked(Apply(s, e), events + [e], t, o)
  {
    assert forall x :: x in events + [e] <==> x in events || x == e;
    if e.Send? {
      DeliveredMore(s.log, s.pc.topic, s.pc.rest[0], t);
    }
  }

  lemma WaitsNext(s: State, events: seq<Event>, e: Event, t: string, o: nat)
    requires WaitsUnmarked(s, events, t, o) && Inv(s) && Enabled(s, e)
    ensures WaitsUnmarked(Apply(s, e), events + [e], t, o)
  {
    if e.Mark? {
      WaitsAfterMark(s, events, e, t, o);
    } else if e.Reserve? {
      WaitsAfterReserve(s, events, t, o);
    } else {
      WaitsAfterOther(s, events, e, t, o);
    }
  }

  lemma WaitsInRun(run: seq<State>, events: seq<Event>, n: nat, t: string, o: nat)
    requires IsRun(run, events) && 0 < n < |run| && WaitsUnmarked(run[n - 1], events[..n - 1], t, o)
    ensures WaitsUnmarked(run[n], events[..n - 1] + [events[n - 1]], t, o)
  {
    InvRun(run, events, n - 1);
    WaitsNext(run[n - 1], events[..n - 1], events[n - 1], t, o);
  }

  /** A message waits from the moment it is pushed until it is first marked. */
  lemma {:induction false} WaitingTellsTheEvents(run: seq<State>, events: seq<Event>, n: nat, t: string, o: nat)
    requires IsRun(run, events) && n < |run|
    ensures WaitsUnmarked(run[n], events[..n], t, o)
  {
    if n > 0 {
      WaitingTellsTheEvents(run, events, n - 1, t, o);
      WaitsInRun(run, events, n, t, o);
      UpTo(events, n);
    }
  }

  // ---------- a call runs until it returns ----------

  function Count(events: seq<Event>, e: Event): nat {
    if events == [] then 0
    else Count(events[..|events| - 1], e) + if events[|events| - 1] == e then 1 else 0
  }

  lemma RunningNext(s: State, e: Event)
    requires Enabled(s, e)
    ensures e == Begin ==> s.pc.Idle? && !Apply(s, e).pc.Idle?
    ensures e == Return ==> !s.pc.Idle? && Apply(s, e).pc.Idle?
    ensures e != Begin && e != Return ==> (Apply(s, e).pc.Idle? <==> s.pc.Idle?)
  {
  }

  lemma {:induction false} RunsUntilItReturns(run: seq<State>, events: seq<Event>, n: nat)
    requires IsRun(run, events) && n < |run|
    ensures Count(events[..n], Begin) == Count(events[..n], Return) + if run[n].pc.Idle? then 0 else 1
  {
    if n > 0 {
      RunsUntilItReturns(run, events, n - 1);
      RunningNext(run[n - 1], events[n - 1]);
      assert events[..n][..n - 1] == events[..n - 1];
    }
  }

  /** Whatever waits has the name of a message. */
  ghost predicate AllNamed(waiting: set<string>) {
    forall k | k in waiting :: exists t, o: nat :: k == MsgKey(t, o)
  }

  lemma NamedStep(s: State, e: Event)
    requires AllNamed(s.waiting) && Enabled(s, e)
    ensures AllNamed(Apply(s, e).waiting)
  {
    if e.Reserve? {
      var o: nat := s.pc.rest[0].offset;
      assert MsgKey(s.pc.topic, o) == MsgKey(s.pc.topic, o);
    }
  }

  lemma {:induction false} NamedRun(run: seq<State>, events: seq<Event>, n: nat)
    requires IsRun(run, events) && n < |run|
    ensures AllNamed(run[n].waiting)
  {
    if n > 0 {
      NamedRun(run, events, n - 1);
      NamedStep(run[n - 1], events[n - 1]);
    }
  }

  /** How far the call is: queues to do, then the stage within a queue, then what is left of that. */
  function Stage(pc: Pc): nat {
    match pc
    case GotMark(_, _, _) => 3
    case Batch(_, _, _) => 2
    case Reserved(_, _, _) => 2
    case Added(_, _, _) => 2
    case Loop(_) => 1
    case _ => 0
  }

  function Left(s: State): nat {
    match s.pc
    case Batch(_, _, rest) => 3 * |rest| + 2
    case Reserved(_, _, rest) => 3 * |rest| + 1
    case Added(_, _, rest) => 3 * |rest|
    case Waiting => |s.waiting|
    case _ => 0
  }

  ghost predicate IsCloser(s: State, s': State) {
    var todo, todo' := Todo(s.queues.Keys, s.pc), Todo(s'.queues.Keys, s'.pc);
    |todo'| < |todo| ||
    (todo' == todo && (Stage(s'.pc) < Stage(s.pc) || (Stage(s'.pc) == Stage(s.pc) && Left(s') < Left(s))))
  }

  lemma NextInLoop(s: State) returns (e: Event)
    requires Inv(s) && s.pc.Loop?
    ensures (e == StartWait || e.ReadMark?) && Enabled(s, e) && !Apply(s, e).pc.Idle? && IsCloser(s, Apply(s, e))
  {
    if s.pc.todo == {} {
      e := StartWait;
    } else {
      var t :| t in s.pc.todo;
      assert Settled(s.marks, s.log, t);
      e := ReadMark(t);
    }
  }

  lemma NextInBatch(s: State) returns (e: Event)
    requires Inv(s) && s.pc.Batch?
    ensures e in {NextQueue, Reserve} && Enabled(s, e) && !Apply(s, e).pc.Idle? && IsCloser(s, Apply(s, e))
  {
    if s.pc.rest == [] {
      e := NextQueue;
    } else {
      assert s.pc.rest[0] == s.queues[s.pc.topic][|Delivered(s.log, s.pc.topic)|];
      e := Reserve;
      ReserveIsNew(s);
    }
  }

  lemma NextInQueue(s: State) returns (e: Event)
    requires Inv(s) && (s.pc.GotMark? || s.pc.Reserved? || s.pc.Added?)
    ensures e in {ReadBatch, AddOne, Send} && Enabled(s, e) && !Apply(s, e).pc.Idle? && IsCloser(s, Apply(s, e))
  {
    e := if s.pc.GotMark? then ReadBatch else if s.pc.Reserved? then AddOne else Send;
  }

  /** What a consumer can do for it while it waits. */
  lemma NextMark(s: State) returns (e: Event)
    requires Inv(s) && AllNamed(s.waiting) && s.pc.Waiting? && s.wg != 0
    ensures e.Mark? && Enabled(s, e) && Apply(s, e).pc.Waiting? && IsCloser(s, Apply(s, e))
  {
    var k :| k in s.waiting;
    var t, o: nat :| k == MsgKey(t, o);
    e := Mark(t, o);
  }

  /** Until it can return, the call itself or a consumer can do something that brings it closer. */
  lemma NextStep(run: seq<State>, events: seq<Event>) returns (e: Event)
    requires IsRun(run, events) && !run[|events|].pc.Idle? && !Enabled(run[|events|], Return)
    ensures var s := run[|events|];
            !e.Produce? && !e.Begin? && Enabled(s, e) && !Apply(s, e).pc.Idle? && IsCloser(s, Apply(s, e))
  {
    var s := run[|events|];
    InvRun(run, events, |events|);
    NamedRun(run, events, |events|);
    if s.pc.Waiting? {
      e := NextMark(s);
    } else if s.pc.Loop? {
      e := NextInLoop(s);
    } else if s.pc.Batch? {
      e := NextInBatch(s);
    } else {
      e := NextInQueue(s);
    }
  }

  lemma OneMore(run: seq<State>, events: seq<Event>, e: Event)
    requires IsRun(run, events) && Enabled(run[|events|], e)
    ensures IsRun(run + [Apply(run[|events|], e)], events + [e])
  {
  }

  /** The steps of the call itself, and marks. */
  ghost predicate OnlyCatchup(events: seq<Event>) {
    forall e | e in events :: !e.Produce? && !e.Begin?
  }

  /** Wherever a call of catchupAndWait is, it returns if its consumers mark what they were sent. */
  lemma {:induction false} CatchupCanReturn(run: seq<State>, events: seq<Event>)
    returns (all: seq<State>, more: seq<Event>)
    requires IsRun(run, events) && !run[|events|].pc.Idle?
    ensures run <= all && IsRun(all, events + more) && OnlyCatchup(more)
    ensures more != [] && more[|more| - 1] == Return && all[|events + more|].pc.Idle?
    decreases |Todo(run[|events|].queues.Keys, run[|events|].pc)|, Stage(run[|events|].pc), Left(run[|events|])
  {
    var s := run[|events|];
    if Enabled(s, Return) {
      all, more := run + [Apply(s, Return)], [Return];
      OneMore(run, events, Return);
    } else {
      var e := NextStep(run, events);
      OneMore(run, events, e);
      var rest;
      all, rest := CatchupCanReturn(run + [Apply(s, e)], events + [e]);
      more := [e] + rest;
      assert events + more == events + [e] + rest;
    }
  }
}
