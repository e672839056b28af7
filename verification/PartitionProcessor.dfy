/**
  The message loop of one partition and its shutdown (partition_processor.go): any number of messages
  in flight, counted by one wait group.
 */
module PartitionProcessor {
  import opened Common
  import C = CallbackContext

  /** Reading messages; in the callback of context `current`; waiting for the wait group; returned. */
  datatype Phase = Selecting | InCallback(current: nat) | Draining | Stopped | Panicked

  /** What run does with the next message: processMessage's branches before the callback. */
  datatype Kind = NilIgnored | Unprocessable(err: C.Error) | Processable

  datatype State = State(sessions: seq<C.Session>, wg: int, errs: seq<C.Error>, ignored: nat, phase: Phase)

  datatype Event =
    | Message(kind: Kind)
    | Callback(e: C.Event)                            // the running callback, its return or its panic
    | Async(index: nat, e: C.Event)                   // a promise or a deferred function, of any message
    | Quit                                            // input closed, context done or async error
    | Waited

  const Initial := State([], 0, [], 0, Selecting)

  predicate IsResolution(e: C.Event) { e.Resolve? || e.ResolveAgain? }

  predicate Enabled(p: State, e: Event) {
    match e
    case Message(_) => p.phase == Selecting
    case Callback(e) =>
      p.phase.InCallback? && p.phase.current < |p.sessions| && !IsResolution(e) &&
          C.Enabled(p.sessions[p.phase.current], e)
    case Async(i, e) => i < |p.sessions| && IsResolution(e) && C.Enabled(p.sessions[i], e)
    case Quit => p.phase == Selecting
    case Waited => p.phase == Draining && p.wg == 0
  }

  /** The errors a sequence of outcomes hands to the async failer. */
  function ErrorsOf(outcomes: seq<C.Outcome>): seq<C.Error> {
    if outcomes == [] then []
    else ErrorsOf(outcomes[..|outcomes| - 1]) + match outcomes[|outcomes| - 1]
                                                case Commit => []
                                                case Fail(errs) => errs
  }

  /** A step of context `i`: each settling takes one off the wait group, a failing one reports its errors. */
  function Step(p: State, i: nat, e: C.Event): State
    requires i < |p.sessions| && C.Enabled(p.sessions[i], e)
  {
    var before := p.sessions[i];
    var after := C.Apply(before, e);
    p.(sessions := p.sessions[i := after],
    wg := p.wg - (|after.ctx.outcomes| - |before.ctx.outcomes|),
    errs := p.errs + ErrorsOf(after.ctx.outcomes[|before.ctx.outcomes|..]))
  }

  function Apply(p: State, e: Event): State
    requires Enabled(p, e)
  {
    match e
    case Message(NilIgnored) => p.(ignored := p.ignored + 1)
    case Message(Unprocessable(err)) => p.(errs := p.errs + [err], phase := Draining)
    case Message(Processable) =>
      p.(sessions := p.sessions + [C.NewSession], wg := p.wg + 1, phase := InCallback(|p.sessions|))
    case Callback(e) =>
      Step(p, p.phase.current, e).(phase := if e.Return? then Selecting else if e.Panic? then Panicked else p.phase)
    case Async(i, e) => Step(p, i, e)
    case Quit => p.(phase := Draining)
    case Waited => p.(phase := Stopped)
  }

  ghost predicate IsRun(run: seq<State>, events: seq<Event>) {
    && |run| == |events| + 1 && run[0] == Initial
    && forall i {:trigger events[i]} | 0 <= i < |events| ::
         Enabled(run[i], events[i]) && run[i + 1] == Apply(run[i], events[i])
  }

  // ---------- the wait group counts what is unsettled ----------

  function Unsettled(sessions: seq<C.Session>): nat {
    if sessions == [] then 0
    else Unsettled(sessions[..|sessions| - 1]) + if sessions[|sessions| - 1].ctx.outcomes == [] then 1 else 0
  }

  lemma {:induction false} UnsettledUpdate(sessions: seq<C.Session>, i: nat, s: C.Session)
    requires i < |sessions|
    ensures Unsettled(sessions[i := s]) == Unsettled(sessions)
            - (if sessions[i].ctx.outcomes == [] then 1 else 0) + (if s.ctx.outcomes == [] then 1 else 0)
  {
    var n := |sessions| - 1;
    if i < n {
      UnsettledUpdate(sessions[..n], i, s);
      assert sessions[i := s][..n] == sessions[..n][i := s];
    } else {
      assert sessions[i := s][..n] == sessions[..n];
    }
  }

  lemma {:induction false} NoneUnsettled(sessions: seq<C.Session>, i: nat)
    requires Unsettled(sessions) == 0 && i < |sessions|
    ensures sessions[i].ctx.outcomes != []
  {
    if i < |sessions| - 1 {
      NoneUnsettled(sessions[..|sessions| - 1], i);
    }
  }

  /** A context that nobody misused. */
  ghost predicate SessionOk(s: C.Session) { C.Inv(s) && !s.late }

  ghost predicate Reported(p: State, s: C.Session) {
    forall err | s.ctx.outcomes != [] && err in s.reported :: err in p.errs
  }

  ghost predicate Inv(p: State) {
    && p.wg == Unsettled(p.sessions)
    && (forall s | s in p.sessions :: SessionOk(s) && Reported(p, s))
    && PhaseOk(p)
  }

  /** One step of a context that is not misused: it settles at most once, and not again. */
  lemma SessionStep(s: C.Session, e: C.Event)
    requires SessionOk(s) && C.Enabled(s, e) && (s.ctx.done ==> IsResolution(e))
    ensures var s' := C.Apply(s, e);
            && SessionOk(s')
            && (s.ctx.done ==> s'.ctx.done)
            && (s'.ctx.outcomes == s.ctx.outcomes || (s.ctx.outcomes == [] && |s'.ctx.outcomes| == 1))
            && (s'.ctx.outcomes != s.ctx.outcomes ==> s'.ctx.outcomes == C.Settlement(s'))
            && (s.ctx.outcomes != [] ==> s'.reported == s.reported)
  {
    C.InvStep(s, e);
  }

  lemma ErrorsOfOne(o: C.Outcome)
    ensures ErrorsOf([o]) == match o case Commit => [] case Fail(errs) => errs
  {
    assert [o][..0] == [];
  }

  lemma StepKeepsCount(p: State, i: nat, e: C.Event)
    requires p.wg == Unsettled(p.sessions) && i < |p.sessions| && C.Enabled(p.sessions[i], e)
    requires SessionOk(p.sessions[i]) && (p.sessions[i].ctx.done ==> IsResolution(e))
    ensures Step(p, i, e).wg == Unsettled(Step(p, i, e).sessions)
  {
    SessionStep(p.sessions[i], e);
    UnsettledUpdate(p.sessions, i, C.Apply(p.sessions[i], e));
  }

  lemma StepKeepsSessions(p: State, i: nat, e: C.Event)
    requires i < |p.sessions| && C.Enabled(p.sessions[i], e)
    requires forall s | s in p.sessions :: SessionOk(s) && Reported(p, s)
    requires p.sessions[i].ctx.done ==> IsResolution(e)
    ensures forall s | s in Step(p, i, e).sessions :: SessionOk(s) && Reported(Step(p, i, e), s)
  {
    var before, after, p' := p.sessions[i], C.Apply(p.sessions[i], e), Step(p, i, e);
    SessionStep(before, e);
    assert before in p.sessions;
    if after.ctx.outcomes != before.ctx.outcomes {
      assert after.ctx.outcomes[0..] == after.ctx.outcomes == [after.ctx.outcomes[0]];
      ErrorsOfOne(after.ctx.outcomes[0]);
    }
    assert Reported(p', after);
    forall s | s in p'.sessions ensures SessionOk(s) && Reported(p', s) {
      if s != after {
        assert s in p.sessions;
      }
    }
  }

  /** Only the running callback is unfinished. */
  ghost predicate PhaseOk(p: State) {
    && (p.phase.InCallback? ==> p.phase.current < |p.sessions| && !p.sessions[p.phase.current].ctx.done)
    && forall i | 0 <= i < |p.sessions| && !p.sessions[i].ctx.done ::
         (p.phase.InCallback? && i == p.phase.current) || p.phase.Panicked?
  }

  lemma InvContextStep(p: State, i: nat, e: C.Event)
    requires Inv(p) && i < |p.sessions| && C.Enabled(p.sessions[i], e) && (p.sessions[i].ctx.done ==> IsResolution(e))
    ensures var p' := Step(p, i, e);
            && p'.wg == Unsettled(p'.sessions)
            && (forall s | s in p'.sessions :: SessionOk(s) && Reported(p', s))
            && (IsResolution(e) || e.TakeTicket? ==> PhaseOk(p'))
  {
    assert p.sessions[i] in p.sessions;
    StepKeepsCount(p, i, e);
    StepKeepsSessions(p, i, e);
    SessionStep(p.sessions[i], e);
  }

  lemma InvMessage(p: State)
    requires Inv(p) && Enabled(p, Message(Processable))
    ensures Inv(Apply(p, Message(Processable)))
  {
    assert (p.sessions + [C.NewSession])[..|p.sessions|] == p.sessions;
  }

  lemma InvStep(p: State, e: Event)
    requires Inv(p) && Enabled(p, e)
    ensures Inv(Apply(p, e))
  {
    match e
    case Message(Processable) => InvMessage(p);
    case Callback(ce) => InvContextStep(p, p.phase.current, ce);
    case Async(i, ce) => InvContextStep(p, i, ce);
    case _ =>
  }

  lemma {:induction false} InvRun(run: seq<State>, events: seq<Event>, n: nat)
    requires IsRun(run, events) && n < |run|
    ensures Inv(run[n])
  {
    if n > 0 {
      InvRun(run, events, n - 1);
      InvStep(run[n - 1], events[n - 1]);
    }
  }

  /** At every moment the wait group equals the number of started contexts that have not settled. */
  lemma WaitGroupCountsUnsettled(run: seq<State>, events: seq<Event>, n: nat)
    requires IsRun(run, events) && n < |run|
    ensures run[n].wg == Unsettled(run[n].sessions) >= 0
  {
    InvRun(run, events, n);
  }

  /**
    When the shutdown wait ends by the wait group, every message whose callback was started has
    returned and has been settled exactly once: committed if nothing went wrong with it, and otherwise
    with each of its errors among those run returns.
   */
  lemma ShutdownSettlesEverything(run: seq<State>, events: seq<Event>, n: nat, i: nat)
    requires IsRun(run, events) && n < |run| && run[n].phase == Stopped && i < |run[n].sessions|
    ensures var s := run[n].sessions[i];
            && s.ctx.done && s.open == {}
            && s.ctx.outcomes == (if s.reported == [] then [C.Commit] else [C.Fail(s.reported)])
            && forall err | err in s.reported :: err in run[n].errs
  {
    InvRun(run, events, n);
    StoppedIsSettled(run, events, n);
    NoneUnsettled(run[n].sessions, i);
    assert run[n].sessions[i] in run[n].sessions;
  }

  lemma {:induction false} StoppedIsSettled(run: seq<State>, events: seq<Event>, n: nat)
    requires IsRun(run, events) && n < |run| && run[n].phase == Stopped
    ensures run[n].wg == 0
  {
    if n > 0 {
      var p, e := run[n - 1], events[n - 1];
      if p.phase == Stopped {
        StoppedIsSettled(run, events, n - 1);
        InvRun(run, events, n - 1);
        InvRun(run, events, n);
        if e.Async? {
          NoneUnsettled(p.sessions, e.index);
          assert p.sessions[e.index] in p.sessions;
          SessionStep(p.sessions[e.index], e.e);
        }
      }
    }
  }

  // ---------- what the events say ----------

  ghost predicate IsProcessable(e: Event) { e.Message? && e.kind == Processable }

  ghost predicate IsIgnored(e: Event) { e.Message? && e.kind == NilIgnored }

  ghost predicate IsReturn(e: Event) { e.Callback? && e.e.Return? }

  /** What makes run leave its loop, or lose control altogether. */
  ghost predicate IsEnd(e: Event) {
    e.Quit? || (e.Message? && e.kind.Unprocessable?) || (e.Callback? && e.e.Panic?)
  }

  ghost function Count(events: seq<Event>, what: Event -> bool): nat {
    if events == [] then 0
    else Count(events[..|events| - 1], what) + if what(events[|events| - 1]) then 1 else 0
  }

  ghost predicate Ended(events: seq<Event>) { exists e :: e in events && IsEnd(e) }

  /**
    The state against what happened: a context for each message that could be processed, a count of the
    ignored ones, and reading on exactly while nothing ended the loop and no callback is running.
   */
  ghost predicate TellsTheEvents(p: State, events: seq<Event>) {
    && |p.sessions| == Count(events, e => IsProcessable(e)) && p.ignored == Count(events, e => IsIgnored(e))
    && (p.phase.Selecting? <==> !Ended(events) && Count(events, e => IsReturn(e)) == |p.sessions|)
    && (p.phase.InCallback? <==> !Ended(events) && Count(events, e => IsReturn(e)) + 1 == |p.sessions|)
    && (p.phase.InCallback? ==> p.phase.current == |p.sessions| - 1)
    && (p.phase.Panicked? <==> exists e :: e in events && e.Callback? && e.e.Panic?)
    && (p.phase.Stopped? <==> Waited in events)
  }

  lemma EndedMore(events: seq<Event>, e: Event)
    ensures Ended(events + [e]) <==> Ended(events) || IsEnd(e)
  {
    assert forall x :: x in events + [e] <==> x in events || x == e;
  }

  lemma CountMore(events: seq<Event>, e: Event, what: Event -> bool)
    ensures Count(events + [e], what) == Count(events, what) + if what(e) then 1 else 0
  {
    assert (events + [e])[..|events|] == events;
  }

  lemma TellsNext(p: State, events: seq<Event>, e: Event)
    requires TellsTheEvents(p, events) && Enabled(p, e)
    ensures TellsTheEvents(Apply(p, e), events + [e])
  {
    EndedMore(events, e);
    CountMore(events, e, x => IsProcessable(x));
    CountMore(events, e, x => IsIgnored(x));
    CountMore(events, e, x => IsReturn(x));
    assert forall x :: x in events + [e] <==> x in events || x == e;
  }

  lemma {:induction false} StateTellsTheEvents(run: seq<State>, events: seq<Event>, n: nat)
    requires IsRun(run, events) && n < |run|
    ensures TellsTheEvents(run[n], events[..n])
  {
    if n > 0 {
      StateTellsTheEvents(run, events, n - 1);
      TellsNext(run[n - 1], events[..n - 1], events[n - 1]);
      assert events[..n] == events[..n - 1] + [events[n - 1]];
    }
  }

  lemma {:induction false} ErrorsStay(run: seq<State>, events: seq<Event>, i: nat, n: nat, err: C.Error)
    requires IsRun(run, events) && i <= n < |run| && err in run[i].errs
    ensures err in run[n].errs
  {
    if i < n {
      ErrorsStay(run, events, i, n - 1, err);
      assert run[n] == Apply(run[n - 1], events[n - 1]);
    }
  }

  /** A message that cannot be decoded is reported, and is the last one that is read. */
  lemma UnprocessableEndsReading(run: seq<State>, events: seq<Event>, i: nat, err: C.Error, n: nat)
    requires IsRun(run, events) && i < |events| && events[i] == Message(Unprocessable(err)) && i < n < |run|
    ensures err in run[n].errs
    ensures n < |events| ==> !events[n].Message?
  {
    assert run[i + 1] == Apply(run[i], events[i]);
    ErrorsStay(run, events, i + 1, n, err);
    StateTellsTheEvents(run, events, n);
    assert events[i] in events[..n];
  }

  /** The events of the `i`-th context: its callback's, and the promises and deferred functions of its message. */
  ghost function EventsOf(events: seq<Event>, i: nat): seq<C.Event> {
    if events == [] then []
    else
      var before, last := events[..|events| - 1], events[|events| - 1];
      EventsOf(before, i) +
      if last.Callback? && i + 1 == Count(before, e => IsProcessable(e)) then [last.e]
      else if last.Async? && last.index == i then [last.e]
      else []
  }

  ghost function SessionAfter(events: seq<C.Event>): Option<C.Session> {
    if events == [] then Some(C.NewSession)
    else
      var before := SessionAfter(events[..|events| - 1]);
      if before.Some? && C.Enabled(before.value, events[|events| - 1])
      then Some(C.Apply(before.value, events[|events| - 1])) else None
  }

  lemma SessionMore(events: seq<C.Event>, e: C.Event, s: C.Session)
    requires SessionAfter(events) == Some(s) && C.Enabled(s, e)
    ensures SessionAfter(events + [e]) == Some(C.Apply(s, e))
  {
    assert (events + [e])[..|events|] == events;
  }

  /** What a step of the loop is to the `i`-th context. */
  ghost function StepOf(p: State, e: Event, i: nat): Option<C.Event> {
    if e.Callback? && i + 1 == |p.sessions| then Some(e.e)
    else if e.Async? && e.index == i then Some(e.e)
    else None
  }

  lemma EventsOfMore(p: State, events: seq<Event>, e: Event, i: nat)
    requires |p.sessions| == Count(events, e => IsProcessable(e))
    ensures EventsOf(events + [e], i) ==
            if StepOf(p, e, i).Some? then EventsOf(events, i) + [StepOf(p, e, i).value] else EventsOf(events, i)
  {
    assert (events + [e])[..|events|] == events;
  }

  lemma ContextStep(p: State, e: Event, i: nat)
    requires Enabled(p, e) && i < |p.sessions| && (p.phase.InCallback? ==> p.phase.current == |p.sessions| - 1)
    ensures i < |Apply(p, e).sessions|
    ensures var mine := StepOf(p, e, i);
            && (mine.Some? ==> C.Enabled(p.sessions[i], mine.value))
            && Apply(p, e).sessions[i] == if mine.Some? then C.Apply(p.sessions[i], mine.value) else p.sessions[i]
  {
  }

  /** Each context goes through its own events and no others, whatever happens to the rest. */
  lemma {:induction false} ContextsAreIndependent(run: seq<State>, events: seq<Event>, n: nat, i: nat)
    requires IsRun(run, events) && n < |run| && i < |run[n].sessions|
    ensures SessionAfter(EventsOf(events[..n], i)) == Some(run[n].sessions[i])
  {
    if n > 0 {
      var p, e, before := run[n - 1], events[n - 1], events[..n - 1];
      assert run[n] == Apply(p, e) && events[..n] == before + [e];
      StateTellsTheEvents(run, events, n - 1);
      EventsOfMore(p, before, e, i);
      if i < |p.sessions| {
        ContextsAreIndependent(run, events, n - 1, i);
        ContextStep(p, e, i);
        if StepOf(p, e, i).Some? {
          SessionMore(EventsOf(before, i), StepOf(p, e, i).value, p.sessions[i]);
        }
      } else {
        NothingYet(run, events, n - 1, i);
      }
    }
  }

  lemma {:induction false} NothingYet(run: seq<State>, events: seq<Event>, n: nat, i: nat)
    requires IsRun(run, events) && n < |run| && |run[n].sessions| <= i
    ensures EventsOf(events[..n], i) == []
  {
    if n > 0 {
      assert run[n] == Apply(run[n - 1], events[n - 1]);
      assert events[..n][..n - 1] == events[..n - 1];
      StateTellsTheEvents(run, events, n - 1);
      NothingYet(run, events, n - 1, i);
    }
  }

  ghost predicate IsReported(sessions: seq<C.Session>, err: C.Error) {
    exists i :: 0 <= i < |sessions| && err in sessions[i].reported
  }

  lemma ReportedStays(p: State, e: Event, err: C.Error)
    requires Inv(p) && Enabled(p, e) && IsReported(p.sessions, err)
    ensures IsReported(Apply(p, e).sessions, err)
  {
    var i :| 0 <= i < |p.sessions| && err in p.sessions[i].reported;
    var after := Apply(p, e).sessions[i];
    assert err in after.reported;
  }

  lemma NewErrorIsReported(p: State, e: Event, err: C.Error)
    requires Inv(p) && Enabled(p, e) && err in Apply(p, e).errs && err !in p.errs
    ensures e == Message(Unprocessable(err)) || IsReported(Apply(p, e).sessions, err)
  {
    if e.Callback? || e.Async? {
      var i, ce := if e.Callback? then p.phase.current else e.index, e.e;
      assert p.sessions[i] in p.sessions;
      SessionStep(p.sessions[i], ce);
      var before, after := p.sessions[i], C.Apply(p.sessions[i], ce);
      if after.ctx.outcomes != before.ctx.outcomes {
        assert after.ctx.outcomes[0..] == [after.ctx.outcomes[0]];
        ErrorsOfOne(after.ctx.outcomes[0]);
      }
      assert Apply(p, e).sessions[i] == after;
    }
  }

  /** Nothing is returned as an error but what a message could not be decoded with, or came back with. */
  lemma {:induction false} ErrorsHaveASource(run: seq<State>, events: seq<Event>, n: nat, err: C.Error)
    requires IsRun(run, events) && n < |run| && err in run[n].errs
    ensures Message(Unprocessable(err)) in events[..n] || IsReported(run[n].sessions, err)
  {
    if n > 0 {
      var p, e := run[n - 1], events[n - 1];
      assert events[..n] == events[..n - 1] + [e];
      InvRun(run, events, n - 1);
      if err in p.errs {
        ErrorsHaveASource(run, events, n - 1, err);
        if IsReported(p.sessions, err) {
          ReportedStays(p, e, err);
        }
      } else {
        NewErrorIsReported(p, e, err);
      }
    }
  }

  // ---------- shutdown does not get stuck ----------

  /** How much is still to resolve. */
  ghost function Open(sessions: seq<C.Session>): nat {
    if sessions == [] then 0 else Open(sessions[..|sessions| - 1]) + |sessions[|sessions| - 1].open|
  }

  lemma {:induction false} OpenUpdate(sessions: seq<C.Session>, i: nat, s: C.Session)
    requires i < |sessions|
    ensures Open(sessions[i := s]) == Open(sessions) - |sessions[i].open| + |s.open|
  {
    var n := |sessions| - 1;
    if i < n {
      OpenUpdate(sessions[..n], i, s);
      assert sessions[i := s][..n] == sessions[..n][i := s];
    } else {
      assert sessions[i := s][..n] == sessions[..n];
    }
  }

  lemma {:induction false} SomeUnsettled(sessions: seq<C.Session>) returns (i: nat)
    requires Unsettled(sessions) > 0
    ensures i < |sessions| && sessions[i].ctx.outcomes == []
  {
    if sessions[|sessions| - 1].ctx.outcomes == [] {
      i := |sessions| - 1;
    } else {
      i := SomeUnsettled(sessions[..|sessions| - 1]);
    }
  }

  /** While the shutdown waits, something is still to resolve, and may. */
  lemma SomethingMayResolve(p: State) returns (e: Event)
    requires Inv(p) && p.phase == Draining && p.wg != 0
    ensures e.Async? && e.e.Resolve? && Enabled(p, e) && Inv(Apply(p, e))
    ensures Apply(p, e).phase == Draining && Open(Apply(p, e).sessions) < Open(p.sessions)
  {
    var i := SomeUnsettled(p.sessions);
    var s := p.sessions[i];
    assert s in p.sessions && SessionOk(s);
    var t :| t in s.open;
    var r := C.Resolve(t, None);
    e := Async(i, r);
    InvStep(p, e);
    OpenUpdate(p.sessions, i, C.Apply(s, r));
  }

  lemma OneMore(run: seq<State>, events: seq<Event>, e: Event)
    requires IsRun(run, events) && Enabled(run[|events|], e)
    ensures IsRun(run + [Apply(run[|events|], e)], events + [e])
  {
  }

  ghost predicate OnlyResolves(events: seq<Event>) {
    forall e | e in events :: e == Waited || (e.Async? && e.e.Resolve?)
  }

  /** However the messages in flight stand when run quits, it returns once what they started has resolved. */
  lemma {:induction false} ShutdownCanFinish(run: seq<State>, events: seq<Event>)
    returns (all: seq<State>, more: seq<Event>)
    requires IsRun(run, events) && run[|events|].phase == Draining
    ensures run <= all && IsRun(all, events + more) && all[|events + more|].phase == Stopped && OnlyResolves(more)
    decreases Open(run[|events|].sessions)
  {
    var p := run[|events|];
    InvRun(run, events, |events|);
    if p.wg == 0 {
      all, more := run + [Apply(p, Waited)], [Waited];
      OneMore(run, events, Waited);
    } else {
      var e := SomethingMayResolve(p);
      OneMore(run, events, e);
      var rest;
      all, rest := ShutdownCanFinish(run + [Apply(p, e)], events + [e]);
      more := [e] + rest;
      assert events + more == events + [e] + rest;
    }
  }
}
