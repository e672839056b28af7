/**
  When a processed message is acknowledged (context.go).  A callback may emit, defer its commit and
  be finished in any interleaving with the promises that resolve those emits.
 */
module CallbackContext {
  import opened Common

  type Error = string

  /** A call of the commit function, or of the async failer with the collected errors. */
  datatype Outcome = Commit | Fail(errors: seq<Error>)

  /** The fields of cbContext, and the calls it has made.  Each settling also does one wait group Done. */
  datatype Ctx = Ctx(emits: nat, dones: nat, done: bool, errors: seq<Error>, outcomes: seq<Outcome>)

  const Fresh := Ctx(0, 0, false, [], [])

  function Collected(errors: seq<Error>, err: Option<Error>): seq<Error> {
    if err.Some? then errors + [err.value] else errors
  }

  /** tryCommit */
  function AfterTryCommit(c: Ctx, err: Option<Error>): Ctx {
    var c := c.(errors := Collected(c.errors, err));
    if !c.done || c.emits > c.dones then c
    else c.(outcomes := c.outcomes + [if c.errors != [] then Fail(c.errors) else Commit])
  }

  /** emitDone */
  function AfterEmitDone(c: Ctx, err: Option<Error>): Ctx {
    AfterTryCommit(c.(dones := c.dones + 1), err)
  }

  /** finish */
  function AfterFinish(c: Ctx, err: Option<Error>): Ctx {
    AfterTryCommit(c.(done := true), err)
  }

  // ---------- the object ----------

  class WaitGroup {
    var count: int

    constructor ()
      ensures count == 0
    {
      count := 0;
    }

    method Add(n: int)
      modifies this
      ensures count == old(count) + n
    {
      count := count + n;
    }
  }

  class CbContext {
    var emits: nat
    var dones: nat
    var done: bool
    var errors: seq<Error>
    var outcomes: seq<Outcome>
    const wg: WaitGroup

    function State(): Ctx
      reads this
    {
      Ctx(emits, dones, done, errors, outcomes)
    }

    constructor (wg: WaitGroup)
      ensures State() == Fresh && this.wg == wg
    {
      this.wg := wg;
      emits, dones, done, errors, outcomes := 0, 0, false, [], [];
    }

    method Start()
      modifies wg
      ensures wg.count == old(wg.count) + 1
    {
      wg.Add(1);
    }

    /** The counting part of emit, setValueForKey, deleteKey and DeferCommit. */
    method CountEmit()
      modifies this
      ensures State() == old(State()).(emits := old(emits) + 1)
    {
      emits := emits + 1;
    }

    method TryCommit(err: Option<Error>)
      modifies this, wg
      ensures State() == AfterTryCommit(old(State()), err)
      ensures wg.count == old(wg.count) - (|outcomes| - |old(outcomes)|)
    {
      if err.Some? {
        errors := errors + [err.value];
      }
      if !done || emits > dones {
        return;
      }
      if |errors| > 0 {
        outcomes := outcomes + [Fail(errors)];
      } else {
        outcomes := outcomes + [Commit];
      }
      wg.Add(-1);
    }

    method EmitDone(err: Option<Error>)
      modifies this, wg
      ensures State() == AfterEmitDone(old(State()), err)
      ensures wg.count == old(wg.count) - (|outcomes| - |old(outcomes)|)
    {
      dones := dones + 1;
      TryCommit(err);
    }

    method Finish(err: Option<Error>)
      modifies this, wg
      ensures State() == AfterFinish(old(State()), err)
      ensures wg.count == old(wg.count) - (|outcomes| - |old(outcomes)|)
    {
      done := true;
      TryCommit(err);
    }
  }

  /** The function DeferCommit returns: only its first call counts. */
  class Deferred {
    const ctx: CbContext
    var called: bool

    constructor (ctx: CbContext)
      modifies ctx
      ensures this.ctx == ctx && !called
      ensures ctx.State() == old(ctx.State()).(emits := old(ctx.emits) + 1)
    {
      this.ctx, called := ctx, false;
      new;
      ctx.CountEmit();
    }

    method Call(err: Option<Error>)
      modifies this, ctx, ctx.wg
      ensures called
      ensures ctx.State() == if old(called) then old(ctx.State()) else AfterEmitDone(old(ctx.State()), err)
      ensures ctx.wg.count == old(ctx.wg.count) - (|ctx.outcomes| - |old(ctx.outcomes)|)
    {
      if !called {
        called := true;
        ctx.EmitDone(err);
      }
    }
  }

  // ---------- every interleaving ----------

  /**
    One message's life.  A ticket is an emit or a deferred commit that has not resolved; `late` says
    one was taken out after the context had settled, which the callback contract forbids.
   */
  datatype Session = Session(ctx: Ctx, open: set<nat>, next: nat, reported: seq<Error>, late: bool, panicked: bool)

  datatype Event =
    | TakeTicket                                  // emit, SetValue, Delete, DeferCommit
    | Resolve(ticket: nat, err: Option<Error>)    // a promise, or the first call of a deferred function
    | ResolveAgain(ticket: nat)                   // a deferred function called again
    | Return(err: Option<Error>)                  // the callback returned: finish
    | Panic                                       // the callback panicked: finish never runs

  const NewSession := Session(Fresh, {}, 0, [], false, false)

  predicate Enabled(s: Session, e: Event) {
    match e
    case TakeTicket => !s.panicked
    case Resolve(t, _) => t in s.open
    case ResolveAgain(t) => t < s.next && t !in s.open
    case Return(_) => !s.ctx.done && !s.panicked
    case Panic => !s.ctx.done && !s.panicked
  }

  function Apply(s: Session, e: Event): (s': Session)
    requires Enabled(s, e)
    ensures s.ctx.outcomes <= s'.ctx.outcomes
  {
    match e
    case TakeTicket =>
      s.(ctx := s.ctx.(emits := s.ctx.emits + 1), open := s.open + {s.next}, next := s.next + 1,
      late := s.late || s.ctx.outcomes != [])
    case Resolve(t, err) =>
      s.(ctx := AfterEmitDone(s.ctx, err), open := s.open - {t}, reported := Collected(s.reported, err))
    case ResolveAgain(_) => s
    case Return(err) => s.(ctx := AfterFinish(s.ctx, err), reported := Collected(s.reported, err))
    case Panic => s.(panicked := true)
  }

  ghost predicate IsRun(run: seq<Session>, events: seq<Event>) {
    && |run| == |events| + 1 && run[0] == NewSession
    && forall i {:trigger events[i]} | 0 <= i < |events| ::
         Enabled(run[i], events[i]) && run[i + 1] == Apply(run[i], events[i])
  }

  ghost predicate Inv(s: Session) {
    && s.ctx.emits == s.ctx.dones + |s.open|
    && (forall t | t in s.open :: t < s.next)
    && s.ctx.errors == s.reported
    && (s.panicked ==> !s.ctx.done)
    && (!s.ctx.done ==> s.ctx.outcomes == [] && !s.late)
    && (!s.late ==> s.ctx.outcomes == Settlement(s))
    && (s.late ==> 1 <= |s.ctx.outcomes| && (s.open == {} ==> 2 <= |s.ctx.outcomes|))
  }

  /** What should have been reported by now: nothing until the callback and all tickets are done. */
  function Settlement(s: Session): seq<Outcome> {
    if !s.ctx.done || s.open != {} then []
    else if s.reported != [] then [Fail(s.reported)]
    else [Commit]
  }

  lemma InvStep(s: Session, e: Event)
    requires Inv(s) && Enabled(s, e)
    ensures Inv(Apply(s, e))
  {
    if e.Resolve? {
      assert |s.open - {e.ticket}| == |s.open| - 1;
      assert s.open == (s.open - {e.ticket}) + {e.ticket};
    } else if e.TakeTicket? {
      assert |s.open + {s.next}| == |s.open| + 1;
    }
  }

  lemma {:induction false} InvRun(run: seq<Session>, events: seq<Event>, n: nat)
    requires IsRun(run, events) && n < |run|
    ensures Inv(run[n])
  {
    if n > 0 {
      InvRun(run, events, n - 1);
      InvStep(run[n - 1], events[n - 1]);
    }
  }

  /**
    As long as no ticket is taken after the context settled: it settles at most once, exactly when
    the callback has returned and every ticket has resolved, by a commit if and only if no error was
    reported by anyone, and with exactly the errors that were.
   */
  lemma SettlesOnceAndRightly(run: seq<Session>, events: seq<Event>, n: nat)
    requires IsRun(run, events) && n < |run| && !run[n].late
    ensures run[n].ctx.outcomes == Settlement(run[n])
    ensures |run[n].ctx.outcomes| <= 1
    ensures Commit in run[n].ctx.outcomes <==> run[n].ctx.done && run[n].open == {} && run[n].reported == []
  {
    InvRun(run, events, n);
  }

  /** A callback that panicked never commits and never counts itself off the wait group. */
  lemma PanicNeverSettles(run: seq<Session>, events: seq<Event>, n: nat)
    requires IsRun(run, events) && n < |run| && run[n].panicked
    ensures run[n].ctx.outcomes == []
  {
    InvRun(run, events, n);
  }

  /** The callback contract is exactly what is needed: a late ticket is what settles a context twice. */
  lemma LateTicketsSettleTwice(run: seq<Session>, events: seq<Event>, n: nat)
    requires IsRun(run, events) && n < |run| && run[n].ctx.done && run[n].open == {}
    ensures |run[n].ctx.outcomes| == 1 <==> !run[n].late
  {
    InvRun(run, events, n);
  }

  // ---------- what the events say ----------

  /** The errors that promises, deferred functions and the callback itself came back with, in order. */
  function ErrorsIn(events: seq<Event>): seq<Error> {
    if events == [] then []
    else
      var before, last := ErrorsIn(events[..|events| - 1]), events[|events| - 1];
      if (last.Resolve? || last.Return?) && last.err.Some? then before + [last.err.value] else before
  }

  ghost predicate Returned(events: seq<Event>) { exists e :: e in events && e.Return? }

  /** Ticket `t` was taken: it was the one after `t` others. */
  function Taken(events: seq<Event>): nat {
    if events == [] then 0
    else Taken(events[..|events| - 1]) + if events[|events| - 1].TakeTicket? then 1 else 0
  }

  ghost predicate Resolved(events: seq<Event>, t: nat) { exists e :: e in events && e.Resolve? && e.ticket == t }

  /** The state against what happened. */
  ghost predicate TellsTheEvents(s: Session, events: seq<Event>) {
    && s.reported == ErrorsIn(events) && (s.ctx.done <==> Returned(events)) && s.next == Taken(events)
    && (s.panicked <==> Panic in events)
    && (forall t: nat | Resolved(events, t) :: t < Taken(events))
    && (forall t: nat :: t in s.open <==> t < Taken(events) && !Resolved(events, t))
  }

  lemma ResolvedMore(events: seq<Event>, e: Event, t: nat)
    ensures Resolved(events + [e], t) <==> Resolved(events, t) || (e.Resolve? && e.ticket == t)
  {
    assert forall x :: x in events + [e] <==> x in events || x == e;
  }

  lemma TellsNext(s: Session, events: seq<Event>, e: Event)
    requires TellsTheEvents(s, events) && Inv(s) && Enabled(s, e)
    ensures TellsTheEvents(Apply(s, e), events + [e])
  {
    assert (events + [e])[..|events|] == events;
    assert forall x :: x in events + [e] <==> x in events || x == e;
    forall t: nat ensures Resolved(events + [e], t) <==> Resolved(events, t) || (e.Resolve? && e.ticket == t) {
      ResolvedMore(events, e, t);
    }
  }

  lemma {:induction false} StateTellsTheEvents(run: seq<Session>, events: seq<Event>, n: nat)
    requires IsRun(run, events) && n < |run|
    ensures TellsTheEvents(run[n], events[..n])
  {
    if n > 0 {
      StateTellsTheEvents(run, events, n - 1);
      InvRun(run, events, n - 1);
      TellsNext(run[n - 1], events[..n - 1], events[n - 1]);
      assert events[..n] == events[..n - 1] + [events[n - 1]];
    }
  }

  /** Everything that was started has come back, the callback included. */
  ghost predicate AllBack(events: seq<Event>) {
    Returned(events) && forall t: nat | t < Taken(events) :: Resolved(events, t)
  }

  /** The same from the events alone: what came back decides when, and what it came back with decides how. */
  lemma SettlesByTheEvents(run: seq<Session>, events: seq<Event>, n: nat)
    requires IsRun(run, events) && n < |run| && !run[n].late
    ensures run[n].ctx.outcomes == if !AllBack(events[..n]) then []
                                   else if ErrorsIn(events[..n]) == [] then [Commit]
                                   else [Fail(ErrorsIn(events[..n]))]
  {
    InvRun(run, events, n);
    StateTellsTheEvents(run, events, n);
    var s := run[n];
    assert s.open == {} <==> forall t: nat :: t !in s.open;
  }
}
