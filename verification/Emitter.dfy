/**
  Emitter.EmitWithHeaders against Emitter.Finish (emitter.go): any number of concurrent callers, one
  Finish, and the read-write lock between them, step by step.
 */
module Emitter {
  import opened Common

  /** Where Finish is. */
  datatype FinishPc = NotCalled | Locked | DoneClosed | Waiting | Closing | Closed

  /** Where a caller is. */
  datatype CallerPc =
    | Reading      // holds the read lock, has not looked at done
    | Counted      // holds the read lock, found done open and added to the wait group
    | Leaving      // released the lock, about to hand the message to the producer
    | Handed       // message with the producer, promise not resolved
    | Resolved     // promise resolved, emitDone called
    | Rejected     // got a promise finished with ErrEmitterAlreadyClosed

  datatype State = State(callers: map<nat, CallerPc>, wg: int, done: bool, finish: FinishPc)

  datatype Event =
    | ReadLock(caller: nat)
    | CheckOpen(caller: nat)
    | CheckDone(caller: nat)
    | ReadUnlock(caller: nat)
    | Hand(caller: nat)
    | Resolve(caller: nat)
    | FinishLock
    | FinishCloseDone
    | FinishUnlock
    | FinishWaited
    | FinishClose

  const Initial := State(map[], 0, false, NotCalled)

  predicate At(s: State, c: nat, pc: CallerPc) { c in s.callers && s.callers[c] == pc }

  predicate WriteLocked(s: State) { s.finish == Locked || s.finish == DoneClosed }

  predicate ReadLocked(s: State) {
    exists c | c in s.callers :: s.callers[c] == Reading || s.callers[c] == Counted
  }

  predicate Enabled(s: State, e: Event) {
    match e
    case ReadLock(c) => c !in s.callers && !WriteLocked(s)
    case CheckOpen(c) => At(s, c, Reading) && !s.done
    case CheckDone(c) => At(s, c, Reading) && s.done
    case ReadUnlock(c) => At(s, c, Counted)
    case Hand(c) => At(s, c, Leaving)
    case Resolve(c) => At(s, c, Handed)
    case FinishLock => s.finish == NotCalled && !ReadLocked(s)
    case FinishCloseDone => s.finish == Locked
    case FinishUnlock => s.finish == DoneClosed
    case FinishWaited => s.finish == Waiting && s.wg == 0
    case FinishClose => s.finish == Closing
  }

  function Apply(s: State, e: Event): State
    requires Enabled(s, e)
  {
    match e
    case ReadLock(c) => s.(callers := s.callers[c := Reading])
    case CheckOpen(c) => s.(callers := s.callers[c := Counted], wg := s.wg + 1)
    case CheckDone(c) => s.(callers := s.callers[c := Rejected])
    case ReadUnlock(c) => s.(callers := s.callers[c := Leaving])
    case Hand(c) => s.(callers := s.callers[c := Handed])
    case Resolve(c) => s.(callers := s.callers[c := Resolved], wg := s.wg - 1)
    case FinishLock => s.(finish := Locked)
    case FinishCloseDone => s.(finish := DoneClosed, done := true)
    case FinishUnlock => s.(finish := Waiting)
    case FinishWaited => s.(finish := Closing)
    case FinishClose => s.(finish := Closed)
  }

  ghost predicate IsRun(run: seq<State>, events: seq<Event>) {
    && |run| == |events| + 1 && run[0] == Initial
    && forall i {:trigger events[i]} | 0 <= i < |events| ::
         Enabled(run[i], events[i]) && run[i + 1] == Apply(run[i], events[i])
  }

  predicate IsOutstanding(pc: CallerPc) { pc == Counted || pc == Leaving || pc == Handed }

  /** Accepted emits whose promise has not resolved. */
  function Outstanding(callers: map<nat, CallerPc>): set<nat> {
    set c | c in callers && IsOutstanding(callers[c])
  }

  ghost predicate Inv(s: State) {
    && s.wg == |Outstanding(s.callers)|
    && (s.done <==> s.finish != NotCalled && s.finish != Locked)
    && (WriteLocked(s) ==> !ReadLocked(s))
    && (forall c | c in s.callers :: (s.done ==> s.callers[c] != Counted) && (s.callers[c] == Rejected ==> s.done))
    && (s.finish == Closing || s.finish == Closed ==> Outstanding(s.callers) == {})
  }

  lemma OutstandingUpdate(callers: map<nat, CallerPc>, c: nat, pc: CallerPc)
    ensures var was := c in callers && IsOutstanding(callers[c]);
            |Outstanding(callers[c := pc])| ==
            |Outstanding(callers)| - (if was then 1 else 0) + (if IsOutstanding(pc) then 1 else 0)
  {
    assert Outstanding(callers[c := pc]) ==
           if IsOutstanding(pc) then Outstanding(callers) + {c} else Outstanding(callers) - {c};
  }

  /** The move caller `c` makes in an event of its own. */
  function Move(e: Event): Option<(nat, CallerPc)> {
    match e
    case ReadLock(c) => Some((c, Reading))
    case CheckOpen(c) => Some((c, Counted))
    case CheckDone(c) => Some((c, Rejected))
    case ReadUnlock(c) => Some((c, Leaving))
    case Hand(c) => Some((c, Handed))
    case Resolve(c) => Some((c, Resolved))
    case _ => None
  }

  lemma CountStep(s: State, e: Event)
    requires s.wg == |Outstanding(s.callers)| && Enabled(s, e)
    ensures Apply(s, e).wg == |Outstanding(Apply(s, e).callers)|
  {
    if Move(e).Some? {
      OutstandingUpdate(s.callers, Move(e).value.0, Move(e).value.1);
    }
  }

  lemma LockStep(s: State, e: Event)
    requires Inv(s) && Enabled(s, e)
    ensures WriteLocked(Apply(s, e)) ==> !ReadLocked(Apply(s, e))
  {
    if Move(e).Some? && WriteLocked(s) {
      assert e.Hand? || e.Resolve?;
    }
  }

  lemma DoneStep(s: State, e: Event)
    requires Inv(s) && Enabled(s, e)
    ensures var s' := Apply(s, e);
            forall c | c in s'.callers ::
              (s'.done ==> s'.callers[c] != Counted) && (s'.callers[c] == Rejected ==> s'.done)
  {
  }

  lemma InvStep(s: State, e: Event)
    requires Inv(s) && Enabled(s, e)
    ensures Inv(Apply(s, e))
  {
    CountStep(s, e);
    LockStep(s, e);
    DoneStep(s, e);
    ClosingStep(s, e);
  }

  lemma ClosingStep(s: State, e: Event)
    requires Inv(s) && Enabled(s, e)
    ensures var s' := Apply(s, e); s'.finish == Closing || s'.finish == Closed ==> Outstanding(s'.callers) == {}
  {
    if Move(e).Some? && (s.finish == Closing || s.finish == Closed) {
      var (c, pc) := Move(e).value;
      assert c !in Outstanding(s.callers);
    }
  }

  lemma {:induction false} InvRun(run: seq<State>, events: seq<Event>, n: nat)
    requires IsRun(run, events) && n < |run|
    ensures Inv(run[n])
  {
    if n > 0 {
      InvRun(run, events, n - 1);
      InvStep(run[n - 1], events[n - 1]);
    }
  }

  ghost predicate ProducerClosing(s: State) { s.finish == Closing || s.finish == Closed }

  lemma {:induction false} StaysClosing(run: seq<State>, events: seq<Event>, n: nat, m: nat)
    requires IsRun(run, events) && n <= m < |run|
    ensures run[n].done ==> run[m].done
    ensures ProducerClosing(run[n]) ==> ProducerClosing(run[m])
  {
    if n < m {
      StaysClosing(run, events, n, m - 1);
      assert run[m] == Apply(run[m - 1], events[m - 1]);
    }
  }

  /**
    Once Finish gets to closing the producer, every accepted emit's promise has resolved, and from then
    on nothing is accepted, handed to the producer or still resolving.
   */
  lemma ProducerClosesLast(run: seq<State>, events: seq<Event>, n: nat, m: nat)
    requires IsRun(run, events) && n <= m < |events| && ProducerClosing(run[n])
    ensures forall c | c in run[m].callers :: run[m].callers[c] in {Reading, Resolved, Rejected}
    ensures !events[m].CheckOpen? && !events[m].Hand? && !events[m].Resolve?
  {
    StaysClosing(run, events, n, m);
    InvRun(run, events, m);
    forall c | c in run[m].callers ensures run[m].callers[c] in {Reading, Resolved, Rejected} {
      assert c !in Outstanding(run[m].callers);
    }
  }

  /** While Finish waits, an accepted emit has still to resolve, and can go on. */
  lemma FinishIsNotStuck(run: seq<State>, events: seq<Event>, n: nat)
    requires IsRun(run, events) && n < |run| && run[n].finish == Waiting && !Enabled(run[n], FinishWaited)
    ensures exists c :: Enabled(run[n], Hand(c)) || Enabled(run[n], Resolve(c))
  {
    InvRun(run, events, n);
    var c :| c in Outstanding(run[n].callers);
    assert Enabled(run[n], Hand(c)) || Enabled(run[n], Resolve(c));
  }

  /** A caller is turned away only once Finish has closed the done channel; then nobody is accepted any more. */
  lemma NobodyAcceptedAfterARejection(run: seq<State>, events: seq<Event>, n: nat, m: nat, c: nat)
    requires IsRun(run, events) && n <= m < |events| && At(run[n], c, Rejected)
    ensures !events[m].CheckOpen?
  {
    InvRun(run, events, n);
    StaysClosing(run, events, n, m);
  }

  // ---------- what each does, from the events alone ----------

  predicate IsBy(e: Event, c: nat) {
    e in {ReadLock(c), CheckOpen(c), CheckDone(c), ReadUnlock(c), Hand(c), Resolve(c)}
  }

  predicate IsByFinish(e: Event) {
    e in {FinishLock, FinishCloseDone, FinishUnlock, FinishWaited, FinishClose}
  }

  function EventsOf(events: seq<Event>, mine: Event -> bool): seq<Event> {
    if events == [] then []
    else EventsOf(events[..|events| - 1], mine) + if mine(events[|events| - 1]) then [events[|events| - 1]] else []
  }

  function Accepted(c: nat): seq<Event> { [ReadLock(c), CheckOpen(c), ReadUnlock(c), Hand(c), Resolve(c)] }

  function TurnedAway(c: nat): seq<Event> { [ReadLock(c), CheckDone(c)] }

  const FINISHING := [FinishLock, FinishCloseDone, FinishUnlock, FinishWaited, FinishClose]

  ghost predicate CallerTells(s: State, done: seq<Event>, c: nat) {
    if c !in s.callers then done == []
    else match s.callers[c]
         case Reading => done == Accepted(c)[..1]
         case Counted => done == Accepted(c)[..2]
         case Leaving => done == Accepted(c)[..3]
         case Handed => done == Accepted(c)[..4]
         case Resolved => done == Accepted(c)
         case Rejected => done == TurnedAway(c)
  }

  ghost predicate FinishTells(s: State, done: seq<Event>) {
    match s.finish
    case NotCalled => done == []
    case Locked => done == FINISHING[..1]
    case DoneClosed => done == FINISHING[..2]
    case Waiting => done == FINISHING[..3]
    case Closing => done == FINISHING[..4]
    case Closed => done == FINISHING
  }

  lemma CallerTellsNext(s: State, e: Event, done: seq<Event>, c: nat)
    requires Enabled(s, e) && CallerTells(s, done, c)
    ensures CallerTells(Apply(s, e), done + if IsBy(e, c) then [e] else [], c)
  {
  }

  lemma FinishTellsNext(s: State, e: Event, done: seq<Event>)
    requires Enabled(s, e) && FinishTells(s, done)
    ensures FinishTells(Apply(s, e), done + if IsByFinish(e) then [e] else [])
  {
  }

  /**
    Where a caller is says what it did: it is accepted, hands its message over once and resolves after
    that, or it is turned away and does nothing more.
   */
  lemma {:induction false} CallersFollowTheirScript(run: seq<State>, events: seq<Event>, c: nat, n: nat)
    requires IsRun(run, events) && n <= |events|
    ensures CallerTells(run[n], EventsOf(events[..n], e => IsBy(e, c)), c)
    ensures var done := EventsOf(events[..n], e => IsBy(e, c)); done <= Accepted(c) || done <= TurnedAway(c)
  {
    var mine := (e: Event) => IsBy(e, c);
    if n > 0 {
      CallersFollowTheirScript(run, events, c, n - 1);
      assert events[..n][..n - 1] == events[..n - 1];
      CallerTellsNext(run[n - 1], events[n - 1], EventsOf(events[..n - 1], mine), c);
    }
  }

  /** Finish closes the done channel under the lock, waits for the accepted emits and closes the producer. */
  lemma {:induction false} FinishFollowsItsScript(run: seq<State>, events: seq<Event>, n: nat)
    requires IsRun(run, events) && n <= |events|
    ensures FinishTells(run[n], EventsOf(events[..n], IsByFinish)) && EventsOf(events[..n], IsByFinish) <= FINISHING
  {
    if n > 0 {
      FinishFollowsItsScript(run, events, n - 1);
      assert events[..n][..n - 1] == events[..n - 1];
      FinishTellsNext(run[n - 1], events[n - 1], EventsOf(events[..n - 1], IsByFinish));
    }
  }
}
