/**
  Loading one table partition (partition_table.go): where to start, what to do with each message,
  when to stop, and what that leaves in the local table.
 */
module PartitionTable {
  import opened Common
  import opened TableLog
  import opened LocalStore
  import opened Recovery
  import opened RecoverySafety
  import opened RecoveryTheorems
  import opened LevelDbStorage

  /** What loadMessages can receive from its select. */
  datatype ConsumerEvent = Message(record: Record) | NilMessage | ChannelClosed | StallTick | ContextDone

  /** How load returns: with an error, without having consumed anything, or as loadMessages ended. */
  datatype LoadResult = Failed | UpToDate | Loaded(end: LoadEnd)

  datatype LoadEnd = ReachedHwm | MessagesClosed | Cancelled | StillWaiting

  datatype Status = Stopped | Initializing | Connecting | Recovering | Preparing | Running

  // ---------- what a load writes ----------

  /** storeEvent: the update first, then the offset, persisted at once only after recovery. */
  ghost function EventWritten(disk: seq<Write>, recovered: bool, r: Record): seq<Write> {
    disk + [Data(PutOf(r))] + if recovered then [Offset(r.offset)] else []
  }

  ghost function EventsWritten(disk: seq<Write>, recovered: bool, rs: seq<Record>): seq<Write> {
    if rs == [] then disk
    else EventWritten(EventsWritten(disk, recovered, rs[..|rs| - 1]), recovered, rs[|rs| - 1])
  }

  function Messages(events: seq<ConsumerEvent>): seq<Record> {
    if events == [] then []
    else if events[|events| - 1].Message? then Messages(events[..|events| - 1]) + [events[|events| - 1].record]
    else Messages(events[..|events| - 1])
  }

  /**
    What a consumer opened at `start` may deliver while the log grows and is compacted: records in
    order, skipping only ones that were overwritten.
   */
  ghost predicate IsFeed(hist: seq<Record>, start: int, rs: seq<Record>) {
    && Increasing(rs)
    && (forall r | r in rs :: r in hist && start <= r.offset)
    && (rs != [] ==>
          forall k | Last(hist, k).Some? && start <= Last(hist, k).value.offset <= rs[|rs| - 1].offset ::
            Last(hist, k).value in rs)
  }

  lemma FeedPrefix(hist: seq<Record>, start: int, rs: seq<Record>, n: nat)
    requires IsFeed(hist, start, rs) && n <= |rs|
    ensures IsFeed(hist, start, rs[..n])
  {
    if 0 < n < |rs| {
      forall k | Last(hist, k).Some? && start <= Last(hist, k).value.offset <= rs[n - 1].offset
        ensures Last(hist, k).value in rs[..n]
      {
        assert rs[n - 1].offset < rs[|rs| - 1].offset;
        var i :| 0 <= i < |rs| && rs[i] == Last(hist, k).value;
        assert i < n && rs[..n][i] == rs[i];
      }
    } else if n == |rs| {
      assert rs[..n] == rs;
    }
  }

  ghost function EndOf(start: int, rs: seq<Record>): int {
    if rs == [] then start - 1 else rs[|rs| - 1].offset
  }

  /** A table that is good before `start` is good up to the last record it was fed. */
  lemma {:induction false} FeedReaches(hist: seq<Record>, disk: seq<Write>, recovered: bool, start: int,
                                       rs: seq<Record>)
    requires Increasing(hist) && Upto(hist, disk, start - 1) && IsFeed(hist, start, rs)
    ensures Upto(hist, EventsWritten(disk, recovered, rs), EndOf(start, rs))
  {
    if rs != [] {
      var front, r := rs[..|rs| - 1], rs[|rs| - 1];
      FeedPrefix(hist, start, rs, |front|);
      FeedReaches(hist, disk, recovered, start, front);
      var before := EventsWritten(disk, recovered, front);
      forall k | Last(hist, k).Some? && EndOf(start, front) + 1 <= Last(hist, k).value.offset
        ensures r.offset <= Last(hist, k).value.offset
      {
        LastIsMember(hist, k);
        FeedGap(hist, start, rs, Last(hist, k).value);
      }
      UptoNext(hist, before, EndOf(start, front) + 1, r);
      if recovered {
        UptoPut(hist, before + [Data(PutOf(r))], r.offset, r.offset);
      } else {
        assert before + [Data(PutOf(r))] + [] == before + [Data(PutOf(r))];
      }
    }
  }

  lemma FeedGap(hist: seq<Record>, start: int, rs: seq<Record>, last: Record)
    requires IsFeed(hist, start, rs) && rs != [] && Last(hist, last.key) == Some(last)
    requires EndOf(start, rs[..|rs| - 1]) < last.offset
    ensures rs[|rs| - 1].offset <= last.offset
  {
    var n := |rs|;
    if last.offset <= rs[n - 1].offset {
      assert n > 1 ==> rs[n - 2] in rs;
      assert last in rs;
      var i :| 0 <= i < n && rs[i] == last;
      assert i == n - 1;
    }
  }

  lemma {:induction false} MessagesPrefix(events: seq<ConsumerEvent>, n: nat)
    requires n <= |events|
    ensures Messages(events[..n]) <= Messages(events)
  {
    if n < |events| {
      MessagesPrefix(events[..|events| - 1], n);
      assert events[..|events| - 1][..n] == events[..n];
    } else {
      assert events[..n] == events;
    }
  }

  lemma MessagesNext(events: seq<ConsumerEvent>, n: nat)
    requires n < |events|
    ensures Messages(events[..n + 1]) ==
            if events[n].Message? then Messages(events[..n]) + [events[n].record] else Messages(events[..n])
  {
    assert events[..n + 1][..n] == events[..n];
  }

  /** How the message loop ends at one event, or that it goes on. */
  function EndedBy(e: ConsumerEvent, hwm: int, stop: bool): LoadEnd {
    match e
    case ChannelClosed => MessagesClosed
    case ContextDone => Cancelled
    case Message(r) => if stop && r.offset >= hwm - 1 then ReachedHwm else StillWaiting
    case _ => StillWaiting
  }

  /** How it ends over all of them: by the first that ends it. */
  function HowItEnds(events: seq<ConsumerEvent>, hwm: int, stop: bool): LoadEnd {
    if events == [] then StillWaiting
    else
      var before := HowItEnds(events[..|events| - 1], hwm, stop);
      if before != StillWaiting then before else EndedBy(events[|events| - 1], hwm, stop)
  }

  /** The messages it takes until then. */
  function Taken(events: seq<ConsumerEvent>, hwm: int, stop: bool): seq<Record> {
    if events == [] then []
    else
      var front, e := events[..|events| - 1], events[|events| - 1];
      if HowItEnds(front, hwm, stop) == StillWaiting && e.Message? then Taken(front, hwm, stop) + [e.record]
      else Taken(front, hwm, stop)
  }

  lemma EndsNext(events: seq<ConsumerEvent>, n: nat, hwm: int, stop: bool)
    requires n < |events| && HowItEnds(events[..n], hwm, stop) == StillWaiting
    ensures HowItEnds(events[..n + 1], hwm, stop) == EndedBy(events[n], hwm, stop)
    ensures Taken(events[..n + 1], hwm, stop) ==
            Taken(events[..n], hwm, stop) + if events[n].Message? then [events[n].record] else []
  {
    assert events[..n + 1][..n] == events[..n];
  }

  /** What comes after the end changes nothing. */
  lemma {:induction false} EndIsFinal(events: seq<ConsumerEvent>, n: nat, hwm: int, stop: bool)
    requires n <= |events| && HowItEnds(events[..n], hwm, stop) != StillWaiting
    ensures HowItEnds(events, hwm, stop) == HowItEnds(events[..n], hwm, stop)
    ensures Taken(events, hwm, stop) == Taken(events[..n], hwm, stop)
  {
    if n == |events| {
      assert events[..n] == events;
    } else {
      var front := events[..|events| - 1];
      assert front[..n] == events[..n];
      EndIsFinal(front, n, hwm, stop);
    }
  }

  /** The offset of the last of the messages, or what it was before. */
  function LastOffset(before: int, rs: seq<Record>): int {
    if rs == [] then before else rs[|rs| - 1].offset
  }

  /** A recovering load ends at the watermark with the first message at or past it. */
  lemma {:induction false} ReachedByLast(events: seq<ConsumerEvent>, hwm: int)
    ensures HowItEnds(events, hwm, true) == ReachedHwm <==> PastHwm(Taken(events, hwm, true), hwm)
    ensures forall i | 0 <= i < |Taken(events, hwm, true)| - 1 :: Taken(events, hwm, true)[i].offset < hwm - 1
  {
    if events != [] {
      ReachedByLast(events[..|events| - 1], hwm);
    }
  }

  /** How it ended after some of the events is how it ends, if it ended or there are no more. */
  lemma TakenInAll(events: seq<ConsumerEvent>, n: nat, hwm: int, stop: bool)
    requires n <= |events| && (n < |events| ==> HowItEnds(events[..n], hwm, stop) != StillWaiting)
    ensures HowItEnds(events, hwm, stop) == HowItEnds(events[..n], hwm, stop)
    ensures Taken(events, hwm, stop) == Taken(events[..n], hwm, stop)
    ensures HowItEnds(events, hwm, stop) == ReachedHwm <==> stop && PastHwm(Taken(events, hwm, stop), hwm)
  {
    if n < |events| {
      EndIsFinal(events, n, hwm, stop);
    } else {
      assert events[..n] == events;
    }
    if stop {
      ReachedByLast(events, hwm);
    } else {
      NeverReached(events, hwm);
    }
  }

  lemma {:induction false} NeverReached(events: seq<ConsumerEvent>, hwm: int)
    ensures HowItEnds(events, hwm, false) != ReachedHwm
  {
    if events != [] {
      NeverReached(events[..|events| - 1], hwm);
    }
  }

  /** Whether an event ends the loop. */
  predicate IsLast(e: ConsumerEvent, hwm: int, stop: bool) {
    e == ChannelClosed || e == ContextDone || (stop && e.Message? && e.record.offset >= hwm - 1)
  }

  /** It goes on only while nothing ends it, and says what did. */
  lemma {:induction false} WhyItEnds(events: seq<ConsumerEvent>, hwm: int, stop: bool)
    ensures HowItEnds(events, hwm, stop) == StillWaiting <==> forall e | e in events :: !IsLast(e, hwm, stop)
    ensures HowItEnds(events, hwm, stop) == MessagesClosed ==> ChannelClosed in events
    ensures HowItEnds(events, hwm, stop) == Cancelled ==> ContextDone in events
  {
    if events != [] {
      var front, last := events[..|events| - 1], events[|events| - 1];
      WhyItEnds(front, hwm, stop);
      assert forall e :: e in events <==> e in front || e == last by {
        assert events == front + [last];
      }
      assert EndedBy(last, hwm, stop) == StillWaiting <==> !IsLast(last, hwm, stop);
      if HowItEnds(front, hwm, stop) != StillWaiting {
        var e :| e in front && IsLast(e, hwm, stop);
        assert e in events;
      }
    }
  }

  /** The last message taken lies at or past the last offset below the watermark. */
  predicate PastHwm(rs: seq<Record>, hwm: int) {
    rs != [] && rs[|rs| - 1].offset >= hwm - 1
  }

  /** What a load relies on: a table good up to what is stored, and a log start that hides nothing. */
  ghost predicate GoodStart(hist: seq<Record>, disk: seq<Write>, stored: int, oldest: int) {
    && Increasing(hist) && Upto(hist, disk, stored)
    && forall k | Last(hist, k).Some? :: oldest <= Last(hist, k).value.offset
  }

  /** The consumer, if there was one, delivered a feed from where findOffsetToLoad starts. */
  ghost predicate IsFed(hist: seq<Record>, stored: int, oldest: int, consumer: Result<seq<ConsumerEvent>>) {
    consumer.Ok? ==> IsFeed(hist, StartOffset(stored, oldest), Messages(consumer.value))
  }

  lemma LoadReaches(hist: seq<Record>, disk: seq<Write>, recovered: bool, stored: int, oldest: int, hwm: int,
                    events: seq<ConsumerEvent>, used: nat)
    requires GoodStart(hist, disk, stored, oldest) && used <= |events|
    requires IsFeed(hist, StartOffset(stored, oldest), Messages(events)) && PastHwm(Messages(events[..used]), hwm)
    ensures Upto(hist, EventsWritten(disk, recovered, Messages(events[..used])), hwm - 1)
  {
    var start, rs := StartOffset(stored, oldest), Messages(events[..used]);
    UptoStart(hist, disk, stored, oldest);
    MessagesPrefix(events, used);
    assert rs == Messages(events)[..|rs|];
    FeedPrefix(hist, start, Messages(events), |rs|);
    FeedReaches(hist, disk, recovered, start, rs);
  }

  lemma UptoPutNonZero(hist: seq<Record>, disk: seq<Write>, upto: int, n: int)
    requires Upto(hist, disk, upto)
    ensures Upto(hist, PutNonZero(disk, n), upto)
  {
    UptoPut(hist, disk, upto, n);
  }

  // ---------- offsets do not run ahead ----------

  lemma {:induction false} EventsAreWritten(hist: seq<Record>, disk: seq<Write>, recovered: bool, rs: seq<Record>)
    requires WriteAhead(hist, disk) && forall r | r in rs :: r in hist
    ensures WriteAhead(hist, EventsWritten(disk, recovered, rs)) && disk <= EventsWritten(disk, recovered, rs)
    ensures rs != [] ==> IsWritten(hist, EventsWritten(disk, recovered, rs), rs[|rs| - 1].offset)
  {
    if rs != [] {
      var front, r := rs[..|rs| - 1], rs[|rs| - 1];
      assert r in rs && forall q | q in front :: q in rs;
      EventsAreWritten(hist, disk, recovered, front);
      EventIsWritten(hist, EventsWritten(disk, recovered, front), recovered, r);
    }
  }

  lemma WriteAheadMore(hist: seq<Record>, disk: seq<Write>, w: Write)
    requires WriteAhead(hist, disk) && (w.Offset? ==> IsWritten(hist, disk, w.offset))
    ensures WriteAhead(hist, disk + [w])
  {
    assert (disk + [w])[..|disk|] == disk;
  }

  lemma EventIsWritten(hist: seq<Record>, disk: seq<Write>, recovered: bool, r: Record)
    requires WriteAhead(hist, disk) && r in hist
    ensures WriteAhead(hist, EventWritten(disk, recovered, r))
    ensures IsWritten(hist, EventWritten(disk, recovered, r), r.offset)
  {
    var data := disk + [Data(PutOf(r))];
    WriteAheadMore(hist, disk, Data(PutOf(r)));
    assert Data(PutOf(r)) in data;
    if recovered {
      WriteAheadMore(hist, data, Offset(r.offset));
      IsWrittenGrows(hist, data, hist, data + [Offset(r.offset)], r.offset);
    } else {
      assert data + [] == data;
    }
  }

  lemma PutIsWritten(hist: seq<Record>, disk: seq<Write>, n: int)
    requires WriteAhead(hist, disk) && (n != 0 ==> IsWritten(hist, disk, n))
    ensures WriteAhead(hist, PutNonZero(disk, n)) && (n != 0 ==> IsWritten(hist, PutNonZero(disk, n), n))
  {
    if n != 0 {
      WriteAheadMore(hist, disk, Offset(n));
      IsWrittenGrows(hist, disk, hist, disk + [Offset(n)], n);
    }
  }

  /** A load before recovery persists no offset of its own. */
  lemma {:induction false} StoredBeforeRecovery(disk: seq<Write>, rs: seq<Record>)
    ensures Stored(EventsWritten(disk, false, rs)) == Stored(disk)
  {
    if rs != [] {
      var before := EventsWritten(disk, false, rs[..|rs| - 1]);
      StoredBeforeRecovery(disk, rs[..|rs| - 1]);
      AfterData(before, PutOf(rs[|rs| - 1]), "");
      assert before + [Data(PutOf(rs[|rs| - 1]))] + [] == before + [Data(PutOf(rs[|rs| - 1]))];
    }
  }

  /** Where load starts; at the watermark there is nothing to load. */
  function LoadFrom(stored: int, oldest: int, hwm: int): int {
    if stored >= hwm then hwm else StartOffset(stored, oldest)
  }

  // ---------- the table ----------

  class PartitionTable {
    var st: Storage
    var state: Status

    constructor (st: Storage)
      ensures this.st == st && state == Stopped
    {
      this.st, state := st, Stopped;
    }

    /** findOffsetToLoad: a stored offset is continued, but never before what Kafka still has. */
    static method FindOffsetToLoad(stored: int, oldest: Result<int>, newest: Result<int>)
      returns (r: Result<(int, int)>)
      ensures r.Ok? <==> oldest.Ok? && newest.Ok?
      ensures r.Ok? ==> oldest.value <= r.value.0 && r.value.1 == newest.value
      ensures r.Ok? && stored != OFFSET_NOT_STORED ==> stored + 1 <= r.value.0
      ensures r.Ok? ==> r.value.0 == oldest.value || (stored != OFFSET_NOT_STORED && r.value.0 == stored + 1)
    {
      if oldest.Err? {
        return Err(oldest.error);
      }
      if newest.Err? {
        return Err(newest.error);
      }
      var start;
      if stored == OFFSET_NOT_STORED {
        start := oldest.value;
      } else {
        start := stored + 1;
      }
      if start < oldest.value {
        start := oldest.value;
      }
      r := Ok((start, newest.value));
    }

    /** DefaultUpdate on the storage, then SetOffset. */
    method StoreEvent(r: Record)
      requires st.Valid()
      modifies st`db, st`disk, st`offset
      ensures st.Valid() && st.offset == r.offset
      ensures st.disk == EventWritten(old(st.disk), st.recovered, r)
    {
      match r.value {
        case None => st.Delete(r.key, r.id);
        case Some(v) => st.Set(r.key, v, r.id);
      }
      st.SetOffset(r.offset);
    }

    /** Disk and offset are as storing these messages leaves them. */
    ghost predicate AllStored(disk: seq<Write>, offset: int, rs: seq<Record>)
      reads this, st
    {
      st.disk == EventsWritten(disk, st.recovered, rs) && st.offset == LastOffset(offset, rs)
    }

    /**
      The message loop.  It stores every message it takes (unless the table is already running while
      recovering) and leaves on the first one at or past the last offset below the watermark.
     */
    method LoadMessages(events: seq<ConsumerEvent>, hwm: int, stopAfterCatchup: bool)
      returns (end: LoadEnd, used: nat)
      requires st.Valid()
      modifies st`db, st`disk, st`offset
      ensures st.Valid() && used <= |events|
      ensures end == HowItEnds(events, hwm, stopAfterCatchup && state != Running)
      ensures if state == Running && stopAfterCatchup then st.disk == old(st.disk) && st.offset == old(st.offset)
              else var taken := Taken(events, hwm, stopAfterCatchup);
                   taken == Messages(events[..used]) && AllStored(old(st.disk), old(st.offset), taken)
      ensures end == ReachedHwm <==>
                stopAfterCatchup && state != Running && PastHwm(Messages(events[..used]), hwm)
      ensures end == StillWaiting ==> used == |events|
    {
      used, end := 0, StillWaiting;
      var ignore := state == Running && stopAfterCatchup;
      ghost var stop := stopAfterCatchup && !ignore;
      while used < |events| && end == StillWaiting
        invariant st.Valid() && used <= |events| && end == HowItEnds(events[..used], hwm, stop)
        invariant ignore ==> st.disk == old(st.disk) && st.offset == old(st.offset)
        invariant Taken(events[..used], hwm, stop) == Messages(events[..used])
        invariant !ignore ==> AllStored(old(st.disk), old(st.offset), Messages(events[..used]))
      {
        var e := events[used];
        MessagesNext(events, used);
        EndsNext(events, used, hwm, stop);
        used := used + 1;
        if e.ChannelClosed? {
          end := MessagesClosed;
        } else if e.ContextDone? {
          end := Cancelled;
        } else if e.Message? && !ignore {
          StoreEvent(e.record);
          if stopAfterCatchup && e.record.offset >= hwm - 1 {
            end := ReachedHwm;
          }
        }
      }
      TakenInAll(events, used, hwm, stop);
    }

    /**
      markRecovered: the storage is marked by a goroutine of its own.  If the context is done first,
      `marked` says whether that had happened by then; the state stays at Preparing either way.
     */
    method MarkRecovered(contextDone: bool, marked: bool)
      requires st.Valid() && !st.recovered
      modifies this`state, st`db, st`disk, st`recovered
      ensures st.Valid() && st.recovered == (!contextDone || marked)
      ensures st.disk == if st.recovered then PutNonZero(old(st.disk), st.offset) else old(st.disk)
      ensures state == if contextDone then Preparing else Running
    {
      state := Preparing;
      if contextDone && !marked {
        return;
      }
      st.MarkRecovered();
      if !contextDone {
        state := Running;
      }
    }

    /** The offset this table would continue from. */
    ghost function Position(): int
      reads this, st
    {
      if !st.recovered && st.offset != 0 then st.offset else Stored(st.disk)
    }

    /** The local disk reads back as it was written. */
    ghost predicate Readable()
      reads this, st
    {
      NoCollision(st.disk) && forall n | Offset(n) in st.disk :: n != OFFSET_NOT_STORED
    }

    /** Every offset on disk, and the one in memory, is that of a log record whose update is written. */
    ghost predicate Covered(hist: seq<Record>)
      reads this, st
    {
      WriteAhead(hist, st.disk) && (st.offset != 0 ==> IsWritten(hist, st.disk, st.offset))
    }

    /** After a recovery that ended at the watermark, the table goes on after the last record it was delivered. */
    lemma PositionAfterRecovery(disk: seq<Write>, offset: int, events: seq<ConsumerEvent>, hwm: int)
      requires HowItEnds(events, hwm, true) == ReachedHwm && st.recovered
      requires st.offset == LastOffset(offset, Taken(events, hwm, true))
      requires st.disk == PutNonZero(EventsWritten(disk, false, Taken(events, hwm, true)), st.offset)
      ensures ContinuesAfterLast(disk, events, hwm)
    {
      ReachedByLast(events, hwm);
      StoredBeforeRecovery(disk, Taken(events, hwm, true));
      AfterOffset(EventsWritten(disk, false, Taken(events, hwm, true)), st.offset, "");
    }

    /** The offset of the message that took a recovering load to the watermark; 0 is not persisted. */
    ghost predicate ContinuesAfterLast(before: seq<Write>, events: seq<ConsumerEvent>, hwm: int)
      reads this, st
    {
      var taken := Taken(events, hwm, true);
      taken != [] && var last := taken[|taken| - 1].offset; Position() == if last != 0 then last else Stored(before)
    }

    /** The part of load after the consumer is there. */
    method LoadAndMark(events: seq<ConsumerEvent>, hwm: int, stopAfterCatchup: bool, contextDone: bool, marked: bool,
                       ghost hist: seq<Record>, ghost stored: int, ghost oldest: int) returns (end: LoadEnd)
      requires st.Valid() && (stopAfterCatchup ==> !st.recovered)
      modifies this`state, st`db, st`disk, st`offset, st`recovered
      ensures st.Valid() && end == HowItEnds(events, hwm, stopAfterCatchup)
      ensures var taken := Taken(events, hwm, stopAfterCatchup);
              var loaded := EventsWritten(old(st.disk), old(st.recovered), taken);
              var marks := stopAfterCatchup && end != StillWaiting && (!contextDone || marked);
              && st.offset == LastOffset(old(st.offset), taken) && st.recovered == (old(st.recovered) || marks)
              && st.disk == if marks then PutNonZero(loaded, st.offset) else loaded
      ensures state == if !stopAfterCatchup then Running else if end == StillWaiting then Recovering
                       else if contextDone then Preparing else Running
      ensures end == ReachedHwm ==> stopAfterCatchup && (!contextDone ==> st.recovered && state == Running)
      ensures end == ReachedHwm && GoodStart(hist, old(st.disk), stored, oldest) &&
              IsFeed(hist, StartOffset(stored, oldest), Messages(events))
              ==> Upto(hist, st.disk, hwm - 1)
      ensures end == ReachedHwm && !contextDone ==> ContinuesAfterLast(old(st.disk), events, hwm)
      ensures old(Covered(hist)) && (forall r | r in Messages(events) :: r in hist) ==> Covered(hist)
    {
      state := if stopAfterCatchup then Recovering else Running;
      var used;
      end, used := LoadMessages(events, hwm, stopAfterCatchup);
      ghost var loaded := st.disk;
      if stopAfterCatchup && end != StillWaiting {
        MarkRecovered(contextDone, marked);
      }
      if end == ReachedHwm && GoodStart(hist, old(st.disk), stored, oldest) &&
         IsFeed(hist, StartOffset(stored, oldest), Messages(events)) {
        LoadReaches(hist, old(st.disk), old(st.recovered), stored, oldest, hwm, events, used);
        UptoPutNonZero(hist, loaded, hwm - 1, st.offset);
      }
      if end == ReachedHwm && !contextDone {
        PositionAfterRecovery(old(st.disk), old(st.offset), events, hwm);
      }
      if old(Covered(hist)) && forall r | r in Messages(events) :: r in hist {
        MessagesPrefix(events, used);
        StaysCovered(hist, old(st.disk), old(st.offset), old(st.recovered), Messages(events[..used]));
      }
    }

    lemma StaysCovered(hist: seq<Record>, disk: seq<Write>, offset: int, recovered: bool, rs: seq<Record>)
      requires WriteAhead(hist, disk) && (offset != 0 ==> IsWritten(hist, disk, offset))
      requires forall r | r in rs :: r in hist
      ensures var loaded, last := EventsWritten(disk, recovered, rs), LastOffset(offset, rs);
              && WriteAhead(hist, loaded) && (last != 0 ==> IsWritten(hist, loaded, last))
              && WriteAhead(hist, PutNonZero(loaded, last))
              && (last != 0 ==> IsWritten(hist, PutNonZero(loaded, last), last))
    {
      var loaded := EventsWritten(disk, recovered, rs);
      EventsAreWritten(hist, disk, recovered, rs);
      if rs == [] && offset != 0 {
        IsWrittenGrows(hist, disk, hist, loaded, offset);
      }
      PutIsWritten(hist, loaded, LastOffset(offset, rs));
    }

    /** The part of load that finds nothing to load. */
    method MarkUpToDate(contextDone: bool, marked: bool, ghost hist: seq<Record>, ghost stored: int, ghost oldest: int,
                        ghost hwm: int)
      requires st.Valid() && !st.recovered && LoadFrom(stored, oldest, hwm) >= hwm
      modifies this`state, st`db, st`disk, st`recovered
      ensures st.Valid() && st.recovered == (!contextDone || marked)
      ensures state == if contextDone then Preparing else Running
      ensures st.disk == if st.recovered then PutNonZero(old(st.disk), st.offset) else old(st.disk)
      ensures GoodStart(hist, old(st.disk), stored, oldest) ==> Upto(hist, st.disk, hwm - 1)
      ensures old(Covered(hist)) ==> Covered(hist)
    {
      MarkRecovered(contextDone, marked);
      if GoodStart(hist, old(st.disk), stored, oldest) {
        UptoStart(hist, old(st.disk), stored, oldest);
        UptoPutNonZero(hist, old(st.disk), hwm - 1, st.offset);
      }
      if old(Covered(hist)) {
        PutIsWritten(hist, old(st.disk), st.offset);
      }
    }

    /**
      load.  `hist` is the history of the log when it returns; what the consumer delivered is a feed of it.
      If the local table was good up to the stored offset, then a recovering load that returns without
      having been cancelled or cut off leaves it good up to the watermark.
     */
    method Load(stopAfterCatchup: bool, oldest: Result<int>, newest: Result<int>,
                consumer: Result<seq<ConsumerEvent>>, consumerFailed: bool, contextDone: bool, marked: bool,
                ghost hist: seq<Record>)
      returns (r: LoadResult)
      requires st.Valid() && Readable() && (stopAfterCatchup ==> !st.recovered)
      modifies this`state, st`db, st`disk, st`offset, st`recovered
      ensures st.Valid()
      // when it fails, and when there is nothing to do
      ensures r == Failed <==>
                || oldest.Err? || newest.Err? || (old(Position()) > 0 && newest.value == 0)
                || (!(stopAfterCatchup && LoadFrom(old(Position()), oldest.value, newest.value) >= newest.value)
                    && (consumer.Err? || consumerFailed))
      ensures r == UpToDate <==>
                && oldest.Ok? && newest.Ok? && !(old(Position()) > 0 && newest.value == 0)
                && stopAfterCatchup && LoadFrom(old(Position()), oldest.value, newest.value) >= newest.value
      ensures r == Failed ==>
              (st.disk == old(st.disk) && st.offset == old(st.offset)) || (consumer.Ok? && consumerFailed)
      ensures r == Failed ==> state == Connecting || (consumer.Ok? && consumerFailed)
      ensures r == UpToDate ==> state == if contextDone then Preparing else Running
      ensures r.Loaded? ==>
                state == if !stopAfterCatchup then Running else if r.end == StillWaiting then Recovering
                         else if contextDone then Preparing else Running
      // what it stores
      ensures r == UpToDate ==>
                && st.offset == old(st.offset) && st.recovered == (!contextDone || marked)
                && st.disk == if st.recovered then PutNonZero(old(st.disk), st.offset) else old(st.disk)
      ensures r.Loaded? ==>
                && oldest.Ok? && newest.Ok? && consumer.Ok?
                && r.end == HowItEnds(consumer.value, newest.value, stopAfterCatchup)
                && var taken := Taken(consumer.value, newest.value, stopAfterCatchup);
                   var loaded := EventsWritten(old(st.disk), old(st.recovered), taken);
                   var marks := stopAfterCatchup && r.end != StillWaiting && (!contextDone || marked);
                   && st.offset == LastOffset(old(st.offset), taken) && st.recovered == (old(st.recovered) || marks)
                   && st.disk == if marks then PutNonZero(loaded, st.offset) else loaded
      ensures (r == Loaded(ReachedHwm) || r == UpToDate) && !contextDone ==> st.recovered && state == Running
      // what that means
      ensures r == Loaded(ReachedHwm) && !contextDone ==>
                ContinuesAfterLast(old(st.disk), consumer.value, newest.value)
      ensures (r == Loaded(ReachedHwm) || r == UpToDate) &&
              GoodStart(hist, old(st.disk), old(Position()), oldest.value) &&
              IsFed(hist, old(Position()), oldest.value, consumer)
              ==> Upto(hist, st.disk, newest.value - 1)
      ensures old(Covered(hist)) && (consumer.Ok? ==> forall m | m in Messages(consumer.value) :: m in hist)
              ==> Covered(hist)
    {
      state := Connecting;
      var offset := st.GetOffset(OFFSET_NOT_STORED);
      if offset.Err? {
        return Failed;
      }
      var stored := offset.value;
      var found := FindOffsetToLoad(stored, oldest, newest);
      if found.Err? {
        return Failed;
      }
      var (start, hwm) := found.value;
      if stored > 0 && hwm == 0 {
        return Failed;
      }
      if stored >= hwm {
        start := hwm;
      }
      if stopAfterCatchup && start >= hwm {
        MarkUpToDate(contextDone, marked, hist, stored, oldest.value, hwm);
        return UpToDate;
      }
      if consumer.Err? {
        return Failed;
      }
      var end := LoadAndMark(consumer.value, hwm, stopAfterCatchup, contextDone, marked, hist, stored, oldest.value);
      if consumerFailed {
        return Failed;
      }
      r := Loaded(end);
    }

    /** storeNewestOffset: an ack only ever moves a stored offset forward, and never sets the first one. */
    method StoreNewestOffset(o: int)
      requires st.Valid() && Readable()
      modifies st`db, st`disk, st`offset
      ensures st.Valid()
      ensures old(Position()) != OFFSET_NOT_STORED && old(Position()) <= o ==>
                st.offset == o && st.disk == if st.recovered then old(st.disk) + [Offset(o)] else old(st.disk)
      ensures old(Position()) != OFFSET_NOT_STORED && old(Position()) <= o && (st.recovered || o != 0) ==>
                Position() == o
      ensures !(old(Position()) != OFFSET_NOT_STORED && old(Position()) <= o) ==>
                st.disk == old(st.disk) && st.offset == old(st.offset)
    {
      var before := st.GetOffset(OFFSET_NOT_STORED);
      if before.Err? {
        return;
      }
      if before.value != OFFSET_NOT_STORED && before.value <= o {
        AfterOffset(st.disk, o, "");
        st.SetOffset(o);
      }
    }
  }
}
