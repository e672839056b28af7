/**
  The table of PartitionTable is the one of the Recovery machine: its steps are the machine's, and what
  the machine's consumer delivers is what its Load relies on.
 */
module TableRuns {
  import opened Common
  import opened TableLog
  import opened LocalStore
  import opened Recovery
  import opened RecoverySafety
  import opened PartitionTable

  ghost function Run3(s: State, r: Record): State
    requires Enabled(s, Deliver(r))
  {
    var stored := Apply(Apply(s, Deliver(r)), SetMem);
    if stored.pc.MustPut? then Apply(stored, PutOffset) else stored
  }

  /** storeEvent does to disk and memory what the machine's steps for one record do together. */
  lemma StoreEventIsTheMachineStep(s: State, r: Record)
    requires Enabled(s, Deliver(r))
    ensures var s' := Run3(s, r);
            && s'.disk == EventWritten(s.disk, s.recovered, r) && s'.mem == r.offset
            && (s'.pc == Loading(r.offset + 1, s.pc.hwm) ||
                (s'.pc == Marking(Caught(s.pc.hwm)) && !s.recovered && r.offset >= s.pc.hwm - 1))
  {
    assert s.disk + [Data(PutOf(r))] + [] == s.disk + [Data(PutOf(r))];
  }

  /** The records delivered by the events from `i` on and before `j`. */
  ghost function Delivered(events: seq<Event>, i: nat, j: nat): seq<Record>
    requires i <= j <= |events|
  {
    if i == j then []
    else if events[j - 1].Deliver? then Delivered(events, i, j - 1) + [events[j - 1].record]
    else Delivered(events, i, j - 1)
  }

  lemma FeedOnAppend(hist: seq<Record>, start: int, rs: seq<Record>, r: Record)
    requires IsFeed(hist, start, rs) && EndOf(start, rs) < r.offset
    ensures IsFeed(hist + [r], start, rs)
  {
    assert (hist + [r])[..|hist|] == hist;
  }

  lemma FeedOnDeliver(hist: seq<Record>, log: seq<Record>, avail: seq<Record>, start: int, pos: int,
                      rs: seq<Record>, r: Record)
    requires Increasing(hist) && IsCompaction(hist, log) && IsFeed(hist, start, rs)
    requires r in hist && IsNextRecord(log, avail, pos, r)
    requires EndOf(start, rs) == pos - 1 && start <= pos
    ensures IsFeed(hist, start, rs + [r])
  {
    assert rs != [] ==> forall q | q in rs :: q.offset <= rs[|rs| - 1].offset;
    forall i, j | 0 <= i < j < |rs + [r]| ensures (rs + [r])[i].offset < (rs + [r])[j].offset {
      assert rs[i] in rs;
    }
    forall k | Last(hist, k).Some? && start <= Last(hist, k).value.offset <= r.offset
      ensures Last(hist, k).value in rs + [r]
    {
      LastIsMember(hist, k);
      if pos <= Last(hist, k).value.offset {
        SameOffsetSameRecord(hist, Last(hist, k).value, r);
      }
    }
  }

  /** A load that started at `start` and has delivered `rs` so far. */
  ghost predicate HasDelivered(s: State, start: int, rs: seq<Record>) {
    IsLoading(s.pc) && IsFeed(s.hist, start, rs) && EndOf(start, rs) == NextOffset(s.pc) - 1
  }

  /** The load in progress at step `i` has, by step `m`, delivered a feed. */
  ghost predicate IsFedBy(run: seq<State>, events: seq<Event>, i: nat, m: nat)
    requires i <= m <= |events| < |run| && run[i].pc.Loading?
  {
    HasDelivered(run[m], run[i].pc.pos, Delivered(events, i, m))
  }

  lemma FeedNext(run: seq<State>, events: seq<Event>, i: nat, m: nat)
    requires IsRun(run, events) && i < m <= |events| && run[i].pc.Loading?
    requires IsFedBy(run, events, i, m - 1) && IsLoading(run[m].pc)
    ensures IsFedBy(run, events, i, m)
  {
    var rs := Delivered(events, i, m - 1);
    FeedStepOfRun(run, events, m - 1, run[i].pc.pos, rs);
    assert Delivered(events, i, m) == if events[m - 1].Deliver? then rs + [events[m - 1].record] else rs;
  }

  /**
    What a consumer delivers in any run of the machine, with the log growing and being compacted
    meanwhile, is a feed of the log's history: the premise Load was proved under.
   */
  lemma {:induction false} DeliveriesAreAFeed(run: seq<State>, events: seq<Event>, i: nat, j: nat)
    requires IsRun(run, events) && i <= j < |run|
    requires run[i].pc.Loading? && forall m | i <= m <= j :: IsLoading(run[m].pc)
    ensures IsFedBy(run, events, i, j)
  {
    if i == j {
      FeedStarts(run, events, i);
    } else {
      DeliveriesAreAFeed(run, events, i, j - 1);
      FeedNext(run, events, i, j);
    }
  }

  lemma FeedStarts(run: seq<State>, events: seq<Event>, i: nat)
    requires i <= |events| < |run| && run[i].pc.Loading?
    ensures IsFedBy(run, events, i, i)
  {
    assert Delivered(events, i, i) == [];
  }

  lemma FeedStepOfRun(run: seq<State>, events: seq<Event>, n: nat, start: int, rs: seq<Record>)
    requires IsRun(run, events) && n < |events|
    requires HasDelivered(run[n], start, rs) && IsLoading(run[n + 1].pc)
    ensures HasDelivered(run[n + 1], start, if events[n].Deliver? then rs + [events[n].record] else rs)
  {
    LogRun(run, events, n);
    FeedStep(run[n], events[n], start, rs, run[n + 1]);
  }

  lemma FeedStep(s: State, e: Event, start: int, rs: seq<Record>, s': State)
    requires LogOk(s) && HasDelivered(s, start, rs)
    requires Enabled(s, e) && s' == Apply(s, e) && IsLoading(s'.pc)
    ensures HasDelivered(s', start, if e.Deliver? then rs + [e.record] else rs)
  {
    if e.Append? {
      FeedOnAppend(s.hist, start, rs, Record(e.offset, e.key, e.value, s.nextId));
    } else if e.Deliver? {
      assert rs != [] ==> rs[|rs| - 1] in rs;
      FeedOnDeliver(s.hist, s.log, s.avail, start, s.pc.pos, rs, e.record);
    } else {
      assert s'.hist == s.hist && NextOffset(s'.pc) == NextOffset(s.pc);
    }
  }

  // ---------- the machine's steps and the objects' methods ----------

  /** The three steps of marking do what MarkRecovered of the storage does. */
  lemma MarkingIsMarkRecovered(s: State)
    requires s.pc.Marking?
    ensures Apply(Apply(Apply(s, MarkLoad), MarkPut), MarkClose) ==
            s.(disk := PutNonZero(s.disk, s.mem), recovered := true, pc := Ready(s.pc.caught))
  {
  }

  /** The two steps of closing do what Close does. */
  lemma ClosingIsClose(s: State)
    requires Enabled(s, CloseLoad)
    ensures Apply(Apply(s, CloseLoad), ClosePut) == s.(disk := PutNonZero(s.disk, s.mem), pc := Down)
  {
  }

  /** A tick without anything in between persists the offset in memory. */
  lemma TickIsTickPut(s: State)
    requires IsRunning(s) && s.ticker.None?
    ensures Enabled(s, TickLoad) <==> s.mem != 0
    ensures s.mem != 0 ==> Apply(Apply(s, TickLoad), TickPut) == s.(disk := PutNonZero(s.disk, s.mem))
  {
  }

  /** An ack, with its put if there is one. */
  ghost function Acked(s: State, r: Record): State
    requires Enabled(s, Ack(r))
  {
    var s' := Apply(s, Ack(r));
    if s'.acking.Some? then Apply(s', AckPut) else s'
  }

  /** The ack of a SetValue does what StoreNewestOffset does; that of a Delete stores nothing. */
  lemma AckIsStoreNewestOffset(s: State, r: Record)
    requires Enabled(s, Ack(r))
    ensures var s' := Acked(s, r);
            && s'.unacked == s.unacked - {r} && s'.acking.None?
            && if r.value.Some? && GetOffset(s) != OFFSET_NOT_STORED && GetOffset(s) <= r.offset
               then s'.mem == r.offset && s'.disk == s.disk + [Offset(r.offset)]
               else s'.mem == s.mem && s'.disk == s.disk
  {
  }

  /** A load of the machine starts where Load starts, and finds nothing to do when Load does. */
  lemma StartIsLoad(s: State, oldest: int)
    requires Enabled(s, StartLoad(oldest))
    ensures var stored, hwm, s' := GetOffset(s), s.next, Apply(s, StartLoad(oldest));
            && s'.avail == s.log && s'.disk == s.disk
            && (stored > 0 && hwm == 0 ==> s'.pc == Ready(NotCaught))
            && (!(stored > 0 && hwm == 0) && !s.recovered && LoadFrom(stored, oldest, hwm) >= hwm ==>
                  s'.pc == Marking(Caught(hwm)))
            && (!(stored > 0 && hwm == 0) && !(!s.recovered && LoadFrom(stored, oldest, hwm) >= hwm) ==>
                  s'.pc == Loading(LoadFrom(stored, oldest, hwm), hwm))
  {
  }

  // ---------- own writes ----------

  /** Once the table is served, a callback's write goes to it at once, to the log in its turn, and serving goes on. */
  lemma WriteGoesThrough(s: State, k: Key, v: Option<Bytes>, o: nat)
    requires (s.pc.Serving? || Enabled(s, Serve)) && s.queue == [] && k != OFFSET_KEY && s.next <= o
    ensures var r := Record(o, k, v, s.nextId);
            var serving := if s.pc.Serving? then s else Apply(s, Serve);
            var s' := Apply(Apply(Apply(serving, LocalWrite(k, v)), Emit), BrokerAppend(o));
            && s'.pc.Serving? && s'.disk == s.disk + [Data(PutOf(r))] && s'.queue == []
            && s'.hist == s.hist + [r] && s'.log == s.log + [r] && s'.unacked == s.unacked + {r}
            && s'.next == o + 1 && s'.nextId == s.nextId + 1
  {
  }

  /** What callbacks wrote between two points of a run. */
  ghost function Written(events: seq<Event>, i: nat, j: nat): seq<(Key, Option<Bytes>)>
    requires i <= j <= |events|
  {
    if i == j then []
    else Written(events, i, j - 1) +
         if events[j - 1].LocalWrite? then [(events[j - 1].key, events[j - 1].value)] else []
  }

  /** How much of it the producer is done with. */
  ghost function Gone(events: seq<Event>, i: nat, j: nat): nat
    requires i <= j <= |events|
  {
    if i == j then 0
    else Gone(events, i, j - 1) + if events[j - 1].BrokerAppend? || events[j - 1].BrokerFail? then 1 else 0
  }

  /** What is still on its way. */
  ghost function OnItsWay(s: State): seq<(Key, Option<Bytes>)> {
    seq(|s.queue|, i requires 0 <= i < |s.queue| => (s.queue[i].key, s.queue[i].value)) +
    if s.pc.Wrote? then [(s.pc.put.key, s.pc.put.value)] else []
  }

  lemma OnItsWayNext(s: State, e: Event)
    requires Enabled(s, e) && !e.Open? && !e.Crash?
    ensures OnItsWay(Apply(s, e)) ==
            if e.LocalWrite? then OnItsWay(s) + [(e.key, e.value)]
            else if e.BrokerAppend? || e.BrokerFail? then OnItsWay(s)[1..]
            else OnItsWay(s)
  {
  }

  lemma StillConserved(s: State, e: Event, written: seq<(Key, Option<Bytes>)>, gone: nat)
    requires Enabled(s, e) && !e.Open? && !e.Crash? && gone <= |written| && OnItsWay(s) == written[gone..]
    ensures var written' := written + if e.LocalWrite? then [(e.key, e.value)] else [];
            var gone' := gone + if e.BrokerAppend? || e.BrokerFail? then 1 else 0;
            gone' <= |written'| && OnItsWay(Apply(s, e)) == written'[gone'..]
  {
    OnItsWayNext(s, e);
  }

  /** While the process lives, what its callbacks wrote is in the log, failed, or on its way, in order. */
  lemma {:induction false} OwnWritesAreConserved(run: seq<State>, events: seq<Event>, i: nat, j: nat)
    requires IsRun(run, events) && i <= j <= |events| && OnItsWay(run[i]) == []
    requires forall k | i <= k < j :: !events[k].Open? && !events[k].Crash?
    ensures Gone(events, i, j) <= |Written(events, i, j)|
    ensures OnItsWay(run[j]) == Written(events, i, j)[Gone(events, i, j)..]
  {
    if i < j {
      OwnWritesAreConserved(run, events, i, j - 1);
      StillConserved(run[j - 1], events[j - 1], Written(events, i, j - 1), Gone(events, i, j - 1));
    }
  }

  /** The records the broker appends for it are those writes, first come first served. */
  lemma OwnWritesReachTheLogInOrder(run: seq<State>, events: seq<Event>, i: nat, j: nat)
    requires IsRun(run, events) && i <= j < |events| && OnItsWay(run[i]) == [] && events[j].BrokerAppend?
    requires forall k | i <= k < j :: !events[k].Open? && !events[k].Crash?
    ensures Gone(events, i, j) < |Written(events, i, j)|
    ensures var (key, value) := Written(events, i, j)[Gone(events, i, j)];
            exists r :: run[j + 1].hist == run[j].hist + [r] && run[j + 1].log == run[j].log + [r] &&
                        r.offset == events[j].offset && r.key == key && r.value == value
  {
    OwnWritesAreConserved(run, events, i, j);
    var s := run[j];
    assert OnItsWay(s)[0] == (s.queue[0].key, s.queue[0].value);
    var r := Record(events[j].offset, s.queue[0].key, s.queue[0].value, s.queue[0].id);
    assert run[j + 1].hist == s.hist + [r];
  }
}
