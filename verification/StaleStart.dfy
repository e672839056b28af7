/**
  The one interleaving in which a table loses an update: the ticker persists an old offset over the
  one MarkRecovered put, a load restarts there, and the ticker then persists the memory offset while
  the table is back at an older value.  A start is safe exactly when it is Harmless.
 */
module StaleStart {
  import opened Common
  import opened TableLog
  import opened LocalStore
  import opened Recovery
  import opened RecoverySafety
  import opened RecoveryTheorems

  ghost function End(run: seq<State>): State
    requires run != []
  {
    run[|run| - 1]
  }

  lemma Extend(run: seq<State>, events: seq<Event>, e: Event) returns (run': seq<State>, events': seq<Event>)
    requires IsRun(run, events) && Enabled(End(run), e)
    ensures IsRun(run', events') && run' == run + [Apply(End(run), e)] && events' == events + [e]
    ensures End(run') == Apply(End(run), e)
  {
    run', events' := run + [Apply(End(run), e)], events + [e];
    forall i | 0 <= i < |events'|
      ensures Enabled(run'[i], events'[i]) && run'[i + 1] == Apply(run'[i], events'[i])
    {
      if i == |events| {
        assert run'[i] == End(run) && events'[i] == e;
      }
    }
  }

  /**
    A run that goes on after the events `before`: later loads start only while the storage is
    recovering, and without `ownWrites` the table is only fed from its log.
   */
  ghost predicate Continues(run: seq<State>, events: seq<Event>, before: seq<Event>, ownWrites: bool) {
    && IsRun(run, events) && before <= events
    && forall i | |before| <= i < |events| ::
         (events[i].StartLoad? ==> !run[i].recovered) && (events[i].LocalWrite? ==> ownWrites)
  }

  lemma GoOn(run: seq<State>, events: seq<Event>, before: seq<Event>, e: Event)
    returns (run': seq<State>, events': seq<Event>)
    requires Continues(run, events, before, false) && Enabled(End(run), e)
    requires !e.LocalWrite? && (e.StartLoad? ==> !End(run).recovered)
    ensures Continues(run', events', before, false) && End(run') == Apply(End(run), e)
  {
    run', events' := Extend(run, events, e);
    forall i | |before| <= i < |events'|
      ensures (events'[i].StartLoad? ==> !run'[i].recovered) && !events'[i].LocalWrite?
    {
      if i < |events| {
        assert run'[i] == run[i] && events'[i] == events[i];
      }
    }
  }

  lemma {:induction false} NextRecordExists(log: seq<Record>, pos: int, r: Record) returns (q: Record)
    requires r in log && pos <= r.offset
    ensures IsNextRecord(log, log, pos, q)
  {
    var front, last := log[..|log| - 1], log[|log| - 1];
    assert log == front + [last];
    if p :| p in front && pos <= p.offset {
      q := NextRecordExists(front, pos, p);
      if pos <= last.offset < q.offset {
        q := last;
      }
    } else {
      q := last;
    }
  }

  /** A load in progress can be driven to the point where `r` is written and its offset is not. */
  lemma DriveTo(run: seq<State>, events: seq<Event>, before: seq<Event>, r: Record)
    returns (run': seq<State>, events': seq<Event>)
    requires Continues(run, events, before, false)
    requires End(run).pc.Loading? && End(run).recovered && End(run).pc.pos <= r.offset && r in End(run).log
    requires End(run).avail == End(run).log && Increasing(End(run).log)
    ensures Continues(run', events', before, false)
    ensures var s, s' := End(run), End(run');
            && s'.hist == s.hist && s'.log == s.log && s'.next == s.next && s'.ticker == s.ticker
            && s'.pc.Updated? && s'.disk != [] && s'.disk[|s'.disk| - 1] == Data(PutOf(r))
    decreases r.offset - End(run).pc.pos
  {
    var q := NextRecordExists(End(run).log, End(run).pc.pos, r);
    run', events' := GoOn(run, events, before, Deliver(q));
    if q != r {
      run', events' := GoOn(run', events', before, SetMem);
      run', events' := GoOn(run', events', before, PutOffset);
      run', events' := DriveTo(run', events', before, r);
    }
  }

  /** The ticker can come to hold the highest offset that is held anywhere. */
  lemma TickerTakesTop(run: seq<State>, events: seq<Event>, before: seq<Event>)
    returns (run': seq<State>, events': seq<Event>)
    requires Continues(run, events, before, false) && End(run).pc.Loading?
    requires OFFSET_NOT_STORED <= Stored(End(run).disk) < Top(End(run))
    ensures Continues(run', events', before, false)
    ensures var s, s' := End(run), End(run');
            && s'.hist == s.hist && s'.log == s.log && s'.avail == s.avail && s'.next == s.next
            && s'.pc == s.pc && s'.recovered == s.recovered && s'.ticker == Some(Top(s))
  {
    run', events' := run, events;
    if End(run).ticker != Some(Top(End(run))) {
      if End(run).ticker.Some? {
        run', events' := GoOn(run', events', before, TickPut);
      }
      run', events' := GoOn(run', events', before, TickLoad);
    }
  }

  /** The table holds another value of `k` than the log, although the log has not changed `k` after `top`. */
  ghost predicate Stale(hist: seq<Record>, disk: seq<Write>, k: Key, top: int) {
    && Last(hist, k).Some? && Last(hist, k).value.offset <= top
    && Entry(disk, k) != LogValue(hist, k) && !IsOwn(hist, disk, k)
  }

  /** What makes a start harmful, and where the load then begins. */
  lemma HarmfulRecord(s: State, oldest: int) returns (r: Record)
    requires Inv(s) && s.pc.Ready? && s.recovered && IsLogStart(s, oldest) && !Harmless(s)
    ensures r in s.log && r in s.hist && Superseded(s.hist, r, Top(s))
    ensures OFFSET_NOT_STORED <= Stored(s.disk) < Top(s)
    ensures Enabled(s, StartLoad(oldest))
    ensures AfterStart(s, oldest).Loading? && AfterStart(s, oldest).pos <= r.offset
  {
    StoredIsMember(s.disk);
    r :| r in s.log && GetOffset(s) < r.offset && Superseded(s.hist, r, Top(s));
    LastIsNewest(s.hist, r.key, r);
  }

  lemma {:induction false} BecomesStale(hist: seq<Record>, disk: seq<Write>, r: Record, top: int)
    requires r in hist && Superseded(hist, r, top) && disk != [] && disk[|disk| - 1] == Data(PutOf(r))
    ensures Stored(disk + [Offset(top)]) == top && Stale(hist, disk + [Offset(top)], r.key, top)
  {
    AfterOffset(disk, top, r.key);
    assert LastWrite(disk, r.key) == Some(PutOf(r));
    assert InLog(hist, r.id);
  }

  /** The load goes back to `r`, the ticker vouches for what came after it, and the process dies. */
  lemma LoseUpdate(run: seq<State>, events: seq<Event>, before: seq<Event>, r: Record)
    returns (run': seq<State>, events': seq<Event>)
    requires Continues(run, events, before, false)
    requires var s := End(run);
             && s.pc.Loading? && s.recovered && s.pc.pos <= r.offset && r in s.log && r in s.hist
             && s.avail == s.log && Increasing(s.log)
             && Superseded(s.hist, r, Top(s)) && OFFSET_NOT_STORED <= Stored(s.disk) < Top(s)
    ensures Continues(run', events', before, false)
    ensures var s, s' := End(run), End(run');
            && s'.hist == s.hist && s'.log == s.log && s'.next == s.next && s'.pc == Down
            && Stored(s'.disk) == Top(s) && Stale(s'.hist, s'.disk, r.key, Top(s))
  {
    var s := End(run);
    run', events' := TickerTakesTop(run, events, before);
    run', events' := DriveTo(run', events', before, r);
    var disk := End(run').disk;
    run', events' := GoOn(run', events', before, TickPut);
    BecomesStale(s.hist, disk, r, Top(s));
    disk := End(run').disk;
    assert disk[..|disk|] == disk;
    run', events' := GoOn(run', events', before, Crash(|disk|));
  }

  // ---------- the recovery after it ----------

  lemma StaleAfterData(hist: seq<Record>, disk: seq<Write>, k: Key, top: int, q: Record)
    requires Stale(hist, disk, k, top) && Increasing(hist) && q in hist && top < q.offset
    ensures Stale(hist, disk + [Data(PutOf(q))], k, top)
  {
    AfterData(disk, PutOf(q), k);
    if q.key == k {
      LastIsNewest(hist, k, q);
    }
  }

  lemma StaleAfterAppend(hist: seq<Record>, disk: seq<Write>, k: Key, top: int, q: Record)
    requires Stale(hist, disk, k, top) && q.key != k
    ensures Stale(hist + [q], disk, k, top)
  {
    assert (hist + [q])[..|hist|] == hist;
    InLogGrows(hist, q);
  }

  /** A recovery in progress past `top` can be driven to its watermark, if the log goes that far. */
  lemma DriveHome(run: seq<State>, events: seq<Event>, before: seq<Event>, k: Key, top: int, q: Record)
    returns (run': seq<State>, events': seq<Event>)
    requires Continues(run, events, before, false)
    requires var s := End(run);
             && LogOk(s) && s.avail == s.log && s.pc.Loading? && !s.recovered && top < s.pc.pos <= q.offset
             && q in s.log && s.pc.hwm - 1 <= q.offset && Stale(s.hist, s.disk, k, top)
    ensures Continues(run', events', before, false)
    ensures var s, s' := End(run), End(run');
            && s'.hist == s.hist && s'.found == s.found && s'.pc == Marking(Caught(s.pc.hwm))
            && Stale(s'.hist, s'.disk, k, top)
    decreases q.offset - End(run).pc.pos
  {
    var s := End(run);
    var r := NextRecordExists(s.log, s.pc.pos, q);
    StaleAfterData(s.hist, s.disk, k, top, r);
    LogStep(s, Deliver(r));
    run', events' := GoOn(run, events, before, Deliver(r));
    LogStep(End(run'), SetMem);
    run', events' := GoOn(run', events', before, SetMem);
    if End(run').pc.Loading? {
      run', events' := DriveHome(run', events', before, k, top, q);
    }
  }

  /** MarkRecovered changes no table entry. */
  lemma FinishMarking(run: seq<State>, events: seq<Event>, before: seq<Event>, k: Key, top: int)
    returns (run': seq<State>, events': seq<Event>)
    requires Continues(run, events, before, false)
    requires End(run).pc.Marking? && Stale(End(run).hist, End(run).disk, k, top)
    ensures Continues(run', events', before, false)
    ensures var s, s' := End(run), End(run');
            && s'.hist == s.hist && s'.found == s.found && s'.pc == Ready(s.pc.caught)
            && Stale(s'.hist, s'.disk, k, top)
  {
    AfterOffset(End(run).disk, End(run).mem, k);
    run', events' := GoOn(run, events, before, MarkLoad);
    run', events' := GoOn(run', events', before, MarkPut);
    run', events' := GoOn(run', events', before, MarkClose);
  }

  /** Opened again, the table is loaded from after the offset the ticker left, past the lost update. */
  lemma RestartPast(run: seq<State>, events: seq<Event>, before: seq<Event>, oldest: int, k: Key, top: int)
    returns (run': seq<State>, events': seq<Event>)
    requires Continues(run, events, before, false)
    requires var s := End(run);
             && LogOk(s) && s.pc == Down && IsLogStart(s, oldest) && Stored(s.disk) == top && 0 < top < s.next
             && Stale(s.hist, s.disk, k, top)
    ensures Continues(run', events', before, false)
    ensures var s, s' := End(run), End(run');
            && LogOk(s') && s'.hist == s.hist && s'.next == s.next && s'.disk == s.disk == s'.found
            && !s'.recovered && s'.avail == s'.log
            && (s'.pc == Marking(Caught(s.next)) || (s'.pc.Loading? && s'.pc.hwm == s.next && top < s'.pc.pos))
  {
    LogStep(End(run), Open);
    run', events' := GoOn(run, events, before, Open);
    LogStep(End(run'), StartLoad(oldest));
    run', events' := GoOn(run', events', before, StartLoad(oldest));
  }

  /** If there is anything to load, a record of another key can be appended to load up to. */
  lemma LoadHome(run: seq<State>, events: seq<Event>, before: seq<Event>, k: Key, top: int)
    returns (run': seq<State>, events': seq<Event>)
    requires Continues(run, events, before, false)
    requires var s := End(run);
             && LogOk(s) && s.avail == s.log && s.pc.Loading? && !s.recovered && top < s.pc.pos
             && s.pc.hwm <= s.next && Stale(s.hist, s.disk, k, top)
    ensures Continues(run', events', before, false)
    ensures var s, s' := End(run), End(run');
            s'.found == s.found && s'.pc == Marking(Caught(s.pc.hwm)) && Stale(s'.hist, s'.disk, k, top)
            && (forall id: nat | InLog(s.hist, id) :: InLog(s'.hist, id))
  {
    var s := End(run);
    var e := Append(s.next, if k == "a" then "b" else "a", None);
    var q := Record(s.next, e.key, None, s.nextId);
    LogStep(s, e);
    StaleAfterAppend(s.hist, s.disk, k, top, q);
    InLogGrows(s.hist, q);
    run', events' := GoOn(run, events, before, e);
    run', events' := DriveHome(run', events', before, k, top, q);
  }

  /** A recovery that ended at its watermark and is wrong about `k`, which the log did not change after it. */
  ghost predicate IsWrong(s: State, k: Key) {
    && s.pc.Ready? && s.pc.caught.Caught? && Settled(s, s.pc.caught.hwm, k)
    && !Unlogged(s, k) && Entry(s.disk, k) != LogValue(s.hist, k)
  }

  lemma WrongAtEnd(s: State, k: Key, top: int, hwm: int)
    requires s.pc == Ready(Caught(hwm)) && top < hwm && Stale(s.hist, s.disk, k, top)
    requires !Unlogged(s, k)
    ensures IsWrong(s, k)
  {
  }

  /** A crash that left a stale value under a later offset is followed by a recovery that keeps it. */
  lemma RecoverWrongly(run: seq<State>, events: seq<Event>, before: seq<Event>, oldest: int, k: Key, top: int)
    returns (run': seq<State>, events': seq<Event>)
    requires Continues(run, events, before, false)
    requires var s := End(run);
             && LogOk(s) && s.pc == Down && IsLogStart(s, oldest) && Stored(s.disk) == top && 0 < top < s.next
             && Stale(s.hist, s.disk, k, top)
    ensures Continues(run', events', before, false) && IsWrong(End(run'), k)
  {
    var s := End(run);
    run', events' := RestartPast(run, events, before, oldest, k, top);
    if End(run').pc.Loading? {
      run', events' := LoadHome(run', events', before, k, top);
    }
    run', events' := FinishMarking(run', events', before, k, top);
    WrongAtEnd(End(run'), k, top, s.next);
  }

  /** From every harmful start there is a way to a recovery that is wrong. */
  lemma HarmfulStartMisleads(run: seq<State>, events: seq<Event>, oldest: int)
    returns (run': seq<State>, events': seq<Event>, k: Key)
    requires IsRun(run, events) && Inv(End(run))
    requires End(run).pc.Ready? && End(run).recovered && IsLogStart(End(run), oldest) && !Harmless(End(run))
    ensures Continues(run', events', events + [StartLoad(oldest)], false) && IsWrong(End(run'), k)
  {
    var s, before := End(run), events + [StartLoad(oldest)];
    var r := HarmfulRecord(s, oldest);
    k := r.key;
    run', events' := Extend(run, events, StartLoad(oldest));
    run', events' := LoseUpdate(run', events', before, r);
    LogRun(run', events', |run'| - 1);
    run', events' := RecoverWrongly(run', events', before, oldest, k, Top(s));
  }

  lemma {:induction false} RunsAgree(run: seq<State>, events: seq<Event>, run': seq<State>, events': seq<Event>, n: nat)
    requires IsRun(run, events) && IsRun(run', events') && events <= events' && n < |run|
    ensures run'[n] == run[n]
  {
    if n > 0 {
      RunsAgree(run, events, run', events', n - 1);
      assert events'[n - 1] == events[n - 1];
    }
  }

  /** A load that reached its watermark left every settled key right, unless it was written here and never logged. */
  ghost predicate IsExact(s: State) {
    forall k :: !IsWrong(s, k)
  }

  /** The same without the exception. */
  ghost predicate IsLogExact(s: State) {
    s.pc.Ready? && s.pc.caught.Caught? ==>
      forall k | Settled(s, s.pc.caught.hwm, k) :: Entry(s.disk, k) == LogValue(s.hist, k)
  }

  lemma StaysHarmless(run: seq<State>, events: seq<Event>, oldest: int, run': seq<State>, events': seq<Event>,
                      own: bool)
    requires IsRun(run, events) && HarmlessStarts(run, events) && Harmless(End(run))
    requires Continues(run', events', events + [StartLoad(oldest)], own)
    ensures HarmlessStarts(run', events')
  {
    forall i | 0 <= i < |events'| && events'[i].StartLoad? && run'[i].recovered ensures Harmless(run'[i]) {
      assert i <= |events|;
      assert forall j | 0 <= j < |events| :: (events + [StartLoad(oldest)])[j] == events'[j];
      RunsAgree(run, events, run', events', i);
    }
  }

  /**
    A load of a recovered storage may start exactly when it is harmless: then, and only then, every
    recovery that can follow, through any crashes and any interleaving, is exact.
   */
  lemma StartIsSafeExactlyWhenHarmless(run: seq<State>, events: seq<Event>, oldest: int)
    requires IsRun(run, events) && HarmlessStarts(run, events)
    requires End(run).pc.Ready? && End(run).recovered && IsLogStart(End(run), oldest)
    ensures Harmless(End(run)) <==>
            forall run', events' | Continues(run', events', events + [StartLoad(oldest)], true) :: IsExact(End(run'))
  {
    if Harmless(End(run)) {
      forall run', events' | Continues(run', events', events + [StartLoad(oldest)], true) ensures IsExact(End(run')) {
        StaysHarmless(run, events, oldest, run', events', true);
        forall k ensures !IsWrong(End(run'), k) {
          if IsWrong(End(run'), k) {
            RecoveryIsExact(run', events', |run'| - 1, k);
          }
        }
      }
    } else {
      InvRun(run, events, |run| - 1);
      var run', events', k := HarmfulStartMisleads(run, events, oldest);
      assert Continues(run', events', events + [StartLoad(oldest)], true) && !IsExact(End(run'));
    }
  }

  /** For a table that is only fed from its log, no exception is left on either side. */
  lemma LogFedStartIsSafeExactlyWhenHarmless(run: seq<State>, events: seq<Event>, oldest: int)
    requires IsPlainRun(run, events)
    requires End(run).pc.Ready? && End(run).recovered && IsLogStart(End(run), oldest)
    ensures Harmless(End(run)) <==>
            forall run', events' | Continues(run', events', events + [StartLoad(oldest)], false) ::
              IsLogExact(End(run'))
  {
    if Harmless(End(run)) {
      forall run', events' | Continues(run', events', events + [StartLoad(oldest)], false)
        ensures IsLogExact(End(run'))
      {
        LogFedStaysExact(run, events, oldest, run', events');
      }
    } else {
      InvRun(run, events, |run| - 1);
      var run', events', k := HarmfulStartMisleads(run, events, oldest);
      assert Continues(run', events', events + [StartLoad(oldest)], false) && !IsLogExact(End(run'));
    }
  }

  lemma LogFedStaysExact(run: seq<State>, events: seq<Event>, oldest: int, run': seq<State>, events': seq<Event>)
    requires IsPlainRun(run, events) && Harmless(End(run))
    requires Continues(run', events', events + [StartLoad(oldest)], false)
    ensures IsLogExact(End(run'))
  {
    var n := |events'|;
    StaysHarmless(run, events, oldest, run', events', false);
    forall i | 0 <= i < n ensures !events'[i].LocalWrite? {
      if i < |events| {
        assert events'[i] == (events + [StartLoad(oldest)])[i] == events[i];
      } else if i == |events| {
        assert events'[i] == (events + [StartLoad(oldest)])[i];
      }
    }
    if run'[n].pc.Ready? && run'[n].pc.caught.Caught? {
      forall k | Settled(run'[n], run'[n].pc.caught.hwm, k) ensures Entry(run'[n].disk, k) ==
          LogValue(run'[n].hist, k) {
        LogFedRecoveryIsExact(run', events', n, k);
      }
    }
  }

  // ---------- a harmful start can be reached ----------

  /** A run that only reads the log and in which every load so far started harmlessly. */
  ghost predicate IsPlainRun(run: seq<State>, events: seq<Event>) {
    && IsRun(run, events) && HarmlessStarts(run, events)
    && forall i | 0 <= i < |events| :: !events[i].LocalWrite?
  }

  lemma ExtendPlain(run: seq<State>, events: seq<Event>, e: Event, s: State)
    returns (run': seq<State>, events': seq<Event>)
    requires IsPlainRun(run, events) && Enabled(End(run), e) && s == Apply(End(run), e)
    requires !e.LocalWrite? && (e.StartLoad? ==> !End(run).recovered)
    ensures IsPlainRun(run', events') && End(run') == s
  {
    run', events' := Extend(run, events, e);
    forall i | 0 <= i < |events'| && events'[i].StartLoad? && run'[i].recovered ensures Harmless(run'[i]) {
      if i < |events| {
        assert run'[i] == run[i] && events'[i] == events[i];
      }
    }
  }

  const J1 := Record(1, "j", Some("z"), 0)
  const K2 := Record(2, "k", Some("a"), 1)
  const K3 := Record(3, "k", Some("b"), 2)

  /** Three records in the log and nothing running. */
  const S3 := State([J1, K2, K3], 4, [J1, K2, K3], 3, [J1, K2, K3], [], 0, false, None, Down, [], [], {}, None)

  lemma ThreeRecords() returns (run: seq<State>, events: seq<Event>)
    ensures IsPlainRun(run, events) && End(run) == S3
  {
    run, events := [Initial], [];
    run, events := Extend(run, events, Append(1, "j", Some("z")));
    run, events := Extend(run, events, Append(2, "k", Some("a")));
    run, events := Extend(run, events, Append(3, "k", Some("b")));
  }

  /** Recovery has applied the first record, and the ticker holds its offset. */
  const S8 := S3.(disk := [Data(PutOf(J1))], mem := 1, ticker := Some(1), pc := Loading(2, 4))

  lemma TickDuringRecovery() returns (run: seq<State>, events: seq<Event>)
    ensures IsPlainRun(run, events) && End(run) == S8
  {
    run, events := ThreeRecords();
    run, events := ExtendPlain(run, events, Open, S3.(pc := Ready(NotCaught)));
    run, events := ExtendPlain(run, events, StartLoad(0), S3.(pc := Loading(0, 4)));
    run, events := ExtendPlain(run, events, Deliver(J1), S3.(disk := [Data(PutOf(J1))], pc := Updated(1, 4)));
    run, events := ExtendPlain(run, events, SetMem, S8.(ticker := None));
    run, events := ExtendPlain(run, events, TickLoad, S8);
  }

  const D3 := [Data(PutOf(J1)), Data(PutOf(K2)), Data(PutOf(K3))]

  lemma CaughtUp() returns (run: seq<State>, events: seq<Event>)
    ensures IsPlainRun(run, events) && End(run) == S8.(disk := D3, mem := 3, pc := Marking(Caught(4)))
  {
    run, events := TickDuringRecovery();
    run, events := ExtendPlain(run, events, Deliver(K2), S8.(disk := D3[..2], pc := Updated(2, 4)));
    run, events := ExtendPlain(run, events, SetMem, S8.(disk := D3[..2], mem := 2, pc := Loading(3, 4)));
    run, events := ExtendPlain(run, events, Deliver(K3), S8.(disk := D3, mem := 2, pc := Updated(3, 4)));
    run, events := ExtendPlain(run, events, SetMem, S8.(disk := D3, mem := 3, pc := Marking(Caught(4))));
  }

  /** MarkRecovered has persisted offset 3, and the ticker has put offset 1 over it. */
  const S16 := S3.(disk := D3 + [Offset(3), Offset(1)], mem := 3, recovered := true, pc := Ready(Caught(4)))

  /** One late tick suffices: the overwritten second record lies after the persisted offset again. */
  lemma HarmfulStartIsReachable() returns (run: seq<State>, events: seq<Event>)
    ensures IsPlainRun(run, events) && End(run) == S16
    ensures S16.pc.Ready? && S16.recovered && GetOffset(S16) == 1 && IsLogStart(S16, 0) && !Harmless(S16)
  {
    run, events := CaughtUp();
    run, events := ExtendPlain(run, events, MarkLoad, S8.(disk := D3, mem := 3, pc := MarkLoaded(3, Caught(4))));
    run, events := ExtendPlain(run, events, MarkPut,
                               S8.(disk := D3 + [Offset(3)], mem := 3, pc := MarkStored(Caught(4))));
    run, events := ExtendPlain(run, events, MarkClose, S16.(disk := D3 + [Offset(3)], ticker := Some(1)));
    assert D3 + [Offset(3), Offset(1)] == D3 + [Offset(3)] + [Offset(1)];
    run, events := ExtendPlain(run, events, TickPut, S16);
    AfterOffset(D3 + [Offset(3)], 1, "");
    assert Last([J1, K2, K3], "k") == Some(K3);
    assert K2 in S16.log && Superseded(S16.hist, K2, 3);
  }

  const D17 := D3 + [Offset(3), Offset(1)] + [Data(PutOf(K2))]

  /** The load has gone back to the second value, and the ticker holds the offset of the third. */
  lemma BackAtSecond() returns (run: seq<State>, events: seq<Event>)
    ensures IsRun(run, events) && End(run) == S16.(disk := D17, ticker := Some(3), pc := Updated(2, 4))
  {
    run, events := HarmfulStartIsReachable();
    run, events := Extend(run, events, StartLoad(0));
    assert End(run) == S16.(pc := Loading(2, 4));
    run, events := Extend(run, events, TickLoad);
    assert End(run) == S16.(ticker := Some(3), pc := Loading(2, 4));
    run, events := Extend(run, events, Deliver(K2));
  }

  /** The table is at the second value again, under the offset of the third, when the process dies. */
  lemma LostUpdate() returns (run: seq<State>, events: seq<Event>)
    ensures IsRun(run, events)
    ensures End(run) == S16.(disk := D17 + [Offset(3)], pc := Down)
  {
    run, events := BackAtSecond();
    run, events := Extend(run, events, TickPut);
    assert End(run) == S16.(disk := D17 + [Offset(3)], pc := Updated(2, 4));
    run, events := Extend(run, events, Crash(|End(run).disk|));
  }

  /**
    So recovery after a crash is not always exact: here a table that is only fed from its log reports
    being caught up to watermark 4 and holds "a" for a key whose last record says "b".
   */
  lemma RecoveryCanBeWrong() returns (run: seq<State>, events: seq<Event>)
    ensures IsRun(run, events)
    ensures var s := End(run);
            && s.pc == Ready(Caught(4)) && Settled(s, 4, "k")
            && Entry(s.disk, "k") == Some("a") && LogValue(s.hist, "k") == Some("b")
  {
    run, events := LostUpdate();
    var disk := D17 + [Offset(3)];
    AfterOffset(D17, 3, "k");
    AfterData(D3 + [Offset(3), Offset(1)], PutOf(K2), "k");
    assert Stored(disk) == 3 && Entry(disk, "k") == Some("a");
    assert Last([J1, K2, K3], "k") == Some(K3);
    run, events := Extend(run, events, Open);
    run, events := Extend(run, events, StartLoad(0));
    assert End(run).pc == Marking(Caught(4));
    run, events := Extend(run, events, MarkLoad);
    run, events := Extend(run, events, MarkPut);
    run, events := Extend(run, events, MarkClose);
  }
}
