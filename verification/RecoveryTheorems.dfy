/** What a table partition guarantees over every run of the Recovery machine, and where it does not. */
module RecoveryTheorems {
  import opened Common
  import opened TableLog
  import opened LocalStore
  import opened Recovery
  import opened RecoverySafety

  /** The last write to `k` that Open found on disk never reached the log. */
  ghost predicate Unlogged(s: State, k: Key) {
    IsOwn(s.hist, s.found, k)
  }

  // ---------- what a load adds to the disk ----------

  /** Until the processor serves the table, everything added since Open came from the log. */
  ghost predicate FoundOk(s: State) {
    !s.pc.Down? && !IsServing(s) && !s.pc.Closing? ==>
      && s.found <= s.disk
      && forall p | Data(p) in s.disk[|s.found|..] :: InLog(s.hist, p.id)
  }

  lemma InLogGrows(hist: seq<Record>, r: Record)
    ensures forall id: nat | InLog(hist, id) :: InLog(hist + [r], id)
  {
    forall id: nat | InLog(hist, id) ensures InLog(hist + [r], id) {
      var q :| q in hist && q.id == id;
      assert q in hist + [r];
    }
  }

  lemma FoundStep(s: State, e: Event)
    requires FoundOk(s) && LogOk(s) && Enabled(s, e)
    ensures FoundOk(Apply(s, e))
  {
    var s' := Apply(s, e);
    if e.Append? {
      InLogGrows(s.hist, Record(e.offset, e.key, e.value, s.nextId));
    } else if e.Deliver? {
      assert s'.disk[|s.found|..] == s.disk[|s.found|..] + [Data(PutOf(e.record))];
      assert InLog(s.hist, e.record.id);
    } else if PutBy(s, e).Some? && !s.pc.Down? && !IsServing(s) && !s.pc.Closing? {
      assert s'.disk == s.disk + [Offset(PutBy(s, e).value)];
      assert s'.disk[|s.found|..] == s.disk[|s.found|..] + [Offset(PutBy(s, e).value)];
    }
  }

  lemma {:induction false} FoundRun(run: seq<State>, events: seq<Event>, n: nat)
    requires IsRun(run, events) && n < |run|
    ensures FoundOk(run[n])
  {
    if n > 0 {
      FoundRun(run, events, n - 1);
      LogRun(run, events, n - 1);
      FoundStep(run[n - 1], events[n - 1]);
    }
  }

  /** A write that is not in the log must have been on disk already. */
  lemma {:induction false} LastWriteAfterFound(found: seq<Write>, more: seq<Write>, k: Key)
    ensures LastWrite(found + more, k) == if LastWrite(more, k).Some? then LastWrite(more, k) else LastWrite(found, k)
  {
    if more == [] {
      assert found + more == found;
    } else {
      LastWriteAfterFound(found, more[..|more| - 1], k);
      assert (found + more)[..|found + more| - 1] == found + more[..|more| - 1];
    }
  }

  // ---------- recovery ----------

  /** A key the load had to bring up to date: nothing in the log at or after the watermark it read. */
  ghost predicate Settled(s: State, hwm: int, k: Key) {
    Last(s.hist, k).None? || Last(s.hist, k).value.offset < hwm
  }

  /**
    Whatever happened before -- growth, compaction, any number of crashes at any point, callbacks
    writing the table, acks in any order -- a load that reached its high watermark leaves every
    settled key at the value the log ends on.  The one exception is a value that was on disk already
    and never reached the log.
   */
  lemma RecoveryIsExact(run: seq<State>, events: seq<Event>, n: nat, k: Key)
    requires IsRun(run, events) && HarmlessStarts(run, events) && n < |run|
    requires run[n].pc.Ready? && run[n].pc.caught.Caught? && Settled(run[n], run[n].pc.caught.hwm, k)
    ensures !Unlogged(run[n], k) ==> Entry(run[n].disk, k) == LogValue(run[n].hist, k)
    ensures Entry(run[n].disk, k) != LogValue(run[n].hist, k) ==> Entry(run[n].disk, k) == Entry(run[n].found, k)
  {
    var s := run[n];
    InvRun(run, events, n);
    FoundRun(run, events, n);
    assert Good(s.hist, s.disk, k);
    LastWriteIsMember(s.disk, k);
    LastIsMember(s.hist, k);
    LastWriteAfterFound(s.found, s.disk[|s.found|..], k);
    assert s.disk == s.found + s.disk[|s.found|..];
    LastWriteIsMember(s.disk[|s.found|..], k);
  }

  /** Nothing was ever written to the table but what came from the log. */
  ghost predicate LogFed(s: State) {
    forall p | Data(p) in s.disk :: InLog(s.hist, p.id)
  }

  lemma LogFedStep(s: State, e: Event)
    requires LogFed(s) && LogOk(s) && Enabled(s, e) && !e.LocalWrite?
    ensures LogFed(Apply(s, e))
  {
    var s' := Apply(s, e);
    if e.Append? {
      InLogGrows(s.hist, Record(e.offset, e.key, e.value, s.nextId));
    } else if e.BrokerAppend? {
      InLogGrows(s.hist, Record(e.offset, s.queue[0].key, s.queue[0].value, s.queue[0].id));
    } else if e.Deliver? {
      assert InLog(s.hist, e.record.id);
    }
    assert !e.Deliver? ==> forall p | Data(p) in s'.disk :: Data(p) in s.disk;
  }

  lemma {:induction false} LogFedRun(run: seq<State>, events: seq<Event>, n: nat)
    requires IsRun(run, events) && n < |run|
    requires forall i | 0 <= i < n :: !events[i].LocalWrite?
    ensures LogFed(run[n])
  {
    if n > 0 {
      LogFedRun(run, events, n - 1);
      LogRun(run, events, n - 1);
      LogFedStep(run[n - 1], events[n - 1]);
    }
  }

  /** A view, a join or a standby table, which only ever reads its log: no exception is left. */
  lemma LogFedRecoveryIsExact(run: seq<State>, events: seq<Event>, n: nat, k: Key)
    requires IsRun(run, events) && HarmlessStarts(run, events) && n < |run|
    requires forall i | 0 <= i < n :: !events[i].LocalWrite?
    requires run[n].pc.Ready? && run[n].pc.caught.Caught? && Settled(run[n], run[n].pc.caught.hwm, k)
    ensures Entry(run[n].disk, k) == LogValue(run[n].hist, k)
  {
    LogFedRun(run, events, n);
    FoundRun(run, events, n);
    LastWriteIsMember(run[n].found, k);
    RecoveryIsExact(run, events, n, k);
  }

  /**
    Whatever prefix of the local writes a crash leaves, its persisted offset has not passed a log
    record that the prefix lacks: every key that has not changed after that offset has the log's
    value, or one of our own that never reached the log.
   */
  lemma CrashNeverSkips(run: seq<State>, events: seq<Event>, n: nat, kept: nat, r: Record)
    requires IsRun(run, events) && HarmlessStarts(run, events) && n < |run| && kept <= |run[n].disk|
    requires Last(run[n].hist, r.key) == Some(r) && r.offset <= Stored(run[n].disk[..kept])
    ensures Entry(run[n].disk[..kept], r.key) == r.value || IsOwn(run[n].hist, run[n].disk[..kept], r.key)
  {
    var s := run[n];
    InvRun(run, events, n);
    CrashSafePrefix(s.hist, s.disk, kept);
    assert Good(s.hist, s.disk[..kept], r.key);
  }

  // ---------- the persisted offset, in every interleaving ----------

  /** The update of the record at offset `x` is on disk. */
  ghost predicate IsWritten(hist: seq<Record>, disk: seq<Write>, x: int) {
    exists r :: r in hist && r.offset == x && Data(PutOf(r)) in disk
  }

  /** Every persisted offset comes after the update it stands for. */
  ghost predicate WriteAhead(hist: seq<Record>, disk: seq<Write>) {
    disk == [] || (
      && WriteAhead(hist, disk[..|disk| - 1])
      && (disk[|disk| - 1].Offset? ==> IsWritten(hist, disk[..|disk| - 1], disk[|disk| - 1].offset)))
  }

  /** The offsets held somewhere between being read and being persisted. */
  ghost predicate IsHeld(s: State, x: int) {
    && s.pc != Down
    && (|| (x == s.mem && x != 0)
        || s.ticker == Some(x)
        || s.acking == Some(x)
        || (x != 0 && (s.pc.MarkLoaded? || s.pc.Closing?) && x == s.pc.offset)
        || ((s.pc.Updated? || s.pc.MustPut?) && x == s.pc.offset))
  }

  ghost predicate WriteAheadOk(s: State) {
    && WriteAhead(s.hist, s.disk)
    && (forall x | IsHeld(s, x) :: IsWritten(s.hist, s.disk, x))
    && (s.pc != Down ==> forall p | p in Pending(s) :: Data(p) in s.disk)
    && (s.pc != Down ==> forall r | r in s.unacked :: r in s.hist && Data(PutOf(r)) in s.disk)
  }

  lemma IsWrittenGrows(hist: seq<Record>, disk: seq<Write>, hist': seq<Record>, disk': seq<Write>, x: int)
    requires IsWritten(hist, disk, x)
    requires (forall r | r in hist :: r in hist') && (forall w | w in disk :: w in disk')
    ensures IsWritten(hist', disk', x)
  {
    var r :| r in hist && r.offset == x && Data(PutOf(r)) in disk;
    assert r in hist' && Data(PutOf(r)) in disk';
  }

  lemma {:induction false} WriteAheadGrows(hist: seq<Record>, disk: seq<Write>, r: Record)
    requires WriteAhead(hist, disk)
    ensures WriteAhead(hist + [r], disk)
  {
    if disk != [] {
      var front := disk[..|disk| - 1];
      WriteAheadGrows(hist, front, r);
      if disk[|disk| - 1].Offset? {
        IsWrittenGrows(hist, front, hist + [r], front, disk[|disk| - 1].offset);
      }
    }
  }

  lemma {:induction false} WriteAheadPrefix(hist: seq<Record>, disk: seq<Write>, n: nat)
    requires WriteAhead(hist, disk) && n <= |disk|
    ensures WriteAhead(hist, disk[..n])
  {
    if n < |disk| {
      WriteAheadPrefix(hist, disk[..|disk| - 1], n);
      assert disk[..|disk| - 1][..n] == disk[..n];
    } else {
      assert disk[..n] == disk;
    }
  }

  lemma WriteAheadDisk(s: State, e: Event)
    requires WriteAheadOk(s) && Enabled(s, e)
    ensures WriteAhead(Apply(s, e).hist, Apply(s, e).disk)
  {
    var s' := Apply(s, e);
    if e.Append? {
      WriteAheadGrows(s.hist, s.disk, Record(e.offset, e.key, e.value, s.nextId));
    } else if e.BrokerAppend? {
      WriteAheadGrows(s.hist, s.disk, Record(e.offset, s.queue[0].key, s.queue[0].value, s.queue[0].id));
    } else if e.Crash? {
      WriteAheadPrefix(s.hist, s.disk, e.kept);
    } else if PutBy(s, e).Some? {
      assert IsHeld(s, PutBy(s, e).value);
      assert s'.disk == s.disk + [Offset(PutBy(s, e).value)];
      assert s'.disk[..|s.disk|] == s.disk;
    } else if s'.disk != s.disk {
      assert s'.disk[..|s.disk|] == s.disk;
    }
  }

  /** A step may start holding an offset only if its update is already on disk. */
  lemma WriteAheadHeld(s: State, e: Event, x: int)
    requires WriteAheadOk(s) && Enabled(s, e) && IsHeld(Apply(s, e), x) && forall r | r in s.avail :: r in s.hist
    ensures IsWritten(Apply(s, e).hist, Apply(s, e).disk, x)
  {
    var s' := Apply(s, e);
    if IsHeld(s, x) {
      IsWrittenGrows(s.hist, s.disk, s'.hist, s'.disk, x);
    } else if e.Deliver? {
      assert e.record in s'.hist && Data(PutOf(e.record)) in s'.disk;
    } else {
      assert e.Ack? && x == e.acked.offset;
    }
  }

  lemma WriteAheadOwn(s: State, e: Event)
    requires WriteAheadOk(s) && Enabled(s, e) && Apply(s, e).pc != Down
    ensures var s' := Apply(s, e);
            && (forall p | p in Pending(s') :: Data(p) in s'.disk)
            && (forall r | r in s'.unacked :: r in s'.hist && Data(PutOf(r)) in s'.disk)
  {
    var s' := Apply(s, e);
    if e.BrokerAppend? {
      assert Pending(s)[0] == s.queue[0] && Pending(s') == Pending(s)[1..];
    } else if e.BrokerFail? {
      assert Pending(s') == Pending(s)[1..];
    } else if e.LocalWrite? {
      assert Pending(s') == Pending(s) + [Put(e.key, e.value, s.nextId)];
    } else if !e.Open? {
      assert Pending(s') == Pending(s);
    }
  }

  lemma {:induction false} WriteAheadRun(run: seq<State>, events: seq<Event>, n: nat)
    requires IsRun(run, events) && n < |run|
    ensures WriteAheadOk(run[n])
  {
    if n > 0 {
      var s, e := run[n - 1], events[n - 1];
      WriteAheadRun(run, events, n - 1);
      LogRun(run, events, n - 1);
      WriteAheadDisk(s, e);
      forall x | IsHeld(run[n], x) ensures IsWritten(run[n].hist, run[n].disk, x) {
        WriteAheadHeld(s, e, x);
      }
      if run[n].pc != Down {
        WriteAheadOwn(s, e);
      }
    }
  }

  /**
    Without any assumption on the interleaving, the ticker's included: whatever prefix of the local
    writes a crash leaves, an offset it persists is the offset of a log record whose update is in it.
   */
  lemma PersistedOffsetsAreWritten(run: seq<State>, events: seq<Event>, n: nat, kept: nat)
    requires IsRun(run, events) && n < |run| && kept <= |run[n].disk|
    ensures var disk := run[n].disk[..kept];
            Stored(disk) == OFFSET_NOT_STORED || IsWritten(run[n].hist, disk, Stored(disk))
  {
    WriteAheadRun(run, events, n);
    WriteAheadPrefix(run[n].hist, run[n].disk, kept);
    StoredIsWritten(run[n].hist, run[n].disk[..kept]);
  }

  lemma {:induction false} StoredIsWritten(hist: seq<Record>, disk: seq<Write>)
    requires WriteAhead(hist, disk)
    ensures Stored(disk) == OFFSET_NOT_STORED || IsWritten(hist, disk, Stored(disk))
  {
    if disk != [] {
      var front := disk[..|disk| - 1];
      StoredIsWritten(hist, front);
      if IsWritten(hist, front, Stored(disk)) {
        IsWrittenGrows(hist, front, hist, disk, Stored(disk));
      }
    }
  }
}
