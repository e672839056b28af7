/**
  Why a restart never loses a table update: the invariants of the Recovery machine and what they
  give over whole runs.
 */
module RecoverySafety {
  import opened Common
  import opened TableLog
  import opened LocalStore
  import opened Recovery

  /** The write `id` has reached the log. */
  ghost predicate InLog(hist: seq<Record>, id: nat) {
    exists r :: r in hist && r.id == id
  }

  /** The value the log ends on for `k`. */
  ghost function LogValue(hist: seq<Record>, k: Key): Option<Bytes> {
    match Last(hist, k)
    case None => None
    case Some(r) => r.value
  }

  /** The table's last write to `k` is one of our own that never reached the log. */
  ghost predicate IsOwn(hist: seq<Record>, disk: seq<Write>, k: Key) {
    LastWrite(disk, k).Some? && !InLog(hist, LastWrite(disk, k).value.id)
  }

  /** The table holds the log's value of `k`, or one of our own that never reached the log. */
  ghost predicate Good(hist: seq<Record>, disk: seq<Write>, k: Key) {
    IsOwn(hist, disk, k) || Entry(disk, k) == LogValue(hist, k)
  }

  /** Every key that has not changed in the log after `upto` is good. */
  ghost predicate Upto(hist: seq<Record>, disk: seq<Write>, upto: int) {
    forall k | Last(hist, k).None? || Last(hist, k).value.offset <= upto :: Good(hist, disk, k)
  }

  /** After any crash: every prefix of the local writes is good up to the offset it persists. */
  ghost predicate CrashSafe(hist: seq<Record>, disk: seq<Write>) {
    && Upto(hist, disk, Stored(disk))
    && (disk == [] || CrashSafe(hist, disk[..|disk| - 1]))
  }

  // ---------- how the parts of the invariant move ----------

  lemma {:induction false} CrashSafePrefix(hist: seq<Record>, disk: seq<Write>, n: nat)
    requires CrashSafe(hist, disk) && n <= |disk|
    ensures CrashSafe(hist, disk[..n])
  {
    if n < |disk| {
      CrashSafePrefix(hist, disk[..|disk| - 1], n);
      assert disk[..|disk| - 1][..n] == disk[..n];
    } else {
      assert disk[..n] == disk;
    }
  }

  lemma CrashSafeExtend(hist: seq<Record>, disk: seq<Write>, w: Write)
    requires CrashSafe(hist, disk) && Upto(hist, disk + [w], Stored(disk + [w]))
    ensures CrashSafe(hist, disk + [w])
  {
    assert (disk + [w])[..|disk|] == disk;
  }

  /** No local write shares an id with `r` without being that very write. */
  ghost predicate Matches(disk: seq<Write>, r: Record) {
    forall p | Data(p) in disk && p.id == r.id :: p == PutOf(r)
  }

  lemma UptoAppend(hist: seq<Record>, disk: seq<Write>, upto: int, r: Record)
    requires Upto(hist, disk, upto) && upto < r.offset && Matches(disk, r)
    ensures Upto(hist + [r], disk, upto)
  {
    forall k | Last(hist + [r], k).None? || Last(hist + [r], k).value.offset <= upto
      ensures Good(hist + [r], disk, k)
    {
      assert (hist + [r])[..|hist|] == hist;
      assert Good(hist, disk, k);
      LastWriteIsMember(disk, k);
    }
  }

  ghost predicate OffsetsBelow(disk: seq<Write>, bound: int) {
    forall n | Offset(n) in disk :: 0 <= n < bound
  }

  lemma {:induction false} CrashSafeAppend(hist: seq<Record>, disk: seq<Write>, r: Record)
    requires CrashSafe(hist, disk) && OffsetsBelow(disk, r.offset) && Matches(disk, r)
    ensures CrashSafe(hist + [r], disk)
  {
    StoredIsMember(disk);
    UptoAppend(hist, disk, Stored(disk), r);
    if disk != [] {
      CrashSafeAppend(hist, disk[..|disk| - 1], r);
    }
  }

  lemma UptoPut(hist: seq<Record>, disk: seq<Write>, upto: int, n: int)
    requires Upto(hist, disk, upto)
    ensures Upto(hist, disk + [Offset(n)], upto)
  {
    forall k | Last(hist, k).None? || Last(hist, k).value.offset <= upto
      ensures Good(hist, disk + [Offset(n)], k)
    {
      assert Good(hist, disk, k);
      AfterOffset(disk, n, k);
    }
  }

  lemma CrashSafePut(hist: seq<Record>, disk: seq<Write>, n: int)
    requires CrashSafe(hist, disk) && Upto(hist, disk, n)
    ensures CrashSafe(hist, disk + [Offset(n)])
  {
    UptoPut(hist, disk, n, n);
    AfterOffset(disk, n, "");
    CrashSafeExtend(hist, disk, Offset(n));
  }

  /** Replaying `r` extends the good range to it, if no key had its last record in between. */
  lemma UptoNext(hist: seq<Record>, disk: seq<Write>, pos: int, r: Record)
    requires Increasing(hist) && r in hist && Upto(hist, disk, pos - 1)
    requires forall k | Last(hist, k).Some? && pos <= Last(hist, k).value.offset ::
               r.offset <= Last(hist, k).value.offset
    ensures Upto(hist, disk + [Data(PutOf(r))], r.offset)
  {
    forall k | Last(hist, k).None? || Last(hist, k).value.offset <= r.offset
      ensures Good(hist, disk + [Data(PutOf(r))], k)
    {
      AfterData(disk, PutOf(r), k);
      LastIsMember(hist, k);
      if k == r.key {
        LastIsNewest(hist, k, r);
        SameOffsetSameRecord(hist, Last(hist, k).value, r);
      } else {
        assert Last(hist, k).None? || Last(hist, k).value.offset != r.offset;
        assert Good(hist, disk, k);
      }
    }
  }

  /** The next record of a compacted log is such a record. */
  lemma UptoDeliver(hist: seq<Record>, log: seq<Record>, avail: seq<Record>, disk: seq<Write>, pos: int, r: Record)
    requires Increasing(hist) && IsCompaction(hist, log) && r in hist && IsNextRecord(log, avail, pos, r)
    requires Upto(hist, disk, pos - 1)
    ensures Upto(hist, disk + [Data(PutOf(r))], r.offset)
  {
    UptoNext(hist, disk, pos, r);
  }

  /** The same write does not disturb what is good up to `upto`, unless it was overwritten by then. */
  lemma UptoCalmDeliver(hist: seq<Record>, disk: seq<Write>, upto: int, r: Record)
    requires Increasing(hist) && r in hist && !Superseded(hist, r, upto) && Upto(hist, disk, upto)
    ensures Upto(hist, disk + [Data(PutOf(r))], upto)
  {
    forall k | Last(hist, k).None? || Last(hist, k).value.offset <= upto
      ensures Good(hist, disk + [Data(PutOf(r))], k)
    {
      AfterData(disk, PutOf(r), k);
      assert Good(hist, disk, k);
      if k == r.key {
        LastIsNewest(hist, k, r);
      }
    }
  }

  /** A write of our own is good wherever the log stands, until it is appended. */
  lemma UptoLocalWrite(hist: seq<Record>, disk: seq<Write>, upto: int, p: Put)
    requires Upto(hist, disk, upto) && !InLog(hist, p.id)
    ensures Upto(hist, disk + [Data(p)], upto)
  {
    forall k | Last(hist, k).None? || Last(hist, k).value.offset <= upto
      ensures Good(hist, disk + [Data(p)], k)
    {
      AfterData(disk, p, k);
      assert Good(hist, disk, k);
    }
  }

  // ---------- the invariant ----------

  /** Own writes that are in the table but not yet in the log. */
  ghost function Pending(s: State): seq<Put> {
    if s.pc.Wrote? then s.queue + [s.pc.put] else s.queue
  }

  ghost predicate BrokerOk(hist: seq<Record>, log: seq<Record>, avail: seq<Record>, next: nat, nextId: nat) {
    && Increasing(hist)
    && IsCompaction(hist, log)
    && (forall r | r in avail :: r in hist)
    && (forall r | r in hist :: r.offset < next && r.id < nextId)
    && (forall r, q | r in hist && q in hist && r.id == q.id :: r == q)
  }

  ghost predicate QueueOk(hist: seq<Record>, pending: seq<Put>, nextId: nat) {
    && (forall p | p in pending :: p.id < nextId && !InLog(hist, p.id))
    && (forall i, j | 0 <= i < j < |pending| :: pending[i].id < pending[j].id)
  }

  ghost predicate AcksOk(hist: seq<Record>, unacked: set<Record>) {
    forall r | r in unacked :: r in hist
  }

  /** Equal ids mean the same write, on disk, in the log and on the way between them. */
  ghost predicate DiskOk(hist: seq<Record>, disk: seq<Write>, pending: seq<Put>, next: nat, nextId: nat) {
    && (forall p | Data(p) in disk :: p.id < nextId)
    && (forall p, r | Data(p) in disk && r in hist && p.id == r.id :: p == PutOf(r))
    && (forall p, q | Data(p) in disk && q in pending && p.id == q.id :: p == q)
    && OffsetsBelow(disk, next)
  }

  /** An offset some goroutine holds and may still persist; 0 never is. */
  ghost predicate HolderOk(s: State, x: int) {
    x == 0 || (0 < x < s.next && Upto(s.hist, s.disk, x))
  }

  ghost predicate IsLoading(pc: Pc) { pc.Loading? || pc.Updated? || pc.MustPut? }

  /** How far into the log the owner has brought the table. */
  ghost function Reach(pc: Pc): int {
    match pc
    case Loading(pos, _) => pos - 1
    case Updated(o, _) => o
    case MustPut(o, _) => o
    case Ready(Caught(h)) => h - 1
    case Marking(Caught(h)) => h - 1
    case MarkLoaded(_, Caught(h)) => h - 1
    case MarkStored(Caught(h)) => h - 1
    case _ => -1
  }

  /** Before recovery memory is ahead of whatever else could be persisted. */
  ghost predicate Early(s: State) {
    && (s.mem != 0 ==> Stored(s.disk) <= s.mem)
    && (s.ticker.Some? ==> s.ticker.value <= s.mem)
    && (IsLoading(s.pc) ==> Top(s) <= Reach(s.pc))
  }

  /**
    The table is good up to `Reach` and up to anything that may be persisted; while loading, what is
    still to come overwrites nothing that such an offset vouches for.
   */
  ghost predicate LoaderOk(s: State) {
    && 0 <= s.mem && (s.ticker.Some? ==> 0 < s.ticker.value)
    && s.queue == [] && s.acking.None?
    && Top(s) < s.next && Upto(s.hist, s.disk, Top(s))
    && -1 <= Reach(s.pc) < s.next && Upto(s.hist, s.disk, Reach(s.pc))
    && (IsLoading(s.pc) ==> 0 <= s.pc.hwm <= s.next && Calm(s.hist, s.avail, Reach(s.pc), Top(s)))
    && (!s.recovered ==> Early(s))
    && (IsMarking(s.pc) ==> !s.recovered)
    && (s.pc.MarkLoaded? ==> s.pc.offset == s.mem)
    && (s.pc.MustPut? ==> s.recovered)
    && (s.pc.MustPut? || s.pc.Updated? ==> 0 <= s.pc.offset)
  }

  ghost predicate ClosingOk(s: State) {
    && s.pc.Closing?
    && HolderOk(s, s.pc.offset)
    && HolderOk(s, s.mem)
    && (s.ticker.Some? ==> s.ticker.value != 0 && HolderOk(s, s.ticker.value))
  }

  /** Serving: every key is good, and own writes wait for the log in the order they were made. */
  ghost predicate ServingOk(s: State) {
    && Upto(s.hist, s.disk, s.next)
    && 0 <= s.mem && (s.mem == 0 || s.mem < s.next)
    && (s.ticker.Some? ==> 0 < s.ticker.value < s.next)
    && (s.acking.Some? ==> 0 <= s.acking.value < s.next)
    && InOrder(s.hist, s.disk, Pending(s))
  }

  /** Waiting writes are newer than the log, and none is newer than the table. */
  ghost predicate InOrder(hist: seq<Record>, disk: seq<Write>, pending: seq<Put>) {
    && (forall r, p | r in hist && p in pending :: r.id < p.id)
    && (forall p | p in pending :: LastWrite(disk, p.key).Some? && p.id <= LastWrite(disk, p.key).value.id)
  }

  ghost predicate PcOk(s: State) {
    if s.pc.Down? then true
    else if IsServing(s) then ServingOk(s)
    else if s.pc.Closing? then ClosingOk(s)
    else LoaderOk(s)
  }

  /** The bookkeeping part of the invariant. */
  ghost predicate BooksOk(s: State) {
    && BrokerOk(s.hist, s.log, s.avail, s.next, s.nextId)
    && QueueOk(s.hist, Pending(s), s.nextId)
    && AcksOk(s.hist, s.unacked)
    && DiskOk(s.hist, s.disk, Pending(s), s.next, s.nextId)
  }

  ghost predicate Inv(s: State) {
    BooksOk(s) && CrashSafe(s.hist, s.disk) && PcOk(s)
  }

  // ---------- every step keeps it ----------

  lemma AppendKeepsBroker(hist: seq<Record>, log: seq<Record>, r: Record)
    requires Increasing(hist) && IsCompaction(hist, log) && forall q | q in hist :: q.offset < r.offset
    ensures Increasing(hist + [r]) && IsCompaction(hist + [r], log + [r])
  {
    forall k | Last(hist + [r], k).Some? ensures Last(hist + [r], k).value in log + [r] {
      assert (hist + [r])[..|hist|] == hist;
    }
    forall i, j | 0 <= i < j < |log + [r]| ensures (log + [r])[i].offset < (log + [r])[j].offset {
      assert log[i] in log;
    }
    forall i, j | 0 <= i < j < |hist + [r]| ensures (hist + [r])[i].offset < (hist + [r])[j].offset {
      assert hist[i] in hist;
    }
  }

  /** A fresh record, ours or another writer's. */
  lemma BrokerOnRecord(hist: seq<Record>, log: seq<Record>, avail: seq<Record>, next: nat, nextId: nat,
                       r: Record, nextId': nat)
    requires BrokerOk(hist, log, avail, next, nextId) && next <= r.offset && !InLog(hist, r.id)
    requires nextId <= nextId' && r.id < nextId'
    ensures BrokerOk(hist + [r], log + [r], avail + [r], r.offset + 1, nextId')
  {
    AppendKeepsBroker(hist, log, r);
  }

  lemma QueueOnRecord(hist: seq<Record>, pending: seq<Put>, nextId: nat, r: Record, nextId': nat)
    requires QueueOk(hist, pending, nextId) && nextId <= nextId' && forall p | p in pending :: p.id != r.id
    ensures QueueOk(hist + [r], pending, nextId')
  {
  }

  lemma QueueOnWrite(hist: seq<Record>, pending: seq<Put>, p: Put)
    requires QueueOk(hist, pending, p.id) && forall r | r in hist :: r.id < p.id
    ensures QueueOk(hist, pending + [p], p.id + 1)
  {
  }

  lemma QueueOnLess(hist: seq<Record>, pending: seq<Put>, nextId: nat, lo: nat, hi: nat)
    requires QueueOk(hist, pending, nextId) && lo <= hi <= |pending|
    ensures QueueOk(hist, pending[lo..hi], nextId)
  {
  }

  lemma DiskOnData(hist: seq<Record>, disk: seq<Write>, pending: seq<Put>, next: nat, nextId: nat, p: Put)
    requires DiskOk(hist, disk, pending, next, nextId) && p.id < nextId
    requires forall r | r in hist && r.id == p.id :: p == PutOf(r)
    requires forall q | q in pending && q.id == p.id :: p == q
    ensures DiskOk(hist, disk + [Data(p)], pending, next, nextId)
  {
  }

  lemma DiskOnWrite(hist: seq<Record>, disk: seq<Write>, pending: seq<Put>, next: nat, p: Put)
    requires DiskOk(hist, disk, pending, next, p.id)
    requires forall r | r in hist :: r.id < p.id
    requires forall q | q in pending :: q.id < p.id
    ensures DiskOk(hist, disk + [Data(p)], pending + [p], next, p.id + 1)
  {
  }

  lemma DiskOnRecord(hist: seq<Record>, disk: seq<Write>, pending: seq<Put>, next: nat, nextId: nat, r: Record,
                     nextId': nat)
    requires DiskOk(hist, disk, pending, next, nextId) && Matches(disk, r) && next <= r.offset && nextId <= nextId'
    ensures DiskOk(hist + [r], disk, pending, r.offset + 1, nextId')
  {
  }

  lemma DiskOnPut(hist: seq<Record>, disk: seq<Write>, pending: seq<Put>, next: nat, nextId: nat, n: int)
    requires DiskOk(hist, disk, pending, next, nextId) && 0 <= n < next
    ensures DiskOk(hist, disk + [Offset(n)], pending, next, nextId)
  {
  }

  lemma DiskOnLess(hist: seq<Record>, disk: seq<Write>, pending: seq<Put>, next: nat, nextId: nat,
                   kept: nat, lo: nat, hi: nat)
    requires DiskOk(hist, disk, pending, next, nextId) && kept <= |disk| && lo <= hi <= |pending|
    ensures DiskOk(hist, disk[..kept], pending[lo..hi], next, nextId)
  {
  }

  lemma QueueOnShift(hist: seq<Record>, pending: seq<Put>, nextId: nat, r: Record)
    requires QueueOk(hist, pending, nextId) && pending != [] && PutOf(r) == pending[0]
    ensures QueueOk(hist + [r], pending[1..], nextId)
  {
    assert pending[1..] == pending[1..|pending|];
    QueueOnLess(hist, pending, nextId, 1, |pending|);
    QueueOnRecord(hist, pending[1..], nextId, r, nextId);
  }

  lemma DiskOnShift(hist: seq<Record>, disk: seq<Write>, pending: seq<Put>, next: nat, nextId: nat, r: Record)
    requires DiskOk(hist, disk, pending, next, nextId) && pending != [] && PutOf(r) == pending[0] && next <= r.offset
    ensures DiskOk(hist + [r], disk, pending[1..], r.offset + 1, nextId)
  {
    assert pending[1..] == pending[1..|pending|] && disk == disk[..|disk|];
    DiskOnLess(hist, disk, pending, next, nextId, |disk|, 1, |pending|);
    DiskOnRecord(hist, disk, pending[1..], next, nextId, r, nextId);
  }

  /** The offset an event persists, if it persists one. */
  ghost function PutBy(s: State, e: Event): Option<int>
    requires Enabled(s, e)
  {
    match e
    case PutOffset => Some(s.pc.offset)
    case MarkPut => if s.pc.offset != 0 then Some(s.pc.offset) else None
    case TickPut => Some(s.ticker.value)
    case AckPut => Some(s.acking.value)
    case ClosePut => if s.pc.offset != 0 then Some(s.pc.offset) else None
    case _ => None
  }

  /** Whatever is persisted, the table is good up to it at that moment. */
  lemma PutsAreCovered(s: State, e: Event)
    requires PcOk(s) && Enabled(s, e) && PutBy(s, e).Some?
    ensures 0 <= PutBy(s, e).value < s.next && Upto(s.hist, s.disk, PutBy(s, e).value)
    ensures Apply(s, e).disk == s.disk + [Offset(PutBy(s, e).value)]
  {
  }

  lemma BooksOnAppend(s: State, e: Event)
    requires BooksOk(s) && e.Append? && Enabled(s, e)
    ensures BooksOk(Apply(s, e))
  {
    var s' := Apply(s, e);
    var r := Record(e.offset, e.key, e.value, s.nextId);
    assert Pending(s') == Pending(s);
    BrokerOnRecord(s.hist, s.log, s.avail, s.next, s.nextId, r, s'.nextId);
    QueueOnRecord(s.hist, Pending(s), s.nextId, r, s'.nextId);
    DiskOnRecord(s.hist, s.disk, Pending(s), s.next, s.nextId, r, s'.nextId);
  }

  lemma BooksOnBrokerAppend(s: State, e: Event)
    requires BooksOk(s) && e.BrokerAppend? && Enabled(s, e)
    ensures BooksOk(Apply(s, e))
  {
    var s' := Apply(s, e);
    var pending, p := Pending(s), s.queue[0];
    var r := Record(e.offset, p.key, p.value, p.id);
    assert pending[0] == p && Pending(s') == pending[1..];
    BrokerOnRecord(s.hist, s.log, s.avail, s.next, s.nextId, r, s.nextId);
    QueueOnShift(s.hist, pending, s.nextId, r);
    DiskOnShift(s.hist, s.disk, pending, s.next, s.nextId, r);
  }

  lemma BooksOnDeliver(s: State, e: Event)
    requires BooksOk(s) && e.Deliver? && Enabled(s, e)
    ensures BooksOk(Apply(s, e))
  {
    assert Pending(Apply(s, e)) == Pending(s);
    assert InLog(s.hist, e.record.id);
    DiskOnData(s.hist, s.disk, Pending(s), s.next, s.nextId, PutOf(e.record));
  }

  lemma BooksOnLocalWrite(s: State, e: Event)
    requires BooksOk(s) && e.LocalWrite? && Enabled(s, e)
    ensures BooksOk(Apply(s, e))
  {
    var p := Put(e.key, e.value, s.nextId);
    assert Pending(Apply(s, e)) == Pending(s) + [p];
    QueueOnWrite(s.hist, Pending(s), p);
    DiskOnWrite(s.hist, s.disk, Pending(s), s.next, p);
  }

  /** The rest only forgets: waiting writes, acks, or the end of the disk. */
  lemma BooksOnLess(s: State, s': State, kept: nat, lo: nat, hi: nat)
    requires BooksOk(s) && lo <= hi <= |Pending(s)| && kept <= |s.disk|
    requires s'.hist == s.hist && s'.log == s.log && s'.next == s.next && s'.nextId == s.nextId
    requires forall r | r in s'.avail :: r in s.hist
    requires Pending(s') == Pending(s)[lo..hi] && s'.disk == s.disk[..kept] && s'.unacked <= s.unacked
    ensures BooksOk(s')
  {
    QueueOnLess(s.hist, Pending(s), s.nextId, lo, hi);
    DiskOnLess(s.hist, s.disk, Pending(s), s.next, s.nextId, kept, lo, hi);
  }

  lemma BooksOnPut(s: State, e: Event)
    requires BooksOk(s) && PcOk(s) && Enabled(s, e) && PutBy(s, e).Some?
    ensures BooksOk(Apply(s, e))
  {
    PutsAreCovered(s, e);
    assert Pending(Apply(s, e)) == Pending(s);
    DiskOnPut(s.hist, s.disk, Pending(s), s.next, s.nextId, PutBy(s, e).value);
  }

  lemma BooksOnOther(s: State, e: Event)
    requires BooksOk(s) && Enabled(s, e) && PutBy(s, e).None?
    requires !e.Append? && !e.BrokerAppend? && !e.Deliver? && !e.LocalWrite? && !e.Marker? && !e.Compact?
    ensures BooksOk(Apply(s, e))
  {
    var n := |Pending(s)|;
    assert s.disk[..|s.disk|] == s.disk && Pending(s)[0..n] == Pending(s);
    BooksOnLess(s, Apply(s, e), if e.Crash? then e.kept else |s.disk|,
                if e.BrokerFail? then 1 else if e.Open? then n else 0,
                if e.Crash? then |s.queue| else n);
  }

  lemma BooksStep(s: State, e: Event)
    requires BooksOk(s) && PcOk(s) && Enabled(s, e)
    ensures BooksOk(Apply(s, e))
  {
    if e.Append? {
      BooksOnAppend(s, e);
    } else if e.BrokerAppend? {
      BooksOnBrokerAppend(s, e);
    } else if e.Deliver? {
      BooksOnDeliver(s, e);
    } else if e.LocalWrite? {
      BooksOnLocalWrite(s, e);
    } else if e.Marker? || e.Compact? {
      BooksOnMarker(s, e);
    } else if PutBy(s, e).Some? {
      BooksOnPut(s, e);
    } else {
      BooksOnOther(s, e);
    }
  }

  lemma BooksOnMarker(s: State, e: Event)
    requires BooksOk(s) && (e.Marker? || e.Compact?) && Enabled(s, e)
    ensures BooksOk(Apply(s, e))
  {
    assert Pending(Apply(s, e)) == Pending(s);
  }

  lemma CrashSafeStep(s: State, e: Event)
    requires Inv(s) && Enabled(s, e)
    ensures CrashSafe(Apply(s, e).hist, Apply(s, e).disk)
  {
    var s' := Apply(s, e);
    if e.Append? {
      CrashSafeAppend(s.hist, s.disk, Record(e.offset, e.key, e.value, s.nextId));
    } else if e.BrokerAppend? {
      var p := s.queue[0];
      assert p == Pending(s)[0];
      CrashSafeAppend(s.hist, s.disk, Record(e.offset, p.key, p.value, p.id));
    } else if e.Deliver? {
      UptoCalmDeliver(s.hist, s.disk, Stored(s.disk), e.record);
      AfterData(s.disk, PutOf(e.record), "");
      CrashSafeExtend(s.hist, s.disk, Data(PutOf(e.record)));
    } else if e.LocalWrite? {
      var p := Put(e.key, e.value, s.nextId);
      UptoLocalWrite(s.hist, s.disk, Stored(s.disk), p);
      AfterData(s.disk, p, "");
      CrashSafeExtend(s.hist, s.disk, Data(p));
    } else if PutBy(s, e).Some? {
      PutsAreCovered(s, e);
      CrashSafePut(s.hist, s.disk, PutBy(s, e).value);
    } else if e.Crash? {
      CrashSafePrefix(s.hist, s.disk, e.kept);
    }
  }

  // ---------- the owner of the table ----------

  lemma CalmAppend(hist: seq<Record>, avail: seq<Record>, reach: int, top: int, r: Record)
    requires Calm(hist, avail, reach, top) && top < r.offset
    ensures Calm(hist + [r], avail + [r], reach, top)
  {
    assert (hist + [r])[..|hist|] == hist;
  }

  lemma PcOnAppend(s: State, e: Event)
    requires BooksOk(s) && PcOk(s) && e.Append? && Enabled(s, e)
    ensures PcOk(Apply(s, e))
  {
    var r := Record(e.offset, e.key, e.value, s.nextId);
    forall b: int | b < s.next && Upto(s.hist, s.disk, b) ensures Upto(s.hist + [r], s.disk, b) {
      UptoAppend(s.hist, s.disk, b, r);
    }
    if IsLoading(s.pc) {
      CalmAppend(s.hist, s.avail, Reach(s.pc), Top(s), r);
    }
  }

  lemma OwnAppendKeepsGood(hist: seq<Record>, disk: seq<Write>, r: Record, k: Key)
    requires Good(hist, disk, k) && Matches(disk, r) && forall q | q in hist :: q.id < r.id
    requires k == r.key ==> LastWrite(disk, k).Some? && r.id <= LastWrite(disk, k).value.id
    ensures Good(hist + [r], disk, k)
  {
    assert (hist + [r])[..|hist|] == hist;
    LastWriteIsMember(disk, k);
    LastIsMember(hist, k);
  }

  /** Own writes reach the log in the order they were made, so the table stays good. */
  lemma UptoOwnAppend(s: State, r: Record, upto: int)
    requires BooksOk(s) && ServingOk(s) && PutOf(r) in Pending(s)
    ensures Upto(s.hist + [r], s.disk, upto)
  {
    forall k ensures Good(s.hist + [r], s.disk, k) {
      LastIsMember(s.hist, k);
      OwnAppendKeepsGood(s.hist, s.disk, r, k);
    }
  }

  lemma InOrderShift(hist: seq<Record>, disk: seq<Write>, pending: seq<Put>, nextId: nat, r: Record)
    requires InOrder(hist, disk, pending) && QueueOk(hist, pending, nextId) && pending != [] && PutOf(r) == pending[0]
    ensures InOrder(hist + [r], disk, pending[1..])
    ensures InOrder(hist, disk, pending[1..])
  {
    assert forall p | p in pending[1..] :: p in pending && r.id < p.id;
  }

  lemma PcOnBrokerAppend(s: State, e: Event)
    requires BooksOk(s) && PcOk(s) && e.BrokerAppend? && Enabled(s, e)
    ensures PcOk(Apply(s, e))
  {
    if IsServing(s) {
      var p := s.queue[0];
      var r := Record(e.offset, p.key, p.value, p.id);
      assert Pending(s)[0] == p && Pending(Apply(s, e)) == Pending(s)[1..];
      UptoOwnAppend(s, r, e.offset + 1);
      InOrderShift(s.hist, s.disk, Pending(s), s.nextId, r);
    }
  }

  lemma PcOnBrokerFail(s: State)
    requires BooksOk(s) && PcOk(s) && Enabled(s, BrokerFail)
    ensures PcOk(Apply(s, BrokerFail))
  {
    if IsServing(s) {
      var p := s.queue[0];
      assert Pending(s)[0] == p && Pending(Apply(s, BrokerFail)) == Pending(s)[1..];
      InOrderShift(s.hist, s.disk, Pending(s), s.nextId, Record(0, p.key, p.value, p.id));
    }
  }

  /** Starting after the stored offset, clamped to the log start, misses nothing. */
  lemma UptoStart(hist: seq<Record>, disk: seq<Write>, stored: int, oldest: int)
    requires Upto(hist, disk, stored) && forall k | Last(hist, k).Some? :: oldest <= Last(hist, k).value.offset
    ensures Upto(hist, disk, StartOffset(stored, oldest) - 1)
  {
  }

  lemma LoaderOnStart(s: State, e: Event)
    requires LoaderOk(s) && e.StartLoad? && Enabled(s, e) && GetOffset(s) < s.next
    requires Upto(s.hist, s.disk, StartOffset(GetOffset(s), e.oldest) - 1) && Harmless(s)
    requires OFFSET_NOT_STORED == Stored(s.disk) || 0 <= Stored(s.disk)
    ensures LoaderOk(Apply(s, e))
  {
  }

  lemma PcOnStart(s: State, e: Event)
    requires IsCompaction(s.hist, s.log) && Increasing(s.hist) && OffsetsBelow(s.disk, s.next)
    requires PcOk(s) && e.StartLoad? && Enabled(s, e) && (s.recovered ==> Harmless(s))
    ensures PcOk(Apply(s, e))
  {
    StoredIsMember(s.disk);
    UptoStart(s.hist, s.disk, GetOffset(s), e.oldest);
    StartIsCalm(s);
    LoaderOnStart(s, e);
  }

  /** Before recovery every start is harmless. */
  lemma StartIsCalm(s: State)
    requires LoaderOk(s) && s.pc.Ready? && Increasing(s.hist) && (forall r | r in s.log :: r in s.hist)
    requires OFFSET_NOT_STORED <= Stored(s.disk) && (s.recovered ==> Harmless(s))
    ensures Harmless(s)
  {
    if !s.recovered {
      CalmBelow(s.hist, s.log, GetOffset(s), Top(s));
    }
  }

  /** What comes after `top` was not overwritten before `top`. */
  lemma CalmBelow(hist: seq<Record>, log: seq<Record>, reach: int, top: int)
    requires Increasing(hist) && (forall r | r in log :: r in hist) && top <= reach
    ensures Calm(hist, log, reach, top)
  {
    forall r | r in log && reach < r.offset ensures !Superseded(hist, r, top) {
      LastIsNewest(hist, r.key, r);
    }
  }

  lemma LoaderOnDeliver(s: State, e: Event)
    requires LoaderOk(s) && e.Deliver? && Enabled(s, e) && e.record.offset < s.next
    requires var disk := s.disk + [Data(PutOf(e.record))];
             Upto(s.hist, disk, e.record.offset) && Upto(s.hist, disk, Top(s)) && Stored(disk) == Stored(s.disk)
    ensures LoaderOk(Apply(s, e))
  {
  }

  lemma PcOnDeliver(s: State, e: Event)
    requires Increasing(s.hist) && IsCompaction(s.hist, s.log) && (forall r | r in s.avail :: r in s.hist) &&
             PcOk(s) && e.Deliver? && Enabled(s, e)
    requires e.record.offset < s.next
    ensures PcOk(Apply(s, e))
  {
    UptoDeliver(s.hist, s.log, s.avail, s.disk, s.pc.pos, e.record);
    UptoCalmDeliver(s.hist, s.disk, Top(s), e.record);
    AfterData(s.disk, PutOf(e.record), "");
    LoaderOnDeliver(s, e);
  }

  /** Changing what may be persisted, to something no higher or to the reach of the load. */
  lemma LoaderRetop(s: State, s': State)
    requires LoaderOk(s) && Increasing(s.hist) && (forall r | r in s.avail :: r in s.hist)
    requires s'.hist == s.hist && s'.avail == s.avail &&
             (s'.disk == s.disk || exists n :: s'.disk == s.disk + [Offset(n)])
    requires Top(s') <= Top(s) || (IsLoading(s.pc) && Top(s') <= Reach(s.pc))
    ensures Upto(s'.hist, s'.disk, Top(s')) && Upto(s'.hist, s'.disk, Reach(s.pc))
    ensures IsLoading(s.pc) ==> Calm(s'.hist, s'.avail, Reach(s.pc), Top(s'))
  {
    if s'.disk != s.disk {
      var n :| s'.disk == s.disk + [Offset(n)];
      UptoPut(s.hist, s.disk, Reach(s.pc), n);
      UptoPut(s.hist, s.disk, Top(s'), n);
    }
    if Top(s') <= Reach(s.pc) {
      CalmBelow(s.hist, s.avail, Reach(s.pc), Top(s'));
    }
  }

  lemma ServingOnPut(s: State, n: int)
    requires ServingOk(s)
    ensures ServingOk(s.(disk := s.disk + [Offset(n)]))
  {
    var s' := s.(disk := s.disk + [Offset(n)]);
    assert Pending(s') == Pending(s);
    UptoPut(s.hist, s.disk, s.next, n);
    forall k ensures LastWrite(s'.disk, k) == LastWrite(s.disk, k) {
      AfterOffset(s.disk, n, k);
    }
  }

  lemma PcOnTickPut(s: State)
    requires Increasing(s.hist) && (forall r | r in s.avail :: r in s.hist) && PcOk(s) && Enabled(s, TickPut)
    ensures PcOk(Apply(s, TickPut))
  {
    var n := s.ticker.value;
    if IsServing(s) {
      ServingOnPut(s, n);
      assert Pending(Apply(s, TickPut)) == Pending(s.(disk := s.disk + [Offset(n)]));
    } else if s.pc.Closing? {
      forall b: int | Upto(s.hist, s.disk, b) ensures Upto(s.hist, s.disk + [Offset(n)], b) {
        UptoPut(s.hist, s.disk, b, n);
      }
    } else {
      AfterOffset(s.disk, n, "");
      LoaderRetop(s, Apply(s, TickPut));
    }
  }

  lemma PcOnPut(s: State, e: Event)
    requires Increasing(s.hist) && (forall r | r in s.avail :: r in s.hist)
    requires PcOk(s) && Enabled(s, e) && (e.PutOffset? || (e.MarkPut? && s.pc.offset != 0))
    ensures PcOk(Apply(s, e))
  {
    AfterOffset(s.disk, s.pc.offset, "");
    LoaderRetop(s, Apply(s, e));
  }

  lemma PcOnAckPut(s: State)
    requires PcOk(s) && Enabled(s, AckPut)
    ensures PcOk(Apply(s, AckPut))
  {
    ServingOnPut(s, s.acking.value);
    assert Pending(Apply(s, AckPut)) == Pending(s.(disk := s.disk + [Offset(s.acking.value)]));
  }

  lemma InOrderOnWrite(hist: seq<Record>, disk: seq<Write>, pending: seq<Put>, p: Put)
    requires InOrder(hist, disk, pending)
    requires (forall r | r in hist :: r.id < p.id) && (forall q | q in pending :: q.id < p.id)
    ensures InOrder(hist, disk + [Data(p)], pending + [p])
  {
    forall k ensures LastWrite(disk + [Data(p)], k) == if k == p.key then Some(p) else LastWrite(disk, k) {
      AfterData(disk, p, k);
    }
  }

  lemma PcOnLocalWrite(s: State, e: Event)
    requires BooksOk(s) && PcOk(s) && e.LocalWrite? && Enabled(s, e)
    ensures PcOk(Apply(s, e))
  {
    var p := Put(e.key, e.value, s.nextId);
    assert Pending(Apply(s, e)) == Pending(s) + [p];
    UptoLocalWrite(s.hist, s.disk, s.next, p);
    InOrderOnWrite(s.hist, s.disk, Pending(s), p);
  }

  lemma PcOnServe(s: State)
    requires PcOk(s) && Enabled(s, Serve)
    ensures PcOk(Apply(s, Serve))
  {
    forall k ensures Good(s.hist, s.disk, k) {
      LastIsMember(s.hist, k);
    }
  }

  lemma ServingIsGood(s: State, upto: int)
    requires BooksOk(s) && ServingOk(s)
    ensures Upto(s.hist, s.disk, upto)
  {
    forall k ensures Good(s.hist, s.disk, k) {
      LastIsMember(s.hist, k);
    }
  }

  /** Nothing the owner relies on changes when offsets are used up or the log is compacted. */
  lemma PcFrame(s: State, log: seq<Record>, next: nat)
    requires PcOk(s) && s.next <= next && (IsServing(s) ==> Upto(s.hist, s.disk, next))
    requires forall r | r in log :: r in s.log
    ensures PcOk(s.(log := log, next := next))
  {
    assert Pending(s.(log := log, next := next)) == Pending(s);
  }

  lemma PcOnBroker(s: State, e: Event)
    requires BooksOk(s) && PcOk(s) && Enabled(s, e) && (e.Marker? || e.Compact?)
    ensures PcOk(Apply(s, e))
  {
    if IsServing(s) && e.Marker? {
      ServingIsGood(s, e.to);
    }
    PcFrame(s, if e.Marker? then s.log else e.compacted, if e.Marker? then e.to else s.next);
  }

  /** Steps of the loader that touch only its own fields. */
  lemma PcOnLoader(s: State, e: Event)
    requires PcOk(s) && Enabled(s, e) && (e.StopLoad? || e.MarkLoad? || e.MarkClose?)
    ensures PcOk(Apply(s, e))
  {
  }

  lemma PcOnSetMem(s: State)
    requires Increasing(s.hist) && (forall r | r in s.avail :: r in s.hist) && PcOk(s) && Enabled(s, SetMem)
    ensures PcOk(Apply(s, SetMem))
  {
    LoaderRetop(s, Apply(s, SetMem));
  }

  lemma PcOnOpen(s: State)
    requires CrashSafe(s.hist, s.disk) && OffsetsBelow(s.disk, s.next) && Enabled(s, Open)
    ensures PcOk(Apply(s, Open))
  {
    StoredIsMember(s.disk);
  }

  lemma PcOnClose(s: State)
    requires BooksOk(s) && PcOk(s) && Enabled(s, CloseLoad)
    ensures PcOk(Apply(s, CloseLoad))
  {
    if IsServing(s) {
      ServingIsGood(s, s.mem);
    }
  }

  lemma PcOnTickLoad(s: State)
    requires PcOk(s) && Enabled(s, TickLoad)
    ensures PcOk(Apply(s, TickLoad))
  {
    if IsServing(s) {
      assert Pending(Apply(s, TickLoad)) == Pending(s);
    } else if !s.pc.Closing? {
      assert Top(Apply(s, TickLoad)) == Top(s);
    }
  }

  lemma PcOnOwn(s: State, e: Event)
    requires PcOk(s) && AcksOk(s.hist, s.unacked) && (forall r | r in s.hist :: r.offset < s.next)
    requires Enabled(s, e) && (e.Emit? || e.Ack?)
    ensures PcOk(Apply(s, e))
  {
    assert Pending(Apply(s, e)) == Pending(s);
  }

  lemma PcOfTable(s: State, e: Event)
    requires Inv(s) && Enabled(s, e) && (e.StartLoad? && s.recovered ==> Harmless(s))
    requires IsOfTable(e)
    ensures PcOk(Apply(s, e))
  {
    if e.StartLoad? {
      PcOnStart(s, e);
    } else if e.Deliver? {
      PcOnDeliver(s, e);
    } else if e.SetMem? {
      PcOnSetMem(s);
    } else if e.PutOffset? || (e.MarkPut? && s.pc.offset != 0) {
      PcOnPut(s, e);
    } else if !e.MarkPut? {
      PcOnLoader(s, e);
    }
  }

  lemma PcOfOthers(s: State, e: Event)
    requires Inv(s) && Enabled(s, e)
    requires e.Append? || e.Marker? || e.Compact? || e.TickPut? || e.TickLoad? || e.Open? || e.CloseLoad?
    ensures PcOk(Apply(s, e))
  {
    match e
    case Append(_, _, _) => PcOnAppend(s, e);
    case TickPut => PcOnTickPut(s);
    case TickLoad => PcOnTickLoad(s);
    case Open => PcOnOpen(s);
    case CloseLoad => PcOnClose(s);
    case _ => PcOnBroker(s, e);
  }

  lemma PcOfServing(s: State, e: Event)
    requires Inv(s) && Enabled(s, e)
    requires e.AckPut? || e.LocalWrite? || e.BrokerAppend? || e.BrokerFail? || e.Serve? || e.Emit? || e.Ack?
    ensures PcOk(Apply(s, e))
  {
    match e
    case AckPut => PcOnAckPut(s);
    case LocalWrite(_, _) => PcOnLocalWrite(s, e);
    case BrokerAppend(_) => PcOnBrokerAppend(s, e);
    case BrokerFail => PcOnBrokerFail(s);
    case Serve => PcOnServe(s);
    case _ => PcOnOwn(s, e);
  }

  ghost predicate IsOfTable(e: Event) {
    e.StartLoad? || e.Deliver? || e.PutOffset? || e.MarkPut? || e.SetMem? || e.StopLoad? || e.MarkLoad? || e.MarkClose?
  }

  lemma PcStep(s: State, e: Event)
    requires Inv(s) && Enabled(s, e) && (e.StartLoad? && s.recovered ==> Harmless(s))
    ensures PcOk(Apply(s, e))
  {
    if IsOfTable(e) {
      PcOfTable(s, e);
    } else if e.AckPut? || e.LocalWrite? || e.BrokerAppend? || e.BrokerFail? || e.Serve? || e.Emit? || e.Ack? {
      PcOfServing(s, e);
    } else if !e.ClosePut? && !e.Crash? {
      PcOfOthers(s, e);
    }
  }

  // ---------- the log, in every run ----------

  ghost function NextOffset(pc: Pc): int
    requires IsLoading(pc)
  {
    if pc.Loading? then pc.pos else pc.offset + 1
  }

  /** What holds of the log and of where a load stands in it, whatever starts there were. */
  ghost predicate LogOk(s: State) {
    && Increasing(s.hist) && IsCompaction(s.hist, s.log)
    && (forall r | r in s.avail :: r in s.hist)
    && (forall r | r in s.hist :: r.offset < s.next)
    && (IsLoading(s.pc) ==> NextOffset(s.pc) <= s.next)
  }

  lemma LogStep(s: State, e: Event)
    requires LogOk(s) && Enabled(s, e)
    ensures LogOk(Apply(s, e))
  {
    if e.Append? {
      AppendKeepsBroker(s.hist, s.log, Record(e.offset, e.key, e.value, s.nextId));
    } else if e.BrokerAppend? {
      AppendKeepsBroker(s.hist, s.log, Record(e.offset, s.queue[0].key, s.queue[0].value, s.queue[0].id));
    }
  }

  lemma {:induction false} LogRun(run: seq<State>, events: seq<Event>, n: nat)
    requires IsRun(run, events) && n < |run|
    ensures LogOk(run[n])
  {
    if n > 0 {
      LogRun(run, events, n - 1);
      LogStep(run[n - 1], events[n - 1]);
    }
  }

  // ---------- whole runs ----------

  lemma InvInitial()
    ensures Inv(Initial)
  {
  }

  lemma InvStep(s: State, e: Event)
    requires Inv(s) && Enabled(s, e) && (e.StartLoad? && s.recovered ==> Harmless(s))
    ensures Inv(Apply(s, e))
  {
    BooksStep(s, e);
    CrashSafeStep(s, e);
    PcStep(s, e);
  }

  lemma {:induction false} InvRun(run: seq<State>, events: seq<Event>, n: nat)
    requires IsRun(run, events) && HarmlessStarts(run, events) && n < |run|
    ensures Inv(run[n])
  {
    if n == 0 {
      InvInitial();
    } else {
      InvRun(run, events, n - 1);
      InvStep(run[n - 1], events[n - 1]);
    }
  }
}
