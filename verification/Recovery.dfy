/**
  One table partition over its whole life: the broker, the LevelDB storage with its offset ticker,
  the goroutine that loads or serves the table, and crashes (partition_table.go,
  storage/storage.go, context.go).  Every step another goroutine could separate is an event of its own.
 */
module Recovery {
  import opened Common
  import opened TableLog
  import opened LocalStore

  /** How the last load ended: by a record at or past the high watermark it had read, or not. */
  datatype Caught = Caught(hwm: int) | NotCaught

  /** Where the goroutine that owns the table is. */
  datatype Pc =
    | Down                                      // the process is not running
    | Ready(caught: Caught)                     // storage open, no load in progress
    | Loading(pos: int, hwm: int)               // in loadMessages, next offset wanted is `pos`
    | Updated(offset: int, hwm: int)            // storeEvent: table written, offset not yet set
    | MustPut(offset: int, hwm: int)            // SetOffset: memory set, LevelDB not yet
    | Marking(caught: Caught)                   // MarkRecovered entered
    | MarkLoaded(offset: int, caught: Caught)   // ... memory offset read
    | MarkStored(caught: Caught)                // ... and persisted
    | Serving                                   // the processor owns the table and runs callbacks
    | Wrote(put: Put)                           // SetValue/Delete: table written, not yet emitted
    | Closing(offset: int)                      // Close: memory offset read

  datatype State = State(
    hist: seq<Record>, next: nat, log: seq<Record>, nextId: nat,         // broker
    avail: seq<Record>,                                                  // what the open consumer may deliver
    disk: seq<Write>, mem: int, recovered: bool, ticker: Option<int>,    // storage
    pc: Pc,
    found: seq<Write>,                                                   // the disk as Open found it
    queue: seq<Put>, unacked: set<Record>, acking: Option<int>)           // own writes on their way to the log

  datatype Event =
    | Append(offset: nat, key: Key, value: Option<Bytes>)   // a record by some other writer
    | Marker(to: nat)                                       // offsets used up without a record
    | Compact(compacted: seq<Record>)
    | Open
    | StartLoad(oldest: int)
    | Deliver(record: Record)
    | SetMem
    | PutOffset
    | StopLoad(mark: bool)                                  // cancelled, channel closed or failed
    | MarkLoad
    | MarkPut
    | MarkClose
    | TickLoad
    | TickPut
    | Serve
    | LocalWrite(key: Key, value: Option<Bytes>)
    | Emit
    | BrokerAppend(offset: nat)
    | BrokerFail
    | Ack(acked: Record)
    | AckPut
    | CloseLoad
    | ClosePut
    | Crash(kept: nat)

  /** storage.GetOffset: memory before recovery (unless 0, "not loaded"), LevelDB after it. */
  ghost function GetOffset(s: State): int {
    if !s.recovered && s.mem != 0 then s.mem else Stored(s.disk)
  }

  /** `oldest` is a log start offset: nothing that compaction had to keep lies before it. */
  ghost predicate IsLogStart(s: State, oldest: int) {
    && 0 <= oldest <= s.next
    && forall r | r in s.log :: oldest <= r.offset
  }

  /** A consumer skips nothing that is in the log, but may deliver what it fetched before a compaction. */
  ghost predicate IsNextRecord(log: seq<Record>, avail: seq<Record>, pos: int, r: Record) {
    && r in avail && pos <= r.offset
    && forall q | q in log && pos <= q.offset :: r.offset <= q.offset
  }

  ghost predicate IsRunning(s: State) { !s.pc.Down? }

  ghost predicate IsMarking(pc: Pc) { pc.Marking? || pc.MarkLoaded? || pc.MarkStored? }

  ghost predicate IsServing(s: State) { s.pc.Serving? || s.pc.Wrote? }

  ghost predicate Enabled(s: State, e: Event) {
    match e
    case Append(o, k, _) => !IsServing(s) && s.next <= o && k != OFFSET_KEY
    case Marker(to) => s.next <= to
    case Compact(c) => IsCompaction(s.hist, c) && forall r | r in c :: r in s.log
    case Open => s.pc.Down?
    case StartLoad(oldest) => s.pc.Ready? && IsLogStart(s, oldest)
    case Deliver(r) => s.pc.Loading? && IsNextRecord(s.log, s.avail, s.pc.pos, r)
    case SetMem => s.pc.Updated?
    case PutOffset => s.pc.MustPut?
    case StopLoad(mark) => s.pc.Loading? && (mark ==> !s.recovered)
    case MarkLoad => s.pc.Marking?
    case MarkPut => s.pc.MarkLoaded?
    case MarkClose => s.pc.MarkStored?
    case TickLoad => IsRunning(s) && s.ticker.None? && s.mem != 0
    case TickPut => IsRunning(s) && s.ticker.Some?
    case Serve => s.recovered && s.pc.Ready? && s.pc.caught.Caught? &&
        forall r | r in s.hist :: r.offset < s.pc.caught.hwm
    case LocalWrite(k, _) => s.pc.Serving? && k != OFFSET_KEY
    case Emit => s.pc.Wrote?
    case BrokerAppend(o) => (IsServing(s) || s.pc.Down?) && s.queue != [] && s.next <= o
    case BrokerFail => s.queue != []
    case Ack(r) => IsServing(s) && r in s.unacked && s.acking.None?
    case AckPut => IsServing(s) && s.acking.Some?
    case CloseLoad => s.pc.Ready? || s.pc.Serving? || IsMarking(s.pc)
    case ClosePut => s.pc.Closing?
    case Crash(kept) => kept <= |s.disk|
  }

  ghost function AppendRecord(s: State, r: Record): State {
    s.(hist := s.hist + [r], log := s.log + [r], avail := s.avail + [r], next := r.offset + 1)
  }

  /** load, up to its first message: where it starts, and whether it starts at all. */
  ghost function AfterStart(s: State, oldest: int): Pc {
    var stored := GetOffset(s);
    var hwm := s.next;
    var start := if stored >= hwm then hwm else StartOffset(stored, oldest);
    if stored > 0 && hwm == 0 then Ready(NotCaught)
    else if !s.recovered && start >= hwm then Marking(Caught(hwm))
    else Loading(start, hwm)
  }

  /** After SetOffset: done at the high watermark, but only while recovering. */
  ghost function AfterEvent(s: State, offset: int, hwm: int): Pc {
    if !s.recovered && offset >= hwm - 1 then Marking(Caught(hwm)) else Loading(offset + 1, hwm)
  }

  ghost function PutNonZero(disk: seq<Write>, offset: int): seq<Write> {
    if offset != 0 then disk + [Offset(offset)] else disk
  }

  ghost function Apply(s: State, e: Event): State
    requires Enabled(s, e)
  {
    match e
    case Append(o, k, v) =>
      AppendRecord(s, Record(o, k, v, s.nextId)).(nextId := s.nextId + 1)
    case Marker(to) => s.(next := to)
    case Compact(c) => s.(log := c)
    case Open =>
      s.(pc := Ready(NotCaught), mem := 0, recovered := false, ticker := None,
      found := s.disk, queue := [], unacked := {}, acking := None)
    case StartLoad(oldest) => s.(pc := AfterStart(s, oldest), avail := s.log)
    case Deliver(r) =>
      s.(disk := s.disk + [Data(PutOf(r))], pc := Updated(r.offset, s.pc.hwm))
    case SetMem =>
      s.(mem := s.pc.offset,
      pc := if s.recovered then MustPut(s.pc.offset, s.pc.hwm) else AfterEvent(s, s.pc.offset, s.pc.hwm))
    case PutOffset =>
      s.(disk := s.disk + [Offset(s.pc.offset)], pc := AfterEvent(s, s.pc.offset, s.pc.hwm))
    case StopLoad(mark) => s.(pc := if mark then Marking(NotCaught) else Ready(NotCaught))
    case MarkLoad => s.(pc := MarkLoaded(s.mem, s.pc.caught))
    case MarkPut => s.(disk := PutNonZero(s.disk, s.pc.offset), pc := MarkStored(s.pc.caught))
    case MarkClose => s.(recovered := true, pc := Ready(s.pc.caught))
    case TickLoad => s.(ticker := Some(s.mem))
    case TickPut => s.(disk := s.disk + [Offset(s.ticker.value)], ticker := None)
    case Serve => s.(pc := Serving)
    case LocalWrite(k, v) =>
      var p := Put(k, v, s.nextId);
      s.(disk := s.disk + [Data(p)], nextId := s.nextId + 1, pc := Wrote(p))
    case Emit => s.(queue := s.queue + [s.pc.put], pc := Serving)
    case BrokerAppend(o) =>
      var r := Record(o, s.queue[0].key, s.queue[0].value, s.queue[0].id);
      AppendRecord(s, r).(queue := s.queue[1..], unacked := if s.pc.Down? then s.unacked else s.unacked + {r})
    case BrokerFail => s.(queue := s.queue[1..])
    case Ack(r) =>
      // the ack of a Delete stores no offset
      var acked := s.(unacked := s.unacked - {r});
      var before := GetOffset(s);
      if r.value.Some? && before != OFFSET_NOT_STORED && before <= r.offset
      then acked.(mem := r.offset, acking := Some(r.offset))
      else acked
    case AckPut => s.(disk := s.disk + [Offset(s.acking.value)], acking := None)
    case CloseLoad => s.(pc := Closing(s.mem))
    case ClosePut => s.(disk := PutNonZero(s.disk, s.pc.offset), pc := Down)
    case Crash(kept) => s.(disk := s.disk[..kept], pc := Down)
  }

  const Initial := State([], 0, [], 0, [], [], 0, false, None, Down, [], [], {}, None)

  /** `run` lists the states of a run, `events` what happened between them. */
  ghost predicate IsRun(run: seq<State>, events: seq<Event>) {
    && |run| == |events| + 1
    && run[0] == Initial
    && forall i {:trigger events[i]} | 0 <= i < |events| ::
         Enabled(run[i], events[i]) && run[i + 1] == Apply(run[i], events[i])
  }

  /** The highest offset that is persisted or that memory or the ticker may still persist; memory 0 never is. */
  ghost function Top(s: State): int {
    Max(Stored(s.disk), Max(if s.mem == 0 then OFFSET_NOT_STORED else s.mem,
                            if s.ticker.Some? then s.ticker.value else OFFSET_NOT_STORED))
  }

  function Max(a: int, b: int): int { if a < b then b else a }

  /** `r` was overwritten in the log, with another value, at or before offset `top`. */
  ghost predicate Superseded(hist: seq<Record>, r: Record, top: int) {
    var last := Last(hist, r.key);
    last.Some? && last.value.value != r.value && last.value.offset <= top
  }

  /** Nothing after `reach` that may still be delivered was overwritten at or before `top`. */
  ghost predicate Calm(hist: seq<Record>, avail: seq<Record>, reach: int, top: int) {
    forall r | r in avail && reach < r.offset :: !Superseded(hist, r, top)
  }

  /**
    A load may start here: it will not put an old value over one that an offset still to be persisted
    vouches for.  Once the storage is recovered the start is read from LevelDB, where the ticker may
    have put an old offset over a newer one, so this is not always so.
   */
  ghost predicate Harmless(s: State) {
    Calm(s.hist, s.log, GetOffset(s), Top(s))
  }

  ghost predicate HarmlessStarts(run: seq<State>, events: seq<Event>)
    requires IsRun(run, events)
  {
    forall i | 0 <= i < |events| && events[i].StartLoad? && run[i].recovered :: Harmless(run[i])
  }
}
