/**
  The Kafka log behind one table partition and the table that replaying it builds
  (partition_table.go, options.go).

  `hist` is everything ever appended to the partition, never shortened.  The broker keeps a
  `log`: some of those records, compacted, but always each key's last record.
 */
module TableLog {
  import opened Common

  type Key = string
  type Bytes = string

  /** One log record; a `None` value is a tombstone.  `id` names the write that produced it. */
  datatype Record = Record(offset: nat, key: Key, value: Option<Bytes>, id: nat)

  type Table = map<Key, Bytes>

  /** The offset reported when none was ever stored locally. */
  const OFFSET_NOT_STORED := -3

  ghost predicate Increasing(h: seq<Record>) {
    forall i, j | 0 <= i < j < |h| :: h[i].offset < h[j].offset
  }

  /** The last record of key `k`. */
  ghost function Last(h: seq<Record>, k: Key): Option<Record> {
    if h == [] then None
    else if h[|h| - 1].key == k then Some(h[|h| - 1])
    else Last(h[..|h| - 1], k)
  }

  /** What compaction may do: drop records, but never a key's last one (tombstones included). */
  ghost predicate IsCompaction(hist: seq<Record>, log: seq<Record>) {
    && Increasing(log)
    && (forall r | r in log :: r in hist)
    && (forall k | Last(hist, k).Some? :: Last(hist, k).value in log)
  }

  /** DefaultUpdate: a tombstone deletes, anything else sets. */
  function DefaultUpdate(t: Table, r: Record): Table {
    match r.value
    case None => t - {r.key}
    case Some(v) => t[r.key := v]
  }

  /** Feeding records to DefaultUpdate in order. */
  function Replay(t: Table, rs: seq<Record>): Table {
    if rs == [] then t else DefaultUpdate(Replay(t, rs[..|rs| - 1]), rs[|rs| - 1])
  }

  function Lookup(t: Table, k: Key): Option<Bytes> {
    if k in t then Some(t[k]) else None
  }

  /** The part of the log at or after `start`: what a consumer opened there receives. */
  function From(log: seq<Record>, start: int): seq<Record> {
    if log == [] then []
    else if log[|log| - 1].offset >= start then From(log[..|log| - 1], start) + [log[|log| - 1]]
    else From(log[..|log| - 1], start)
  }

  /** `t` holds the latest value of every key that has not changed after offset `upto`. */
  ghost predicate Agrees(hist: seq<Record>, t: Table, upto: int) {
    forall k :: match Last(hist, k)
                case None => Lookup(t, k) == None
                case Some(r) => r.offset <= upto ==> Lookup(t, k) == r.value
  }

  /** findOffsetToLoad: where to start, given the stored offset and the oldest one Kafka has. */
  function StartOffset(stored: int, oldest: int): int {
    var start := if stored == OFFSET_NOT_STORED then oldest else stored + 1;
    if start < oldest then oldest else start
  }

  // ---------- Last and From ----------

  lemma {:induction false} LastIsMember(h: seq<Record>, k: Key)
    ensures Last(h, k).Some? ==> Last(h, k).value in h && Last(h, k).value.key == k
    ensures Last(h, k).None? ==> forall r | r in h :: r.key != k
  {
    if h != [] {
      LastIsMember(h[..|h| - 1], k);
      assert h == h[..|h| - 1] + [h[|h| - 1]];
    }
  }

  lemma {:induction false} LastIsNewest(h: seq<Record>, k: Key, r: Record)
    requires Increasing(h) && r in h && r.key == k
    ensures Last(h, k).Some? && r.offset <= Last(h, k).value.offset
  {
    if h[|h| - 1].key != k {
      assert h == h[..|h| - 1] + [h[|h| - 1]];
      LastIsNewest(h[..|h| - 1], k, r);
    }
  }

  lemma SameOffsetSameRecord(h: seq<Record>, r: Record, s: Record)
    requires Increasing(h) && r in h && s in h && r.offset == s.offset
    ensures r == s
  {
  }

  lemma {:induction false} FromIsFilter(log: seq<Record>, start: int)
    ensures forall r :: r in From(log, start) <==> r in log && r.offset >= start
    ensures Increasing(log) ==> Increasing(From(log, start))
  {
    if log != [] {
      FromIsFilter(log[..|log| - 1], start);
      assert log == log[..|log| - 1] + [log[|log| - 1]];
      if Increasing(log) {
        forall r | r in log[..|log| - 1] ensures r.offset < log[|log| - 1].offset {
        }
      }
    }
  }

  /** In a compacted log the last record of a key is the last record of the full history. */
  lemma CompactionKeepsLast(hist: seq<Record>, log: seq<Record>, k: Key)
    requires Increasing(hist) && IsCompaction(hist, log)
    ensures Last(log, k) == Last(hist, k)
  {
    LastIsMember(hist, k);
    LastIsMember(log, k);
    if Last(hist, k).Some? {
      LastIsNewest(log, k, Last(hist, k).value);
      LastIsNewest(hist, k, Last(log, k).value);
      SameOffsetSameRecord(hist, Last(log, k).value, Last(hist, k).value);
    }
  }

  // ---------- Replay ----------

  /** Only the last record of a key matters to a replay. */
  lemma {:induction false} ReplayLookup(t: Table, rs: seq<Record>, k: Key)
    ensures Lookup(Replay(t, rs), k) ==
            match Last(rs, k) case None => Lookup(t, k) case Some(r) => r.value
  {
    if rs != [] {
      ReplayLookup(t, rs[..|rs| - 1], k);
    }
  }

  lemma SameLookupsSameTable(t: Table, u: Table)
    requires forall k :: Lookup(t, k) == Lookup(u, k)
    ensures t == u
  {
    forall k ensures (k in t <==> k in u) && (k in t ==> t[k] == u[k]) {
      assert Lookup(t, k) == Lookup(u, k);
    }
  }

  lemma LastFrom(log: seq<Record>, start: int, k: Key)
    requires Increasing(log)
    ensures Last(From(log, start), k) ==
            match Last(log, k)
            case None => None
            case Some(r) => if r.offset >= start then Some(r) else None
  {
    FromIsFilter(log, start);
    LastIsMember(log, k);
    LastIsMember(From(log, start), k);
    if Last(log, k).Some? && Last(log, k).value.offset >= start {
      LastIsNewest(From(log, start), k, Last(log, k).value);
    }
    if Last(From(log, start), k).Some? {
      LastIsNewest(log, k, Last(From(log, start), k).value);
      SameOffsetSameRecord(log, Last(From(log, start), k).value, Last(log, k).value);
    }
  }

  /**
    Recovery of a table: replaying the compacted log over a stale local table, from anywhere at or
    before the offset after the stored one, gives the table of the full uncompacted history.
   */
  lemma ReplayOfCompactedLogIsExact(hist: seq<Record>, log: seq<Record>, t: Table, stored: int, start: int)
    requires Increasing(hist) && IsCompaction(hist, log)
    requires Agrees(hist, t, stored)
    requires start <= stored + 1
    ensures Replay(t, From(log, start)) == Replay(map[], hist)
  {
    forall k ensures Lookup(Replay(t, From(log, start)), k) == Lookup(Replay(map[], hist), k) {
      ReplayLookup(t, From(log, start), k);
      ReplayLookup(map[], hist, k);
      CompactionKeepsLast(hist, log, k);
      LastFrom(log, start, k);
    }
    SameLookupsSameTable(Replay(t, From(log, start)), Replay(map[], hist));
  }

  /** The same from the offset findOffsetToLoad picks, which may lie after `stored + 1`. */
  lemma ReplayFromStartOffsetIsExact(hist: seq<Record>, log: seq<Record>, t: Table, stored: int, oldest: int)
    requires Increasing(hist) && IsCompaction(hist, log)
    requires Agrees(hist, t, stored)
    requires forall r | r in log :: oldest <= r.offset
    ensures Replay(t, From(log, StartOffset(stored, oldest))) == Replay(map[], hist)
  {
    var start := StartOffset(stored, oldest);
    if start > stored + 1 {
      FromSkipsNothing(log, stored + 1, start);
    }
    ReplayOfCompactedLogIsExact(hist, log, t, stored, if start > stored + 1 then stored + 1 else start);
  }

  lemma {:induction false} FromSkipsNothing(log: seq<Record>, a: int, b: int)
    requires forall r | r in log :: r.offset >= a <==> r.offset >= b
    ensures From(log, a) == From(log, b)
  {
    if log != [] {
      assert log[|log| - 1] in log;
      FromSkipsNothing(log[..|log| - 1], a, b);
    }
  }

  /** Every key that changed after `stored` still ends, in the log from `stored + 1`, on its right value. */
  ghost predicate KeepsNews(hist: seq<Record>, log: seq<Record>, stored: int) {
    forall k | Last(hist, k).Some? && Last(hist, k).value.offset > stored ::
      var kept := Last(From(log, stored + 1), k);
      kept.Some? && kept.value.value == Last(hist, k).value.value
  }

  /** Nothing in the log is older news than what `stored` already covers. */
  lemma NoOldNews(hist: seq<Record>, log: seq<Record>, stored: int, k: Key)
    requires Increasing(hist) && Increasing(log) && (forall r | r in log :: r in hist)
    requires Last(hist, k).None? || Last(hist, k).value.offset <= stored
    ensures Last(From(log, stored + 1), k) == None
  {
    LastIsMember(From(log, stored + 1), k);
    FromIsFilter(log, stored + 1);
    LastIsMember(hist, k);
    if Last(From(log, stored + 1), k).Some? {
      LastIsNewest(hist, k, Last(From(log, stored + 1), k).value);
    }
  }

  /**
    What recovery needs of the broker, exactly: over every local table that is right up to `stored`,
    the replay is exact if and only if no key lost its news.  Dropping the tombstone of a key deleted
    after `stored` is the typical way to break it.
   */
  lemma RecoveryNeedsExactlyTheNews(hist: seq<Record>, log: seq<Record>, stored: int)
    requires Increasing(hist) && Increasing(log) && (forall r | r in log :: r in hist)
    ensures KeepsNews(hist, log, stored) <==>
            forall t | Agrees(hist, t, stored) :: Replay(t, From(log, stored + 1)) == Replay(map[], hist)
  {
    if KeepsNews(hist, log, stored) {
      forall t | Agrees(hist, t, stored) ensures Replay(t, From(log, stored + 1)) == Replay(map[], hist) {
        forall k ensures Lookup(Replay(t, From(log, stored + 1)), k) == Lookup(Replay(map[], hist), k) {
          ReplayLookup(t, From(log, stored + 1), k);
          ReplayLookup(map[], hist, k);
          if Last(hist, k).None? || Last(hist, k).value.offset <= stored {
            NoOldNews(hist, log, stored, k);
          }
        }
        SameLookupsSameTable(Replay(t, From(log, stored + 1)), Replay(map[], hist));
      }
    } else {
      var k :| Last(hist, k).Some? && Last(hist, k).value.offset > stored &&
               !(var kept := Last(From(log, stored + 1), k);
                 kept.Some? && kept.value.value == Last(hist, k).value.value);
      var t := StaleTable(hist, stored, k);
      assert Agrees(hist, t, stored);
      ReplayLookup(t, From(log, stored + 1), k);
      ReplayLookup(map[], hist, k);
      assert Lookup(Replay(t, From(log, stored + 1)), k) != Lookup(Replay(map[], hist), k);
    }
  }

  /** A local table that is right everywhere except on `k`, where it holds something else than `hist` ends on. */
  ghost function StaleTable(hist: seq<Record>, stored: int, k: Key): (t: Table)
    requires Last(hist, k).Some? && Last(hist, k).value.offset > stored
    ensures Agrees(hist, t, stored)
    ensures Lookup(t, k) != Last(hist, k).value.value
  {
    var full := Replay(map[], hist);
    assert forall j :: Lookup(full, j) == match Last(hist, j) case None => None case Some(r) => r.value by {
      forall j ensures Lookup(full, j) == match Last(hist, j) case None => None case Some(r) => r.value {
        ReplayLookup(map[], hist, j);
      }
    }
    var t := if Last(hist, k).value.value.None? then full[k := ""] else full - {k};
    assert forall j | j != k :: Lookup(t, j) == Lookup(full, j);
    t
  }
}
