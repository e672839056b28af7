/**
  The local half of a table partition: the writes that reached LevelDB, in order, and what can be
  read back after any prefix of them survived (storage/storage.go).
 */
module LocalStore {
  import opened Common
  import opened TableLog

  /** The key under which the storage keeps its offset, in the same key space as the table. */
  const OFFSET_KEY := "__offset"

  /** A table entry, or its deletion.  `id` names the write, here and in the log record it becomes. */
  datatype Put = Put(key: Key, value: Option<Bytes>, id: nat)

  /** A LevelDB write. */
  datatype Write = Data(put: Put) | Offset(offset: int)

  function PutOf(r: Record): Put { Put(r.key, r.value, r.id) }

  /** The last table write to key `k`. */
  ghost function LastWrite(disk: seq<Write>, k: Key): Option<Put> {
    if disk == [] then None
    else if disk[|disk| - 1].Data? && disk[|disk| - 1].put.key == k then Some(disk[|disk| - 1].put)
    else LastWrite(disk[..|disk| - 1], k)
  }

  /** What the local table holds for `k`. */
  ghost function Entry(disk: seq<Write>, k: Key): Option<Bytes> {
    match LastWrite(disk, k)
    case Some(p) => p.value
    case None => None
  }

  /** The persisted offset. */
  ghost function Stored(disk: seq<Write>): int {
    if disk == [] then OFFSET_NOT_STORED
    else if disk[|disk| - 1].Offset? then disk[|disk| - 1].offset
    else Stored(disk[..|disk| - 1])
  }

  lemma {:induction false} LastWriteIsMember(disk: seq<Write>, k: Key)
    ensures LastWrite(disk, k).Some? ==>
              Data(LastWrite(disk, k).value) in disk && LastWrite(disk, k).value.key == k
    ensures LastWrite(disk, k).None? ==> forall w | w in disk && w.Data? :: w.put.key != k
  {
    if disk != [] {
      LastWriteIsMember(disk[..|disk| - 1], k);
      assert disk == disk[..|disk| - 1] + [disk[|disk| - 1]];
    }
  }

  lemma {:induction false} StoredIsMember(disk: seq<Write>)
    ensures Stored(disk) == OFFSET_NOT_STORED || Offset(Stored(disk)) in disk
  {
    if disk != [] {
      StoredIsMember(disk[..|disk| - 1]);
      assert disk == disk[..|disk| - 1] + [disk[|disk| - 1]];
    }
  }

  lemma AfterData(disk: seq<Write>, p: Put, k: Key)
    ensures LastWrite(disk + [Data(p)], k) == if p.key == k then Some(p) else LastWrite(disk, k)
    ensures Stored(disk + [Data(p)]) == Stored(disk)
  {
    assert (disk + [Data(p)])[..|disk|] == disk;
  }

  lemma AfterOffset(disk: seq<Write>, n: int, k: Key)
    ensures LastWrite(disk + [Offset(n)], k) == LastWrite(disk, k)
    ensures Stored(disk + [Offset(n)]) == n
  {
    assert (disk + [Offset(n)])[..|disk|] == disk;
  }
}
