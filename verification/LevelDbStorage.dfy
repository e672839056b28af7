/**
  The LevelDB-backed storage (storage/storage.go).  LevelDB itself is a map that never fails; the
  two goroutine-visible halves of a tick are two methods.
 */
module LevelDbStorage {
  import opened Common
  import opened Decimal
  import opened TableLog
  import opened LocalStore

  /** The database after a sequence of writes. */
  function Contents(disk: seq<Write>): map<string, string> {
    if disk == [] then map[] else Written(Contents(disk[..|disk| - 1]), disk[|disk| - 1])
  }

  function Written(db: map<string, string>, w: Write): map<string, string> {
    match w
    case Data(Put(k, Some(v), _)) => db[k := v]
    case Data(Put(k, None, _)) => db - {k}
    case Offset(n) => db[OFFSET_KEY := Format(n)]
  }

  lemma ContentsAfter(disk: seq<Write>, w: Write)
    ensures Contents(disk + [w]) == Written(Contents(disk), w)
  {
    assert (disk + [w])[..|disk|] == disk;
  }

  /** What GetOffset reads from the database; `None` if there is nothing to read. */
  function ReadOffset(db: map<string, string>): Result<Option<int>> {
    if OFFSET_KEY !in db then Ok(None)
    else
      match Parse(db[OFFSET_KEY])
      case None => Err("error decoding offset")
      case Some(n) => Ok(Some(n))
  }

  /** No table entry lives under the offset's key. */
  ghost predicate NoCollision(disk: seq<Write>) {
    forall p | Data(p) in disk :: p.key != OFFSET_KEY
  }

  ghost function AsOption(stored: int): Option<int> {
    if stored == OFFSET_NOT_STORED then None else Some(stored)
  }

  /** Table and offset share one database and do not disturb each other, as long as keys do not collide. */
  lemma {:induction false} ContentsReadBack(disk: seq<Write>, k: Key)
    requires NoCollision(disk) && k != OFFSET_KEY && forall n | Offset(n) in disk :: n != OFFSET_NOT_STORED
    ensures Lookup(Contents(disk), k) == Entry(disk, k)
    ensures ReadOffset(Contents(disk)) == Ok(AsOption(Stored(disk)))
  {
    if disk != [] {
      var front, w := disk[..|disk| - 1], disk[|disk| - 1];
      assert disk == front + [w];
      assert forall v | v in front :: v in disk;
      ContentsReadBack(front, k);
      if w.Offset? {
        ParseOfFormat(w.offset);
      } else {
        assert w == Data(w.put);
      }
    }
  }

  /**
    A table write leaves the persisted offset alone exactly when its key is not the offset's own, or
    its value happens to spell that offset.
   */
  lemma OffsetSurvivesTableWrite(db: map<string, string>, p: Put, n: int)
    requires ReadOffset(db) == Ok(Some(n))
    ensures ReadOffset(Written(db, Data(p))) == ReadOffset(db) <==>
            p.key != OFFSET_KEY || (p.value.Some? && Parse(p.value.value) == Some(n))
  {
    match p.value
    case None =>
    case Some(v) =>
      assert p.key == OFFSET_KEY ==> Written(db, Data(p))[OFFSET_KEY] == v;
  }

  class Storage {
    var db: map<string, string>
    var offset: int
    var recovered: bool
    var closed: bool
    ghost var disk: seq<Write>

    ghost predicate Valid()
      reads this
    {
      db == Contents(disk)
    }

    /** Opening a database that `found` left behind. */
    constructor (ghost found: seq<Write>, db: map<string, string>)
      requires db == Contents(found)
      ensures Valid() && disk == found && offset == 0 && !recovered && !closed
    {
      this.db, offset, recovered, closed := db, 0, false, false;
      disk := found;
    }

    method Get(key: string) returns (value: Option<string>)
      ensures value == Lookup(db, key)
    {
      if key in db {
        value := Some(db[key]);
      } else {
        value := None;
      }
    }

    method Set(key: string, value: string, ghost id: nat)
      requires Valid()
      modifies this`db, this`disk
      ensures Valid() && disk == old(disk) + [Data(Put(key, Some(value), id))]
    {
      ContentsAfter(disk, Data(Put(key, Some(value), id)));
      db := db[key := value];
      disk := disk + [Data(Put(key, Some(value), id))];
    }

    method Delete(key: string, ghost id: nat)
      requires Valid()
      modifies this`db, this`disk
      ensures Valid() && disk == old(disk) + [Data(Put(key, None, id))]
    {
      ContentsAfter(disk, Data(Put(key, None, id)));
      db := db - {key};
      disk := disk + [Data(Put(key, None, id))];
    }

    method PutOffset(o: int)
      requires Valid()
      modifies this`db, this`disk
      ensures Valid() && disk == old(disk) + [Offset(o)]
    {
      ContentsAfter(disk, Offset(o));
      db := db[OFFSET_KEY := Format(o)];
      disk := disk + [Offset(o)];
    }

    /** Memory before recovery, the database after it; memory 0 means not loaded. */
    method GetOffset(default: int) returns (r: Result<int>)
      requires Valid()
      ensures !recovered && offset != 0 ==> r == Ok(offset)
      ensures (recovered || offset == 0) && NoCollision(disk) &&
              (forall n | Offset(n) in disk :: n != OFFSET_NOT_STORED) ==>
                r == Ok(if Stored(disk) == OFFSET_NOT_STORED then default else Stored(disk))
      ensures r.Err? ==> OFFSET_KEY in db && Parse(db[OFFSET_KEY]).None?
    {
      if !recovered {
        if offset != 0 {
          return Ok(offset);
        }
      }
      if NoCollision(disk) && forall n | Offset(n) in disk :: n != OFFSET_NOT_STORED {
        ContentsReadBack(disk, "");
      }
      var data := Get(OFFSET_KEY);
      if data.None? {
        return Ok(default);
      }
      match Parse(data.value) {
        case None => r := Err("error decoding offset");
        case Some(n) => r := Ok(n);
      }
    }

    method SetOffset(o: int)
      requires Valid()
      modifies this`db, this`disk, this`offset
      ensures Valid() && offset == o
      ensures disk == if recovered then old(disk) + [Offset(o)] else old(disk)
    {
      offset := o;
      if recovered {
        PutOffset(o);
      }
    }

    /** Closing the recovered channel twice panics. */
    method MarkRecovered()
      requires Valid() && !recovered
      modifies this`db, this`disk, this`recovered
      ensures Valid() && recovered
      ensures disk == if offset != 0 then old(disk) + [Offset(offset)] else old(disk)
    {
      var cur := offset;
      if cur != 0 {
        PutOffset(cur);
      }
      recovered := true;
    }

    /** The two halves of a tick; anything may happen between them. */
    method TickLoad() returns (cur: int)
      ensures cur == offset
    {
      cur := offset;
    }

    method TickPut(cur: int)
      requires Valid()
      modifies this`db, this`disk
      ensures Valid()
      ensures disk == if cur != 0 then old(disk) + [Offset(cur)] else old(disk)
    {
      if cur != 0 {
        PutOffset(cur);
      }
    }

    method Close()
      requires Valid() && !closed
      modifies this`db, this`disk, this`closed
      ensures Valid() && closed
      ensures disk == if offset != 0 then old(disk) + [Offset(offset)] else old(disk)
    {
      closed := true;
      var cur := offset;
      if cur != 0 {
        PutOffset(cur);
      }
    }
  }
}
