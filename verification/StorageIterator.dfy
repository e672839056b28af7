/**
  The iterator of the LevelDB storage (storage/iterator.go): entries in key order, where Next goes over
  the entry that holds the offset and Seek does not.
 */
module StorageIterator {
  import opened Common
  import opened Order
  import LocalStore

  /** A key, and what reading its value gives. */
  type Item = (string, Result<string>)

  ghost predicate SortedItems(items: seq<Item>) {
    forall i, j | 0 <= i < j < |items| :: !Before(items[j].0, items[i].0)
  }

  /** How buildHeap moves a cursor: the two functions it is called with. */
  datatype Move = Next | SeekTo(key: string)

  function FirstAtLeast(items: seq<Item>, key: string): (n: nat)
    ensures n <= |items|
  {
    if items == [] || !Before(items[0].0, key) then 0 else 1 + FirstAtLeast(items[1..], key)
  }

  /** `hidden` is where the storage keeps its offset among the entries, if it does. */
  ghost predicate Hides(items: seq<Item>, hidden: nat) {
    forall i | 0 <= i < |items| :: items[i].0 == LocalStore.OFFSET_KEY <==> i == hidden
  }

  /** What Next goes through from position `pos` on: everything but the offset. */
  ghost function Later(items: seq<Item>, hidden: nat, pos: nat): seq<Item>
    requires pos <= |items|
  {
    if pos <= hidden < |items| then items[pos..hidden] + items[hidden + 1..] else items[pos..]
  }

  /** The same, element by element. */
  ghost predicate IsLater(items: seq<Item>, hidden: nat, pos: nat, later: seq<Item>) {
    && pos <= |items| && |later| == |items| - pos - (if pos <= hidden < |items| then 1 else 0)
    && forall i | 0 <= i < |later| :: later[i] == items[pos + i + if pos <= hidden <= pos + i then 1 else 0]
  }

  lemma LaterIsLater(items: seq<Item>, hidden: nat, pos: nat, later: seq<Item>)
    requires pos <= |items|
    ensures IsLater(items, hidden, pos, later) <==> later == Later(items, hidden, pos)
  {
    assert IsLater(items, hidden, pos, Later(items, hidden, pos));
  }

  /** What a cursor has to give once Seek has stopped at `pos`, which may be the offset. */
  ghost function From(items: seq<Item>, hidden: nat, pos: nat): seq<Item> {
    if pos < |items| then [items[pos]] + Later(items, hidden, pos + 1) else []
  }

  /** A sorted sub-iterator; one that is broken ends in an error instead of just ending. */
  class Cursor {
    const items: seq<Item>
    const broken: bool
    const hidden: nat
    var pos: int
    ghost var ahead: seq<Item> // what Next will go through

    /** Finds where the offset is, so that Next need not compare keys. */
    constructor (items: seq<Item>, broken: bool)
      requires SortedItems(items) && forall i, j | 0 <= i < j < |items| :: items[i].0 != items[j].0
      ensures this.items == items && this.broken == broken && pos == -1 && Valid()
      ensures Hides(items, hidden) && ahead == Later(items, hidden, 0)
    {
      var h := 0;
      while h < |items| && items[h].0 != LocalStore.OFFSET_KEY
        invariant h <= |items| && forall i | 0 <= i < h :: items[i].0 != LocalStore.OFFSET_KEY
      {
        h := h + 1;
      }
      this.items, this.broken, hidden, pos := items, broken, h, -1;
      ahead := Later(items, h, 0);
      LaterIsLater(items, h, 0, Later(items, h, 0));
    }

    ghost predicate Valid()
      reads this
    {
      && -1 <= pos <= |items| && SortedItems(items)
      && IsLater(items, hidden, if pos < |items| then pos + 1 else pos, ahead)
    }

    predicate OnItem()
      reads this
    {
      0 <= pos < |items|
    }

    ghost predicate Sound() {
      !broken && forall i | 0 <= i < |items| :: items[i].1.Ok?
    }

    /** The item it stands on, and what Next will go through. */
    ghost function Left(): seq<Item>
      reads this
    {
      if OnItem() then [items[pos]] + ahead else []
    }

    /** What it will have to give once it is moved. */
    ghost function Target(move: Move): seq<Item>
      reads this
    {
      match move
      case Next => ahead
      case SeekTo(key) => From(items, hidden, FirstAtLeast(items, key))
    }

    function Key(): string
      requires OnItem()
      reads this
    {
      items[pos].0
    }

    function Value(): Result<string>
      requires OnItem()
      reads this
    {
      items[pos].1
    }

    function Error(): Option<string>
      reads this
    {
      if broken && pos == |items| then Some("iterator failed") else None
    }

    method Step()
      requires Valid()
      modifies this
      ensures Valid() && Left() == old(ahead) && pos >= 0
    {
      if pos < |items| {
        pos := pos + 1;
        if pos < |items| && pos == hidden {
          pos := pos + 1;
        }
      }
      ahead := if ahead == [] then [] else ahead[1..];
    }

    method SeekFirst(key: string)
      requires Valid()
      modifies this
      ensures Valid() && pos == FirstAtLeast(items, key) && Left() == From(items, hidden, pos)
    {
      pos := 0;
      while pos < |items| && Before(items[pos].0, key)
        invariant 0 <= pos <= |items| && pos + FirstAtLeast(items[pos..], key) == FirstAtLeast(items, key)
      {
        assert items[pos..][1..] == items[pos + 1..];
        pos := pos + 1;
      }
      ahead := Later(items, hidden, if pos < |items| then pos + 1 else pos);
      LaterIsLater(items, hidden, if pos < |items| then pos + 1 else pos, ahead);
    }

    method Move(move: Move) returns (ok: bool)
      requires Valid()
      modifies this
      ensures Valid() && Left() == old(Target(move)) && ok == OnItem()
      ensures !ok ==> (Error().Some? <==> broken)
    {
      match move {
        case Next => Step();
        case SeekTo(key) => SeekFirst(key);
      }
      ok := 0 <= pos < |items|;
    }
  }

  // ---------- what it goes through ----------

  /** Seeking `k` stops at `x`. */
  ghost predicate StandsOn(items: seq<Item>, k: string, x: Item) {
    FirstAtLeast(items, k) < |items| && items[FirstAtLeast(items, k)] == x
  }

  lemma FromIsIn(items: seq<Item>, hidden: nat, pos: nat, x: Item)
    requires x in From(items, hidden, pos)
    ensures exists j :: pos <= j < |items| && items[j] == x
  {
    var rest := From(items, hidden, pos);
    var j :| 0 <= j < |rest| && rest[j] == x;
    assert x == items[if pos < hidden <= pos + j && hidden < |items| then pos + j + 1 else pos + j];
  }

  /** It misses no other key than the offset's. */
  lemma LaterCount(items: seq<Item>, hidden: nat, pos: nat, x: Item)
    requires Hides(items, hidden) && pos <= |items| && x.0 != LocalStore.OFFSET_KEY
    ensures multiset(Later(items, hidden, pos))[x] == multiset(items[pos..])[x]
  {
    if pos <= hidden < |items| {
      assert items[pos..] == items[pos..hidden] + [items[hidden]] + items[hidden + 1..];
    }
  }

  lemma SplitAt(items: seq<Item>, pos: nat)
    requires pos < |items|
    ensures items[pos..] == [items[pos]] + items[pos + 1..]
  {
  }

  lemma FromCount(items: seq<Item>, hidden: nat, pos: nat, x: Item)
    requires Hides(items, hidden) && pos <= |items| && x.0 != LocalStore.OFFSET_KEY
    ensures multiset(From(items, hidden, pos))[x] == multiset(items[pos..])[x]
  {
    if pos < |items| {
      LaterCount(items, hidden, pos + 1, x);
      SplitAt(items, pos);
    }
  }

  lemma LaterHidesOffset(items: seq<Item>, hidden: nat, pos: nat, x: Item)
    requires Hides(items, hidden) && pos <= |items| && x in Later(items, hidden, pos)
    ensures x.0 != LocalStore.OFFSET_KEY
  {
  }

  lemma {:induction false} FirstIsNotBefore(items: seq<Item>, k: string)
    ensures var p := FirstAtLeast(items, k);
            && (p < |items| ==> !Before(items[p].0, k))
            && (p == |items| ==> forall x | x in items :: Before(x.0, k))
  {
    if items != [] && Before(items[0].0, k) {
      FirstIsNotBefore(items[1..], k);
      assert items == [items[0]] + items[1..];
    }
  }

  lemma OnlyAtHead(items: seq<Item>, hidden: nat, pos: nat, x: Item)
    requires Hides(items, hidden) && x.0 == LocalStore.OFFSET_KEY && x in From(items, hidden, pos)
    ensures pos < |items| && items[pos] == x
  {
    if x in Later(items, hidden, pos + 1) {
      LaterHidesOffset(items, hidden, pos + 1, x);
    }
  }

  lemma LeftIsAfter(c: Cursor, x: Item)
    requires c.Valid() && x in c.Left()
    ensures c.OnItem() && !Before(x.0, c.Key())
  {
    LaterIsLater(c.items, c.hidden, c.pos + 1, c.ahead);
    assert c.Left() == From(c.items, c.hidden, c.pos);
    FromIsIn(c.items, c.hidden, c.pos, x);
    BeforeIsIrreflexive(x.0);
  }

  lemma {:induction false} CountSuffix(items: seq<Item>, k: string, x: Item)
    requires SortedItems(items)
    ensures multiset(items[FirstAtLeast(items, k)..])[x] == if Before(x.0, k) then 0 else multiset(items)[x]
  {
    if items != [] {
      assert items == [items[0]] + items[1..];
      if Before(items[0].0, k) {
        CountSuffix(items[1..], k, x);
        assert items[FirstAtLeast(items, k)..] == items[1..][FirstAtLeast(items[1..], k)..];
      } else if x in items {
        var i :| 0 <= i < |items| && items[i] == x;
        if i > 0 {
          NotBeforeIsTransitive(k, items[0].0, x.0);
        }
      }
    }
  }

  lemma CountFrom(items: seq<Item>, hidden: nat, k: string, x: Item)
    requires SortedItems(items) && Hides(items, hidden) && x.0 != LocalStore.OFFSET_KEY
    ensures multiset(From(items, hidden, FirstAtLeast(items, k)))[x] ==
            if Before(x.0, k) then 0 else multiset(items)[x]
  {
    CountSuffix(items, k, x);
    FromCount(items, hidden, FirstAtLeast(items, k), x);
  }
}
