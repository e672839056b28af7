/**
  The k-way merge of storage/merge_iterator.go: a binary heap, as container/heap keeps it, of cursors
  ordered by the key each one stands on.
 */
module MergeIterator {
  import opened Common
  import opened Order
  import opened Heap
  import opened StorageIterator
  import LocalStore

  // ---------- container/heap ----------

  ghost predicate OnItems(heap: seq<Cursor>)
    reads heap
  {
    forall c | c in heap :: c.OnItem()
  }

  ghost function Keys(heap: seq<Cursor>): (keys: seq<string>)
    requires OnItems(heap)
    reads heap
    ensures |keys| == |heap| && forall i | 0 <= i < |heap| :: keys[i] == heap[i].Key()
  {
    seq(|heap|, i requires 0 <= i < |heap| && heap[i].OnItem() reads heap => heap[i].Key())
  }

  ghost predicate Heaped(heap: seq<Cursor>)
    reads heap
  {
    OnItems(heap) && IsHeap(Keys(heap))
  }

  predicate Less(heap: seq<Cursor>, i: nat, j: nat)
    requires i < |heap| && j < |heap| && heap[i].OnItem() && heap[j].OnItem()
    reads heap
  {
    Before(heap[i].Key(), heap[j].Key())
  }

  lemma SwapKeys(heap: seq<Cursor>, i: nat, j: nat)
    requires i < |heap| && j < |heap| && OnItems(heap)
    ensures multiset(Swap(heap, i, j)) == multiset(heap) && OnItems(Swap(heap, i, j))
    ensures Keys(Swap(heap, i, j)) == Swap(Keys(heap), i, j)
  {
    SwapPermutes(heap, i, j);
    SameElements(Swap(heap, i, j), heap);
  }

  method Up(heap0: seq<Cursor>, j0: nat) returns (heap: seq<Cursor>)
    requires j0 < |heap0| && OnItems(heap0) && HeapBut(Keys(heap0), j0)
    ensures multiset(heap) == multiset(heap0) && Heaped(heap)
  {
    heap := heap0;
    var j: nat := j0;
    while true
      invariant j < |heap| && multiset(heap) == multiset(heap0) && OnItems(heap) && HeapBut(Keys(heap), j)
      decreases j
    {
      var i := Parent(j);
      if i == j || !Less(heap, j, i) {
        break;
      }
      UpStep(Keys(heap), j);
      SwapKeys(heap, i, j);
      heap := Swap(heap, i, j);
      j := i;
    }
    HeapButNothing(Keys(heap), j);
  }

  method SmallerOf(heap: seq<Cursor>, i: nat) returns (j: nat)
    requires 2 * i + 1 < |heap| && OnItems(heap)
    ensures SmallerChild(Keys(heap), i, j)
  {
    var j1, j2 := 2 * i + 1, 2 * i + 2;
    j := j1;
    if j2 < |heap| && Less(heap, j2, j1) {
      j := j2;
      BeforeIsOneWay(heap[j2].Key(), heap[j1].Key());
    }
    BeforeIsIrreflexive(heap[j].Key());
  }

  /** One round of Down at position `i`: done, or the position to go on from. */
  method DownOnce(heap0: seq<Cursor>, i: nat) returns (heap: seq<Cursor>, j: nat, done: bool)
    requires OnItems(heap0) && HeapBelow(Keys(heap0), i)
    ensures multiset(heap) == multiset(heap0) && |heap| == |heap0| && OnItems(heap)
    ensures if done then IsHeap(Keys(heap)) else i < j < |heap| && HeapBelow(Keys(heap), j)
  {
    heap := heap0;
    if 2 * i + 1 >= |heap| {
      DownDone(Keys(heap), i);
      return heap, i, true;
    }
    j := SmallerOf(heap, i);
    done := !Less(heap, j, i);
    if done {
      SmallerChildInOrder(Keys(heap), i, j);
    } else {
      DownStep(Keys(heap), i, j);
      SwapKeys(heap, i, j);
      heap := Swap(heap, i, j);
    }
  }

  method Down(heap0: seq<Cursor>) returns (heap: seq<Cursor>)
    requires OnItems(heap0) && HeapBelow(Keys(heap0), 0)
    ensures multiset(heap) == multiset(heap0) && Heaped(heap)
  {
    heap := heap0;
    var i: nat := 0;
    var done := false;
    while !done
      invariant multiset(heap) == multiset(heap0) && |heap| == |heap0| && OnItems(heap)
      invariant if done then IsHeap(Keys(heap)) else HeapBelow(Keys(heap), i)
      decreases if done then 0 else 1, |heap0| - i
    {
      heap, i, done := DownOnce(heap, i);
    }
  }

  method Push(heap0: seq<Cursor>, c: Cursor) returns (heap: seq<Cursor>)
    requires Heaped(heap0) && c.OnItem()
    ensures multiset(heap) == multiset(heap0) + multiset{c} && Heaped(heap)
  {
    AppendedIsHeapBut(Keys(heap0), c.Key());
    assert Keys(heap0 + [c]) == Keys(heap0) + [c.Key()];
    heap := Up(heap0 + [c], |heap0|);
  }

  /** The root is swapped with the last element and taken off; what took its place sifts down. */
  method Pop(heap0: seq<Cursor>) returns (heap: seq<Cursor>, c: Cursor)
    requires Heaped(heap0) && heap0 != []
    ensures c == heap0[0] && multiset(heap0) == multiset(heap) + multiset{c} && Heaped(heap)
  {
    var n := |heap0| - 1;
    var swapped := Swap(heap0, 0, n);
    c := swapped[n];
    PopKeys(heap0);
    heap := Down(swapped[..n]);
  }

  lemma PopKeys(heap: seq<Cursor>)
    requires Heaped(heap) && heap != []
    ensures var rest := Swap(heap, 0, |heap| - 1)[..|heap| - 1];
            && multiset(heap) == multiset(rest) + multiset{heap[0]}
            && OnItems(rest) && HeapBelow(Keys(rest), 0)
  {
    var n := |heap| - 1;
    var swapped := Swap(heap, 0, n);
    SwapKeys(heap, 0, n);
    RootReplaced(Keys(heap));
    assert swapped == swapped[..n] + [heap[0]];
    assert Keys(swapped[..n]) == Keys(swapped)[..n];
  }

  // ---------- what is still to come ----------

  /** What a cursor still holds: nothing, unless it is in the heap. */
  ghost function Rest(c: Cursor, heap: seq<Cursor>): seq<Item>
    reads c
  {
    if c in heap then c.Left() else []
  }

  ghost function Rests(iters: seq<Cursor>, heap: seq<Cursor>): (rests: seq<seq<Item>>)
    reads iters
    ensures |rests| == |iters| && forall i | 0 <= i < |iters| :: rests[i] == Rest(iters[i], heap)
  {
    seq(|iters|, i requires 0 <= i < |iters| reads iters => Rest(iters[i], heap))
  }

  ghost function Union(lists: seq<seq<Item>>): multiset<Item> {
    if lists == [] then multiset{} else Union(lists[..|lists| - 1]) + multiset(lists[|lists| - 1])
  }

  lemma AddToBoth(a: multiset<Item>, b: multiset<Item>, c: multiset<Item>, d: multiset<Item>, x: multiset<Item>)
    requires a + b == c + d
    ensures a + x + b == c + x + d
  {
    assert a + x + b == a + b + x;
  }

  lemma {:induction false} UnionUpdate(lists: seq<seq<Item>>, i: nat, l: seq<Item>)
    requires i < |lists|
    ensures Union(lists[i := l]) + multiset(lists[i]) == Union(lists) + multiset(l)
  {
    var last := |lists| - 1;
    if i == last {
      assert lists[i := l][..last] == lists[..last];
    } else {
      UnionUpdate(lists[..last], i, l);
      assert lists[i := l][..last] == lists[..last][i := l];
      AddToBoth(Union(lists[..last][i := l]), multiset(lists[i]), Union(lists[..last]), multiset(l),
                multiset(lists[last]));
    }
  }

  lemma {:induction false} InUnion(lists: seq<seq<Item>>, x: Item)
    ensures x in Union(lists) <==> exists i :: 0 <= i < |lists| && x in lists[i]
  {
    if lists != [] {
      var last := |lists| - 1;
      InUnion(lists[..last], x);
      assert lists == lists[..last] + [lists[last]];
      if x in lists[last] {
        assert 0 <= last < |lists| && x in lists[last];
      }
      if x in Union(lists[..last]) {
        var i :| 0 <= i < last && x in lists[..last][i];
        assert x in lists[i];
      }
    }
  }

  // ---------- the merge ----------

  class Merge {
    const iters: seq<Cursor>
    var heap: seq<Cursor>
    var key: string
    var value: string
    var err: Option<string>

    /** The sub-iterators are distinct and sorted; those in the heap stand on items, in heap order. */
    ghost predicate Valid()
      reads this`heap, iters, heap
    {
      && NoDuplicates(iters) && (forall c | c in iters :: c.Valid())
      && MayBeHeap(heap)
    }

    /** The pairs still to come. */
    ghost function Pending(): multiset<Item>
      reads this`heap, iters
    {
      Union(Rests(iters, heap))
    }

    /** No sub-iterator and no value can fail. */
    ghost predicate Sound() {
      forall c | c in iters :: c.Sound()
    }

    /** Those that are not in the heap came to their end, not to an error. */
    ghost predicate NoneFailed()
      reads this`heap
    {
      forall c | c in iters && c !in heap :: !c.broken
    }

    /** The same, but for one that was taken out of the heap. */
    ghost predicate NoneFailedBut(c: Cursor)
      reads this`heap
    {
      forall d | d in iters && d !in heap && d != c :: !d.broken
    }

    lemma NotSound(c: Cursor)
      requires c in iters && !c.Sound()
      ensures !Sound()
    {
    }

    /** No pair still to come has a key before that of the root. */
    lemma RootIsNext(x: Item)
      requires Valid() && heap != [] && x in Pending()
      ensures !Before(x.0, heap[0].Key())
    {
      InUnion(Rests(iters, heap), x);
      var i :| 0 <= i < |iters| && x in Rests(iters, heap)[i];
      var c := iters[i];
      LeftIsAfter(c, x);
      var k :| 0 <= k < |heap| && heap[k] == c;
      RootIsSmallest(Keys(heap), k);
      NotBeforeIsTransitive(heap[0].Key(), c.Key(), x.0);
    }

    lemma RootIsFirst()
      requires Valid() && heap != []
      ensures forall x | x in Pending() :: !Before(x.0, heap[0].Key())
    {
      forall x | x in Pending() ensures !Before(x.0, heap[0].Key()) {
        RootIsNext(x);
      }
    }

    /** The heap part of Valid, for a heap to be. */
    ghost predicate MayBeHeap(h: seq<Cursor>)
      reads h
    {
      (forall c | c in h :: c in iters && multiset(h)[c] == 1) && Heaped(h)
    }

    method SetHeap(h: seq<Cursor>)
      requires Valid() && MayBeHeap(h)
      modifies this`heap
      ensures Valid() && heap == h && Pending() == old(Union(Rests(iters, h)))
    {
      heap := h;
    }

    /** Take the root off the heap, and what it holds off the pending pairs. */
    method TakeRoot() returns (c: Cursor)
      requires Valid() && heap != []
      modifies this`heap
      ensures Valid() && c == old(heap[0]) && c in iters && c !in heap && c.OnItem()
      ensures Pending() + multiset(c.Left()) == old(Pending())
      ensures old(NoneFailed()) ==> NoneFailedBut(c)
    {
      var rest;
      rest, c := Pop(heap);
      WithoutOne(heap, rest, c);
      PendingWithout(iters, heap, rest, c);
      SetHeap(rest);
    }

    /** A cursor that is not in the heap can be moved without disturbing it. */
    method MoveAside(c: Cursor, move: Move) returns (more: bool)
      requires Valid() && c in iters && c !in heap
      modifies c
      ensures Valid() && c.Left() == old(c.Target(move)) && more == c.OnItem()
      ensures !more ==> (c.Error().Some? <==> c.broken)
    {
      ghost var keys := Keys(heap);
      more := c.Move(move);
      assert Keys(heap) == keys;
    }

    method Insert(c: Cursor)
      requires Valid() && c in iters && c !in heap && c.OnItem()
      modifies this`heap
      ensures Valid() && forall d | d in iters :: d in heap <==> d in old(heap) || d == c
    {
      var all := Push(heap, c);
      WithOne(all, heap, c);
      SetHeap(all);
    }

    /** Move a cursor that is not in the heap, and add it if it stands on an item. */
    method MoveAndPush(c: Cursor, move: Move)
      requires Valid() && c in iters && c !in heap
      modifies this`heap, this`err, c
      ensures Valid() && c.Left() == old(c.Target(move))
      ensures forall d | d in iters :: d in heap <==> d in old(heap) || (d == c && c.OnItem())
      ensures err == if c.OnItem() then old(err) else c.Error()
      ensures !c.OnItem() ==> (err.Some? <==> c.broken)
    {
      var more := MoveAside(c, move);
      if more {
        Insert(c);
      } else {
        err := c.Error();
      }
    }

    /** The step of Next with the cursor it took: what is ahead of it becomes pending again. */
    method Advance(c: Cursor)
      requires Valid() && c in iters && c !in heap && c.OnItem()
      modifies this`heap, this`err, c
      ensures Valid() && Pending() == old(Pending()) + multiset(old(c.ahead))
      ensures old(err.None?) && Sound() ==> err.None?
      ensures err.None? && old(NoneFailedBut(c)) ==> NoneFailed()
    {
      ghost var rests := Rests(iters, heap);
      MoveAndPush(c, Move.Next);
      MorePending(iters, rests, Rests(iters, heap), c, old(c.ahead));
    }

    method Keep(k: string, v: string)
      requires Valid()
      modifies this`key, this`value
      ensures Valid() && key == k && value == v && Pending() == old(Pending())
    {
      key, value := k, v;
    }

    method Fail(e: string)
      requires Valid()
      modifies this`err
      ensures Valid() && err == Some(e) && Pending() == old(Pending())
    {
      err := Some(e);
    }

    /** Give out what the cursor stands on, and go on with it. */
    method Give(iter: Cursor, k: string, v: string)
      requires Valid() && iter in iters && iter !in heap && err.None? && iter.OnItem()
      modifies this`heap, this`err, this`key, this`value, iter
      ensures Valid() && key == k && value == v && Pending() == old(Pending()) + multiset(old(iter.ahead))
      ensures Sound() ==> err.None?
      ensures err.None? && old(NoneFailedBut(iter)) ==> NoneFailed()
    {
      Advance(iter);
      Keep(k, v);
    }

    /** Next, when there is something in the heap. */
    method Yield() returns (ok: bool)
      requires Valid() && err.None? && heap != []
      modifies this, heap[0]
      ensures Valid() && (!ok ==> err.Some?) && (Sound() ==> ok)
      ensures ok ==> err.None? && Pending() + multiset{(key, Ok(value))} == old(Pending())
      ensures ok ==> key == old(heap[0].Key())
      ensures ok && old(NoneFailed()) ==> NoneFailed()
    {
      var iter := TakeRoot();
      ghost var taken, ahead := Pending(), iter.ahead;
      var k, val := iter.Key(), iter.Value();
      if val.Err? {
        NotSound(iter);
        Keep(k, value);
        Fail(val.error);
        return false;
      }
      Give(iter, k, val.value);
      OneYielded(old(Pending()), taken, Pending(), (k, val), ahead);
      ok := err.None?;
    }

    method Next() returns (ok: bool)
      requires Valid()
      modifies this, iters
      ensures Valid()
      ensures old(err.Some? || heap == []) ==> !ok && err == old(err) && Pending() == old(Pending())
      ensures ok ==> err.None? && Pending() + multiset{(key, Ok(value))} == old(Pending())
      ensures ok ==> forall x | x in old(Pending()) :: !Before(x.0, key)
      ensures !ok && old(err.None? && heap != []) ==> err.Some? && !Sound()
      ensures err.None? && old(NoneFailed()) ==> NoneFailed() && (!ok ==> forall c | c in iters :: !c.broken)
      ensures forall c | c in iters && !(old(heap) != [] && c == old(heap[0])) :: c.pos == old(c.pos)
    {
      if err.Some? || heap == [] {
        return false;
      }
      RootIsFirst();
      assert heap[0] in iters;
      ok := Yield();
    }

    /** MoveAndPush, in terms of what the sub-iterators hold. */
    method Include(n: nat, move: Move)
      requires Valid() && n < |iters| && iters[n] !in heap && err.None?
      modifies this`heap, this`err, iters[n]
      ensures Valid() && Rest(iters[n], heap) == old(iters[n].Target(move))
      ensures forall i | 0 <= i < |iters| && i != n :: iters[i].Left() == old(iters[i].Left())
      ensures forall i | 0 <= i < |iters| && i != n :: iters[i].Target(move) == old(iters[i].Target(move))
      ensures forall i | 0 <= i < |iters| && i != n :: iters[i] in heap <==> iters[i] in old(heap)
      ensures Sound() ==> err.None?
      ensures err.None? && iters[n] !in heap ==> !iters[n].broken
    {
      assert forall i | 0 <= i < |iters| && i != n :: iters[i] != iters[n];
      MoveAndPush(iters[n], move);
    }

    /** The first `n` sub-iterators have been moved and included, the others not. */
    ghost predicate Built(n: nat, move: Move, targets: seq<seq<Item>>)
      requires n <= |iters| == |targets|
      reads this`heap, iters
    {
      && (forall i | 0 <= i < n :: Rest(iters[i], heap) == targets[i] && (iters[i] !in heap ==> !iters[i].broken))
      && (forall i | n <= i < |iters| :: iters[i] !in heap && iters[i].Target(move) == targets[i])
    }

    method IncludeNext(n: nat, move: Move, ghost targets: seq<seq<Item>>)
      requires Valid() && err.None? && n < |iters| == |targets| && Built(n, move, targets)
      modifies this`heap, this`err, iters[n]
      ensures Valid() && (err.None? ==> Built(n + 1, move, targets)) && (Sound() ==> err.None?)
    {
      Include(n, move);
    }

    /** Rebuild the heap from all sub-iterators, each moved once; stops at the first that fails. */
    method BuildHeap(move: Move)
      requires NoDuplicates(iters) && (forall c | c in iters :: c.Valid()) && err.None?
      modifies this`heap, this`err, iters
      ensures Valid() && (Sound() ==> err.None?)
      ensures err.None? ==> Rests(iters, heap) == old(Targets(iters, move)) && NoneFailed()
    {
      heap := [];
      ghost var targets := Targets(iters, move);
      var n := 0;
      while n < |iters|
        invariant 0 <= n <= |iters| && Valid() && err.None? && Built(n, move, targets)
      {
        IncludeNext(n, move, targets);
        if err.Some? {
          return;
        }
        n := n + 1;
      }
    }

    /** NewMultiIterator: everything ahead of the sub-iterators is to come. */
    constructor (iters: seq<Cursor>)
      requires NoDuplicates(iters) && forall c | c in iters :: c.Valid()
      modifies iters
      ensures this.iters == iters && Valid() && (Sound() ==> err.None?)
      ensures err.None? ==> Pending() == old(Ahead(iters)) && NoneFailed()
    {
      ghost var targets := Targets(iters, Move.Next);
      this.iters, heap, key, value, err := iters, [], "", "", None;
      new;
      assert Targets(this.iters, Move.Next) == targets;
      BuildHeap(Move.Next);
    }

    /** Everything from `k` on is to come, wherever the iteration was. */
    method Seek(k: string) returns (ok: bool)
      requires Valid()
      modifies this`heap, this`err, iters
      ensures Valid()
      ensures old(err.Some?) ==> !ok && err == old(err) && Pending() == old(Pending())
      ensures old(err.None?) && Sound() ==> err.None?
      ensures err.None? ==> NoneFailed()
      ensures err.None? && OffsetsHidden(iters) ==> forall x: Item :: SoughtRight(iters, k, Pending(), x)
      ensures ok <==> err.None? && exists x :: x in AllItems(iters) && !Before(x.0, k)
    {
      if err.Some? {
        return false;
      }
      ghost var targets := Targets(iters, SeekTo(k));
      assert forall i | 0 <= i < |iters| :: iters[i] in iters && iters[i].Valid();
      assert AreFrom(iters, targets, k);
      BuildHeap(SeekTo(k));
      if err.None? {
        SomeFrom(iters, targets, k);
        AllSought(iters, targets, k);
        PendingWhenHeap();
        assert Pending() == Union(targets);
      }
      ok := err.None? && |heap| > 0;
    }

    /** There is something to come exactly when the heap is not empty. */
    lemma PendingWhenHeap()
      requires Valid()
      ensures heap != [] <==> exists x :: x in Pending()
    {
      var rests := Rests(iters, heap);
      if heap != [] {
        assert heap[0] in iters;
        var i :| 0 <= i < |iters| && iters[i] == heap[0];
        assert rests[i][0] in rests[i];
        InUnion(rests, rests[i][0]);
      }
      if x :| x in Pending() {
        InUnion(rests, x);
      }
    }

    /** Next until it says no: all that was to come, in order. */
    method Drain() returns (out: seq<Item>)
      requires Valid()
      modifies this, iters
      ensures Valid() && SortedItems(out)
      ensures old(err.None?) && Sound() ==> err.None?
      ensures err.None? ==> multiset(out) == old(Pending()) && Pending() == multiset{}
      ensures err.None? && old(NoneFailed()) ==> forall c | c in iters :: !c.broken
    {
      out := [];
      while true
        invariant Valid() && Follows(out, Pending())
        invariant err.None? ==> multiset(out) + Pending() == old(Pending())
        invariant old(err.None?) && Sound() ==> err.None?
        invariant err.None? && old(NoneFailed()) ==> NoneFailed()
        decreases |Pending()|
      {
        ghost var pending := Pending();
        PendingWhenHeap();
        var ok := Next();
        if !ok {
          break;
        }
        FollowsNext(out, pending, Pending(), (key, Ok(value)));
        out := out + [(key, Ok(value))];
      }
    }
  }

  /** The pairs given out are in order, and none of those to come belongs before one of them. */
  ghost predicate Follows(out: seq<Item>, pending: multiset<Item>) {
    SortedItems(out) && forall i, x | 0 <= i < |out| && x in pending :: !Before(x.0, out[i].0)
  }

  lemma FollowsNext(out: seq<Item>, before: multiset<Item>, after: multiset<Item>, x: Item)
    requires Follows(out, before) && after + multiset{x} == before && forall y | y in before :: !Before(y.0, x.0)
    ensures Follows(out + [x], after) && multiset(out + [x]) + after == multiset(out) + before
  {
    assert x in before;
    assert forall y | y in after :: y in before;
  }

  // ---------- all of the sub-iterators ----------

  /** What the sub-iterators hold once each has moved. */
  ghost function Targets(iters: seq<Cursor>, move: Move): (lists: seq<seq<Item>>)
    reads iters
    ensures |lists| == |iters| && forall i | 0 <= i < |iters| :: lists[i] == iters[i].Target(move)
  {
    seq(|iters|, i requires 0 <= i < |iters| reads iters => iters[i].Target(move))
  }

  /** What is ahead of the sub-iterators' positions. */
  ghost function Ahead(iters: seq<Cursor>): multiset<Item>
    reads iters
  {
    Union(Targets(iters, Move.Next))
  }

  ghost function ItemLists(iters: seq<Cursor>): (lists: seq<seq<Item>>)
    ensures |lists| == |iters| && forall i | 0 <= i < |iters| :: lists[i] == iters[i].items
  {
    seq(|iters|, i requires 0 <= i < |iters| => iters[i].items)
  }

  ghost function AllItems(iters: seq<Cursor>): multiset<Item> {
    Union(ItemLists(iters))
  }

  /** Every sub-iterator knows where its storage keeps the offset. */
  ghost predicate OffsetsHidden(iters: seq<Cursor>) {
    forall i | 0 <= i < |iters| :: Hides(iters[i].items, iters[i].hidden)
  }

  /**
    What must be pending after seeking `k`: every pair of every input with a key not before it, as often
    as they have it.  The one exception is the offset, which shows up exactly if the Seek stops right on it.
   */
  ghost predicate SoughtRight(iters: seq<Cursor>, k: string, pending: multiset<Item>, x: Item) {
    if x.0 == LocalStore.OFFSET_KEY then x in pending <==> exists c | c in iters :: StandsOn(c.items, k, x)
    else pending[x] == if Before(x.0, k) then 0 else AllItems(iters)[x]
  }

  // ---------- what Next goes through ----------

  lemma {:induction false} SameCounts(a: seq<seq<Item>>, b: seq<seq<Item>>, x: Item)
    requires |a| == |b| && forall i | 0 <= i < |a| :: multiset(a[i])[x] == multiset(b[i])[x]
    ensures Union(a)[x] == Union(b)[x]
  {
    if a != [] {
      SameCounts(a[..|a| - 1], b[..|b| - 1], x);
    }
  }

  /** New sub-iterators are ahead of all their items, but for the offset. */
  lemma AheadOfNew(iters: seq<Cursor>, x: Item)
    requires OffsetsHidden(iters) && forall c | c in iters :: c.Valid() && c.pos == -1
    ensures Ahead(iters)[x] == if x.0 == LocalStore.OFFSET_KEY then 0 else AllItems(iters)[x]
  {
    var targets := Targets(iters, Move.Next);
    forall i | 0 <= i < |iters| ensures targets[i] == Later(iters[i].items, iters[i].hidden, 0) {
      assert iters[i] in iters;
    }
    if x.0 != LocalStore.OFFSET_KEY {
      forall i | 0 <= i < |iters| ensures multiset(targets[i])[x] == multiset(ItemLists(iters)[i])[x] {
        LaterCount(iters[i].items, iters[i].hidden, 0, x);
        assert iters[i].items[0..] == iters[i].items;
      }
      SameCounts(targets, ItemLists(iters), x);
    } else {
      InUnion(targets, x);
      if x in Ahead(iters) {
        var i :| 0 <= i < |targets| && x in targets[i];
        LaterHidesOffset(iters[i].items, iters[i].hidden, 0, x);
      }
    }
  }

  // ---------- what Seek leaves ----------

  ghost predicate AreFrom(iters: seq<Cursor>, rests: seq<seq<Item>>, k: string) {
    |rests| == |iters| && forall i | 0 <= i < |iters| ::
      SortedItems(iters[i].items) && rests[i] == From(iters[i].items, iters[i].hidden, FirstAtLeast(iters[i].items, k))
  }

  lemma {:induction false} CountAllFrom(lists: seq<seq<Item>>, rests: seq<seq<Item>>, k: string, x: Item)
    requires |lists| == |rests| && forall i | 0 <= i < |lists| ::
               multiset(rests[i])[x] == if Before(x.0, k) then 0 else multiset(lists[i])[x]
    ensures Union(rests)[x] == if Before(x.0, k) then 0 else Union(lists)[x]
  {
    if lists != [] {
      var last := |lists| - 1;
      CountAllFrom(lists[..last], rests[..last], k, x);
    }
  }

  lemma SeekFinds(iters: seq<Cursor>, rests: seq<seq<Item>>, k: string, x: Item)
    requires AreFrom(iters, rests, k) && OffsetsHidden(iters)
    ensures SoughtRight(iters, k, Union(rests), x)
  {
    if x.0 == LocalStore.OFFSET_KEY {
      OffsetFrom(iters, rests, k, x);
    } else {
      forall i | 0 <= i < |iters|
        ensures multiset(rests[i])[x] == if Before(x.0, k) then 0 else multiset(ItemLists(iters)[i])[x]
      {
        CountFrom(iters[i].items, iters[i].hidden, k, x);
      }
      CountAllFrom(ItemLists(iters), rests, k, x);
    }
  }

  lemma AllSought(iters: seq<Cursor>, rests: seq<seq<Item>>, k: string)
    requires AreFrom(iters, rests, k)
    ensures OffsetsHidden(iters) ==> forall x: Item :: SoughtRight(iters, k, Union(rests), x)
  {
    if OffsetsHidden(iters) {
      forall x: Item ensures SoughtRight(iters, k, Union(rests), x) {
        SeekFinds(iters, rests, k, x);
      }
    }
  }

  /** Something is left exactly if some key is not before `k`, be it the offset's. */
  lemma SomeFrom(iters: seq<Cursor>, rests: seq<seq<Item>>, k: string)
    requires AreFrom(iters, rests, k)
    ensures (exists x :: x in Union(rests)) <==> exists x :: x in AllItems(iters) && !Before(x.0, k)
  {
    if x :| x in Union(rests) {
      InUnion(rests, x);
      var i :| 0 <= i < |rests| && x in rests[i];
      var y := iters[i].items[FirstAtLeast(iters[i].items, k)];
      FirstIsNotBefore(iters[i].items, k);
      InUnion(ItemLists(iters), y);
      assert y in ItemLists(iters)[i];
    }
    if x :| x in AllItems(iters) && !Before(x.0, k) {
      InUnion(ItemLists(iters), x);
      var i :| 0 <= i < |iters| && x in ItemLists(iters)[i];
      FirstIsNotBefore(iters[i].items, k);
      var y := iters[i].items[FirstAtLeast(iters[i].items, k)];
      assert y in rests[i];
      InUnion(rests, y);
    }
  }

  lemma OffsetFrom(iters: seq<Cursor>, rests: seq<seq<Item>>, k: string, x: Item)
    requires AreFrom(iters, rests, k) && OffsetsHidden(iters) && x.0 == LocalStore.OFFSET_KEY
    ensures x in Union(rests) <==> exists c | c in iters :: StandsOn(c.items, k, x)
  {
    InUnion(rests, x);
    if x in Union(rests) {
      var i :| 0 <= i < |rests| && x in rests[i];
      OnlyAtHead(iters[i].items, iters[i].hidden, FirstAtLeast(iters[i].items, k), x);
      assert iters[i] in iters && StandsOn(iters[i].items, k, x);
    }
    if c :| c in iters && StandsOn(c.items, k, x) {
      var i :| 0 <= i < |iters| && iters[i] == c;
      assert rests[i][0] == x;
    }
  }

  lemma OneYielded(before: multiset<Item>, taken: multiset<Item>, after: multiset<Item>, x: Item, ahead: seq<Item>)
    requires taken + multiset([x] + ahead) == before && after == taken + multiset(ahead)
    ensures after + multiset{x} == before
  {
    assert multiset([x] + ahead) == multiset{x} + multiset(ahead);
  }

  lemma MorePending(iters: seq<Cursor>, before: seq<seq<Item>>, after: seq<seq<Item>>, c: Cursor, l: seq<Item>)
    requires NoDuplicates(iters) && c in iters && |before| == |after| == |iters|
    requires forall i | 0 <= i < |iters| ::
               if iters[i] == c then before[i] == [] && after[i] == l else after[i] == before[i]
    ensures Union(after) == Union(before) + multiset(l)
  {
    var k :| 0 <= k < |iters| && iters[k] == c;
    OneChanged(before, after, k);
  }

  lemma WithOne<T>(all: seq<T>, rest: seq<T>, x: T)
    requires multiset(all) == multiset(rest) + multiset{x} && x !in rest &&
             forall y | y in rest :: multiset(rest)[y] == 1
    ensures forall y :: y in all <==> y in rest || y == x
    ensures forall y | y in all :: multiset(all)[y] == 1
  {
    assert forall y :: y in all <==> y in multiset(all);
    assert forall y :: y in rest <==> y in multiset(rest);
  }

  lemma WithoutOne<T>(all: seq<T>, rest: seq<T>, x: T)
    requires multiset(all) == multiset(rest) + multiset{x} && forall y | y in all :: multiset(all)[y] == 1
    ensures forall y :: y in rest <==> y in all && y != x
    ensures forall y | y in rest :: multiset(rest)[y] == 1
  {
    assert forall y :: y in all <==> y in multiset(all);
    assert forall y :: y in rest <==> y in multiset(rest);
  }

  lemma PendingWithout(iters: seq<Cursor>, all: seq<Cursor>, rest: seq<Cursor>, c: Cursor)
    requires NoDuplicates(iters) && c in iters && c in all && forall d :: d in rest <==> d in all && d != c
    ensures Union(Rests(iters, rest)) + multiset(c.Left()) == Union(Rests(iters, all))
  {
    var k :| 0 <= k < |iters| && iters[k] == c;
    OneChanged(Rests(iters, all), Rests(iters, rest), k);
  }

  lemma OneChanged(before: seq<seq<Item>>, after: seq<seq<Item>>, k: nat)
    requires |before| == |after| && k < |before| && forall i | 0 <= i < |before| && i != k :: before[i] == after[i]
    ensures Union(after) + multiset(before[k]) == Union(before) + multiset(after[k])
  {
    assert after == before[k := after[k]];
    UnionUpdate(before, k, after[k]);
  }
}
