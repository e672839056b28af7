/** The order of a binary heap laid out in a sequence, and one step of sifting up or down in it. */
module Heap {
  import opened Order

  function Parent(i: nat): nat {
    if i == 0 then 0 else (i - 1) / 2
  }

  ghost predicate InOrder(keys: seq<string>, i: nat)
    requires i < |keys|
  {
    !Before(keys[i], keys[Parent(i)])
  }

  ghost predicate IsHeap(keys: seq<string>) {
    forall i | 0 <= i < |keys| :: InOrder(keys, i)
  }

  function Swap<T>(s: seq<T>, i: nat, j: nat): seq<T>
    requires i < |s| && j < |s|
  {
    s[i := s[j]][j := s[i]]
  }

  lemma SwapPermutes<T>(s: seq<T>, i: nat, j: nat)
    requires i < |s| && j < |s|
    ensures multiset(Swap(s, i, j)) == multiset(s)
  {
  }

  lemma SameElements<T>(a: seq<T>, b: seq<T>)
    requires multiset(a) == multiset(b)
    ensures |a| == |b| && forall x :: x in a <==> x in b
  {
    assert |multiset(a)| == |a| && |multiset(b)| == |b|;
    assert forall x :: x in a <==> x in multiset(a);
    assert forall x :: x in b <==> x in multiset(b);
  }

  /** The root has a smallest key. */
  lemma {:induction false} RootIsSmallest(keys: seq<string>, i: nat)
    requires IsHeap(keys) && i < |keys|
    ensures !Before(keys[i], keys[0])
  {
    if i == 0 {
      BeforeIsIrreflexive(keys[0]);
    } else {
      RootIsSmallest(keys, Parent(i));
      assert InOrder(keys, i);
      NotBeforeIsTransitive(keys[0], keys[Parent(i)], keys[i]);
    }
  }

  // ---------- sifting up ----------

  /** Only position `j` may be out of order, and its children do not mind its parent in its place. */
  ghost predicate HeapBut(keys: seq<string>, j: nat)
    requires j < |keys|
  {
    && (forall i | 0 <= i < |keys| && i != j :: InOrder(keys, i))
    && (forall i | 0 < i < |keys| && Parent(i) == j :: !Before(keys[i], keys[Parent(j)]))
  }

  lemma AppendedIsHeapBut(keys: seq<string>, k: string)
    requires IsHeap(keys)
    ensures HeapBut(keys + [k], |keys|)
  {
    var all := keys + [k];
    forall i | 0 <= i < |keys| ensures InOrder(all, i) {
      assert InOrder(keys, i);
    }
  }

  lemma UpStep(keys: seq<string>, j: nat)
    requires j < |keys| && HeapBut(keys, j) && Before(keys[j], keys[Parent(j)])
    ensures Parent(j) < j && HeapBut(Swap(keys, Parent(j), j), Parent(j))
  {
    var p := Parent(j);
    BeforeIsIrreflexive(keys[j]);
    BeforeIsOneWay(keys[j], keys[p]);
    var after := Swap(keys, p, j);
    forall i | 0 <= i < |keys| && i != p ensures InOrder(after, i) {
      if i != j {
        assert InOrder(keys, i);
        if Parent(i) == p {
          NotBeforeIsTransitive(keys[j], keys[p], keys[i]);
        }
      }
    }
    assert InOrder(keys, p);
    forall i | 0 < i < |keys| && Parent(i) == p ensures !Before(after[i], after[Parent(p)]) {
      if p == 0 {
        UpToRoot(keys, j, i);
      } else if i != j {
        assert InOrder(keys, i);
        NotBeforeIsTransitive(keys[Parent(p)], keys[p], keys[i]);
      }
    }
  }

  lemma UpToRoot(keys: seq<string>, j: nat, i: nat)
    requires 0 < j < |keys| && 0 < i < |keys| && Parent(j) == 0 && Parent(i) == 0
    requires HeapBut(keys, j) && Before(keys[j], keys[0])
    ensures !Before(Swap(keys, 0, j)[i], Swap(keys, 0, j)[0])
  {
    BeforeIsOneWay(keys[j], keys[0]);
    if i != j {
      assert InOrder(keys, i);
      NotBeforeIsTransitive(keys[j], keys[0], keys[i]);
    }
  }

  lemma HeapButNothing(keys: seq<string>, j: nat)
    requires j < |keys| && HeapBut(keys, j) && (Parent(j) == j || !Before(keys[j], keys[Parent(j)]))
    ensures IsHeap(keys)
  {
    BeforeIsIrreflexive(keys[j]);
  }

  // ---------- sifting down ----------

  /** Only the children of `i` may be out of order, and they do not mind the parent of `i` above them. */
  ghost predicate HeapBelow(keys: seq<string>, i: nat) {
    && (forall k | 0 <= k < |keys| && (k == 0 || Parent(k) != i) :: InOrder(keys, k))
    && (forall k | 0 < k < |keys| && Parent(k) == i < |keys| && i > 0 :: !Before(keys[k], keys[Parent(i)]))
  }

  /** `j` is a child of `i` whose key is not above that of the other child. */
  ghost predicate SmallerChild(keys: seq<string>, i: nat, j: nat) {
    && 0 < j < |keys| && Parent(j) == i
    && forall k | 0 < k < |keys| && Parent(k) == i :: !Before(keys[k], keys[j])
  }

  lemma DownStep(keys: seq<string>, i: nat, j: nat)
    requires HeapBelow(keys, i) && SmallerChild(keys, i, j) && Before(keys[j], keys[i])
    ensures i < j && HeapBelow(Swap(keys, i, j), j)
  {
    var after := Swap(keys, i, j);
    BeforeIsOneWay(keys[j], keys[i]);
    forall k | 0 <= k < |keys| && (k == 0 || Parent(k) != j) ensures InOrder(after, k) {
      if k == 0 {
        BeforeIsIrreflexive(after[0]);
      } else if Parent(k) != i && k != i {
        assert InOrder(keys, k);
      }
    }
    forall k | 0 < k < |keys| && Parent(k) == j ensures !Before(after[k], after[i]) {
      assert InOrder(keys, k);
    }
  }

  lemma DownDone(keys: seq<string>, i: nat)
    requires HeapBelow(keys, i)
    requires forall k | 0 < k < |keys| && Parent(k) == i :: !Before(keys[k], keys[i])
    ensures IsHeap(keys)
  {
  }

  lemma SmallerChildInOrder(keys: seq<string>, i: nat, j: nat)
    requires HeapBelow(keys, i) && SmallerChild(keys, i, j) && !Before(keys[j], keys[i])
    ensures IsHeap(keys)
  {
    forall k | 0 < k < |keys| && Parent(k) == i ensures !Before(keys[k], keys[i]) {
      NotBeforeIsTransitive(keys[i], keys[j], keys[k]);
    }
    DownDone(keys, i);
  }

  /** With the last element put at the root of what remains, only the root's children can be out of order. */
  lemma RootReplaced(keys: seq<string>)
    requires IsHeap(keys) && keys != []
    ensures HeapBelow(Swap(keys, 0, |keys| - 1)[..|keys| - 1], 0)
  {
    var rest := Swap(keys, 0, |keys| - 1)[..|keys| - 1];
    forall k | 0 <= k < |rest| && (k == 0 || Parent(k) != 0) ensures InOrder(rest, k) {
      if k == 0 {
        BeforeIsIrreflexive(rest[0]);
      } else {
        assert InOrder(keys, k);
      }
    }
  }
}
