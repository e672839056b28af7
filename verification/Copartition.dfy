/**
  The copartitioning rebalance plan (copartition_strategy.go): the bounds of the ranges, and whether
  topics are copartitioned.  Floating point is any arithmetic that comes near enough.
 */
module Copartition {
  import opened Order

  type Plan = map<string, map<string, seq<int>>>

  // ---------- bounds of the ranges ----------

  /** The bound in exact arithmetic: idx*parts/members, halves rounded up. */
  function Bound(idx: nat, parts: nat, members: nat): int
    requires members > 0
  {
    (2 * (idx * parts) + members) / (2 * members)
  }

  /** idx*parts/members lies halfway between two integers. */
  predicate Tie(idx: nat, parts: nat, members: nat)
    requires members > 0
  {
    (2 * (idx * parts) + members) % (2 * members) == 0
  }

  /** What pos*step + 0.5 would be without rounding. */
  function ExactSum(idx: nat, parts: nat, members: nat): real
    requires members > 0
  {
    (idx * parts) as real / members as real + 0.5
  }

  /** What floating point may make of it: anything less than half of 1/members away. */
  ghost predicate Near(sum: real, idx: nat, parts: nat, members: nat)
    requires members > 0
  {
    var exact, slack := ExactSum(idx, parts, members), 1.0 / (2.0 * members as real);
    exact - slack < sum < exact + slack
  }

  /** A bound the plan may come to: the exact one, or one less at a tie (see CutIsBound). */
  ghost predicate IsCut(c: int, idx: nat, parts: nat, members: nat) {
    2 * (members * c) <= 2 * (idx * parts) + members <= 2 * (members * (c + 1))
  }

  lemma ProductOrder(m: int, a: int, b: int)
    requires m > 0 && m * a < m * b
    ensures a < b
  {
    assert m * (b - a) == m * b - m * a;
  }

  lemma BoundBetween(idx: nat, parts: nat, members: nat)
    requires members > 0
    ensures var b := Bound(idx, parts, members);
            && 2 * (members * b) <= 2 * (idx * parts) + members < 2 * (members * (b + 1))
            && (Tie(idx, parts, members) <==> 2 * (members * b) == 2 * (idx * parts) + members)
  {
    var b, n := Bound(idx, parts, members), 2 * (idx * parts) + members;
    assert n == (2 * members) * b + n % (2 * members);
    assert (2 * members) * b == 2 * (members * b);
    assert 2 * (members * (b + 1)) == 2 * (members * b) + 2 * members;
  }

  /** A cut is the exact bound, or at a tie the one below. */
  lemma CutIsBound(c: int, idx: nat, parts: nat, members: nat)
    requires members > 0
    ensures IsCut(c, idx, parts, members) <==>
            c == Bound(idx, parts, members) || (Tie(idx, parts, members) && c == Bound(idx, parts, members) - 1)
  {
    var b := Bound(idx, parts, members);
    BoundBetween(idx, parts, members);
    assert members * (b + 1) == members * b + members && members * (b - 1) == members * b - members;
    if IsCut(c, idx, parts, members) {
      ProductOrder(members, c, b + 1);
      assert members * (c + 1) == members * c + members && members * (c + 2) == members * c + 2 * members;
      ProductOrder(members, b, c + 2);
    }
  }

  lemma ScaledQuotient(n: real, m: real)
    requires m > 0.0
    ensures 2.0 * m * (n / m + 0.5) == 2.0 * n + m && 2.0 * m * (1.0 / (2.0 * m)) == 1.0
  {
    var q := n / m;
    assert q * m == n;
    assert 2.0 * m * (q + 0.5) == 2.0 * (q * m) + m;
  }

  lemma ScaledOrder(m: real, a: real, b: real)
    requires m > 0.0 && a < b
    ensures m * a < m * b
  {
  }

  /** The same nearness without division. */
  lemma NearScaled(sum: real, idx: nat, parts: nat, members: nat)
    requires members > 0 && Near(sum, idx, parts, members)
    ensures var n := (2 * (idx * parts) + members) as real; n - 1.0 < 2.0 * members as real * sum < n + 1.0
  {
    var m, exact := members as real, ExactSum(idx, parts, members);
    var slack := 1.0 / (2.0 * m);
    ScaledQuotient((idx * parts) as real, m);
    ScaledOrder(2.0 * m, exact - slack, sum);
    ScaledOrder(2.0 * m, sum, exact + slack);
    assert 2.0 * m * (exact - slack) == 2.0 * m * exact - 2.0 * m * slack;
    assert 2.0 * m * (exact + slack) == 2.0 * m * exact + 2.0 * m * slack;
  }

  lemma CastProduct(a: int, b: int)
    ensures (a * b) as real == a as real * b as real
  {
  }

  lemma BetweenInts(lo: int, n: int, hi: int, sum: real)
    requires 2.0 * lo as real <= sum < 2.0 * hi as real && n as real - 1.0 < sum < n as real + 1.0
    ensures 2 * lo <= n <= 2 * hi
  {
  }

  lemma ScaledAtMost(m: nat, c: int, sum: real)
    requires m > 0 && c as real <= sum
    ensures 2.0 * (m * c) as real <= 2.0 * m as real * sum
  {
    CastProduct(m, c);
    if c as real < sum {
      ScaledOrder(m as real, c as real, sum);
    }
    assert 2.0 * m as real * sum == 2.0 * (m as real * sum);
  }

  lemma ScaledBelow(m: nat, c: int, sum: real)
    requires m > 0 && sum < c as real
    ensures 2.0 * m as real * sum < 2.0 * (m * c) as real
  {
    CastProduct(m, c);
    ScaledOrder(m as real, sum, c as real);
    assert 2.0 * m as real * sum == 2.0 * (m as real * sum);
  }

  lemma ScaledFloor(sum: real, n: int, members: nat)
    requires members > 0 && n as real - 1.0 < 2.0 * members as real * sum < n as real + 1.0
    ensures 2 * (members * sum.Floor) <= n <= 2 * (members * (sum.Floor + 1))
  {
    var c := sum.Floor;
    ScaledAtMost(members, c, sum);
    ScaledBelow(members, c + 1, sum);
    BetweenInts(members * c, n, members * (c + 1), 2.0 * members as real * sum);
  }

  /** Whatever floating point makes of the sum, rounding it down gives a cut. */
  lemma FloorIsCut(sum: real, idx: nat, parts: nat, members: nat)
    requires members > 0 && Near(sum, idx, parts, members)
    ensures IsCut(sum.Floor, idx, parts, members)
  {
    NearScaled(sum, idx, parts, members);
    ScaledFloor(sum, 2 * (idx * parts) + members, members);
  }

  lemma TieIsExact(idx: nat, parts: nat, members: nat)
    requires members > 0 && Tie(idx, parts, members)
    ensures ExactSum(idx, parts, members) == Bound(idx, parts, members) as real
  {
    var b, m := Bound(idx, parts, members), members as real;
    BoundBetween(idx, parts, members);
    ScaledQuotient((idx * parts) as real, m);
    assert (members * b) as real == m * b as real;
    assert 2.0 * m * ExactSum(idx, parts, members) == 2.0 * m * b as real;
    SameScaled(2.0 * m, ExactSum(idx, parts, members), b as real);
  }

  lemma SameScaled(m: real, a: real, b: real)
    requires m > 0.0 && m * a == m * b
    ensures a == b
  {
    if a < b {
      ScaledOrder(m, a, b);
    } else if b < a {
      ScaledOrder(m, b, a);
    }
  }

  /** What the plan computes, exactly: the exact bound, except that a tie that comes out low goes down. */
  lemma RoundedBound(sum: real, idx: nat, parts: nat, members: nat)
    requires members > 0 && Near(sum, idx, parts, members)
    ensures var low := Tie(idx, parts, members) && sum < ExactSum(idx, parts, members);
            sum.Floor == if low then Bound(idx, parts, members) - 1 else Bound(idx, parts, members)
  {
    FloorIsCut(sum, idx, parts, members);
    CutIsBound(sum.Floor, idx, parts, members);
    if Tie(idx, parts, members) {
      TieIsExact(idx, parts, members);
    }
  }

  /** float64 does go down: 15 partitions, 22 members, the bound at 11 is 8 and comes out as 7. */
  lemma TieCanGoDown()
    ensures var sum := 8.0 - 1.0 / 1125899906842624.0; // 11 * (15.0 / 22.0) + 0.5 in float64
            Tie(11, 15, 22) && Near(sum, 11, 15, 22) && Bound(11, 15, 22) == 8 && sum.Floor == 7
  {
    var sum := 8.0 - 1.0 / 1125899906842624.0;
    assert ExactSum(11, 15, 22) == 8.0;
    assert 7.0 <= sum < 8.0;
  }

  /** The bounds of all ranges, as they came out. */
  ghost predicate AreCuts(cuts: seq<int>, parts: nat, members: nat) {
    |cuts| == members + 1 && forall i | 0 <= i <= members :: IsCut(cuts[i], i, parts, members)
  }

  lemma CutEnds(cuts: seq<int>, parts: nat, members: nat)
    requires members > 0 && AreCuts(cuts, parts, members)
    ensures cuts[0] == 0 && cuts[members] == parts
  {
    var a, z := cuts[0], cuts[members];
    assert IsCut(a, 0, parts, members) && IsCut(z, members, parts, members);
    assert members * (a + 1) == members * a + members && members * (z + 1) == members * z + members;
    assert members * (parts + 1) == members * parts + members;
    ProductOrder(members, a, 1);
    ProductOrder(members, -1, a);
    ProductOrder(members, z, parts + 1);
    ProductOrder(members, parts, z + 1);
  }

  /** If the partitions divide evenly there is no tie, and every bound is a multiple. */
  lemma EvenCut(c: int, idx: nat, parts: nat, members: nat)
    requires members > 0 && parts % members == 0 && IsCut(c, idx, parts, members)
    ensures c == idx * (parts / members)
  {
    var q := parts / members;
    assert parts == members * q;
    assert idx * parts == members * (idx * q);
    assert members * (c + 1) == members * c + members;
    assert members * (idx * q + 1) == members * (idx * q) + members;
    ProductOrder(members, c, idx * q + 1);
    ProductOrder(members, idx * q, c + 1);
  }

  lemma UnevenSize(lo: int, hi: int, idx: nat, parts: nat, members: nat)
    requires members > 0 && parts % members != 0
    requires IsCut(lo, idx, parts, members) && IsCut(hi, idx + 1, parts, members)
    ensures parts / members <= hi - lo <= parts / members + 1
  {
    var size, q := hi - lo, parts / members;
    assert (idx + 1) * parts == idx * parts + parts;
    assert members * (lo + 1) == members * lo + members && members * (hi + 1) == members * hi + members;
    assert members * hi == members * lo + members * size;
    assert members * (size - 1) == members * size - members && members * (size + 1) == members * size + members;
    assert members * (size - 1) <= parts <= members * (size + 1);
    assert parts == members * q + parts % members && members * (q + 1) == members * q + members;
    ProductOrder(members, size - 1, q + 1);
    ProductOrder(members, q, size + 1);
  }

  /** Every range has floor(parts/members) partitions, or one more if that does not divide evenly. */
  lemma RangeSize(cuts: seq<int>, idx: nat, parts: nat, members: nat)
    requires AreCuts(cuts, parts, members) && idx < members
    ensures var size := cuts[idx + 1] - cuts[idx];
            size == parts / members || (size == parts / members + 1 && parts % members != 0)
  {
    assert IsCut(cuts[idx], idx, parts, members) && IsCut(cuts[idx + 1], idx + 1, parts, members);
    if parts % members == 0 {
      EvenCut(cuts[idx], idx, parts, members);
      EvenCut(cuts[idx + 1], idx + 1, parts, members);
      assert (idx + 1) * (parts / members) == idx * (parts / members) + parts / members;
    } else {
      UnevenSize(cuts[idx], cuts[idx + 1], idx, parts, members);
    }
  }

  lemma NextCut(cuts: seq<int>, idx: nat, parts: nat, members: nat)
    requires AreCuts(cuts, parts, members) && idx < members
    ensures cuts[idx] <= cuts[idx + 1]
  {
    RangeSize(cuts, idx, parts, members);
    NotNegative(parts, members);
  }

  lemma NotNegative(n: nat, d: nat)
    requires d > 0
    ensures 0 <= n / d
  {
  }

  ghost predicate Ascends(cuts: seq<int>) {
    forall i | 0 <= i && i + 1 < |cuts| :: cuts[i] <= cuts[i + 1]
  }

  lemma CutsAscend(cuts: seq<int>, parts: nat, members: nat)
    requires AreCuts(cuts, parts, members)
    ensures Ascends(cuts)
  {
    forall i | 0 <= i && i + 1 < |cuts| ensures cuts[i] <= cuts[i + 1] {
      NextCut(cuts, i, parts, members);
    }
  }

  lemma {:induction false} InOrder(cuts: seq<int>, i: nat, j: nat)
    requires Ascends(cuts) && i <= j < |cuts|
    ensures cuts[i] <= cuts[j]
  {
    if i < j {
      InOrder(cuts, i, j - 1);
    }
  }

  /** Contiguous ranges, one for each member, from the first partition to the last. */
  ghost predicate AreRanges(cuts: seq<int>, parts: nat, members: int) {
    && |cuts| == members + 1 && Ascends(cuts)
    && (members > 0 ==> cuts[0] == 0 && cuts[members] == parts)
  }

  lemma CutsAreRanges(cuts: seq<int>, parts: nat, members: nat)
    requires AreCuts(cuts, parts, members)
    ensures AreRanges(cuts, parts, members)
  {
    CutsAscend(cuts, parts, members);
    if members > 0 {
      CutEnds(cuts, parts, members);
    }
  }

  lemma RangeFits(cuts: seq<int>, parts: nat, members: int, idx: nat)
    requires AreRanges(cuts, parts, members) && idx < members
    ensures 0 <= cuts[idx] <= cuts[idx + 1] <= parts
  {
    InOrder(cuts, 0, idx);
    InOrder(cuts, idx + 1, members);
  }

  /** The index of the member whose range holds position `pos`. */
  ghost function OwnerFrom(pos: nat, cuts: seq<int>, i: nat): (idx: nat)
    requires i + 1 < |cuts| && cuts[i] <= pos < cuts[|cuts| - 1]
    ensures i <= idx && idx + 1 < |cuts| && cuts[idx] <= pos < cuts[idx + 1]
    decreases |cuts| - i
  {
    if pos < cuts[i + 1] then i else OwnerFrom(pos, cuts, i + 1)
  }

  ghost function Owner(pos: nat, cuts: seq<int>, parts: nat, members: nat): (idx: nat)
    requires members > 0 && pos < parts && AreRanges(cuts, parts, members)
    ensures idx < members && cuts[idx] <= pos < cuts[idx + 1]
  {
    OwnerFrom(pos, cuts, 0)
  }

  /** Ranges are contiguous and disjoint, so every position has one owner. */
  lemma OwnerIsUnique(pos: nat, cuts: seq<int>, parts: nat, members: nat, idx: nat)
    requires pos < parts && idx < members && AreRanges(cuts, parts, members)
    ensures cuts[idx] <= pos < cuts[idx + 1] <==> idx == Owner(pos, cuts, parts, members)
  {
    var owner := Owner(pos, cuts, parts, members);
    if idx < owner {
      InOrder(cuts, idx + 1, owner);
    } else if owner < idx {
      InOrder(cuts, owner + 1, idx);
    }
  }

  // ---------- are the topics copartitioned? ----------

  /** What partitionsEqual and topicsEqual test: as many entries, and none that the other lacks. */
  predicate Same<T(==)>(a: seq<T>, b: seq<T>) {
    |a| == |b| && forall x | x in b :: x in a
  }

  method ListsEqual<T(==)>(a: seq<T>, b: seq<T>) returns (r: bool)
    ensures r <==> Same(a, b)
  {
    if |a| != |b| {
      return false;
    }
    var known: set<T> := {};
    for i := 0 to |a|
      invariant known == ToSet(a[..i])
    {
      known := known + {a[i]};
    }
    assert a[..|a|] == a;
    for i := 0 to |b|
      invariant forall j | 0 <= j < i :: b[j] in a
    {
      if b[i] !in known {
        return false;
      }
    }
    return true;
  }

  /** For lists without duplicates it is equality as sets: a list of the same length has no room for less. */
  lemma SameIsSetEquality<T>(a: seq<T>, b: seq<T>)
    requires NoDuplicates(a) && NoDuplicates(b)
    ensures Same(a, b) <==> ToSet(a) == ToSet(b)
  {
    SetSize(a);
    SetSize(b);
    if Same(a, b) {
      SubsetEqualSize(ToSet(a), ToSet(b));
    }
    if ToSet(a) == ToSet(b) {
      forall x | x in b ensures x in a {
        assert x in ToSet(b);
      }
    }
  }

  /** The partition list the plan settles on: the first that is not empty. */
  function Chosen(lists: seq<seq<int>>): seq<int> {
    if lists == [] then []
    else if Chosen(lists[..|lists| - 1]) != [] then Chosen(lists[..|lists| - 1])
    else lists[|lists| - 1]
  }

  /** Every list after it must be the same. */
  predicate Accepts(lists: seq<seq<int>>) {
    lists == [] || (
      var front := lists[..|lists| - 1];
      Accepts(front) && (Chosen(front) == [] || Same(Chosen(front), lists[|lists| - 1])))
  }

  function ListsOf<K>(m: map<K, seq<int>>, order: seq<K>): seq<seq<int>>
    requires forall k | k in order :: k in m
  {
    seq(|order|, i requires 0 <= i < |order| => m[order[i]])
  }

  /** An order in which a map can be iterated. */
  ghost predicate IsOrderOf<K, V>(m: map<K, V>, order: seq<K>) {
    NoDuplicates(order) && ToSet(order) == m.Keys
  }

  lemma KeysInOrder<K, V>(m: map<K, V>, order: seq<K>)
    requires IsOrderOf(m, order)
    ensures forall k :: k in order <==> k in m
  {
    assert forall k :: k in order <==> k in ToSet(order);
  }

  lemma {:induction false} ChosenIsListed(lists: seq<seq<int>>)
    ensures Chosen(lists) == [] ==> forall l | l in lists :: l == []
    ensures Chosen(lists) != [] ==> Chosen(lists) in lists
  {
    if lists != [] {
      ChosenIsListed(lists[..|lists| - 1]);
      assert lists == lists[..|lists| - 1] + [lists[|lists| - 1]];
    }
  }

  /** The lists are pairwise the same, both ways round. */
  ghost predicate AllSame(lists: seq<seq<int>>) {
    forall a, b | a in lists && b in lists :: Same(a, b)
  }

  lemma {:induction false} AllSameIsAccepted(lists: seq<seq<int>>)
    requires AllSame(lists)
    ensures Accepts(lists)
  {
    if lists != [] {
      var front := lists[..|lists| - 1];
      assert lists == front + [lists[|lists| - 1]];
      AllSameIsAccepted(front);
      ChosenIsListed(front);
    }
  }

  /** If no list is empty or repeats itself, acceptance says they are all equal as sets. */
  lemma {:induction false} AcceptedAreSame(lists: seq<seq<int>>)
    requires Accepts(lists) && forall l | l in lists :: l != [] && NoDuplicates(l)
    ensures forall l | l in lists :: ToSet(l) == ToSet(Chosen(lists))
  {
    if lists != [] {
      var front, last := lists[..|lists| - 1], lists[|lists| - 1];
      assert lists == front + [last];
      assert forall l | l in front :: l in lists;
      AcceptedAreSame(front);
      ChosenIsListed(front);
      if front != [] {
        assert front[0] in lists && front[0] in front;
        SameIsSetEquality(Chosen(front), last);
      }
    }
  }

  /** The second topic can be visited second after any first one. */
  lemma OrderStartingWith<K>(m: map<K, seq<int>>, t: K, u: K, rest: seq<K>)
    requires t in m && u in m && forall k | k in rest :: k in m
    requires Accepts(ListsOf(m, [t, u] + rest))
    ensures m[t] == [] || Same(m[t], m[u])
    decreases |rest|
  {
    var order := [t, u] + rest;
    var lists := ListsOf(m, order);
    if rest == [] {
      assert lists[..1] == [m[t]] && lists[..1][..0] == [];
      assert Chosen([m[t]]) == m[t];
    } else {
      var shorter := [t, u] + rest[..|rest| - 1];
      assert lists[..|lists| - 1] == ListsOf(m, shorter);
      OrderStartingWith(m, t, u, rest[..|rest| - 1]);
    }
  }

  lemma {:induction false} Enumerate<K>(s: set<K>) returns (order: seq<K>)
    ensures NoDuplicates(order) && ToSet(order) == s
  {
    if s == {} {
      order := [];
    } else {
      var x :| x in s;
      var others := Enumerate(s - {x});
      assert x !in ToSet(others);
      order := others + [x];
      assert ToSet(order) == ToSet(others) + {x};
    }
  }

  /**
    The verdict on the topics holds in every order a map may be iterated exactly when the partition
    lists are pairwise the same.  An empty list beside another, or repeated partitions, make it depend
    on the order.
   */
  lemma AcceptedInEveryOrder<K(!new)>(m: map<K, seq<int>>)
    ensures (forall order | IsOrderOf(m, order) :: (forall k | k in order :: k in m) && Accepts(ListsOf(m, order))) <==>
            forall t, u | t in m && u in m :: Same(m[t], m[u])
  {
    if forall t, u | t in m && u in m :: Same(m[t], m[u]) {
      forall order | IsOrderOf(m, order) ensures (forall k | k in order :: k in m) && Accepts(ListsOf(m, order)) {
        KeysInOrder(m, order);
        AllSameIsAccepted(ListsOf(m, order));
      }
    }
    if forall order | IsOrderOf(m, order) :: (forall k | k in order :: k in m) && Accepts(ListsOf(m, order)) {
      forall t, u | t in m && u in m ensures Same(m[t], m[u]) {
        if t != u {
          PairAccepted(m, t, u);
          PairAccepted(m, u, t);
        }
      }
    }
  }

  lemma PairAccepted<K(!new)>(m: map<K, seq<int>>, t: K, u: K)
    requires t in m && u in m && t != u
    requires forall order | IsOrderOf(m, order) :: (forall k | k in order :: k in m) && Accepts(ListsOf(m, order))
    ensures m[t] == [] || Same(m[t], m[u])
  {
    var rest := Enumerate(m.Keys - {t, u});
    var order := [t, u] + rest;
    forall k ensures k in ToSet(order) <==> k in m.Keys {
      assert k in rest <==> k in ToSet(rest);
      assert k in ToSet(order) <==> k in order;
    }
    assert t !in ToSet(rest) && u !in ToSet(rest);
    assert IsOrderOf(m, order);
    OrderStartingWith(m, t, u, rest);
  }
}
