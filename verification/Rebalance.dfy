/** Plan of the copartitioning strategy (copartition_strategy.go), and what it assigns to whom. */
module Rebalance {
  import opened Common
  import opened Order
  import opened Copartition

  // ---------- building the plan ----------

  function Entry(plan: Plan, m: string, t: string): seq<int> {
    if m in plan && t in plan[m] then plan[m][t] else []
  }

  /** BalanceStrategyPlan.Add of sarama: append, and no entry for no partitions. */
  function Add(plan: Plan, m: string, t: string, ps: seq<int>): Plan {
    if ps == [] then plan
    else plan[m := (if m in plan then plan[m] else map[])[t := Entry(plan, m, t) + ps]]
  }

  function AddAll(plan: Plan, m: string, ts: seq<string>, ps: seq<int>): Plan {
    if ts == [] then plan else Add(AddAll(plan, m, ts[..|ts| - 1], ps), m, ts[|ts| - 1], ps)
  }

  /** The partitions of the member at position `idx` among the sorted members. */
  function RangeOf(parts: seq<int>, cuts: seq<int>, idx: nat): seq<int>
    requires AreRanges(cuts, |parts|, |cuts| - 1) && idx + 1 < |cuts|
  {
    RangeFits(cuts, |parts|, |cuts| - 1, idx);
    parts[cuts[idx]..cuts[idx + 1]]
  }

  /** The plan for the first `k` of the sorted members. */
  function PlanFor(members: map<string, seq<string>>, sorted: seq<string>, parts: seq<int>, cuts: seq<int>,
                   k: nat): Plan
    requires AreRanges(cuts, |parts|, |sorted|) && k <= |sorted| && forall m | m in sorted :: m in members
  {
    if k == 0 then map[]
    else AddAll(PlanFor(members, sorted, parts, cuts, k - 1), sorted[k - 1], members[sorted[k - 1]],
                RangeOf(parts, cuts, k - 1))
  }

  /** The whole plan. */
  function FullPlan(members: map<string, seq<string>>, sorted: seq<string>, parts: seq<int>, cuts: seq<int>): Plan
    requires AreRanges(cuts, |parts|, |sorted|) && forall m | m in sorted :: m in members
  {
    PlanFor(members, sorted, parts, cuts, |sorted|)
  }

  function IntLess(a: int, b: int): bool { a < b }

  /** `sum(i)` is what floating point makes of pos*step + 0.5 at position `i`. */
  ghost predicate Rounds(sum: nat -> real, parts: nat, members: nat) {
    members > 0 ==> forall i: nat | i <= members :: Near(sum(i), i, parts, members)
  }

  function CutsOf(sum: nat -> real, members: nat): seq<int> {
    seq(members + 1, i requires 0 <= i => sum(i).Floor)
  }

  lemma RoundedCuts(sum: nat -> real, parts: nat, members: nat)
    requires Rounds(sum, parts, members)
    ensures AreCuts(CutsOf(sum, members), parts, members) && AreRanges(CutsOf(sum, members), parts, members)
  {
    forall i | 0 <= i <= members ensures IsCut(CutsOf(sum, members)[i], i, parts, members) {
      if members > 0 {
        FloorIsCut(sum(i), i, parts, members);
      }
    }
    CutsAreRanges(CutsOf(sum, members), parts, members);
  }

  /** Floating point comes near enough, should there be anything to divide. */
  ghost predicate RoundsFor(sum: nat -> real, topics: map<string, seq<int>>, memberOrder: seq<string>,
                            topicOrder: seq<string>)
    requires forall t | t in topicOrder :: t in topics
  {
    Accepts(ListsOf(topics, topicOrder)) ==> Rounds(sum, |PartsOf(topics, topicOrder)|, |MembersOf(memberOrder)|)
  }

  function MembersOf(order: seq<string>): seq<string> { Sort(order, Before) }

  function PartsOf(topics: map<string, seq<int>>, order: seq<string>): seq<int>
    requires forall t | t in order :: t in topics
  {
    Sort(Chosen(ListsOf(topics, order)), IntLess)
  }

  /** Plan, given the orders in which its two map loops run. */
  function Planned(strict: bool, members: map<string, seq<string>>, topics: map<string, seq<int>>,
                   memberOrder: seq<string>, topicOrder: seq<string>, sum: nat -> real): Option<Plan>
    requires (forall m | m in memberOrder :: m in members) && (forall t | t in topicOrder :: t in topics)
    requires RoundsFor(sum, topics, memberOrder, topicOrder)
  {
    if !Accepts(ListsOf(topics, topicOrder)) then None
    else if strict && exists m | m in memberOrder :: !Same(topicOrder, members[m]) then None
    else
      var sorted, parts := MembersOf(memberOrder), PartsOf(topics, topicOrder);
      SortedMembers(members, memberOrder);
      RoundedCuts(sum, |parts|, |sorted|);
      Some(FullPlan(members, sorted, parts, CutsOf(sum, |sorted|)))
  }

  lemma SortedMembers(members: map<string, seq<string>>, order: seq<string>)
    requires forall m | m in order :: m in members
    ensures forall m | m in MembersOf(order) :: m in members
  {
    BeforeIsAnOrder();
    SortSorts(order, Before);
    forall m | m in Sort(order, Before) ensures m in members {
      assert m in multiset(Sort(order, Before));
    }
  }

  /** (1) collect the topics and check that they are copartitioned */
  method CollectTopics(topics: map<string, seq<int>>, order: seq<string>)
    returns (ok: bool, allTopics: seq<string>, allPartitions: seq<int>)
    requires forall t | t in order :: t in topics
    ensures ok <==> Accepts(ListsOf(topics, order))
    ensures ok ==> allTopics == order && allPartitions == Chosen(ListsOf(topics, order))
  {
    ghost var lists := ListsOf(topics, order);
    allPartitions, allTopics := [], [];
    var i := 0;
    while i < |order|
      invariant 0 <= i <= |order| && allTopics == order[..i]
      invariant Accepts(lists[..i]) && allPartitions == Chosen(lists[..i])
    {
      var topicPartitions := topics[order[i]];
      assert lists[..i + 1][..i] == lists[..i];
      allTopics := allTopics + [order[i]];
      if |allPartitions| == 0 {
        allPartitions := topicPartitions;
      } else {
        var equal := ListsEqual(allPartitions, topicPartitions);
        if !equal {
          AcceptsPrefix(lists, i + 1);
          return false, allTopics, allPartitions;
        }
      }
      i := i + 1;
    }
    assert lists[..i] == lists && order[..i] == order;
    ok := true;
  }

  /** (2) collect the members and check, if strict, that they consume these topics */
  method CollectMembers(strict: bool, members: map<string, seq<string>>, order: seq<string>, allTopics: seq<string>)
    returns (ok: bool, allMembers: seq<string>)
    requires forall m | m in order :: m in members
    ensures ok <==> (strict ==> forall m | m in order :: Same(allTopics, members[m]))
    ensures ok ==> allMembers == order
  {
    allMembers := [];
    var i := 0;
    while i < |order|
      invariant 0 <= i <= |order| && allMembers == order[..i]
      invariant strict ==> forall m | m in order[..i] :: Same(allTopics, members[m])
    {
      var equal := ListsEqual(allTopics, members[order[i]]);
      if !equal && strict {
        assert order[i] in order;
        return false, allMembers;
      }
      allMembers := allMembers + [order[i]];
      i := i + 1;
    }
    assert order[..i] == order;
    ok := true;
  }

  /** (4) the range of a member, from the sums floating point came to */
  method RangeBounds(sum: nat -> real, idx: nat, parts: nat, members: nat) returns (min: int, max: int)
    requires Rounds(sum, parts, members) && idx < members
    ensures IsCut(min, idx, parts, members) && IsCut(max, idx + 1, parts, members)
    ensures min == CutsOf(sum, members)[idx] && max == CutsOf(sum, members)[idx + 1] && 0 <= min <= max <= parts
  {
    min := sum(idx).Floor;
    max := sum(idx + 1).Floor;
    RoundedCuts(sum, parts, members);
    RangeFits(CutsOf(sum, members), parts, members, idx);
  }

  /** (4) the same range in all topics the member requested */
  method AssignRange(plan0: Plan, member: string, requested: seq<string>, range: seq<int>) returns (plan: Plan)
    ensures plan == AddAll(plan0, member, requested, range)
  {
    plan := plan0;
    var j := 0;
    while j < |requested|
      invariant 0 <= j <= |requested|
      invariant plan == AddAll(plan0, member, requested[..j], range)
    {
      assert requested[..j + 1][..j] == requested[..j];
      plan := Add(plan, member, requested[j], range);
      j := j + 1;
    }
    assert requested[..j] == requested;
  }

  method AssignRanges(members: map<string, seq<string>>, sorted: seq<string>, parts: seq<int>, sum: nat -> real)
    returns (plan: Plan)
    requires (forall m | m in sorted :: m in members) && Rounds(sum, |parts|, |sorted|)
    ensures AreRanges(CutsOf(sum, |sorted|), |parts|, |sorted|)
    ensures plan == FullPlan(members, sorted, parts, CutsOf(sum, |sorted|))
  {
    RoundedCuts(sum, |parts|, |sorted|);
    ghost var cuts := CutsOf(sum, |sorted|);
    plan := map[];
    var idx := 0;
    while idx < |sorted|
      invariant 0 <= idx <= |sorted|
      invariant plan == PlanFor(members, sorted, parts, cuts, idx)
    {
      var min, max := RangeBounds(sum, idx, |parts|, |sorted|);
      plan := AssignRange(plan, sorted[idx], members[sorted[idx]], parts[min..max]);
      idx := idx + 1;
    }
  }

  method MakePlan(strict: bool, members: map<string, seq<string>>, topics: map<string, seq<int>>,
                  memberOrder: seq<string>, topicOrder: seq<string>, sum: nat -> real) returns (r: Result<Plan>)
    requires (forall m | m in memberOrder :: m in members) && (forall t | t in topicOrder :: t in topics)
    requires RoundsFor(sum, topics, memberOrder, topicOrder)
    ensures var plan := Planned(strict, members, topics, memberOrder, topicOrder, sum);
            if plan.Some? then r == Ok(plan.value) else r.Err?
  {
    var copartitioned, allTopics, allPartitions := CollectTopics(topics, topicOrder);
    if !copartitioned {
      return Err("Error balancing. Not all topics are copartitioned");
    }
    var consistent, allMembers := CollectMembers(strict, members, memberOrder, allTopics);
    if !consistent {
      return Err("Error balancing. Not all members request the same list of topics");
    }
    var sorted, parts := Sort(allMembers, Before), Sort(allPartitions, IntLess);
    SortedMembers(members, memberOrder);
    var plan := AssignRanges(members, sorted, parts, sum);
    r := Ok(plan);
  }

  lemma {:induction false} AcceptsPrefix(lists: seq<seq<int>>, n: nat)
    requires n <= |lists| && !Accepts(lists[..n])
    ensures !Accepts(lists)
  {
    if n == |lists| {
      assert lists[..n] == lists;
    } else {
      assert lists[..|lists| - 1][..n] == lists[..n];
      AcceptsPrefix(lists[..|lists| - 1], n);
    }
  }

  // ---------- what a plan assigns ----------

  function Times(n: nat, s: seq<int>): seq<int> {
    if n == 0 then [] else Times(n - 1, s) + s
  }

  lemma EntryAfterAdd(plan: Plan, m: string, t: string, ps: seq<int>, m': string, t': string)
    ensures Entry(Add(plan, m, t, ps), m', t') == Entry(plan, m', t') + if m' == m && t' == t then ps else []
  {
  }

  lemma CountOfLast(ts: seq<string>, t: string)
    requires ts != []
    ensures multiset(ts)[t] == multiset(ts[..|ts| - 1])[t] + if ts[|ts| - 1] == t then 1 else 0
  {
    assert ts == ts[..|ts| - 1] + [ts[|ts| - 1]];
  }

  lemma {:induction false} EntryAfterAddAll(plan: Plan, m: string, ts: seq<string>, ps: seq<int>, m': string, t: string)
    ensures Entry(AddAll(plan, m, ts, ps), m', t) ==
            Entry(plan, m', t) + if m' == m then Times(multiset(ts)[t], ps) else []
  {
    if ts != [] {
      var last := |ts| - 1;
      EntryAfterAddAll(plan, m, ts[..last], ps, m', t);
      EntryAfterAdd(AddAll(plan, m, ts[..last], ps), m, ts[last], ps, m', t);
      CountOfLast(ts, t);
      if m' == m && t == ts[last] {
        var n := multiset(ts[..last])[t];
        assert Entry(plan, m', t) + Times(n, ps) + ps == Entry(plan, m', t) + (Times(n, ps) + ps);
      }
    }
  }

  lemma EntryOfNext(members: map<string, seq<string>>, sorted: seq<string>, parts: seq<int>, cuts: seq<int>,
                    k: nat, m: string, t: string)
    requires AreRanges(cuts, |parts|, |sorted|) && k < |sorted| && forall m | m in sorted :: m in members
    ensures var before, after := PlanFor(members, sorted, parts, cuts, k), PlanFor(members, sorted, parts, cuts, k + 1);
            var added := Times(multiset(members[sorted[k]])[t], RangeOf(parts, cuts, k));
            && (m != sorted[k] ==> Entry(after, m, t) == Entry(before, m, t))
            && (m == sorted[k] && Entry(before, m, t) == [] ==> Entry(after, m, t) == added)
  {
    EntryAfterAddAll(PlanFor(members, sorted, parts, cuts, k), sorted[k], members[sorted[k]],
                     RangeOf(parts, cuts, k), m, t);
  }

  /** A member gets its range once for each time it lists the topic, and nothing else. */
  lemma {:induction false} EntryOfPlan(members: map<string, seq<string>>, sorted: seq<string>, parts: seq<int>,
                                       cuts: seq<int>, k: nat, idx: nat, t: string)
    requires AreRanges(cuts, |parts|, |sorted|) && NoDuplicates(sorted) && (forall m | m in sorted :: m in members)
    requires k <= |sorted| && idx < |sorted|
    ensures Entry(PlanFor(members, sorted, parts, cuts, k), sorted[idx], t) ==
            if idx < k then Times(multiset(members[sorted[idx]])[t], RangeOf(parts, cuts, idx)) else []
  {
    if k > 0 {
      EntryOfPlan(members, sorted, parts, cuts, k - 1, idx, t);
      EntryOfNext(members, sorted, parts, cuts, k - 1, sorted[idx], t);
      assert idx != k - 1 ==> sorted[idx] != sorted[k - 1];
    }
  }

  /** A member that lists a topic at most once gets exactly its range, or nothing if it did not list it. */
  lemma EntryIsRange(members: map<string, seq<string>>, sorted: seq<string>, parts: seq<int>, cuts: seq<int>,
                     idx: nat, t: string)
    requires AreRanges(cuts, |parts|, |sorted|) && NoDuplicates(sorted) && (forall m | m in sorted :: m in members)
    requires idx < |sorted| && NoDuplicates(members[sorted[idx]])
    ensures Entry(FullPlan(members, sorted, parts, cuts), sorted[idx], t) ==
            if t in members[sorted[idx]] then RangeOf(parts, cuts, idx) else []
  {
    EntryOfPlan(members, sorted, parts, cuts, |sorted|, idx, t);
    CountInDistinct(members[sorted[idx]], t);
    var range := RangeOf(parts, cuts, idx);
    assert Times(0, range) == [] && Times(1, range) == Times(0, range) + range == range;
  }

  function Joined(parts: seq<int>, cuts: seq<int>, k: nat): seq<int>
    requires AreRanges(cuts, |parts|, |cuts| - 1) && k < |cuts|
  {
    if k == 0 then [] else Joined(parts, cuts, k - 1) + RangeOf(parts, cuts, k - 1)
  }

  lemma {:induction false} JoinedIsPrefix(parts: seq<int>, cuts: seq<int>, k: nat)
    requires AreRanges(cuts, |parts|, |cuts| - 1) && |cuts| > 1 && k < |cuts|
    ensures 0 <= cuts[k] <= |parts| && Joined(parts, cuts, k) == parts[..cuts[k]]
  {
    if k > 0 {
      JoinedIsPrefix(parts, cuts, k - 1);
      RangeFits(cuts, |parts|, |cuts| - 1, k - 1);
    }
  }

  /** The members' ranges, put one after the other, are the sorted partition list: nothing lost, nothing twice. */
  lemma RangesCoverAll(parts: seq<int>, cuts: seq<int>)
    requires AreRanges(cuts, |parts|, |cuts| - 1) && |cuts| > 1
    ensures Joined(parts, cuts, |cuts| - 1) == parts
  {
    JoinedIsPrefix(parts, cuts, |cuts| - 1);
  }

  lemma {:induction false} InTimes(n: nat, s: seq<int>, x: int)
    ensures x in Times(n, s) <==> n > 0 && x in s
  {
    if n > 0 {
      InTimes(n - 1, s, x);
    }
  }

  /**
    Who consumes what: the partition at position `pos` of the sorted list is assigned to a member for a
    topic if and only if that member owns the position and requested the topic.
   */
  lemma AssignedExactlyToOwner(members: map<string, seq<string>>, sorted: seq<string>, parts: seq<int>, cuts: seq<int>,
                               idx: nat, t: string, pos: nat)
    requires AreRanges(cuts, |parts|, |sorted|) && NoDuplicates(sorted) && (forall m | m in sorted :: m in members)
    requires NoDuplicates(parts) && idx < |sorted| && pos < |parts|
    ensures parts[pos] in Entry(FullPlan(members, sorted, parts, cuts), sorted[idx], t) <==>
            idx == Owner(pos, cuts, |parts|, |sorted|) && t in members[sorted[idx]]
  {
    EntryOfPlan(members, sorted, parts, cuts, |sorted|, idx, t);
    InTimes(multiset(members[sorted[idx]])[t], RangeOf(parts, cuts, idx), parts[pos]);
    OwnerIsUnique(pos, cuts, |parts|, |sorted|, idx);
    InRange(parts, cuts, idx, pos);
  }

  lemma InRange(parts: seq<int>, cuts: seq<int>, idx: nat, pos: nat)
    requires AreRanges(cuts, |parts|, |cuts| - 1) && NoDuplicates(parts) && idx + 1 < |cuts| && pos < |parts|
    ensures parts[pos] in RangeOf(parts, cuts, idx) <==> cuts[idx] <= pos < cuts[idx + 1]
  {
    RangeFits(cuts, |parts|, |cuts| - 1, idx);
    var lo, hi := cuts[idx], cuts[idx + 1];
    if lo <= pos < hi {
      assert parts[lo..hi][pos - lo] == parts[pos];
    }
    if parts[pos] in parts[lo..hi] {
      var i :| 0 <= i < hi - lo && parts[lo..hi][i] == parts[pos];
      assert parts[lo + i] == parts[pos];
    }
  }

  // ---------- a plan does not depend on map iteration ----------

  lemma OrdersArePermutations<K, V>(m: map<K, V>, a: seq<K>, b: seq<K>)
    requires IsOrderOf(m, a) && IsOrderOf(m, b)
    ensures multiset(a) == multiset(b) && |a| == |b| && forall k :: k in a <==> k in b
  {
    SameSetSameMultiset(a, b);
    assert |multiset(a)| == |a| && |multiset(b)| == |b|;
    KeysInOrder(m, a);
    KeysInOrder(m, b);
  }

  ghost predicate ProperTopics(topics: map<string, seq<int>>) {
    forall t | t in topics :: topics[t] != [] && NoDuplicates(topics[t])
  }

  /** The verdict, and the partitions planned with, are the same in every order. */
  lemma TopicsInAnyOrder(topics: map<string, seq<int>>, a: seq<string>, b: seq<string>)
    requires IsOrderOf(topics, a) && IsOrderOf(topics, b) && ProperTopics(topics)
    requires (forall t | t in a :: t in topics) && (forall t | t in b :: t in topics) && Accepts(ListsOf(topics, a))
    ensures Accepts(ListsOf(topics, b))
    ensures PartsOf(topics, a) == PartsOf(topics, b)
  {
    var la, lb := ListsOf(topics, a), ListsOf(topics, b);
    OrdersArePermutations(topics, a, b);
    forall l ensures l in la <==> l in lb {
      ListedInOrder(topics, a, l);
      ListedInOrder(topics, b, l);
    }
    AcceptedAreSame(la);
    forall p, q | p in lb && q in lb ensures Same(p, q) {
      SameIsSetEquality(p, q);
    }
    AllSameIsAccepted(lb);
    ChosenIsListed(la);
    ChosenIsListed(lb);
    if a != [] {
      assert la[0] in la && lb[0] in lb;
      AcceptedAreSame(lb);
      SameSetSameMultiset(Chosen(la), Chosen(lb));
      SortIgnoresOrder(Chosen(la), Chosen(lb), IntLess);
    }
  }

  lemma ListedInOrder(topics: map<string, seq<int>>, order: seq<string>, l: seq<int>)
    requires forall t | t in order :: t in topics
    ensures l in ListsOf(topics, order) <==> exists t :: t in order && topics[t] == l
  {
    if l in ListsOf(topics, order) {
      var i :| 0 <= i < |order| && ListsOf(topics, order)[i] == l;
      assert order[i] in order && topics[order[i]] == l;
    }
    if t :| t in order && topics[t] == l {
      var i :| 0 <= i < |order| && order[i] == t;
      assert ListsOf(topics, order)[i] == l;
    }
  }

  /** The partitions of a made plan do not depend on the order, so neither does what is rounded. */
  lemma SizesInAnyOrder(members: map<string, seq<string>>, topics: map<string, seq<int>>,
                        ma: seq<string>, ta: seq<string>, mb: seq<string>, tb: seq<string>)
    requires IsOrderOf(members, ma) && IsOrderOf(members, mb) && IsOrderOf(topics, ta) && IsOrderOf(topics, tb)
    requires ProperTopics(topics) && (forall t | t in ta :: t in topics) && (forall t | t in tb :: t in topics)
    ensures MembersOf(ma) == MembersOf(mb)
    ensures Accepts(ListsOf(topics, ta)) <==> Accepts(ListsOf(topics, tb))
    ensures Accepts(ListsOf(topics, ta)) ==> PartsOf(topics, ta) == PartsOf(topics, tb)
  {
    OrdersArePermutations(members, ma, mb);
    BeforeIsAnOrder();
    SortIgnoresOrder(ma, mb, Before);
    if Accepts(ListsOf(topics, ta)) {
      TopicsInAnyOrder(topics, ta, tb);
    }
    if Accepts(ListsOf(topics, tb)) {
      TopicsInAnyOrder(topics, tb, ta);
    }
  }

  /**
    With non-empty partition lists that do not repeat themselves, both the verdict of Plan and the plan
    it makes are the same whatever order Go iterates its maps in.
   */
  lemma PlanIgnoresMapOrder(strict: bool, members: map<string, seq<string>>, topics: map<string, seq<int>>,
                            ma: seq<string>, ta: seq<string>, mb: seq<string>, tb: seq<string>, sum: nat -> real)
    requires IsOrderOf(members, ma) && IsOrderOf(members, mb) && IsOrderOf(topics, ta) && IsOrderOf(topics, tb)
    requires (forall m | m in ma :: m in members) && (forall t | t in ta :: t in topics)
    requires (forall m | m in mb :: m in members) && (forall t | t in tb :: t in topics)
    requires ProperTopics(topics) && RoundsFor(sum, topics, ma, ta)
    ensures RoundsFor(sum, topics, mb, tb)
    ensures Planned(strict, members, topics, ma, ta, sum) == Planned(strict, members, topics, mb, tb, sum)
  {
    SizesInAnyOrder(members, topics, ma, ta, mb, tb);
    OrdersArePermutations(members, ma, mb);
    OrdersArePermutations(topics, ta, tb);
    assert forall m | m in members :: Same(ta, members[m]) <==> Same(tb, members[m]);
  }

  // ---------- every partition has one owner ----------

  /** `owner` consumes partition `p` in exactly the topics it requests, and nobody else does in any. */
  ghost predicate Owns(plan: Plan, members: map<string, seq<string>>, p: int, owner: string) {
    && owner in members
    && forall m, t | m in members :: p in Entry(plan, m, t) <==> m == owner && t in members[m]
  }

  /** The partitions planned with are those of every topic, without repetition. */
  lemma PartsOfTopics(topics: map<string, seq<int>>, order: seq<string>, t: string)
    requires IsOrderOf(topics, order) && ProperTopics(topics) && t in topics
    requires (forall u | u in order :: u in topics) && Accepts(ListsOf(topics, order))
    ensures NoDuplicates(PartsOf(topics, order)) && ToSet(PartsOf(topics, order)) == ToSet(topics[t])
  {
    var lists := ListsOf(topics, order);
    KeysInOrder(topics, order);
    ListedInOrder(topics, order, topics[t]);
    AcceptedAreSame(lists);
    ChosenIsListed(lists);
    SortKeepsDistinct(Chosen(lists), IntLess);
  }

  lemma OwnerInPlan(members: map<string, seq<string>>, sorted: seq<string>, parts: seq<int>, cuts: seq<int>, pos: nat)
    requires AreRanges(cuts, |parts|, |sorted|) && sorted != [] && pos < |parts|
    requires NoDuplicates(sorted) && NoDuplicates(parts) && forall m :: m in sorted <==> m in members
    ensures Owns(FullPlan(members, sorted, parts, cuts), members, parts[pos],
                 sorted[Owner(pos, cuts, |parts|, |sorted|)])
  {
    var plan := FullPlan(members, sorted, parts, cuts);
    var owner := Owner(pos, cuts, |parts|, |sorted|);
    forall m, t | m in members
      ensures parts[pos] in Entry(plan, m, t) <==> m == sorted[owner] && t in members[m]
    {
      var idx :| 0 <= idx < |sorted| && sorted[idx] == m;
      AssignedExactlyToOwner(members, sorted, parts, cuts, idx, t, pos);
    }
    assert sorted[owner] in sorted;
  }

  lemma MembersAreSorted(members: map<string, seq<string>>, order: seq<string>)
    requires IsOrderOf(members, order)
    ensures NoDuplicates(MembersOf(order)) && forall m :: m in MembersOf(order) <==> m in members
  {
    BeforeIsAnOrder();
    SortKeepsDistinct(order, Before);
    assert forall m :: m in MembersOf(order) <==> m in ToSet(MembersOf(order));
  }

  /** In any plan that is made, every partition of every topic has an owner (and, by Owns, only one). */
  lemma EveryPartitionIsOwned(strict: bool, members: map<string, seq<string>>, topics: map<string, seq<int>>,
                              memberOrder: seq<string>, topicOrder: seq<string>, sum: nat -> real, t: string, p: int)
    requires IsOrderOf(members, memberOrder) && IsOrderOf(topics, topicOrder) && ProperTopics(topics)
    requires (forall m | m in memberOrder :: m in members) && (forall u | u in topicOrder :: u in topics)
    requires RoundsFor(sum, topics, memberOrder, topicOrder)
    requires Planned(strict, members, topics, memberOrder, topicOrder, sum).Some?
    requires members != map[] && t in topics && p in topics[t]
    ensures exists owner ::
              Owns(Planned(strict, members, topics, memberOrder, topicOrder, sum).value, members, p, owner)
  {
    var sorted, parts := MembersOf(memberOrder), PartsOf(topics, topicOrder);
    PartsOfTopics(topics, topicOrder, t);
    MembersAreSorted(members, memberOrder);
    RoundedCuts(sum, |parts|, |sorted|);
    assert p in ToSet(parts);
    var pos :| 0 <= pos < |parts| && parts[pos] == p;
    var m :| m in members;
    assert m in sorted;
    OwnerInPlan(members, sorted, parts, CutsOf(sum, |sorted|), pos);
  }

  lemma PartsAreDistinct(topics: map<string, seq<int>>, order: seq<string>)
    requires IsOrderOf(topics, order) && ProperTopics(topics)
    requires (forall u | u in order :: u in topics) && Accepts(ListsOf(topics, order))
    ensures NoDuplicates(PartsOf(topics, order))
  {
    if order != [] {
      PartsOfTopics(topics, order, order[0]);
    }
  }

  /** A plan is made exactly for co-partitioned topics and, if strict, for members that all want all of them. */
  lemma PlannedIfCopartitioned(strict: bool, members: map<string, seq<string>>, topics: map<string, seq<int>>,
                               memberOrder: seq<string>, topicOrder: seq<string>, sum: nat -> real)
    requires IsOrderOf(members, memberOrder) && IsOrderOf(topics, topicOrder) && ProperTopics(topics)
    requires (forall m | m in memberOrder :: m in members) && (forall t | t in topicOrder :: t in topics)
    requires RoundsFor(sum, topics, memberOrder, topicOrder) && forall m | m in members :: NoDuplicates(members[m])
    ensures Planned(strict, members, topics, memberOrder, topicOrder, sum).Some? <==>
            && (forall t, u | t in topics && u in topics :: ToSet(topics[t]) == ToSet(topics[u]))
            && (strict ==> forall m | m in members :: ToSet(members[m]) == topics.Keys)
  {
    KeysInOrder(members, memberOrder);
    AcceptedIfSameSets(topics, topicOrder);
    forall m | m in members ensures Same(topicOrder, members[m]) <==> ToSet(members[m]) == topics.Keys {
      SameIsSetEquality(topicOrder, members[m]);
    }
  }

  lemma AcceptedIfSameSets(topics: map<string, seq<int>>, order: seq<string>)
    requires IsOrderOf(topics, order) && ProperTopics(topics) && forall u | u in order :: u in topics
    ensures Accepts(ListsOf(topics, order)) <==>
            forall t, u | t in topics && u in topics :: ToSet(topics[t]) == ToSet(topics[u])
  {
    KeysInOrder(topics, order);
    if Accepts(ListsOf(topics, order)) {
      forall t | t in topics ensures ToSet(topics[t]) == ToSet(PartsOf(topics, order)) {
        PartsOfTopics(topics, order, t);
      }
    }
    if forall t, u | t in topics && u in topics :: ToSet(topics[t]) == ToSet(topics[u]) {
      forall t, u | t in topics && u in topics ensures Same(topics[t], topics[u]) {
        SameIsSetEquality(topics[t], topics[u]);
      }
      AllSameIsAccepted(ListsOf(topics, order));
    }
  }

  // ---------- in ascending order ----------

  ghost predicate Ascending(s: seq<int>) {
    forall i, j | 0 <= i < j < |s| :: s[i] < s[j]
  }

  lemma PartsAscend(topics: map<string, seq<int>>, order: seq<string>)
    requires IsOrderOf(topics, order) && ProperTopics(topics)
    requires (forall u | u in order :: u in topics) && Accepts(ListsOf(topics, order))
    ensures Ascending(PartsOf(topics, order))
  {
    PartsAreDistinct(topics, order);
    SortSorts(Chosen(ListsOf(topics, order)), IntLess);
  }

  lemma RangeAscends(parts: seq<int>, cuts: seq<int>, members: nat, idx: nat)
    requires Ascending(parts) && AreRanges(cuts, |parts|, members) && idx < members
    ensures Ascending(RangeOf(parts, cuts, idx))
  {
    RangeFits(cuts, |parts|, members, idx);
  }

  lemma OnceAscends(k: nat, range: seq<int>)
    requires k <= 1 && Ascending(range)
    ensures Ascending(Times(k, range))
  {
    assert Times(0, range) == [];
    assert k == 1 ==> Times(k, range) == Times(0, range) + range == range;
  }

  /** Where in the list, and in whose range, an assigned partition is. */
  lemma AssignedAt(members: map<string, seq<string>>, sorted: seq<string>, parts: seq<int>, cuts: seq<int>,
                   idx: nat, t: string, p: int) returns (pos: nat)
    requires AreRanges(cuts, |parts|, |sorted|) && NoDuplicates(sorted) && (forall m | m in sorted :: m in members)
    requires idx < |sorted| && p in Entry(FullPlan(members, sorted, parts, cuts), sorted[idx], t)
    ensures pos < |parts| && parts[pos] == p && cuts[idx] <= pos < cuts[idx + 1]
  {
    EntryOfPlan(members, sorted, parts, cuts, |sorted|, idx, t);
    InTimes(multiset(members[sorted[idx]])[t], RangeOf(parts, cuts, idx), p);
    RangeFits(cuts, |parts|, |sorted|, idx);
    var i :| 0 <= i < |RangeOf(parts, cuts, idx)| && RangeOf(parts, cuts, idx)[i] == p;
    pos := cuts[idx] + i;
  }

  lemma EntryAscends(members: map<string, seq<string>>, sorted: seq<string>, parts: seq<int>, cuts: seq<int>,
                     idx: nat, t: string)
    requires AreRanges(cuts, |parts|, |sorted|) && NoDuplicates(sorted) && (forall m | m in sorted :: m in members)
    requires Ascending(parts) && idx < |sorted| && multiset(members[sorted[idx]])[t] <= 1
    ensures Ascending(Entry(FullPlan(members, sorted, parts, cuts), sorted[idx], t))
  {
    EntryOfPlan(members, sorted, parts, cuts, |sorted|, idx, t);
    RangeAscends(parts, cuts, |sorted|, idx);
    OnceAscends(multiset(members[sorted[idx]])[t], RangeOf(parts, cuts, idx));
  }

  /** A member's list for a topic it lists once is strictly ascending. */
  lemma ListsAscend(strict: bool, members: map<string, seq<string>>, topics: map<string, seq<int>>,
                    memberOrder: seq<string>, topicOrder: seq<string>, sum: nat -> real, m: string, t: string)
    requires IsOrderOf(members, memberOrder) && IsOrderOf(topics, topicOrder) && ProperTopics(topics)
    requires (forall m | m in memberOrder :: m in members) && (forall u | u in topicOrder :: u in topics)
    requires RoundsFor(sum, topics, memberOrder, topicOrder)
    requires Planned(strict, members, topics, memberOrder, topicOrder, sum).Some?
    requires m in members && multiset(members[m])[t] <= 1
    ensures Ascending(Entry(Planned(strict, members, topics, memberOrder, topicOrder, sum).value, m, t))
  {
    var sorted, parts := MembersOf(memberOrder), PartsOf(topics, topicOrder);
    var cuts := CutsOf(sum, |sorted|);
    MembersAreSorted(members, memberOrder);
    PartsAscend(topics, topicOrder);
    RoundedCuts(sum, |parts|, |sorted|);
    var idx :| 0 <= idx < |sorted| && sorted[idx] == m;
    EntryAscends(members, sorted, parts, cuts, idx, t);
  }

  /** Lower partitions go to members that do not come later, in any topics. */
  lemma LowerPartitionsGoFirst(strict: bool, members: map<string, seq<string>>, topics: map<string, seq<int>>,
                               memberOrder: seq<string>, topicOrder: seq<string>, sum: nat -> real,
                               p: int, m: string, t: string, p': int, m': string, t': string)
    requires IsOrderOf(members, memberOrder) && IsOrderOf(topics, topicOrder) && ProperTopics(topics)
    requires (forall m | m in memberOrder :: m in members) && (forall u | u in topicOrder :: u in topics)
    requires RoundsFor(sum, topics, memberOrder, topicOrder)
    requires Planned(strict, members, topics, memberOrder, topicOrder, sum).Some? && m in members && m' in members
    requires p in Entry(Planned(strict, members, topics, memberOrder, topicOrder, sum).value, m, t)
    requires p' in Entry(Planned(strict, members, topics, memberOrder, topicOrder, sum).value, m', t')
    requires p < p'
    ensures !Before(m', m)
  {
    var sorted, parts := MembersOf(memberOrder), PartsOf(topics, topicOrder);
    var cuts := CutsOf(sum, |sorted|);
    MembersAreSorted(members, memberOrder);
    PartsAscend(topics, topicOrder);
    RoundedCuts(sum, |parts|, |sorted|);
    var idx :| 0 <= idx < |sorted| && sorted[idx] == m;
    var idx' :| 0 <= idx' < |sorted| && sorted[idx'] == m';
    var pos := AssignedAt(members, sorted, parts, cuts, idx, t, p);
    var pos' := AssignedAt(members, sorted, parts, cuts, idx', t', p');
    if idx' < idx {
      InOrder(cuts, idx' + 1, idx);
    }
    BeforeIsAnOrder();
    SortSorts(memberOrder, Before);
    BeforeIsIrreflexive(m);
  }
}
