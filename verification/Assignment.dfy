/**
  assignmentFromSession (processor.go): the check a member makes of the claims it is given, and that
  every part of a plan passes it.
 */
module Assignment {
  import opened Common
  import opened Order
  import opened Copartition
  import opened Rebalance

  const OFFSET_NEWEST := -1

  /** Each later claim has as many partitions as the first has different ones, and no others. */
  ghost predicate ClaimsAgree(lists: seq<seq<int>>) {
    forall i | 0 < i < |lists| :: |lists[i]| == |ToSet(lists[0])| && forall p | p in lists[i] :: p in lists[0]
  }

  function Newest(claim: seq<int>): map<int, int> {
    map p | p in ToSet(claim) :: OFFSET_NEWEST
  }

  /** What the check comes to; None is the nil assignment of a session without claims. */
  ghost function SessionResult(lists: seq<seq<int>>): Result<Option<map<int, int>>> {
    if !ClaimsAgree(lists) then Err("session claims are not copartitioned")
    else if lists == [] then Ok(None)
    else Ok(Some(Newest(lists[0])))
  }

  method Generate(claim: seq<int>) returns (assignment: map<int, int>)
    ensures assignment == Newest(claim)
  {
    assignment := map[];
    for i := 0 to |claim|
      invariant assignment == Newest(claim[..i])
    {
      assert claim[..i + 1] == claim[..i] + [claim[i]];
      assignment := assignment[claim[i] := OFFSET_NEWEST];
    }
    assert claim[..|claim|] == claim;
  }

  method Verify(claim: seq<int>, assignment: map<int, int>) returns (ok: bool)
    ensures ok <==> |claim| == |assignment| && forall p | p in claim :: p in assignment
  {
    if |claim| != |assignment| {
      return false;
    }
    for i := 0 to |claim|
      invariant forall j | 0 <= j < i :: claim[j] in assignment
    {
      var part := claim[i];
      if part !in assignment {
        assert part in claim;
        return false;
      }
    }
    return true;
  }

  method AssignmentFromSession(claims: map<string, seq<int>>, order: seq<string>)
    returns (r: Result<Option<map<int, int>>>)
    requires forall t | t in order :: t in claims
    ensures r == SessionResult(ListsOf(claims, order))
  {
    ghost var lists := ListsOf(claims, order);
    var assignment: Option<map<int, int>> := None;
    for i := 0 to |order|
      invariant assignment.None? <==> i == 0
      invariant assignment.Some? ==> assignment.value == Newest(lists[0])
      invariant ClaimsAgree(lists[..i])
    {
      var claim := claims[order[i]];
      assert claim == lists[i];
      if assignment.None? {
        var generated := Generate(claim);
        assignment := Some(generated);
      } else {
        var ok := Verify(claim, assignment.value);
        assert assignment.value.Keys == ToSet(lists[0]);
        assert lists[..i + 1][0] == lists[0] && lists[..i + 1][i] == claim;
        if !ok {
          assert lists[i] == claim;
          return Err("session claims are not copartitioned");
        }
      }
    }
    assert lists[..|order|] == lists;
    return Ok(assignment);
  }

  // ---------- plans pass ----------

  /** A plan has no empty lists and no empty members. */
  ghost predicate NoEmpties(plan: Plan) {
    forall m | m in plan :: plan[m] != map[] && forall t | t in plan[m] :: plan[m][t] != []
  }

  lemma AddKeepsNoEmpties(plan: Plan, m: string, t: string, ps: seq<int>)
    requires NoEmpties(plan)
    ensures NoEmpties(Add(plan, m, t, ps))
  {
    if ps != [] {
      assert t in Add(plan, m, t, ps)[m];
    }
  }

  lemma {:induction false} AddAllKeepsNoEmpties(plan: Plan, m: string, ts: seq<string>, ps: seq<int>)
    requires NoEmpties(plan)
    ensures NoEmpties(AddAll(plan, m, ts, ps))
  {
    if ts != [] {
      AddAllKeepsNoEmpties(plan, m, ts[..|ts| - 1], ps);
      AddKeepsNoEmpties(AddAll(plan, m, ts[..|ts| - 1], ps), m, ts[|ts| - 1], ps);
    }
  }

  lemma {:induction false} PlanHasNoEmpties(members: map<string, seq<string>>, sorted: seq<string>, parts: seq<int>,
                                            cuts: seq<int>, k: nat)
    requires AreRanges(cuts, |parts|, |sorted|) && k <= |sorted| && forall m | m in sorted :: m in members
    ensures NoEmpties(PlanFor(members, sorted, parts, cuts, k))
  {
    if k > 0 {
      PlanHasNoEmpties(members, sorted, parts, cuts, k - 1);
      AddAllKeepsNoEmpties(PlanFor(members, sorted, parts, cuts, k - 1), sorted[k - 1], members[sorted[k - 1]],
                           RangeOf(parts, cuts, k - 1));
    }
  }

  /** The claims of a member: its part of the plan. */
  function Claims(plan: Plan, m: string): map<string, seq<int>> {
    if m in plan then plan[m] else map[]
  }

  /** Each claim of a member is its range, and it has claims exactly if it has a range and a topic. */
  lemma ClaimsAreRanges(members: map<string, seq<string>>, sorted: seq<string>, parts: seq<int>, cuts: seq<int>,
                        idx: nat)
    requires AreRanges(cuts, |parts|, |sorted|) && NoDuplicates(sorted) && (forall m | m in sorted :: m in members)
    requires idx < |sorted| && NoDuplicates(members[sorted[idx]])
    ensures var claims := Claims(FullPlan(members, sorted, parts, cuts), sorted[idx]);
            var range := RangeOf(parts, cuts, idx);
            && (forall t | t in claims :: claims[t] == range)
            && (claims == map[] <==> range == [] || members[sorted[idx]] == [])
  {
    var plan, m := FullPlan(members, sorted, parts, cuts), sorted[idx];
    var claims := Claims(plan, m);
    PlanHasNoEmpties(members, sorted, parts, cuts, |sorted|);
    forall t | t in claims ensures claims[t] == RangeOf(parts, cuts, idx) != [] && t in members[m] {
      EntryIsRange(members, sorted, parts, cuts, idx, t);
      assert claims[t] == Entry(plan, m, t);
    }
    if members[m] != [] {
      EntryIsRange(members, sorted, parts, cuts, idx, members[m][0]);
      assert members[m][0] in members[m];
    }
    if claims != map[] {
      var t :| t in claims;
    }
  }

  lemma SameClaimsAgree(claims: map<string, seq<int>>, order: seq<string>, range: seq<int>)
    requires IsOrderOf(claims, order) && NoDuplicates(range) && forall t | t in claims :: claims[t] == range
    ensures forall t | t in order :: t in claims
    ensures SessionResult(ListsOf(claims, order)) == Ok(if claims == map[] then None else Some(Newest(range)))
  {
    KeysInOrder(claims, order);
    assert forall i | 0 <= i < |order| :: order[i] in claims && ListsOf(claims, order)[i] == range;
    SetSize(range);
    if order == [] {
      assert claims.Keys == {};
      assert claims == map[];
    } else {
      assert order[0] in claims;
    }
  }

  lemma RangeIsDistinct(parts: seq<int>, cuts: seq<int>, idx: nat)
    requires AreRanges(cuts, |parts|, |cuts| - 1) && idx + 1 < |cuts| && NoDuplicates(parts)
    ensures NoDuplicates(RangeOf(parts, cuts, idx))
  {
    RangeFits(cuts, |parts|, |cuts| - 1, idx);
  }

  /**
    In any plan that is made, the part of a member that lists no topic twice passes the member's own
    check, in whatever order the session lists it, and gives it exactly its range.
   */
  lemma PlanPassesSession(strict: bool, members: map<string, seq<string>>, topics: map<string, seq<int>>,
                          memberOrder: seq<string>, topicOrder: seq<string>, sum: nat -> real,
                          idx: nat, order: seq<string>)
    requires IsOrderOf(members, memberOrder) && IsOrderOf(topics, topicOrder) && ProperTopics(topics)
    requires (forall m | m in memberOrder :: m in members) && (forall t | t in topicOrder :: t in topics)
    requires RoundsFor(sum, topics, memberOrder, topicOrder)
    requires Planned(strict, members, topics, memberOrder, topicOrder, sum).Some?
    requires idx < |MembersOf(memberOrder)| && MembersOf(memberOrder)[idx] in members
    requires NoDuplicates(members[MembersOf(memberOrder)[idx]])
    requires IsOrderOf(Claims(Planned(strict, members, topics, memberOrder, topicOrder, sum).value,
                              MembersOf(memberOrder)[idx]), order)
    ensures AreRanges(CutsOf(sum, |MembersOf(memberOrder)|), |PartsOf(topics, topicOrder)|, |MembersOf(memberOrder)|)
    ensures var plan := Planned(strict, members, topics, memberOrder, topicOrder, sum).value;
            var m := MembersOf(memberOrder)[idx];
            var range := RangeOf(PartsOf(topics, topicOrder), CutsOf(sum, |MembersOf(memberOrder)|), idx);
            && (forall t | t in order :: t in Claims(plan, m))
            && SessionResult(ListsOf(Claims(plan, m), order)) ==
               Ok(if range == [] || members[m] == [] then None else Some(Newest(range)))
  {
    var sorted, parts := MembersOf(memberOrder), PartsOf(topics, topicOrder);
    var cuts := CutsOf(sum, |sorted|);
    MembersAreSorted(members, memberOrder);
    PartsAreDistinct(topics, topicOrder);
    RoundedCuts(sum, |parts|, |sorted|);
    ClaimsAreRanges(members, sorted, parts, cuts, idx);
    RangeIsDistinct(parts, cuts, idx);
    SameClaimsAgree(Claims(FullPlan(members, sorted, parts, cuts), sorted[idx]), order, RangeOf(parts, cuts, idx));
  }
}
