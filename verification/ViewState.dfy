/** The state merger of a view (view.go): the view is in the lowest state any of its partitions reported. */
module ViewState {
  import opened Copartition
  import S = Signal

  // partition states (stats.go)
  const PARTITION_STOPPED := 0
  const PARTITION_INITIALIZING := 1
  const PARTITION_CONNECTING := 2
  const PARTITION_RECOVERING := 3
  const PARTITION_PREPARING := 4
  const PARTITION_RUNNING := 5

  // view states
  const VIEW_IDLE := 0
  const VIEW_INITIALIZING := 1
  const VIEW_CONNECTING := 2
  const VIEW_CATCH_UP := 3
  const VIEW_RUNNING := 4

  const NO_STATE := -1

  predicate IsPartitionState(state: int) {
    PARTITION_STOPPED <= state <= PARTITION_RUNNING
  }

  function Translated(state: int): int {
    if state == PARTITION_STOPPED then VIEW_IDLE
    else if state == PARTITION_INITIALIZING then VIEW_INITIALIZING
    else if state == PARTITION_CONNECTING then VIEW_CONNECTING
    else if state == PARTITION_RECOVERING || state == PARTITION_PREPARING then VIEW_CATCH_UP
    else if state == PARTITION_RUNNING then VIEW_RUNNING
    else NO_STATE
  }

  /** The lowest state reported: somebody is in it, and nobody is below. */
  ghost predicate IsLowest(states: map<int, int>, low: int) {
    (exists p :: p in states && states[p] == low) && forall p | p in states :: low <= states[p]
  }

  /** The states translate in order, so the view is in the lowest of the translated states too. */
  lemma TranslationKeepsOrder(a: int, b: int)
    requires IsPartitionState(a) && IsPartitionState(b) && a <= b
    ensures Translated(a) <= Translated(b) && Translated(a) != NO_STATE
  {
  }

  ghost predicate AllPartitionStates(states: map<int, int>) {
    forall p | p in states :: IsPartitionState(states[p])
  }

  method Lowest(states: map<int, int>, order: seq<int>) returns (low: int)
    requires IsOrderOf(states, order)
    ensures order == [] ==> low == NO_STATE
    ensures order != [] && AllPartitionStates(states) ==> IsLowest(states, low)
  {
    KeysInOrder(states, order);
    low := NO_STATE;
    ghost var at := 0;
    var i := 0;
    while i < |order|
      invariant 0 <= i <= |order| && if i == 0 then low == NO_STATE else 0 <= at < i && low == states[order[at]]
      invariant AllPartitionStates(states) ==> (i > 0 ==> low >= 0) && forall j | 0 <= j < i :: low <= states[order[j]]
    {
      var p := order[i];
      var state := states[p];
      assert p in states;
      if low == NO_STATE || state < low {
        low, at := state, i;
      }
      i := i + 1;
    }
    if order != [] && AllPartitionStates(states) {
      var lowest := order[at];
      assert lowest in states && states[lowest] == low;
      forall p | p in states ensures low <= states[p] {
        var j :| 0 <= j < |order| && order[j] == p;
      }
    }
  }

  /** What each state of the view says of the partitions. */
  ghost predicate Tells(states: map<int, int>, view: int) {
    && (view == VIEW_IDLE <==> exists p :: p in states && states[p] == PARTITION_STOPPED)
    && (view == VIEW_INITIALIZING <==>
        && (exists p :: p in states && states[p] == PARTITION_INITIALIZING)
        && forall p | p in states :: states[p] >= PARTITION_INITIALIZING)
    && (view == VIEW_CONNECTING <==>
        && (exists p :: p in states && states[p] == PARTITION_CONNECTING)
        && forall p | p in states :: states[p] >= PARTITION_CONNECTING)
    && (view == VIEW_CATCH_UP <==>
        && (exists p :: p in states && states[p] in {PARTITION_RECOVERING, PARTITION_PREPARING})
        && forall p | p in states :: states[p] >= PARTITION_RECOVERING)
    && (view == VIEW_RUNNING <==> forall p | p in states :: states[p] == PARTITION_RUNNING)
  }

  /** The translation of the lowest state says of the partitions what the view's state should. */
  lemma LowestTells(states: map<int, int>, low: int)
    requires AllPartitionStates(states) && IsLowest(states, low)
    ensures Tells(states, Translated(low)) && Translated(low) != NO_STATE
  {
    var p :| p in states && states[p] == low;
    assert IsPartitionState(low);
  }

  class StateMerger {
    var states: map<int, int>
    const view: S.Signal

    constructor (view: S.Signal)
      requires view.Valid() &&
               view.allowedStates == {VIEW_IDLE, VIEW_INITIALIZING, VIEW_CONNECTING, VIEW_CATCH_UP, VIEW_RUNNING}
      ensures this.view == view && states == map[] && Valid()
    {
      this.view, states := view, map[];
    }

    /** If partitions report states of theirs, the view's state says which. */
    ghost predicate Valid()
      reads this, view
    {
      && view.Valid()
      && view.allowedStates == {VIEW_IDLE, VIEW_INITIALIZING, VIEW_CONNECTING, VIEW_CATCH_UP, VIEW_RUNNING}
      && (states != map[] && AllPartitionStates(states) ==> Tells(states, view.state))
    }

    /** A report of partition `idx`; `order` is how the loop meets the partitions. */
    method UpdateViewState(idx: int, state: int, order: seq<int>, late: set<nat>)
      requires Valid() && IsOrderOf(states[idx := state], order)
      modifies this, view
      ensures Valid() && states == old(states)[idx := state]
      ensures AllPartitionStates(states) ==>
              Tells(states, view.state) && view.history == old(view.history) + [S.Set(view.state, late)]
      ensures view.history == old(view.history) || exists to :: view.history == old(view.history) + [S.Set(to, late)]
    {
      states := states[idx := state];
      var low := Lowest(states, order);
      KeysInOrder(states, order);
      assert idx in order;
      if AllPartitionStates(states) {
        LowestTells(states, low);
      }
      var newState := Translated(low);
      if newState != NO_STATE {
        var _ := view.SetState(newState, late);
      }
    }
  }
}
