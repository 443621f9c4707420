/** The dependency-aware execution planner: it peels the work items off in
    execution groups and then finds the critical path. */
module Planner {
  import opened Sequences
  import opened PlanGraph

  datatype PrioritizedRow = PrioritizedRow(
    id: string,
    priorityScore: real,
    dependencies: seq<string>,
    preferredAgentId: Option<string>,
    requiredCapability: Option<string>)

  datatype PathEntry = PathEntry(duration: int, path: seq<string>)

  datatype Plan = Plan(
    executionGroups: seq<seq<string>>,
    prioritizedOrder: seq<PrioritizedRow>,
    criticalPath: PathEntry)

  // ----- Scores and durations

  function Clamp01(x: real): real {
    if x < 0.0 then 0.0 else if x > 1.0 then 1.0 else x
  }

  function ScoreOf(score: Option<real>): real {
    Clamp01(if score.Some? then score.value else 0.5)
  }

  /** A score in [0, 1], to three decimals. */
  function ToPriorityScore(item: WorkItem): real {
    var raw := Clamp01(
      ScoreOf(item.impactScore) * 0.4 + ScoreOf(item.urgencyScore) * 0.35
      + ScoreOf(item.riskScore) * 0.2 - ScoreOf(item.costScore) * 0.15);
    (raw * 1000.0 + 0.5).Floor as real / 1000.0
  }

  function Duration(item: WorkItem): (minutes: int)
    ensures minutes >= 1
  {
    var estimate := (if item.estimatedDurationMinutes.Some? then item.estimatedDurationMinutes.value else 15.0).Floor;
    if estimate > 1 then estimate else 1
  }

  /** An estimate of at least one minute counts in whole minutes begun and ended, a shorter one
      as one minute, and a missing one as fifteen. */
  lemma DurationOfEstimate(item: WorkItem)
    ensures match item.estimatedDurationMinutes
            case None => Duration(item) == 15
            case Some(m) => if m >= 1.0 then Duration(item) as real <= m < Duration(item) as real + 1.0 else Duration(item) == 1
  {
  }

  /** `x` is what a score weighs: the nearest number from 0 to 1, and one half if it is missing. */
  ghost predicate Weighs(score: Option<real>, x: real) {
    match score
    case None => x == 0.5
    case Some(v) => (0.0 <= v <= 1.0 && x == v) || (v < 0.0 && x == 0.0) || (v > 1.0 && x == 1.0)
  }

  /** The priority is the weighted sum of impact, urgency and risk less the cost, to the nearest
      thousandth, and never negative. */
  lemma PriorityOfScores(item: WorkItem, impact: real, urgency: real, risk: real, cost: real)
    requires Weighs(item.impactScore, impact) && Weighs(item.urgencyScore, urgency)
    requires Weighs(item.riskScore, risk) && Weighs(item.costScore, cost)
    ensures var weighted, priority := 0.4 * impact + 0.35 * urgency + 0.2 * risk - 0.15 * cost, ToPriorityScore(item);
            && (if weighted >= 0.0 then -0.0005 <= priority - weighted <= 0.0005 else priority == 0.0)
            && priority * 1000.0 == (priority * 1000.0).Floor as real
  {
    var weighted := 0.4 * impact + 0.35 * urgency + 0.2 * risk - 0.15 * cost;
    assert ScoreOf(item.impactScore) == impact && ScoreOf(item.urgencyScore) == urgency;
    assert ScoreOf(item.riskScore) == risk && ScoreOf(item.costScore) == cost;
    var raw := if weighted < 0.0 then 0.0 else weighted;
    NearestThousandth(raw);
    hide ScoreOf;
    assert ToPriorityScore(item) == (raw * 1000.0 + 0.5).Floor as real / 1000.0;
  }

  lemma NearestThousandth(raw: real)
    requires raw >= 0.0
    ensures var rounded := (raw * 1000.0 + 0.5).Floor as real / 1000.0;
            && -0.0005 <= rounded - raw <= 0.0005 && rounded >= 0.0
            && rounded * 1000.0 == (rounded * 1000.0).Floor as real
            && (raw == 0.0 ==> rounded == 0.0)
  {
    var n := (raw * 1000.0 + 0.5).Floor;
    assert n as real <= raw * 1000.0 + 0.5 < n as real + 1.0;
    assert n as real / 1000.0 * 1000.0 == n as real;
  }

  predicate HigherPriorityFirst(left: WorkItem, right: WorkItem) {
    ToPriorityScore(left) >= ToPriorityScore(right)
  }

  function SortByPriority(items: seq<WorkItem>): seq<WorkItem> {
    StableSort(items, HigherPriorityFirst)
  }

  function RowOf(item: WorkItem): PrioritizedRow {
    PrioritizedRow(item.id, ToPriorityScore(item), item.dependencies, item.preferredAgentId, item.requiredCapability)
  }

  function RowIds(rows: seq<PrioritizedRow>): (ids: seq<string>)
    ensures |ids| == |rows|
    ensures forall i :: 0 <= i < |rows| ==> ids[i] == rows[i].id
  {
    Map(rows, (row: PrioritizedRow) => row.id)
  }

  function Flatten(groups: seq<seq<string>>): seq<string> {
    if groups == [] then [] else Flatten(groups[..|groups| - 1]) + groups[|groups| - 1]
  }

  // ----- What the groups are

  ghost function ItemsAtDepth(items: seq<WorkItem>, k: nat): seq<WorkItem> {
    Filter(items, (item: WorkItem) => AtDepth(items, item.id, k))
  }

  /** Group `k` holds exactly the items of depth `k`, by falling priority, and
      no further item has a depth at all. */
  ghost predicate Layered(items: seq<WorkItem>, groups: seq<seq<string>>) {
    && (forall k :: 0 <= k < |groups| ==>
          groups[k] == Ids(SortByPriority(ItemsAtDepth(items, k))) && groups[k] != [])
    && ItemsAtDepth(items, |groups|) == []
  }

  lemma PriorityIsPreorder()
    ensures TotalPreorder(HigherPriorityFirst)
  {
  }

  lemma KnownItem(items: seq<WorkItem>, x: string) returns (item: WorkItem)
    requires x in Known(items)
    ensures item in items && item.id == x
  {
    var i :| 0 <= i < |items| && items[i].id == x;
    item := items[i];
  }

  lemma GroupMembers(items: seq<WorkItem>, k: nat, x: string)
    ensures x in Ids(SortByPriority(ItemsAtDepth(items, k))) <==> AtDepth(items, x, k)
  {
    var layer := ItemsAtDepth(items, k);
    SortPermutes(layer, HigherPriorityFirst);
    var sorted := SortByPriority(layer);
    if x in Ids(sorted) {
      var i :| 0 <= i < |sorted| && Ids(sorted)[i] == x;
      assert sorted[i] in layer;
    }
    if AtDepth(items, x, k) {
      DeepKnown(items, x, k);
      var item := KnownItem(items, x);
      assert item in sorted;
      var i :| 0 <= i < |sorted| && sorted[i] == item;
      assert Ids(sorted)[i] == x;
    }
  }

  lemma {:induction false} FlattenMember(groups: seq<seq<string>>, x: string)
    ensures x in Flatten(groups) <==> exists k :: 0 <= k < |groups| && x in groups[k]
  {
    if groups != [] {
      var init := groups[..|groups| - 1];
      FlattenMember(init, x);
      assert x in Flatten(groups) <==> x in Flatten(init) || x in groups[|groups| - 1];
      if x in Flatten(init) {
        var k :| 0 <= k < |init| && x in init[k];
        assert x in groups[k];
      }
      if exists k :: 0 <= k < |groups| && x in groups[k] {
        var k :| 0 <= k < |groups| && x in groups[k];
        if k < |init| {
          assert x in init[k];
        }
      }
    }
  }

  /** An item is in group `k` exactly when its longest chain of known dependencies has `k` edges. */
  lemma GroupIsLongestChain(items: seq<WorkItem>, groups: seq<seq<string>>, k: nat, x: string)
    requires Layered(items, groups) && k < |groups|
    ensures x in groups[k] <==>
            (exists c :: ChainTo(items, c, x) && |c| == k + 1) && (forall c :: ChainTo(items, c, x) ==> |c| <= k + 1)
  {
    GroupMembers(items, k, x);
    AtDepthIsLongestChain(items, x, k);
  }

  /** Below an item of depth `j` there is one of every smaller depth. */
  lemma {:induction false} DepthsAreFilled(items: seq<WorkItem>, x: string, j: nat, k: nat)
    requires AtDepth(items, x, j) && k <= j
    ensures ItemsAtDepth(items, k) != []
    decreases j
  {
    if j == k {
      DeepKnown(items, x, j);
      var item := KnownItem(items, x);
      assert item in ItemsAtDepth(items, k);
    } else {
      var d :| Edge(items, d, x) && Deep(items, d, j - 1);
      EdgeDeepens(items, d, x, j);
      DepthsAreFilled(items, d, j - 1, k);
    }
  }

  /** With no item at depth `k`, an item of depth `k` or more is deeper than every bound. */
  lemma {:induction false} BottomlessFrom(items: seq<WorkItem>, k: nat, x: string, j: nat)
    requires ItemsAtDepth(items, k) == [] && Deep(items, x, k) && k <= j
    ensures Deep(items, x, j)
    decreases j
  {
    if j > k {
      BottomlessFrom(items, k, x, j - 1);
      if AtDepth(items, x, j - 1) {
        DepthsAreFilled(items, x, j - 1, k);
      }
    }
  }

  lemma {:induction false} ShallowHasDepth(items: seq<WorkItem>, x: string, n: nat) returns (k: nat)
    requires x in Known(items) && !Deep(items, x, n)
    ensures k < n && AtDepth(items, x, k)
  {
    assert n > 0;
    if Deep(items, x, n - 1) {
      k := n - 1;
    } else {
      k := ShallowHasDepth(items, x, n - 1);
    }
  }

  lemma ScheduledIffShallow(items: seq<WorkItem>, groups: seq<seq<string>>, x: string)
    requires Layered(items, groups) && x in Known(items)
    ensures x in Flatten(groups) <==> !Deep(items, x, |groups|)
  {
    FlattenMember(groups, x);
    if x in Flatten(groups) {
      var k :| 0 <= k < |groups| && x in groups[k];
      GroupMembers(items, k, x);
      if Deep(items, x, |groups|) {
        DeepAntitone(items, x, k + 1, |groups|);
      }
    } else if !Deep(items, x, |groups|) {
      var k := ShallowHasDepth(items, x, |groups|);
      GroupMembers(items, k, x);
    }
  }

  lemma BottomlessIffDeep(items: seq<WorkItem>, n: nat, x: string)
    requires ItemsAtDepth(items, n) == []
    ensures Deep(items, x, n) <==> Deep(items, x, |Known(items)|)
  {
    var bound := |Known(items)|;
    if Deep(items, x, n) {
      if bound <= n {
        DeepAntitone(items, x, bound, n);
      } else {
        BottomlessFrom(items, n, x, bound);
      }
    }
    if Deep(items, x, bound) {
      DependsOnCycleIffDeep(items, x);
      var e :| ChainTo(items, e, x) && OnCycle(items, e[0]);
      AboveCycleIsDeep(items, e, x, n);
    }
  }

  /** The items the plan leaves out are exactly those that depend on a cycle. */
  lemma LeftOutIffOnOrAboveCycle(items: seq<WorkItem>, groups: seq<seq<string>>, x: string)
    requires Layered(items, groups) && x in Known(items)
    ensures x !in Flatten(groups) <==> exists e :: ChainTo(items, e, x) && OnCycle(items, e[0])
  {
    ScheduledIffShallow(items, groups, x);
    BottomlessIffDeep(items, |groups|, x);
    DependsOnCycleIffDeep(items, x);
  }

  /** A layering puts every scheduled item strictly above its scheduled dependencies. */
  ghost predicate ValidLayering(items: seq<WorkItem>, scheduled: seq<string>, layer: map<string, nat>, layers: nat) {
    && (forall x :: x in scheduled ==> x in layer && layer[x] < layers)
    && (forall a, b :: a in scheduled && b in scheduled && Edge(items, a, b) ==> layer[a] < layer[b])
  }

  lemma {:induction false} ChainClimbs(items: seq<WorkItem>, scheduled: seq<string>, layer: map<string, nat>, layers: nat,
                     c: seq<string>, x: string)
    requires ValidLayering(items, scheduled, layer, layers)
    requires ChainTo(items, c, x) && forall i :: 0 <= i < |c| ==> c[i] in scheduled
    ensures |c| <= layer[x] + 1
  {
    if |c| > 1 {
      var d := c[|c| - 2];
      assert Edge(items, d, x);
      ChainClimbs(items, scheduled, layer, layers, c[..|c| - 1], d);
    }
  }

  lemma CycleStaysBelow(items: seq<WorkItem>, e: seq<string>, c: seq<string>, x: string, i: nat)
    requires ChainTo(items, c, x) && i < |c| && ChainTo(items, e, c[i]) && OnCycle(items, e[0])
    ensures exists d :: ChainTo(items, d, x) && OnCycle(items, d[0])
  {
    ChainSlice(items, c, x, i, |c|);
    ChainAppend(items, e, c[i..], c[i], x);
    assert (e + c[i..][1..])[0] == e[0];
  }

  /** Everything below a scheduled item is scheduled. */
  lemma ScheduledBelow(items: seq<WorkItem>, groups: seq<seq<string>>, c: seq<string>, x: string, i: nat)
    requires Layered(items, groups) && ChainTo(items, c, x) && x in Flatten(groups) && i < |c|
    ensures c[i] in Flatten(groups)
  {
    hide Layered, Flatten, OnCycle, Edge;
    assert c[i] in Known(items) && x in Known(items);
    if c[i] !in Flatten(groups) {
      LeftOutIffOnOrAboveCycle(items, groups, c[i]);
      var e :| ChainTo(items, e, c[i]) && OnCycle(items, e[0]);
      CycleStaysBelow(items, e, c, x, i);
      LeftOutIffOnOrAboveCycle(items, groups, x);
    }
  }

  /** No valid layering of the scheduled items uses fewer layers than the plan has groups. */
  lemma FewestGroups(items: seq<WorkItem>, groups: seq<seq<string>>, layer: map<string, nat>, layers: nat)
    requires Layered(items, groups)
    requires ValidLayering(items, Flatten(groups), layer, layers)
    ensures |groups| <= layers
  {
    if groups != [] {
      var k := |groups| - 1;
      var x := groups[k][0];
      FlattenMember(groups, x);
      assert x in groups[k];
      GroupMembers(items, k, x);
      var c := DeepGivesChain(items, x, k);
      forall i | 0 <= i < |c|
        ensures c[i] in Flatten(groups)
      {
        ScheduledBelow(items, groups, c, x, i);
      }
      ChainClimbs(items, Flatten(groups), layer, layers, c, x);
    }
  }

  /** ... and the groups themselves are such a layering. */
  lemma GroupsAreLayering(items: seq<WorkItem>, groups: seq<seq<string>>, j: nat, k: nat, a: string, b: string)
    requires Layered(items, groups) && j < |groups| && k < |groups|
    requires a in groups[j] && b in groups[k] && Edge(items, a, b)
    ensures j < k
  {
    GroupMembers(items, j, a);
    GroupMembers(items, k, b);
    assert Deep(items, b, j + 1);
    if k <= j {
      DeepAntitone(items, b, k + 1, j + 1);
    }
  }

  /** A group runs by falling priority, and items of equal priority in their input order. */
  lemma GroupIsByPriority(items: seq<WorkItem>, groups: seq<seq<string>>, k: nat, y: WorkItem)
    requires Layered(items, groups) && k < |groups|
    ensures var layer := SortByPriority(ItemsAtDepth(items, k));
            && groups[k] == Ids(layer)
            && (forall i, j :: 0 <= i < j < |layer| ==> ToPriorityScore(layer[i]) >= ToPriorityScore(layer[j]))
            && Filter(layer, (item: WorkItem) => ToPriorityScore(item) == ToPriorityScore(y)) ==
               Filter(ItemsAtDepth(items, k), (item: WorkItem) => ToPriorityScore(item) == ToPriorityScore(y))
  {
    hide ToPriorityScore, ItemsAtDepth, StableSort;
    var layer, all := SortByPriority(ItemsAtDepth(items, k)), ItemsAtDepth(items, k);
    PriorityIsPreorder();
    SortSorted(all, HigherPriorityFirst);
    SortStable(all, HigherPriorityFirst, y);
    FilterExtensional(layer, (item: WorkItem) => Ties(HigherPriorityFirst, item, y),
                      (item: WorkItem) => ToPriorityScore(item) == ToPriorityScore(y));
    FilterExtensional(all, (item: WorkItem) => Ties(HigherPriorityFirst, item, y),
                      (item: WorkItem) => ToPriorityScore(item) == ToPriorityScore(y));
  }
}
