/** The critical path: longest-path dynamic programming over the planned order,
    and the whole planner put together. */
module CriticalPath {
  import opened Sequences
  import opened OrderedMaps
  import opened PlanGraph
  import opened Planner
  import opened PlannerRun

  /** `itemMap.get(id)`: with repeated ids, the last item wins. */
  function Lookup(items: seq<WorkItem>, id: string): (item: WorkItem)
    requires id in Known(items)
    ensures item in items && item.id == id
  {
    var last := items[|items| - 1];
    if last.id == id then last
    else
      assert Known(items) == Known(items[..|items| - 1]) + {last.id};
      Lookup(items[..|items| - 1], id)
  }

  /** Total duration of the known ids in `c`. */
  ghost function Total(items: seq<WorkItem>, c: seq<string>): int {
    if c == [] then 0
    else
      var x := c[|c| - 1];
      Total(items, c[..|c| - 1]) + if x in Known(items) then Duration(Lookup(items, x)) else 0
  }

  ghost predicate ChainEntry(items: seq<WorkItem>, x: string, e: PathEntry) {
    ChainTo(items, e.path, x) && Total(items, e.path) == e.duration
  }

  /** `e` is a heaviest chain that ends at `x`. */
  ghost predicate Best(items: seq<WorkItem>, x: string, e: PathEntry) {
    ChainEntry(items, x, e) && forall c :: ChainTo(items, c, x) ==> Total(items, c) <= e.duration
  }

  /** `e` is a heaviest of all chains that end at an id of `ids`. */
  ghost predicate Critical(items: seq<WorkItem>, ids: seq<string>, e: PathEntry) {
    if ids == [] then e == PathEntry(0, [])
    else
      && (exists x :: x in ids && ChainEntry(items, x, e))
      && (forall x, c :: x in ids && ChainTo(items, c, x) ==> Total(items, c) <= e.duration)
  }

  predicate LongerFirst(left: PathEntry, right: PathEntry) {
    left.duration >= right.duration
  }

  lemma LongerIsPreorder()
    ensures TotalPreorder(LongerFirst)
  {
  }

  lemma HeadIsLongest(entries: seq<PathEntry>)
    requires entries != []
    ensures var sorted := StableSort(entries, LongerFirst);
            sorted != [] && sorted[0] in entries && forall e :: e in entries ==> e.duration <= sorted[0].duration
  {
    var sorted := StableSort(entries, LongerFirst);
    LongerIsPreorder();
    SortPermutes(entries, LongerFirst);
    SortSorted(entries, LongerFirst);
    LeastFirst(sorted, entries, LongerFirst);
    assert sorted[0] in sorted;
    forall e | e in entries
      ensures e.duration <= sorted[0].duration
    {
      assert LongerFirst(sorted[0], e);
    }
  }

  /** The entries already known for `deps`, in order. */
  function Parents(deps: seq<string>, longest: OrderedMap<string, PathEntry>): seq<PathEntry> {
    if deps == [] then []
    else
      var found := Find(longest, deps[0]);
      (if found.Some? then [found.value] else []) + Parents(deps[1..], longest)
  }

  lemma {:induction false} ParentsMember(deps: seq<string>, longest: OrderedMap<string, PathEntry>, e: PathEntry)
    ensures e in Parents(deps, longest) <==> exists d :: d in deps && Find(longest, d) == Some(e)
  {
    if deps != [] {
      ParentsMember(deps[1..], longest, e);
      assert forall d :: d in deps <==> d == deps[0] || d in deps[1..];
      if Find(longest, deps[0]) == Some(e) {
        assert deps[0] in deps;
      }
    }
  }

  function NextEntry(items: seq<WorkItem>, id: string, longest: OrderedMap<string, PathEntry>): PathEntry
    requires id in Known(items)
  {
    var item := Lookup(items, id);
    var sorted := StableSort(Parents(item.dependencies, longest), LongerFirst);
    if sorted == [] then PathEntry(Duration(item), [id])
    else PathEntry(Duration(item) + sorted[0].duration, sorted[0].path + [id])
  }

  ghost predicate BestSoFar(items: seq<WorkItem>, ids: seq<string>, longest: OrderedMap<string, PathEntry>) {
    forall x :: x in ids ==> Find(longest, x).Some? && Best(items, x, Find(longest, x).value)
  }

  ghost predicate KeysAre(ids: seq<string>, longest: OrderedMap<string, PathEntry>) {
    && DistinctKeys(longest)
    && (forall x :: Find(longest, x).Some? <==> x in ids)
  }

  lemma EdgeIsDependency(items: seq<WorkItem>, a: string, b: string)
    requires DistinctIds(items) && b in Known(items)
    ensures Edge(items, a, b) <==> a in Known(items) && a in Lookup(items, b).dependencies
  {
    var found := Lookup(items, b);
    var i :| 0 <= i < |items| && items[i] == found;
    if Edge(items, a, b) {
      var item :| item in items && item.id == b && a in item.dependencies;
      var j :| 0 <= j < |items| && items[j] == item;
      assert i == j;
    }
  }

  lemma {:induction false} ChainExtends(items: seq<WorkItem>, c: seq<string>, d: string, x: string)
    requires ChainTo(items, c, d) && Edge(items, d, x) && x in Known(items)
    ensures ChainTo(items, c + [x], x)
    ensures Total(items, c + [x]) == Total(items, c) + Duration(Lookup(items, x))
  {
    assert (c + [x])[..|c|] == c;
  }

  lemma ChainShortens(items: seq<WorkItem>, c: seq<string>, x: string)
    requires ChainTo(items, c, x) && |c| > 1
    ensures var d := c[|c| - 2];
            Edge(items, d, x) && ChainTo(items, c[..|c| - 1], d)
  {
    assert Edge(items, c[|c| - 2], c[|c| - 1]);
  }

  /** With the best chains of all dependencies known, `NextEntry` is a best chain. */
  lemma NextEntryIsBest(items: seq<WorkItem>, ids: seq<string>, x: string, longest: OrderedMap<string, PathEntry>)
    requires DistinctIds(items) && x in Known(items)
    requires KeysAre(ids, longest) && BestSoFar(items, ids, longest)
    requires forall d :: d in ids ==> d in Known(items)
    requires forall d :: Edge(items, d, x) ==> d in ids
    ensures Best(items, x, NextEntry(items, x, longest))
  {
    var item, e := Lookup(items, x), NextEntry(items, x, longest);
    var parents := Parents(item.dependencies, longest);
    SortPermutes(parents, LongerFirst);
    if parents == [] {
      assert e.path[..0] == [];
    } else {
      HeadIsLongest(parents);
      var parent := StableSort(parents, LongerFirst)[0];
      ParentsMember(item.dependencies, longest, parent);
      var d :| d in item.dependencies && Find(longest, d) == Some(parent);
      EdgeIsDependency(items, d, x);
      ChainExtends(items, parent.path, d, x);
    }
    forall c | ChainTo(items, c, x)
      ensures Total(items, c) <= e.duration
    {
      NextEntryCovers(items, ids, x, longest, c);
    }
  }

  lemma NextEntryCovers(items: seq<WorkItem>, ids: seq<string>, x: string, longest: OrderedMap<string, PathEntry>,
                        c: seq<string>)
    requires DistinctIds(items) && x in Known(items)
    requires KeysAre(ids, longest) && BestSoFar(items, ids, longest)
    requires forall d :: Edge(items, d, x) ==> d in ids
    requires ChainTo(items, c, x)
    ensures Total(items, c) <= NextEntry(items, x, longest).duration
  {
    var item := Lookup(items, x);
    var parents := Parents(item.dependencies, longest);
    SortPermutes(parents, LongerFirst);
    if parents != [] {
      HeadIsLongest(parents);
      var parent := StableSort(parents, LongerFirst)[0];
      ParentsMember(item.dependencies, longest, parent);
      var d :| d in item.dependencies && Find(longest, d) == Some(parent);
      assert parent.duration >= 0 by {
        assert Best(items, d, parent);
        TotalNonnegative(items, parent.path);
      }
    }
    if |c| > 1 {
      var d := c[|c| - 2];
      ChainShortens(items, c, x);
      EdgeIsDependency(items, d, x);
      var entry := Find(longest, d).value;
      ParentsMember(item.dependencies, longest, entry);
    } else {
      assert c[..|c| - 1] == [];
    }
  }

  lemma {:induction false} TotalNonnegative(items: seq<WorkItem>, c: seq<string>)
    ensures Total(items, c) >= 0
  {
    if c != [] {
      TotalNonnegative(items, c[..|c| - 1]);
    }
  }

  method LongestPath(items: seq<WorkItem>, topoIds: seq<string>) returns (critical: PathEntry)
    requires forall id :: id in topoIds ==> id in Known(items)
    ensures DistinctIds(items) && Topological(items, topoIds) ==> Critical(items, topoIds, critical)
  {
    var longestPathTo: OrderedMap<string, PathEntry> := [];
    ghost var exact := DistinctIds(items) && Topological(items, topoIds);
    for i := 0 to |topoIds|
      invariant KeysAre(topoIds[..i], longestPathTo)
      invariant exact ==> BestSoFar(items, topoIds[..i], longestPathTo)
    {
      var id := topoIds[i];
      var entry := NextEntry(items, id, longestPathTo);
      if exact {
        NextEntryIsBest(items, topoIds[..i], id, longestPathTo);
      }
      PutKeys(longestPathTo, id, entry);
      forall x
        ensures Find(Put(longestPathTo, id, entry), x) == if x == id then Some(entry) else Find(longestPathTo, x)
      {
        FindPut(longestPathTo, id, entry, x);
      }
      longestPathTo := Put(longestPathTo, id, entry);
      assert topoIds[..i + 1] == topoIds[..i] + [id];
    }
    assert topoIds[..|topoIds|] == topoIds;
    var sorted := StableSort(Values(longestPathTo), LongerFirst);
    critical := if sorted == [] then PathEntry(0, []) else sorted[0];
    if exact {
      HeadIsCritical(items, topoIds, longestPathTo);
    }
  }

  lemma HeadIsCritical(items: seq<WorkItem>, ids: seq<string>, longest: OrderedMap<string, PathEntry>)
    requires KeysAre(ids, longest) && BestSoFar(items, ids, longest)
    ensures var sorted := StableSort(Values(longest), LongerFirst);
            Critical(items, ids, if sorted == [] then PathEntry(0, []) else sorted[0])
  {
    var entries := Values(longest);
    SortPermutes(entries, LongerFirst);
    if ids == [] {
      if longest != [] {
        assert Find(longest, longest[0].key).Some?;
        assert false;
      }
    } else {
      assert Find(longest, ids[0]).Some?;
      HeadIsLongest(entries);
      var top := StableSort(entries, LongerFirst)[0];
      var i :| 0 <= i < |entries| && entries[i] == top;
      assert longest[i] in longest && longest[i] == Entry(longest[i].key, top);
      FindIsEntry(longest, longest[i].key, top);
      assert ChainEntry(items, longest[i].key, top);
      forall x, c | x in ids && ChainTo(items, c, x)
        ensures Total(items, c) <= top.duration
      {
        var best := Find(longest, x).value;
        FindIsEntry(longest, x, best);
        var j :| 0 <= j < |longest| && longest[j] == Entry(x, best);
        assert entries[j] in entries;
      }
    }
  }

  // ----- The critical path in estimated minutes

  /** A missing estimate counts as a quarter of an hour, one below a minute as a minute. */
  function Estimate(item: WorkItem): real {
    match item.estimatedDurationMinutes
    case None => 15.0
    case Some(m) => if m < 1.0 then 1.0 else m
  }

  /** The estimates of the known ids in `c`, added up. */
  ghost function Minutes(items: seq<WorkItem>, c: seq<string>): real {
    if c == [] then 0.0
    else
      var x := c[|c| - 1];
      Minutes(items, c[..|c| - 1]) + if x in Known(items) then Estimate(Lookup(items, x)) else 0.0
  }

  ghost predicate WholeMinutes(items: seq<WorkItem>) {
    forall item :: item in items ==> Estimate(item) == Estimate(item).Floor as real
  }

  /** A chain weighs its estimates less what rounding takes, under a minute for each step. */
  lemma {:induction false} TotalIsMinutes(items: seq<WorkItem>, c: seq<string>)
    ensures Total(items, c) as real <= Minutes(items, c)
    ensures c != [] ==> Minutes(items, c) < Total(items, c) as real + |c| as real
    ensures WholeMinutes(items) ==> Minutes(items, c) == Total(items, c) as real
    decreases c
  {
    if c != [] {
      var x := c[|c| - 1];
      TotalIsMinutes(items, c[..|c| - 1]);
      if x in Known(items) {
        var item := Lookup(items, x);
        assert item in items;
        DurationOfEstimate(item);
      }
    }
  }

  /** `e` is a chain to one of `ids`, and in estimated minutes no chain to one of them is longer:
      none at all if the estimates are whole, and otherwise none by a minute for each step. */
  ghost predicate CriticalInMinutes(items: seq<WorkItem>, ids: seq<string>, e: PathEntry) {
    && (ids != [] ==> exists x :: x in ids && ChainTo(items, e.path, x))
    && e.duration as real <= Minutes(items, e.path)
    && (forall x, c :: x in ids && ChainTo(items, c, x) ==> Minutes(items, c) < e.duration as real + |c| as real)
    && (WholeMinutes(items) ==>
          && e.duration as real == Minutes(items, e.path)
          && forall x, c :: x in ids && ChainTo(items, c, x) ==> Minutes(items, c) <= e.duration as real)
  }

  lemma CriticalByEstimates(items: seq<WorkItem>, ids: seq<string>, e: PathEntry)
    requires Critical(items, ids, e)
    ensures CriticalInMinutes(items, ids, e)
  {
    TotalIsMinutes(items, e.path);
    forall x, c | x in ids && ChainTo(items, c, x)
      ensures Minutes(items, c) < e.duration as real + |c| as real
      ensures WholeMinutes(items) ==> Minutes(items, c) <= e.duration as real
    {
      TotalIsMinutes(items, c);
    }
  }

  /** Every row says of an item what it is, what it waits for, who should do it and how urgent
      it is. */
  ghost predicate RowsSay(items: seq<WorkItem>, rows: seq<PrioritizedRow>) {
    forall row :: row in rows ==> exists item :: item in items && RowSays(item, row)
  }

  ghost predicate RowSays(item: WorkItem, row: PrioritizedRow) {
    && row.id == item.id && row.dependencies == item.dependencies && row.priorityScore == ToPriorityScore(item)
    && row.preferredAgentId == item.preferredAgentId && row.requiredCapability == item.requiredCapability
  }

  lemma RowsOfItemsSay(items: seq<WorkItem>, rows: seq<PrioritizedRow>)
    requires RowsOf(items, rows)
    ensures RowsSay(items, rows)
  {
    forall row | row in rows
      ensures exists item :: item in items && RowSays(item, row)
    {
      var item :| item in items && row == RowOf(item);
      assert RowSays(item, row);
    }
  }

  /** The planner. With distinct ids the groups are the depth layers of the dependency
      graph and the critical path is a heaviest dependency chain; for any items it
      terminates, lists each group once, and reports rows of the items. */
  method PlanDependencyAwareExecution(items: seq<WorkItem>) returns (plan: Plan)
    ensures RowIds(plan.prioritizedOrder) == Flatten(plan.executionGroups)
    ensures RowsOf(items, plan.prioritizedOrder) && RowsSay(items, plan.prioritizedOrder)
    ensures forall k :: 0 <= k < |plan.executionGroups| ==> plan.executionGroups[k] != []
    ensures DistinctIds(items) ==> Layered(items, plan.executionGroups)
    ensures DistinctIds(items) ==> Critical(items, RowIds(plan.prioritizedOrder), plan.criticalPath)
    ensures DistinctIds(items) ==> CriticalInMinutes(items, RowIds(plan.prioritizedOrder), plan.criticalPath)
  {
    var executionGroups, prioritizedOrder := ScheduleRounds(items);
    var topoIds := RowIds(prioritizedOrder);
    RowsOfItemsSay(items, prioritizedOrder);
    forall id | id in topoIds
      ensures id in Known(items)
    {
      var i :| 0 <= i < |topoIds| && topoIds[i] == id;
      assert prioritizedOrder[i] in prioritizedOrder;
      var item :| item in items && prioritizedOrder[i] == RowOf(item);
      assert item.id == id;
    }
    var criticalPath := LongestPath(items, topoIds);
    plan := Plan(executionGroups, prioritizedOrder, criticalPath);
    if DistinctIds(items) {
      CriticalByEstimates(items, topoIds, criticalPath);
    }
  }
}
