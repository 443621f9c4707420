/** The planner as the engine runs it: counters per item, rounds of ready items,
    then one pass over the order for the critical path. */
module PlannerRun {
  import opened Sequences
  import opened PlanGraph
  import opened Planner

  // ----- Dependency edges, with multiplicity

  datatype Dependency = Dependency(source: string, target: string)

  /** Dependencies of `x` whose source is not in `done`. */
  function Pending(edges: seq<Dependency>, done: set<string>, x: string): nat {
    if edges == [] then 0
    else
      var last := edges[|edges| - 1];
      Pending(edges[..|edges| - 1], done, x) + if last.target == x && last.source !in done then 1 else 0
  }

  function Dependents(edges: seq<Dependency>, d: string): seq<string> {
    if edges == [] then []
    else
      var last := edges[|edges| - 1];
      Dependents(edges[..|edges| - 1], d) + if last.source == d then [last.target] else []
  }

  function Count(s: seq<string>, x: string): nat {
    if s == [] then 0 else Count(s[..|s| - 1], x) + if s[|s| - 1] == x then 1 else 0
  }

  lemma CountAppend(s: seq<string>, t: seq<string>, x: string)
    ensures Count(s + t, x) == Count(s, x) + Count(t, x)
  {
    if t == [] {
      assert s + t == s;
    } else {
      assert (s + t)[..|s + t| - 1] == s + t[..|t| - 1];
      CountAppend(s, t[..|t| - 1], x);
    }
  }

  /** Finishing `d` settles as many dependencies of `x` as `d` has entries for `x`. */
  lemma {:induction false} PendingAfter(edges: seq<Dependency>, done: set<string>, d: string, x: string)
    requires d !in done
    ensures Pending(edges, done, x) == Pending(edges, done + {d}, x) + Count(Dependents(edges, d), x)
  {
    if edges != [] {
      var init, last := edges[..|edges| - 1], edges[|edges| - 1];
      PendingAfter(init, done, d, x);
      CountAppend(Dependents(init, d), if last.source == d then [last.target] else [], x);
    }
  }

  lemma {:induction false} PendingZero(edges: seq<Dependency>, done: set<string>, x: string)
    ensures Pending(edges, done, x) == 0 <==> forall e :: e in edges && e.target == x ==> e.source in done
  {
    if edges != [] {
      var init, last := edges[..|edges| - 1], edges[|edges| - 1];
      PendingZero(init, done, x);
      assert edges == init + [last];
    }
  }

  lemma {:induction false} DependentsAreTargets(edges: seq<Dependency>, d: string, t: string)
    requires t in Dependents(edges, d)
    ensures exists e :: e in edges && e.target == t
  {
    var init, last := edges[..|edges| - 1], edges[|edges| - 1];
    if last.source == d && last.target == t {
      assert last in edges;
    } else {
      DependentsAreTargets(init, d, t);
    }
  }

  /** The known dependencies among the first `j` of `item`. */
  function ItemEdges(item: WorkItem, known: set<string>, j: nat): seq<Dependency>
    requires j <= |item.dependencies|
  {
    if j == 0 then []
    else
      var d := item.dependencies[j - 1];
      ItemEdges(item, known, j - 1) + if d in known then [Dependency(d, item.id)] else []
  }

  /** The known dependencies of the first `i` items. */
  function EdgesUpTo(items: seq<WorkItem>, i: nat): seq<Dependency>
    requires i <= |items|
  {
    if i == 0 then []
    else EdgesUpTo(items, i - 1) + ItemEdges(items[i - 1], Known(items), |items[i - 1].dependencies|)
  }

  function AllEdges(items: seq<WorkItem>): seq<Dependency> {
    EdgesUpTo(items, |items|)
  }

  lemma {:induction false} ItemEdgesMember(item: WorkItem, known: set<string>, j: nat, e: Dependency)
    requires j <= |item.dependencies|
    ensures e in ItemEdges(item, known, j) <==>
            e.target == item.id && e.source in known && e.source in item.dependencies[..j]
  {
    if j > 0 {
      ItemEdgesMember(item, known, j - 1, e);
      assert item.dependencies[..j] == item.dependencies[..j - 1] + [item.dependencies[j - 1]];
    }
  }

  lemma {:induction false} EdgesUpToMember(items: seq<WorkItem>, i: nat, e: Dependency)
    requires i <= |items|
    ensures e in EdgesUpTo(items, i) <==>
            e.source in Known(items) &&
            exists item :: item in items[..i] && item.id == e.target && e.source in item.dependencies
  {
    if i > 0 {
      var item := items[i - 1];
      EdgesUpToMember(items, i - 1, e);
      ItemEdgesMember(item, Known(items), |item.dependencies|, e);
      assert item.dependencies[..|item.dependencies|] == item.dependencies;
      assert items[..i] == items[..i - 1] + [item];
    }
  }

  lemma AllEdgesAreEdges(items: seq<WorkItem>, a: string, b: string)
    ensures Dependency(a, b) in AllEdges(items) <==> Edge(items, a, b)
  {
    EdgesUpToMember(items, |items|, Dependency(a, b));
    assert items[..|items|] == items;
  }

  // ----- Building the counters

  ghost predicate Counts(indegree: map<string, int>, dependents: map<string, seq<string>>, known: set<string>,
                         edges: seq<Dependency>)
  {
    && indegree.Keys == dependents.Keys == known
    && (forall x :: x in known ==> indegree[x] == Pending(edges, {}, x))
    && (forall x :: x in known ==> dependents[x] == Dependents(edges, x))
  }

  lemma CountOneMore(indegree: map<string, int>, dependents: map<string, seq<string>>, known: set<string>,
                     edges: seq<Dependency>, e: Dependency)
    requires Counts(indegree, dependents, known, edges) && e.source in known && e.target in known
    ensures Counts(indegree[e.target := indegree[e.target] + 1],
                   dependents[e.source := dependents[e.source] + [e.target]], known, edges + [e])
  {
    assert (edges + [e])[..|edges|] == edges;
  }

  lemma NextItemEdge(edges: seq<Dependency>, item: WorkItem, known: set<string>, j: nat)
    requires j < |item.dependencies|
    ensures var d := item.dependencies[j];
            edges + ItemEdges(item, known, j + 1) ==
            edges + ItemEdges(item, known, j) + if d in known then [Dependency(d, item.id)] else []
  {
  }

  method CountDependencies(item: WorkItem, known: set<string>, ghost edges: seq<Dependency>,
                           indegree0: map<string, int>, dependents0: map<string, seq<string>>)
    returns (indegree: map<string, int>, dependents: map<string, seq<string>>)
    requires item.id in known && Counts(indegree0, dependents0, known, edges)
    ensures Counts(indegree, dependents, known, edges + ItemEdges(item, known, |item.dependencies|))
  {
    hide Pending, Dependents;
    indegree, dependents := indegree0, dependents0;
    ghost var sofar := edges;
    for j := 0 to |item.dependencies|
      invariant sofar == edges + ItemEdges(item, known, j)
      invariant Counts(indegree, dependents, known, sofar)
    {
      var dependency := item.dependencies[j];
      NextItemEdge(edges, item, known, j);
      if dependency in known {
        CountOneMore(indegree, dependents, known, sofar, Dependency(dependency, item.id));
        indegree := indegree[item.id := indegree[item.id] + 1];
        dependents := dependents[dependency := dependents[dependency] + [item.id]];
        sofar := sofar + [Dependency(dependency, item.id)];
      }
    }
  }

  method InitCounters(items: seq<WorkItem>) returns (indegree: map<string, int>, dependents: map<string, seq<string>>)
    ensures Counts(indegree, dependents, Known(items), [])
  {
    indegree, dependents := map[], map[];
    for i := 0 to |items|
      invariant indegree.Keys == dependents.Keys == Known(items[..i])
      invariant forall x :: x in indegree ==> indegree[x] == 0 && dependents[x] == []
    {
      assert items[..i + 1] == items[..i] + [items[i]];
      indegree := indegree[items[i].id := 0];
      dependents := dependents[items[i].id := []];
    }
    assert items[..|items|] == items;
  }

  method BuildGraph(items: seq<WorkItem>) returns (indegree: map<string, int>, dependents: map<string, seq<string>>)
    ensures Counts(indegree, dependents, Known(items), AllEdges(items))
  {
    indegree, dependents := InitCounters(items);
    ghost var edges: seq<Dependency> := [];
    for i := 0 to |items|
      invariant edges == EdgesUpTo(items, i)
      invariant Counts(indegree, dependents, Known(items), edges)
    {
      indegree, dependents := CountDependencies(items[i], Known(items), edges, indegree, dependents);
      edges := edges + ItemEdges(items[i], Known(items), |items[i].dependencies|);
    }
  }

  // ----- Rounds

  predicate IsReady(item: WorkItem, indegree: map<string, int>, scheduled: set<string>) {
    item.id in indegree && indegree[item.id] == 0 && item.id !in scheduled
  }

  function Ready(items: seq<WorkItem>, indegree: map<string, int>, scheduled: set<string>): seq<WorkItem> {
    SortByPriority(Filter(items, (item: WorkItem) => IsReady(item, indegree, scheduled)))
  }

  function IdSet(ids: seq<string>): set<string> {
    set id | id in ids
  }

  ghost predicate PendingCounters(indegree: map<string, int>, edges: seq<Dependency>, scheduled: set<string>) {
    forall x :: x in indegree ==> indegree[x] == Pending(edges, scheduled, x)
  }

  /** One finished item releases its dependents. */
  method Release(id: string, dependents: seq<string>, indegree0: map<string, int>,
                 ghost edges: seq<Dependency>, ghost scheduled: set<string>)
    returns (indegree: map<string, int>)
    requires forall t :: t in dependents ==> t in indegree0
    ensures indegree.Keys == indegree0.Keys
    ensures dependents == Dependents(edges, id) && id !in scheduled && PendingCounters(indegree0, edges, scheduled)
            ==> PendingCounters(indegree, edges, scheduled + {id})
  {
    indegree := indegree0;
    ghost var exact := dependents == Dependents(edges, id) && id !in scheduled && PendingCounters(indegree0, edges, scheduled);
    if exact {
      forall x
        ensures Pending(edges, scheduled, x) == Pending(edges, scheduled + {id}, x) + Count(dependents, x)
      {
        PendingAfter(edges, scheduled, id, x);
      }
    }
    for j := 0 to |dependents|
      invariant indegree.Keys == indegree0.Keys
      invariant exact ==> forall x :: x in indegree ==>
          indegree[x] == Pending(edges, scheduled + {id}, x) + Count(dependents, x) - Count(dependents[..j], x)
    {
      var t := dependents[j];
      assert dependents[..j + 1][..j] == dependents[..j];
      CountPrefix(dependents, j + 1, t);
      indegree := indegree[t := if indegree[t] - 1 > 0 then indegree[t] - 1 else 0];
    }
    assert dependents[..|dependents|] == dependents;
  }

  lemma {:induction false} CountPrefix(s: seq<string>, j: nat, x: string)
    requires j <= |s|
    ensures Count(s[..j], x) <= Count(s, x)
  {
    CountAppend(s[..j], s[j..], x);
    assert s[..j] + s[j..] == s;
  }

  lemma {:induction false} InsertDistinctIds(x: WorkItem, s: seq<WorkItem>)
    requires DistinctIds(s) && forall y :: y in s ==> y.id != x.id
    ensures DistinctIds(Insert(x, s, HigherPriorityFirst))
  {
    if !(s == [] || HigherPriorityFirst(x, s[0])) {
      var r := Insert(x, s[1..], HigherPriorityFirst);
      InsertDistinctIds(x, s[1..]);
      InsertPermutes(x, s[1..], HigherPriorityFirst);
      forall j | 0 <= j < |r|
        ensures r[j].id != s[0].id
      {
        assert r[j] in multiset(r);
        assert r[j] == x || r[j] in s[1..];
      }
    }
  }

  lemma {:induction false} SortDistinctIds(s: seq<WorkItem>)
    requires DistinctIds(s)
    ensures DistinctIds(SortByPriority(s))
  {
    if s != [] {
      SortDistinctIds(s[1..]);
      SortPermutes(s[1..], HigherPriorityFirst);
      InsertDistinctIds(s[0], SortByPriority(s[1..]));
    }
  }

  lemma {:induction false} FilterDistinctIds(s: seq<WorkItem>, p: WorkItem -> bool)
    requires DistinctIds(s)
    ensures DistinctIds(Filter(s, p))
  {
    if s != [] {
      FilterDistinctIds(s[1..], p);
      var r := Filter(s[1..], p);
      assert forall j :: 0 <= j < |r| ==> r[j] in r && r[j] in s[1..];
    }
  }

  ghost predicate ScheduledIsShallow(items: seq<WorkItem>, scheduled: set<string>, k: nat) {
    forall x :: x in Known(items) ==> (x in scheduled <==> !Deep(items, x, k))
  }

  /** With everything of depth below `k` finished, the ready items are those of depth `k`. */
  lemma ReadyIsLayer(items: seq<WorkItem>, indegree: map<string, int>, scheduled: set<string>, k: nat)
    requires indegree.Keys == Known(items) && PendingCounters(indegree, AllEdges(items), scheduled)
    requires ScheduledIsShallow(items, scheduled, k)
    ensures Ready(items, indegree, scheduled) == SortByPriority(ItemsAtDepth(items, k))
  {
    forall item | item in items
      ensures IsReady(item, indegree, scheduled) == AtDepth(items, item.id, k)
    {
      var i :| 0 <= i < |items| && items[i] == item;
      assert item.id in Known(items);
      ReadyIffNextDepth(items, scheduled, k, item.id);
    }
    FilterExtensional(items, (item: WorkItem) => IsReady(item, indegree, scheduled),
                      (item: WorkItem) => AtDepth(items, item.id, k));
  }

  lemma ReadyIffNextDepth(items: seq<WorkItem>, scheduled: set<string>, k: nat, x: string)
    requires x in Known(items) && ScheduledIsShallow(items, scheduled, k)
    ensures Pending(AllEdges(items), scheduled, x) == 0 <==> !Deep(items, x, k + 1)
  {
    var edges := AllEdges(items);
    PendingZero(edges, scheduled, x);
    if Deep(items, x, k + 1) {
      var d :| Edge(items, d, x) && Deep(items, d, k);
      AllEdgesAreEdges(items, d, x);
    }
    if Pending(edges, scheduled, x) != 0 {
      var e :| e in edges && e.target == x && e.source !in scheduled;
      AllEdgesAreEdges(items, e.source, e.target);
      EdgeDeepens(items, e.source, x, k);
    }
  }

  lemma LayerCompletesDepth(items: seq<WorkItem>, scheduled: set<string>, k: nat)
    requires ScheduledIsShallow(items, scheduled, k)
    ensures ScheduledIsShallow(items, scheduled + IdSet(Ids(SortByPriority(ItemsAtDepth(items, k)))), k + 1)
  {
    forall x | x in Known(items)
      ensures x in scheduled + IdSet(Ids(SortByPriority(ItemsAtDepth(items, k)))) <==> !Deep(items, x, k + 1)
    {
      GroupMembers(items, k, x);
      if Deep(items, x, k + 1) {
        DeepAntitone(items, x, k, k + 1);
      }
    }
  }

  /** Run one group: append its rows and release its dependents. */
  method ScheduleGroup(ready: seq<WorkItem>, dependents: map<string, seq<string>>, indegree0: map<string, int>,
                       order0: seq<PrioritizedRow>, ghost edges: seq<Dependency>)
    returns (indegree: map<string, int>, order: seq<PrioritizedRow>)
    requires indegree0.Keys == dependents.Keys
    requires forall item :: item in ready ==> item.id in dependents
    requires forall x :: x in dependents ==> dependents[x] == Dependents(edges, x)
    requires forall e :: e in edges ==> e.target in dependents
    ensures indegree.Keys == indegree0.Keys
    ensures order == order0 + Map(ready, RowOf)
    ensures var scheduled := IdSet(RowIds(order0));
            DistinctIds(ready) && (forall item :: item in ready ==> item.id !in scheduled)
            && PendingCounters(indegree0, edges, scheduled)
            ==> PendingCounters(indegree, edges, scheduled + IdSet(Ids(ready)))
  {
    indegree, order := indegree0, order0;
    ghost var scheduled := IdSet(RowIds(order0));
    ghost var exact := DistinctIds(ready) && (forall item :: item in ready ==> item.id !in scheduled)
                       && PendingCounters(indegree0, edges, scheduled);
    ghost var sofar := scheduled;
    assert sofar == scheduled + IdSet(Ids(ready[..0]));
    for i := 0 to |ready|
      invariant indegree.Keys == indegree0.Keys
      invariant order == order0 + Map(ready[..i], RowOf)
      invariant sofar == scheduled + IdSet(Ids(ready[..i]))
      invariant exact ==> PendingCounters(indegree, edges, sofar)
    {
      var item := ready[i];
      assert item in ready;
      PrefixIds(ready, i, scheduled);
      TargetsIn(edges, item.id, dependents.Keys);
      assert exact ==> item.id !in sofar;
      order := order + [RowOf(item)];
      indegree := Release(item.id, dependents[item.id], indegree, edges, sofar);
      sofar := sofar + {item.id};
    }
    assert ready[..|ready|] == ready;
  }

  lemma TargetsIn(edges: seq<Dependency>, d: string, known: set<string>)
    requires forall e :: e in edges ==> e.target in known
    ensures forall t :: t in Dependents(edges, d) ==> t in known
  {
    forall t | t in Dependents(edges, d)
      ensures t in known
    {
      DependentsAreTargets(edges, d, t);
    }
  }

  lemma PrefixIds(ready: seq<WorkItem>, i: nat, scheduled: set<string>)
    requires i < |ready|
    ensures Map(ready[..i + 1], RowOf) == Map(ready[..i], RowOf) + [RowOf(ready[i])]
    ensures scheduled + IdSet(Ids(ready[..i + 1])) == scheduled + IdSet(Ids(ready[..i])) + {ready[i].id}
    ensures DistinctIds(ready) ==> ready[i].id !in IdSet(Ids(ready[..i]))
  {
    assert ready[..i + 1] == ready[..i] + [ready[i]];
    assert Ids(ready[..i + 1]) == Ids(ready[..i]) + [ready[i].id];
  }

  /** Every known dependency of an id stands before it. */
  ghost predicate Topological(items: seq<WorkItem>, ids: seq<string>) {
    forall i, a :: 0 <= i < |ids| && Edge(items, a, ids[i]) ==> a in ids[..i]
  }

  lemma LayerExtendsTopological(items: seq<WorkItem>, ids: seq<string>, group: seq<string>, k: nat)
    requires Topological(items, ids) && ScheduledIsShallow(items, IdSet(ids), k)
    requires group == Ids(SortByPriority(ItemsAtDepth(items, k)))
    ensures Topological(items, ids + group)
  {
    var all := ids + group;
    forall i, a | 0 <= i < |all| && Edge(items, a, all[i])
      ensures a in all[..i]
    {
      if i < |ids| {
        assert a in ids[..i] && all[..i] == ids[..i];
      } else {
        assert all[i] == group[i - |ids|];
        GroupMembers(items, k, all[i]);
        EdgeDeepens(items, a, all[i], k);
        assert a in IdSet(ids);
        assert all[..i] == ids + group[..i - |ids|];
      }
    }
  }

  /** Everything the round loop keeps, for distinct ids. */
  ghost predicate RoundsDone(items: seq<WorkItem>, indegree: map<string, int>, groups: seq<seq<string>>, ids: seq<string>) {
    && PendingCounters(indegree, AllEdges(items), IdSet(ids))
    && ScheduledIsShallow(items, IdSet(ids), |groups|)
    && Topological(items, ids)
    && (forall k :: 0 <= k < |groups| ==>
          groups[k] == Ids(SortByPriority(ItemsAtDepth(items, k))) && groups[k] != [])
  }

  lemma RoundKeepsDone(items: seq<WorkItem>, indegree0: map<string, int>, indegree: map<string, int>,
                       groups: seq<seq<string>>, ids: seq<string>, ready: seq<WorkItem>)
    requires DistinctIds(items) && indegree0.Keys == Known(items) && RoundsDone(items, indegree0, groups, ids)
    requires ready == Ready(items, indegree0, IdSet(ids)) && ready != []
    requires ReleasesReady(items, indegree0, indegree, IdSet(ids), ready)
    ensures RoundsDone(items, indegree, groups + [Ids(ready)], ids + Ids(ready))
  {
    hide Ready, SortByPriority, ItemsAtDepth, PendingCounters, ScheduledIsShallow, Topological, DistinctIds, Known, AllEdges,
      IdSet;
    var k, group, more := |groups|, Ids(ready), groups + [Ids(ready)];
    ReadyIsNew(items, indegree0, IdSet(ids));
    ReadyIsLayer(items, indegree0, IdSet(ids), k);
    LayerCompletesDepth(items, IdSet(ids), k);
    LayerExtendsTopological(items, ids, group, k);
    IdSetAppend(ids, group);
    assert forall j :: 0 <= j < |groups| ==> more[j] == groups[j];
    assert more[k] == group && |group| == |ready|;
  }

  lemma IdSetAppend(a: seq<string>, b: seq<string>)
    ensures IdSet(a + b) == IdSet(a) + IdSet(b)
  {
  }

  lemma ReadyIsNew(items: seq<WorkItem>, indegree: map<string, int>, scheduled: set<string>)
    requires DistinctIds(items)
    ensures DistinctIds(Ready(items, indegree, scheduled))
    ensures forall item :: item in Ready(items, indegree, scheduled) ==> item.id !in scheduled
  {
    ReadyMembers(items, indegree, scheduled);
    FilterDistinctIds(items, (item: WorkItem) => IsReady(item, indegree, scheduled));
    SortDistinctIds(Filter(items, (item: WorkItem) => IsReady(item, indegree, scheduled)));
  }

  lemma ReadyMembers(items: seq<WorkItem>, indegree: map<string, int>, scheduled: set<string>)
    ensures forall item :: item in Ready(items, indegree, scheduled) <==>
                           item in items && IsReady(item, indegree, scheduled)
  {
    SortPermutes(Filter(items, (item: WorkItem) => IsReady(item, indegree, scheduled)), HigherPriorityFirst);
  }

  lemma {:induction false} FlattenPush(groups: seq<seq<string>>, group: seq<string>)
    ensures Flatten(groups + [group]) == Flatten(groups) + group
  {
    assert (groups + [group])[..|groups|] == groups;
  }

  /** The rows of the order are rows of items. */
  ghost predicate RowsOf(items: seq<WorkItem>, rows: seq<PrioritizedRow>) {
    forall r :: r in rows ==> exists item :: item in items && r == RowOf(item)
  }

  ghost predicate RoundState(items: seq<WorkItem>, indegree: map<string, int>, groups: seq<seq<string>>,
                             order: seq<PrioritizedRow>)
  {
    && indegree.Keys == Known(items)
    && RowIds(order) == Flatten(groups)
    && RowsOf(items, order)
    && (forall k :: 0 <= k < |groups| ==> groups[k] != [])
    && (DistinctIds(items) ==> RoundsDone(items, indegree, groups, RowIds(order)))
  }

  lemma RowsExtend(items: seq<WorkItem>, rows: seq<PrioritizedRow>, ready: seq<WorkItem>)
    requires RowsOf(items, rows) && forall item :: item in ready ==> item in items
    ensures RowsOf(items, rows + Map(ready, RowOf))
  {
    forall r | r in rows + Map(ready, RowOf)
      ensures exists item :: item in items && r == RowOf(item)
    {
      if r !in rows {
        var i :| 0 <= i < |ready| && r == RowOf(ready[i]);
        assert ready[i] in ready;
      }
    }
  }

  lemma RoundProgress(items: seq<WorkItem>, ids: seq<string>, ready: seq<WorkItem>)
    requires ready != [] && ready[0] in items && ready[0].id !in IdSet(ids)
    ensures Known(items) - IdSet(ids + Ids(ready)) < Known(items) - IdSet(ids)
  {
    var id := ready[0].id;
    var i :| 0 <= i < |items| && items[i] == ready[0];
    assert Ids(ready)[0] == id;
    assert id in IdSet(ids + Ids(ready)) && id in Known(items) - IdSet(ids);
  }

  /** The released counters are exact whenever the ready ids are fresh and distinct. */
  ghost predicate ReleasesReady(items: seq<WorkItem>, indegree0: map<string, int>, indegree: map<string, int>,
                                scheduled: set<string>, ready: seq<WorkItem>)
  {
    DistinctIds(ready) && (forall item :: item in ready ==> item.id !in scheduled)
    && PendingCounters(indegree0, AllEdges(items), scheduled)
    ==> PendingCounters(indegree, AllEdges(items), scheduled + IdSet(Ids(ready)))
  }

  /** One round keeps the round state and schedules a new id. */
  lemma RoundStep(items: seq<WorkItem>, indegree0: map<string, int>, groups: seq<seq<string>>,
                  order0: seq<PrioritizedRow>, ready: seq<WorkItem>, indegree: map<string, int>)
    requires RoundState(items, indegree0, groups, order0)
    requires ready == Ready(items, indegree0, IdSet(RowIds(order0))) && ready != []
    requires indegree.Keys == indegree0.Keys
    requires ReleasesReady(items, indegree0, indegree, IdSet(RowIds(order0)), ready)
    ensures var order := order0 + Map(ready, RowOf);
            && RoundState(items, indegree, groups + [Ids(ready)], order)
            && Known(items) - IdSet(RowIds(order)) < Known(items) - IdSet(RowIds(order0))
  {
    hide RoundsDone, Ready, Flatten, ReleasesReady, RowsOf, DistinctIds;
    var order := order0 + Map(ready, RowOf);
    assert RowIds(order) == RowIds(order0) + Ids(ready);
    FlattenPush(groups, Ids(ready));
    ReadyMembers(items, indegree0, IdSet(RowIds(order0)));
    assert ready[0] in ready;
    RoundProgress(items, RowIds(order0), ready);
    RowsExtend(items, order0, ready);
    if DistinctIds(items) {
      RoundKeepsDone(items, indegree0, indegree, groups, RowIds(order0), ready);
    }
  }

  /** The round loop: it ends because every round schedules at least one new id. */
  method ScheduleRounds(items: seq<WorkItem>) returns (groups: seq<seq<string>>, order: seq<PrioritizedRow>)
    ensures RowIds(order) == Flatten(groups) && RowsOf(items, order)
    ensures forall k :: 0 <= k < |groups| ==> groups[k] != []
    ensures DistinctIds(items) ==> Layered(items, groups) && Topological(items, RowIds(order))
  {
    var indegree, dependents := BuildGraph(items);
    TargetsKnown(items);
    groups, order := [], [];
    assert IdSet(RowIds(order)) == {};
    var ready := Ready(items, indegree, {});
    while ready != []
      invariant RoundState(items, indegree, groups, order)
      invariant ready == Ready(items, indegree, IdSet(RowIds(order)))
      decreases Known(items) - IdSet(RowIds(order))
    {
      ghost var indegree0, order0 := indegree, order;
      ReadyMembers(items, indegree, IdSet(RowIds(order)));
      indegree, order := ScheduleGroup(ready, dependents, indegree, order, AllEdges(items));
      RoundStep(items, indegree0, groups, order0, ready, indegree);
      groups := groups + [Ids(ready)];
      ready := Ready(items, indegree, IdSet(RowIds(order)));
    }
    if DistinctIds(items) {
      ReadyIsLayer(items, indegree, IdSet(RowIds(order)), |groups|);
      SortPermutes(ItemsAtDepth(items, |groups|), HigherPriorityFirst);
    }
  }

  lemma TargetsKnown(items: seq<WorkItem>)
    ensures forall e :: e in AllEdges(items) ==> e.target in Known(items)
  {
    forall e | e in AllEdges(items)
      ensures e.target in Known(items)
    {
      AllEdgesAreEdges(items, e.source, e.target);
      var item :| item in items && item.id == e.target;
    }
  }
}
