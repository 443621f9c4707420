/** The dependency graph behind the execution planner: chains of dependencies,
    how deep an item sits, and what a cycle does to everything above it. */
module PlanGraph {
  import opened Sequences

  datatype WorkItem = WorkItem(
    id: string,
    dependencies: seq<string>,
    estimatedDurationMinutes: Option<real>,
    impactScore: Option<real>,
    urgencyScore: Option<real>,
    riskScore: Option<real>,
    costScore: Option<real>,
    preferredAgentId: Option<string>,
    requiredCapability: Option<string>)

  function Ids(items: seq<WorkItem>): (ids: seq<string>)
    ensures |ids| == |items|
    ensures forall i :: 0 <= i < |items| ==> ids[i] == items[i].id
  {
    Map(items, (item: WorkItem) => item.id)
  }

  function Known(items: seq<WorkItem>): set<string> {
    set i | 0 <= i < |items| :: items[i].id
  }

  ghost predicate DistinctIds(items: seq<WorkItem>) {
    forall i, j :: 0 <= i < j < |items| ==> items[i].id != items[j].id
  }

  /** `b` names the known item `a` among its dependencies. */
  ghost predicate Edge(items: seq<WorkItem>, a: string, b: string) {
    a in Known(items) && exists item :: item in items && item.id == b && a in item.dependencies
  }

  /** A dependency chain that ends at `x`: each id is a dependency of the next. */
  ghost predicate ChainTo(items: seq<WorkItem>, c: seq<string>, x: string) {
    && c != []
    && c[|c| - 1] == x
    && (forall i :: 0 <= i < |c| ==> c[i] in Known(items))
    && (forall i :: 0 < i < |c| ==> Edge(items, c[i - 1], c[i]))
  }

  ghost predicate OnCycle(items: seq<WorkItem>, x: string) {
    exists c :: ChainTo(items, c, x) && |c| > 1 && c[0] == x
  }

  /** Some chain with `k` edges ends at `x`. */
  ghost predicate Deep(items: seq<WorkItem>, x: string, k: nat)
    decreases k
  {
    if k == 0 then x in Known(items)
    else exists d :: Edge(items, d, x) && Deep(items, d, k - 1)
  }

  /** The longest chain that ends at `x` has exactly `k` edges. */
  ghost predicate AtDepth(items: seq<WorkItem>, x: string, k: nat) {
    Deep(items, x, k) && !Deep(items, x, k + 1)
  }

  lemma {:induction false} DeepKnown(items: seq<WorkItem>, x: string, k: nat)
    requires Deep(items, x, k)
    ensures x in Known(items)
  {
    if k > 0 {
      var d :| Edge(items, d, x) && Deep(items, d, k - 1);
      var item :| item in items && item.id == x;
    }
  }

  lemma {:induction false} DeepAntitone(items: seq<WorkItem>, x: string, j: nat, k: nat)
    requires j <= k && Deep(items, x, k)
    ensures Deep(items, x, j)
    decreases k
  {
    DeepKnown(items, x, k);
    if 0 < j {
      var d :| Edge(items, d, x) && Deep(items, d, k - 1);
      DeepAntitone(items, d, j - 1, k - 1);
    }
  }

  lemma {:induction false} DeepGivesChain(items: seq<WorkItem>, x: string, k: nat) returns (c: seq<string>)
    requires Deep(items, x, k)
    ensures ChainTo(items, c, x) && |c| == k + 1
    decreases k
  {
    DeepKnown(items, x, k);
    if k == 0 {
      c := [x];
    } else {
      var d :| Edge(items, d, x) && Deep(items, d, k - 1);
      c := DeepGivesChain(items, d, k - 1);
      c := c + [x];
    }
  }

  lemma {:induction false} ChainGivesDeep(items: seq<WorkItem>, c: seq<string>, x: string)
    requires ChainTo(items, c, x)
    ensures Deep(items, x, |c| - 1)
  {
    if |c| > 1 {
      var d := c[|c| - 2];
      ChainGivesDeep(items, c[..|c| - 1], d);
      assert Edge(items, d, x);
    }
  }

  /** `AtDepth` in terms of chains: some chain to `x` has `k` edges and none has more. */
  lemma AtDepthIsLongestChain(items: seq<WorkItem>, x: string, k: nat)
    ensures AtDepth(items, x, k) <==>
            (exists c :: ChainTo(items, c, x) && |c| == k + 1) && (forall c :: ChainTo(items, c, x) ==> |c| <= k + 1)
  {
    if AtDepth(items, x, k) {
      var c := DeepGivesChain(items, x, k);
      forall c | ChainTo(items, c, x)
        ensures |c| <= k + 1
      {
        ChainGivesDeep(items, c, x);
        if |c| > k + 1 {
          DeepAntitone(items, x, k + 1, |c| - 1);
        }
      }
    }
    if (exists c :: ChainTo(items, c, x) && |c| == k + 1) && (forall c :: ChainTo(items, c, x) ==> |c| <= k + 1) {
      var c :| ChainTo(items, c, x) && |c| == k + 1;
      ChainGivesDeep(items, c, x);
      if Deep(items, x, k + 1) {
        var longer := DeepGivesChain(items, x, k + 1);
        assert false;
      }
    }
  }

  lemma EdgeDeepens(items: seq<WorkItem>, a: string, b: string, k: nat)
    requires Edge(items, a, b)
    ensures Deep(items, a, k) ==> Deep(items, b, k + 1)
  {
  }

  // ----- Cycles

  lemma {:induction false} ChainAppend(items: seq<WorkItem>, c: seq<string>, d: seq<string>, x: string, y: string)
    requires ChainTo(items, c, x) && ChainTo(items, d, y) && d[0] == x
    ensures ChainTo(items, c + d[1..], y)
  {
    var e := c + d[1..];
    forall i | 0 < i < |e|
      ensures Edge(items, e[i - 1], e[i])
    {
      if i < |c| {
        assert Edge(items, c[i - 1], c[i]);
      } else {
        assert Edge(items, d[i - |c|], d[i - |c| + 1]);
      }
    }
  }

  /** Going round a cycle makes chains of any length. */
  lemma {:induction false} CycleIsDeep(items: seq<WorkItem>, x: string, k: nat)
    requires OnCycle(items, x)
    ensures exists c :: ChainTo(items, c, x) && |c| > k && c[0] == x
  {
    var loop :| ChainTo(items, loop, x) && |loop| > 1 && loop[0] == x;
    if k > 0 {
      CycleIsDeep(items, x, k - 1);
      var c :| ChainTo(items, c, x) && |c| > k - 1 && c[0] == x;
      ChainAppend(items, c, loop, x, x);
      assert ChainTo(items, c + loop[1..], x);
    }
  }

  /** An item that depends on a cycle is deeper than every bound. */
  lemma AboveCycleIsDeep(items: seq<WorkItem>, c: seq<string>, x: string, k: nat)
    requires ChainTo(items, c, x) && OnCycle(items, c[0])
    ensures Deep(items, x, k)
  {
    CycleIsDeep(items, c[0], k);
    var round :| ChainTo(items, round, c[0]) && |round| > k && round[0] == c[0];
    ChainAppend(items, round, c, c[0], x);
    var long := round + c[1..];
    ChainGivesDeep(items, long, x);
    DeepAntitone(items, x, k, |long| - 1);
  }

  /** Pigeonhole: a sequence longer than the set it draws from repeats itself. */
  lemma {:induction false} Repeats(s: seq<string>, domain: set<string>) returns (i: nat, j: nat)
    requires forall k :: 0 <= k < |s| ==> s[k] in domain
    requires |s| > |domain|
    ensures i < j < |s| && s[i] == s[j]
  {
    var last := |s| - 1;
    if exists k :: 0 <= k < last && s[k] == s[last] {
      i :| 0 <= i < last && s[i] == s[last];
      j := last;
    } else {
      i, j := Repeats(s[..last], domain - {s[last]});
    }
  }

  lemma ChainSlice(items: seq<WorkItem>, c: seq<string>, x: string, i: nat, j: nat)
    requires ChainTo(items, c, x) && i < j <= |c|
    ensures ChainTo(items, c[i..j], c[j - 1])
  {
    forall k | 0 < k < j - i
      ensures Edge(items, c[i..j][k - 1], c[i..j][k])
    {
      assert Edge(items, c[i + k - 1], c[i + k]);
    }
  }

  /** A chain longer than the number of items has gone round a cycle. */
  lemma LongChainHasCycle(items: seq<WorkItem>, c: seq<string>, x: string)
    requires ChainTo(items, c, x) && |c| > |Known(items)|
    ensures exists e :: ChainTo(items, e, x) && OnCycle(items, e[0])
  {
    var i, j := Repeats(c, Known(items));
    ChainSlice(items, c, x, i, j + 1);
    ChainSlice(items, c, x, j, |c|);
    assert OnCycle(items, c[j]);
    assert ChainTo(items, c[j..], x) && c[j..][0] == c[j];
  }

  /** Depending on a cycle, directly or transitively, is being deeper than the number of items. */
  lemma DependsOnCycleIffDeep(items: seq<WorkItem>, x: string)
    ensures (exists e :: ChainTo(items, e, x) && OnCycle(items, e[0])) <==> Deep(items, x, |Known(items)|)
  {
    if Deep(items, x, |Known(items)|) {
      var c := DeepGivesChain(items, x, |Known(items)|);
      LongChainHasCycle(items, c, x);
    }
    if exists e :: ChainTo(items, e, x) && OnCycle(items, e[0]) {
      var e :| ChainTo(items, e, x) && OnCycle(items, e[0]);
      AboveCycleIsDeep(items, e, x, |Known(items)|);
    }
  }
}
