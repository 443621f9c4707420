/** Attribution of spending: rows grouped by a dimension, with rounded costs. */
module Attribution {
  import opened Sequences
  import opened OrderedMaps
  import opened Finops

  datatype Totals = Totals(costUsd: real, totalTokens: int, records: nat)

  datatype Bucket = Bucket(key: string, costUsd: real, totalTokens: int, records: nat)

  datatype Summary = Summary(totals: Totals, buckets: seq<Bucket>)

  datatype Query = Query(month: string, costCenter: string, featureLane: string)

  /** An empty cost center or lane does not filter. */
  predicate Matches(q: Query, row: UsageRecord) {
    && row.month == q.month
    && (q.costCenter != "" ==> row.costCenter == q.costCenter)
    && (q.featureLane != "" ==> row.featureLane == q.featureLane)
  }

  function Selected(rows: seq<UsageRecord>, q: Query): seq<UsageRecord> {
    Filter(rows, (r: UsageRecord) => Matches(q, r))
  }

  /** The value of the chosen dimension; an empty one counts as "unknown". */
  function KeyOf(dimension: UsageRecord -> string, row: UsageRecord): string {
    if dimension(row) == "" then "unknown" else dimension(row)
  }

  type Grouping = OrderedMap<string, Totals>

  function At(g: Grouping, key: string): Totals {
    var found := Find(g, key);
    if found.Some? then found.value else Totals(0.0, 0, 0)
  }

  function AddRow(t: Totals, row: UsageRecord): Totals {
    Totals(t.costUsd + row.costUsd, t.totalTokens + row.totalTokens, t.records + 1)
  }

  function Group(rows: seq<UsageRecord>, dimension: UsageRecord -> string): Grouping {
    if rows == [] then []
    else
      var g, row := Group(rows[..|rows| - 1], dimension), rows[|rows| - 1];
      var key := KeyOf(dimension, row);
      Put(g, key, AddRow(At(g, key), row))
  }

  function ToBucket(e: Entry<string, Totals>): Bucket {
    Bucket(e.key, Round4(e.value.costUsd), e.value.totalTokens, e.value.records)
  }

  function BucketOrder(keyLeq: (string, string) -> bool): (Bucket, Bucket) -> bool {
    (a: Bucket, b: Bucket) => a.costUsd > b.costUsd || (a.costUsd == b.costUsd && keyLeq(a.key, b.key))
  }

  function Buckets(g: Grouping, keyLeq: (string, string) -> bool): seq<Bucket> {
    StableSort(Map(g, ToBucket), BucketOrder(keyLeq))
  }

  function Everything(): UsageRecord -> bool { (_: UsageRecord) => true }

  function Summarize(rows: seq<UsageRecord>, q: Query, dimension: UsageRecord -> string,
                     keyLeq: (string, string) -> bool): Summary
  {
    var selected := Selected(rows, q);
    Summary(Totals(Round4(Cost(selected, Everything())), Tokens(selected, Everything()), |selected|),
            Buckets(Group(selected, dimension), keyLeq))
  }

  method SummarizeAttribution(rows: seq<UsageRecord>, q: Query, dimension: UsageRecord -> string,
                              keyLeq: (string, string) -> bool)
    returns (summary: Summary)
    ensures summary == Summarize(rows, q, dimension, keyLeq)
  {
    var filtered := Selected(rows, q);
    var grouped: Grouping := [];
    for i := 0 to |filtered|
      invariant grouped == Group(filtered[..i], dimension)
    {
      assert filtered[..i + 1][..i] == filtered[..i];
      var key := KeyOf(dimension, filtered[i]);
      grouped := Put(grouped, key, AddRow(At(grouped, key), filtered[i]));
    }
    assert filtered[..|filtered|] == filtered;
    var buckets := Buckets(grouped, keyLeq);
    summary := Summary(Totals(Round4(Cost(filtered, Everything())), Tokens(filtered, Everything()), |filtered|), buckets);
  }

  // ----- Sums over groups

  function Sum(g: Grouping): Totals {
    if g == [] then Totals(0.0, 0, 0)
    else
      var rest, t := Sum(g[1..]), g[0].value;
      Totals(t.costUsd + rest.costUsd, t.totalTokens + rest.totalTokens, t.records + rest.records)
  }

  lemma {:induction false} SumPut(g: Grouping, key: string, row: UsageRecord)
    ensures Sum(Put(g, key, AddRow(At(g, key), row))) == AddRow(Sum(g), row)
  {
    if g == [] {
      assert Sum(g) == Totals(0.0, 0, 0);
      assert Put(g, key, AddRow(At(g, key), row))[1..] == [];
    } else if g[0].key == key {
      assert Put(g, key, AddRow(At(g, key), row))[1..] == g[1..];
    } else {
      SumPut(g[1..], key, row);
    }
  }

  /** The groups together hold every row exactly once. */
  lemma {:induction false} GroupsSum(rows: seq<UsageRecord>, dimension: UsageRecord -> string)
    ensures Sum(Group(rows, dimension)) == Totals(Cost(rows, Everything()), Tokens(rows, Everything()), |rows|)
    ensures DistinctKeys(Group(rows, dimension))
  {
    if rows != [] {
      var init, row := rows[..|rows| - 1], rows[|rows| - 1];
      GroupsSum(init, dimension);
      var g, key := Group(init, dimension), KeyOf(dimension, row);
      SumPut(g, key, row);
      PutKeys(g, key, AddRow(At(g, key), row));
    }
  }

  function HasKey(dimension: UsageRecord -> string, key: string): UsageRecord -> bool {
    (r: UsageRecord) => KeyOf(dimension, r) == key
  }

  function RowTotals(rows: seq<UsageRecord>, p: UsageRecord -> bool): Totals {
    Totals(Cost(rows, p), Tokens(rows, p), |Filter(rows, p)|)
  }

  lemma RowTotalsPush(rows: seq<UsageRecord>, row: UsageRecord, p: UsageRecord -> bool)
    ensures RowTotals(rows + [row], p) == if p(row) then AddRow(RowTotals(rows, p), row) else RowTotals(rows, p)
    ensures Filter(rows + [row], p) == Filter(rows, p) + if p(row) then [row] else []
  {
    hide Tokens, Cost, Filter;
    PushTotals(rows, row, p);
    FilterAppend(rows, [row], p);
    FilterOne(row, p);
  }

  ghost predicate GroupIs(rows: seq<UsageRecord>, dimension: UsageRecord -> string, key: string) {
    && At(Group(rows, dimension), key) == RowTotals(rows, HasKey(dimension, key))
    && (Find(Group(rows, dimension), key).Some? <==> Filter(rows, HasKey(dimension, key)) != [])
  }

  lemma GroupPush(rows: seq<UsageRecord>, row: UsageRecord, dimension: UsageRecord -> string, key: string)
    requires GroupIs(rows, dimension, key)
    ensures GroupIs(rows + [row], dimension, key)
  {
    var g, k := Group(rows, dimension), KeyOf(dimension, row);
    assert (rows + [row])[..|rows|] == rows;
    assert Group(rows + [row], dimension) == Put(g, k, AddRow(At(g, k), row));
    hide RowTotals, Put, Find, Group, Filter, KeyOf;
    RowTotalsPush(rows, row, HasKey(dimension, key));
    FindPut(g, k, AddRow(At(g, k), row), key);
  }

  /** Each group is the totals of just the rows with its key. */
  lemma {:induction false} GroupIsItsRows(rows: seq<UsageRecord>, dimension: UsageRecord -> string, key: string)
    ensures GroupIs(rows, dimension, key)
  {
    if rows != [] {
      hide GroupIs;
      var n := |rows| - 1;
      GroupIsItsRows(rows[..n], dimension, key);
      GroupPush(rows[..n], rows[n], dimension, key);
      assert rows == rows[..n] + [rows[n]];
    }
  }

  // ----- Rounding

  function BucketCost(buckets: seq<Bucket>): real {
    if buckets == [] then 0.0 else buckets[0].costUsd + BucketCost(buckets[1..])
  }

  function BucketTokens(buckets: seq<Bucket>): int {
    if buckets == [] then 0 else buckets[0].totalTokens + BucketTokens(buckets[1..])
  }

  function BucketRecords(buckets: seq<Bucket>): nat {
    if buckets == [] then 0 else buckets[0].records + BucketRecords(buckets[1..])
  }

  lemma {:induction false} InsertSums(b: Bucket, s: seq<Bucket>, leq: (Bucket, Bucket) -> bool)
    ensures BucketCost(Insert(b, s, leq)) == b.costUsd + BucketCost(s)
    ensures BucketTokens(Insert(b, s, leq)) == b.totalTokens + BucketTokens(s)
    ensures BucketRecords(Insert(b, s, leq)) == b.records + BucketRecords(s)
  {
    if !(s == [] || leq(b, s[0])) {
      InsertSums(b, s[1..], leq);
    }
  }

  lemma {:induction false} SortSums(s: seq<Bucket>, leq: (Bucket, Bucket) -> bool)
    ensures BucketCost(StableSort(s, leq)) == BucketCost(s)
    ensures BucketTokens(StableSort(s, leq)) == BucketTokens(s)
    ensures BucketRecords(StableSort(s, leq)) == BucketRecords(s)
  {
    if s != [] {
      SortSums(s[1..], leq);
      InsertSums(s[0], StableSort(s[1..], leq), leq);
    }
  }

  lemma {:induction false} RoundedBuckets(g: Grouping)
    ensures var buckets, sum := Map(g, ToBucket), Sum(g);
            && BucketTokens(buckets) == sum.totalTokens && BucketRecords(buckets) == sum.records
            && -0.00005 * |g| as real <= BucketCost(buckets) - sum.costUsd <= 0.00005 * |g| as real
  {
    if g != [] {
      RoundedBuckets(g[1..]);
      assert Map(g, ToBucket)[1..] == Map(g[1..], ToBucket);
      Round4Close(g[0].value.costUsd);
      assert 0.00005 * |g| as real == 0.00005 * |g[1..]| as real + 0.00005;
    }
  }

  /** The buckets partition the selected rows: records and tokens add up exactly to the
      totals, and `k` rounded bucket costs to within (k + 1) / 2 units of the last place. */
  lemma BucketsPartition(rows: seq<UsageRecord>, q: Query, dimension: UsageRecord -> string,
                         keyLeq: (string, string) -> bool)
    ensures var s := Summarize(rows, q, dimension, keyLeq);
            && BucketRecords(s.buckets) == s.totals.records
            && BucketTokens(s.buckets) == s.totals.totalTokens
            && -0.00005 * (|s.buckets| + 1) as real <= BucketCost(s.buckets) - s.totals.costUsd
            && BucketCost(s.buckets) - s.totals.costUsd <= 0.00005 * (|s.buckets| + 1) as real
  {
    var selected := Selected(rows, q);
    var g := Group(selected, dimension);
    GroupsSum(selected, dimension);
    RoundedBuckets(g);
    SortSums(Map(g, ToBucket), BucketOrder(keyLeq));
    SortPermutes(Map(g, ToBucket), BucketOrder(keyLeq));
    Round4Close(Cost(selected, Everything()));
  }

  /** There is one bucket for each value that occurs, with the exact counts of its rows. */
  lemma BucketIsItsRows(rows: seq<UsageRecord>, q: Query, dimension: UsageRecord -> string,
                        keyLeq: (string, string) -> bool, b: Bucket)
    ensures b in Summarize(rows, q, dimension, keyLeq).buckets <==>
            (var mine := Filter(Selected(rows, q), HasKey(dimension, b.key));
             && mine != []
             && b.records == |mine|
             && b.totalTokens == Tokens(Selected(rows, q), HasKey(dimension, b.key))
             && b.costUsd == Round4(Cost(Selected(rows, q), HasKey(dimension, b.key))))
  {
    var selected := Selected(rows, q);
    var g := Group(selected, dimension);
    GroupsSum(selected, dimension);
    GroupIsItsRows(selected, dimension, b.key);
    SortPermutes(Map(g, ToBucket), BucketOrder(keyLeq));
    FindIsEntry(g, b.key, At(g, b.key));
    if b in Map(g, ToBucket) {
      var i :| 0 <= i < |g| && Map(g, ToBucket)[i] == b;
      assert g[i] in g;
      FindIsEntry(g, b.key, g[i].value);
    }
    if Find(g, b.key).Some? {
      var i :| 0 <= i < |g| && g[i] == Entry(b.key, At(g, b.key));
      assert Map(g, ToBucket)[i] == ToBucket(g[i]);
    }
  }

  /** The buckets come by falling cost, ties by key, and no key twice. */
  lemma BucketsAreRanked(rows: seq<UsageRecord>, q: Query, dimension: UsageRecord -> string,
                         keyLeq: (string, string) -> bool)
    requires KeyOrder(keyLeq)
    ensures var buckets := Summarize(rows, q, dimension, keyLeq).buckets;
            forall i, j :: 0 <= i < j < |buckets| ==>
              && (buckets[i].costUsd > buckets[j].costUsd
                  || (buckets[i].costUsd == buckets[j].costUsd && keyLeq(buckets[i].key, buckets[j].key)))
              && buckets[i].key != buckets[j].key
  {
    var g := Group(Selected(rows, q), dimension);
    GroupsSum(Selected(rows, q), dimension);
    BucketOrderIsPreorder(keyLeq);
    SortSorted(Map(g, ToBucket), BucketOrder(keyLeq));
    SortKeys(Map(g, ToBucket), BucketOrder(keyLeq));
  }

  lemma BucketOrderIsPreorder(keyLeq: (string, string) -> bool)
    requires KeyOrder(keyLeq)
    ensures TotalPreorder(BucketOrder(keyLeq))
  {
    var leq := BucketOrder(keyLeq);
    forall a, b
      ensures leq(a, b) || leq(b, a)
    {
      assert keyLeq(a.key, b.key) || keyLeq(b.key, a.key);
    }
    forall a, b, c | leq(a, b) && leq(b, c)
      ensures leq(a, c)
    {
      assert keyLeq(a.key, b.key) && keyLeq(b.key, c.key) ==> keyLeq(a.key, c.key);
    }
  }

  ghost predicate DistinctBuckets(s: seq<Bucket>) {
    forall i, j :: 0 <= i < j < |s| ==> s[i].key != s[j].key
  }

  lemma {:induction false} InsertKeys(b: Bucket, s: seq<Bucket>, leq: (Bucket, Bucket) -> bool)
    requires DistinctBuckets(s) && forall y :: y in s ==> y.key != b.key
    ensures DistinctBuckets(Insert(b, s, leq))
  {
    if !(s == [] || leq(b, s[0])) {
      var r := Insert(b, s[1..], leq);
      InsertKeys(b, s[1..], leq);
      InsertPermutes(b, s[1..], leq);
      forall j | 0 <= j < |r|
        ensures r[j].key != s[0].key
      {
        assert r[j] in multiset(r);
        assert r[j] == b || r[j] in s[1..];
      }
    }
  }

  lemma {:induction false} SortKeys(s: seq<Bucket>, leq: (Bucket, Bucket) -> bool)
    requires DistinctBuckets(s)
    ensures DistinctBuckets(StableSort(s, leq))
  {
    if s != [] {
      SortKeys(s[1..], leq);
      SortPermutes(s[1..], leq);
      var r := StableSort(s[1..], leq);
      assert forall j :: 0 <= j < |r| ==> r[j] in r && r[j] in s[1..];
      InsertKeys(s[0], r, leq);
    }
  }

  // ----- From the rows of the ledger

  lemma {:induction false} FilterTwice(rows: seq<UsageRecord>, p: UsageRecord -> bool, q: UsageRecord -> bool, both: UsageRecord -> bool)
    requires forall r :: both(r) <==> p(r) && q(r)
    ensures Filter(Filter(rows, p), q) == Filter(rows, both)
    ensures Tokens(Filter(rows, p), q) == Tokens(rows, both) && Cost(Filter(rows, p), q) == Cost(rows, both)
  {
    if rows != [] {
      var init, row := rows[..|rows| - 1], rows[|rows| - 1];
      FilterTwice(init, p, q, both);
      assert rows == init + [row];
      FilterAppend(init, [row], p);
      FilterAppend(init, [row], both);
      FilterOne(row, p);
      FilterOne(row, both);
      if p(row) {
        FilterAppend(Filter(init, p), [row], q);
        FilterOne(row, q);
        PushTotals(Filter(init, p), row, q);
      } else {
        assert Filter(init, p) + [] == Filter(init, p);
      }
      PushTotals(init, row, both);
    }
  }

  /** The bucket of a value holds the rows of the ledger that are of the month, of the cost center
      and of the lane asked for, where asked for, and have the value, or none for "unknown". */
  lemma BucketOfLedgerRows(rows: seq<UsageRecord>, q: Query, dimension: UsageRecord -> string,
                           keyLeq: (string, string) -> bool, b: Bucket)
    ensures var mine := (r: UsageRecord) =>
              && r.month == q.month
              && (q.costCenter == "" || r.costCenter == q.costCenter)
              && (q.featureLane == "" || r.featureLane == q.featureLane)
              && (if dimension(r) == "" then b.key == "unknown" else b.key == dimension(r));
            b in Summarize(rows, q, dimension, keyLeq).buckets <==>
            && Filter(rows, mine) != [] && b.records == |Filter(rows, mine)|
            && b.totalTokens == Tokens(rows, mine) && b.costUsd == Round4(Cost(rows, mine))
  {
    var mine := (r: UsageRecord) =>
      && r.month == q.month
      && (q.costCenter == "" || r.costCenter == q.costCenter)
      && (q.featureLane == "" || r.featureLane == q.featureLane)
      && (if dimension(r) == "" then b.key == "unknown" else b.key == dimension(r));
    FilterTwice(rows, (r: UsageRecord) => Matches(q, r), HasKey(dimension, b.key), mine);
    BucketIsItsRows(rows, q, dimension, keyLeq, b);
  }
}
