/** What ranks the items, and what the output and the metrics say of them. */
module BudgetMetrics {
  import opened Sequences
  import opened Utf8
  import opened ContextBudgeter

  // ----- Ranking

  /** `x` is the number from 0 to 1 that is nearest to `score`. */
  predicate Nearest01(score: real, x: real) {
    (0.0 <= score <= 1.0 && x == score) || (score < 0.0 && x == 0.0) || (score > 1.0 && x == 1.0)
  }

  /** Relevance weighs four times what freshness does, each as the nearest number from 0 to 1; a
      missing freshness weighs nothing. */
  lemma RankScoreWeighs(item: ContextItem, relevance: real, freshness: real)
    requires Nearest01(item.relevanceScore, relevance)
    requires Nearest01(if item.freshnessScore.Some? then item.freshnessScore.value else 0.0, freshness)
    ensures 5.0 * RankScore(item) == 4.0 * relevance + freshness
  {
  }

  /** So relevance alone ranks one item above another, however fresh they are, exactly when it is
      more than a quarter higher. */
  lemma RelevanceDecidesIff(a: ContextItem, b: ContextItem)
    requires 0.0 <= a.relevanceScore <= 1.0 && 0.0 <= b.relevanceScore <= 1.0
    ensures (forall mine, other :: RankScore(a.(freshnessScore := mine)) > RankScore(b.(freshnessScore := other))) <==>
            a.relevanceScore > b.relevanceScore + 0.25
  {
    var stale, recent := a.(freshnessScore := None), b.(freshnessScore := Some(1.0));
    if a.relevanceScore <= b.relevanceScore + 0.25 {
      assert RankScore(stale) <= RankScore(recent);
    }
  }

  // ----- The output

  /** Every item that is put out is one of the ranking, with its key and tier, its relevance as the
      nearest number from 0 to 1 and its size counted; one not marked as truncated is whole. */
  ghost predicate PutOut(item: ContextItem, out: BudgetedItem) {
    && out.key == item.key && out.tier == item.tier && Nearest01(item.relevanceScore, out.relevanceScore)
    && out.bytes == Bytes(out.content)
    && (!out.truncated ==> out.content == item.content)
  }

  ghost predicate AllPutOut(ranked: seq<ContextItem>, output: seq<BudgetedItem>) {
    forall j :: 0 <= j < |output| ==> exists i :: 0 <= i < |ranked| && PutOut(ranked[i], output[j])
  }

  lemma {:induction false} OutputDescribesItems(ranked: seq<ContextItem>, opts: Options)
    ensures AllPutOut(ranked, FillAll(ranked, opts).output)
    decreases ranked
  {
    if ranked != [] {
      hide PutOut;
      var init, item := ranked[..|ranked| - 1], ranked[|ranked| - 1];
      OutputDescribesItems(init, opts);
      var fill := FillAll(init, opts);
      if !Drops(fill, item, opts) {
        PlacedIsPutOut(fill, item, opts);
      }
      forall j | 0 <= j < |FillAll(ranked, opts).output|
        ensures exists i :: 0 <= i < |ranked| && PutOut(ranked[i], FillAll(ranked, opts).output[j])
      {
        if j < |fill.output| {
          var i :| 0 <= i < |init| && PutOut(init[i], fill.output[j]);
          assert PutOut(ranked[i], FillAll(ranked, opts).output[j]);
        } else {
          assert PutOut(ranked[|ranked| - 1], FillAll(ranked, opts).output[j]);
        }
      }
    }
  }

  lemma PlacedIsPutOut(fill: Fill, item: ContextItem, opts: Options)
    requires !Drops(fill, item, opts)
    ensures var out := Place(fill, item, opts).output;
            |out| == |fill.output| + 1 && out[..|fill.output|] == fill.output && PutOut(item, out[|fill.output|])
  {
    hide Bytes, Truncated;
  }

  // ----- Nothing cut, nothing lost

  function TruncatedItems(output: seq<BudgetedItem>): nat {
    if output == [] then 0 else TruncatedItems(output[..|output| - 1]) + if output[|output| - 1].truncated then 1 else 0
  }

  lemma {:induction false} BytesSnoc(s: seq<ContextItem>, item: ContextItem)
    ensures ContentBytes(s + [item]) == ContentBytes(s) + Bytes(item.content)
  {
    if s == [] {
      assert ([] + [item])[1..] == [];
      assert s + [item] == [item];
    } else {
      assert (s + [item])[1..] == s[1..] + [item];
      BytesSnoc(s[1..], item);
    }
  }

  /** The truncated items are counted, and uncut ones come out whole. */
  ghost predicate Uncut(fill: Fill, ranked: seq<ContextItem>) {
    && fill.truncated == TruncatedItems(fill.output)
    && (fill.dropped == 0 && fill.truncated == 0 ==> OutputBytes(fill.output) == ContentBytes(ranked))
  }

  lemma UncutNext(fill: Fill, ranked: seq<ContextItem>, item: ContextItem, opts: Options)
    requires Uncut(fill, ranked)
    ensures Uncut(Place(fill, item, opts), ranked + [item])
  {
    hide Bytes, Truncated, ContentBytes;
    BytesSnoc(ranked, item);
    var after := Place(fill, item, opts);
    if !Drops(fill, item, opts) {
      assert after.output[..|after.output| - 1] == fill.output;
    }
  }

  lemma NothingUncut(opts: Options)
    ensures Uncut(FillAll([], opts), [])
  {
  }

  lemma {:induction false} UncutIsWhole(ranked: seq<ContextItem>, opts: Options)
    ensures Uncut(FillAll(ranked, opts), ranked)
    decreases ranked
  {
    hide Uncut, FillAll, Place;
    if ranked == [] {
      NothingUncut(opts);
    } else {
      var n := |ranked| - 1;
      UncutIsWhole(ranked[..n], opts);
      assert ranked == ranked[..n] + [ranked[n]] && ranked[..n + 1] == ranked;
      FillNext(ranked, n, opts);
      UncutNext(FillAll(ranked[..n], opts), ranked[..n], ranked[n], opts);
    }
  }

  /** The truncated count is that of the items put out as truncated; with none of those and none
      dropped, as many bytes come out as went in. */
  lemma MetricsAgree(items: seq<ContextItem>, opts: Options, keyLeq: (string, string) -> bool)
    ensures var r := BudgetSpec(items, opts, keyLeq);
            && r.metrics.truncatedCount == TruncatedItems(r.items) && r.metrics.outputCount == |r.items|
            && (r.metrics.droppedCount == 0 && r.metrics.truncatedCount == 0 ==>
                  r.metrics.budgetedBytes == r.metrics.originalBytes)
  {
    SortContentBytes(items, RanksBefore(keyLeq));
    UncutIsWhole(RankItems(items, keyLeq), opts);
  }
}
