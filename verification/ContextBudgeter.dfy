/** The context budgeter: rank the items, cap each one, then fill the byte budget greedily. */
module ContextBudgeter {
  import opened Arithmetic
  import opened Sequences
  import opened Utf8

  datatype ContextItem = ContextItem(
    key: string,
    content: Text,
    relevanceScore: real,
    freshnessScore: Option<real>,
    tier: Option<string>)

  datatype BudgetedItem = BudgetedItem(
    key: string,
    content: Text,
    relevanceScore: real,
    tier: Option<string>,
    truncated: bool,
    bytes: nat)

  datatype Options = Options(totalBudgetBytes: int, maxItemBytes: int, minItems: int, suffix: Text)

  datatype Metrics = Metrics(
    originalBytes: nat,
    budgetedBytes: nat,
    droppedCount: nat,
    truncatedCount: nat,
    inputCount: nat,
    outputCount: nat)

  datatype BudgetResult = BudgetResult(items: seq<BudgetedItem>, metrics: Metrics)

  // ----- Rank

  function Clamp01(x: real): real {
    if x < 0.0 then 0.0 else if x > 1.0 then 1.0 else x
  }

  function RankScore(item: ContextItem): real {
    Clamp01(item.relevanceScore) * 0.8
    + Clamp01(if item.freshnessScore.Some? then item.freshnessScore.value else 0.0) * 0.2
  }

  /** Falling score, then rising key. `keyLeq` stands for `localeCompare(...) <= 0`. */
  function RanksBefore(keyLeq: (string, string) -> bool): (ContextItem, ContextItem) -> bool {
    (a: ContextItem, b: ContextItem) =>
      RankScore(a) > RankScore(b) || (RankScore(a) == RankScore(b) && keyLeq(a.key, b.key))
  }

  function RankItems(items: seq<ContextItem>, keyLeq: (string, string) -> bool): seq<ContextItem> {
    StableSort(items, RanksBefore(keyLeq))
  }

  // ----- Truncate

  /** The index at which the truncation loop stops. The surrogate branch has already
      stepped over the first half of a pair when it finds that the pair does not fit. */
  function CutIndex(s: Text, maxBytes: int, i: nat, n: int): nat
    decreases |s| - i
  {
    if i >= |s| || n >= maxBytes then i
    else
      var at := if IsSurrogate(s[i]) then i + 1 else i;
      if n + UnitBytes(s[i]) > maxBytes then at else CutIndex(s, maxBytes, at + 1, n + UnitBytes(s[i]))
  }

  function Prefix(s: Text, n: nat): Text { if n <= |s| then s[..n] else s }

  function Truncated(content: Text, maxBytes: int, suffix: Text): Text {
    if Bytes(content) <= maxBytes then content
    else Prefix(content, CutIndex(content, maxBytes, 0, 0)) + suffix
  }

  method HardTruncate(content: Text, maxBytes: int, suffix: Text) returns (r: Text)
    ensures r == Truncated(content, maxBytes, suffix)
  {
    var size := ByteLength(content);
    if size <= maxBytes {
      return content;
    }
    var n, i := 0, 0;
    while i < |content| && n < maxBytes
      invariant 0 <= i
      invariant CutIndex(content, maxBytes, i, n) == CutIndex(content, maxBytes, 0, 0)
      decreases |content| - i
    {
      var c := content[i];
      var charBytes;
      if c < 0x80 {
        charBytes := 1;
      } else if c < 0x800 {
        charBytes := 2;
      } else if c < 0xd800 || c >= 0xe000 {
        charBytes := 3;
      } else {
        i := i + 1;
        charBytes := 4;
      }
      if n + charBytes > maxBytes {
        break;
      }
      n := n + charBytes;
      i := i + 1;
    }
    assert i == CutIndex(content, maxBytes, 0, 0);
    r := Prefix(content, i) + suffix;
  }

  /** Where a truncation cuts: at the end of a whole character that just fits, or
      (`split`) one unit into a surrogate pair that does not fit. */
  ghost predicate CutsAt(s: Text, maxBytes: int, cut: nat, k: nat, split: bool) {
    && k < |s| && Whole(s[..k])
    && cut == (if split then k + 1 else k)
    && Bytes(s[..k]) <= Max(0, maxBytes)
    && (split ==> IsSurrogate(s[k]) && Bytes(s[..k]) < maxBytes < Bytes(s[..k]) + 4)
    && (!split ==> Bytes(s[..k]) == Max(0, maxBytes)
                   || (!IsSurrogate(s[k]) && maxBytes < Bytes(s[..k]) + UnitBytes(s[k])))
  }

  lemma LastSurrogate(a: Text, c: CodeUnit)
    requires Whole(a) && IsSurrogate(c)
    ensures Bytes(a + [c]) == Bytes(a) + 4
  {
    var none: Text := [];
    assert Bytes(Drop(none, 1)) == 0;
    hide *;
    TrailingSurrogate(a, c, none);
    assert a + [c] + none == a + [c];
  }

  /** The loop cannot run off the end of a text that is too long. */
  lemma CutStaysInside(s: Text, maxBytes: int, i: nat)
    requires i <= |s| && Whole(s[..i]) && Bytes(s[..i]) <= Max(0, maxBytes) < Bytes(s)
    ensures i < |s|
    ensures i + Stride(s[i]) <= |s| || Bytes(s[..i]) + UnitBytes(s[i]) > maxBytes
  {
    hide Bytes, Whole;
    assert s[..|s|] == s;
    if i + Stride(s[i]) > |s| {
      LastSurrogate(s[..i], s[i]);
      assert s[..i] + [s[i]] == s;
    }
  }

  lemma {:induction false} CutShape(s: Text, maxBytes: int, i: nat, n: nat) returns (k: nat, split: bool)
    requires i <= |s| && Whole(s[..i]) && n == Bytes(s[..i]) && n <= Max(0, maxBytes) < Bytes(s)
    ensures CutsAt(s, maxBytes, CutIndex(s, maxBytes, i, n), k, split)
    decreases |s| - i
  {
    hide Bytes, Whole;
    CutStaysInside(s, maxBytes, i);
    var c := s[i];
    if n >= maxBytes || n + UnitBytes(c) > maxBytes {
      k, split := i, n < maxBytes && IsSurrogate(c);
    } else {
      NextCharacter(s, i);
      k, split := CutShape(s, maxBytes, i + Stride(c), n + UnitBytes(c));
    }
  }

  /** A truncated text overshoots its limit by at most the suffix plus a split pair. */
  lemma TruncatedBound(content: Text, maxBytes: int, suffix: Text)
    ensures Bytes(Truncated(content, maxBytes, suffix)) <=
            Max(0, maxBytes) + Bytes(suffix) + (if NoSurrogates(content) then 0 else 3)
  {
    if Bytes(content) > maxBytes {
      if Bytes(content) <= Max(0, maxBytes) {
        assert content == [];
        assert Truncated(content, maxBytes, suffix) == suffix;
      } else {
        var k, split := CutShape(content, maxBytes, 0, 0);
        TruncatedBytes(content, maxBytes, suffix, k, split);
        TailBytes(suffix);
      }
    }
  }

  lemma TailBytes(suffix: Text)
    ensures Bytes(Drop(suffix, 1)) <= Bytes(suffix)
  {
    if suffix != [] {
      BytesTail(suffix);
    }
  }

  lemma TruncatedBytes(content: Text, maxBytes: int, suffix: Text, k: nat, split: bool)
    requires Bytes(content) > maxBytes
    requires CutsAt(content, maxBytes, CutIndex(content, maxBytes, 0, 0), k, split)
    ensures Bytes(Truncated(content, maxBytes, suffix)) ==
            Bytes(content[..k]) + if split then 4 + Bytes(Drop(suffix, 1)) else Bytes(suffix)
  {
    if split {
      assert content[..k + 1] == content[..k] + [content[k]];
      TrailingSurrogate(content[..k], content[k], suffix);
    } else {
      WholeThen(content[..k], suffix);
    }
  }

  /** With a suffix of three bytes or more, truncation always overshoots. */
  lemma TruncatedOvershoots(content: Text, maxBytes: int, suffix: Text)
    requires Bytes(content) > maxBytes && Bytes(suffix) >= 3
    ensures Bytes(Truncated(content, maxBytes, suffix)) > maxBytes
  {
    if 0 <= maxBytes {
      var k, split := CutShape(content, maxBytes, 0, 0);
      TruncatedBytes(content, maxBytes, suffix, k, split);
    }
  }

  // ----- Budget

  function Capped(item: ContextItem, opts: Options): Text {
    if Bytes(item.content) > opts.maxItemBytes then Truncated(item.content, opts.maxItemBytes, opts.suffix)
    else item.content
  }

  datatype Fill = Fill(output: seq<BudgetedItem>, remaining: int, dropped: nat, truncated: nat)

  predicate Drops(fill: Fill, item: ContextItem, opts: Options) {
    Bytes(Capped(item, opts)) > fill.remaining && |fill.output| >= opts.minItems
  }

  function FinalContent(fill: Fill, item: ContextItem, opts: Options): Text {
    if Bytes(Capped(item, opts)) > fill.remaining then Truncated(Capped(item, opts), fill.remaining, opts.suffix)
    else Capped(item, opts)
  }

  function Place(fill: Fill, item: ContextItem, opts: Options): Fill {
    if Drops(fill, item, opts) then fill.(dropped := fill.dropped + 1)
    else
      var content := FinalContent(fill, item, opts);
      var cut := Bytes(item.content) > opts.maxItemBytes || Bytes(Capped(item, opts)) > fill.remaining;
      Fill(
        fill.output + [BudgetedItem(item.key, content, Clamp01(item.relevanceScore), item.tier, cut, Bytes(content))],
        fill.remaining - Bytes(content),
        fill.dropped,
        fill.truncated + if cut then 1 else 0)
  }

  function FillAll(ranked: seq<ContextItem>, opts: Options): Fill {
    if ranked == [] then Fill([], opts.totalBudgetBytes, 0, 0)
    else Place(FillAll(ranked[..|ranked| - 1], opts), ranked[|ranked| - 1], opts)
  }

  function ContentBytes(items: seq<ContextItem>): nat {
    if items == [] then 0 else Bytes(items[0].content) + ContentBytes(items[1..])
  }

  function OutputBytes(items: seq<BudgetedItem>): nat {
    if items == [] then 0 else OutputBytes(items[..|items| - 1]) + items[|items| - 1].bytes
  }

  function BudgetSpec(items: seq<ContextItem>, opts: Options, keyLeq: (string, string) -> bool): BudgetResult {
    var fill := FillAll(RankItems(items, keyLeq), opts);
    BudgetResult(fill.output,
                 Metrics(ContentBytes(items), OutputBytes(fill.output), fill.dropped, fill.truncated,
                         |items|, |fill.output|))
  }

  /** One turn of the fill loop: the item as it goes into the output, if it does. */
  method FitItem(item: ContextItem, remaining: int, enough: bool, opts: Options, ghost fill: Fill)
    returns (placed: Option<BudgetedItem>, wasTruncated: bool)
    requires fill.remaining == remaining && enough == (|fill.output| >= opts.minItems)
    ensures placed.None? <==> Drops(fill, item, opts)
    ensures placed.Some? ==>
      Place(fill, item, opts) ==
      Fill(fill.output + [placed.value], remaining - placed.value.bytes, fill.dropped,
           fill.truncated + if wasTruncated then 1 else 0)
  {
    var content := item.content;
    wasTruncated := false;
    var size := ByteLength(content);
    if size > opts.maxItemBytes {
      content := HardTruncate(content, opts.maxItemBytes, opts.suffix);
      wasTruncated := true;
    }
    var itemBytes := ByteLength(content);
    if itemBytes > remaining {
      if enough {
        return None, wasTruncated;
      }
      content := HardTruncate(content, remaining, opts.suffix);
      wasTruncated := true;
    }
    var finalBytes := ByteLength(content);
    placed := Some(BudgetedItem(item.key, content, Clamp01(item.relevanceScore), item.tier, wasTruncated, finalBytes));
  }

  lemma FillNext(ranked: seq<ContextItem>, i: nat, opts: Options)
    requires i < |ranked|
    ensures FillAll(ranked[..i + 1], opts) == Place(FillAll(ranked[..i], opts), ranked[i], opts)
  {
    assert ranked[..i + 1][..i] == ranked[..i];
  }

  method SumContent(items: seq<ContextItem>) returns (bytes: nat)
    ensures bytes == ContentBytes(items)
  {
    bytes := 0;
    for i := 0 to |items|
      invariant bytes + ContentBytes(items[i..]) == ContentBytes(items)
    {
      var size := ByteLength(items[i].content);
      assert items[i..][1..] == items[i + 1..];
      bytes := bytes + size;
    }
  }

  method SumOutput(output: seq<BudgetedItem>) returns (bytes: nat)
    ensures bytes == OutputBytes(output)
  {
    bytes := 0;
    for i := 0 to |output|
      invariant bytes == OutputBytes(output[..i])
    {
      assert output[..i + 1][..i] == output[..i];
      bytes := bytes + output[i].bytes;
    }
    assert output[..|output|] == output;
  }

  method Budget(items: seq<ContextItem>, opts: Options, keyLeq: (string, string) -> bool) returns (result: BudgetResult)
    ensures result == BudgetSpec(items, opts, keyLeq)
  {
    var ranked := RankItems(items, keyLeq);
    var originalBytes := SumContent(items);
    var output: seq<BudgetedItem> := [];
    var remaining, droppedCount, truncatedCount := opts.totalBudgetBytes, 0, 0;
    for i := 0 to |ranked|
      invariant Fill(output, remaining, droppedCount, truncatedCount) == FillAll(ranked[..i], opts)
    {
      FillNext(ranked, i, opts);
      ghost var fill := Fill(output, remaining, droppedCount, truncatedCount);
      var placed, cut := FitItem(ranked[i], remaining, |output| >= opts.minItems, opts, fill);
      if placed.None? {
        droppedCount := droppedCount + 1;
        continue;
      }
      if cut {
        truncatedCount := truncatedCount + 1;
      }
      remaining := remaining - placed.value.bytes;
      output := output + [placed.value];
    }
    assert ranked[..|ranked|] == ranked;
    var budgetedBytes := SumOutput(output);
    result := BudgetResult(output,
      Metrics(originalBytes, budgetedBytes, droppedCount, truncatedCount, |items|, |output|));
  }

  // ----- Conservation and greediness

  lemma {:induction false} FillAccounts(ranked: seq<ContextItem>, opts: Options)
    ensures var fill := FillAll(ranked, opts);
            && |fill.output| + fill.dropped == |ranked|
            && OutputBytes(fill.output) == opts.totalBudgetBytes - fill.remaining
  {
    if ranked != [] {
      var init, item := ranked[..|ranked| - 1], ranked[|ranked| - 1];
      FillAccounts(init, opts);
      var before, fill := FillAll(init, opts), FillAll(ranked, opts);
      if !Drops(before, item, opts) {
        assert fill.output[..|fill.output| - 1] == before.output;
      }
    }
  }

  /** Nothing is lost: every item is kept or counted as dropped, and the bytes add up. */
  lemma NothingUnaccounted(items: seq<ContextItem>, opts: Options, keyLeq: (string, string) -> bool)
    ensures var m := BudgetSpec(items, opts, keyLeq).metrics;
            && m.outputCount + m.droppedCount == m.inputCount == |items|
            && m.budgetedBytes == opts.totalBudgetBytes - FillAll(RankItems(items, keyLeq), opts).remaining
  {
    SortPermutes(items, RanksBefore(keyLeq));
    FillAccounts(RankItems(items, keyLeq), opts);
  }

  ghost predicate KeptItem(item: ContextItem, kept: BudgetedItem, position: nat, opts: Options) {
    && kept.key == item.key && kept.tier == item.tier && kept.relevanceScore == Clamp01(item.relevanceScore)
    && kept.bytes == Bytes(kept.content)
    && (!kept.truncated ==> kept.content == item.content)
    && (position >= opts.minItems ==> kept.content == Capped(item, opts))
  }

  /** `kept` lists, in rank order, where the output items come from. Only the first
      `minItems` of them can be cut below their cap. Every other item was dropped and,
      even capped, does not fit in what is left at the end. */
  ghost predicate GreedyChoice(ranked: seq<ContextItem>, opts: Options, fill: Fill, kept: seq<nat>) {
    && |kept| == |fill.output|
    && (forall i, j :: 0 <= i < j < |kept| ==> kept[i] < kept[j])
    && (forall i :: 0 <= i < |kept| ==> kept[i] < |ranked| && KeptItem(ranked[kept[i]], fill.output[i], i, opts))
    && (forall j :: 0 <= j < |ranked| && j !in kept ==> Bytes(Capped(ranked[j], opts)) > fill.remaining)
  }

  lemma GreedyDrop(ranked: seq<ContextItem>, item: ContextItem, opts: Options, fill: Fill, kept: seq<nat>)
    requires GreedyChoice(ranked, opts, fill, kept) && Drops(fill, item, opts)
    ensures GreedyChoice(ranked + [item], opts, Place(fill, item, opts), kept)
  {
    forall j | 0 <= j < |ranked + [item]| && j !in kept
      ensures Bytes(Capped((ranked + [item])[j], opts)) > fill.remaining
    {
      assert j < |ranked| ==> Bytes(Capped(ranked[j], opts)) > fill.remaining;
    }
  }

  lemma GreedyKeep(ranked: seq<ContextItem>, item: ContextItem, opts: Options, fill: Fill, kept: seq<nat>)
    requires GreedyChoice(ranked, opts, fill, kept) && !Drops(fill, item, opts)
    ensures GreedyChoice(ranked + [item], opts, Place(fill, item, opts), kept + [|ranked|])
  {
    var now, next, all := kept + [|ranked|], Place(fill, item, opts), ranked + [item];
    assert next.remaining <= fill.remaining;
    forall i | 0 <= i < |now|
      ensures now[i] < |all| && KeptItem(all[now[i]], next.output[i], i, opts)
    {
      if i < |kept| {
        assert KeptItem(ranked[kept[i]], fill.output[i], i, opts);
      }
    }
    forall j | 0 <= j < |all| && j !in now
      ensures Bytes(Capped(all[j], opts)) > next.remaining
    {
      assert now[|kept|] == |ranked|;
      assert j < |ranked| && j !in kept;
      assert Bytes(Capped(ranked[j], opts)) > fill.remaining;
    }
  }

  lemma NothingChosen(opts: Options)
    ensures GreedyChoice([], opts, FillAll([], opts), [])
  {
  }

  /** The output is a subsequence of the ranking and no dropped item fits in the remaining budget. */
  lemma {:induction false} GreedilyMaximal(ranked: seq<ContextItem>, opts: Options) returns (kept: seq<nat>)
    ensures GreedyChoice(ranked, opts, FillAll(ranked, opts), kept)
  {
    hide FillAll, Place, Drops, GreedyChoice;
    if ranked == [] {
      kept := [];
      NothingChosen(opts);
    } else {
      var n := |ranked| - 1;
      kept := GreedilyMaximal(ranked[..n], opts);
      assert ranked[..n] + [ranked[n]] == ranked && ranked[..n + 1] == ranked;
      FillNext(ranked, n, opts);
      if Drops(FillAll(ranked[..n], opts), ranked[n], opts) {
        GreedyDrop(ranked[..n], ranked[n], opts, FillAll(ranked[..n], opts), kept);
      } else {
        GreedyKeep(ranked[..n], ranked[n], opts, FillAll(ranked[..n], opts), kept);
        kept := kept + [n];
      }
    }
  }

  // ----- The byte bound

  ghost predicate SurrogateFree(items: seq<ContextItem>, suffix: Text) {
    NoSurrogates(suffix) && forall item :: item in items ==> NoSurrogates(item.content)
  }

  /** Slots of guaranteed items that `kept` items have used up. */
  function SlotsUsed(kept: nat, opts: Options): nat { Min(kept, Max(0, opts.minItems)) }

  /** What is left, at worst, after `fill`: each used slot may have cost `unit` too many. */
  ghost predicate WithinAllowance(fill: Fill, opts: Options, unit: nat) {
    fill.remaining >= Min(0, opts.totalBudgetBytes) - Times(SlotsUsed(|fill.output|, opts), unit)
  }

  lemma PlaceBound(fill: Fill, item: ContextItem, opts: Options, unit: nat)
    requires unit >= Bytes(opts.suffix)
    requires NoSurrogates(Capped(item, opts)) || unit >= Bytes(opts.suffix) + 3
    requires WithinAllowance(fill, opts, unit)
    ensures WithinAllowance(Place(fill, item, opts), opts, unit)
  {
    if Bytes(Capped(item, opts)) > fill.remaining {
      TruncatedBound(Capped(item, opts), fill.remaining, opts.suffix);
    }
  }

  lemma CappedSurrogateFree(item: ContextItem, opts: Options)
    requires NoSurrogates(item.content) && NoSurrogates(opts.suffix)
    ensures NoSurrogates(Capped(item, opts))
  {
  }

  lemma StartAllowance(opts: Options, unit: nat)
    ensures WithinAllowance(FillAll([], opts), opts, unit)
  {
  }

  lemma {:induction false} RemainingBound(ranked: seq<ContextItem>, n: nat, opts: Options, unit: nat)
    requires n <= |ranked|
    requires unit >= Bytes(opts.suffix) && (SurrogateFree(ranked, opts.suffix) || unit >= Bytes(opts.suffix) + 3)
    ensures WithinAllowance(FillAll(ranked[..n], opts), opts, unit)
  {
    hide Bytes, Capped, FillAll, Place, WithinAllowance, NoSurrogates, SurrogateFree;
    if n == 0 {
      assert ranked[..0] == [];
      StartAllowance(opts, unit);
    } else {
      RemainingBound(ranked, n - 1, opts, unit);
      FillNext(ranked, n - 1, opts);
      if SurrogateFree(ranked, opts.suffix) {
        RankedSurrogateFree(ranked, n - 1, opts);
      }
      PlaceBound(FillAll(ranked[..n - 1], opts), ranked[n - 1], opts, unit);
    }
  }

  lemma RankedSurrogateFree(ranked: seq<ContextItem>, k: nat, opts: Options)
    requires k < |ranked| && SurrogateFree(ranked, opts.suffix)
    ensures NoSurrogates(Capped(ranked[k], opts))
  {
    hide NoSurrogates, Capped;
    assert ranked[k] in ranked;
    CappedSurrogateFree(ranked[k], opts);
  }

  lemma OutputBytesWithin(items: seq<ContextItem>, opts: Options, keyLeq: (string, string) -> bool, unit: nat)
    requires unit >= Bytes(opts.suffix) && (SurrogateFree(items, opts.suffix) || unit >= Bytes(opts.suffix) + 3)
    ensures BudgetSpec(items, opts, keyLeq).metrics.budgetedBytes <=
            Max(0, opts.totalBudgetBytes) + Max(0, opts.minItems) * unit
  {
    var ranked := RankItems(items, keyLeq);
    SortPermutes(items, RanksBefore(keyLeq));
    NothingUnaccounted(items, opts, keyLeq);
    RemainingBound(ranked, |ranked|, opts, unit);
    assert ranked[..|ranked|] == ranked;
    TimesMonotone(SlotsUsed(|FillAll(ranked, opts).output|, opts), Max(0, opts.minItems), unit);
    TimesIsProduct(Max(0, opts.minItems), unit);
  }

  /** The true bound: the budget plus, for each item that must be kept, the suffix and
      three bytes of a split surrogate pair; without surrogates, the suffix alone. */
  lemma OutputBytesBound(items: seq<ContextItem>, opts: Options, keyLeq: (string, string) -> bool)
    ensures BudgetSpec(items, opts, keyLeq).metrics.budgetedBytes <=
            Max(0, opts.totalBudgetBytes) + Max(0, opts.minItems) * (Bytes(opts.suffix) + 3)
    ensures SurrogateFree(items, opts.suffix) ==>
            BudgetSpec(items, opts, keyLeq).metrics.budgetedBytes <=
            Max(0, opts.totalBudgetBytes) + Max(0, opts.minItems) * Bytes(opts.suffix)
  {
    OutputBytesWithin(items, opts, keyLeq, Bytes(opts.suffix) + 3);
    if SurrogateFree(items, opts.suffix) {
      OutputBytesWithin(items, opts, keyLeq, Bytes(opts.suffix));
    }
  }

  // ----- When the output stays within the budget

  function CappedBytes(ranked: seq<ContextItem>, opts: Options): nat {
    if ranked == [] then 0
    else CappedBytes(ranked[..|ranked| - 1], opts) + Bytes(Capped(ranked[|ranked| - 1], opts))
  }

  /** The items that are kept whatever their size. */
  function Guaranteed(ranked: seq<ContextItem>, opts: Options): seq<ContextItem> {
    ranked[..Min(|ranked|, Max(0, opts.minItems))]
  }

  lemma GuaranteedPrefix(ranked: seq<ContextItem>, opts: Options)
    requires ranked != []
    ensures var init := ranked[..|ranked| - 1];
            && (|ranked| > Max(0, opts.minItems) ==> Guaranteed(ranked, opts) == Guaranteed(init, opts))
            && (|ranked| <= Max(0, opts.minItems) ==> Guaranteed(ranked, opts) == ranked && Guaranteed(init, opts) == init)
  {
  }

  lemma {:induction false} GuaranteedFit(ranked: seq<ContextItem>, opts: Options)
    requires CappedBytes(Guaranteed(ranked, opts), opts) <= opts.totalBudgetBytes
    ensures var fill := FillAll(ranked, opts);
            && fill.remaining >= 0
            && |fill.output| >= Min(|ranked|, Max(0, opts.minItems))
            && (|ranked| <= Max(0, opts.minItems) ==>
                  fill.remaining == opts.totalBudgetBytes - CappedBytes(ranked, opts) && |fill.output| == |ranked|)
  {
    if ranked != [] {
      hide Bytes, Capped, Guaranteed, FillAll, CappedBytes;
      var init := ranked[..|ranked| - 1];
      GuaranteedPrefix(ranked, opts);
      LastIsPlaced(ranked, opts);
      GuaranteedFit(init, opts);
    }
  }

  /** A guaranteed item that does not fit is cut, and even so overshoots what is left. */
  lemma PlaceOvershoots(fill: Fill, item: ContextItem, opts: Options)
    requires Bytes(opts.suffix) >= 3 && |fill.output| < opts.minItems
    requires Bytes(Capped(item, opts)) > fill.remaining
    ensures Place(fill, item, opts).remaining < 0
  {
    hide Bytes, Capped, Truncated;
    TruncatedOvershoots(Capped(item, opts), fill.remaining, opts.suffix);
  }

  lemma {:induction false} GuaranteedOverflow(ranked: seq<ContextItem>, opts: Options)
    requires Bytes(opts.suffix) >= 3
    requires CappedBytes(Guaranteed(ranked, opts), opts) > opts.totalBudgetBytes
    ensures FillAll(ranked, opts).remaining < 0
    decreases ranked
  {
    if ranked == [] {
      assert Guaranteed(ranked, opts) == [];
    } else {
      hide Bytes, Capped, Guaranteed, Place, FillAll, CappedBytes;
      var init, item := ranked[..|ranked| - 1], ranked[|ranked| - 1];
      GuaranteedPrefix(ranked, opts);
      LastIsPlaced(ranked, opts);
      OverflowStays(FillAll(init, opts), item, opts);
      if CappedBytes(Guaranteed(init, opts), opts) > opts.totalBudgetBytes {
        GuaranteedOverflow(init, opts);
      } else {
        GuaranteedFit(init, opts);
        PlaceOvershoots(FillAll(init, opts), item, opts);
      }
    }
  }

  lemma LastIsPlaced(ranked: seq<ContextItem>, opts: Options)
    requires ranked != []
    ensures var init, item := ranked[..|ranked| - 1], ranked[|ranked| - 1];
            && FillAll(ranked, opts) == Place(FillAll(init, opts), item, opts)
            && CappedBytes(ranked, opts) == CappedBytes(init, opts) + Bytes(Capped(item, opts))
  {
  }

  lemma OverflowStays(fill: Fill, item: ContextItem, opts: Options)
    requires Bytes(opts.suffix) >= 3
    ensures fill.remaining < 0 ==> Place(fill, item, opts).remaining < 0
  {
  }

  /** The output stays within the budget exactly when the first `minItems` ranked items,
      capped, fit together, for every suffix of at least three bytes. */
  lemma WithinBudgetIff(items: seq<ContextItem>, opts: Options, keyLeq: (string, string) -> bool)
    requires Bytes(opts.suffix) >= 3
    ensures BudgetSpec(items, opts, keyLeq).metrics.budgetedBytes <= opts.totalBudgetBytes <==>
            CappedBytes(Guaranteed(RankItems(items, keyLeq), opts), opts) <= opts.totalBudgetBytes
  {
    var ranked := RankItems(items, keyLeq);
    NothingUnaccounted(items, opts, keyLeq);
    if CappedBytes(Guaranteed(ranked, opts), opts) <= opts.totalBudgetBytes {
      GuaranteedFit(ranked, opts);
    } else {
      GuaranteedOverflow(ranked, opts);
    }
  }

  /** For a shorter suffix the condition is still enough. */
  lemma WithinBudgetIf(items: seq<ContextItem>, opts: Options, keyLeq: (string, string) -> bool)
    requires CappedBytes(Guaranteed(RankItems(items, keyLeq), opts), opts) <= opts.totalBudgetBytes
    ensures BudgetSpec(items, opts, keyLeq).metrics.budgetedBytes <= opts.totalBudgetBytes
  {
    NothingUnaccounted(items, opts, keyLeq);
    GuaranteedFit(RankItems(items, keyLeq), opts);
  }

  // ----- Inputs at the edge

  const TOTAL_BUDGET_BYTES := 131072
  const MAX_ITEM_BYTES := 16384
  const MIN_ITEMS := 1

  /** A newline, an ellipsis and " [truncated]". */
  const TRUNCATION_SUFFIX: Text :=
    [0x0a, 0x2026, 0x20, 0x5b, 0x74, 0x72, 0x75, 0x6e, 0x63, 0x61, 0x74, 0x65, 0x64, 0x5d]

  lemma {:induction false} PlainBytes(s: Text)
    requires forall i :: 0 <= i < |s| ==> s[i] < 0x80
    ensures Bytes(s) == |s|
  {
    if s != [] {
      PlainBytes(s[1..]);
    }
  }

  lemma DefaultSuffixBytes()
    ensures Bytes(TRUNCATION_SUFFIX) == 16 && NoSurrogates(TRUNCATION_SUFFIX)
  {
    PlainBytes(TRUNCATION_SUFFIX[2..]);
    assert Drop(TRUNCATION_SUFFIX, 1)[0] == 0x2026;
    assert Drop(Drop(TRUNCATION_SUFFIX, 1), 1) == TRUNCATION_SUFFIX[2..];
  }

  function Single(content: Text): ContextItem {
    ContextItem("only", content, 1.0, None, None)
  }

  lemma SingleItem(content: Text, opts: Options, keyLeq: (string, string) -> bool)
    requires Bytes(content) <= opts.maxItemBytes && opts.minItems == 1 && Bytes(content) > opts.totalBudgetBytes
    ensures RankItems([Single(content)], keyLeq) == [Single(content)]
    ensures BudgetSpec([Single(content)], opts, keyLeq).metrics.budgetedBytes ==
            Bytes(Truncated(content, opts.totalBudgetBytes, opts.suffix))
  {
    var ranked := [Single(content)];
    assert ranked[..0] == [];
    SortSingleton(ranked[0], RanksBefore(keyLeq));
    assert FillAll(ranked, opts) == Place(FillAll([], opts), ranked[0], opts);
    NothingUnaccounted(ranked, opts, keyLeq);
  }

  /** With all defaults (128 KiB in all, 16 KiB for an item, one item at least) the documented
      bound holds, whatever the items. */
  lemma DefaultsStayWithin(items: seq<ContextItem>, keyLeq: (string, string) -> bool)
    ensures var opts := Options(TOTAL_BUDGET_BYTES, MAX_ITEM_BYTES, MIN_ITEMS, TRUNCATION_SUFFIX);
            && opts.totalBudgetBytes == 128 * 1024 && opts.maxItemBytes == 16 * 1024 && opts.minItems == 1
            && BudgetSpec(items, opts, keyLeq).metrics.budgetedBytes <= 128 * 1024
  {
    var opts := Options(TOTAL_BUDGET_BYTES, MAX_ITEM_BYTES, MIN_ITEMS, TRUNCATION_SUFFIX);
    var ranked := RankItems(items, keyLeq);
    DefaultSuffixBytes();
    if ranked != [] {
      var first := Guaranteed(ranked, opts);
      assert first == [ranked[0]] && first[..0] == [];
      TruncatedBound(ranked[0].content, opts.maxItemBytes, opts.suffix);
    }
    WithinBudgetIf(items, opts, keyLeq);
  }

  /** It fails for any smaller budget that a single admissible item exceeds. */
  lemma SmallBudgetOverflows(content: Text, opts: Options, keyLeq: (string, string) -> bool)
    requires opts.minItems == MIN_ITEMS && opts.suffix == TRUNCATION_SUFFIX
    requires opts.totalBudgetBytes < Bytes(content) <= opts.maxItemBytes
    ensures BudgetSpec([Single(content)], opts, keyLeq).metrics.budgetedBytes > opts.totalBudgetBytes
  {
    DefaultSuffixBytes();
    SingleItem(content, opts, keyLeq);
    TruncatedOvershoots(content, opts.totalBudgetBytes, opts.suffix);
  }

  /** The three bytes are needed: a surrogate pair cut at one byte, with an empty
      suffix, comes out as half a pair, which counts four. */
  lemma SplitPairIsTight(keyLeq: (string, string) -> bool)
    ensures BudgetSpec([Single([0xd83d, 0xde00])], Options(1, MAX_ITEM_BYTES, 1, []), keyLeq).metrics.budgetedBytes
            == 1 + 1 * (Bytes([]) + 3)
  {
    var content: Text := [0xd83d, 0xde00];
    assert Drop(content, 2) == [];
    assert Bytes(content) == 4;
    SingleItem(content, Options(1, MAX_ITEM_BYTES, 1, []), keyLeq);
    var cut: Text := [0xd83d];
    assert Truncated(content, 1, []) == cut;
    assert Drop(cut, 2) == [];
  }

  /** Surrogates in the suffix alone are enough to break the tighter bound. */
  lemma SuffixSurrogatesCount(keyLeq: (string, string) -> bool)
    ensures var content: Text := [0x61, 0x61, 0x61, 0x61];
            var suffix: Text := [0xd83d, 0xde00];
            NoSurrogates(content) &&
            BudgetSpec([Single(content)], Options(3, 2, 1, suffix), keyLeq).metrics.budgetedBytes
            > 3 + 1 * Bytes(suffix)
  {
    var content: Text := [0x61, 0x61, 0x61, 0x61];
    var suffix: Text := [0xd83d, 0xde00];
    var opts := Options(3, 2, 1, suffix);
    CutTwice();
    hide Bytes, Truncated, NoSurrogates, RanksBefore;
    var ranked := [Single(content)];
    assert ranked[..0] == [];
    SortSingleton(ranked[0], RanksBefore(keyLeq));
    assert FillAll(ranked, opts) == Place(FillAll([], opts), ranked[0], opts);
    NothingUnaccounted(ranked, opts, keyLeq);
  }

  lemma CutTwice()
    ensures var content: Text := [0x61, 0x61, 0x61, 0x61];
            var suffix: Text := [0xd83d, 0xde00];
            var capped := Truncated(content, 2, suffix);
            && NoSurrogates(content) && Bytes(content) == 4 && Bytes(suffix) == 4
            && Bytes(capped) == 6 && Bytes(Truncated(capped, 3, suffix)) == 10
  {
    var content: Text := [0x61, 0x61, 0x61, 0x61];
    var suffix: Text := [0xd83d, 0xde00];
    PlainBytes(content);
    assert Drop(suffix, 2) == [];
    var capped: Text := [0x61, 0x61, 0xd83d, 0xde00];
    PlainBytes([0x61, 0x61]);
    assert CutIndex(content, 2, 2, 2) == 2 && CutIndex(content, 2, 1, 1) == 2 && CutIndex(content, 2, 0, 0) == 2;
    assert Truncated(content, 2, suffix) == capped;
    assert Drop(capped, 1) == [0x61, 0xd83d, 0xde00] && Drop(Drop(capped, 1), 1) == suffix;
    assert Bytes(capped) == 6;
    var last: Text := [0x61, 0x61, 0xd83d, 0xd83d, 0xde00];
    assert CutIndex(capped, 3, 2, 2) == 3 && CutIndex(capped, 3, 1, 1) == 3 && CutIndex(capped, 3, 0, 0) == 3;
    assert Truncated(capped, 3, suffix) == last;
    assert Drop(last, 1) == [0x61, 0xd83d, 0xd83d, 0xde00];
    assert Drop(Drop(last, 1), 1) == [0xd83d, 0xd83d, 0xde00];
    assert Drop([0xd83d, 0xd83d, 0xde00], 2) == [0xde00];
    assert Drop([0xde00], 2) == [];
  }

  // ----- Determinism

  lemma {:induction false} InsertContentBytes(x: ContextItem, s: seq<ContextItem>, leq: (ContextItem, ContextItem) -> bool)
    ensures ContentBytes(Insert(x, s, leq)) == Bytes(x.content) + ContentBytes(s)
  {
    if !(s == [] || leq(x, s[0])) {
      InsertContentBytes(x, s[1..], leq);
    }
  }

  lemma {:induction false} SortContentBytes(s: seq<ContextItem>, leq: (ContextItem, ContextItem) -> bool)
    ensures ContentBytes(StableSort(s, leq)) == ContentBytes(s)
  {
    if s != [] {
      SortContentBytes(s[1..], leq);
      InsertContentBytes(s[0], StableSort(s[1..], leq), leq);
    }
  }

  ghost predicate DistinctItemKeys(items: seq<ContextItem>) {
    forall i, j :: 0 <= i < j < |items| ==> items[i].key != items[j].key
  }

  lemma RankingIsPreorder(keyLeq: (string, string) -> bool)
    requires KeyOrder(keyLeq)
    ensures TotalPreorder(RanksBefore(keyLeq))
  {
    var leq := RanksBefore(keyLeq);
    forall a, b
      ensures leq(a, b) || leq(b, a)
    {
      assert keyLeq(a.key, b.key) || keyLeq(b.key, a.key);
    }
    forall a, b, c | leq(a, b) && leq(b, c)
      ensures leq(a, c)
    {
      assert keyLeq(a.key, b.key) && keyLeq(b.key, c.key) ==> keyLeq(a.key, c.key);
    }
  }

  /** Any reordering of items with distinct keys gives the identical result. */
  lemma OrderOfInputIrrelevant(items: seq<ContextItem>, shuffled: seq<ContextItem>, opts: Options,
                               keyLeq: (string, string) -> bool)
    requires KeyOrder(keyLeq) && DistinctItemKeys(items) && multiset(items) == multiset(shuffled)
    ensures BudgetSpec(items, opts, keyLeq) == BudgetSpec(shuffled, opts, keyLeq)
  {
    var leq := RanksBefore(keyLeq);
    RankingIsPreorder(keyLeq);
    forall a, b | a in items && b in items && leq(a, b) && leq(b, a)
      ensures a == b
    {
      var i :| 0 <= i < |items| && items[i] == a;
      var j :| 0 <= j < |items| && items[j] == b;
      assert items[i].key == items[j].key;
    }
    SortCanonical(items, shuffled, leq);
    SortContentBytes(items, leq);
    SortContentBytes(shuffled, leq);
    assert |items| == |multiset(items)| == |multiset(shuffled)| == |shuffled|;
  }

  /** The ranking is a rearrangement of the items by falling score, ties by key. */
  lemma RankedByScore(items: seq<ContextItem>, keyLeq: (string, string) -> bool)
    requires KeyOrder(keyLeq)
    ensures var ranked := RankItems(items, keyLeq);
            && multiset(ranked) == multiset(items)
            && forall i, j :: 0 <= i < j < |ranked| ==>
                 RankScore(ranked[i]) > RankScore(ranked[j])
                 || (RankScore(ranked[i]) == RankScore(ranked[j]) && keyLeq(ranked[i].key, ranked[j].key))
  {
    RankingIsPreorder(keyLeq);
    SortPermutes(items, RanksBefore(keyLeq));
    SortSorted(items, RanksBefore(keyLeq));
  }
}
