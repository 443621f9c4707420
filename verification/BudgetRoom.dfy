/** Exactly when the output of the budgeter stays within the budget, for every suffix. */
module BudgetRoom {
  import opened Arithmetic
  import opened Sequences
  import opened Utf8
  import opened SurrogateSplits
  import opened ContextBudgeter

  /** Behind the last whole character of `s` that fits in `maxBytes`, `need` bytes are left,
      and the limit does not fall inside a surrogate pair. */
  ghost predicate LeavesRoom(s: Text, maxBytes: int, need: nat) {
    exists k :: RoomAt(s, maxBytes, need, k)
  }

  ghost predicate RoomAt(s: Text, maxBytes: int, need: nat, k: nat) {
    && k < |s| && Whole(s[..k])
    && Bytes(s[..k]) + need <= maxBytes < Bytes(s[..k]) + UnitBytes(s[k])
    && (Bytes(s[..k]) == maxBytes || !IsSurrogate(s[k]))
  }

  /** Past the next whole character everything takes more bytes. */
  lemma NextIsBeyond(s: Text, i: nat, k: nat)
    requires i < k < |s| && Whole(s[..i]) && Whole(s[..k])
    ensures Bytes(s[..i]) + UnitBytes(s[i]) <= Bytes(s[..k])
  {
    hide Bytes, Whole;
    if IsSurrogate(s[i]) {
      HalfPairAtEnd(s[..i], s[i]);
      assert s[..i] + [s[i]] == s[..i + 1];
    }
    assert i + Stride(s[i]) <= k;
    NextCharacter(s, i);
    PrefixMonotone(s, i + Stride(s[i]), k);
  }

  /** A cut text fits its limit together with the suffix exactly when the cut leaves room for it. */
  lemma TruncatedFitsIff(s: Text, maxBytes: int, suffix: Text)
    requires Bytes(s) > maxBytes
    ensures Bytes(Truncated(s, maxBytes, suffix)) <= maxBytes <==> LeavesRoom(s, maxBytes, Bytes(suffix))
  {
    if 0 <= maxBytes {
      var k, split := CutShape(s, maxBytes, 0, 0);
      TruncatedBytes(s, maxBytes, suffix, k, split);
      hide Bytes, Whole, Truncated, Drop;
      if Bytes(Truncated(s, maxBytes, suffix)) <= maxBytes {
        assert RoomAt(s, maxBytes, Bytes(suffix), k);
      }
      if LeavesRoom(s, maxBytes, Bytes(suffix)) {
        var j :| RoomAt(s, maxBytes, Bytes(suffix), j);
        SameCut(s, maxBytes, Bytes(suffix), j, k, split);
      }
    }
  }

  lemma SameCut(s: Text, maxBytes: int, need: nat, j: nat, k: nat, split: bool)
    requires 0 <= maxBytes && RoomAt(s, maxBytes, need, j)
    requires CutsAt(s, maxBytes, if split then k + 1 else k, k, split)
    ensures j == k && !split
  {
    hide Bytes, Whole;
    if j < k {
      NextIsBeyond(s, j, k);
    } else if k < j {
      NextIsBeyond(s, k, j);
    }
  }

  // ----- The whole output

  /** Ranked item `j` fits what is left when its turn comes, or its cut leaves room for the suffix. */
  ghost predicate FitsItsTurn(ranked: seq<ContextItem>, opts: Options, j: nat)
    requires j < |ranked|
  {
    var left, text := FillAll(ranked[..j], opts).remaining, Capped(ranked[j], opts);
    Bytes(text) <= left || LeavesRoom(text, left, Bytes(opts.suffix))
  }

  lemma FitsTurnIff(fill: Fill, item: ContextItem, opts: Options)
    requires fill.remaining >= 0 && |fill.output| < opts.minItems
    ensures var text := Capped(item, opts);
            Place(fill, item, opts).remaining >= 0 <==>
            Bytes(text) <= fill.remaining || LeavesRoom(text, fill.remaining, Bytes(opts.suffix))
  {
    hide Bytes, Capped, Truncated, LeavesRoom;
    if Bytes(Capped(item, opts)) > fill.remaining {
      TruncatedFitsIff(Capped(item, opts), fill.remaining, opts.suffix);
    }
  }

  /** Among the first `n` ranked items every guaranteed one fits its turn. */
  ghost predicate AllFit(ranked: seq<ContextItem>, opts: Options, n: nat)
    requires n <= |ranked|
  {
    forall j :: 0 <= j < Min(n, Max(0, opts.minItems)) ==> FitsItsTurn(ranked, opts, j)
  }

  lemma AllFitNext(ranked: seq<ContextItem>, opts: Options, n: nat)
    requires n < |ranked|
    ensures AllFit(ranked, opts, n + 1) <==>
            AllFit(ranked, opts, n) && (n < opts.minItems ==> FitsItsTurn(ranked, opts, n))
  {
    hide FitsItsTurn;
  }

  lemma TurnIff(ranked: seq<ContextItem>, opts: Options, n: nat)
    requires n < |ranked|
    requires FillAll(ranked[..n], opts).remaining >= 0 && |FillAll(ranked[..n], opts).output| < opts.minItems
    ensures Place(FillAll(ranked[..n], opts), ranked[n], opts).remaining >= 0 <==> FitsItsTurn(ranked, opts, n)
  {
    hide FillAll, Place, Bytes, Capped, LeavesRoom;
    FitsTurnIff(FillAll(ranked[..n], opts), ranked[n], opts);
  }

  /** `n` items have been tried, and `fits` says that the guaranteed ones among them fitted. */
  ghost predicate Stands(fill: Fill, opts: Options, n: nat, fits: bool) {
    && (n <= Max(0, opts.minItems) ==> |fill.output| == n)
    && (n >= Max(0, opts.minItems) ==> |fill.output| >= Max(0, opts.minItems))
    && (fill.remaining >= 0 <==> opts.totalBudgetBytes >= 0 && fits)
  }

  lemma StandsNext(fill: Fill, item: ContextItem, opts: Options, n: nat, fits: bool, next: bool)
    requires Stands(fill, opts, n, fits)
    requires n < opts.minItems && fill.remaining >= 0 ==> (Place(fill, item, opts).remaining >= 0 <==> next)
    ensures Stands(Place(fill, item, opts), opts, n + 1, fits && (n < opts.minItems ==> next))
  {
    PlaceSigns(fill, item, opts);
    hide Place, Drops;
  }

  lemma StandsFirst(ranked: seq<ContextItem>, opts: Options)
    ensures Stands(FillAll([], opts), opts, 0, AllFit(ranked, opts, 0))
  {
    hide FitsItsTurn;
  }

  lemma {:induction false} RemainingIff(ranked: seq<ContextItem>, opts: Options, n: nat)
    requires n <= |ranked|
    ensures Stands(FillAll(ranked[..n], opts), opts, n, AllFit(ranked, opts, n))
  {
    hide Stands, AllFit, Place, FillAll, FitsItsTurn;
    if n == 0 {
      assert ranked[..0] == [];
      StandsFirst(ranked, opts);
    } else {
      var fill, item := FillAll(ranked[..n - 1], opts), ranked[n - 1];
      RemainingIff(ranked, opts, n - 1);
      FillNext(ranked, n - 1, opts);
      AllFitNext(ranked, opts, n - 1);
      if n - 1 < opts.minItems && fill.remaining >= 0 {
        StandsCount(fill, opts, n - 1, AllFit(ranked, opts, n - 1));
        TurnIff(ranked, opts, n - 1);
      }
      StandsNext(fill, item, opts, n - 1, AllFit(ranked, opts, n - 1), FitsItsTurn(ranked, opts, n - 1));
    }
  }

  lemma StandsCount(fill: Fill, opts: Options, n: nat, fits: bool)
    requires Stands(fill, opts, n, fits) && n < opts.minItems
    ensures |fill.output| == n
  {
  }

  /** What is left never becomes non-negative again, and only guaranteed items can use it up. */
  lemma PlaceSigns(fill: Fill, item: ContextItem, opts: Options)
    ensures var after := Place(fill, item, opts);
            && (fill.remaining < 0 ==> after.remaining < 0)
            && (fill.remaining >= 0 && |fill.output| >= opts.minItems ==> after.remaining >= 0)
            && |after.output| == |fill.output| + (if Drops(fill, item, opts) then 0 else 1)
            && (Drops(fill, item, opts) ==> |fill.output| >= opts.minItems)
  {
    hide Bytes, Capped, Truncated;
  }

  /** For every suffix: the output stays within the budget exactly when each guaranteed item
      either fits what those before it leave, or is cut where room for the suffix remains. */
  lemma WithinBudgetIffRoom(items: seq<ContextItem>, opts: Options, keyLeq: (string, string) -> bool)
    ensures var ranked := RankItems(items, keyLeq);
            BudgetSpec(items, opts, keyLeq).metrics.budgetedBytes <= opts.totalBudgetBytes <==>
            opts.totalBudgetBytes >= 0 && AllFit(ranked, opts, |ranked|)
  {
    hide AllFit, BudgetSpec, FillAll, RankItems;
    var ranked := RankItems(items, keyLeq);
    NothingUnaccounted(items, opts, keyLeq);
    RemainingIff(ranked, opts, |ranked|);
    assert ranked[..|ranked|] == ranked;
  }

  /** A short suffix can fit: two bytes are left behind the first of two three-byte characters. */
  lemma ShortSuffixFits(keyLeq: (string, string) -> bool)
    ensures var content: Text := [0x20ac, 0x20ac];
            var opts := Options(5, MAX_ITEM_BYTES, 1, [0x2e, 0x2e]);
            Bytes(content) > 5 && BudgetSpec([Single(content)], opts, keyLeq).metrics.budgetedBytes <= 5
  {
    var content: Text := [0x20ac, 0x20ac];
    var suffix: Text := [0x2e, 0x2e];
    var opts := Options(5, MAX_ITEM_BYTES, 1, suffix);
    var one: Text := [0x20ac];
    assert Drop(content, 1) == one && Drop(one, 1) == [];
    assert Bytes(content) == 6;
    assert content[..1] == one && Whole(one) && Bytes(one) == 3;
    PlainBytes(suffix);
    assert RoomAt(content, 5, Bytes(suffix), 1);
    TruncatedFitsIff(content, 5, suffix);
    SingleItem(content, opts, keyLeq);
  }
}
