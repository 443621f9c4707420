/** When a hard truncation cuts a surrogate pair in two. */
module SurrogateSplits {
  import opened Arithmetic
  import opened Utf8
  import opened ContextBudgeter

  /** The limit falls strictly inside the surrogate pair that starts at `k`. */
  ghost predicate Straddles(s: Text, maxBytes: int, k: nat) {
    k < |s| && Whole(s[..k]) && IsSurrogate(s[k]) && Bytes(s[..k]) < maxBytes < Bytes(s[..k]) + 4
  }

  lemma {:induction false} HalfPairAtEnd(a: Text, c: CodeUnit)
    requires Whole(a) && IsSurrogate(c)
    ensures !WellFormed(a + [c]) && !Whole(a + [c])
    decreases |a|
  {
    if a != [] {
      var rest := Drop(a, Stride(a[0]));
      HalfPairAtEnd(rest, c);
      assert (a + [c])[Stride(a[0])..] == rest + [c];
    }
  }

  lemma {:induction false} WholePrefixWellFormed(a: Text, b: Text)
    requires Whole(a) && WellFormed(a + b)
    ensures WellFormed(a)
    decreases |a|
  {
    if a != [] {
      var rest := Drop(a, Stride(a[0]));
      assert (a + b)[Stride(a[0])..] == rest + b;
      WholePrefixWellFormed(rest, b);
    }
  }

  lemma PrefixMonotone(s: Text, i: nat, k: nat)
    requires i <= k <= |s| && Whole(s[..i])
    ensures Bytes(s[..i]) <= Bytes(s[..k])
  {
    WholeThen(s[..i], s[i..k]);
    assert s[..i] + s[i..k] == s[..k];
  }

  lemma NoneBeyond(s: Text, maxBytes: int, i: nat)
    requires i <= |s| && Whole(s[..i]) && Bytes(s[..i]) >= maxBytes
    ensures forall k :: i <= k ==> !Straddles(s, maxBytes, k)
  {
    forall k | i <= k < |s|
      ensures Bytes(s[..k]) >= maxBytes
    {
      PrefixMonotone(s, i, k);
    }
  }

  /** Past a whole character nothing starts in its middle. */
  lemma NoneInside(s: Text, maxBytes: int, i: nat)
    requires i < |s| && Whole(s[..i]) && i + Stride(s[i]) <= |s|
    requires !IsSurrogate(s[i]) || Bytes(s[..i]) + 4 <= maxBytes
    ensures forall k :: i <= k < i + Stride(s[i]) ==> !Straddles(s, maxBytes, k)
  {
    if IsSurrogate(s[i]) {
      HalfPairAtEnd(s[..i], s[i]);
      assert s[..i] + [s[i]] == s[..i + 1];
    }
  }

  lemma SplitHere(s: Text, maxBytes: int, i: nat)
    requires i < |s| && Whole(s[..i]) && IsSurrogate(s[i]) && Bytes(s[..i]) < maxBytes < Bytes(s[..i]) + 4
    ensures Straddles(s, maxBytes, i) && !WellFormed(s[..i + 1])
  {
    hide Bytes, Whole, WellFormed;
    HalfPairAtEnd(s[..i], s[i]);
    assert s[..i] + [s[i]] == s[..i + 1];
  }

  lemma WholeStaysWellFormed(s: Text, i: nat)
    requires WellFormed(s) && i <= |s| && Whole(s[..i])
    ensures WellFormed(s[..i])
  {
    hide Whole, WellFormed;
    assert s == s[..i] + s[i..];
    WholePrefixWellFormed(s[..i], s[i..]);
  }

  lemma {:induction false} SplitsFrom(s: Text, maxBytes: int, i: nat, n: nat)
    requires WellFormed(s) && i <= |s| && Whole(s[..i]) && n == Bytes(s[..i]) && n <= Max(0, maxBytes) < Bytes(s)
    ensures var cut := CutIndex(s, maxBytes, i, n);
            && cut <= |s|
            && (!WellFormed(s[..cut]) <==> exists k :: i <= k && Straddles(s, maxBytes, k))
    decreases |s| - i
  {
    hide Bytes, Whole, WellFormed, Straddles;
    CutStaysInside(s, maxBytes, i);
    var c := s[i];
    WholeStaysWellFormed(s, i);
    if n >= maxBytes {
      NoneBeyond(s, maxBytes, i);
    } else if n + UnitBytes(c) > maxBytes {
      if IsSurrogate(c) {
        SplitHere(s, maxBytes, i);
      } else {
        NextCharacter(s, i);
        NoneBeyond(s, maxBytes, i + 1);
        NoneInside(s, maxBytes, i);
      }
    } else {
      NextCharacter(s, i);
      NoneInside(s, maxBytes, i);
      SplitsFrom(s, maxBytes, i + Stride(c), n + UnitBytes(c));
    }
  }

  /** A text that is cut keeps its pairs whole exactly when the limit does not fall strictly
      inside one. */
  lemma CutsPairIff(s: Text, maxBytes: int)
    requires WellFormed(s) && Max(0, maxBytes) < Bytes(s)
    ensures var cut := CutIndex(s, maxBytes, 0, 0);
            && cut <= |s|
            && (!WellFormed(s[..cut]) <==> exists k :: Straddles(s, maxBytes, k))
  {
    assert Whole(s[..0]) && Bytes(s[..0]) == 0;
    SplitsFrom(s, maxBytes, 0, 0);
  }
}
