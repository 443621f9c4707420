/** Sequence helpers shared by the models: filtering, and the stable sort that
    ECMAScript's `Array.prototype.sort` performs. */
module Sequences {

  datatype Option<+T> = None | Some(value: T)

  /** The elements of `s` that satisfy `p`, in order. */
  function Filter<T(!new)>(s: seq<T>, p: T -> bool): (r: seq<T>)
    ensures forall x :: x in r <==> x in s && p(x)
  {
    if s == [] then []
    else if p(s[0]) then [s[0]] + Filter(s[1..], p)
    else Filter(s[1..], p)
  }

  lemma FilterExtensional<T(!new)>(s: seq<T>, p: T -> bool, q: T -> bool)
    requires forall x :: x in s ==> p(x) == q(x)
    ensures Filter(s, p) == Filter(s, q)
  {
    if s != [] {
      assert s[0] in s;
      FilterExtensional(s[1..], p, q);
    }
  }

  lemma FilterAppend<T(!new)>(s: seq<T>, t: seq<T>, p: T -> bool)
    ensures Filter(s + t, p) == Filter(s, p) + Filter(t, p)
  {
    if s == [] {
      assert s + t == t;
    } else {
      assert (s + t)[1..] == s[1..] + t;
      FilterAppend(s[1..], t, p);
    }
  }

  lemma FilterOne<T(!new)>(x: T, p: T -> bool)
    ensures Filter([x], p) == if p(x) then [x] else []
  {
    assert [x][1..] == [];
    assert Filter([x][1..], p) == [];
  }

  function Map<T, U>(s: seq<T>, f: T -> U): (r: seq<U>)
    ensures |r| == |s| && forall i :: 0 <= i < |s| ==> r[i] == f(s[i])
  {
    seq(|s|, i requires 0 <= i < |s| => f(s[i]))
  }

  ghost predicate Distinct<T>(s: seq<T>) {
    forall i, j :: 0 <= i < j < |s| ==> s[i] != s[j]
  }

  // ----- Stable sorting

  ghost predicate TotalPreorder<T(!new)>(leq: (T, T) -> bool) {
    && (forall a, b :: leq(a, b) || leq(b, a))
    && (forall a, b, c :: leq(a, b) && leq(b, c) ==> leq(a, c))
  }

  ghost predicate Sorted<T>(s: seq<T>, leq: (T, T) -> bool) {
    forall i, j :: 0 <= i < j < |s| ==> leq(s[i], s[j])
  }

  function Insert<T>(x: T, s: seq<T>, leq: (T, T) -> bool): seq<T> {
    if s == [] || leq(x, s[0]) then [x] + s
    else [s[0]] + Insert(x, s[1..], leq)
  }

  /** `[...s].sort(...)`: elements that compare equal keep their order. */
  function StableSort<T>(s: seq<T>, leq: (T, T) -> bool): seq<T> {
    if s == [] then [] else Insert(s[0], StableSort(s[1..], leq), leq)
  }

  lemma SortSingleton<T>(x: T, leq: (T, T) -> bool)
    ensures StableSort([x], leq) == [x]
  {
    assert [x][1..] == [];
    assert StableSort([x][1..], leq) == [];
  }

  lemma InsertPermutes<T>(x: T, s: seq<T>, leq: (T, T) -> bool)
    ensures multiset(Insert(x, s, leq)) == multiset{x} + multiset(s)
  {
    if !(s == [] || leq(x, s[0])) {
      InsertPermutes(x, s[1..], leq);
      assert s == [s[0]] + s[1..];
    }
  }

  lemma {:induction false} SortPermutes<T>(s: seq<T>, leq: (T, T) -> bool)
    ensures multiset(StableSort(s, leq)) == multiset(s)
    ensures |StableSort(s, leq)| == |s|
    ensures forall x :: x in StableSort(s, leq) <==> x in s
  {
    if s != [] {
      SortPermutes(s[1..], leq);
      InsertPermutes(s[0], StableSort(s[1..], leq), leq);
      assert s == [s[0]] + s[1..];
    }
    assert |multiset(StableSort(s, leq))| == |multiset(s)|;
    forall x
      ensures x in StableSort(s, leq) <==> x in s
    {
      assert x in StableSort(s, leq) <==> x in multiset(StableSort(s, leq));
      assert x in s <==> x in multiset(s);
    }
  }

  lemma InsertSorted<T(!new)>(x: T, s: seq<T>, leq: (T, T) -> bool)
    requires TotalPreorder(leq) && Sorted(s, leq)
    ensures Sorted(Insert(x, s, leq), leq)
  {
    if s == [] || leq(x, s[0]) {
    } else {
      InsertSorted(x, s[1..], leq);
      var r := Insert(x, s[1..], leq);
      InsertPermutes(x, s[1..], leq);
      forall i | 0 <= i < |r|
        ensures leq(s[0], r[i])
      {
        assert r[i] in multiset(r);
      }
    }
  }

  lemma {:induction false} SortSorted<T(!new)>(s: seq<T>, leq: (T, T) -> bool)
    requires TotalPreorder(leq)
    ensures Sorted(StableSort(s, leq), leq)
  {
    if s != [] {
      SortSorted(s[1..], leq);
      InsertSorted(s[0], StableSort(s[1..], leq), leq);
    }
  }

  lemma TailElements<T>(s: seq<T>, t: seq<T>)
    requires multiset(s) == multiset(t) && s != [] && t != [] && s[0] == t[0]
    ensures multiset(s[1..]) == multiset(t[1..])
    ensures |s| == |t|
  {
    assert s == [s[0]] + s[1..] && t == [t[0]] + t[1..];
    assert multiset(s[1..]) == multiset(s) - multiset{s[0]};
    assert multiset(t[1..]) == multiset(t) - multiset{t[0]};
    assert |s| == |multiset(s)| == |multiset(t)| == |t|;
  }

  lemma LeastFirst<T(!new)>(s: seq<T>, t: seq<T>, leq: (T, T) -> bool)
    requires TotalPreorder(leq) && Sorted(s, leq) && s != []
    requires multiset(s) == multiset(t)
    ensures forall x :: x in t ==> leq(s[0], x)
  {
    forall x | x in t
      ensures leq(s[0], x)
    {
      assert x in multiset(s);
      var i :| 0 <= i < |s| && s[i] == x;
    }
  }

  /** Two sorted arrangements of the same elements agree when the order is
      antisymmetric on them. */
  lemma {:induction false} SortedUnique<T(!new)>(s: seq<T>, t: seq<T>, leq: (T, T) -> bool)
    requires TotalPreorder(leq)
    requires multiset(s) == multiset(t)
    requires Sorted(s, leq) && Sorted(t, leq)
    requires forall a, b :: a in s && b in s && leq(a, b) && leq(b, a) ==> a == b
    ensures s == t
  {
    if s == [] {
      assert |multiset(t)| == 0;
    } else {
      assert s[0] in multiset(t);
      LeastFirst(s, t, leq);
      LeastFirst(t, s, leq);
      assert t[0] in multiset(s);
      assert s[0] == t[0];
      TailElements(s, t);
      SortedUnique(s[1..], t[1..], leq);
      assert s == [s[0]] + s[1..] && t == [t[0]] + t[1..];
    }
  }

  /** Sorting forgets the order of its input when the order is antisymmetric on it. */
  lemma SortCanonical<T(!new)>(s: seq<T>, t: seq<T>, leq: (T, T) -> bool)
    requires TotalPreorder(leq)
    requires multiset(s) == multiset(t)
    requires forall a, b :: a in s && b in s && leq(a, b) && leq(b, a) ==> a == b
    ensures StableSort(s, leq) == StableSort(t, leq)
  {
    SortPermutes(s, leq);
    SortPermutes(t, leq);
    SortSorted(s, leq);
    SortSorted(t, leq);
    SortedUnique(StableSort(s, leq), StableSort(t, leq), leq);
  }

  ghost predicate Ties<T>(leq: (T, T) -> bool, x: T, y: T) {
    leq(x, y) && leq(y, x)
  }

  lemma InsertStable<T(!new)>(x: T, s: seq<T>, leq: (T, T) -> bool, y: T)
    requires TotalPreorder(leq) && Sorted(s, leq)
    ensures Filter(Insert(x, s, leq), z => Ties(leq, z, y)) == Filter([x] + s, z => Ties(leq, z, y))
  {
    var p := z => Ties(leq, z, y);
    if s == [] || leq(x, s[0]) {
    } else {
      InsertStable(x, s[1..], leq, y);
      FilterAppend([s[0]], Insert(x, s[1..], leq), p);
      FilterAppend([x], s, p);
      FilterAppend([x], s[1..], p);
      FilterAppend([s[0]], s[1..], p);
      assert s == [s[0]] + s[1..];
      assert !(p(x) && p(s[0]));
    }
  }

  /** Stability: the elements that tie with `y` come out in their input order. */
  lemma {:induction false} SortStable<T(!new)>(s: seq<T>, leq: (T, T) -> bool, y: T)
    requires TotalPreorder(leq)
    ensures Filter(StableSort(s, leq), z => Ties(leq, z, y)) == Filter(s, z => Ties(leq, z, y))
  {
    if s != [] {
      var p := z => Ties(leq, z, y);
      SortStable(s[1..], leq, y);
      SortSorted(s[1..], leq);
      InsertStable(s[0], StableSort(s[1..], leq), leq, y);
      FilterAppend([s[0]], StableSort(s[1..], leq), p);
      FilterAppend([s[0]], s[1..], p);
      assert s == [s[0]] + s[1..];
    }
  }

  /** A total order on keys, as `localeCompare(...) <= 0` is taken to be. */
  ghost predicate KeyOrder(keyLeq: (string, string) -> bool) {
    TotalPreorder(keyLeq) && forall a, b :: keyLeq(a, b) && keyLeq(b, a) ==> a == b
  }

  lemma {:induction false} DistinctMultiset<T>(s: seq<T>, x: T)
    requires Distinct(s)
    ensures multiset(s)[x] == if x in s then 1 else 0
  {
    if s != [] {
      DistinctMultiset(s[1..], x);
      assert s == [s[0]] + s[1..];
    }
  }

  /** Sequences without repetitions are permutations of each other when they have the same elements. */
  lemma SameElements<T(!new)>(s: seq<T>, t: seq<T>)
    requires Distinct(s) && Distinct(t) && forall x :: x in s <==> x in t
    ensures multiset(s) == multiset(t)
  {
    forall x
      ensures multiset(s)[x] == multiset(t)[x]
    {
      DistinctMultiset(s, x);
      DistinctMultiset(t, x);
    }
  }

  lemma {:induction false} FilterDistinct<T(!new)>(s: seq<T>, p: T -> bool)
    requires Distinct(s)
    ensures Distinct(Filter(s, p))
  {
    if s != [] {
      FilterDistinct(s[1..], p);
      var r := Filter(s[1..], p);
      assert forall j :: 0 <= j < |r| ==> r[j] in r && r[j] in s[1..];
    }
  }
}
