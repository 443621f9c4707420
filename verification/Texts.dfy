/** Trimming, joining and containment of texts, by code unit. */
module Texts {
  import opened Sequences
  import opened Utf8

  /** ECMAScript white space and line terminators. */
  predicate IsSpace(c: CodeUnit) {
    0x09 <= c <= 0x0d || c == 0x20 || c == 0xa0 || c == 0x1680 || 0x2000 <= c <= 0x200a
    || c == 0x2028 || c == 0x2029 || c == 0x202f || c == 0x205f || c == 0x3000 || c == 0xfeff
  }

  /** Tab to carriage return, space, no-break space, the Unicode spaces and separators, and the
      byte order mark. */
  const SPACES: set<CodeUnit> := {
    0x09, 0x0a, 0x0b, 0x0c, 0x0d, 0x20, 0xa0, 0x1680, 0x2000, 0x2001, 0x2002, 0x2003, 0x2004, 0x2005, 0x2006, 0x2007,
    0x2008, 0x2009, 0x200a, 0x2028, 0x2029, 0x202f, 0x205f, 0x3000, 0xfeff
  }

  lemma SpacesAre(c: CodeUnit)
    ensures IsSpace(c) <==> c in SPACES
  {
  }

  function TrimStart(s: Text): Text {
    if s != [] && IsSpace(s[0]) then TrimStart(s[1..]) else s
  }

  function TrimEnd(s: Text): Text {
    if s != [] && IsSpace(s[|s| - 1]) then TrimEnd(s[..|s| - 1]) else s
  }

  function Trim(s: Text): Text { TrimEnd(TrimStart(s)) }

  /** Begins and ends with something visible. */
  predicate Solid(s: Text) {
    s != [] && !IsSpace(s[0]) && !IsSpace(s[|s| - 1])
  }

  ghost predicate Contains(s: Text, part: Text) {
    exists a, b :: s == a + part + b
  }

  lemma ContainsWith(s: Text, a: Text, part: Text, b: Text)
    requires s == a + part + b
    ensures Contains(s, part)
  {
  }

  lemma ContainsSelf(s: Text)
    ensures Contains(s, s)
  {
    ContainsWith(s, [], s, []);
  }

  lemma ContainsTransitive(s: Text, t: Text, u: Text)
    requires Contains(s, t) && Contains(t, u)
    ensures Contains(s, u)
  {
    var a, b :| s == a + t + b;
    var c, d :| t == c + u + d;
    assert s == (a + c) + u + (d + b);
  }

  lemma {:induction false} TrimStartKeeps(s: Text, a: Text, part: Text, b: Text)
    requires s == a + part + b && Solid(part)
    ensures Contains(TrimStart(s), part)
  {
    if s != [] && IsSpace(s[0]) {
      assert a != [];
      assert s[1..] == a[1..] + part + b;
      TrimStartKeeps(s[1..], a[1..], part, b);
    }
  }

  lemma {:induction false} TrimEndKeeps(s: Text, a: Text, part: Text, b: Text)
    requires s == a + part + b && Solid(part)
    ensures Contains(TrimEnd(s), part)
  {
    if s != [] && IsSpace(s[|s| - 1]) {
      assert b != [];
      assert s[..|s| - 1] == a + part + b[..|b| - 1];
      TrimEndKeeps(s[..|s| - 1], a, part, b[..|b| - 1]);
    }
  }

  /** Trimming never cuts into a solid part. */
  lemma TrimKeeps(s: Text, part: Text)
    requires Contains(s, part) && Solid(part)
    ensures Contains(Trim(s), part)
  {
    var a, b :| s == a + part + b;
    TrimStartKeeps(s, a, part, b);
    var c, d :| TrimStart(s) == c + part + d;
    TrimEndKeeps(TrimStart(s), c, part, d);
  }

  lemma {:induction false} TrimStartFront(s: Text)
    ensures TrimStart(s) != [] ==> !IsSpace(TrimStart(s)[0])
  {
    if s != [] && IsSpace(s[0]) {
      TrimStartFront(s[1..]);
    }
  }

  lemma {:induction false} TrimEndEdges(s: Text)
    ensures var r := TrimEnd(s); r != [] ==> !IsSpace(r[|r| - 1]) && r[0] == s[0]
  {
    if s != [] && IsSpace(s[|s| - 1]) {
      TrimEndEdges(s[..|s| - 1]);
    }
  }

  /** What is left after trimming is empty or solid. */
  lemma TrimIsSolid(s: Text)
    ensures Trim(s) == [] || Solid(Trim(s))
  {
    TrimStartFront(s);
    TrimEndEdges(TrimStart(s));
  }

  ghost predicate AllSpaces(s: Text) {
    forall i :: 0 <= i < |s| ==> s[i] in SPACES
  }

  lemma {:induction false} TrimStartCuts(s: Text) returns (a: Text)
    ensures s == a + TrimStart(s) && AllSpaces(a)
  {
    if s != [] && IsSpace(s[0]) {
      var rest := TrimStartCuts(s[1..]);
      SpacesAre(s[0]);
      a := [s[0]] + rest;
      assert s == [s[0]] + s[1..];
    } else {
      a := [];
    }
  }

  lemma {:induction false} TrimEndCuts(s: Text) returns (b: Text)
    ensures s == TrimEnd(s) + b && AllSpaces(b)
  {
    if s != [] && IsSpace(s[|s| - 1]) {
      var rest := TrimEndCuts(s[..|s| - 1]);
      SpacesAre(s[|s| - 1]);
      b := rest + [s[|s| - 1]];
      assert s == s[..|s| - 1] + [s[|s| - 1]];
    } else {
      b := [];
    }
  }

  /** Trimming takes spaces off both ends, all of them and nothing else. */
  lemma TrimCutsSpaces(s: Text) returns (a: Text, b: Text)
    ensures s == a + Trim(s) + b && AllSpaces(a) && AllSpaces(b)
    ensures Trim(s) != [] ==> Trim(s)[0] !in SPACES && Trim(s)[|Trim(s)| - 1] !in SPACES
  {
    a := TrimStartCuts(s);
    b := TrimEndCuts(TrimStart(s));
    assert s == a + (Trim(s) + b);
    TrimIsSolid(s);
    if Trim(s) != [] {
      SpacesAre(Trim(s)[0]);
      SpacesAre(Trim(s)[|Trim(s)| - 1]);
    }
  }

  // ----- Sets of texts, joined

  /** `Array.from(new Set(parts))`. */
  function Dedupe<T(==)>(parts: seq<T>): seq<T> {
    if parts == [] then []
    else
      var init, last := Dedupe(parts[..|parts| - 1]), parts[|parts| - 1];
      if last in init then init else init + [last]
  }

  lemma {:induction false} DedupeElements<T(!new)>(parts: seq<T>)
    ensures forall x :: x in Dedupe(parts) <==> x in parts
    ensures Distinct(Dedupe(parts))
  {
    if parts != [] {
      DedupeElements(parts[..|parts| - 1]);
      assert parts == parts[..|parts| - 1] + [parts[|parts| - 1]];
    }
  }

  const BLANK_LINE: Text := [0x0a, 0x0a]

  function Join(parts: seq<Text>): Text {
    if parts == [] then []
    else if |parts| == 1 then parts[0]
    else parts[0] + BLANK_LINE + Join(parts[1..])
  }

  lemma {:induction false} JoinContains(parts: seq<Text>, part: Text)
    requires part in parts
    ensures Contains(Join(parts), part)
  {
    if |parts| == 1 {
      ContainsSelf(part);
    } else if part == parts[0] {
      ContainsWith(Join(parts), [], part, BLANK_LINE + Join(parts[1..]));
    } else {
      JoinContains(parts[1..], part);
      ContainsWith(Join(parts), parts[0] + BLANK_LINE, Join(parts[1..]), []);
      ContainsTransitive(Join(parts), Join(parts[1..]), part);
    }
  }

  /** `filter(Boolean)`, dedupe, join. */
  function MergeTexts(parts: seq<Text>): Text {
    Join(Dedupe(Filter(parts, (p: Text) => p != [])))
  }

  lemma MergeContains(parts: seq<Text>, part: Text)
    requires part in parts && part != []
    ensures Contains(MergeTexts(parts), part)
  {
    var solid := Filter(parts, (p: Text) => p != []);
    DedupeElements(solid);
    JoinContains(Dedupe(solid), part);
  }

  lemma MergeBlankIff(parts: seq<Text>)
    ensures MergeTexts(parts) == [] <==> forall p :: p in parts ==> p == []
  {
    var solid := Filter(parts, (p: Text) => p != []);
    if solid == [] {
      assert Dedupe(solid) == [];
      assert forall p :: p in parts ==> p !in solid;
    } else {
      var p := solid[0];
      assert p in solid;
      MergeContains(parts, p);
      var a, b :| MergeTexts(parts) == a + p + b;
    }
  }

  /** Two different texts are merged with a blank line between them; an equal or empty one adds
      nothing. */
  lemma MergeOfTwo(a: Text, b: Text)
    requires a != []
    ensures MergeTexts([a, b]) == if b == [] || b == a then a else a + [0x0a, 0x0a] + b
  {
    var p := (x: Text) => x != [];
    assert [a, b] == [a] + [b];
    FilterAppend([a], [b], p);
    FilterOne(a, p);
    FilterOne(b, p);
    assert [a][..0] == [] && [a, b][..1] == [a] && [a, b][1..] == [b];
    assert Dedupe([a]) == [a];
    if b != [] {
      assert Filter([a, b], p) == [a, b];
      assert Dedupe([a, b]) == if b == a then [a] else [a, b];
      assert Join([a]) == a && Join([a, b][1..]) == b;
      assert Join([a, b]) == a + [0x0a, 0x0a] + b;
    } else {
      assert Filter([a, b], p) == [a];
    }
  }
}
