/** Counting UTF-8 bytes over UTF-16 code units. The reference is the encoding
    itself: surrogate pairs as in section 2.2 of RFC 2781, bytes as in section 3 of RFC 3629. */
module Utf8 {

  newtype CodeUnit = x: int | 0 <= x < 0x1_0000
  newtype Byte = x: int | 0 <= x < 0x100

  type Text = seq<CodeUnit>

  predicate IsSurrogate(c: CodeUnit) { 0xd800 <= c < 0xe000 }

  predicate IsHigh(c: CodeUnit) { 0xd800 <= c < 0xdc00 }

  predicate IsLow(c: CodeUnit) { 0xdc00 <= c < 0xe000 }

  // ----- byteLength

  /** Code units and bytes that the counter takes at the front of a text. It steps over
      whatever follows a surrogate, without looking at it. */
  function UnitBytes(c: CodeUnit): nat {
    if c < 0x80 then 1 else if c < 0x800 then 2 else if c < 0xd800 || c >= 0xe000 then 3 else 4
  }

  function Stride(c: CodeUnit): nat { if IsSurrogate(c) then 2 else 1 }

  function Drop(s: Text, n: nat): Text { if n <= |s| then s[n..] else [] }

  function Bytes(s: Text): nat
    decreases |s|
  {
    if s == [] then 0 else UnitBytes(s[0]) + Bytes(Drop(s, Stride(s[0])))
  }

  lemma BytesFrom(s: Text, i: nat)
    ensures i >= |s| ==> Bytes(Drop(s, i)) == 0
    ensures i < |s| ==> Bytes(Drop(s, i)) == UnitBytes(s[i]) + Bytes(Drop(s, i + Stride(s[i])))
  {
    if i < |s| {
      assert Drop(s, i)[0] == s[i];
      DropTwice(s, i, Stride(s[i]));
    }
  }

  lemma DropTwice(s: Text, i: nat, k: nat)
    ensures Drop(Drop(s, i), k) == Drop(s, i + k)
  {
    hide Bytes;
  }

  method ByteLength(s: Text) returns (n: nat)
    ensures n == Bytes(s)
  {
    assert Drop(s, 0) == s;
    hide Bytes, Drop;
    n := 0;
    var i := 0;
    while i < |s|
      invariant 0 <= i
      invariant n + Bytes(Drop(s, i)) == Bytes(s)
    {
      var c := s[i];
      BytesFrom(s, i);
      if c < 0x80 {
        n := n + 1;
      } else if c < 0x800 {
        n := n + 2;
      } else if c < 0xd800 || c >= 0xe000 {
        n := n + 3;
      } else {
        i := i + 1;
        n := n + 4;
      }
      i := i + 1;
    }
    BytesFrom(s, i);
  }

  // ----- The reference encoding

  /** Every surrogate belongs to a high-low pair. */
  predicate WellFormed(s: Text) {
    s == [] ||
    if IsSurrogate(s[0]) then IsHigh(s[0]) && |s| >= 2 && IsLow(s[1]) && WellFormed(s[2..])
    else WellFormed(s[1..])
  }

  type Scalar = x: int | 0 <= x < 0xd800 || 0xe000 <= x < 0x11_0000

  function Decode(s: Text): seq<Scalar>
    requires WellFormed(s)
  {
    if s == [] then []
    else if IsSurrogate(s[0]) then
      [0x1_0000 + (s[0] as int - 0xd800) * 0x400 + (s[1] as int - 0xdc00)] + Decode(s[2..])
    else [s[0] as int] + Decode(s[1..])
  }

  function EncodeScalar(x: Scalar): seq<Byte> {
    if x < 0x80 then [x as Byte]
    else if x < 0x800 then [(0xc0 + x / 0x40) as Byte, (0x80 + x % 0x40) as Byte]
    else if x < 0x1_0000 then
      [(0xe0 + x / 0x1000) as Byte, (0x80 + x / 0x40 % 0x40) as Byte, (0x80 + x % 0x40) as Byte]
    else
      [(0xf0 + x / 0x4_0000) as Byte, (0x80 + x / 0x1000 % 0x40) as Byte,
       (0x80 + x / 0x40 % 0x40) as Byte, (0x80 + x % 0x40) as Byte]
  }

  function Encode(xs: seq<Scalar>): seq<Byte> {
    if xs == [] then [] else EncodeScalar(xs[0]) + Encode(xs[1..])
  }

  /** On well-formed UTF-16 the counter gives the length of the UTF-8 encoding. */
  lemma {:induction false} BytesIsUtf8Length(s: Text)
    requires WellFormed(s)
    ensures Bytes(s) == |Encode(Decode(s))|
  {
    if s != [] {
      BytesIsUtf8Length(s[Stride(s[0])..]);
      assert Decode(s)[1..] == Decode(s[Stride(s[0])..]);
    }
  }

  // ----- Subadditivity

  lemma {:induction false} BytesTail(s: Text)
    requires s != []
    ensures Bytes(s[1..]) <= Bytes(s)
    decreases |s|
  {
    if IsSurrogate(s[0]) && |s| > 1 {
      assert Drop(s, 2) == s[1..][1..];
      if IsSurrogate(s[1]) && |s| > 2 {
        assert Drop(s[1..], 2) == s[3..] == s[2..][1..];
        BytesTail(s[2..]);
      }
    }
  }

  /** Joining texts can only lose bytes: a trailing surrogate swallows the unit that follows. */
  lemma {:induction false} BytesSubadditive(a: Text, b: Text)
    ensures Bytes(a + b) <= Bytes(a) + Bytes(b)
    decreases |a|
  {
    if a == [] {
      assert a + b == b;
    } else if Stride(a[0]) <= |a| {
      assert Drop(a + b, Stride(a[0])) == a[Stride(a[0])..] + b;
      BytesSubadditive(a[Stride(a[0])..], b);
    } else if b != [] {
      assert Drop(a + b, 2) == b[1..];
      BytesTail(b);
    } else {
      assert a + b == a;
    }
  }

  predicate NoSurrogates(s: Text) {
    forall i :: 0 <= i < |s| ==> !IsSurrogate(s[i])
  }

  // ----- Whole characters

  /** `a` ends where the counter would start a new character. */
  predicate Whole(a: Text)
    decreases |a|
  {
    a == [] || (Stride(a[0]) <= |a| && Whole(a[Stride(a[0])..]))
  }

  /** A text that begins with the character `c`, which is followed by `rest`. */
  lemma FirstCharacter(c: Text, rest: Text)
    requires c != [] && |c| == Stride(c[0])
    ensures Bytes(c + rest) == UnitBytes(c[0]) + Bytes(rest)
    ensures Whole(c + rest) <==> Whole(rest)
  {
    assert Drop(c + rest, |c|) == (c + rest)[|c|..] == rest;
  }

  lemma CutAt(a: Text, b: Text, k: nat)
    requires k <= |a|
    ensures a == a[..k] + a[k..] && a + b == a[..k] + (a[k..] + b)
  {
    hide *;
  }

  /** After whole characters the counter starts afresh. */
  lemma {:induction false} WholeThen(a: Text, b: Text)
    requires Whole(a)
    ensures Bytes(a + b) == Bytes(a) + Bytes(b)
    ensures Whole(b) ==> Whole(a + b)
    decreases |a|
  {
    if a == [] {
      assert a + b == b;
    } else {
      var k := Stride(a[0]);
      assert k <= |a| && Whole(a[k..]);
      hide Bytes, Whole, UnitBytes, IsSurrogate, Stride;
      CutAt(a, b, k);
      WholeThen(a[k..], b);
      FirstCharacter(a[..k], a[k..]);
      FirstCharacter(a[..k], a[k..] + b);
    }
  }

  lemma OneCharacter(c: Text)
    requires c != [] && |c| == Stride(c[0])
    ensures Whole(c) && Bytes(c) == UnitBytes(c[0])
  {
    assert Drop(c, Stride(c[0])) == [];
  }

  /** The next whole character of `s` after `s[..i]`. */
  lemma NextCharacter(s: Text, i: nat)
    requires i < |s| && Whole(s[..i]) && i + Stride(s[i]) <= |s|
    ensures Whole(s[..i + Stride(s[i])])
    ensures Bytes(s[..i + Stride(s[i])]) == Bytes(s[..i]) + UnitBytes(s[i])
  {
    var j := i + Stride(s[i]);
    assert s[i..j][0] == s[i];
    OneCharacter(s[i..j]);
    WholeThen(s[..i], s[i..j]);
    assert s[..i] + s[i..j] == s[..j];
  }

  /** A surrogate in last place counts as a whole pair. */
  lemma TrailingSurrogate(a: Text, c: CodeUnit, b: Text)
    requires Whole(a) && IsSurrogate(c)
    ensures Bytes(a + [c] + b) == Bytes(a) + 4 + Bytes(Drop(b, 1))
  {
    var tail := [c] + b;
    WholeThen(a, tail);
    assert a + tail == a + [c] + b;
    assert tail[0] == c && Drop(tail, 2) == Drop(b, 1);
  }
}
