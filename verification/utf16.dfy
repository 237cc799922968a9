/** JavaScript's `<` and `<=` on strings. A JavaScript string is a sequence
    of UTF-16 code units and is compared unit by unit; a Dafny `string` is a
    sequence of Unicode scalar values, so the order is defined on the UTF-16
    encoding of the characters. */
module Utf16 {

  predicate IsHighSurrogate(u: int) {
    0xD800 <= u < 0xDC00
  }

  predicate IsLowSurrogate(u: int) {
    0xDC00 <= u < 0xE000
  }

  /** The code units of one character: the character itself below U+10000,
      otherwise a high surrogate followed by a low surrogate. */
  function EncodeChar(c: char): (u: seq<int>)
    ensures 1 <= |u| <= 2
    ensures forall k :: 0 <= k < |u| ==> 0 <= u[k] < 0x1_0000
    ensures |u| == 1 <==> c as int < 0x1_0000
    ensures |u| == 1 ==> u[0] == c as int && !IsHighSurrogate(u[0])
    ensures |u| == 2 ==> && IsHighSurrogate(u[0]) && IsLowSurrogate(u[1])
                         && 0x1_0000 + (u[0] - 0xD800) * 0x400 + (u[1] - 0xDC00) == c as int
  {
    if c as int < 0x1_0000 then [c as int]
    else
      var v := c as int - 0x1_0000;
      [0xD800 + v / 0x400, 0xDC00 + v % 0x400]
  }

  /** The code units of a string, character by character. */
  function Encode(s: string): (u: seq<int>)
    ensures |u| >= |s|
    ensures s == [] <==> u == []
  {
    if s == [] then [] else EncodeChar(s[0]) + Encode(s[1..])
  }

  /** Lexicographic order on code units, a proper prefix first. */
  predicate UnitsLessEq(a: seq<int>, b: seq<int>)
  {
    if a == [] then true
    else if b == [] then false
    else if a[0] != b[0] then a[0] < b[0]
    else UnitsLessEq(a[1..], b[1..])
  }

  /** `a <= b` on JavaScript strings. */
  predicate LexLessEq(a: string, b: string)
  {
    UnitsLessEq(Encode(a), Encode(b))
  }

  /** Order by character code: the order `LexLessEq` would be if every
      character were one code unit. */
  predicate ScalarLessEq(a: string, b: string)
  {
    if a == [] then true
    else if b == [] then false
    else if a[0] != b[0] then a[0] < b[0]
    else ScalarLessEq(a[1..], b[1..])
  }

  lemma EncodeCharInjective(c: char, d: char)
    requires EncodeChar(c) == EncodeChar(d)
    ensures c == d
  {
    assert c as int == d as int;
  }

  /** Different strings have different code units. */
  lemma {:induction false} EncodeInjective(a: string, b: string)
    requires Encode(a) == Encode(b)
    ensures a == b
  {
    if a != [] {
      var ua, ub := EncodeChar(a[0]), EncodeChar(b[0]);
      assert Encode(a) == ua + Encode(a[1..]);
      assert Encode(b) == ub + Encode(b[1..]);
      assert ua[0] == Encode(a)[0] == ub[0];
      assert |ua| == |ub|;
      assert ua == Encode(a)[..|ua|] == ub;
      EncodeCharInjective(a[0], b[0]);
      assert Encode(a[1..]) == Encode(a)[|ua|..] == Encode(b[1..]);
      EncodeInjective(a[1..], b[1..]);
      assert a == [a[0]] + a[1..];
      assert b == [b[0]] + b[1..];
    }
  }

  lemma {:induction false} UnitsTotal(a: seq<int>, b: seq<int>)
    ensures UnitsLessEq(a, b) || UnitsLessEq(b, a)
  {
    if a != [] && b != [] && a[0] == b[0] {
      UnitsTotal(a[1..], b[1..]);
    }
  }

  lemma {:induction false} UnitsTransitive(a: seq<int>, b: seq<int>, c: seq<int>)
    requires UnitsLessEq(a, b) && UnitsLessEq(b, c)
    ensures UnitsLessEq(a, c)
  {
    if a != [] && b != [] && c != [] && a[0] == b[0] && b[0] == c[0] {
      UnitsTransitive(a[1..], b[1..], c[1..]);
    }
  }

  lemma {:induction false} UnitsAntisymmetric(a: seq<int>, b: seq<int>)
    requires UnitsLessEq(a, b) && UnitsLessEq(b, a)
    ensures a == b
  {
    if a != [] && b != [] {
      UnitsAntisymmetric(a[1..], b[1..]);
      assert a == [a[0]] + a[1..];
      assert b == [b[0]] + b[1..];
    }
  }

  lemma LexTotal(a: string, b: string)
    ensures LexLessEq(a, b) || LexLessEq(b, a)
  {
    UnitsTotal(Encode(a), Encode(b));
  }

  lemma LexTransitive(a: string, b: string, c: string)
    requires LexLessEq(a, b) && LexLessEq(b, c)
    ensures LexLessEq(a, c)
  {
    UnitsTransitive(Encode(a), Encode(b), Encode(c));
  }

  /** Two strings each at most the other are the same string, because the
      encoding loses nothing. */
  lemma LexAntisymmetric(a: string, b: string)
    requires LexLessEq(a, b) && LexLessEq(b, a)
    ensures a == b
  {
    UnitsAntisymmetric(Encode(a), Encode(b));
    EncodeInjective(a, b);
  }

  /** On strings with no character above U+FFFF, comparing code units is
      comparing characters. */
  lemma {:induction false} SingleUnitOrderIsScalarOrder(a: string, b: string)
    requires forall k :: 0 <= k < |a| ==> a[k] as int < 0x1_0000
    requires forall k :: 0 <= k < |b| ==> b[k] as int < 0x1_0000
    ensures LexLessEq(a, b) <==> ScalarLessEq(a, b)
  {
    if a != [] && b != [] {
      assert Encode(a) == [a[0] as int] + Encode(a[1..]);
      assert Encode(b) == [b[0] as int] + Encode(b[1..]);
      SingleUnitOrderIsScalarOrder(a[1..], b[1..]);
    }
  }

  /** U+1F600 starts with the high surrogate 0xD83D, so it sorts before
      U+FF01 (0xFF01), although its character code is larger. */
  lemma SurrogatePairSortsBelowHighSingleUnit()
    ensures LexLessEq("\U{1F600}", "\U{FF01}")
    ensures !LexLessEq("\U{FF01}", "\U{1F600}")
    ensures !ScalarLessEq("\U{1F600}", "\U{FF01}")
  {
    assert EncodeChar('\U{1F600}') == [0xD83D, 0xDE00];
    assert Encode("\U{1F600}") == [0xD83D, 0xDE00];
    assert Encode("\U{FF01}") == [0xFF01];
  }
}
