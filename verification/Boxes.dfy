/** What the selection functions of DES were chosen for: every row is a permutation,
    and inputs that differ little give outputs that differ much. */
module Boxes {
  import opened Binary
  import opened DesTables
  import opened Des
  import opened FirstRound

  // ---------------------------------------------------------------- on numbers

  /** The input bits as one number, the first bit highest. */
  function RowOf(v: bv6): bv2 {
    (if v & 1 != 0 then 1 else 0) | (if v & 32 != 0 then 2 else 0)
  }

  function ColumnOf(v: bv6): bv4 {
    (if v & 2 != 0 then 1 else 0) | (if v & 4 != 0 then 2 else 0) | (if v & 8 != 0 then 4 else 0)
      | (if v & 16 != 0 then 8 else 0)
  }

  function Entry(n: nat, v: bv6): bv4
    requires n < 8
  {
    Box(n, RowOf(v), ColumnOf(v))
  }

  /** At least two bits are set. */
  predicate Two(d: bv4) {
    d & (d - 1) != 0
  }

  predicate ChangesTwo(n: nat, v: bv6, e: bv6)
    requires n < 8
  {
    Two(Entry(n, v) ^ Entry(n, v ^ e))
  }

  predicate Changes(n: nat, v: bv6, e: bv6)
    requires n < 8
  {
    Entry(n, v) != Entry(n, v ^ e)
  }

  /** One bit on the right of the input, or one on the left, or both in the middle. */
  predicate Right(e: bv6) {
    e == 1 || e == 2 || e == 4
  }

  predicate Left(e: bv6) {
    e == 8 || e == 16 || e == 32 || e == 12
  }

  /** The first two bits, but not the last two. */
  predicate Outer(e: bv6) {
    e & 0x33 == 0x30
  }

  lemma Right0(v: bv6, e: bv6)
    requires Right(e)
    ensures ChangesTwo(0, v, e)
  {
  }

  lemma Left0(v: bv6, e: bv6)
    requires Left(e)
    ensures ChangesTwo(0, v, e)
  {
  }

  lemma Outer0(v: bv6, e: bv6)
    requires Outer(e)
    ensures Changes(0, v, e)
  {
  }

  lemma Row0(r: bv2, c: bv4, d: bv4)
    requires c != d
    ensures Box(0, r, c) != Box(0, r, d)
  {
  }

  lemma Right1(v: bv6, e: bv6)
    requires Right(e)
    ensures ChangesTwo(1, v, e)
  {
  }

  lemma Left1(v: bv6, e: bv6)
    requires Left(e)
    ensures ChangesTwo(1, v, e)
  {
  }

  lemma Outer1(v: bv6, e: bv6)
    requires Outer(e)
    ensures Changes(1, v, e)
  {
  }

  lemma Row1(r: bv2, c: bv4, d: bv4)
    requires c != d
    ensures Box(1, r, c) != Box(1, r, d)
  {
  }

  lemma Right2(v: bv6, e: bv6)
    requires Right(e)
    ensures ChangesTwo(2, v, e)
  {
  }

  lemma Left2(v: bv6, e: bv6)
    requires Left(e)
    ensures ChangesTwo(2, v, e)
  {
  }

  lemma Outer2(v: bv6, e: bv6)
    requires Outer(e)
    ensures Changes(2, v, e)
  {
  }

  lemma Row2(r: bv2, c: bv4, d: bv4)
    requires c != d
    ensures Box(2, r, c) != Box(2, r, d)
  {
  }

  lemma Right3(v: bv6, e: bv6)
    requires Right(e)
    ensures ChangesTwo(3, v, e)
  {
  }

  lemma Left3(v: bv6, e: bv6)
    requires Left(e)
    ensures ChangesTwo(3, v, e)
  {
  }

  lemma Outer3(v: bv6, e: bv6)
    requires Outer(e)
    ensures Changes(3, v, e)
  {
  }

  lemma Row3(r: bv2, c: bv4, d: bv4)
    requires c != d
    ensures Box(3, r, c) != Box(3, r, d)
  {
  }

  lemma Right4(v: bv6, e: bv6)
    requires Right(e)
    ensures ChangesTwo(4, v, e)
  {
  }

  lemma Left4(v: bv6, e: bv6)
    requires Left(e)
    ensures ChangesTwo(4, v, e)
  {
  }

  lemma Outer4(v: bv6, e: bv6)
    requires Outer(e)
    ensures Changes(4, v, e)
  {
  }

  lemma Row4(r: bv2, c: bv4, d: bv4)
    requires c != d
    ensures Box(4, r, c) != Box(4, r, d)
  {
  }

  lemma Right5(v: bv6, e: bv6)
    requires Right(e)
    ensures ChangesTwo(5, v, e)
  {
  }

  lemma Left5(v: bv6, e: bv6)
    requires Left(e)
    ensures ChangesTwo(5, v, e)
  {
  }

  lemma Outer5(v: bv6, e: bv6)
    requires Outer(e)
    ensures Changes(5, v, e)
  {
  }

  lemma Row5(r: bv2, c: bv4, d: bv4)
    requires c != d
    ensures Box(5, r, c) != Box(5, r, d)
  {
  }

  lemma Right6(v: bv6, e: bv6)
    requires Right(e)
    ensures ChangesTwo(6, v, e)
  {
  }

  lemma Left6(v: bv6, e: bv6)
    requires Left(e)
    ensures ChangesTwo(6, v, e)
  {
  }

  lemma Outer6(v: bv6, e: bv6)
    requires Outer(e)
    ensures Changes(6, v, e)
  {
  }

  lemma Row6(r: bv2, c: bv4, d: bv4)
    requires c != d
    ensures Box(6, r, c) != Box(6, r, d)
  {
  }

  lemma Right7(v: bv6, e: bv6)
    requires Right(e)
    ensures ChangesTwo(7, v, e)
  {
  }

  lemma Left7(v: bv6, e: bv6)
    requires Left(e)
    ensures ChangesTwo(7, v, e)
  {
  }

  lemma Outer7(v: bv6, e: bv6)
    requires Outer(e)
    ensures Changes(7, v, e)
  {
  }

  lemma Row7(r: bv2, c: bv4, d: bv4)
    requires c != d
    ensures Box(7, r, c) != Box(7, r, d)
  {
  }

  lemma TwoChange(n: nat, v: bv6, e: bv6)
    requires n < 8 && (Right(e) || Left(e))
    ensures ChangesTwo(n, v, e)
  {
    hide ChangesTwo, Right, Left;
    if Right(e) {
      RightChange(n, v, e);
    } else {
      LeftChange(n, v, e);
    }
  }

  lemma RightChange(n: nat, v: bv6, e: bv6)
    requires n < 8 && Right(e)
    ensures ChangesTwo(n, v, e)
  {
    hide ChangesTwo, Right;
    match n
    case 0 => Right0(v, e);
    case 1 => Right1(v, e);
    case 2 => Right2(v, e);
    case 3 => Right3(v, e);
    case 4 => Right4(v, e);
    case 5 => Right5(v, e);
    case 6 => Right6(v, e);
    case _ => Right7(v, e);
  }

  lemma LeftChange(n: nat, v: bv6, e: bv6)
    requires n < 8 && Left(e)
    ensures ChangesTwo(n, v, e)
  {
    hide ChangesTwo, Left;
    match n
    case 0 => Left0(v, e);
    case 1 => Left1(v, e);
    case 2 => Left2(v, e);
    case 3 => Left3(v, e);
    case 4 => Left4(v, e);
    case 5 => Left5(v, e);
    case 6 => Left6(v, e);
    case _ => Left7(v, e);
  }

  lemma OuterChange(n: nat, v: bv6, e: bv6)
    requires n < 8 && Outer(e)
    ensures Changes(n, v, e)
  {
    hide Changes, Outer;
    match n
    case 0 => Outer0(v, e);
    case 1 => Outer1(v, e);
    case 2 => Outer2(v, e);
    case 3 => Outer3(v, e);
    case 4 => Outer4(v, e);
    case 5 => Outer5(v, e);
    case 6 => Outer6(v, e);
    case _ => Outer7(v, e);
  }

  lemma RowChange(n: nat, r: bv2, c: bv4, d: bv4)
    requires n < 8 && c != d
    ensures Box(n, r, c) != Box(n, r, d)
  {
    hide Box;
    match n
    case 0 => Row0(r, c, d);
    case 1 => Row1(r, c, d);
    case 2 => Row2(r, c, d);
    case 3 => Row3(r, c, d);
    case 4 => Row4(r, c, d);
    case 5 => Row5(r, c, d);
    case 6 => Row6(r, c, d);
    case _ => Row7(r, c, d);
  }

  // ---------------------------------------------------------------- on bits

  function NumberOf(x: Bits): bv6
    requires |x| == 6
  {
    (if x[0] then 32 else 0) | (if x[1] then 16 else 0) | (if x[2] then 8 else 0) | (if x[3] then 4 else 0)
      | (if x[4] then 2 else 0) | (if x[5] then 1 else 0)
  }

  lemma PartsOf(x: Bits)
    requires |x| == 6
    ensures RowOf(NumberOf(x)) == Row(x) && ColumnOf(NumberOf(x)) == Column(x)
  {
  }

  lemma SelectIs(n: nat, x: Bits)
    requires n < 8 && |x| == 6
    ensures Select(n, x) == FourBits(Entry(n, NumberOf(x)))
  {
    hide Box, FourBits, RowOf, ColumnOf, Row, Column, NumberOf;
    PartsOf(x);
  }

  /** In how many places two outputs differ. */
  function Distance(a: Bits, b: Bits): nat
    requires |a| == |b| == 4
  {
    Bit(a[0] != b[0]) + Bit(a[1] != b[1]) + Bit(a[2] != b[2]) + Bit(a[3] != b[3])
  }

  lemma DistanceIs(a: bv4, b: bv4)
    ensures Two(a ^ b) <==> Distance(FourBits(a), FourBits(b)) >= 2
    ensures a != b <==> FourBits(a) != FourBits(b)
  {
    if a != b {
      assert a & 8 != b & 8 || a & 4 != b & 4 || a & 2 != b & 2 || a & 1 != b & 1;
    }
  }

  /** One bit of the input more or less changes at least two of the output. */
  lemma OneBitChangesTwo(n: nat, x: Bits, j: nat)
    requires n < 8 && |x| == 6 && j < 6
    ensures Distance(Select(n, x), Select(n, x[j := !x[j]])) >= 2
  {
    hide Select, Entry, Distance, FourBits, Two, NumberOf, Right, Left;
    var e := OneBit(x, j);
    SelectIs(n, x);
    SelectIs(n, x[j := !x[j]]);
    TwoChange(n, NumberOf(x), e);
    DistanceIs(Entry(n, NumberOf(x)), Entry(n, NumberOf(x) ^ e));
  }

  lemma OneBit(x: Bits, j: nat) returns (e: bv6)
    requires |x| == 6 && j < 6
    ensures (Right(e) || Left(e)) && NumberOf(x[j := !x[j]]) == NumberOf(x) ^ e
  {
    match j
    case 0 => e := 32;
    case 1 => e := 16;
    case 2 => e := 8;
    case 3 => e := 4;
    case 4 => e := 2;
    case _ => e := 1;
  }

  /** The two bits in the middle of the input change at least two of the output; so
      what the attack makes of them is never nothing. */
  lemma MiddleChangesTwo(n: nat, x: Bits)
    requires n < 8 && |x| == 6
    ensures Distance(Select(n, x), Select(n, Xor(x, Middle()))) >= 2
    ensures exists k | 0 <= k < 4 :: BoxChange(n, x)[k]
  {
    hide Select, Entry, FourBits, Two, NumberOf, Middle;
    MiddleBits(x);
    SelectIs(n, x);
    SelectIs(n, Xor(x, Middle()));
    LeftChange(n, NumberOf(x), 12);
    DistanceIs(Entry(n, NumberOf(x)), Entry(n, NumberOf(x) ^ 12));
    var a, b := Select(n, x), Select(n, Xor(x, Middle()));
    var k := Differ(a, b);
    assert BoxChange(n, x)[k];
  }

  lemma Differ(a: Bits, b: Bits) returns (k: nat)
    requires |a| == |b| == 4 && Distance(a, b) > 0
    ensures k < 4 && a[k] != b[k]
  {
    k := if a[0] != b[0] then 0 else if a[1] != b[1] then 1 else if a[2] != b[2] then 2 else 3;
  }

  lemma MiddleBits(x: Bits)
    requires |x| == 6
    ensures NumberOf(Xor(x, Middle())) == NumberOf(x) ^ 12
  {
  }

  /** The first two bits, whatever the middle ones do and with the last two as they
      are, never leave the output as it is. */
  lemma OuterBitsChange(n: nat, x: Bits, e: bool, f: bool)
    requires n < 8 && |x| == 6
    ensures Select(n, x) != Select(n, [!x[0], !x[1], x[2] != e, x[3] != f, x[4], x[5]])
  {
    hide Select, Entry, FourBits, Outer;
    var y, d := [!x[0], !x[1], x[2] != e, x[3] != f, x[4], x[5]], 0x30 | (if e then 8 else 0) | if f then 4 else 0;
    OuterBits(x, e, f);
    SelectIs(n, x);
    SelectIs(n, y);
    OuterChange(n, NumberOf(x), d);
    DistanceIs(Entry(n, NumberOf(x)), Entry(n, NumberOf(x) ^ d));
  }

  lemma OuterBits(x: Bits, e: bool, f: bool)
    requires |x| == 6
    ensures var d: bv6 := 0x30 | (if e then 8 else 0) | if f then 4 else 0;
      Outer(d) && NumberOf([!x[0], !x[1], x[2] != e, x[3] != f, x[4], x[5]]) == NumberOf(x) ^ d
  {
  }

  /** With the outer bits fixed no two inputs give one output: every row is a
      permutation of the sixteen. */
  lemma RowIsPermutation(n: nat, x: Bits, x': Bits)
    requires n < 8 && |x| == |x'| == 6 && x[0] == x'[0] && x[5] == x'[5] && Select(n, x) == Select(n, x')
    ensures x == x'
  {
    DistanceIs(Box(n, Row(x), Column(x)), Box(n, Row(x'), Column(x')));
    hide Box, FourBits, Two, Distance;
    if Column(x) != Column(x') {
      RowChange(n, Row(x), Column(x), Column(x'));
    } else {
      SameColumn(x, x');
    }
  }

  lemma SameColumn(x: Bits, x': Bits)
    requires |x| == |x'| == 6 && x[0] == x'[0] && x[5] == x'[5] && Column(x) == Column(x')
    ensures x == x'
  {
    ColumnBits(x);
    ColumnBits(x');
    hide Column;
    assert forall k | 0 <= k < 6 :: x[k] == x'[k];
  }

  lemma ColumnBits(x: Bits)
    requires |x| == 6
    ensures x[1] == (Column(x) & 8 != 0) && x[2] == (Column(x) & 4 != 0)
    ensures x[3] == (Column(x) & 2 != 0) && x[4] == (Column(x) & 1 != 0)
  {
  }

  /** The selection function that an output bit of F comes from. */
  function Source(i: nat): nat
    requires i < 32
  {
    P(i) / 4
  }

  /** _P makes every four bits from the outputs of four other selection functions. */
  lemma FourSources(g: nat)
    requires g < 8
    ensures var (a, b, c, d) := (Source(4 * g), Source(4 * g + 1), Source(4 * g + 2), Source(4 * g + 3));
      a != b && a != c && a != d && b != c && b != d && c != d && a != g && b != g && c != g && d != g
  {
    match g
    case 0 => assert Source(0) == 3 && Source(1) == 1 && Source(2) == 4 && Source(3) == 5;
    case 1 => assert Source(4) == 7 && Source(5) == 2 && Source(6) == 6 && Source(7) == 4;
    case 2 => assert Source(8) == 0 && Source(9) == 3 && Source(10) == 5 && Source(11) == 6;
    case 3 => assert Source(12) == 1 && Source(13) == 4 && Source(14) == 7 && Source(15) == 2;
    case 4 => assert Source(16) == 0 && Source(17) == 1 && Source(18) == 5 && Source(19) == 3;
    case 5 => assert Source(20) == 7 && Source(21) == 6 && Source(22) == 0 && Source(23) == 2;
    case 6 => assert Source(24) == 4 && Source(25) == 3 && Source(26) == 7 && Source(27) == 1;
    case _ => assert Source(28) == 5 && Source(29) == 2 && Source(30) == 0 && Source(31) == 6;
  }

  // ---------------------------------------------------------------- examples

  /** The example of FIPS PUB 46-3: the first function makes 0101 of 011011. */
  lemma SelectExample()
    ensures Select(0, [false, true, true, false, true, true]) == [false, true, false, true]
  {
    var x := [false, true, true, false, true, true];
    assert Row(x) == 1 && Column(x) == 13;
    assert Box(0, 1, 13) == 5;
  }

  /** The first entries of the eight functions, side by side. */
  lemma FirstEntries(x: Bits)
    requires x == [false, false, false, false, false, false]
    ensures Select(0, x) + Select(1, x) + Select(2, x) + Select(3, x)
      == FourBits(14) + FourBits(15) + FourBits(10) + FourBits(7)
    ensures Select(4, x) + Select(5, x) + Select(6, x) + Select(7, x)
      == FourBits(2) + FourBits(12) + FourBits(4) + FourBits(13)
  {
    hide FourBits;
    assert Row(x) == 0 && Column(x) == 0;
    hide Row, Column;
    assert Box(0, 0, 0) == 14 && Box(1, 0, 0) == 15 && Box(2, 0, 0) == 10 && Box(3, 0, 0) == 7;
    assert Box(4, 0, 0) == 2 && Box(5, 0, 0) == 12 && Box(6, 0, 0) == 4 && Box(7, 0, 0) == 13;
  }

  /** With nothing but zeros at their inputs the eight functions give e, f, a, 7, 2, c, 4
      and d, in this order. */
  lemma ZerosSelect()
    ensures Selected(Zeros(48), 8) == FourBits(14) + FourBits(15) + FourBits(10) + FourBits(7)
      + (FourBits(2) + FourBits(12) + FourBits(4) + FourBits(13))
  {
    hide FourBits, Select;
    var x := [false, false, false, false, false, false];
    FirstEntries(x);
    forall n | 0 <= n < 8 ensures Six(Zeros(48), n) == x {
    }
    EightInOrder(Zeros(48), x);
  }

  lemma {:induction false} EightInOrder(s: Bits, x: Bits)
    requires |s| == 48 && |x| == 6 && forall n | 0 <= n < 8 :: Six(s, n) == x
    ensures Selected(s, 8) == Select(0, x) + Select(1, x) + Select(2, x) + Select(3, x)
      + (Select(4, x) + Select(5, x) + Select(6, x) + Select(7, x))
  {
    hide Select, Six, Selected;
    NoneSelected(s);
    OneMoreSelected(s, x, 0);
    OneMoreSelected(s, x, 1);
    OneMoreSelected(s, x, 2);
    OneMoreSelected(s, x, 3);
    OneMoreSelected(s, x, 4);
    OneMoreSelected(s, x, 5);
    OneMoreSelected(s, x, 6);
    OneMoreSelected(s, x, 7);
  }

  lemma {:induction false} NoneSelected(s: Bits)
    requires |s| == 48
    ensures Selected(s, 0) == []
  {
  }

  lemma {:induction false} OneMoreSelected(s: Bits, x: Bits, n: nat)
    requires |s| == 48 && |x| == 6 && n < 8 && Six(s, n) == x
    ensures Selected(s, n + 1) == Selected(s, n) + Select(n, x)
  {
    hide Select, Six;
  }
}
