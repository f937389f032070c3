/** The emulator's arithmetic unit (alu.rb): bit by bit, through a table, at any
    width.  Lists of bits start with the lowest. */
module Alu {
  import opened Binary
  import opened Powers

  // ---------------------------------------------------------------- numbers as bits

  /** Fixnum#bit: (self >> idx) & 1. */
  predicate BitAt(v: int, idx: nat)
    decreases idx
  {
    if idx == 0 then v % 2 == 1 else BitAt(v / 2, idx - 1)
  }

  function BitArray(v: int, n: nat): (a: seq<bool>)
    ensures |a| == n
  {
    seq(n, idx requires 0 <= idx => BitAt(v, idx))
  }

  method ToBitArray(v: int, n: nat) returns (a: seq<bool>)
    ensures a == BitArray(v, n)
  {
    a := [];
    for idx := 0 to n
      invariant a == BitArray(v, n)[..idx]
    {
      a := a + [BitAt(v, idx)];
    }
  }

  /** Array#to_fixnum: a bit put where there was none is that bit added. */
  method ToFixnum(a: seq<bool>) returns (r: nat)
    ensures r == Value(a)
  {
    r := 0;
    for pos := 0 to |a|
      invariant r == Value(a[..pos])
    {
      TopBit(a[..pos + 1]);
      assert a[..pos + 1][..pos] == a[..pos];
      r := r + Bit(a[pos]) * Pow2(pos);
    }
    assert a[..|a|] == a;
  }

  /** The low `n` bits of a number are the number modulo 2^n, negative or not. */
  lemma {:induction false} ValueOfBits(v: int, n: nat)
    ensures Value(BitArray(v, n)) == v % Pow2(n)
    decreases n
  {
    if n > 0 {
      ValueOfBits(v / 2, n - 1);
      assert BitArray(v, n)[1..] == BitArray(v / 2, n - 1);
      Peel(v, Pow2(n - 1));
    }
  }

  // ---------------------------------------------------------------- the tables

  datatype Entry = Entry(r: bool, carry: bool)

  type Table = (bool, bool, bool) -> Entry

  function AddTable(v1: bool, v2: bool, c: bool): Entry {
    match (v1, v2, c)
    case (false, false, false) => Entry(false, false)
    case (false, true, false) => Entry(true, false)
    case (true, false, false) => Entry(true, false)
    case (true, true, false) => Entry(false, true)
    case (false, false, true) => Entry(true, false)
    case (false, true, true) => Entry(false, true)
    case (true, false, true) => Entry(false, true)
    case (true, true, true) => Entry(true, true)
  }

  function SubTable(v1: bool, v2: bool, b: bool): Entry {
    match (v1, v2, b)
    case (false, false, false) => Entry(false, false)
    case (false, true, false) => Entry(true, true)
    case (true, false, false) => Entry(true, false)
    case (true, true, false) => Entry(false, false)
    case (false, false, true) => Entry(true, true)
    case (false, true, true) => Entry(false, true)
    case (true, false, true) => Entry(false, false)
    case (true, true, true) => Entry(true, true)
  }

  /** What the carries make of the first `i` bits. */
  function Ripple(table: Table, a1: seq<bool>, a2: seq<bool>, carry: bool, i: nat): (e: (seq<bool>, bool))
    requires |a1| == |a2| >= i
    ensures |e.0| == i
  {
    if i == 0 then ([], carry)
    else
      var (ret, c) := Ripple(table, a1, a2, carry, i - 1);
      var e := table(a1[i - 1], a2[i - 1], c);
      (ret + [e.r], e.carry)
  }

  /** do_op. */
  method DoOp(table: Table, a1: seq<bool>, a2: seq<bool>, carry: bool) returns (ret: seq<bool>, out: bool)
    requires |a1| == |a2|
    ensures (ret, out) == Ripple(table, a1, a2, carry, |a1|)
  {
    ret, out := [], carry;
    for i := 0 to |a1|
      invariant (ret, out) == Ripple(table, a1, a2, carry, i)
    {
      var e := table(a1[i], a2[i], out);
      ret, out := ret + [e.r], e.carry;
    }
  }

  lemma {:induction false} AddRipples(a1: seq<bool>, a2: seq<bool>, carry: bool, i: nat)
    requires |a1| == |a2| >= i
    ensures var (ret, out) := Ripple(AddTable, a1, a2, carry, i);
      Value(a1[..i]) + Value(a2[..i]) + Bit(carry) == Value(ret) + Bit(out) * Pow2(i)
  {
    if i == 0 {
      assert a1[..0] == a2[..0] == [];
    } else {
      hide Value;
      AddRipples(a1, a2, carry, i - 1);
      var (ret, c) := Ripple(AddTable, a1, a2, carry, i - 1);
      var e := AddTable(a1[i - 1], a2[i - 1], c);
      OneMore(a1, i);
      OneMore(a2, i);
      OneMore(ret + [e.r], i);
      assert (ret + [e.r])[..i - 1] == ret && (ret + [e.r])[..i] == ret + [e.r];
      AddEntry(a1[i - 1], a2[i - 1], c, Pow2(i - 1));
    }
  }

  lemma {:induction false} SubRipples(a1: seq<bool>, a2: seq<bool>, borrow: bool, i: nat)
    requires |a1| == |a2| >= i
    ensures var (ret, out) := Ripple(SubTable, a1, a2, borrow, i);
      Value(a1[..i]) - Value(a2[..i]) - Bit(borrow) == Value(ret) - Bit(out) * Pow2(i)
  {
    if i == 0 {
      assert a1[..0] == a2[..0] == [];
    } else {
      hide Value;
      SubRipples(a1, a2, borrow, i - 1);
      var (ret, b) := Ripple(SubTable, a1, a2, borrow, i - 1);
      var e := SubTable(a1[i - 1], a2[i - 1], b);
      OneMore(a1, i);
      OneMore(a2, i);
      OneMore(ret + [e.r], i);
      assert (ret + [e.r])[..i - 1] == ret && (ret + [e.r])[..i] == ret + [e.r];
      SubEntry(a1[i - 1], a2[i - 1], b, Pow2(i - 1));
    }
  }

  lemma OneMore(s: seq<bool>, i: nat)
    requires 0 < i <= |s|
    ensures Value(s[..i]) == Value(s[..i - 1]) + Bit(s[i - 1]) * Pow2(i - 1)
  {
    hide Value;
    TopBit(s[..i]);
    assert s[..i][..i - 1] == s[..i - 1];
  }

  /** Each row of the tables is a one-bit sum or difference. */
  lemma AddEntry(x: bool, y: bool, c: bool, p: nat)
    ensures var e := AddTable(x, y, c);
      Bit(x) * p + Bit(y) * p + Bit(c) * p == Bit(e.r) * p + Bit(e.carry) * (2 * p)
  {
  }

  lemma SubEntry(x: bool, y: bool, b: bool, p: nat)
    ensures var e := SubTable(x, y, b);
      Bit(x) * p - Bit(y) * p - Bit(b) * p == Bit(e.r) * p - Bit(e.carry) * (2 * p)
  {
  }

  // ---------------------------------------------------------------- what the unit computes

  datatype Out = Out(value: nat, carry: bool, overflow: bool)

  function Unsigned(v: int, n: nat): (u: nat)
    ensures u < Pow2(n)
  {
    Euclid(v, Pow2(n));
    v % Pow2(n)
  }

  predicate InRange(s: int, n: nat)
    requires n > 0
  {
    var half: int := Pow2(n - 1);
    -half <= s < half
  }

  /** Two's complement. */
  function Signed(v: int, n: nat): (s: int)
    requires n > 0
    ensures InRange(s, n)
  {
    var u := Unsigned(v, n);
    if u < Pow2(n - 1) then u else u - Pow2(n)
  }

  function Sum(a: int, b: int, carry: bool, n: nat): (out: Out)
    requires n > 0
    ensures out.value < Pow2(n)
  {
    var u := Unsigned(a, n) + Unsigned(b, n) + Bit(carry);
    Euclid(u, Pow2(n));
    Out(u % Pow2(n), u >= Pow2(n), !InRange(Signed(a, n) + Signed(b, n) + Bit(carry), n))
  }

  function Difference(a: int, b: int, borrow: bool, n: nat): (out: Out)
    requires n > 0
    ensures out.value < Pow2(n)
  {
    var u := Unsigned(a, n) - Unsigned(b, n) - Bit(borrow);
    Euclid(u, Pow2(n));
    Out(u % Pow2(n), u < 0, !InRange(Signed(a, n) - Signed(b, n) - Bit(borrow), n))
  }

  /** The sign bit is the top one. */
  lemma {:induction false} SignIs(s: seq<bool>, v: int)
    requires s != [] && Value(s) == Unsigned(v, |s|)
    ensures Top(s) <==> Signed(v, |s|) < 0
    ensures Signed(v, |s|) == Value(s) - Bit(Top(s)) * Pow2(|s|)
  {
    hide Value;
    TopBit(s);
  }

  predicate AddOverflows(s1: bool, s2: bool, s: bool) {
    (!s1 && !s2 && s) || (s1 && s2 && !s)
  }

  predicate SubOverflows(s1: bool, s2: bool, s: bool) {
    (s1 && !s2 && !s) || (!s1 && s2 && s)
  }

  lemma {:induction false} SumIs(a: int, b: int, carry: bool, n: nat, ret: seq<bool>, out: bool)
    requires n > 0 && |ret| == n
    requires Unsigned(a, n) + Unsigned(b, n) + Bit(carry) == Value(ret) + Bit(out) * Pow2(n)
    ensures Sum(a, b, carry, n)
         == Out(Value(ret), out, AddOverflows(Signed(a, n) < 0, Signed(b, n) < 0, Top(ret)))
  {
    hide Value, Unsigned;
    TopBit(ret);
    assert Unsigned(a, n) + Unsigned(b, n) + Bit(carry) == Pow2(n) * Bit(out) + Value(ret);
    DivMod(Unsigned(a, n) + Unsigned(b, n) + Bit(carry), Pow2(n), Bit(out), Value(ret));
  }

  lemma {:induction false} DifferenceIs(a: int, b: int, borrow: bool, n: nat, ret: seq<bool>, out: bool)
    requires n > 0 && |ret| == n
    requires Unsigned(a, n) - Unsigned(b, n) - Bit(borrow) == Value(ret) - Bit(out) * Pow2(n)
    ensures Difference(a, b, borrow, n)
         == Out(Value(ret), out, SubOverflows(Signed(a, n) < 0, Signed(b, n) < 0, Top(ret)))
  {
    hide Value, Unsigned;
    TopBit(ret);
    var q: int := Bit(out);
    assert Unsigned(a, n) - Unsigned(b, n) - Bit(borrow) == Pow2(n) * -q + Value(ret);
    DivMod(Unsigned(a, n) - Unsigned(b, n) - Bit(borrow), Pow2(n), -q, Value(ret));
  }

  /** ALU#add. */
  method Add(v1: int, v2: int, carry: bool, n: nat) returns (r: nat, c: bool, overflow: bool)
    requires n > 0
    ensures Out(r, c, overflow) == Sum(v1, v2, carry, n)
  {
    hide Value, Pow2, BitArray, Ripple, Sum, Signed, AddTable;
    overflow := false;
    var a1 := ToBitArray(v1, n);
    var a2 := ToBitArray(v2, n);
    var ret;
    ret, c := DoOp(AddTable, a1, a2, carry);
    ghost var fits := |ret| == n;
    AddRipples(a1, a2, carry, n);
    assert a1[..n] == a1 && a2[..n] == a2;
    ValueOfBits(v1, n);
    ValueOfBits(v2, n);
    SignIs(a1, v1);
    SignIs(a2, v2);
    SumIs(v1, v2, carry, n, ret, c);
    if !Top(a1) && !Top(a2) && Top(ret) {
      overflow := true;
    }
    if Top(a1) && Top(a2) && !Top(ret) {
      overflow := true;
    }
    r := ToFixnum(ret);
  }

  /** ALU#sub. */
  method Sub(v1: int, v2: int, borrow: bool, n: nat) returns (r: nat, b: bool, overflow: bool)
    requires n > 0
    ensures Out(r, b, overflow) == Difference(v1, v2, borrow, n)
  {
    hide Value, Pow2, BitArray, Ripple, Difference, Signed, SubTable;
    overflow := false;
    var a1 := ToBitArray(v1, n);
    var a2 := ToBitArray(v2, n);
    var ret;
    ret, b := DoOp(SubTable, a1, a2, borrow);
    SubRipples(a1, a2, borrow, n);
    assert a1[..n] == a1 && a2[..n] == a2;
    ValueOfBits(v1, n);
    ValueOfBits(v2, n);
    SignIs(a1, v1);
    SignIs(a2, v2);
    DifferenceIs(v1, v2, borrow, n, ret, b);
    if Top(a1) && !Top(a2) && !Top(ret) {
      overflow := true;
    }
    if !Top(a1) && Top(a2) && Top(ret) {
      overflow := true;
    }
    r := ToFixnum(ret);
  }

  // ---------------------------------------------------------------- what the flags say

  /** Subtracting compares: the borrow is unsigned below, and overflow against
      sign is signed below; without a borrow, a zero is equality. */
  lemma DifferenceCompares(a: int, b: int, borrow: bool, n: nat)
    requires n > 0
    ensures var d := Difference(a, b, borrow, n);
      && (d.carry <==> Unsigned(a, n) < Unsigned(b, n) + Bit(borrow))
      && (d.overflow != (Signed(d.value, n) < 0) <==> Signed(a, n) < Signed(b, n) + Bit(borrow))
      && (!borrow ==> (d.value == 0 <==> Unsigned(a, n) == Unsigned(b, n)))
  {
    var p := Pow2(n);
    var u := Unsigned(a, n) - Unsigned(b, n) - Bit(borrow);
    var d := Difference(a, b, borrow, n);
    DivMod(u, p, if u < 0 then -1 else 0, if u < 0 then u + p else u);
    DivMod(d.value, p, 0, d.value);
  }

  /** A sum splits into what is kept and what is carried. */
  lemma {:induction false} SumCarries(a: int, b: int, carry: bool, n: nat)
    requires n > 0
    ensures var s := Sum(a, b, carry, n);
      Unsigned(a, n) + Unsigned(b, n) + Bit(carry) == s.value + Pow2(n) * Bit(s.carry)
  {
    hide Pow2, Unsigned, InRange, Signed;
    var u := Unsigned(a, n) + Unsigned(b, n) + Bit(carry);
    var q := if u >= Pow2(n) then 1 else 0;
    assert Pow2(n) * 1 == Pow2(n) && Pow2(n) * 0 == 0;
    DivMod(u, Pow2(n), q, u - Pow2(n) * q);
  }

  lemma {:induction false} DifferenceBorrows(a: int, b: int, borrow: bool, n: nat)
    requires n > 0
    ensures var d := Difference(a, b, borrow, n);
      Unsigned(a, n) - Unsigned(b, n) - Bit(borrow) == d.value - Pow2(n) * Bit(d.carry)
  {
    hide Pow2, Unsigned, InRange, Signed;
    var u := Unsigned(a, n) - Unsigned(b, n) - Bit(borrow);
    var q := if u < 0 then -1 else 0;
    assert Pow2(n) * -1 == 0 - Pow2(n) && Pow2(n) * 1 == Pow2(n) && Pow2(n) * 0 == 0;
    DivMod(u, Pow2(n), q, u - Pow2(n) * q);
  }

  /** Two numbers side by side. */
  function Wide(lo: int, hi: int, n: nat): int {
    lo + Pow2(n) * hi
  }

  /** The low half with a carry, the high half with the one that comes out of it:
      together they add at twice the width. */
  lemma {:induction false} SumInTwo(a0: int, a1: int, b0: int, b1: int, carry: bool, n: nat)
    requires n > 0
    ensures var lo := Sum(a0, b0, carry, n);
      var hi := Sum(a1, b1, lo.carry, n);
      Wide(Unsigned(a0, n), Unsigned(a1, n), n) + Wide(Unsigned(b0, n), Unsigned(b1, n), n) + Bit(carry)
        == Wide(lo.value, hi.value, n) + Pow2(n) * (Pow2(n) * Bit(hi.carry))
  {
    hide Pow2, Unsigned, Sum;
    var lo := Sum(a0, b0, carry, n);
    var hi := Sum(a1, b1, lo.carry, n);
    SumCarries(a0, b0, carry, n);
    SumCarries(a1, b1, lo.carry, n);
    Spread(Pow2(n), Unsigned(a1, n), Unsigned(b1, n), Bit(lo.carry), hi.value, Pow2(n) * Bit(hi.carry));
  }

  lemma Spread(p: int, a: int, b: int, c: int, s: int, t: int)
    requires a + b + c == s + t
    ensures p * a + p * b + p * c == p * s + p * t
  {
  }

  lemma {:induction false} DifferenceInTwo(a0: int, a1: int, b0: int, b1: int, borrow: bool, n: nat)
    requires n > 0
    ensures var lo := Difference(a0, b0, borrow, n);
      var hi := Difference(a1, b1, lo.carry, n);
      Wide(Unsigned(a0, n), Unsigned(a1, n), n) - Wide(Unsigned(b0, n), Unsigned(b1, n), n) - Bit(borrow)
        == Wide(lo.value, hi.value, n) - Pow2(n) * (Pow2(n) * Bit(hi.carry))
  {
    hide Pow2, Unsigned, Difference;
    var lo := Difference(a0, b0, borrow, n);
    var hi := Difference(a1, b1, lo.carry, n);
    DifferenceBorrows(a0, b0, borrow, n);
    DifferenceBorrows(a1, b1, lo.carry, n);
    Spread(Pow2(n), hi.value, Unsigned(b1, n), Bit(lo.carry), Unsigned(a1, n), Pow2(n) * Bit(hi.carry));
  }

  /** So subtracting in two halves compares at twice the width, unsigned and signed. */
  lemma DifferenceInTwoCompares(a0: int, a1: int, b0: int, b1: int, n: nat)
    requires n > 0
    ensures var lo := Difference(a0, b0, false, n);
      var hi := Difference(a1, b1, lo.carry, n);
      && (hi.carry <==> Wide(Unsigned(a0, n), Unsigned(a1, n), n) < Wide(Unsigned(b0, n), Unsigned(b1, n), n))
      && (hi.overflow != (Signed(hi.value, n) < 0)
          <==> Wide(Unsigned(a0, n), Signed(a1, n), n) < Wide(Unsigned(b0, n), Signed(b1, n), n))
  {
    hide Pow2, Unsigned, Difference, Signed, InRange;
    var lo := Difference(a0, b0, false, n);
    DifferenceCompares(a1, b1, lo.carry, n);
    DifferenceBorrows(a0, b0, false, n);
    HighDecides(Pow2(n), Unsigned(a1, n) - Unsigned(b1, n) - Bit(lo.carry), lo.value);
    HighDecides(Pow2(n), Signed(a1, n) - Signed(b1, n) - Bit(lo.carry), lo.value);
    Spread(Pow2(n), Unsigned(a1, n) - Unsigned(b1, n) - Bit(lo.carry), Unsigned(b1, n), Bit(lo.carry),
           Unsigned(a1, n), 0);
    Spread(Pow2(n), Signed(a1, n) - Signed(b1, n) - Bit(lo.carry), Signed(b1, n), Bit(lo.carry),
           Signed(a1, n), 0);
  }

  lemma HighDecides(p: nat, high: int, low: nat)
    requires low < p
    ensures low + p * high < 0 <==> high < 0
  {
    if high < 0 {
      FarFromZero(p, high);
    }
  }
}
