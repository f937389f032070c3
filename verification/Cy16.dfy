/** The CY16 emulator (metaemul.rb): registers, a flag word that lives in memory
    at 0xc000, the arithmetic instructions, the conditional jumps and the stack. */
module Cy16 {
  import opened Binary
  import opened Options
  import opened Powers
  import opened Words
  import opened Alu

  const FLAGS := 0xc000
  const SP := 15

  // ---------------------------------------------------------------- the state

  datatype State = State(data: seq<Byte>, gpr: seq<Addr>, pc: int)

  predicate Whole(s: State) {
    |s.data| == 0x1_0000 && |s.gpr| == 16
  }

  /** Array#[]: a negative index counts from the end. */
  function Index(a: int): (i: nat)
    requires -0x1_0000 <= a < 0x1_0000
    ensures i < 0x1_0000 && i == a % 0x1_0000
  {
    if a < 0 then a + 0x1_0000 else a
  }

  function WordIn(data: seq<Byte>, a: nat): (w: Addr)
    requires a + 1 < |data|
  {
    var (lo: int, hi: int) := (data[a], data[a + 1]);
    lo + 0x100 * hi
  }

  function PutWord(data: seq<Byte>, a: int, v: int): (r: seq<Byte>)
    requires |data| == 0x1_0000 && -0x1_0000 <= a < 0xffff
    ensures |r| == |data|
  {
    data[Index(a) := v % 0x100][Index(a + 1) := v / 0x100 % 0x100]
  }

  lemma PutThenRead(data: seq<Byte>, a: nat, v: int)
    requires |data| == 0x1_0000 && a < 0xffff
    ensures WordIn(PutWord(data, a, v), a) == v % 0x1_0000
  {
    assert v % 0x1_0000 == v % 0x100 + 0x100 * (v / 0x100 % 0x100);
  }

  lemma PutTwice(data: seq<Byte>, a: nat, v: int, w: int)
    requires |data| == 0x1_0000 && a < 0xffff
    ensures PutWord(PutWord(data, a, v), a, w) == PutWord(data, a, w)
  {
  }

  // ---------------------------------------------------------------- the flag word

  /** flags | (1 << idx), or flags & ~(1 << idx): one bit changed. */
  function WithBit(f: nat, idx: nat, b: bool): (r: nat) {
    if idx == 0 then f / 2 * 2 + Bit(b) else f % 2 + 2 * WithBit(f / 2, idx - 1, b)
  }

  lemma {:induction false} WithBitFits(f: nat, idx: nat, b: bool, n: nat)
    requires f < Pow2(n) && idx < n
    ensures WithBit(f, idx, b) < Pow2(n)
  {
    HalfFits(f, Pow2(n - 1), b);
    if idx > 0 {
      hide Pow2;
      WithBitFits(f / 2, idx - 1, b, n - 1);
    }
  }

  lemma HalfFits(f: nat, p: nat, b: bool)
    requires f < 2 * p
    ensures f / 2 < p && f / 2 * 2 + Bit(b) < 2 * p
  {
  }

  lemma {:induction false} WithBitIs(f: nat, idx: nat, b: bool, j: nat)
    ensures BitAt(WithBit(f, idx, b), j) == if j == idx then b else BitAt(f, j)
    decreases idx
  {
    var r := WithBit(f, idx, b);
    if idx > 0 && j > 0 {
      WithBitIs(f / 2, idx - 1, b, j - 1);
    }
  }

  /** The four flags of an arithmetic result; the other twelve bits stay. */
  function Marked(f: nat, out: Out): nat {
    f / 16 * 16 + Bit(out.value == 0) + 2 * Bit(out.carry) + 4 * Bit(out.overflow) + 8 * Bit(out.value >= 0x8000)
  }

  /** A number by its lowest bit and the rest. */
  function Num(b: bool, rest: nat): nat {
    Bit(b) + 2 * rest
  }

  lemma {:induction false} WithBitHere(b0: bool, rest: nat, b: bool)
    ensures WithBit(Num(b0, rest), 0, b) == Num(b, rest) && BitAt(Num(b0, rest), 0) == b0
  {
  }

  lemma WithBitAbove(b0: bool, rest: nat, idx: nat, b: bool)
    ensures WithBit(Num(b0, rest), idx + 1, b) == Num(b0, WithBit(rest, idx, b))
    ensures BitAt(Num(b0, rest), idx + 1) == BitAt(rest, idx)
  {
    assert Num(b0, rest) % 2 == Bit(b0) && Num(b0, rest) / 2 == rest;
  }

  lemma Digits(f: nat)
    ensures f == Num(f % 2 == 1, Num(f / 2 % 2 == 1, Num(f / 4 % 2 == 1, Num(f / 8 % 2 == 1, f / 16))))
  {
    hide Num;
    Digit(f);
    Digit(f / 2);
    Digit(f / 4);
    Digit(f / 8);
    assert f / 2 / 2 == f / 4 && f / 4 / 2 == f / 8 && f / 8 / 2 == f / 16;
  }

  lemma Digit(f: nat)
    ensures f == Num(f % 2 == 1, f / 2)
  {
  }

  lemma MarkedDigits(f: nat, out: Out)
    ensures Marked(f, out)
         == Num(out.value == 0, Num(out.carry, Num(out.overflow, Num(out.value >= 0x8000, f / 16))))
  {
  }

  /** The emulator sets them one at a time. */
  lemma {:induction false} MarkedOneByOne(f: nat, out: Out)
    ensures WithBit(WithBit(WithBit(WithBit(f, 1, out.carry), 2, out.overflow), 0, out.value == 0), 3, out.value >= 0x8000)
         == Marked(f, out)
  {
    hide WithBit, Num, Marked, BitAt;
    var (b0, b1, b2, b3) := (f % 2 == 1, f / 2 % 2 == 1, f / 4 % 2 == 1, f / 8 % 2 == 1);
    var (z, c, o, s) := (out.value == 0, out.carry, out.overflow, out.value >= 0x8000);
    var n3 := Num(b3, f / 16);
    var n2 := Num(b2, n3);
    Digits(f);
    MarkedDigits(f, out);
    WithBitAbove(b0, Num(b1, n2), 0, c);
    WithBitHere(b1, n2, c);
    WithBitAbove(b0, Num(c, n2), 1, o);
    WithBitAbove(c, n2, 0, o);
    WithBitHere(b2, n3, o);
    WithBitHere(b0, Num(c, Num(o, n3)), z);
    WithBitAbove(z, Num(c, Num(o, n3)), 2, s);
    WithBitAbove(c, Num(o, n3), 1, s);
    WithBitAbove(o, n3, 0, s);
    WithBitHere(b3, f / 16, s);
  }

  /** None of the four leaves the word. */
  lemma {:induction false} MarkedFits(f: nat, out: Out)
    requires f < 0x1_0000
    ensures var c := WithBit(f, 1, out.carry);
      var o := WithBit(c, 2, out.overflow);
      var z := WithBit(o, 0, out.value == 0);
      c < 0x1_0000 && o < 0x1_0000 && z < 0x1_0000 && Marked(f, out) < 0x1_0000
  {
    hide WithBit, Marked;
    Sixteen();
    var c := WithBit(f, 1, out.carry);
    var o := WithBit(c, 2, out.overflow);
    var z := WithBit(o, 0, out.value == 0);
    WithBitFits(f, 1, out.carry, 16);
    WithBitFits(c, 2, out.overflow, 16);
    WithBitFits(o, 0, out.value == 0, 16);
    WithBitFits(z, 3, out.value >= 0x8000, 16);
    MarkedOneByOne(f, out);
  }

  lemma MarkedBits(f: nat, out: Out)
    ensures BitAt(Marked(f, out), 0) == (out.value == 0)
    ensures BitAt(Marked(f, out), 1) == out.carry
    ensures BitAt(Marked(f, out), 2) == out.overflow
    ensures BitAt(Marked(f, out), 3) == (out.value >= 0x8000)
  {
    hide WithBit, Num, Marked, BitAt;
    var (z, c, o, s) := (out.value == 0, out.carry, out.overflow, out.value >= 0x8000);
    var n3 := Num(s, f / 16);
    var n2 := Num(o, n3);
    MarkedDigits(f, out);
    WithBitHere(z, Num(c, n2), z);
    WithBitAbove(z, Num(c, n2), 0, c);
    WithBitHere(c, n2, c);
    WithBitAbove(z, Num(c, n2), 1, o);
    WithBitAbove(c, n2, 0, o);
    WithBitHere(o, n3, o);
    WithBitAbove(z, Num(c, n2), 2, s);
    WithBitAbove(c, n2, 1, s);
    WithBitAbove(o, n3, 0, s);
    WithBitHere(s, f / 16, s);
  }

  // ---------------------------------------------------------------- the instructions

  datatype Dual = Add | Addc | Sub | Subb | Cmp

  datatype Operand = Reg(i: nat) | Imm(v: int)

  predicate Exists(o: Operand) {
    o.Reg? ==> o.i < 16
  }

  function ValueOf(s: State, o: Operand): int
    requires Whole(s) && Exists(o)
  {
    if o.Reg? then s.gpr[o.i] else o.v
  }

  function Flags(s: State): Addr
    requires Whole(s)
  {
    WordIn(s.data, FLAGS)
  }

  function Result(op: Dual, a: int, b: int, carry: bool): (out: Out)
    ensures out.value < 0x1_0000
  {
    var r := match op
      case Add => Alu.Sum(a, b, false, 16)
      case Addc => Alu.Sum(a, b, carry, 16)
      case Subb => Alu.Difference(a, b, carry, 16)
      case _ => Alu.Difference(a, b, false, 16);
    UnderSixteen(r.value);
    r
  }

  lemma UnderSixteen(v: nat)
    requires v < Pow2(16)
    ensures v < 0x1_0000
  {
    Sixteen();
  }

  lemma Sixteen()
    ensures Pow2(15) == 0x8000 && Pow2(16) == 0x1_0000
  {
    assert Pow2(5) == 32;
    assert Pow2(10) == 1024;
  }

  function AfterDual(s: State, op: Dual, dest: nat, src: Operand, length: nat): (s': State)
    requires Whole(s) && dest < 16 && Exists(src)
    ensures Whole(s')
  {
    var out := Result(op, s.gpr[dest], ValueOf(s, src), BitAt(Flags(s), 1));
    State(PutWord(s.data, FLAGS, Marked(Flags(s), out)),
          if op == Cmp then s.gpr else s.gpr[dest := out.value],
          s.pc + length)
  }

  /** In memory it writes the flag word and nothing else. */
  lemma OnlyFlagWord(s: State, op: Dual, dest: nat, src: Operand, length: nat, a: nat)
    requires Whole(s) && dest < 16 && Exists(src) && a < 0x1_0000 && a != 0xc000 && a != 0xc001
    ensures AfterDual(s, op, dest, src, length).data[a] == s.data[a]
  {
    hide Result, Marked, WordIn;
  }

  datatype Jump = Jz | Jnz | Ja | Jo | Jno | Jc | Jb | Js | Jns | Jnc | Jae | Jbe | Jl | Jle | Jg | Jge | Jmp

  predicate Taken(j: Jump, f: nat) {
    var (z, c, o, s) := (BitAt(f, 0), BitAt(f, 1), BitAt(f, 2), BitAt(f, 3));
    match j
    case Jz => z
    case Jnz => !z
    case Ja => !z && !c
    case Jo => o
    case Jno => !o
    case Jc => c
    case Jb => c
    case Js => s
    case Jns => !s
    case Jnc => !c
    case Jae => !c
    case Jbe => z || c
    case Jl => o != s
    case Jle => o != s || z
    case Jg => o == s && !z
    case Jge => o == s
    case Jmp => true
  }

  function AfterJump(s: State, j: Jump, target: int, length: nat): (s': State)
    requires Whole(s)
    ensures Whole(s')
  {
    s.(pc := if Taken(j, Flags(s)) then target else s.pc + length)
  }

  // ---------------------------------------------------------------- compare and branch

  /** What a branch after a comparison means: the order of the numbers, unsigned or
      signed, whether their signed difference leaves the sixteen bits, and whether its
      sixteen bits are negative. */
  predicate Compares(j: Jump, a: int, b: int) {
    var (u, v, s, t) := (Unsigned(a, 16), Unsigned(b, 16), Signed(a, 16), Signed(b, 16));
    match j
    case Jz => u == v
    case Jnz => u != v
    case Jb => u < v
    case Jc => u < v
    case Jae => u >= v
    case Jnc => u >= v
    case Ja => u > v
    case Jbe => u <= v
    case Jl => s < t
    case Jge => s >= t
    case Jg => s > t
    case Jle => s <= t
    case Jo => !(-0x8000 <= s - t < 0x8000)
    case Jno => -0x8000 <= s - t < 0x8000
    case Js => (a - b) % 0x1_0000 >= 0x8000
    case Jns => (a - b) % 0x1_0000 < 0x8000
    case Jmp => true
  }

  lemma DifferenceTaken(a: int, b: int, f: nat, j: Jump)
    ensures Taken(j, Marked(f, Alu.Difference(a, b, false, 16))) <==> Compares(j, a, b)
  {
    hide Pow2, Unsigned, Signed, Difference, BitAt, Marked, InRange;
    var d := Alu.Difference(a, b, false, 16);
    DifferenceCompares(a, b, false, 16);
    MarkedBits(f, d);
    SignBit(d.value);
    SignedEquality(a, b);
    DifferenceIs(a, b);
  }

  lemma DifferenceIs(a: int, b: int)
    ensures var d := Alu.Difference(a, b, false, 16);
      && d.value == (a - b) % 0x1_0000
      && (d.overflow <==> !(-0x8000 <= Signed(a, 16) - Signed(b, 16) < 0x8000))
  {
    Sixteen();
    hide Pow2, Signed;
    var (p, q, r) := (0x1_0000, a / 0x1_0000, b / 0x1_0000);
    var u := a % p - b % p;
    assert a - b == p * (q - r) + u;
    var k := u / p;
    assert a - b == p * (q - r + k) + u % p;
  }

  lemma SignBit(v: nat)
    requires v < Pow2(16)
    ensures Signed(v, 16) < 0 <==> v >= 0x8000
  {
    Sixteen();
    DivMod(v, Pow2(16), 0, v);
  }

  lemma SignedEquality(a: int, b: int)
    ensures Signed(a, 16) == Signed(b, 16) <==> Unsigned(a, 16) == Unsigned(b, 16)
  {
  }

  /** A comparison or subtraction followed by a jump branches exactly when the
      relation that the jump is named for holds, unsigned or signed. */
  lemma CompareAndBranch(s: State, op: Dual, dest: nat, src: Operand, length: nat, j: Jump, target: int, length': nat)
    requires Whole(s) && dest < 16 && Exists(src) && (op == Cmp || op == Sub)
    ensures AfterJump(AfterDual(s, op, dest, src, length), j, target, length').pc
         == if Compares(j, s.gpr[dest], ValueOf(s, src)) then target else s.pc + length + length'
  {
    hide Taken, Compares, Marked, PutWord, Difference, WordIn;
    var s' := AfterDual(s, op, dest, src, length);
    var out := Result(op, s.gpr[dest], ValueOf(s, src), BitAt(Flags(s), 1));
    FlagsAfter(s, out);
    DifferenceTaken(s.gpr[dest], ValueOf(s, src), Flags(s), j);
  }

  lemma FlagsAfter(s: State, out: Out)
    requires Whole(s)
    ensures WordIn(PutWord(s.data, FLAGS, Marked(Flags(s), out)), FLAGS) == Marked(Flags(s), out)
  {
    hide Marked, PutWord, WordIn, WithBit;
    PutThenRead(s.data, FLAGS, Marked(Flags(s), out));
    MarkedFits(Flags(s), out);
  }

  // ---------------------------------------------------------------- thirty-two bits

  /** Two registers as one number. */
  function Double(s: State, lo: nat, hi: nat): int
    requires Whole(s) && lo < 16 && hi < 16
  {
    var (low: int, high: int) := (s.gpr[lo], s.gpr[hi]);
    low + 0x1_0000 * high
  }

  /** One instruction on the low words and one, with the carry, on the high words. */
  function Both(s: State, first: Dual, second: Dual, d0: nat, d1: nat, s0: Operand, s1: Operand, length: nat): (s': State)
    requires Whole(s) && d0 < 16 && d1 < 16 && Exists(s0) && Exists(s1)
    ensures Whole(s')
  {
    AfterDual(AfterDual(s, first, d0, s0, length), second, d1, s1, length)
  }

  /** What the two instructions leave, in terms of the two results. */
  lemma BothIs(s: State, first: Dual, second: Dual, d0: nat, d1: nat, s0: Operand, s1: Operand, length: nat)
    requires Whole(s) && d0 < 16 && d1 < 16 && Exists(s0) && Exists(s1)
    requires d0 != d1 && s1 != Reg(d0) && first != Cmp && second != Cmp
    ensures var lo := Result(first, s.gpr[d0], ValueOf(s, s0), BitAt(Flags(s), 1));
      var hi := Result(second, s.gpr[d1], ValueOf(s, s1), lo.carry);
      var s' := Both(s, first, second, d0, d1, s0, s1, length);
      && s'.gpr == s.gpr[d0 := lo.value][d1 := hi.value]
      && Flags(s') == Marked(Marked(Flags(s), lo), hi)
  {
    hide Marked, PutWord, WordIn, Result, BitAt;
    var lo := Result(first, s.gpr[d0], ValueOf(s, s0), BitAt(Flags(s), 1));
    var t := AfterDual(s, first, d0, s0, length);
    FlagsAfter(s, lo);
    MarkedBits(Flags(s), lo);
    FlagsAfter(t, Result(second, s.gpr[d1], ValueOf(s, s1), lo.carry));
  }

  lemma SmallWord(v: Addr)
    ensures Unsigned(v, 16) == v
  {
    Sixteen();
  }

  function Number(s: State, lo: Operand, hi: Operand): int
    requires Whole(s) && Exists(lo) && Exists(hi)
  {
    Unsigned(ValueOf(s, lo), 16) + 0x1_0000 * Unsigned(ValueOf(s, hi), 16)
  }

  function SignedNumber(s: State, lo: Operand, hi: Operand): int
    requires Whole(s) && Exists(lo) && Exists(hi)
  {
    Unsigned(ValueOf(s, lo), 16) + 0x1_0000 * Signed(ValueOf(s, hi), 16)
  }

  /** Two words of a number modulo 2^32. */
  lemma Kept(total: int, lo: nat, hi: nat, q: int)
    requires lo < 0x1_0000 && hi < 0x1_0000 && total == lo + 0x1_0000 * hi + 0x1_0000_0000 * q
    ensures total % 0x1_0000_0000 == lo + 0x1_0000 * hi
  {
  }

  /** add, then addc: a 32-bit sum and its carry. */
  lemma AddsThirtyTwoBits(s: State, d0: nat, d1: nat, s0: Operand, s1: Operand, length: nat)
    requires Whole(s) && d0 < 16 && d1 < 16 && Exists(s0) && Exists(s1) && d0 != d1 && s1 != Reg(d0)
    ensures var s' := Both(s, Add, Addc, d0, d1, s0, s1, length);
      var total := Double(s, d0, d1) + Number(s, s0, s1);
      && Double(s', d0, d1) == total % 0x1_0000_0000
      && (BitAt(Flags(s'), 1) <==> total >= 0x1_0000_0000)
  {
    hide Marked, PutWord, WordIn, Sum, Difference, BitAt, Unsigned, AfterDual, Both;
    BothIs(s, Add, Addc, d0, d1, s0, s1, length);
    Sixteen();
    SmallWord(s.gpr[d0]);
    SmallWord(s.gpr[d1]);
    var lo := Alu.Sum(s.gpr[d0], ValueOf(s, s0), false, 16);
    var hi := Alu.Sum(s.gpr[d1], ValueOf(s, s1), lo.carry, 16);
    SumInTwo(s.gpr[d0], s.gpr[d1], ValueOf(s, s0), ValueOf(s, s1), false, 16);
    Kept(Double(s, d0, d1) + Number(s, s0, s1), lo.value, hi.value, Bit(hi.carry));
    MarkedBits(Marked(Flags(s), lo), hi);
  }

  /** sub, then subb: a 32-bit difference, whose flags compare 32-bit numbers. */
  lemma SubtractsThirtyTwoBits(s: State, d0: nat, d1: nat, s0: Operand, s1: Operand, length: nat)
    requires Whole(s) && d0 < 16 && d1 < 16 && Exists(s0) && Exists(s1) && d0 != d1 && s1 != Reg(d0)
    ensures var s' := Both(s, Sub, Subb, d0, d1, s0, s1, length);
      && Double(s', d0, d1) == (Double(s, d0, d1) - Number(s, s0, s1)) % 0x1_0000_0000
      && (Taken(Jb, Flags(s')) <==> Double(s, d0, d1) < Number(s, s0, s1))
      && (Taken(Jl, Flags(s')) <==> SignedNumber(s, Reg(d0), Reg(d1)) < SignedNumber(s, s0, s1))
  {
    hide Double, Number, SignedNumber, Both, Flags, Taken, Result, Marked, BitAt, ValueOf;
    BothIs(s, Sub, Subb, d0, d1, s0, s1, length);
    WordDifference(s, d0, d1, s0, s1);
    var lo := Result(Sub, s.gpr[d0], ValueOf(s, s0), BitAt(Flags(s), 1));
    var hi := Result(Subb, s.gpr[d1], ValueOf(s, s1), lo.carry);
    DoubleIs(s, Both(s, Sub, Subb, d0, d1, s0, s1, length), d0, d1, lo.value, hi.value);
    JumpsOn(Marked(Flags(s), lo), hi);
  }

  /** The two results themselves. */
  lemma WordDifference(s: State, d0: nat, d1: nat, s0: Operand, s1: Operand)
    requires Whole(s) && d0 < 16 && d1 < 16 && Exists(s0) && Exists(s1)
    ensures var lo := Result(Sub, s.gpr[d0], ValueOf(s, s0), BitAt(Flags(s), 1));
      var hi := Result(Subb, s.gpr[d1], ValueOf(s, s1), lo.carry);
      && lo.value + 0x1_0000 * hi.value == (Double(s, d0, d1) - Number(s, s0, s1)) % 0x1_0000_0000
      && (hi.carry <==> Double(s, d0, d1) < Number(s, s0, s1))
      && (hi.overflow != (hi.value >= 0x8000)
          <==> SignedNumber(s, Reg(d0), Reg(d1)) < SignedNumber(s, s0, s1))
  {
    hide Difference, BitAt, Unsigned, Signed, InRange, Flags;
    SmallWord(s.gpr[d0]);
    SmallWord(s.gpr[d1]);
    DifferenceOfWords(s.gpr[d0], s.gpr[d1], ValueOf(s, s0), ValueOf(s, s1));
    OrderOfWords(s.gpr[d0], s.gpr[d1], ValueOf(s, s0), ValueOf(s, s1));
  }

  lemma DifferenceOfWords(a0: int, a1: int, b0: int, b1: int)
    ensures var lo := Alu.Difference(a0, b0, false, 16);
      var hi := Alu.Difference(a1, b1, lo.carry, 16);
      lo.value + 0x1_0000 * hi.value
        == (Unsigned(a0, 16) + 0x1_0000 * Unsigned(a1, 16) - (Unsigned(b0, 16) + 0x1_0000 * Unsigned(b1, 16)))
           % 0x1_0000_0000
  {
    hide Difference, Unsigned;
    var lo := Alu.Difference(a0, b0, false, 16);
    var hi := Alu.Difference(a1, b1, lo.carry, 16);
    DifferenceInTwo(a0, a1, b0, b1, false, 16);
    Sixteen();
    Kept(Unsigned(a0, 16) + 0x1_0000 * Unsigned(a1, 16) - (Unsigned(b0, 16) + 0x1_0000 * Unsigned(b1, 16)),
         lo.value, hi.value, if hi.carry then -1 else 0);
  }

  lemma OrderOfWords(a0: int, a1: int, b0: int, b1: int)
    ensures var lo := Alu.Difference(a0, b0, false, 16);
      var hi := Alu.Difference(a1, b1, lo.carry, 16);
      && (hi.carry <==>
            Unsigned(a0, 16) + 0x1_0000 * Unsigned(a1, 16) < Unsigned(b0, 16) + 0x1_0000 * Unsigned(b1, 16))
      && (hi.overflow != (hi.value >= 0x8000) <==>
            Unsigned(a0, 16) + 0x1_0000 * Signed(a1, 16) < Unsigned(b0, 16) + 0x1_0000 * Signed(b1, 16))
  {
    hide Difference, Unsigned, Signed, InRange;
    DifferenceInTwoCompares(a0, a1, b0, b1, 16);
    Sixteen();
    SignBit(Alu.Difference(a1, b1, Alu.Difference(a0, b0, false, 16).carry, 16).value);
  }

  lemma DoubleIs(s: State, s': State, d0: nat, d1: nat, lo: nat, hi: nat)
    requires Whole(s) && Whole(s') && d0 < 16 && d1 < 16 && d0 != d1 && lo < 0x1_0000 && hi < 0x1_0000
    requires s'.gpr == s.gpr[d0 := lo][d1 := hi]
    ensures Double(s', d0, d1) == lo + 0x1_0000 * hi
  {
  }

  lemma JumpsOn(f: nat, out: Out)
    ensures Taken(Jb, Marked(f, out)) <==> out.carry
    ensures Taken(Jl, Marked(f, out)) <==> out.overflow != (out.value >= 0x8000)
  {
    hide BitAt, Marked;
    MarkedBits(f, out);
  }

  // ---------------------------------------------------------------- the stack

  function Top(s: State): (sp: int)
    requires Whole(s)
    ensures 0 <= sp < 0x1_0000
  {
    s.gpr[SP]
  }

  function AfterPush(s: State, v: int): (s': State)
    requires Whole(s)
    ensures Whole(s')
  {
    State(PutWord(s.data, Top(s) - 2, v), s.gpr[SP := (Top(s) - 2) % 0x1_0000], s.pc)
  }

  /** Reading a word at 0xffff runs off the end of the memory. */
  function AfterPop(s: State): (r: Option<(State, Addr)>)
    requires Whole(s)
    ensures r.Some? ==> Whole(r.value.0)
  {
    if Top(s) == 0xffff then None
    else Some((s.(gpr := s.gpr[SP := (Top(s) + 2) % 0x1_0000]), WordIn(s.data, Top(s))))
  }

  /** The first `n` registers pushed. */
  function AfterPushes(s: State, n: nat): (s': State)
    requires Whole(s) && n <= 15
    ensures Whole(s')
  {
    if n == 0 then s
    else
      var t := AfterPushes(s, n - 1);
      AfterPush(t, t.gpr[n - 1])
  }

  /** The first `n` registers popped, the last one first. */
  function AfterPops(s: State, n: nat): (r: Option<State>)
    requires Whole(s) && n <= 15
    ensures r.Some? ==> Whole(r.value)
    decreases n
  {
    if n == 0 then Some(s)
    else
      match AfterPop(s)
      case None => None
      case Some((t, v)) => AfterPops(t.(gpr := t.gpr[n - 1 := v]), n - 1)
  }

  /** Where the `k`th push from `sp` puts its word. */
  function Place(sp: int, k: nat): (a: nat)
    ensures a < 0x1_0000
  {
    (sp - 2 * k - 2) % 0x1_0000
  }

  /** The word at `a`, wherever it wraps. */
  function Around(data: seq<Byte>, a: nat): (w: Addr)
    requires |data| == 0x1_0000 && a < 0x1_0000
  {
    var (lo: int, hi: int) := (data[a], data[(a + 1) % 0x1_0000]);
    lo + 0x100 * hi
  }

  predicate Saved(data: seq<Byte>, sp: int, regs: seq<Addr>, n: nat)
    requires |data| == 0x1_0000 && n <= |regs|
  {
    forall k: nat | k < n :: Around(data, Place(sp, k)) == regs[k]
  }

  lemma {:induction false} PushesAre(s: State, n: nat)
    requires Whole(s) && n <= 15
    ensures var t := AfterPushes(s, n);
      && t.pc == s.pc && t.gpr == s.gpr[SP := (Top(s) - 2 * n) % 0x1_0000]
      && Saved(t.data, Top(s), s.gpr, n)
  {
    hide AfterPushes, Around, PutWord, Place, Saved, AfterPush;
    if n == 0 {
      NoPushes(s);
      return;
    }
    PushesAre(s, n - 1);
    PushesNext(s, n);
    var t := AfterPushes(s, n - 1);
    PushSaves(t, Top(s), s.gpr, n - 1);
    Lower(Top(s), n - 1);
    PushMoves(t, t.gpr[n - 1]);
    SpTwice(s.gpr, (Top(s) - 2 * (n - 1)) % 0x1_0000, (Top(s) - 2 * n) % 0x1_0000);
  }

  lemma {:induction false} NoPushes(s: State)
    requires Whole(s)
    ensures AfterPushes(s, 0) == s && s.gpr[SP := (Top(s) - 2 * 0) % 0x1_0000] == s.gpr
    ensures Saved(s.data, Top(s), s.gpr, 0)
  {
  }

  lemma PushesNext(s: State, n: nat)
    requires Whole(s) && 0 < n <= 15
    ensures AfterPushes(s, n) == var t := AfterPushes(s, n - 1); AfterPush(t, t.gpr[n - 1])
  {
  }

  lemma PushMoves(t: State, v: int)
    requires Whole(t)
    ensures AfterPush(t, v).gpr == t.gpr[SP := (Top(t) - 2) % 0x1_0000] && AfterPush(t, v).pc == t.pc
  {
  }

  lemma SpTwice(regs: seq<Addr>, x: Addr, y: Addr)
    requires |regs| == 16
    ensures regs[SP := x][SP := y] == regs[SP := y]
  {
  }

  lemma Lower(sp: int, n: nat)
    ensures ((sp - 2 * n) % 0x1_0000 - 2) % 0x1_0000 == (sp - 2 * (n + 1)) % 0x1_0000 == Place(sp, n)
  {
  }

  /** No two of the pushes overlap. */
  lemma PlacesApart(sp: int, k: nat, n: nat)
    requires k < n < 15
    ensures Place(sp, n) != Place(sp, k)
    ensures Place(sp, n) != (Place(sp, k) + 1) % 0x1_0000 && Place(sp, k) != (Place(sp, n) + 1) % 0x1_0000
  {
  }

  /** One more word under those already there. */
  lemma PushSaves(t: State, sp: int, regs: seq<Addr>, n: nat)
    requires 0 <= sp < 0x1_0000 && Whole(t) && n < 15 && |regs| == 16 && Top(t) == (sp - 2 * n) % 0x1_0000
    requires Saved(t.data, sp, regs, n)
    ensures Saved(AfterPush(t, regs[n]).data, sp, regs, n + 1)
  {
    hide Around, PutWord, Place;
    Lower(sp, n);
    forall k: nat | k < n + 1
      ensures Around(AfterPush(t, regs[n]).data, Place(sp, k)) == regs[k]
    {
      if k < n {
        PlacesApart(sp, k, n);
      }
      PutIsAround(t.data, Top(t) - 2, regs[n], Place(sp, k));
    }
  }

  lemma PutIsAround(data: seq<Byte>, a: int, v: Addr, b: nat)
    requires |data| == 0x1_0000 && -2 <= a < 0xfffe && b < 0x1_0000
    requires var i := a % 0x1_0000; i == b || (i != (b + 1) % 0x1_0000 && b != (i + 1) % 0x1_0000)
    ensures Around(PutWord(data, a, v), b) == if a % 0x1_0000 == b then v else Around(data, b)
  {
  }

  /** A word at 0xffff is among the `n`. */
  predicate Straddles(sp: int, n: nat) {
    sp % 2 == 1 && sp < 2 * n
  }

  lemma {:induction false} PopsAre(t: State, sp: int, regs: seq<Addr>, n: nat)
    requires 0 <= sp < 0x1_0000 && Whole(t) && n <= 15 && |regs| == 16 && Top(t) == (sp - 2 * n) % 0x1_0000
    requires Saved(t.data, sp, regs, n)
    ensures AfterPops(t, n)
         == if Straddles(sp, n) then None else Some(State(t.data, regs[..n] + t.gpr[n..15] + [sp], t.pc))
    decreases n
  {
    hide Around, Saved, AfterPops, WordIn, Straddles, Place;
    PopsNext(t, n);
    if n == 0 {
      NoPops(t, sp, regs);
      return;
    }
    Raised(sp, n);
    if Top(t) == 0xffff {
      return;
    }
    SavedAt(t.data, sp, regs, n, n - 1);
    AroundIsWord(t.data, Top(t));
    var v := Popped(t, n);
    SavedFewer(t.data, sp, regs, n);
    PopsAre(v, sp, regs, n - 1);
    RegistersMeet(t.gpr, v.gpr, regs, n);
  }

  /** The state after one pop into register n - 1. */
  function Popped(t: State, n: nat): (v: State)
    requires Whole(t) && 0 < n <= 15 && Top(t) != 0xffff
    ensures Whole(v)
  {
    t.(gpr := t.gpr[SP := (Top(t) + 2) % 0x1_0000][n - 1 := WordIn(t.data, Top(t))])
  }

  lemma {:induction false} PopsNext(t: State, n: nat)
    requires Whole(t) && n <= 15
    ensures AfterPops(t, n)
         == if n == 0 then Some(t) else if Top(t) == 0xffff then None else AfterPops(Popped(t, n), n - 1)
  {
  }

  lemma {:induction false} NoPops(t: State, sp: Addr, regs: seq<Addr>)
    requires Whole(t) && |regs| == 16 && t.gpr[SP] == sp
    ensures !Straddles(sp, 0) && regs[..0] + t.gpr[0..15] + [sp] == t.gpr
  {
  }

  lemma Raised(sp: int, n: nat)
    requires 0 <= sp < 0x1_0000 && 0 < n <= 15
    ensures var top := (sp - 2 * n) % 0x1_0000;
      && top == Place(sp, n - 1)
      && (top == 0xffff ==> Straddles(sp, n))
      && (top != 0xffff ==> Straddles(sp, n) == Straddles(sp, n - 1) && (top + 2) % 0x1_0000 == (sp - 2 * (n - 1)) % 0x1_0000)
  {
  }

  lemma RegistersMeet(before: seq<Addr>, after: seq<Addr>, regs: seq<Addr>, n: nat)
    requires |before| == |after| == |regs| == 16 && 0 < n <= 15
    requires after[n - 1] == regs[n - 1] && forall i | n <= i < 15 :: after[i] == before[i]
    ensures regs[..n - 1] + after[n - 1..15] == regs[..n] + before[n..15]
  {
  }

  lemma SavedAt(data: seq<Byte>, sp: int, regs: seq<Addr>, n: nat, k: nat)
    requires |data| == 0x1_0000 && k < n <= |regs| && Saved(data, sp, regs, n)
    ensures Around(data, Place(sp, k)) == regs[k]
  {
  }

  lemma SavedFewer(data: seq<Byte>, sp: int, regs: seq<Addr>, n: nat)
    requires |data| == 0x1_0000 && 0 < n <= |regs| && Saved(data, sp, regs, n)
    ensures Saved(data, sp, regs, n - 1)
  {
  }

  lemma AroundIsWord(data: seq<Byte>, a: nat)
    requires |data| == 0x1_0000 && a < 0xffff
    ensures Around(data, a) == WordIn(data, a)
  {
  }

  /** The words of the first `n` pushes are the same in both memories. */
  predicate Untouched(before: seq<Byte>, after: seq<Byte>, sp: int, n: nat)
    requires |before| == |after| == 0x1_0000
  {
    forall k: nat | k < n :: Around(after, Place(sp, k)) == Around(before, Place(sp, k))
  }

  lemma StaysSaved(before: seq<Byte>, after: seq<Byte>, sp: int, regs: seq<Addr>, n: nat)
    requires |before| == |after| == 0x1_0000 && n <= |regs|
    requires Saved(before, sp, regs, n) && Untouched(before, after, sp, n)
    ensures Saved(after, sp, regs, n)
  {
    hide Around, Place;
  }

  lemma AllRegisters(regs: seq<Addr>, others: seq<Addr>)
    requires |regs| == |others| == 16
    ensures regs[..15] + others[15..15] + [regs[SP]] == regs
  {
  }

  lemma Lowest(sp: int)
    ensures (sp - 2 * 15) % 0x1_0000 == (sp - 30) % 0x1_0000
  {
  }

  /** An interrupt's registers come back: whatever the code in between does to the
      fifteen registers and to memory outside the thirty bytes, popping what was
      pushed restores all sixteen, unless the odd stack pointer makes a word wrap
      around the end of memory, and then the pops fail. */
  lemma {:induction false} InterruptRestores(s: State, t: State)
    requires Whole(s) && Whole(t) && Top(t) == Top(AfterPushes(s, 15))
    requires Untouched(AfterPushes(s, 15).data, t.data, Top(s), 15)
    ensures AfterPops(t, 15) == if Straddles(Top(s), 15) then None else Some(t.(gpr := s.gpr))
  {
    hide Around, Place, AfterPushes, AfterPops, Saved, Untouched;
    PushesAre(s, 15);
    StaysSaved(AfterPushes(s, 15).data, t.data, Top(s), s.gpr, 15);
    Lowest(Top(s));
    PopsAre(t, Top(s), s.gpr, 15);
    AllRegisters(s.gpr, t.gpr);
  }

  // ---------------------------------------------------------------- the emulator

  class Emulator {
    const data: array<Byte>
    const gpr: array<Addr>
    var pc: int

    ghost predicate Valid() {
      data.Length == 0x1_0000 && gpr.Length == 16 && (data as object) != gpr
    }

    ghost function View(): (s: State)
      requires Valid()
      reads this, data, gpr
      ensures Whole(s)
    {
      State(data[..], gpr[..], pc)
    }

    constructor ()
      ensures Valid() && fresh(data) && fresh(gpr)
      ensures View() == State(seq(0x1_0000, i => 0), seq(16, i => if i == SP then 0x5000 else 0), 0)
    {
      data := new Byte[0x1_0000](i => 0);
      gpr := new Addr[16](i => if i == SP then 0x5000 else 0);
      pc := 0;
    }

    method Sr(i: nat, v: int)
      requires Valid() && i < 16
      modifies gpr
      ensures View() == old(View()).(gpr := old(gpr[..])[i := v % 0x1_0000])
    {
      gpr[i] := v % 0x1_0000;
    }

    method Rw(a: nat) returns (v: Addr)
      requires Valid() && a < 0xffff
      ensures v == WordIn(data[..], a)
    {
      var lo: int, hi: int := data[a], data[a + 1];
      v := lo + 0x100 * hi;
    }

    method Ww(a: int, v: int)
      requires Valid() && -0x1_0000 <= a < 0xffff
      modifies data
      ensures View() == old(View()).(data := PutWord(old(data[..]), a, v))
    {
      data[Index(a)] := v % 0x100;
      data[Index(a + 1)] := v / 0x100 % 0x100;
    }

    method GetFlag(idx: nat) returns (b: bool)
      requires Valid()
      ensures b == BitAt(Flags(View()), idx)
    {
      var flags := Rw(FLAGS);
      b := BitAt(flags, idx);
    }

    /** set_flag and clear_flag. */
    method PutFlag(idx: nat, b: bool)
      requires Valid()
      modifies data
      ensures View() == old(View()).(data := PutWord(old(data[..]), FLAGS, WithBit(old(Flags(View())), idx, b)))
    {
      hide WithBit, PutWord, WordIn;
      var flags := Rw(FLAGS);
      Ww(FLAGS, WithBit(flags, idx, b));
    }

    /** update_flags for z and s. */
    method UpdateFlags(v: nat)
      requires Valid()
      modifies data
      ensures View().gpr == old(View()).gpr && View().pc == old(View()).pc
      ensures View().data == old(var z := PutWord(data[..], FLAGS, WithBit(WordIn(data[..], FLAGS), 0, v == 0));
                                 PutWord(z, FLAGS, WithBit(WordIn(z, FLAGS), 3, v >= 0x8000)))
    {
      hide WithBit, PutWord, WordIn;
      PutFlag(0, v == 0);
      PutFlag(3, v >= 0x8000);
    }

    method Operate(op: Dual, a: int, b: int) returns (v: nat, c: bool, o: bool)
      requires Valid()
      ensures Out(v, c, o) == Result(op, a, b, BitAt(Flags(View()), 1))
    {
      hide Sum, Difference, BitAt;
      match op
      case Add =>
        v, c, o := Alu.Add(a, b, false, 16);
      case Addc =>
        var carry := GetFlag(1);
        v, c, o := Alu.Add(a, b, carry, 16);
      case Subb =>
        var borrow := GetFlag(1);
        v, c, o := Alu.Sub(a, b, borrow, 16);
      case _ =>
        v, c, o := Alu.Sub(a, b, false, 16);
    }

    /** do_dual_op for do_add, do_addc, do_sub, do_subb and do_cmp. */
    method DoDual(op: Dual, dest: nat, src: Operand, length: nat)
      requires Valid() && dest < 16 && Exists(src)
      modifies this`pc, data, gpr
      ensures View() == AfterDual(old(View()), op, dest, src, length)
    {
      hide Result, WithBit, PutWord, WordIn, Marked, BitAt;
      var value: int := if src.Reg? then gpr[src.i] else src.v;
      var v, c, o := Operate(op, gpr[dest], value);
      ghost var out := Out(v, c, o);
      PutFlag(1, c);
      PutFlag(2, o);
      if op != Cmp {
        Sr(dest, v);
      }
      UpdateFlags(v);
      pc := pc + length;
      FourFlags(old(View()).data, out);
    }

    /** do_jz and the other fifteen, and do_jmp. */
    method DoJump(j: Jump, target: int, length: nat)
      requires Valid()
      modifies this`pc
      ensures View() == AfterJump(old(View()), j, target, length)
    {
      hide BitAt, WordIn;
      var z := GetFlag(0);
      var c := GetFlag(1);
      var o := GetFlag(2);
      var s := GetFlag(3);
      var taken := match j
        case Jz => z
        case Jnz => !z
        case Ja => !z && !c
        case Jo => o
        case Jno => !o
        case Jc => c
        case Jb => c
        case Js => s
        case Jns => !s
        case Jnc => !c
        case Jae => !c
        case Jbe => z || c
        case Jl => o != s
        case Jle => o != s || z
        case Jg => o == s && !z
        case Jge => o == s
        case Jmp => true;
      pc := if taken then target else pc + length;
    }

    method Push(v: int)
      requires Valid()
      modifies data, gpr
      ensures View() == AfterPush(old(View()), v)
    {
      hide PutWord;
      var sp: int := gpr[SP];
      var newSp := sp - 2;
      Ww(newSp, v);
      Sr(SP, newSp);
    }

    method Pop() returns (v: Option<Addr>)
      requires Valid()
      modifies gpr
      ensures match AfterPop(old(View()))
        case None => v == None && View() == old(View())
        case Some((s, w)) => v == Some(w) && View() == s
    {
      hide WordIn;
      var sp: int := gpr[SP];
      if sp == 0xffff {
        return None;
      }
      var w := Rw(sp);
      Sr(SP, sp + 2);
      v := Some(w);
    }

    method PushAllInt()
      requires Valid()
      modifies data, gpr
      ensures View() == AfterPushes(old(View()), 15)
    {
      hide AfterPush;
      for i := 0 to 15
        invariant View() == AfterPushes(old(View()), i)
      {
        Push(gpr[i]);
      }
    }

    method PopAllInt() returns (ok: bool)
      requires Valid()
      modifies gpr
      ensures match AfterPops(old(View()), 15)
        case None => !ok
        case Some(s) => ok && View() == s
    {
      hide AfterPop;
      for i := 15 downto 0
        invariant AfterPops(View(), i) == AfterPops(old(View()), 15)
      {
        var v := Pop();
        if v == None {
          return false;
        }
        Sr(i, v.value);
      }
      ok := true;
    }
  }

  /** Four writes of the flag word are one. */
  lemma FourFlags(data: seq<Byte>, out: Out)
    requires |data| == 0x1_0000
    ensures var f := WordIn(data, FLAGS);
      var c := PutWord(data, FLAGS, WithBit(f, 1, out.carry));
      var o := PutWord(c, FLAGS, WithBit(WordIn(c, FLAGS), 2, out.overflow));
      var z := PutWord(o, FLAGS, WithBit(WordIn(o, FLAGS), 0, out.value == 0));
      PutWord(z, FLAGS, WithBit(WordIn(z, FLAGS), 3, out.value >= 0x8000)) == PutWord(data, FLAGS, Marked(f, out))
  {
    hide PutWord, WordIn, WithBit, Marked;
    var f := WordIn(data, FLAGS);
    MarkedOneByOne(f, out);
    MarkedFits(f, out);
    var fc := WithBit(f, 1, out.carry);
    var c := PutWord(data, FLAGS, fc);
    PutThenRead(data, FLAGS, fc);
    var fo := WithBit(fc, 2, out.overflow);
    var o := PutWord(c, FLAGS, fo);
    PutThenRead(c, FLAGS, fo);
    PutTwice(data, FLAGS, fc, fo);
    var fz := WithBit(fo, 0, out.value == 0);
    var z := PutWord(o, FLAGS, fz);
    PutThenRead(o, FLAGS, fz);
    PutTwice(data, FLAGS, fo, fz);
    PutTwice(data, FLAGS, fz, Marked(f, out));
  }
}
