/** Words as the numbers that they stand for: what the bit-vector operations mean
    for integers. */
module WordNumbers {
  import opened Words
  import opened Powers
  import A = Adder
  import B = Binary
  import W = WordBits

  // ---------------------------------------------------------------- there and back

  /** The number of a word. */
  function Num(w: Word): Addr {
    w as int
  }

  lemma Back(w: Word)
    ensures Num(w) as Word == w
  {
  }

  function Double(w: Word, odd: bool): Word {
    if odd then (w << 1) | 1 else w << 1
  }

  lemma Doubled(w: Word)
    requires w < 0x8000
    ensures Num(w << 1) == 2 * Num(w)
  {
  }

  lemma DoubledAndOne(w: Word)
    requires w < 0x8000
    ensures Num((w << 1) | 1) == 2 * Num(w) + 1
  {
  }

  lemma DoubleIs(w: Word, odd: bool)
    requires w < 0x8000
    ensures Num(Double(w, odd)) == 2 * Num(w) + B.Bit(odd)
  {
    hide Num;
    if odd {
      DoubledAndOne(w);
    } else {
      Doubled(w);
    }
  }

  lemma Small(w: Word)
    ensures w < 0x8000 <==> Num(w) < 0x8000
  {
  }

  lemma {:induction false} Made(n: Addr) returns (w: Word)
    ensures Num(w) == n
    decreases n
  {
    if n == 0 {
      w := 0;
    } else {
      hide Double, Num;
      var h := Made(n / 2);
      w := Double(h, n % 2 == 1);
      Small(h);
      DoubleIs(h, n % 2 == 1);
    }
  }

  /** The number of a word made of a number. */
  lemma There(n: Addr)
    ensures Num(n as Word) == n
  {
    hide Num;
    var w := Made(n);
    Back(w);
  }

  // ---------------------------------------------------------------- bytes

  /** The word in two bytes: the second counts 256. */
  lemma JoinIs(lo: Byte, hi: Byte)
    ensures Num(Join(lo, hi)) == lo + 0x100 * hi
  {
    hide Num;
    There(lo + 0x100 * hi);
  }

  lemma HalvesAre(w: Word)
    ensures Num(w) == Lo(w) + 0x100 * Hi(w)
  {
  }

  /** Taken apart and put together again. */
  lemma JoinedAgain(w: Word)
    ensures Join(Lo(w), Hi(w)) == w
  {
    hide Lo, Hi, Num;
    HalvesAre(w);
    Back(w);
  }

  // ---------------------------------------------------------------- bits

  /** Bit `k` of a word. */
  predicate BitSet(w: Word, k: nat)
    requires k < 16
  {
    W.BitOf(w, W.MaskAt(k))
  }

  function Half(w: Word): Word {
    w >> 1
  }

  lemma Halved(w: Word)
    ensures w == Double(Half(w), W.BitOf(w, 1)) && Half(w) < 0x8000
  {
  }

  lemma HalfIs(w: Word)
    ensures Num(w) == 2 * Num(Half(w)) + B.Bit(W.BitOf(w, 1))
  {
    hide *;
    Halved(w);
    DoubleIs(Half(w), W.BitOf(w, 1));
  }

  lemma DownBit(w: Word, m: Word)
    requires m < 0x8000
    ensures W.BitOf(Half(w), m) == W.BitOf(w, m << 1) && !W.BitOf(Half(w), 0x8000)
  {
  }

  lemma DownBits(w: Word)
    ensures W.Bits(Half(w)) == W.Bits(w)[1..] + [false] && W.Bits(w)[0] == W.BitOf(w, 1)
  {
    hide W.Bits, W.BitOf, W.Single, W.MaskAt, Half;
    forall k | 0 <= k < 16 ensures W.Bits(Half(w))[k] == (W.Bits(w)[1..] + [false])[k] {
      W.BitsAt(Half(w), k);
      W.MaskIs(k);
      if k < 15 {
        W.BitsAt(w, k + 1);
        DownBit(w, W.MaskAt(k));
      } else {
        DownBit(w, 1);
      }
    }
    W.BitsAt(w, 0);
    W.MaskIs(0);
  }

  lemma {:induction false} NoMore(s: seq<bool>)
    ensures B.Value(s + [false]) == B.Value(s)
  {
    if s == [] {
      assert B.Value([false]) == 0;
    } else {
      assert (s + [false])[1..] == s[1..] + [false];
      NoMore(s[1..]);
    }
  }

  /** The number that the sixteen bits make is the word's. */
  lemma {:induction false} IntIs(w: Word)
    ensures W.Int(w) == Num(w)
    decreases Num(w)
  {
    hide *;
    if w == 0 {
      W.ZeroInt();
      NoNumber();
    } else {
      Smaller(w);
      IntIs(Half(w));
      HalfIs(w);
      HalfInt(w);
    }
  }

  lemma NoNumber()
    ensures Num(0) == 0
  {
  }

  lemma HalfInt(w: Word)
    ensures W.Int(w) == 2 * W.Int(Half(w)) + B.Bit(W.BitOf(w, 1))
  {
    hide W.Bits, W.BitOf, B.Bit, Half;
    DownBits(w);
    NoMore(W.Bits(w)[1..]);
  }

  lemma Smaller(w: Word)
    requires w != 0
    ensures Num(Half(w)) < Num(w)
  {
    hide Num, Half;
    HalfIs(w);
    Back(w);
  }

  lemma {:induction false} DigitIs(s: seq<bool>, k: nat)
    requires k < |s|
    ensures B.Value(s) / Pow2(k) % 2 == B.Bit(s[k])
  {
    hide Pow2, B.Value;
    ValueFrom(s);
    if k == 0 {
      SmallPowers(0);
    } else {
      DigitIs(s[1..], k - 1);
      Doubles(k - 1);
      HalfOf(B.Value(s[1..]), B.Bit(s[0]), Pow2(k - 1));
    }
  }

  lemma {:induction false} ValueFrom(s: seq<bool>)
    requires s != []
    ensures B.Value(s) == B.Bit(s[0]) + 2 * B.Value(s[1..])
  {
  }

  lemma Doubles(n: nat)
    ensures Pow2(n + 1) == 2 * Pow2(n)
  {
  }

  lemma HalfOf(v: nat, b: nat, d: nat)
    requires d > 0 && b < 2
    ensures (2 * v + b) / (2 * d) == v / d
  {
    var q, r := v / d, v % d;
    Euclid(v, d);
    assert 2 * v + b == (2 * d) * q + (2 * r + b);
    DivMod(2 * v + b, 2 * d, q, 2 * r + b);
  }

  /** Bit `k` is the digit that counts 2^k. */
  lemma {:induction false} BitSetIs(w: Word, k: nat)
    requires k < 16
    ensures BitSet(w, k) <==> Num(w) / Pow2(k) % 2 == 1
  {
    hide Pow2, Num, W.BitOf, W.MaskAt, W.Bits, B.Value;
    IntIs(w);
    DigitIs(W.Bits(w), k);
    W.BitsAt(w, k);
  }

  /** Addition is modulo 2^16. */
  lemma SumIs(x: Word, y: Word)
    ensures Num(x + y) == (Num(x) + Num(y)) % 0x1_0000
  {
    hide W.Int, Num;
    W.PlusInt(x, y);
    PlusIs(x, y);
    IntIs(x);
    IntIs(y);
    IntIs(x + y);
  }

  lemma PlusIs(x: Word, y: Word)
    ensures A.Plus(x, y) == x + y
  {
  }

  // ---------------------------------------------------------------- rotations

  function RolOne(w: Word): Word {
    (w << 1) | (w >> 15)
  }

  function RorTwo(w: Word): Word {
    (w >> 2) | (w << 14)
  }

  /** A rotation to the left by one: twice the word, and its top bit below. */
  lemma RolIs(w: Word)
    ensures Num(RolOne(w)) == 2 * Num(w) % 0x1_0000 + Num(w) / 0x8000
  {
    hide *;
    Small(w);
    if w < 0x8000 {
      RolSmall(w);
      DoubleIs(w, false);
      BitIs();
    } else {
      RolLarge(w);
      TopIs(w);
      DoubleIs(w & 0x7fff, true);
      Small(w & 0x7fff);
      BitIs();
    }
  }

  lemma BitIs()
    ensures B.Bit(false) == 0 && B.Bit(true) == 1
  {
  }

  lemma RolSmall(w: Word)
    requires w < 0x8000
    ensures RolOne(w) == Double(w, false)
  {
  }

  lemma RolLarge(w: Word)
    requires w >= 0x8000
    ensures RolOne(w) == Double(w & 0x7fff, true) && w & 0x7fff < 0x8000
  {
  }

  lemma TopIs(w: Word)
    requires w >= 0x8000
    ensures Num(w) == 0x8000 + Num(w & 0x7fff)
  {
  }

  /** A rotation to the right by two: a quarter of the word, and its two lowest bits
      above. */
  lemma RorIs(w: Word)
    ensures Num(RorTwo(w)) == Num(w) / 4 + 0x4000 * (Num(w) % 4)
  {
    hide *;
    var u := RorTwo(w);
    RotatedBack(w);
    RolIs(u);
    RolIs(RolOne(u));
    QuarterTurn(Num(u), Num(RolOne(u)), Num(w));
  }

  lemma RotatedBack(w: Word)
    ensures RolOne(RolOne(RorTwo(w))) == w
  {
  }

  lemma QuarterTurn(u: Addr, v: Addr, w: Addr)
    requires v == 2 * u % 0x1_0000 + u / 0x8000 && w == 2 * v % 0x1_0000 + v / 0x8000
    ensures u == w / 4 + 0x4000 * (w % 4)
  {
    if u < 0x4000 {
      assert v == 2 * u && w == 4 * u;
    } else if u < 0x8000 {
      assert v == 2 * u && w == 4 * (u - 0x4000) + 1;
    } else if u < 0xc000 {
      assert v == 2 * (u - 0x8000) + 1 && w == 4 * (u - 0x8000) + 2;
    } else {
      assert v == 2 * (u - 0x8000) + 1 && w == 4 * (u - 0xc000) + 3;
    }
  }
}
