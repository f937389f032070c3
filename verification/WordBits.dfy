/** Words as numbers: their sixteen bits, and what the adder of the layers means
    for them. */
module WordBits {
  import opened Words
  import opened Adder
  import B = Binary
  import opened Powers

  function BitOf(w: Word, mask: Word): bool {
    w & mask != 0
  }

  function Bits(w: Word): (s: seq<bool>)
    ensures |s| == 16
  {
    [BitOf(w, 0x1), BitOf(w, 0x2), BitOf(w, 0x4), BitOf(w, 0x8),
     BitOf(w, 0x10), BitOf(w, 0x20), BitOf(w, 0x40), BitOf(w, 0x80),
     BitOf(w, 0x100), BitOf(w, 0x200), BitOf(w, 0x400), BitOf(w, 0x800),
     BitOf(w, 0x1000), BitOf(w, 0x2000), BitOf(w, 0x4000), BitOf(w, 0x8000)]
  }

  /** The number that a word stands for. */
  function Int(w: Word): nat {
    B.Value(Bits(w))
  }

  lemma Fits(w: Word)
    ensures Int(w) < 0x1_0000 && Pow2(16) == 0x1_0000
  {
    hide B.Value;
    assert Pow2(8) == 0x100;
    assert Pow2(12) == 0x1000;
  }

  // ---------------------------------------------------------------- bit by bit

  /** A mask of one bit. */
  predicate Single(m: Word) {
    m & (m - 1) == 0
  }

  lemma XorBit(x: Word, y: Word, m: Word)
    requires Single(m)
    ensures BitOf(x ^ y, m) == (BitOf(x, m) != BitOf(y, m))
  {
  }

  lemma AndBit(x: Word, y: Word, m: Word)
    requires Single(m)
    ensures BitOf(x & y, m) == (BitOf(x, m) && BitOf(y, m))
  {
  }

  lemma UpBit(y: Word, m: Word)
    requires m < 0x8000
    ensures BitOf(y << 1, m << 1) == BitOf(y, m)
  {
  }

  lemma EndBits(y: Word)
    ensures !BitOf(y << 1, 1) && Top(y) == BitOf(y, 0x8000)
  {
  }

  function MaskAt(k: nat): Word
    requires k < 16
  {
    match k
    case 0 => 0x1
    case 1 => 0x2
    case 2 => 0x4
    case 3 => 0x8
    case 4 => 0x10
    case 5 => 0x20
    case 6 => 0x40
    case 7 => 0x80
    case 8 => 0x100
    case 9 => 0x200
    case 10 => 0x400
    case 11 => 0x800
    case 12 => 0x1000
    case 13 => 0x2000
    case 14 => 0x4000
    case _ => 0x8000
  }

  lemma MaskIs(k: nat)
    requires k < 16
    ensures Single(MaskAt(k)) && MaskAt(k) != 0 && (k == 0 ==> MaskAt(k) == 1) && (k == 15 ==> MaskAt(k) == 0x8000)
    ensures k < 15 ==> MaskAt(k) < 0x8000 && MaskAt(k + 1) == MaskAt(k) << 1
  {
  }

  lemma BitsAt(w: Word, k: nat)
    requires k < 16
    ensures Bits(w)[k] == BitOf(w, MaskAt(k))
  {
    hide BitOf;
  }

  lemma XorBits(x: Word, y: Word)
    ensures Bits(x ^ y) == B.Xor(Bits(x), Bits(y))
  {
    hide Bits, BitOf, Single, MaskAt;
    forall k | 0 <= k < 16 ensures Bits(x ^ y)[k] == (Bits(x)[k] != Bits(y)[k]) {
      BitsAt(x ^ y, k);
      BitsAt(x, k);
      BitsAt(y, k);
      MaskIs(k);
      XorBit(x, y, MaskAt(k));
    }
  }

  lemma AndBits(x: Word, y: Word)
    ensures Bits(x & y) == B.And(Bits(x), Bits(y))
  {
    hide Bits, BitOf, Single, MaskAt;
    forall k | 0 <= k < 16 ensures Bits(x & y)[k] == (Bits(x)[k] && Bits(y)[k]) {
      BitsAt(x & y, k);
      BitsAt(x, k);
      BitsAt(y, k);
      MaskIs(k);
      AndBit(x, y, MaskAt(k));
    }
  }

  lemma UpBits(y: Word)
    ensures Bits(y << 1) == B.Up(Bits(y)) && Top(y) == B.Top(Bits(y))
  {
    hide Bits, BitOf, Single, MaskAt, Top;
    MaskIs(0);
    MaskIs(15);
    EndBits(y);
    BitsAt(y << 1, 0);
    BitsAt(y, 15);
    forall k | 0 <= k < 15 ensures Bits(y << 1)[k + 1] == Bits(y)[k] {
      BitsAt(y << 1, k + 1);
      BitsAt(y, k);
      MaskIs(k);
      UpBit(y, MaskAt(k));
    }
    UpAt(Bits(y << 1), Bits(y));
  }

  lemma UpAt(u: seq<bool>, s: seq<bool>)
    requires |u| == |s| == 16 && !u[0] && forall k | 0 <= k < 15 :: u[k + 1] == s[k]
    ensures u == B.Up(s)
  {
    forall k | 0 <= k < 16 ensures u[k] == B.Up(s)[k] {
      if k > 0 {
        assert u[(k - 1) + 1] == s[k - 1];
      }
    }
  }

  // ---------------------------------------------------------------- numbers

  lemma RoundInt(x: Word, y: Word)
    ensures Int(x) + Int(y) == Int(Xor(x, y)) + Int(Carries(x, y)) + if Top(Both(x, y)) then 0x1_0000 else 0
  {
    hide Bits, B.Value, B.Xor, B.And, B.Up, B.Top, Top, Pow2;
    XorBits(x, y);
    AndBits(x, y);
    UpBits(x & y);
    Fits(x);
    B.RoundKeeps(Bits(x), Bits(y));
  }

  lemma ZeroInt()
    ensures Int(0) == 0
  {
    assert Bits(0) == B.Zero(16);
    B.ZeroValue(16);
  }

  /** What `+` on words means: the sum of the numbers modulo 2^16, which overflows
      exactly if they do not fit. */
  lemma PlusInt(x: Word, y: Word)
    ensures Int(Plus(x, y)) == (Int(x) + Int(y)) % 0x1_0000
    ensures Overflows(x, y) <==> Int(x) + Int(y) >= 0x1_0000
  {
    SettledAtLast(y);
    PlusIntFrom(x, y, 0);
  }

  lemma {:induction false} PlusIntFrom(x: Word, y: Word, n: nat)
    requires n <= 16 && Settled(y, n)
    ensures Int(Plus(x, y)) == (Int(x) + Int(y)) % 0x1_0000
    ensures Overflows(x, y) <==> Int(x) + Int(y) >= 0x1_0000
    decreases 16 - n
  {
    hide *;
    SettledAtLast(y);
    Fits(x);
    Fits(y);
    if y == 0 {
      NoCarries(x);
      ZeroInt();
      return;
    }
    RoundSettles(x, y, n);
    RoundKeepsSum(x, y);
    RoundKeepsCarry(x, y);
    RoundInt(x, y);
    PlusIntFrom(Xor(x, y), Carries(x, y), n + 1);
    Fits(Xor(x, y));
    Fits(Carries(x, y));
    Congruent(Int(x) + Int(y), Int(Xor(x, y)) + Int(Carries(x, y)), Top(Both(x, y)));
  }

  lemma Congruent(a: nat, b: nat, carry: bool)
    requires a == b + (if carry then 0x1_0000 else 0)
    ensures a % 0x1_0000 == b % 0x1_0000
  {
  }

  /** `neg` and one more make the negative modulo 2^16. */
  lemma NegativeInt(w: Word)
    ensures Int(Plus(1, !w)) == (0x1_0000 - Int(w)) % 0x1_0000
  {
    hide *;
    NotInt(w);
    OneInt();
    PlusInt(1, !w);
  }

  lemma NotInt(w: Word)
    ensures Int(w) + Int(!w) == 0xffff
  {
    hide Bits, B.Value, Pow2;
    NotBits(w);
    Fits(w);
    B.NotValue(Bits(w));
  }

  lemma OneInt()
    ensures Int(1) == 1
  {
    B.ZeroValue(15);
    assert Bits(1)[1..] == B.Zero(15);
    hide B.Zero;
  }

  lemma NotBit(w: Word, m: Word)
    requires Single(m) && m != 0
    ensures BitOf(!w, m) == !BitOf(w, m)
  {
  }

  lemma NotBits(w: Word)
    ensures Bits(!w) == B.Not(Bits(w))
  {
    hide Bits, BitOf, Single, MaskAt;
    forall k | 0 <= k < 16 ensures Bits(!w)[k] == !Bits(w)[k] {
      BitsAt(!w, k);
      BitsAt(w, k);
      MaskIs(k);
      NotBit(w, MaskAt(k));
    }
  }

  lemma IntInjective(x: Word, y: Word)
    requires Int(x) == Int(y)
    ensures x == y
  {
    hide Bits, B.Value;
    ValueInjective(Bits(x), Bits(y));
    BitsInjective(x, y);
  }

  lemma BitsInjective(x: Word, y: Word)
    requires Bits(x) == Bits(y)
    ensures x == y
  {
    hide BitOf;
    assert forall k | 0 <= k < 16 :: Bits(x)[k] == Bits(y)[k];
    SameBits(x, y);
  }

  lemma SameBits(x: Word, y: Word)
    requires BitOf(x, 0x1) == BitOf(y, 0x1) && BitOf(x, 0x2) == BitOf(y, 0x2)
    requires BitOf(x, 0x4) == BitOf(y, 0x4) && BitOf(x, 0x8) == BitOf(y, 0x8)
    requires BitOf(x, 0x10) == BitOf(y, 0x10) && BitOf(x, 0x20) == BitOf(y, 0x20)
    requires BitOf(x, 0x40) == BitOf(y, 0x40) && BitOf(x, 0x80) == BitOf(y, 0x80)
    requires BitOf(x, 0x100) == BitOf(y, 0x100) && BitOf(x, 0x200) == BitOf(y, 0x200)
    requires BitOf(x, 0x400) == BitOf(y, 0x400) && BitOf(x, 0x800) == BitOf(y, 0x800)
    requires BitOf(x, 0x1000) == BitOf(y, 0x1000) && BitOf(x, 0x2000) == BitOf(y, 0x2000)
    requires BitOf(x, 0x4000) == BitOf(y, 0x4000) && BitOf(x, 0x8000) == BitOf(y, 0x8000)
    ensures x == y
  {
  }

  lemma {:induction false} ValueInjective(s: seq<bool>, t: seq<bool>)
    requires |s| == |t| && B.Value(s) == B.Value(t)
    ensures s == t
  {
    if s != [] {
      assert s[0] == t[0];
      ValueInjective(s[1..], t[1..]);
      assert s == [s[0]] + s[1..] && t == [t[0]] + t[1..];
    }
  }
}
