/** The mask under which obfuscated variables are stored (server.c, sub_484c; the
    decompiled programs have the same loop as calc_obf). */
module Obfuscation {
  import opened Words
  import opened WordNumbers
  import W = WordBits

  datatype Mix = Mix(r5: Word, r2: Word, r6: Word, r7: Word)

  function Start(addr: Word, key: Word): Mix {
    Mix(((((key << 6) + key) << 4) + key) ^ 0x464d, addr ^ 0x6c38, 0, 0)
  }

  function AddWords(x: Word, y: Word): Word {
    x + y
  }

  function FoldBytes(x: Word, y: Word): Word {
    ((x ^ y) & 0xff) ^ (((x ^ y) >> 8) & 0xff)
  }

  function Round(s: Mix): Mix {
    var r5 := RolOne(s.r5);
    var r2 := AddWords(RorTwo(s.r2), r5);
    Mix(AddWords(r5, 2), r2, FoldBytes(r2, AddWords(r5, 2)), s.r6)
  }

  function Rounds(s: Mix, n: nat): Mix {
    if n == 0 then s else Round(Rounds(s, n - 1))
  }

  function Mask(addr: Word, reg: nat, key: Word): Word {
    var s := Rounds(Start(addr, key), reg + 2);
    (s.r6 << 8) | s.r7
  }

  /** The server's loop, for a register value of 16 bits. */
  method ComputeMask(addr: Word, reg: nat, key: Word) returns (mask: Word)
    ensures mask == Mask(addr, reg, key)
  {
    hide *;
    var r5: Word := ((((key << 6) + key) << 4) + key) ^ 0x464d;
    var r2: Word, r6: Word, r7: Word := addr ^ 0x6c38, 0, 0;
    Begins(addr, key);
    for i := 0 to reg + 2
      invariant Mix(r5, r2, r6, r7) == Rounds(Start(addr, key), i)
    {
      OneMoreRound(Start(addr, key), i);
      r7 := r6;
      r5 := RolOne(r5);
      r2 := RorTwo(r2);
      r2 := AddWords(r2, r5);
      r5 := AddWords(r5, 2);
      r6 := FoldBytes(r2, r5);
    }
    mask := (r6 << 8) | r7;
    MaskParts(addr, reg, key);
  }

  lemma {:induction false} Begins(addr: Word, key: Word)
    ensures Rounds(Start(addr, key), 0) == Mix(((((key << 6) + key) << 4) + key) ^ 0x464d, addr ^ 0x6c38, 0, 0)
  {
  }

  lemma {:induction false} OneMoreRound(s: Mix, n: nat)
    ensures Rounds(s, n + 1) == Round(Rounds(s, n))
    ensures var r := Rounds(s, n);
      var (r5, r2) := (RolOne(r.r5), AddWords(RorTwo(r.r2), RolOne(r.r5)));
      Rounds(s, n + 1) == Mix(AddWords(r5, 2), r2, FoldBytes(r2, AddWords(r5, 2)), r.r6)
  {
    hide RolOne, RorTwo, AddWords, FoldBytes;
  }

  // ---------------------------------------------------------------- in numbers

  /** The two registers that a round turns, as numbers. */
  datatype Pair = Pair(r5: Addr, r2: Addr)

  function PairOf(s: Mix): Pair {
    Pair(Num(s.r5), Num(s.r2))
  }

  /** One round: the first is rotated by one to the left and grows by two, the second
      is rotated by two to the right and grows by the first, modulo 2^16. */
  predicate Turned(m: Pair, m': Pair) {
    var rol, ror := 2 * m.r5 % 0x1_0000 + m.r5 / 0x8000, m.r2 / 4 + 0x4000 * (m.r2 % 4);
    m'.r5 == (rol + 2) % 0x1_0000 && m'.r2 == (ror + rol) % 0x1_0000
  }

  /** `w` is the exclusive or of the four bytes of two words. */
  predicate Folded(x: Word, y: Word, w: Word) {
    && w < 0x100
    && forall k: nat | k < 8 ::
         BitSet(w, k) <==> ((BitSet(x, k) != BitSet(y, k)) != (BitSet(x, k + 8) != BitSet(y, k + 8)))
  }

  lemma RoundIs(s: Mix)
    ensures var t := Round(s);
      && t.r5 == AddWords(RolOne(s.r5), 2) && t.r2 == AddWords(RorTwo(s.r2), RolOne(s.r5))
      && t.r6 == FoldBytes(t.r2, t.r5) && t.r7 == s.r6
  {
    hide RolOne, RorTwo, AddWords, FoldBytes;
  }

  lemma SumOf(x: Word, y: Word)
    ensures Num(AddWords(x, y)) == (Num(x) + Num(y)) % 0x1_0000
  {
    hide Num;
    SumIs(x, y);
  }

  lemma RoundTurns(s: Mix)
    ensures Turned(PairOf(s), PairOf(Round(s)))
  {
    hide Num, RolOne, RorTwo, Round, AddWords, FoldBytes;
    RoundIs(s);
    RolIs(s.r5);
    RorIs(s.r2);
    SumOf(RolOne(s.r5), 2);
    SumOf(RorTwo(s.r2), RolOne(s.r5));
    TwoIs();
  }

  lemma TwoIs()
    ensures Num(2) == 2
  {
  }

  lemma RoundFolds(s: Mix)
    ensures var t := Round(s); Folded(t.r2, t.r5, t.r6) && t.r7 == s.r6
  {
    hide Round, FoldBytes, BitSet;
    RoundIs(s);
    var t := Round(s);
    FoldFits(t.r2, t.r5);
    forall k: nat | k < 8
      ensures BitSet(t.r6, k) <==>
        ((BitSet(t.r2, k) != BitSet(t.r5, k)) != (BitSet(t.r2, k + 8) != BitSet(t.r5, k + 8)))
    {
      FoldBit(t.r2, t.r5, k);
    }
  }

  lemma FoldFits(x: Word, y: Word)
    ensures FoldBytes(x, y) < 0x100
  {
  }

  lemma FoldBit(x: Word, y: Word, k: nat)
    requires k < 8
    ensures BitSet(FoldBytes(x, y), k) <==> ((BitSet(x, k) != BitSet(y, k)) != (BitSet(x, k + 8) != BitSet(y, k + 8)))
  {
    hide FoldBytes, W.BitOf, W.MaskAt, W.Single;
    W.MaskIs(k);
    LowMask(k);
    FoldBitAt(x, y, W.MaskAt(k));
  }

  lemma LowMask(k: nat)
    requires k < 8
    ensures W.MaskAt(k) < 0x100 && W.MaskAt(k + 8) == W.MaskAt(k) << 8
  {
  }

  lemma FoldBitAt(x: Word, y: Word, m: Word)
    requires W.Single(m) && m < 0x100
    ensures W.BitOf(FoldBytes(x, y), m) <==>
      ((W.BitOf(x, m) != W.BitOf(y, m)) != (W.BitOf(x, m << 8) != W.BitOf(y, m << 8)))
  {
    var z := x ^ y;
    ByteFold(z, m);
    HighMask(m);
    hide FoldBytes, W.BitOf, W.Single;
    W.XorBit(x, y, m);
    W.XorBit(x, y, m << 8);
    FoldOf(x, y);
  }

  lemma FoldOf(x: Word, y: Word)
    ensures FoldBytes(x, y) == ByteXor(x ^ y)
  {
  }

  function ByteXor(z: Word): Word {
    (z & 0xff) ^ ((z >> 8) & 0xff)
  }

  lemma HighMask(m: Word)
    requires W.Single(m) && m < 0x100
    ensures W.Single(m << 8)
  {
  }

  lemma ByteFold(z: Word, m: Word)
    requires W.Single(m) && m < 0x100
    ensures W.BitOf(ByteXor(z), m) <==> W.BitOf(z, m) != W.BitOf(z, m << 8)
  {
  }

  /** A turn loses nothing: rotated back, the registers are what they were. */
  lemma TurnedBack(m: Pair, m': Pair)
    requires Turned(m, m')
    ensures var rol := (m'.r5 - 2) % 0x1_0000;
      var ror := (m'.r2 - rol) % 0x1_0000;
      m.r5 == rol / 2 + 0x8000 * (rol % 2) && m.r2 == 4 * ror % 0x1_0000 + ror / 0x4000
  {
    var rol, ror := 2 * m.r5 % 0x1_0000 + m.r5 / 0x8000, m.r2 / 4 + 0x4000 * (m.r2 % 4);
    RightByOne(m.r5, rol);
    LeftByTwo(m.r2, ror);
    Subtracted(m'.r5, rol, 2);
    Subtracted(m'.r2, ror, rol);
  }

  lemma Subtracted(s: int, x: int, y: int)
    requires s == (x + y) % 0x1_0000 && 0 <= x < 0x1_0000
    ensures (s - y) % 0x1_0000 == x
  {
  }

  lemma RightByOne(w: Addr, rol: int)
    requires rol == 2 * w % 0x1_0000 + w / 0x8000
    ensures 0 <= rol < 0x1_0000 && w == rol / 2 + 0x8000 * (rol % 2)
  {
    if w < 0x8000 {
      assert rol == 2 * w;
    } else {
      assert rol == 2 * (w - 0x8000) + 1;
    }
  }

  lemma LeftByTwo(w: Addr, ror: int)
    requires ror == w / 4 + 0x4000 * (w % 4)
    ensures 0 <= ror < 0x1_0000 && w == 4 * ror % 0x1_0000 + ror / 0x4000
  {
    var q, r := w / 4, w % 4;
    assert w == 4 * q + r && 4 * ror == 4 * q + 0x1_0000 * r;
  }

  /** What the mask is, without the loop: from two numbers made of key and address,
      `reg + 2` turns, and the last two folds side by side. */
  lemma {:induction false} MaskIs(addr: Word, reg: nat, key: Word)
    returns (run: seq<Pair>, high: Word, low: Word)
    ensures |run| == reg + 3 && run[0] == Pair(Num((1041 * key) ^ 0x464d), Num(addr ^ 0x6c38))
    ensures forall i: nat | i < reg + 2 :: Turned(run[i], run[i + 1])
    ensures Folded(run[reg + 2].r2 as Word, run[reg + 2].r5 as Word, high)
    ensures Folded(run[reg + 1].r2 as Word, run[reg + 1].r5 as Word, low)
    ensures Mask(addr, reg, key) == (high << 8) | low
  {
    hide *;
    var s := Start(addr, key);
    run := Pairs(s, reg + 2);
    StartIs(addr, key);
    high, low := Rounds(s, reg + 2).r6, Rounds(s, reg + 2).r7;
    MaskParts(addr, reg, key);
    LastFolds(s, reg);
    NumbersBack(Rounds(s, reg + 2));
    NumbersBack(Rounds(s, reg + 1));
  }

  lemma StartIs(addr: Word, key: Word)
    ensures PairOf(Start(addr, key)) == Pair(Num((1041 * key) ^ 0x464d), Num(addr ^ 0x6c38))
  {
    hide Num;
    TimesIs(key);
  }

  lemma TimesIs(key: Word)
    ensures (((key << 6) + key) << 4) + key == 1041 * key
  {
  }

  lemma {:induction false} MaskParts(addr: Word, reg: nat, key: Word)
    ensures var s := Rounds(Start(addr, key), reg + 2); Mask(addr, reg, key) == (s.r6 << 8) | s.r7
  {
    hide Rounds, Start;
  }

  lemma {:induction false} LastFolds(s: Mix, n: nat)
    ensures var (t, u) := (Rounds(s, n + 1), Rounds(s, n + 2));
      Folded(t.r2, t.r5, u.r7) && Folded(u.r2, u.r5, u.r6)
  {
    hide Round, Folded;
    var t := Rounds(s, n + 1);
    RoundFolds(Rounds(s, n));
    RoundFolds(t);
    assert Rounds(s, n + 2) == Round(t) && t == Round(Rounds(s, n));
  }

  lemma NumbersBack(s: Mix)
    ensures PairOf(s).r5 as Word == s.r5 && PairOf(s).r2 as Word == s.r2
  {
    hide Num;
    Back(s.r5);
    Back(s.r2);
  }

  lemma {:induction false} Pairs(s: Mix, n: nat) returns (run: seq<Pair>)
    ensures |run| == n + 1 && forall i: nat | i <= n :: run[i] == PairOf(Rounds(s, i))
    ensures run[0] == PairOf(s) && forall i: nat | i < n :: Turned(run[i], run[i + 1])
  {
    hide Round, PairOf, Turned;
    if n == 0 {
      run := [PairOf(s)];
    } else {
      run := Pairs(s, n - 1);
      RoundTurns(Rounds(s, n - 1));
      assert Rounds(s, n) == Round(Rounds(s, n - 1));
      run := run + [PairOf(Rounds(s, n))];
    }
  }

  /** Layer 3's mask for the word at 0xa010. */
  lemma MaskExample()
    ensures Mask(0xa00c, 4, 0x33) == 0x2965
  {
    var s := Start(0xa00c, 0x33);
    var t := Rounds(s, 3);
    assert t == Round(Round(Round(s)));
  }
}
