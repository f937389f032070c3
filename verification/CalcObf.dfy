/** calc_obf as the decompiled programs and the C template have it (vmdisas.rb,
    bflayer2.c, bflayer3.c), and that it gives the server's masks. */
module CalcObf {
  import opened Words
  import opened WordNumbers
  import opened Obfuscation

  // ROL(x, 1), ROR(x, 2) and + on sixteen bits.
  function Rol1(x: Word): Word {
    (x << 1) | (x >> 15)
  }

  function Ror2(x: Word): Word {
    (x >> 2) | (x << 14)
  }

  function Add(x: Word, y: Word): Word {
    x + y
  }

  /** r6 and r8: the low byte of r2 ^ r5, and its high byte into it. */
  function Bytes(r2: Word, r5: Word): Word {
    ((r2 ^ r5) & 0xff) ^ (((r2 ^ r5) >> 8) & 0xff)
  }

  /** The loop, with `n` rounds to go. */
  function Loop(r5: Word, r2: Word, r6: Word, r7: Word, n: nat): Word
    decreases n
  {
    if n == 0 then (r6 << 8) | r7
    else
      var r5' := Rol1(r5);
      var r2' := Add(Ror2(r2), r5');
      Loop(Add(r5', 2), r2', Bytes(r2', Add(r5', 2)), r6, n - 1)
  }

  function CalcObf(addr: Word, reg: nat, v: Word): Word {
    Loop(((((v << 6) + v) << 4) + v) ^ 0x464d, addr ^ 0x6c38, 0, 0, reg + 2)
  }

  /** calc_obf itself, for a register value of 16 bits. */
  method ComputeObf(addr: Word, reg: nat, v: Word) returns (mask: Word)
    ensures mask == CalcObf(addr, reg, v)
  {
    hide Rol1, Ror2, Add, Bytes;
    var r5: Word := ((((v << 6) + v) << 4) + v) ^ 0x464d;
    var r2: Word, r6: Word, r7: Word := addr ^ 0x6c38, 0, 0;
    for i := 0 to reg + 2
      invariant Loop(r5, r2, r6, r7, reg + 2 - i) == CalcObf(addr, reg, v)
    {
      r7 := r6;
      r5 := Rol1(r5);
      r2 := Add(Ror2(r2), r5);
      r5 := Add(r5, 2);
      r6 := Bytes(r2, r5);
    }
    mask := (r6 << 8) | r7;
  }

  // ---------------------------------------------------------------- the server's mask

  lemma SameRound(r5: Word, r2: Word, x: Word, y: Word)
    ensures Rol1(r5) == RolOne(r5) && Ror2(r2) == RorTwo(r2)
    ensures Add(x, y) == AddWords(x, y) && Bytes(x, y) == FoldBytes(x, y)
  {
  }

  lemma {:induction false} FromFront(s: Mix, n: nat)
    ensures Rounds(s, n + 1) == Rounds(Round(s), n)
  {
    hide Round;
    if n > 0 {
      FromFront(s, n - 1);
    }
  }

  lemma {:induction false} LoopIs(s: Mix, n: nat)
    ensures var t := Rounds(s, n); Loop(s.r5, s.r2, s.r6, s.r7, n) == (t.r6 << 8) | t.r7
    decreases n
  {
    hide Rol1, Ror2, Add, Bytes, RolOne, RorTwo, AddWords, FoldBytes;
    if n > 0 {
      var t := Round(s);
      SameRound(s.r5, s.r2, RorTwo(s.r2), RolOne(s.r5));
      SameRound(s.r5, s.r2, RolOne(s.r5), 2);
      SameRound(s.r5, s.r2, t.r2, t.r5);
      FromFront(s, n - 1);
      LoopIs(t, n - 1);
    }
  }

  /** The programs mask as the server does. */
  lemma CalcObfIsMask(addr: Word, reg: nat, v: Word)
    ensures CalcObf(addr, reg, v) == Mask(addr, reg, v)
  {
    hide Loop, Rounds;
    LoopIs(Start(addr, v), reg + 2);
  }
}
