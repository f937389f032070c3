/** What an instruction means, told bit by bit: the operands before and after a step
    of the machine, the flag word, and the position. */
module Meaning {
  import opened Words
  import opened WordNumbers
  import opened Instructions
  import opened LineCache
  import A = Attempts
  import M = Machine
  import W = WordBits

  // ---------------------------------------------------------------- operators

  lemma OrBit(a: Word, b: Word, k: nat)
    requires k < 16
    ensures BitSet(a | b, k) <==> BitSet(a, k) || BitSet(b, k)
  {
    hide W.BitOf, W.MaskAt;
    OrBitOf(a, b, W.MaskAt(k));
  }

  lemma OrBitOf(a: Word, b: Word, m: Word)
    ensures W.BitOf(a | b, m) == (W.BitOf(a, m) || W.BitOf(b, m))
  {
    assert (a | b) & m == (a & m) | (b & m);
    NoBits(a & m, b & m);
  }

  lemma NoBits(a: Word, b: Word)
    ensures a | b == 0 <==> a == 0 && b == 0
  {
  }

  lemma AndBit(a: Word, b: Word, k: nat)
    requires k < 16
    ensures BitSet(a & b, k) <==> BitSet(a, k) && BitSet(b, k)
  {
    hide W.BitOf, W.MaskAt, W.Single;
    W.MaskIs(k);
    W.AndBit(a, b, W.MaskAt(k));
  }

  lemma NotBit(a: Word, k: nat)
    requires k < 16
    ensures BitSet(!a, k) <==> !BitSet(a, k)
  {
    hide W.BitOf, W.MaskAt, W.Single;
    W.MaskIs(k);
    W.NotBit(a, W.MaskAt(k));
  }

  lemma XorBit(a: Word, b: Word, k: nat)
    requires k < 16
    ensures BitSet(a ^ b, k) <==> BitSet(a, k) != BitSet(b, k)
  {
    hide W.BitOf, W.MaskAt, W.Single;
    W.MaskIs(k);
    W.XorBit(a, b, W.MaskAt(k));
  }

  /** One place further to the left, or to the right. */
  lemma LeftBit(a: Word, k: nat)
    requires k < 16
    ensures BitSet(a << 1, k) <==> k >= 1 && BitSet(a, k - 1)
  {
    hide W.BitOf, W.MaskAt, W.Single;
    if k == 0 {
      W.MaskIs(0);
      W.EndBits(a);
    } else {
      W.MaskIs(k - 1);
      W.UpBit(a, W.MaskAt(k - 1));
    }
  }

  lemma RightBit(a: Word, k: nat)
    requires k < 16
    ensures BitSet(a >> 1, k) <==> k < 15 && BitSet(a, k + 1)
  {
    hide W.BitOf, W.MaskAt, W.Single, Half;
    W.MaskIs(k);
    HalfOf(a);
    if k < 15 {
      DownBit(a, W.MaskAt(k));
    } else {
      DownBit(a, 1);
    }
  }

  lemma HalfOf(a: Word)
    ensures Half(a) == a >> 1
  {
  }

  function ToRight(v: Word, c: bv5): Word
    requires c <= 16
  {
    v >> c
  }

  function ToLeft(v: Word, c: bv5): Word
    requires c <= 16
  {
    v << c
  }

  lemma NextPlace(n: nat)
    requires n < 16
    ensures (n + 1) as bv5 == (n as bv5) + 1 && n as bv5 < 16
  {
  }

  lemma OnceToRight(v: Word, c: bv5)
    requires c < 16
    ensures ToRight(v, c + 1) == ToRight(v, c) >> 1
  {
  }

  lemma OnceToLeft(v: Word, c: bv5)
    requires c < 16
    ensures ToLeft(v, c + 1) == ToLeft(v, c) << 1
  {
  }

  lemma ShiftedRight(n: nat, v: Word)
    requires 1 <= n <= 16 && n as bv5 <= 16
    ensures M.Shifted(true, n, v) == ToRight(v, n as bv5)
  {
  }

  lemma ShiftedLeft(n: nat, v: Word)
    requires 1 <= n <= 16 && n as bv5 <= 16
    ensures M.Shifted(false, n, v) == ToLeft(v, n as bv5)
  {
  }

  /** A shift by `n + 1` is one by `n` and one by 1. */
  lemma ShiftOnce(right: bool, n: nat, v: Word)
    requires 1 <= n < 16
    ensures M.Shifted(right, n + 1, v) == if right then M.Shifted(right, n, v) >> 1 else M.Shifted(right, n, v) << 1
  {
    hide *;
    NextPlace(n);
    FitsPlace(n as bv5);
    if right {
      OnceToRight(v, n as bv5);
      ShiftedRight(n, v);
      ShiftedRight(n + 1, v);
    } else {
      OnceToLeft(v, n as bv5);
      ShiftedLeft(n, v);
      ShiftedLeft(n + 1, v);
    }
  }

  lemma FitsPlace(c: bv5)
    requires c < 16
    ensures c <= 16 && c + 1 <= 16
  {
  }

  lemma ShiftByOne(right: bool, v: Word)
    ensures M.Shifted(right, 1, v) == if right then v >> 1 else v << 1
  {
  }

  lemma {:induction false} ShiftBit(right: bool, n: nat, v: Word, k: nat)
    requires 1 <= n <= 16 && k < 16
    ensures BitSet(M.Shifted(right, n, v), k) <==>
      if right then k + n < 16 && BitSet(v, k + n) else k >= n && BitSet(v, k - n)
    decreases n
  {
    hide BitSet, M.Shifted;
    if n == 1 {
      ShiftByOne(right, v);
      LeftBit(v, k);
      RightBit(v, k);
    } else {
      ShiftOnce(right, n - 1, v);
      LeftBit(M.Shifted(right, n - 1, v), k);
      RightBit(M.Shifted(right, n - 1, v), k);
      if right && k < 15 {
        ShiftBit(right, n - 1, v, k + 1);
      }
      if !right && k >= 1 {
        ShiftBit(right, n - 1, v, k - 1);
      }
    }
  }

  /** The last bit shifted out. */
  lemma CarryBit(right: bool, n: nat, v: Word)
    requires 1 <= n <= 16
    ensures M.ShiftCarry(right, n, v) == if BitSet(v, if right then n - 1 else 16 - n) then 1 else 0
  {
    var places := if right then n - 1 else 16 - n;
    hide BitSet, M.Shifted, M.ShiftCarry;
    if right {
      CarryIsRight(n, v);
    } else {
      CarryIsLeft(n, v);
    }
    LowestBit(Down(v, places));
    if places > 0 {
      DownIs(v, places);
      ShiftBit(true, places, v, 0);
    } else {
      DownNone(v);
    }
  }

  function Down(v: Word, n: nat): Word
    requires n <= 16
  {
    v >> n
  }

  lemma DownIs(v: Word, n: nat)
    requires 1 <= n <= 16
    ensures Down(v, n) == M.Shifted(true, n, v)
  {
  }

  lemma DownNone(v: Word)
    ensures Down(v, 0) == v
  {
  }

  lemma CarryIsRight(n: nat, v: Word)
    requires 1 <= n <= 16
    ensures M.ShiftCarry(true, n, v) == Lowest(Down(v, n - 1))
  {
  }

  lemma CarryIsLeft(n: nat, v: Word)
    requires 1 <= n <= 16
    ensures M.ShiftCarry(false, n, v) == Lowest(Down(v, 16 - n))
  {
  }

  function Lowest(v: Word): Word {
    v & 1
  }

  lemma LowestBit(v: Word)
    ensures Lowest(v) == if BitSet(v, 0) then 1 else 0
  {
  }

  // ---------------------------------------------------------------- words in memory

  /** What a memory operand reads, in numbers: the byte at its address, or that and
      256 times the next one. */
  lemma ReadIs(mem: seq<Byte>, a: Addr, size: nat)
    requires |mem| == MEMORY && a < USABLE
    ensures Num(M.Raw(mem, a, size)) as int == (mem[a] as int) + if size == 0 then 0 else 0x100 * mem[a + 1] as int
  {
    hide Num;
    if size == 0 {
      There(mem[a]);
    } else {
      JoinIs(mem[a], mem[a + 1]);
    }
  }

  /** Where a memory operand is, from the number in its register. */
  predicate IsAt(op: Operand, regs: seq<Word>, a: Addr)
    requires M.IsMemory(op) && (M.HasReg(op) ==> op.reg < |regs|)
  {
    match op
    case MemReg(_, r) => a == Num(regs[r])
    case MemImm(_, base) => a == base
    case MemIdx(_, base, r) => a == (base + Num(regs[r])) % 0x1_0000
    case Obf(_, base, r, _) => a == (base + Num(regs[r])) % 0x1_0000
  }

  /** What an operand reads: a register, a constant, the bytes at its address, or those
      under its mask. */
  lemma OperandReads(op: Operand, regs: seq<Word>, mem: seq<Byte>)
    requires |regs| == M.REGISTERS && |mem| == MEMORY && M.OperandDefined(op, regs) && M.OperandEncoded(op)
    ensures op.Reg? ==> op.reg < |regs| && M.Value(op, regs, mem) == regs[op.reg]
    ensures op.Imm? ==> Num(M.Value(op, regs, mem)) == op.value
    ensures M.IsMemory(op) ==>
      && (M.HasReg(op) ==> op.reg < |regs|) && IsAt(op, regs, M.Place(op, regs)) && M.Place(op, regs) < USABLE
      && var a := M.Place(op, regs);
      var bytes := (mem[a] as int) + if op.size == 0 then 0 else 0x100 * mem[a + 1] as int;
      && (!op.Obf? ==> Num(M.Value(op, regs, mem)) as int == bytes)
      && (op.Obf? ==> op.reg < |regs| && op.key < 0x1_0000 && exists stored: Word ::
           && Num(stored) as int == bytes
           && M.Value(op, regs, mem) ==
                M.Masked(stored, M.OperandMask(op, regs)) & if op.size == 0 then 0xff else 0xffff)
  {
    hide *;
    Kinds(op, regs, mem);
    if M.IsMemory(op) {
      PlaceFits(op, regs);
      PlaceIsAt(op, regs);
      ReadIs(mem, M.Place(op, regs), op.size);
      if op.Obf? {
        HiddenValue(op, regs, mem);
        UnderMask(M.Raw(mem, M.Place(op, regs), op.size), M.OperandMask(op, regs));
      } else {
        PlainValue(op, regs, mem);
      }
    }
  }

  lemma UnderMask(v: Word, mask: Word)
    ensures M.Masked(v, mask) == v ^ mask && M.Masked(v, mask) & 0xffff == v ^ mask
  {
  }

  lemma Kinds(op: Operand, regs: seq<Word>, mem: seq<Byte>)
    requires |regs| == M.REGISTERS && |mem| == MEMORY && M.OperandDefined(op, regs) && M.OperandEncoded(op)
    ensures op.Reg? ==> op.reg < |regs| && M.Value(op, regs, mem) == regs[op.reg]
    ensures op.Imm? ==> Num(M.Value(op, regs, mem)) == op.value
  {
    hide Num, M.Raw, M.Place, M.OperandMask;
    if op.Imm? {
      There(op.value);
    }
  }

  lemma PlaceIsAt(op: Operand, regs: seq<Word>)
    requires |regs| == M.REGISTERS && M.OperandDefined(op, regs) && M.IsMemory(op)
    ensures (M.HasReg(op) ==> op.reg < |regs|) && IsAt(op, regs, M.Place(op, regs))
  {
  }

  lemma LowByteBack(w: Word)
    ensures Lo(w) as Word == w & 0xff
  {
    hide Lo, Num;
    LoIs(w);
    Back(w & 0xff);
  }

  lemma LoIs(w: Word)
    ensures Lo(w) == Num(w & 0xff)
  {
  }

  /** Bytes that were stored at an address are read back. */
  lemma RawOfBytes(mem: seq<Byte>, a: Addr, size: nat, w: Word)
    requires |mem| == MEMORY && a < USABLE
    ensures |M.Bytes(w, size)| <= 2
    ensures M.Raw(Splice(mem, a, M.Bytes(w, size)), a, size) == if size == 0 then w & 0xff else w
  {
    hide Lo, Hi;
    LowByteBack(w);
    JoinedAgain(w);
  }

  lemma Unmasked(v: Word, mask: Word)
    ensures M.Masked(v, mask) ^ mask == v && ((M.Masked(v, mask) & 0xff) ^ mask) & 0xff == v & 0xff
  {
  }

  /** What an operand holds after a save of `v`: all of it, or its low byte; a register
      keeps its high one. */
  function Held(op: Operand, was: Word, v: Word): Word {
    if op.size == 1 then v else if op.Reg? then M.Merge(0, was, v) else v & 0xff
  }

  function OldReg(op: Operand, regs: seq<Word>): Word {
    if op.Reg? && op.reg < |regs| then regs[op.reg] else 0
  }

  /** Store, then load: after a save the operand holds the value, masked or not. */
  lemma SavedIsLoaded(op: Operand, cpu: M.Cpu, mem: seq<Byte>, v: Word)
    requires |cpu.regs| == M.REGISTERS && |mem| == MEMORY && M.OperandDefined(op, cpu.regs) && M.OperandEncoded(op)
    requires !op.Imm?
    ensures var e := M.Save(op, cpu, v);
      && M.StoreFits(e.store) && |e.cpu.regs| == M.REGISTERS && M.OperandDefined(op, e.cpu.regs)
      && M.Value(op, e.cpu.regs, M.Apply(e.store, mem)) == Held(op, OldReg(op, cpu.regs), v)
  {
    M.SaveFits(op, cpu, v);
    if op.Reg? {
      SavedInRegister(op, cpu, mem, v);
    } else {
      SavedInMemory(op, cpu, mem, v);
    }
  }

  lemma SavedInRegister(op: Operand, cpu: M.Cpu, mem: seq<Byte>, v: Word)
    requires |cpu.regs| == M.REGISTERS && |mem| == MEMORY && M.OperandDefined(op, cpu.regs) && M.OperandEncoded(op)
    requires op.Reg?
    ensures var e := M.Save(op, cpu, v);
      && e.store.NoStore? && |e.cpu.regs| == M.REGISTERS && M.OperandDefined(op, e.cpu.regs)
      && M.Value(op, e.cpu.regs, mem) == Held(op, OldReg(op, cpu.regs), v)
  {
    MergeWord(OldReg(op, cpu.regs), v);
    hide M.Merge, M.OperandMask, M.Raw;
  }

  lemma MergeWord(was: Word, v: Word)
    ensures M.Merge(1, was, v) == v
  {
  }

  lemma SavedInMemory(op: Operand, cpu: M.Cpu, mem: seq<Byte>, v: Word)
    requires |cpu.regs| == M.REGISTERS && |mem| == MEMORY && M.OperandDefined(op, cpu.regs) && M.OperandEncoded(op)
    requires M.IsMemory(op)
    ensures var e := M.Save(op, cpu, v);
      && e.store.Store? && M.StoreFits(e.store) && e.cpu == cpu
      && M.Value(op, cpu.regs, M.Apply(e.store, mem)) == Held(op, 0, v)
  {
    hide *;
    SaveStores(op, cpu, v);
    PlaceFits(op, cpu.regs);
    var w := if op.Obf? then M.Masked(v, M.OperandMask(op, cpu.regs)) else v;
    BytesShort(w, op.size);
    var after := Splice(mem, M.Place(op, cpu.regs), M.Bytes(w, op.size));
    RawOfBytes(mem, M.Place(op, cpu.regs), op.size, w);
    ApplyIs(M.Place(op, cpu.regs), M.Bytes(w, op.size), mem);
    if op.Obf? {
      Unmasked(v, M.OperandMask(op, cpu.regs));
      HiddenValue(op, cpu.regs, after);
    } else {
      PlainValue(op, cpu.regs, after);
    }
    HeldInMemory(op, v);
  }

  lemma BytesShort(w: Word, size: nat)
    ensures |M.Bytes(w, size)| <= 2
  {
  }

  lemma HeldInMemory(op: Operand, v: Word)
    requires M.IsMemory(op) && op.size <= 1
    ensures Held(op, 0, v) == if op.size == 0 then v & 0xff else v
  {
    hide M.Merge;
  }

  lemma ApplyIs(a: Addr, bytes: seq<Byte>, mem: seq<Byte>)
    requires |mem| == MEMORY && a < USABLE && |bytes| <= 2
    ensures M.Apply(M.Store(a, bytes), mem) == Splice(mem, a, bytes) && |Splice(mem, a, bytes)| == MEMORY
  {
    hide Splice;
  }

  lemma PlaceFits(op: Operand, regs: seq<Word>)
    requires |regs| == M.REGISTERS && M.OperandDefined(op, regs) && M.OperandEncoded(op) && M.IsMemory(op)
    ensures (M.HasReg(op) ==> op.reg < M.REGISTERS) && M.Place(op, regs) < USABLE && op.size <= 1
    ensures MEMORY == M.MEMORY && USABLE == M.USABLE && USABLE + 2 <= MEMORY
    ensures op.Obf? ==> op.reg < M.REGISTERS && op.key < 0x1_0000
    ensures !op.Imm? && !op.Reg?
  {
    hide M.Place;
  }

  lemma SaveStores(op: Operand, cpu: M.Cpu, v: Word)
    requires |cpu.regs| == M.REGISTERS && M.OperandDefined(op, cpu.regs) && M.OperandEncoded(op) && M.IsMemory(op)
    ensures var w := if op.Obf? then M.Masked(v, M.OperandMask(op, cpu.regs)) else v;
      M.Save(op, cpu, v) == M.Effect(M.Store(M.Place(op, cpu.regs), M.Bytes(w, op.size)), cpu)
    ensures M.StoreFits(M.Save(op, cpu, v).store)
  {
    M.SaveFits(op, cpu, v);
    hide M.Bytes, M.Masked, M.Place, M.OperandMask, M.StoreFits;
  }

  lemma PlainValue(op: Operand, regs: seq<Word>, mem: seq<Byte>)
    requires |regs| == M.REGISTERS && |mem| == MEMORY && M.OperandDefined(op, regs) && M.OperandEncoded(op)
    requires M.IsMemory(op) && !op.Obf?
    ensures M.Value(op, regs, mem) == M.Raw(mem, M.Place(op, regs), op.size)
  {
    hide M.Raw, M.OperandMask, M.Place;
  }

  lemma HiddenValue(op: Operand, regs: seq<Word>, mem: seq<Byte>)
    requires |regs| == M.REGISTERS && |mem| == MEMORY && M.OperandDefined(op, regs) && M.OperandEncoded(op) && op.Obf?
    ensures var v := M.Raw(mem, M.Place(op, regs), op.size) ^ M.OperandMask(op, regs);
      M.Value(op, regs, mem) == if op.size == 0 then v & 0xff else v
  {
    hide M.Raw, M.OperandMask, M.Place;
  }

  /** As many bits as the operand has. */
  function Width(op: Operand): nat {
    if op.size == 0 then 8 else 16
  }

  lemma MergeBit(was: Word, v: Word, k: nat)
    requires k < 16
    ensures BitSet(M.Merge(0, was, v), k) <==> BitSet(if k < 8 then v else was, k)
  {
    hide W.BitOf, W.MaskAt, W.Single;
    W.MaskIs(k);
    ByteMask(k);
    MergeBitOf(was, v, W.MaskAt(k));
  }

  lemma ByteMask(k: nat)
    requires k < 16
    ensures k < 8 <==> W.MaskAt(k) < 0x100
  {
  }

  lemma MergeBitOf(was: Word, v: Word, m: Word)
    requires W.Single(m)
    ensures W.BitOf(M.Merge(0, was, v), m) == if m < 0x100 then W.BitOf(v, m) else W.BitOf(was, m)
  {
  }

  lemma LowByteBit(v: Word, k: nat)
    requires k < 16
    ensures BitSet(v & 0xff, k) <==> k < 8 && BitSet(v, k)
  {
    hide W.BitOf, W.MaskAt, W.Single;
    W.MaskIs(k);
    ByteMask(k);
    LowByteBitOf(v, W.MaskAt(k));
  }

  lemma LowByteBitOf(v: Word, m: Word)
    requires W.Single(m)
    ensures W.BitOf(v & 0xff, m) == (m < 0x100 && W.BitOf(v, m))
  {
  }

  /** Bit by bit. */
  lemma SavedBit(op: Operand, cpu: M.Cpu, mem: seq<Byte>, v: Word, k: nat)
    requires |cpu.regs| == M.REGISTERS && |mem| == MEMORY && M.OperandDefined(op, cpu.regs) && M.OperandEncoded(op)
    requires !op.Imm? && k < 16
    ensures var e := M.Save(op, cpu, v);
      && M.StoreFits(e.store) && |e.cpu.regs| == M.REGISTERS && M.OperandDefined(op, e.cpu.regs)
      && (BitSet(M.Value(op, e.cpu.regs, M.Apply(e.store, mem)), k) <==>
           if k < Width(op) then BitSet(v, k) else op.Reg? && BitSet(OldReg(op, cpu.regs), k))
  {
    SavedIsLoaded(op, cpu, mem, v);
    hide *;
    HeldBit(op, cpu.regs, v, k);
  }

  lemma HeldBit(op: Operand, regs: seq<Word>, v: Word, k: nat)
    requires |regs| == M.REGISTERS && M.OperandDefined(op, regs) && k < 16
    ensures BitSet(Held(op, OldReg(op, regs), v), k) <==>
      if k < Width(op) then BitSet(v, k) else op.Reg? && BitSet(OldReg(op, regs), k)
  {
    MergeBit(OldReg(op, regs), v, k);
    LowByteBit(v, k);
    hide M.Merge, BitSet;
  }

  // ---------------------------------------------------------------- a step

  function Ins(f: M.State): Instruction {
    Parse(f.mem, f.cpu.pos)
  }

  /** An instruction other than a jump, whose meaning is modelled. */
  predicate Computes(f: M.State) {
    M.Runs(f) && !Ins(f).body.Jump?
  }

  predicate Matched(f: M.State)
    requires M.Runs(f)
  {
    M.Matched(Ins(f).bank, Ins(f).conds, f.cpu.flags)
  }

  lemma RunsMeans(f: M.State)
    requires M.Runs(f)
    ensures A.Legal(Ins(f), f.cpu) && |f.mem| == MEMORY == M.MEMORY && Ins(f).Instruction? && M.Defined(Ins(f), f.cpu)
    ensures |f.cpu.regs| == M.REGISTERS && A.Ops(Ins(f)) == Operands(Ins(f).body)
    ensures forall i | 0 <= i < |A.Ops(Ins(f))| ::
      M.OperandDefined(A.Ops(Ins(f))[i], f.cpu.regs) && M.OperandEncoded(A.Ops(Ins(f))[i])
  {
    hide Parse, M.OperandDefined, M.OperandEncoded, Length;
  }

  lemma ComputesMeans(f: M.State)
    requires Computes(f)
    ensures M.Runs(f) && !Ins(f).body.Jump?
    ensures |A.Ops(Ins(f))| >= (if Ins(f).body.Neg? || Ins(f).body.Shift? then 1 else 2)
  {
    hide M.Runs, Parse;
    RunsMeans(f);
  }

  /** What operand `i` holds. */
  function OperandOf(f: M.State, i: nat): Word
    requires M.Runs(f) && i < |A.Ops(Ins(f))|
  {
    RunsMeans(f);
    A.ValueAt(Ins(f), f.cpu, f.mem, i)
  }

  /** Bit `k` of the result, from the bits of the operands. */
  predicate ResultBit(f: M.State, k: nat)
    requires Computes(f) && k < 16
  {
    ComputesMeans(f);
    match Ins(f).body
    case And(_, _) => BitSet(OperandOf(f, 0), k) && BitSet(OperandOf(f, 1), k)
    case Or(_, _) => BitSet(OperandOf(f, 0), k) || BitSet(OperandOf(f, 1), k)
    case Neg(_) => !BitSet(OperandOf(f, 0), k)
    case Shift(right, n, _) =>
      if right then k + n < 16 && BitSet(OperandOf(f, 0), k + n) else k >= n && BitSet(OperandOf(f, 0), k - n)
    case Mov(_, _) => BitSet(OperandOf(f, 1), k)
  }

  function Computed(f: M.State): M.Result
    requires Computes(f)
  {
    ComputesMeans(f);
    RunsMeans(f);
    M.Compute(Ins(f), f.cpu, f.mem)
  }

  /** Value and flags, by the kind of instruction. */
  lemma ComputedIs(f: M.State)
    requires Computes(f)
    ensures M.Runs(f) && Ins(f).Instruction? && !Ins(f).body.Jump?
    ensures |A.Ops(Ins(f))| >= (if Ins(f).body.Neg? || Ins(f).body.Shift? then 1 else 2)
    ensures Ins(f).body.Shift? ==> 1 <= Ins(f).body.count <= 16
    ensures var (r, bank, flags) := (Computed(f), Ins(f).bank, f.cpu.flags);
      match Ins(f).body
      case And(_, _) =>
        r.value == M.Logic(false, OperandOf(f, 0), OperandOf(f, 1)) && r.flags == M.LogicFlags(flags, bank, r.value)
      case Or(_, _) =>
        r.value == M.Logic(true, OperandOf(f, 0), OperandOf(f, 1)) && r.flags == M.LogicFlags(flags, bank, r.value)
      case Neg(_) => r.value == M.Complement(OperandOf(f, 0)) && r.flags == M.NegFlags(flags, bank, r.value)
      case Shift(right, n, _) =>
        && r.value == M.Shifted(right, n, OperandOf(f, 0))
        && r.flags == M.ShiftFlags(flags, bank, M.ShiftCarry(right, n, OperandOf(f, 0)))
      case Mov(_, _) => r.value == OperandOf(f, 1) && r.flags == flags
  {
    ComputesMeans(f);
    RunsMeans(f);
    hide M.Runs, Ins, A.Legal, A.ValueAt, M.Compute, M.Logic, M.LogicFlags, M.NegFlags, M.ShiftFlags, M.Shifted,
      M.ShiftCarry, M.Complement, M.Defined, M.OperandDefined, M.OperandEncoded;
    match Ins(f).body
    case And(_, _) => A.LogicComputed(Ins(f), f.cpu, f.mem);
    case Or(_, _) => A.LogicComputed(Ins(f), f.cpu, f.mem);
    case Neg(_) => A.NegComputed(Ins(f), f.cpu, f.mem);
    case Shift(_, _, _) => A.ShiftComputed(Ins(f), f.cpu, f.mem);
    case Mov(_, _) => A.MovComputed(Ins(f), f.cpu, f.mem);
  }

  lemma ComputedBit(f: M.State, k: nat)
    requires Computes(f) && k < 16
    ensures BitSet(Computed(f).value, k) <==> ResultBit(f, k)
  {
    hide BitSet, Ins, M.Runs, M.Shifted, M.ShiftCarry, M.LogicFlags, M.NegFlags, M.ShiftFlags, Computes, Computed,
      M.Logic, M.Complement, OperandOf;
    ComputedIs(f);
    match Ins(f).body
    case And(_, _) => LogicBit(false, OperandOf(f, 0), OperandOf(f, 1), k);
    case Or(_, _) => LogicBit(true, OperandOf(f, 0), OperandOf(f, 1), k);
    case Neg(_) => ComplementBit(OperandOf(f, 0), k);
    case Shift(right, n, _) => ShiftBit(right, n, OperandOf(f, 0), k);
    case Mov(_, _) =>
  }

  lemma LogicBit(or: bool, a: Word, b: Word, k: nat)
    requires k < 16
    ensures BitSet(M.Logic(or, a, b), k) <==> if or then BitSet(a, k) || BitSet(b, k) else BitSet(a, k) && BitSet(b, k)
  {
    hide BitSet;
    if or {
      OrBit(a, b, k);
    } else {
      AndBit(a, b, k);
    }
  }

  lemma ComplementBit(a: Word, k: nat)
    requires k < 16
    ensures BitSet(M.Complement(a), k) <==> !BitSet(a, k)
  {
    hide BitSet;
    NotBit(a, k);
  }

  // ---------------------------------------------------------------- what a step does

  function Dest(f: M.State): Operand
    requires Computes(f)
  {
    ComputesMeans(f);
    A.Ops(Ins(f))[0]
  }

  /** Registers and flags as the store finds them. */
  function Next(f: M.State): M.Cpu
    requires Computes(f)
  {
    var flags := if Matched(f) && Ins(f).uf != 0 then Computed(f).flags else f.cpu.flags;
    M.Cpu(f.cpu.regs, flags, f.cpu.pos + Length(Ins(f)))
  }

  lemma StepIs(f: M.State)
    requires Computes(f)
    ensures M.Runs(f) && |f.mem| == M.MEMORY && |Next(f).regs| == M.REGISTERS
    ensures M.OperandDefined(Dest(f), Next(f).regs) && M.OperandEncoded(Dest(f))
    ensures var e := M.Save(Dest(f), Next(f), Computed(f).value);
      && M.StoreFits(e.store)
      && M.Step(f) == if Matched(f) then M.State(e.cpu, M.Apply(e.store, f.mem)) else M.State(Next(f), f.mem)
  {
    ComputesMeans(f);
    RunsMeans(f);
    hide Ins, A.Legal, M.Compute, M.Defined, M.OperandDefined, M.OperandEncoded, M.Save, M.StoreFits, M.Apply,
      M.Execute,
      M.Matched, Length;
    A.ComputedIsExecute(Ins(f), f.cpu, f.mem, Next(f), Computed(f).value);
    M.SaveFits(Dest(f), Next(f), Computed(f).value);
    Executed(f, M.Execute(Ins(f), f.cpu, f.mem));
  }

  lemma Executed(f: M.State, e: M.Effect)
    requires M.Runs(f) && M.Defined(Ins(f), f.cpu) && |f.mem| == M.MEMORY
    requires e == M.Execute(Ins(f), f.cpu, f.mem) && M.StoreFits(e.store)
    ensures M.Step(f) == M.State(e.cpu, M.Apply(e.store, f.mem))
  {
    hide M.Execute, M.Defined, M.StoreFits, Parse;
  }

  /** The state after the step has a value for this operand. */
  predicate HasValue(g: M.State, op: Operand) {
    && |g.cpu.regs| == M.REGISTERS && |g.mem| == MEMORY && M.OperandDefined(op, g.cpu.regs) && M.OperandEncoded(op)
  }

  /** The result: if the condition holds, the destination holds afterwards, bit by bit,
      what the operator makes of the operands. */
  lemma DestinationBits(f: M.State, k: nat)
    requires Computes(f) && Matched(f) && !Dest(f).Imm? && k < 16
    ensures HasValue(M.Step(f), Dest(f))
    ensures BitSet(M.Value(Dest(f), M.Step(f).cpu.regs, M.Step(f).mem), k) <==>
      if k < Width(Dest(f)) then ResultBit(f, k) else Dest(f).Reg? && BitSet(OldReg(Dest(f), f.cpu.regs), k)
  {
    hide *;
    StepIs(f);
    NextMeans(f);
    SavedBit(Dest(f), Next(f), f.mem, Computed(f).value, k);
    SavedMeans(f);
    ComputedBit(f, k);
  }

  lemma NextMeans(f: M.State)
    requires Computes(f)
    ensures Next(f).regs == f.cpu.regs && MEMORY == M.MEMORY && Next(f).pos == f.cpu.pos + Length(Ins(f))
  {
    hide M.Runs, Ins, Length, Computed;
  }

  lemma SavedMeans(f: M.State)
    requires Computes(f) && |f.mem| == M.MEMORY && |Next(f).regs| == M.REGISTERS
    requires M.OperandDefined(Dest(f), Next(f).regs) && M.OperandEncoded(Dest(f)) && !Dest(f).Imm?
    ensures var e := M.Save(Dest(f), Next(f), Computed(f).value);
      M.StoreFits(e.store) && (|e.cpu.regs| == M.REGISTERS && M.OperandDefined(Dest(f), e.cpu.regs) ==>
        HasValue(M.State(e.cpu, M.Apply(e.store, f.mem)), Dest(f)))
  {
    M.SaveFits(Dest(f), Next(f), Computed(f).value);
    hide M.Save, M.OperandDefined, M.OperandEncoded, Computes, Dest, Next, Computed;
  }

  /** Where the flags of a bank begin in the flag word: zero, carry, overflow, sign. */
  function Base(bank: nat): nat {
    if bank == 0 then 4 else 0
  }

  /** Bit `j` of the flag word after the step. */
  ghost predicate FlagBit(f: M.State, j: nat)
    requires Computes(f) && j < 16
  {
    ComputesMeans(f);
    ComputedIs(f);
    var base := Base(Ins(f).bank);
    var zero := forall k: nat | k < 16 :: !ResultBit(f, k);
    if !Matched(f) || Ins(f).uf == 0 then BitSet(f.cpu.flags, j)
    else
      match Ins(f).body
      case Mov(_, _) => BitSet(f.cpu.flags, j)
      case Neg(_) =>
        if base <= j < base + 4 then (j == base && zero) || (j == base + 3 && ResultBit(f, 15))
        else j < 8 && BitSet(f.cpu.flags, j)
      case Shift(right, n, _) =>
        if base <= j < base + 4 then
          j == base || (j == base + 1 && BitSet(OperandOf(f, 0), if right then n - 1 else 16 - n))
        else j < 8 && BitSet(f.cpu.flags, j)
      case _ => if j == base then zero else BitSet(f.cpu.flags, j)
  }

  /** A mask with all bits of one bank of flags. */
  function Bank(bank: nat): Word {
    if bank == 0 then 0xf0 else 0x0f
  }

  /** The mask of the first flag of a bank. */
  function First(bank: nat): Word {
    if bank == 0 then 0x10 else 1
  }

  lemma Places(bank: nat, j: nat)
    requires j < 16
    ensures W.MaskAt(j) == First(bank) <==> j == Base(bank)
    ensures W.MaskAt(j) == First(bank) << 1 <==> j == Base(bank) + 1
    ensures W.MaskAt(j) == First(bank) << 3 <==> j == Base(bank) + 3
    ensures W.MaskAt(j) & Bank(bank) != 0 <==> Base(bank) <= j < Base(bank) + 4
    ensures W.MaskAt(j) < 0x100 <==> j < 8
  {
  }

  lemma SetHigh(flags: Word, f: Word, m: Word)
    requires W.Single(m) && m != 0 && f < 16
    ensures W.BitOf((flags & 0x0f) | (f << 4), m) ==
      if m & 0xf0 != 0 then W.BitOf(f, m >> 4) else m < 0x100 && W.BitOf(flags, m)
  {
  }

  lemma SetLow(flags: Word, f: Word, m: Word)
    requires W.Single(m) && m != 0 && f < 16
    ensures W.BitOf((flags & 0xf0) | f, m) == if m & 0x0f != 0 then W.BitOf(f, m) else m < 0x100 && W.BitOf(flags, m)
  {
  }

  /** The mask of a flag within its bank. */
  function Within(bank: nat, m: Word): Word {
    if bank == 0 then m >> 4 else m
  }

  lemma SetBankIs(flags: Word, bank: nat, f: Word)
    ensures M.SetBank(flags, bank, f) == if bank == 0 then (flags & 0x0f) | (f << 4) else (flags & 0xf0) | f
  {
  }

  lemma SetBankOf(flags: Word, bank: nat, f: Word, m: Word)
    requires W.Single(m) && m != 0 && f < 16
    ensures W.BitOf(M.SetBank(flags, bank, f), m) ==
      if m & Bank(bank) != 0 then W.BitOf(f, Within(bank, m)) else m < 0x100 && W.BitOf(flags, m)
  {
    hide W.BitOf, W.Single, M.SetBank;
    SetBankIs(flags, bank, f);
    if bank == 0 {
      SetHigh(flags, f, m);
    } else {
      SetLow(flags, f, m);
    }
  }

  lemma ZeroSignOf(r: Word, m: Word)
    requires W.Single(m) && m < 16
    ensures M.ZeroSign(r) < 16
    ensures W.BitOf(M.ZeroSign(r), m) == ((m == 1 && r == 0) || (m == 8 && W.BitOf(r, 0x8000)))
  {
  }

  lemma ZeroCarryOf(carry: Word, m: Word)
    requires W.Single(m) && m < 16 && carry < 2
    ensures M.ZeroCarry(carry) < 16
    ensures W.BitOf(M.ZeroCarry(carry), m) == (m == 1 || (m == 2 && carry == 1))
  {
  }

  lemma KeepZerosOf(flags: Word, before: Word, m: Word)
    requires W.Single(m) && m != 0
    ensures W.BitOf(M.KeepZeros(flags, before), m) ==
      if m == 1 || m == 0x10 then W.BitOf(flags, m) else W.BitOf(before, m) || (m >= 0x100 && W.BitOf(flags, m))
  {
    hide *;
    KeepIs(flags, before);
    OrBitOf(Fresh(flags), Old(before), m);
    FreshOf(flags, m);
    OldOf(before, m);
  }

  function Fresh(flags: Word): Word {
    flags & 0xff11
  }

  function Old(flags: Word): Word {
    flags & 0xffee
  }

  lemma KeepIs(flags: Word, before: Word)
    ensures M.KeepZeros(flags, before) == Fresh(flags) | Old(before)
  {
  }

  lemma FreshOf(flags: Word, m: Word)
    requires W.Single(m) && m != 0
    ensures W.BitOf(Fresh(flags), m) == (W.BitOf(flags, m) && (m == 1 || m == 0x10 || m >= 0x100))
  {
    hide W.BitOf, W.Single;
    KeepMasks(m);
    W.AndBit(flags, 0xff11, m);
  }

  lemma KeepMasks(m: Word)
    requires W.Single(m) && m != 0
    ensures W.BitOf(0xff11, m) == (m == 1 || m == 0x10 || m >= 0x100)
    ensures W.BitOf(0xffee, m) == !(m == 1 || m == 0x10)
  {
  }

  lemma OldOf(flags: Word, m: Word)
    requires W.Single(m) && m != 0
    ensures W.BitOf(Old(flags), m) == (W.BitOf(flags, m) && !(m == 1 || m == 0x10))
  {
    hide W.BitOf, W.Single;
    KeepMasks(m);
    W.AndBit(flags, 0xffee, m);
  }

  lemma WithinIs(bank: nat, m: Word)
    requires W.Single(m) && m != 0 && m & Bank(bank) != 0
    ensures var w := Within(bank, m);
      && W.Single(w) && w < 16
      && (w == 1 <==> m == First(bank)) && (w == 2 <==> m == First(bank) << 1) && (w == 8 <==> m == First(bank) << 3)
  {
  }

  lemma FirstIs(bank: nat, m: Word)
    requires W.Single(m) && m != 0
    ensures m == First(bank) ==> m & Bank(bank) != 0 && (m == 1 || m == 0x10)
    ensures m & Bank(bank) == 0 && m < 0x100 && (m == 1 || m == 0x10) ==> m != First(bank)
    ensures m & Bank(bank) != 0 && (m == 1 || m == 0x10) ==> m == First(bank)
    ensures m == 1 || m == 0x10 || m & Bank(bank) != 0 ==> m < 0x100
    ensures 0 < 16 && W.Single(1)
  {
  }

  lemma LogicFlagOf(flags: Word, bank: nat, r: Word, m: Word)
    requires W.Single(m) && m != 0
    ensures W.BitOf(M.LogicFlags(flags, bank, r), m) == if m == First(bank) then r == 0 else W.BitOf(flags, m)
  {
    hide W.BitOf, W.Single, M.SetBank, M.ZeroSign, M.KeepZeros, First, Within, Bank, M.LogicFlags;
    M.LogicFlagsBy(flags, bank, r);
    var f := M.SetBank(flags, bank, M.ZeroSign(r));
    FirstIs(bank, m);
    KeepZerosOf(f, flags, m);
    ZeroSignOf(r, 1);
    SetBankOf(flags, bank, M.ZeroSign(r), m);
    if m & Bank(bank) != 0 {
      WithinIs(bank, m);
      ZeroSignOf(r, Within(bank, m));
    }
  }

  lemma NegFlagOf(flags: Word, bank: nat, r: Word, m: Word)
    requires W.Single(m) && m != 0
    ensures W.BitOf(M.NegFlags(flags, bank, r), m) ==
      if m & Bank(bank) != 0 then (m == First(bank) && r == 0) || (m == First(bank) << 3 && W.BitOf(r, 0x8000))
      else m < 0x100 && W.BitOf(flags, m)
  {
    hide W.BitOf, W.Single, M.SetBank, M.ZeroSign, First, Within, Bank, M.NegFlags;
    M.NegFlagsBy(flags, bank, r);
    FirstIs(bank, m);
    ZeroSignOf(r, 1);
    SetBankOf(flags, bank, M.ZeroSign(r), m);
    if m & Bank(bank) != 0 {
      WithinIs(bank, m);
      ZeroSignOf(r, Within(bank, m));
    }
  }

  lemma ShiftFlagOf(flags: Word, bank: nat, carry: Word, m: Word)
    requires W.Single(m) && m != 0 && carry < 2
    ensures W.BitOf(M.ShiftFlags(flags, bank, carry), m) ==
      if m & Bank(bank) != 0 then m == First(bank) || (m == First(bank) << 1 && carry == 1)
      else m < 0x100 && W.BitOf(flags, m)
  {
    hide W.BitOf, W.Single, M.SetBank, M.ZeroCarry, First, Within, Bank, M.ShiftFlags;
    M.ShiftFlagsBy(flags, bank, carry);
    FirstIs(bank, m);
    ZeroCarryOf(carry, 1);
    SetBankOf(flags, bank, M.ZeroCarry(carry), m);
    if m & Bank(bank) != 0 {
      WithinIs(bank, m);
      ZeroCarryOf(carry, Within(bank, m));
    }
  }

  lemma ZeroIff(v: Word)
    ensures v == 0 <==> forall k: nat | k < 16 :: !BitSet(v, k)
  {
    hide W.BitOf, W.Bits;
    if forall k: nat | k < 16 :: !BitSet(v, k) {
      forall k | 0 <= k < 16 ensures W.Bits(v)[k] == W.Bits(0)[k] {
        W.BitsAt(v, k);
        W.BitsAt(0, k);
        NoBit(k);
        assert !BitSet(v, k);
      }
      assert W.Bits(v) == W.Bits(0);
      W.BitsInjective(v, 0);
    }
    forall k: nat | k < 16 ensures !BitSet(0, k) {
      NoBit(k);
    }
  }

  lemma NoBit(k: nat)
    requires k < 16
    ensures !W.BitOf(0, W.MaskAt(k))
  {
  }

  lemma ResultIsZero(f: M.State)
    requires Computes(f)
    ensures Computed(f).value == 0 <==> forall k: nat | k < 16 :: !ResultBit(f, k)
  {
    hide Computes, Computed, BitSet, ResultBit;
    ZeroIff(Computed(f).value);
    forall k: nat | k < 16 ensures BitSet(Computed(f).value, k) <==> ResultBit(f, k) {
      ComputedBit(f, k);
    }
  }

  /** The flags: `and` and `or` set the zero flag of the bank and leave all else, `neg`
      replaces the bank by zero and sign, a shift by zero, always set, and the last bit
      shifted out; `mov`, and whatever does not update them or is not carried out,
      leaves them. */
  lemma FlagBits(f: M.State, j: nat)
    requires Computes(f) && j < 16
    ensures BitSet(M.Step(f).cpu.flags, j) <==> FlagBit(f, j)
  {
    hide *;
    StepIs(f);
    NextFlags(f);
    ComputedIs(f);
    ResultIsZero(f);
    if Matched(f) && Ins(f).uf != 0 {
      ComputedBit(f, 15);
      ComputedFlag(f, j);
    } else {
      KeptFlag(f, j);
    }
  }

  lemma NextFlags(f: M.State)
    requires Computes(f)
    ensures M.Runs(f) && Ins(f).Instruction?
    ensures Next(f).flags == if Matched(f) && Ins(f).uf != 0 then Computed(f).flags else f.cpu.flags
    ensures M.Step(f).cpu.flags == Next(f).flags
  {
    StepIs(f);
    ComputesMeans(f);
    RunsMeans(f);
    hide Computed, Ins, Matched, M.Step, Computes, M.Apply, M.StoreFits, M.OperandMask, M.Merge, M.Place, M.Bytes,
      M.Masked;
  }

  lemma KeptFlag(f: M.State, j: nat)
    requires Computes(f) && j < 16 && M.Runs(f) && Ins(f).Instruction? && (!Matched(f) || Ins(f).uf == 0)
    ensures FlagBit(f, j) <==> BitSet(f.cpu.flags, j)
  {
    hide Computed, Matched, ResultBit, BitSet, Computes, M.Runs, Parse;
  }

  lemma ComputedFlag(f: M.State, j: nat)
    requires Computes(f) && j < 16 && M.Runs(f) && Ins(f).Instruction? && Matched(f) && Ins(f).uf != 0
    requires Computed(f).value == 0 <==> forall k: nat | k < 16 :: !ResultBit(f, k)
    requires BitSet(Computed(f).value, 15) <==> ResultBit(f, 15)
    ensures BitSet(Computed(f).flags, j) <==> FlagBit(f, j)
  {
    hide *;
    ComputedIs(f);
    match Ins(f).body
    case And(_, _) => LogicFlag(f, j);
    case Or(_, _) => LogicFlag(f, j);
    case Neg(_) => NegFlag(f, j);
    case Shift(_, _, _) => ShiftFlag(f, j);
    case Mov(_, _) => MovFlag(f, j);
  }

  lemma LogicFlag(f: M.State, j: nat)
    requires Computes(f) && j < 16 && M.Runs(f) && Ins(f).Instruction? && Matched(f) && Ins(f).uf != 0
    requires Computed(f).value == 0 <==> forall k: nat | k < 16 :: !ResultBit(f, k)
    requires Ins(f).body.And? || Ins(f).body.Or?
    requires Computed(f).flags == M.LogicFlags(f.cpu.flags, Ins(f).bank, Computed(f).value)
    ensures BitSet(Computed(f).flags, j) <==> FlagBit(f, j)
  {
    var bank, m := Ins(f).bank, W.MaskAt(j);
    W.MaskIs(j);
    Places(bank, j);
    LogicFlagOf(f.cpu.flags, bank, Computed(f).value, m);
    hide Computed, Matched, ResultBit, Computes, M.Runs, Ins, W.MaskAt, W.BitOf, W.Single, M.LogicFlags, First, Bank;
  }

  lemma NegFlag(f: M.State, j: nat)
    requires Computes(f) && j < 16 && M.Runs(f) && Ins(f).Instruction? && Matched(f) && Ins(f).uf != 0
    requires Computed(f).value == 0 <==> forall k: nat | k < 16 :: !ResultBit(f, k)
    requires BitSet(Computed(f).value, 15) <==> ResultBit(f, 15)
    requires Ins(f).body.Neg? && Computed(f).flags == M.NegFlags(f.cpu.flags, Ins(f).bank, Computed(f).value)
    ensures BitSet(Computed(f).flags, j) <==> FlagBit(f, j)
  {
    var bank, m := Ins(f).bank, W.MaskAt(j);
    W.MaskIs(j);
    W.MaskIs(15);
    Places(bank, j);
    NegFlagOf(f.cpu.flags, bank, Computed(f).value, m);
    hide Computed, Matched, ResultBit, Computes, M.Runs, Ins, W.MaskAt, W.BitOf, W.Single, M.NegFlags, First, Bank;
  }

  lemma ShiftFlag(f: M.State, j: nat)
    requires Computes(f) && j < 16 && M.Runs(f) && Ins(f).Instruction? && Matched(f) && Ins(f).uf != 0
    requires Ins(f).body.Shift? && 1 <= Ins(f).body.count <= 16 && |A.Ops(Ins(f))| >= 1
    requires var carry := M.ShiftCarry(Ins(f).body.right, Ins(f).body.count, OperandOf(f, 0));
      Computed(f).flags == M.ShiftFlags(f.cpu.flags, Ins(f).bank, carry)
    ensures BitSet(Computed(f).flags, j) <==> FlagBit(f, j)
  {
    var bank, m := Ins(f).bank, W.MaskAt(j);
    W.MaskIs(j);
    Places(bank, j);
    var carry := M.ShiftCarry(Ins(f).body.right, Ins(f).body.count, OperandOf(f, 0));
    CarryBit(Ins(f).body.right, Ins(f).body.count, OperandOf(f, 0));
    ShiftFlagOf(f.cpu.flags, bank, carry, m);
    hide Computed, Matched, ResultBit, Computes, M.Runs, Ins, W.MaskAt, W.BitOf, W.Single, M.ShiftFlags, First, Bank,
      M.ShiftCarry, OperandOf;
  }

  lemma MovFlag(f: M.State, j: nat)
    requires Computes(f) && j < 16 && M.Runs(f) && Ins(f).Instruction? && Matched(f) && Ins(f).uf != 0
    requires Ins(f).body.Mov? && Computed(f).flags == f.cpu.flags
    ensures BitSet(Computed(f).flags, j) <==> FlagBit(f, j)
  {
    hide Computed, Matched, ResultBit, Computes, M.Runs, Ins, BitSet;
  }

  // ---------------------------------------------------------------- all the rest

  /** Nothing else changes: the position moves on by the length of the instruction,
      the other registers keep their values, and memory changes at most in the bytes of
      a destination in memory. */
  lemma RestStays(f: M.State)
    requires Computes(f)
    ensures var (g, d) := (M.Step(f), Dest(f));
      && g.cpu.pos == f.cpu.pos + Length(Ins(f)) && |g.cpu.regs| == |f.cpu.regs| == M.REGISTERS && |g.mem| == MEMORY
      && (forall r | 0 <= r < M.REGISTERS && !(Matched(f) && d.Reg? && d.reg == r) :: g.cpu.regs[r] == f.cpu.regs[r])
      && (Matched(f) && M.IsMemory(d) ==>
           var a := M.Place(d, f.cpu.regs);
           forall i | 0 <= i < MEMORY && !(a <= i < a + (if d.size == 0 then 1 else 2)) :: g.mem[i] == f.mem[i])
      && (!(Matched(f) && M.IsMemory(d)) ==> g.mem == f.mem)
  {
    ComputesMeans(f);
    RunsMeans(f);
    StepIs(f);
    NextMeans(f);
    hide M.Step, M.Merge, M.OperandMask, M.Masked, M.Place, Lo, Hi, Computes, Matched, Ins, Next, Computed, Dest,
      M.StoreFits;
  }

  /** A jump whose condition holds goes where it says: forwards or backwards by
      8 * bytes + bits, to a constant byte and bit, or to the position that its operand
      holds; and it changes nothing else. */
  lemma JumpGoes(f: M.State)
    requires M.Runs(f) && Ins(f).body.Jump?
    ensures M.Step(f) == f.(cpu := f.cpu.(pos := M.Step(f).cpu.pos))
    ensures Ins(f).body.target.Absolute? ==> |A.Ops(Ins(f))| == 1
    ensures var (j, behind) := (Ins(f).body, f.cpu.pos + Length(Ins(f)));
      M.Step(f).cpu.pos ==
        if !Matched(f) then behind
        else if j.target.Relative? then
          (if j.bytes < 32 then behind + (8 * j.bytes + j.bits)
           else behind - (8 * (j.bytes - 32) + j.bits)) % (8 * 0x1_0000)
        else if j.target.operand.Imm? then 8 * j.target.operand.value + j.bits
        else Num(OperandOf(f, 0))
  {
    hide *;
    RunsMeans(f);
    TargetIs(f);
    A.JumpExecuted(Ins(f), f.cpu, f.mem);
    NothingApplied(f);
    Executed(f, M.Execute(Ins(f), f.cpu, f.mem));
    MatchedIs(f);
  }

  lemma NothingApplied(f: M.State)
    ensures M.StoreFits(M.NoStore) && (|f.mem| == M.MEMORY ==> M.Apply(M.NoStore, f.mem) == f.mem)
  {
  }

  lemma MatchedIs(f: M.State)
    requires M.Runs(f)
    ensures Ins(f).Instruction? && Matched(f) == M.Matched(Ins(f).bank, Ins(f).conds, f.cpu.flags)
  {
    hide M.Matched, Parse, M.BodyDefined, M.BodyEncoded, Length;
  }

  /** Where a jump goes. */
  lemma TargetIs(f: M.State)
    requires M.Runs(f) && Ins(f).body.Jump?
    ensures |f.mem| == M.MEMORY && M.Defined(Ins(f), f.cpu)
    ensures Ins(f).body.target.Absolute? ==> |A.Ops(Ins(f))| == 1
    ensures var (j, behind) := (Ins(f).body, f.cpu.pos + Length(Ins(f)));
      M.Target(Ins(f), f.cpu, f.mem) ==
        if j.target.Relative? then
          (if j.bytes < 32 then behind + (8 * j.bytes + j.bits)
           else behind - (8 * (j.bytes - 32) + j.bits)) % (8 * 0x1_0000)
        else if j.target.operand.Imm? then 8 * j.target.operand.value + j.bits
        else Num(OperandOf(f, 0))
  {
    hide *;
    RunsMeans(f);
    A.JumpTarget(Ins(f), f.cpu, f.mem);
    if Ins(f).body.target.Relative? {
      BehindFits(f);
      M.RelativeJumpMovesExactly(f.cpu.pos + Length(Ins(f)), Ins(f).body.bytes, Ins(f).body.bits);
    } else {
      OneOperand(f);
      if Ins(f).body.target.operand.Imm? {
        PositionIs(Ins(f).body.target.operand.value, Ins(f).body.bits);
      } else {
        FarIs(OperandOf(f, 0));
      }
    }
  }

  lemma OneOperand(f: M.State)
    requires M.Runs(f) && Ins(f).Instruction? && Ins(f).body.Jump? && Ins(f).body.target.Absolute?
    requires A.Legal(Ins(f), f.cpu) && |f.mem| == MEMORY
    ensures A.Ops(Ins(f)) == [Ins(f).body.target.operand] && OperandOf(f, 0) == A.ValueAt(Ins(f), f.cpu, f.mem, 0)
  {
    hide M.Runs, A.Legal, A.ValueAt, Ins;
  }

  lemma BehindFits(f: M.State)
    requires M.Runs(f)
    ensures f.cpu.pos + Length(Ins(f)) < 8 * 0x1_0000
  {
    hide Parse, Length, M.BodyDefined, M.BodyEncoded;
  }

  lemma PositionIs(byte: nat, bits: nat)
    requires byte < 0x1_0000
    ensures M.Position(byte, bits) == 8 * byte + bits
  {
  }

  /** A position held in a word is the word's number. */
  lemma FarIs(v: Word)
    ensures M.Position(M.FarByte(v), M.FarBits(v)) == Num(v)
  {
    hide *;
    FarFits(v);
    PositionIs(M.FarByte(v), M.FarBits(v));
    EighthIs(v);
  }

  lemma FarFits(v: Word)
    ensures 0 <= M.FarByte(v) < 0x1_0000
  {
    hide M.FarByte;
  }

  lemma EighthIs(v: Word)
    ensures Num(v) == 8 * M.FarByte(v) + M.FarBits(v)
  {
  }

  // ---------------------------------------------------------------- conditions

  /** What the sixteen condition codes ask of the flag word.  With zero, carry, overflow
      and sign of a comparison they are: equal; below; negative; overflow; above;
      greater; and their opposites.  Code 14 never holds, code 15 always. */
  lemma ConditionIs(bank: nat, conds: nat, flags: Word)
    requires bank < 2 && conds < 0x100
    ensures var base := Base(bank);
      var (z, c) := (BitSet(flags, base), BitSet(flags, base + 1));
      var (o, s) := (BitSet(flags, base + 2), BitSet(flags, base + 3));
      var code := if bank == 0 then conds / 16 else conds % 16;
      var (equal, below, less) := (z, c, s != o);
      M.Matched(bank, conds, flags) <==>
        match code
        case 0 => equal
        case 1 => !equal
        case 2 => below
        case 3 => !below
        case 4 => s
        case 5 => !s
        case 6 => o
        case 7 => !o
        case 8 => !(below || equal)
        case 9 => below || equal
        case 10 => !(less || equal)
        case 11 => !less
        case 12 => less
        case 13 => less || equal
        case 14 => false
        case _ => true
  {
    var n := M.Nibble(flags, bank);
    NibbleBits(flags, bank);
    hide M.Nibble, W.MaskAt;
    hide BitSet;
  }

  lemma NibbleBits(flags: Word, bank: nat)
    requires bank < 2
    ensures var (n, base) := (M.Nibble(flags, bank), Base(bank));
      && (n & M.ZERO != 0 <==> BitSet(flags, base)) && (n & M.CARRY != 0 <==> BitSet(flags, base + 1))
      && (n & M.OVERFLOW != 0 <==> BitSet(flags, base + 2)) && (n & M.SIGN != 0 <==> BitSet(flags, base + 3))
  {
    hide W.BitOf, M.Nibble;
    FlagMasks();
    NibbleOf(flags, bank, 1);
    NibbleOf(flags, bank, 2);
    NibbleOf(flags, bank, 4);
    NibbleOf(flags, bank, 8);
  }

  lemma FlagMasks()
    ensures W.MaskAt(0) == 1 && W.MaskAt(1) == 2 && W.MaskAt(2) == 4 && W.MaskAt(3) == 8
    ensures W.MaskAt(4) == 0x10 && W.MaskAt(5) == 0x20 && W.MaskAt(6) == 0x40 && W.MaskAt(7) == 0x80
  {
  }

  lemma NibbleOf(flags: Word, bank: nat, m: Word)
    requires m < 16
    ensures M.Nibble(flags, bank) & m != 0 <==> W.BitOf(flags, if bank == 0 then m << 4 else m)
  {
    if bank == 0 {
      HighNibble(flags, m);
    } else {
      LowNibble(flags, m);
    }
  }

  lemma HighNibble(flags: Word, m: Word)
    requires m < 16
    ensures ((flags >> 4) & 0xf) & m == (flags & (m << 4)) >> 4
    ensures flags & (m << 4) != 0 <==> (flags & (m << 4)) >> 4 != 0
  {
  }

  lemma LowNibble(flags: Word, m: Word)
    requires m < 16
    ensures (flags & 0xf) & m == flags & m
  {
  }
}
