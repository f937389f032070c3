/** The decompiler preserves meaning: the goto program follows the flat machine
    step by step, as long as it only tests flags that it keeps as the server does
    (server.c, do_instruction; vmdisas.rb, to_c and the C template). */
module Simulation {
  import opened Options
  import opened Words
  import opened Powers
  import opened Bitstream
  import opened Instructions
  import opened Decoder
  import opened Decompiler
  import opened Obfuscation
  import Attempts
  import C = GotoC
  import Obf = CalcObf
  import M = Machine

  // ---------------------------------------------------------------- flags

  /** Which flags of a bank the program keeps as the server does.  A flag-setting
      shift sets the server's zero flag whatever the result (server.c:1486), and
      `neg` clears its carry; the template does neither. */
  datatype KnownBank = KnownBank(zero: bool, carry: bool)

  datatype Known = Known(bank0: KnownBank, bank1: KnownBank)
  {
    function Of(bank: nat): KnownBank {
      if bank == 0 then bank0 else bank1
    }

    function With(bank: nat, b: KnownBank): Known {
      if bank == 0 then this.(bank0 := b) else this.(bank1 := b)
    }
  }

  predicate ZeroFlag(flags: Word, bank: nat) {
    M.Nibble(flags, bank) & M.ZERO != 0
  }

  predicate CarryFlag(flags: Word, bank: nat) {
    M.Nibble(flags, bank) & M.CARRY != 0
  }

  predicate BankMatches(flags: Word, bank: nat, b: C.Bank, k: KnownBank) {
    && (k.zero ==> b.zero == ZeroFlag(flags, bank))
    && (k.carry ==> b.carry == CarryFlag(flags, bank))
  }

  predicate FlagsMatch(flags: Word, c: C.CState, k: Known) {
    BankMatches(flags, 0, c.bank0, k.bank0) && BankMatches(flags, 1, c.bank1, k.bank1)
  }

  /** What an executed line leaves known. */
  function Learn(k: Known, line: Line): Known {
    if line.uf == 0 then k
    else
      match line.body
      case And(_, _) => k.With(line.bank, k.Of(line.bank).(zero := true))
      case Or(_, _) => k.With(line.bank, k.Of(line.bank).(zero := true))
      case Neg(_) => k.With(line.bank, KnownBank(true, false))
      case Shift(_, _, _) => k.With(line.bank, KnownBank(false, true))
      case Mov(_, _) => k
      case Jump(_, _, _, _) => k
  }

  /** Setting one bank leaves the other alone. */
  lemma SetBankBits(flags: Word, bank: nat, f: Word)
    requires bank < 2 && f < 16
    ensures M.Nibble(M.SetBank(flags, bank, f), bank) == f
    ensures M.Nibble(M.SetBank(flags, bank, f), 1 - bank) == M.Nibble(flags, 1 - bank)
  {
  }

  /** `and` and `or` touch the zero flags only. */
  lemma KeepZerosBits(flags: Word, before: Word, bank: nat)
    requires bank < 2
    ensures ZeroFlag(M.KeepZeros(flags, before), bank) == ZeroFlag(flags, bank)
    ensures CarryFlag(M.KeepZeros(flags, before), bank) == CarryFlag(before, bank)
  {
  }

  lemma ZeroSignBits(r: Word)
    ensures M.ZeroSign(r) < 16 && (M.ZeroSign(r) & M.ZERO != 0) == (r == 0) && M.ZeroSign(r) & M.CARRY == 0
  {
  }

  lemma ZeroCarryBits(carry: Word)
    requires carry < 2
    ensures M.ZeroCarry(carry) < 16 && M.ZeroCarry(carry) & M.ZERO != 0
    ensures (M.ZeroCarry(carry) & M.CARRY != 0) == (carry == 1)
  {
  }

  lemma LogicFlagsMatch(flags: Word, c: C.CState, k: Known, bank: nat, r: Word)
    requires FlagsMatch(flags, c, k) && bank < 2
    ensures FlagsMatch(M.LogicFlags(flags, bank, r), C.Updated(c, bank, 1, r),
                       k.With(bank, k.Of(bank).(zero := true)))
  {
    hide M.SetBank, M.Nibble, M.KeepZeros, M.ZeroSign;
    var f := M.SetBank(flags, bank, M.ZeroSign(r));
    ZeroSignBits(r);
    SetBankBits(flags, bank, M.ZeroSign(r));
    KeepZerosBits(f, flags, bank);
    KeepZerosBits(f, flags, 1 - bank);
  }

  lemma NegFlagsMatch(flags: Word, c: C.CState, k: Known, bank: nat, r: Word)
    requires FlagsMatch(flags, c, k) && bank < 2
    ensures FlagsMatch(M.NegFlags(flags, bank, r), C.Updated(c, bank, 1, r), k.With(bank, KnownBank(true, false)))
  {
    hide M.SetBank, M.Nibble, M.ZeroSign;
    ZeroSignBits(r);
    SetBankBits(flags, bank, M.ZeroSign(r));
  }

  lemma ShiftFlagsMatch(flags: Word, c: C.CState, k: Known, bank: nat, right: bool, n: nat, v: Word)
    requires FlagsMatch(flags, c, k) && bank < 2 && 1 <= n <= 15
    ensures FlagsMatch(M.ShiftFlags(flags, bank, M.ShiftCarry(right, n, v)),
                       C.ShiftUpdated(c, right, bank, 1, v, n), k.With(bank, KnownBank(false, true)))
  {
    hide M.SetBank, M.Nibble, M.ZeroCarry, M.ShiftCarry, M.Shifted, C.ShiftedBy, C.LastShifted;
    SameShift(right, n, v);
    var carry := M.ShiftCarry(right, n, v);
    CarryIsBit(right, n, v);
    ZeroCarryBits(carry);
    SetBankBits(flags, bank, M.ZeroCarry(carry));
  }

  lemma CarryIsBit(right: bool, n: nat, v: Word)
    requires 1 <= n <= 16
    ensures M.ShiftCarry(right, n, v) < 2
  {
    OneBit(if right then v >> (n - 1) else v >> (16 - n));
  }

  lemma OneBit(v: Word)
    ensures v & 1 < 2
  {
  }

  /** Where the two machines part: after a flag-setting shift the zero flags agree
      if and only if nothing is left of the value; the server's is always set. */
  lemma ShiftZeroAgreesExactly(flags: Word, c: C.CState, bank: nat, right: bool, n: nat, v: Word)
    requires bank < 2 && 1 <= n <= 15
    ensures ZeroFlag(M.ShiftFlags(flags, bank, M.ShiftCarry(right, n, v)), bank)
    ensures ZeroFlag(M.ShiftFlags(flags, bank, M.ShiftCarry(right, n, v)), bank)
        == C.ShiftUpdated(c, right, bank, 1, v, n).Flags(bank).zero
      <==> M.Shifted(right, n, v) == 0
  {
    hide M.SetBank, M.Nibble, M.ZeroCarry, M.ShiftCarry, M.Shifted, C.ShiftedBy, C.LastShifted;
    SameShift(right, n, v);
    var carry := M.ShiftCarry(right, n, v);
    CarryIsBit(right, n, v);
    ZeroCarryBits(carry);
    SetBankBits(flags, bank, M.ZeroCarry(carry));
  }

  /** After a flag-setting `neg` the carries agree if and only if the program's was
      clear before; the server's always is afterwards. */
  lemma NegCarryAgreesExactly(flags: Word, c: C.CState, bank: nat, r: Word)
    requires bank < 2
    ensures !CarryFlag(M.NegFlags(flags, bank, r), bank)
    ensures CarryFlag(M.NegFlags(flags, bank, r), bank) == C.Updated(c, bank, 1, r).Flags(bank).carry
      <==> !c.Flags(bank).carry
  {
    hide M.SetBank, M.Nibble, M.ZeroSign;
    ZeroSignBits(r);
    SetBankBits(flags, bank, M.ZeroSign(r));
  }

  /** The sign that `neg` leaves is the same in both, though no emitted statement
      tests it. */
  lemma NegSignAgrees(flags: Word, c: C.CState, bank: nat, r: Word)
    requires bank < 2
    ensures M.Nibble(M.NegFlags(flags, bank, r), bank) & M.SIGN != 0 <==> C.Updated(c, bank, 1, r).Flags(bank).sign
  {
    hide M.SetBank, M.Nibble, M.ZeroSign;
    ZeroSignBits(r);
    SignBitIs(r);
    SetBankBits(flags, bank, M.ZeroSign(r));
  }

  lemma SignBitIs(r: Word)
    ensures M.ZeroSign(r) & M.SIGN != 0 <==> r >> 15 == 1
  {
  }

  // ---------------------------------------------------------------- the operations

  /** The C operators do what the server's do. */
  lemma SameLogic(or: bool, a: Word, b: Word)
    ensures C.Combined(or, a, b) == M.Logic(or, a, b)
  {
  }

  lemma SameNot(a: Word)
    ensures C.Inverted(a) == M.Complement(a)
  {
  }

  lemma SameShift(right: bool, n: nat, v: Word)
    requires 1 <= n <= 15
    ensures C.ShiftedBy(right, v, n) == M.Shifted(right, n, v)
    ensures C.LastShifted(right, v, n) == (M.ShiftCarry(right, n, v) == 1)
  {
  }

  lemma SameMask(op: Operand, regs: seq<Word>)
    requires |regs| == M.REGISTERS && op.Obf? && op.reg < M.REGISTERS && op.reg < |regs| && op.key < 0x1_0000
    ensures C.CalcMask(op.addr, op.reg, op.key, regs) == M.OperandMask(op, regs)
  {
    hide *;
    CMaskIs(op, regs);
    ServerMaskIs(op, regs);
    Obf.CalcObfIsMask(op.addr as Word, regs[op.reg] as nat, op.key as Word);
  }

  lemma CMaskIs(op: Operand, regs: seq<Word>)
    requires |regs| == M.REGISTERS && op.Obf? && op.reg < M.REGISTERS && op.reg < |regs| && op.key < 0x1_0000
    ensures C.CalcMask(op.addr, op.reg, op.key, regs) ==
      Obf.CalcObf(op.addr as Word, regs[op.reg] as nat, op.key as Word)
  {
    hide Obf.CalcObf;
  }

  lemma ServerMaskIs(op: Operand, regs: seq<Word>)
    requires |regs| == M.REGISTERS && op.Obf? && op.reg < M.REGISTERS && op.reg < |regs| && op.key < 0x1_0000
    ensures M.OperandMask(op, regs) == Mask(op.addr as Word, regs[op.reg] as nat, op.key as Word)
  {
    hide Mask;
  }

  // ---------------------------------------------------------------- conditions

  /** The condition of a line tests nothing, or a flag that is known.  A line with
      condition code 14, which never holds for the server, is not compiled. */
  predicate Testable(bank: nat, conds: nat, k: Known) {
    var code := M.Code(bank, conds);
    code == 15 || (code < 2 && k.Of(bank).zero) || (2 <= code < 4 && k.Of(bank).carry)
  }

  lemma GuardAgrees(bank: nat, conds: nat, flags: Word, c: C.CState, k: Known)
    requires bank < 2 && Testable(bank, conds, k) && FlagsMatch(flags, c, k)
    ensures !ToGuard(bank, conds).CodeMe?
    ensures C.Holds(ToGuard(bank, conds), c) == M.Matched(bank, conds, flags)
  {
    hide M.Nibble;
  }

  // ---------------------------------------------------------------- operands

  /** Operands that the decompiler can write and whose size it respects: words in
      memory, not through a register, and not past the end of the address space. */
  predicate Plain(op: Operand, regs: seq<Word>)
    requires |regs| == M.REGISTERS
  {
    && M.OperandDefined(op, regs) && M.OperandEncoded(op) && !op.MemReg?
    && (M.IsMemory(op) ==> op.size == 1)
    && (op.Imm? && op.size == 0 ==> op.value < 0x100)
    && (op.MemIdx? || op.Obf? ==> op.addr + regs[op.reg] as int < M.MEMORY)
  }

  /** As a destination, also a whole register, and not a constant. */
  predicate PlainDest(op: Operand, regs: seq<Word>)
    requires |regs| == M.REGISTERS
  {
    Plain(op, regs) && !op.Imm? && op.size == 1
  }

  lemma PlaceIsAddress(op: Operand, regs: seq<Word>)
    requires |regs| == M.REGISTERS && Plain(op, regs) && M.IsMemory(op)
    ensures op.MemImm? ==> C.AddressOf(C.At(op.addr), regs) == M.Place(op, regs)
    ensures !op.MemImm? ==> C.AddressOf(C.AtReg(op.addr, op.reg), regs) == M.Place(op, regs)
    ensures M.Place(op, regs) + 1 < M.MEMORY
  {
  }

  lemma SourceAgrees(op: Operand, c: C.CState)
    requires c.Shape() && Plain(op, c.regs)
    ensures ToSource(op).Some? && C.SourceFits(ToSource(op).value, c.regs)
    ensures C.Eval(ToSource(op).value, c) == M.Value(op, c.regs, c.mem)
  {
    hide M.Place, M.OperandMask, C.CalcMask, C.AddressOf;
    if M.IsMemory(op) {
      PlaceIsAddress(op, c.regs);
      if op.Obf? {
        SameMask(op, c.regs);
      }
    }
  }

  lemma DestAgrees(op: Operand, c: C.CState)
    requires c.Shape() && PlainDest(op, c.regs)
    ensures ToDest(op).Some? && C.DestFits(ToDest(op).value, c.regs) && ToSource(op).Some?
    ensures C.Source1(ToDest(op).value) == ToSource(op).value
  {
    hide M.Place, C.AddressOf;
    if M.IsMemory(op) {
      PlaceIsAddress(op, c.regs);
    }
  }

  lemma AssignAgrees(op: Operand, c: C.CState, cpu: M.Cpu, v: Word)
    requires c.Shape() && PlainDest(op, c.regs) && cpu.regs == c.regs
    requires ToDest(op).Some? && C.DestFits(ToDest(op).value, c.regs)
    ensures var r, e := C.Assign(ToDest(op).value, v, c), M.Save(op, cpu, v);
      && M.StoreFits(e.store) && e.cpu == cpu.(regs := r.regs) && r.mem == M.Apply(e.store, c.mem)
  {
    hide M.Place, M.OperandMask, C.CalcMask, C.AddressOf, Lo, Hi;
    M.SaveFits(op, cpu, v);
    if M.IsMemory(op) {
      PlaceIsAddress(op, c.regs);
      if op.Obf? {
        SameMask(op, c.regs);
      }
      var w := if op.Obf? then M.Masked(v, M.OperandMask(op, c.regs)) else v;
      SwIsSplice(c.mem, M.Place(op, c.regs), w);
    }
  }

  lemma SwIsSplice(mem: seq<Byte>, a: nat, v: Word)
    requires |mem| == M.MEMORY && a + 1 < M.MEMORY
    ensures C.Sw(mem, a, v) == M.Apply(M.Store(a, M.Bytes(v, 1)), mem)
  {
    hide Lo, Hi;
  }

  // ---------------------------------------------------------------- one line

  /** Registers, memory and position are the same, and the known flags. */
  predicate Matches(s: M.State, c: C.CState, k: Known, pos: nat) {
    && c.Shape() && c.regs == s.cpu.regs && c.mem == s.mem && s.cpu.pos == pos
    && FlagsMatch(s.cpu.flags, c, k)
  }

  /** The line says what the server reads at its position. */
  predicate Same(line: Line, ins: Instruction) {
    && ins == Instruction(line.bank, line.conds, line.uf, line.body)
    && line.next == line.pc + Length(ins) && line.bank < 2 && line.uf < 2
  }

  /** A line other than a jump, and within what the decompiler respects. */
  predicate PlainBody(body: Body, regs: seq<Word>)
    requires |regs| == M.REGISTERS
  {
    match body
    case And(d, s) => PlainDest(d, regs) && Plain(s, regs)
    case Or(d, s) => PlainDest(d, regs) && Plain(s, regs)
    case Neg(d) => PlainDest(d, regs)
    case Shift(_, n, d) => PlainDest(d, regs) && 1 <= n <= 15
    case Mov(d, s) => PlainDest(d, regs) && Plain(s, regs)
    case Jump(_, _, _, _) => false
  }

  /** The flat machine after an instruction. */
  function After(e: M.Effect, mem: seq<Byte>): M.State
    requires |mem| == M.MEMORY && M.StoreFits(e.store)
  {
    M.State(e.cpu, M.Apply(e.store, mem))
  }

  /** The end that all of them share: the value goes to the destination. */
  lemma FinishSimulates(line: Line, ins: Instruction, s: M.State, c: C.CState, c': C.CState, k: Known, v: Word, f: Word)
    requires Same(line, ins) && M.Defined(ins, s.cpu) && Matches(s, c, k, line.pc)
    requires |Attempts.Ops(ins)| >= 1 && PlainDest(Attempts.Ops(ins)[0], c.regs) && ToDest(Attempts.Ops(ins)[0]).Some?
    requires C.DestFits(ToDest(Attempts.Ops(ins)[0]).value, c.regs)
    requires M.Matched(ins.bank, ins.conds, s.cpu.flags)
    requires c'.Shape() && c'.regs == c.regs && c'.mem == c.mem
    requires FlagsMatch(if line.uf == 0 then s.cpu.flags else f, c', Learn(k, line))
    ensures var e := M.Finish(ins, Attempts.Ops(ins)[0], s.cpu, f, v);
      && M.StoreFits(e.store)
      && Matches(After(e, s.mem), C.Assign(ToDest(Attempts.Ops(ins)[0]).value, v, c'), Learn(k, line), line.next)
  {
    hide M.Matched, FlagsMatch, Learn, M.Save, C.Assign, Length, PlainDest, ToDest, M.StoreFits, M.Apply, M.OperandDefined;
    var op := Attempts.Ops(ins)[0];
    var next := M.Cpu(s.cpu.regs, if ins.uf == 0 then s.cpu.flags else f, line.next);
    assert M.Finish(ins, op, s.cpu, f, v) == M.Save(op, next, v);
    AssignAgrees(op, c', next, v);
    FlagsOfAssign(if line.uf == 0 then s.cpu.flags else f, c', C.Assign(ToDest(op).value, v, c'), Learn(k, line));
  }

  lemma FlagsOfAssign(flags: Word, c: C.CState, c': C.CState, k: Known)
    requires FlagsMatch(flags, c, k) && c'.bank0 == c.bank0 && c'.bank1 == c.bank1
    ensures FlagsMatch(flags, c', k)
  {
    hide ZeroFlag, CarryFlag;
  }

  /** The statement of a line, run where the line stands, does what the
      instruction does. */
  predicate Simulates(line: Line, ins: Instruction, s: M.State, c: C.CState, k: Known) {
    && M.Defined(ins, s.cpu) && |s.mem| == M.MEMORY && c.Shape()
    && ToAct(line).Some? && !ToAct(line).value.Nothing? && !ToAct(line).value.Goto?
    && C.ActFits(ToAct(line).value, c)
    && var e := M.Execute(ins, s.cpu, s.mem);
    && M.StoreFits(e.store)
    && Matches(After(e, s.mem), C.Perform(ToAct(line).value, c), Learn(k, line), line.next)
  }

  /** What the lemmas for the opcodes have in common. */
  predicate Executed(line: Line, ins: Instruction, s: M.State, c: C.CState, k: Known) {
    && Same(line, ins) && M.Defined(ins, s.cpu) && Matches(s, c, k, line.pc) && |c.regs| == M.REGISTERS
    && PlainBody(line.body, c.regs) && M.Matched(ins.bank, ins.conds, s.cpu.flags)
  }

  lemma ExecuteIs(ins: Instruction, cpu: M.Cpu, mem: seq<Byte>)
    requires M.Defined(ins, cpu) && |mem| == M.MEMORY && !ins.body.Jump?
    ensures |Attempts.Ops(ins)| >= 1 && M.OperandDefined(Attempts.Ops(ins)[0], cpu.regs)
    ensures M.OperandEncoded(Attempts.Ops(ins)[0]) && Attempts.Legal(ins, cpu)
    ensures var r := M.Compute(ins, cpu, mem);
      M.Execute(ins, cpu, mem) == M.Finish(ins, Attempts.Ops(ins)[0], cpu, r.flags, r.value)
  {
    hide M.Compute, M.Finish, M.OperandDefined, M.OperandEncoded, Length;
  }

  lemma ExecutedMeans(line: Line, ins: Instruction, s: M.State, c: C.CState, k: Known)
    requires Executed(line, ins, s, c, k)
    ensures Same(line, ins) && M.Defined(ins, s.cpu) && Matches(s, c, k, line.pc) && |s.mem| == M.MEMORY
    ensures c.Shape() && c.regs == s.cpu.regs && c.mem == s.mem && ins.Instruction? && ins.body == line.body
    ensures ins.bank == line.bank && line.bank < 2 && line.uf < 2 && FlagsMatch(s.cpu.flags, c, k)
    ensures M.Matched(ins.bank, ins.conds, s.cpu.flags) && PlainBody(line.body, c.regs) && !Nameless(line)
  {
    hide M.Defined, PlainBody, M.Matched, FlagsMatch, Length, Nameless;
    MatchedHasName(line, s.cpu.flags);
  }

  /** A condition that holds is not code 14. */
  lemma MatchedHasName(line: Line, flags: Word)
    requires M.Matched(line.bank, line.conds, flags)
    ensures !Nameless(line)
  {
    hide M.Nibble;
  }

  lemma LogicSimulates(line: Line, ins: Instruction, s: M.State, c: C.CState, k: Known)
    requires Executed(line, ins, s, c, k) && (line.body.And? || line.body.Or?)
    ensures Simulates(line, ins, s, c, k)
  {
    hide Executed, Same, Nameless, M.Defined, Matches, M.Matched, FlagsMatch, Plain, PlainDest, M.Value, C.Eval, ToDest, ToSource,
      M.Finish, C.Assign, M.Compute, M.Execute, M.LogicFlags, C.Updated, C.DestFits, C.SourceFits, M.StoreFits,
      After, Length, M.Logic, C.Combined;
    ExecutedMeans(line, ins, s, c, k);
    ExecuteIs(ins, s.cpu, s.mem);
    Attempts.LogicComputed(ins, s.cpu, s.mem);
    var d, e := Attempts.Ops(ins)[0], Attempts.Ops(ins)[1];
    PlainDestIsPlain(d, c.regs);
    PlainIsDefined(e, c.regs);
    SourceAgrees(d, c);
    SourceAgrees(e, c);
    DestAgrees(d, c);
    var v := M.Logic(line.body.Or?, M.Value(d, c.regs, c.mem), M.Value(e, c.regs, c.mem));
    SameLogic(line.body.Or?, M.Value(d, c.regs, c.mem), M.Value(e, c.regs, c.mem));
    LogicLearns(line, s.cpu.flags, c, k, v);
    FinishSimulates(line, ins, s, c, C.Updated(c, line.bank, line.uf, v), k, v, M.LogicFlags(s.cpu.flags, ins.bank, v));
  }

  lemma PlainDestIsPlain(op: Operand, regs: seq<Word>)
    requires |regs| == M.REGISTERS && PlainDest(op, regs)
    ensures Plain(op, regs) && !op.MemOther? && !op.Imm? && M.OperandDefined(op, regs) && M.OperandEncoded(op)
  {
  }

  lemma LogicLearns(line: Line, flags: Word, c: C.CState, k: Known, v: Word)
    requires FlagsMatch(flags, c, k) && line.bank < 2 && line.uf < 2 && (line.body.And? || line.body.Or?)
    ensures var c' := C.Updated(c, line.bank, line.uf, v);
      && c'.regs == c.regs && c'.mem == c.mem
      && FlagsMatch(if line.uf == 0 then flags else M.LogicFlags(flags, line.bank, v), c', Learn(k, line))
  {
    hide FlagsMatch, M.LogicFlags;
    LogicFlagsMatch(flags, c, k, line.bank, v);
  }

  lemma PlainIsDefined(op: Operand, regs: seq<Word>)
    requires |regs| == M.REGISTERS && Plain(op, regs)
    ensures M.OperandDefined(op, regs) && M.OperandEncoded(op) && !op.MemOther?
  {
  }

  lemma NegSimulates(line: Line, ins: Instruction, s: M.State, c: C.CState, k: Known)
    requires Executed(line, ins, s, c, k) && line.body.Neg?
    ensures Simulates(line, ins, s, c, k)
  {
    hide Executed, Same, Nameless, M.Defined, Matches, M.Matched, FlagsMatch, Plain, PlainDest, M.Value, C.Eval, ToDest, ToSource,
      M.Finish, C.Assign, M.Compute, M.Execute, C.DestFits, C.SourceFits, M.StoreFits, After, Length,
      M.NegFlags, C.Updated, M.Complement, C.Inverted;
    ExecutedMeans(line, ins, s, c, k);
    ExecuteIs(ins, s.cpu, s.mem);
    Attempts.NegComputed(ins, s.cpu, s.mem);
    var d := Attempts.Ops(ins)[0];
    PlainDestIsPlain(d, c.regs);
    SourceAgrees(d, c);
    DestAgrees(d, c);
    var v := M.Complement(M.Value(d, c.regs, c.mem));
    SameNot(M.Value(d, c.regs, c.mem));
    NegLearns(line, s.cpu.flags, c, k, v);
    FinishSimulates(line, ins, s, c, C.Updated(c, line.bank, line.uf, v), k, v, M.NegFlags(s.cpu.flags, ins.bank, v));
  }

  lemma NegLearns(line: Line, flags: Word, c: C.CState, k: Known, v: Word)
    requires FlagsMatch(flags, c, k) && line.bank < 2 && line.uf < 2 && line.body.Neg?
    ensures var c' := C.Updated(c, line.bank, line.uf, v);
      && c'.regs == c.regs && c'.mem == c.mem
      && FlagsMatch(if line.uf == 0 then flags else M.NegFlags(flags, line.bank, v), c', Learn(k, line))
  {
    hide FlagsMatch, M.NegFlags;
    NegFlagsMatch(flags, c, k, line.bank, v);
  }

  lemma ShiftSimulates(line: Line, ins: Instruction, s: M.State, c: C.CState, k: Known)
    requires Executed(line, ins, s, c, k) && line.body.Shift?
    ensures Simulates(line, ins, s, c, k)
  {
    hide Executed, Same, Nameless, M.Defined, Matches, M.Matched, FlagsMatch, Plain, PlainDest, M.Value, C.Eval, ToDest, ToSource,
      M.Finish, C.Assign, M.Compute, M.Execute, C.DestFits, C.SourceFits, M.StoreFits, After, Length,
      M.ShiftFlags, C.ShiftUpdated, M.Shifted,
      M.ShiftCarry, C.ShiftedBy, C.LastShifted;
    ExecutedMeans(line, ins, s, c, k);
    ExecuteIs(ins, s.cpu, s.mem);
    Attempts.ShiftComputed(ins, s.cpu, s.mem);
    var d, right, n := Attempts.Ops(ins)[0], line.body.right, line.body.count;
    PlainDestIsPlain(d, c.regs);
    SourceAgrees(d, c);
    DestAgrees(d, c);
    var a := M.Value(d, c.regs, c.mem);
    SameShift(right, n, a);
    var v, f := M.Shifted(right, n, a), M.ShiftFlags(s.cpu.flags, ins.bank, M.ShiftCarry(right, n, a));
    ShiftLearns(line, s.cpu.flags, c, k, a);
    FinishSimulates(line, ins, s, c, C.ShiftUpdated(c, right, line.bank, line.uf, a, n), k, v, f);
  }

  lemma ShiftLearns(line: Line, flags: Word, c: C.CState, k: Known, a: Word)
    requires FlagsMatch(flags, c, k) && line.bank < 2 && line.uf < 2 && line.body.Shift? && 1 <= line.body.count <= 15
    ensures var (right, n) := (line.body.right, line.body.count);
      var c' := C.ShiftUpdated(c, right, line.bank, line.uf, a, n);
      && c'.regs == c.regs && c'.mem == c.mem && c'.Shape() == c.Shape()
      && FlagsMatch(if line.uf == 0 then flags else M.ShiftFlags(flags, line.bank, M.ShiftCarry(right, n, a)),
                    c', Learn(k, line))
  {
    hide FlagsMatch, M.ShiftFlags, M.ShiftCarry, M.Shifted, C.ShiftedBy, C.LastShifted;
    ShiftFlagsMatch(flags, c, k, line.bank, line.body.right, line.body.count, a);
  }

  lemma MovSimulates(line: Line, ins: Instruction, s: M.State, c: C.CState, k: Known)
    requires Executed(line, ins, s, c, k) && line.body.Mov?
    ensures Simulates(line, ins, s, c, k)
  {
    hide Executed, Same, Nameless, M.Defined, Matches, M.Matched, FlagsMatch, Plain, PlainDest, M.Value, C.Eval, ToDest, ToSource,
      M.Finish, C.Assign, M.Compute, M.Execute, C.DestFits, C.SourceFits, M.StoreFits, After, Length, Learn;
    ExecutedMeans(line, ins, s, c, k);
    ExecuteIs(ins, s.cpu, s.mem);
    Attempts.MovComputed(ins, s.cpu, s.mem);
    var d, e := Attempts.Ops(ins)[0], Attempts.Ops(ins)[1];
    PlainDestIsPlain(d, c.regs);
    PlainIsDefined(e, c.regs);
    SourceAgrees(e, c);
    DestAgrees(d, c);
    MovLearns(line, k);
    FinishSimulates(line, ins, s, c, c, k, M.Value(e, c.regs, c.mem), s.cpu.flags);
  }

  lemma MovLearns(line: Line, k: Known)
    requires line.body.Mov? || line.body.Jump?
    ensures Learn(k, line) == k
  {
  }

  // ---------------------------------------------------------------- a program

  /** `prog` is the compiled listing of a stream that labels can address. */
  predicate Program(prog: seq<C.CLine>, lines: seq<Line>, data: seq<Byte>) {
    Chained(lines, data) && InOrder(lines) && Compiled(prog, lines)
  }

  /** Disassemble, then compile: what comes out of a stream of at most 8192 bytes is
      such a program. */
  method Decompile(data: seq<Byte>) returns (prog: Option<seq<C.CLine>>, lines: seq<Line>)
    ensures Chained(lines, data) && Inside(lines, data)
    ensures prog.Some? && |data| <= CODE ==> Program(prog.value, lines, data)
  {
    hide Chained, InOrder, Compiled;
    var decoder := new Decoder(data);
    var ok := decoder.Decode(data);
    lines := decoder.instructions;
    if !ok {
      return None, lines;
    }
    prog := Compile(lines);
    if |data| <= CODE {
      ChainInOrder(lines, data);
    }
  }

  function PosAt(lines: seq<Line>, i: nat): nat
    requires i <= |lines|
  {
    if i < |lines| then lines[i].pc else if lines == [] then 0 else lines[|lines| - 1].next
  }

  /** The jump goes to a decoded line, and not around the end of the address space. */
  predicate Lands(line: Line, lines: seq<Line>) {
    && line.body.Jump? && line.body.bytes < 64 && line.body.bits < 8 && NextPc(line).Some? && line.next < 8 * CODE
    && exists t :: 0 <= t < |lines| && lines[t].pc == Position(NextPc(line).value)
  }

  /** The store does not change the code. */
  predicate Away(line: Line, regs: seq<Word>, data: seq<Byte>)
    requires |regs| == M.REGISTERS && PlainBody(line.body, regs)
  {
    var d := Operands(line.body)[0];
    M.IsMemory(d) ==> M.Place(d, regs) >= |data|
  }

  /** The line at `i`, met in the state `s`, is one that the decompiler respects:
      word-sized, with a condition over known flags, inside the stream. */
  predicate Respects(s: M.State, lines: seq<Line>, i: nat, data: seq<Byte>, k: Known) {
    && i < |lines| && M.Runs(s)
    && var line := lines[i];
    && line.next <= 8 * |data| && line.conds != 0xff && Testable(line.bank, line.conds, k)
    && if line.body.Jump? then M.Matched(line.bank, line.conds, s.cpu.flags) ==> Lands(line, lines)
       else PlainBody(line.body, s.cpu.regs) && Away(line, s.cpu.regs, data)
  }

  function Next(k: Known, line: Line, flags: Word): Known {
    if M.Matched(line.bank, line.conds, flags) then Learn(k, line) else k
  }

  lemma LineIsSame(lines: seq<Line>, data: seq<Byte>, s: M.State, i: nat)
    requires Chained(lines, data) && Loaded(s.mem, data) && i < |lines| && s.cpu.pos == lines[i].pc
    requires lines[i].next <= 8 * |data| && lines[i].conds != 0xff
    ensures Same(lines[i], Parse(s.mem, s.cpu.pos))
    ensures lines[i].next == PosAt(lines, i + 1)
  {
    hide Bits, ParseBody, Loaded, Parse, Length, BodyLength;
    ServerSplitsAlike(lines, data, s.mem, i);
    assert Reads(lines[i], data, lines[i].pc);
    SmallPowers(1);
  }

  /** A line whose condition does not hold is passed over by both. */
  lemma SkipSimulates(line: Line, ins: Instruction, s: M.State)
    requires Same(line, ins) && M.Runs(s) && ins == Parse(s.mem, s.cpu.pos) && s.cpu.pos == line.pc
    requires !M.Matched(line.bank, line.conds, s.cpu.flags)
    ensures M.Step(s) == M.State(s.cpu.(pos := line.next), s.mem)
  {
    hide M.Matched, M.Compute, Parse, Length, M.Target, M.BodyDefined;
    if !ins.body.Jump? {
      ExecuteIs(ins, s.cpu, s.mem);
    }
  }

  lemma ActSimulates(line: Line, ins: Instruction, s: M.State, c: C.CState, k: Known)
    requires Executed(line, ins, s, c, k)
    ensures Simulates(line, ins, s, c, k)
  {
    hide Same, M.Defined, Matches, M.Matched, Simulates;
    match line.body
    case And(_, _) => LogicSimulates(line, ins, s, c, k);
    case Or(_, _) => LogicSimulates(line, ins, s, c, k);
    case Neg(_) => NegSimulates(line, ins, s, c, k);
    case Shift(_, _, _) => ShiftSimulates(line, ins, s, c, k);
    case Mov(_, _) => MovSimulates(line, ins, s, c, k);
    case Jump(_, _, _, _) =>
      assert false;
  }

  /** A jump that is taken: both go to the position of a decoded line. */
  lemma JumpsAlike(line: Line, lines: seq<Line>, ins: Instruction, s: M.State)
    requires Same(line, ins) && M.Runs(s) && ins == Parse(s.mem, s.cpu.pos) && s.cpu.pos == line.pc
    requires line.body.Jump? && Lands(line, lines) && M.Matched(line.bank, line.conds, s.cpu.flags)
    ensures Position(NextPc(line).value) >= 0
    ensures M.Step(s) == M.State(s.cpu.(pos := Position(NextPc(line).value)), s.mem)
  {
    hide M.Matched, M.Compute, Parse, Length, M.Target, M.BodyDefined, NextPc, Position;
    TargetsAlike(line, lines, ins, s);
  }

  lemma TargetsAlike(line: Line, lines: seq<Line>, ins: Instruction, s: M.State)
    requires Same(line, ins) && M.Runs(s) && ins == Parse(s.mem, s.cpu.pos) && s.cpu.pos == line.pc
    requires line.body.Jump? && Lands(line, lines)
    ensures M.Defined(ins, s.cpu) && M.Target(ins, s.cpu, s.mem) == Position(NextPc(line).value)
  {
    hide M.Matched, Parse, Length, M.Target, M.BodyDefined, M.JumpFrom, Position, NextPc;
    Attempts.PrefixMeans(ins, s.mem, s.cpu.pos);
    Attempts.JumpTarget(ins, s.cpu, s.mem);
    if line.body.bytes != 0 {
      RelativeJumpsAgree(line);
      NotBelow(line, lines);
    } else {
      AbsoluteAlike(line);
    }
  }

  lemma NotBelow(line: Line, lines: seq<Line>)
    requires line.body.Jump? && Lands(line, lines) && line.body.bytes != 0
    ensures line.body.bytes < 32 || 8 * (line.body.bytes - 32) + line.body.bits <= line.next
  {
    hide NextPc, Position;
    NextPcMovesExactly(line);
  }

  lemma AbsoluteAlike(line: Line)
    requires line.body.Jump? && line.body.bytes == 0 && NextPc(line).Some?
    ensures line.body.target.Absolute? && line.body.target.operand.Imm?
    ensures line.body.target.operand.value < 0x1_0000 ==>
      M.Position(line.body.target.operand.value, line.body.bits) == Position(NextPc(line).value)
  {
  }

  /** The goto of a compiled jump finds that line. */
  lemma {:induction false} GotoFinds(prog: seq<C.CLine>, lines: seq<Line>, data: seq<Byte>, j: nat)
    requires Program(prog, lines, data) && j < |lines| && lines[j].body.Jump? && Lands(lines[j], lines)
    ensures |prog| == |lines| && prog[j].act.Goto?
    ensures var t := C.Find(prog, prog[j].act.target);
      t < |lines| && lines[t].pc == Position(NextPc(lines[j]).value)
  {
    hide NextPc, ToGuard, Position, Chained;
    assert IsLine(prog[j], lines[j], Locations(lines));
    JumpAct(lines[j]);
    LabelIffDecoded(prog, lines, j);
    var t :| 0 <= t < |lines| && lines[t].pc == Position(NextPc(lines[j]).value);
    assert prog[t].mark == Some(prog[j].act.target);
  }

  lemma JumpAct(line: Line)
    requires line.body.Jump? && ToAct(line).Some?
    ensures NextPc(line).Some? && ToAct(line).value == C.Goto(NextPc(line).value)
  {
    hide NextPc;
  }

  lemma Met(prog: seq<C.CLine>, lines: seq<Line>, data: seq<Byte>, s: M.State, c: C.CState, k: Known)
    requires Program(prog, lines, data) && c.at <= |lines| && Matches(s, c, k, PosAt(lines, c.at))
    requires Respects(s, lines, c.at, data, k) && Loaded(s.mem, data)
    ensures c.at < |lines| == |prog| && Chained(lines, data) && Loaded(s.mem, data) && M.Runs(s)
    ensures |s.mem| == M.MEMORY && |s.cpu.regs| == M.REGISTERS && M.Defined(Parse(s.mem, s.cpu.pos), s.cpu)
    ensures c.Shape() && c.regs == s.cpu.regs && c.mem == s.mem && FlagsMatch(s.cpu.flags, c, k)
    ensures var line := lines[c.at];
      && s.cpu.pos == line.pc && line.next <= 8 * |data| && line.conds != 0xff && Testable(line.bank, line.conds, k)
      && (if line.body.Jump? then M.Matched(line.bank, line.conds, s.cpu.flags) ==> Lands(line, lines)
          else PlainBody(line.body, s.cpu.regs) && Away(line, s.cpu.regs, data))
      && ToAct(line).Some? && prog[c.at].act == ToAct(line).value && !prog[c.at].act.Nothing?
      && (prog[c.at].act.Goto? <==> line.body.Jump?)
      && prog[c.at].guard == ToGuard(line.bank, line.conds)
  {
    hide Chained, InOrder, FlagsMatch, Loaded, M.Matched, Testable, Lands, PlainBody, Away, ToAct, ToGuard, Parse, M.Defined;
    assert IsLine(prog[c.at], lines[c.at], Locations(lines));
    if lines[c.at].body.Jump? {
      JumpAct(lines[c.at]);
    } else {
      PlainAct(lines[c.at], s.cpu.regs);
    }
  }

  lemma PlainAct(line: Line, regs: seq<Word>)
    requires |regs| == M.REGISTERS && PlainBody(line.body, regs) && ToAct(line).Some?
    ensures !ToAct(line).value.Nothing? && !ToAct(line).value.Goto?
  {
    hide Plain, M.OperandDefined, M.OperandEncoded;
  }

  /** What a line has to show for: the program can take it, and both machines
      meet again behind it. */
  predicate Stays(prog: seq<C.CLine>, lines: seq<Line>, data: seq<Byte>, s: M.State, c: C.CState, k: Known) {
    && C.LineFits(prog, c) && c.at < |lines|
    && var (s', c') := (M.Step(s), C.CStep(prog, c));
    && c'.at <= |lines| && Matches(s', c', Next(k, lines[c.at], s.cpu.flags), PosAt(lines, c'.at))
    && Loaded(s'.mem, data)
  }

  lemma Skipped(prog: seq<C.CLine>, lines: seq<Line>, data: seq<Byte>, s: M.State, c: C.CState, k: Known)
    requires c.at < |lines| == |prog| && c.Shape() && c.regs == s.cpu.regs && c.mem == s.mem && Loaded(s.mem, data)
    requires FlagsMatch(s.cpu.flags, c, k) && !prog[c.at].guard.CodeMe? && !prog[c.at].act.Nothing?
    requires var line := lines[c.at];
      && !M.Matched(line.bank, line.conds, s.cpu.flags) && !C.Holds(prog[c.at].guard, c)
      && line.next == PosAt(lines, c.at + 1) && M.Step(s) == M.State(s.cpu.(pos := line.next), s.mem)
    ensures Stays(prog, lines, data, s, c, k)
  {
    hide FlagsMatch, Loaded, M.Matched, M.Step, PosAt, C.Holds;
    SameFlags(s.cpu.flags, c, c.(at := c.at + 1), k);
  }

  lemma {:induction false} Jumped(prog: seq<C.CLine>, lines: seq<Line>, data: seq<Byte>, s: M.State, c: C.CState, k: Known)
    requires c.at < |lines| == |prog| && c.Shape() && c.regs == s.cpu.regs && c.mem == s.mem && Loaded(s.mem, data)
    requires FlagsMatch(s.cpu.flags, c, k) && !prog[c.at].guard.CodeMe? && prog[c.at].act.Goto?
    requires var line := lines[c.at];
      && line.body.Jump? && NextPc(line).Some? && C.Holds(prog[c.at].guard, c)
      && var t := C.Find(prog, prog[c.at].act.target);
      && t < |lines| && lines[t].pc == Position(NextPc(line).value)
      && M.Step(s) == M.State(s.cpu.(pos := lines[t].pc), s.mem)
    ensures Stays(prog, lines, data, s, c, k)
  {
    hide FlagsMatch, Loaded, M.Matched, M.Step, C.Holds, C.Find, NextPc, Position;
    MovLearns(lines[c.at], k);
    hide Learn;
    SameFlags(s.cpu.flags, c, c.(at := C.Find(prog, prog[c.at].act.target)), k);
  }

  lemma SameFlags(flags: Word, c: C.CState, c': C.CState, k: Known)
    requires FlagsMatch(flags, c, k) && c' == c.(at := c'.at)
    ensures FlagsMatch(flags, c', k)
  {
    hide ZeroFlag, CarryFlag;
  }

  lemma Acted(prog: seq<C.CLine>, lines: seq<Line>, data: seq<Byte>, s: M.State, c: C.CState, k: Known, ins: Instruction)
    requires c.at < |lines| == |prog| && M.Runs(s) && ins == Parse(s.mem, s.cpu.pos)
    requires !prog[c.at].guard.CodeMe? && C.Holds(prog[c.at].guard, c)
    requires var line := lines[c.at];
      && Simulates(line, ins, s, c, k) && prog[c.at].act == ToAct(line).value
      && M.Matched(line.bank, line.conds, s.cpu.flags) && line.next == PosAt(lines, c.at + 1)
    requires Loaded(M.Step(s).mem, data)
    ensures Stays(prog, lines, data, s, c, k)
  {
    hide FlagsMatch, Loaded, M.Matched, C.Holds, ToAct, PosAt, M.Execute, M.Apply, M.StoreFits, Learn, C.Perform, C.ActFits,
      Parse, M.Defined;
    var e := M.Execute(ins, s.cpu, s.mem);
    assert M.Step(s) == After(e, s.mem);
    var c' := C.Perform(prog[c.at].act, c);
    PerformStays(prog[c.at].act, c);
    SameFlags(e.cpu.flags, c', c'.(at := c.at + 1), Learn(k, lines[c.at]));
  }

  lemma PerformStays(act: C.Act, c: C.CState)
    requires c.Shape() && C.ActFits(act, c)
    ensures C.Perform(act, c).Shape()
  {
  }

  /** A store away from the code leaves the code in place. */
  lemma CodeStays(line: Line, ins: Instruction, s: M.State, data: seq<Byte>)
    requires Same(line, ins) && M.Runs(s) && ins == Parse(s.mem, s.cpu.pos) && Loaded(s.mem, data)
    requires PlainBody(line.body, s.cpu.regs) && Away(line, s.cpu.regs, data)
    ensures Loaded(M.Step(s).mem, data)
  {
    hide M.Compute, Parse, Length, M.BodyDefined, Plain, M.Matched, M.Place, M.IsMemory, M.Finish;
    ExecuteIs(ins, s.cpu, s.mem);
    M.FinishFits(ins, Attempts.Ops(ins)[0], s.cpu, s.mem);
    ApplyAway(M.Execute(ins, s.cpu, s.mem).store, s.mem, data);
  }

  lemma ApplyAway(store: M.Store, mem: seq<Byte>, data: seq<Byte>)
    requires |mem| == M.MEMORY && M.StoreFits(store) && Loaded(mem, data)
    requires store.Store? ==> store.addr >= |data|
    ensures Loaded(M.Apply(store, mem), data)
  {
    if store.Store? {
      var r := M.Apply(store, mem);
      forall i | 0 <= i < |data| ensures r[i] == data[i] {
        assert mem[..|data|][i] == mem[i];
      }
    }
  }

  /** One line: the program has a next step, which does what the flat machine does,
      and the code stays in place. */
  lemma LineSimulates(prog: seq<C.CLine>, lines: seq<Line>, data: seq<Byte>, s: M.State, c: C.CState, k: Known)
    requires Program(prog, lines, data) && c.at <= |lines| && Matches(s, c, k, PosAt(lines, c.at))
    requires Respects(s, lines, c.at, data, k) && Loaded(s.mem, data)
    ensures Stays(prog, lines, data, s, c, k)
  {
    hide *;
    Met(prog, lines, data, s, c, k);
    var line, ins := lines[c.at], Parse(s.mem, s.cpu.pos);
    LineIsSame(lines, data, s, c.at);
    SameBank(line, ins);
    GuardAgrees(line.bank, line.conds, s.cpu.flags, c, k);
    if !M.Matched(line.bank, line.conds, s.cpu.flags) {
      SkipSimulates(line, ins, s);
      Skipped(prog, lines, data, s, c, k);
    } else if line.body.Jump? {
      LandsMeans(line, lines);
      JumpsAlike(line, lines, ins, s);
      GotoFinds(prog, lines, data, c.at);
      Jumped(prog, lines, data, s, c, k);
    } else {
      Executing(line, ins, s, c, k);
      ActSimulates(line, ins, s, c, k);
      CodeStays(line, ins, s, data);
      SimulatesMeans(line, ins, s, c, k);
      Acted(prog, lines, data, s, c, k, ins);
    }
  }

  lemma SameBank(line: Line, ins: Instruction)
    requires Same(line, ins)
    ensures line.bank < 2 && ins.Instruction? && ins.bank == line.bank && ins.conds == line.conds && ins.body == line.body
  {
  }

  lemma LandsMeans(line: Line, lines: seq<Line>)
    requires Lands(line, lines)
    ensures line.body.Jump? && NextPc(line).Some?
  {
  }

  lemma SimulatesMeans(line: Line, ins: Instruction, s: M.State, c: C.CState, k: Known)
    requires Simulates(line, ins, s, c, k)
    ensures ToAct(line).Some?
  {
  }

  lemma Executing(line: Line, ins: Instruction, s: M.State, c: C.CState, k: Known)
    requires Same(line, ins) && M.Defined(ins, s.cpu) && s.cpu.pos == line.pc
    requires c.Shape() && c.regs == s.cpu.regs && c.mem == s.mem && FlagsMatch(s.cpu.flags, c, k)
    requires PlainBody(line.body, s.cpu.regs) && M.Matched(line.bank, line.conds, s.cpu.flags)
    ensures Executed(line, ins, s, c, k)
  {
    hide FlagsMatch, PlainBody, M.Matched, M.Defined;
  }

  // ---------------------------------------------------------------- runs

  /** The program after `n` lines; it stands still where it has no next step. */
  function CSteps(prog: seq<C.CLine>, c: C.CState, n: nat): C.CState {
    if n == 0 then c
    else
      var last := CSteps(prog, c, n - 1);
      if C.LineFits(prog, last) then C.CStep(prog, last) else last
  }

  /** The flags known after `n` lines. */
  function Knows(prog: seq<C.CLine>, lines: seq<Line>, s: M.State, c: C.CState, k: Known, n: nat): Known {
    if n == 0 then k
    else
      var at, last := CSteps(prog, c, n - 1).at, Knows(prog, lines, s, c, k, n - 1);
      if at < |lines| then Next(last, lines[at], M.Steps(s, n - 1).cpu.flags) else last
  }

  /** Each of the first `n` lines, as the run meets it, is one that the decompiler
      respects. */
  ghost predicate RespectsAll(prog: seq<C.CLine>, lines: seq<Line>, data: seq<Byte>, s: M.State, c: C.CState, k: Known, n: nat) {
    forall i: nat | i < n ::
      Respects(M.Steps(s, i), lines, CSteps(prog, c, i).at, data, Knows(prog, lines, s, c, k, i))
  }

  /** The decompiler preserves meaning: after any number of steps of such a run the
      goto program has the registers, the memory, the position and the known
      flags of the server's flat machine. */
  lemma {:induction false} RunSimulates(prog: seq<C.CLine>, lines: seq<Line>, data: seq<Byte>,
                                        s: M.State, c: C.CState, k: Known, n: nat)
    requires Program(prog, lines, data) && c.at <= |lines| && Matches(s, c, k, PosAt(lines, c.at))
    requires RespectsAll(prog, lines, data, s, c, k, n) && Loaded(s.mem, data)
    ensures var c' := CSteps(prog, c, n);
      && c'.at <= |lines| && Loaded(M.Steps(s, n).mem, data)
      && Matches(M.Steps(s, n), c', Knows(prog, lines, s, c, k, n), PosAt(lines, c'.at))
  {
    hide Program, Matches, Respects, Loaded, M.Step, C.LineFits, C.CStep, Next, PosAt;
    if n > 0 {
      RunSimulates(prog, lines, data, s, c, k, n - 1);
      var t, d, l := M.Steps(s, n - 1), CSteps(prog, c, n - 1), Knows(prog, lines, s, c, k, n - 1);
      assert Respects(t, lines, d.at, data, l);
      LineSimulates(prog, lines, data, t, d, l);
      StaysMeans(prog, lines, data, t, d, l);
    }
  }

  lemma StaysMeans(prog: seq<C.CLine>, lines: seq<Line>, data: seq<Byte>, s: M.State, c: C.CState, k: Known)
    requires Stays(prog, lines, data, s, c, k)
    ensures C.LineFits(prog, c) && c.at < |lines|
    ensures var (s', c') := (M.Step(s), C.CStep(prog, c));
      && c'.at <= |lines| && Matches(s', c', Next(k, lines[c.at], s.cpu.flags), PosAt(lines, c'.at))
      && Loaded(s'.mem, data)
  {
    hide Loaded, Matches, M.Step, C.LineFits, C.CStep, Next, PosAt;
  }
}
