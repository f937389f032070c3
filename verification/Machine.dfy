/** The virtual machine over flat memory: what one instruction reads, in which
    order, and what it does (server.c, do_instruction and its helpers). */
module Machine {
  import opened Words
  import opened Bitstream
  import opened Instructions
  import opened Obfuscation
  import LineCache

  const REGISTERS := 14  // r0 to r13; r14 is the stack pointer, r15 the program counter
  const USABLE := LineCache.USABLE
  const MEMORY := LineCache.MEMORY

  /** `pos` is the program counter in bits: 8 * CURRENT_BYTE + CURRENT_BITS. */
  datatype Cpu = Cpu(regs: seq<Word>, flags: Word, pos: nat)

  datatype Store = NoStore | Store(addr: Addr, bytes: seq<Byte>)

  datatype Effect = Effect(store: Store, cpu: Cpu)

  // ---------------------------------------------------------------- operands

  predicate IsMemory(op: Operand) {
    op.MemReg? || op.MemImm? || op.MemIdx? || op.Obf?
  }

  predicate HasReg(op: Operand) {
    op.Reg? || op.MemReg? || op.MemIdx? || op.Obf?
  }

  /** The address that a memory operand denotes. */
  function Place(op: Operand, regs: seq<Word>): Addr
    requires |regs| == REGISTERS && IsMemory(op) && (HasReg(op) ==> op.reg < REGISTERS)
  {
    match op
    case MemReg(_, r) => regs[r] as int
    case MemImm(_, a) => a
    case MemIdx(_, a, r) => (a + regs[r] as int) % 0x1_0000
    case Obf(_, a, r, _) => (a + regs[r] as int) % 0x1_0000
  }

  /** The operands whose meaning is modelled: registers r0 to r13, and memory
      below USABLE with no word across the end of a line. */
  predicate OperandDefined(op: Operand, regs: seq<Word>)
    requires |regs| == REGISTERS
  {
    && !op.MemOther? && op.size <= 1
    && (HasReg(op) ==> op.reg < REGISTERS)
    && (IsMemory(op) ==>
         Place(op, regs) < USABLE && (op.size == 1 ==> Place(op, regs) % LineCache.LINE != 15))
  }

  function Raw(mem: seq<Byte>, a: Addr, size: nat): Word
    requires |mem| == MEMORY && a < USABLE
  {
    if size == 0 then mem[a] as Word else Join(mem[a], mem[a + 1])
  }

  function OperandMask(op: Operand, regs: seq<Word>): Word
    requires |regs| == REGISTERS && op.Obf? && op.reg < REGISTERS && op.key < 0x1_0000
  {
    Mask(op.addr as Word, regs[op.reg] as nat, op.key as Word)
  }

  function Value(op: Operand, regs: seq<Word>, mem: seq<Byte>): Word
    requires |regs| == REGISTERS && |mem| == MEMORY && OperandDefined(op, regs)
    requires op.Imm? ==> op.value < 0x1_0000
    requires op.Obf? ==> op.key < 0x1_0000
  {
    if op.Reg? then regs[op.reg]
    else if op.Imm? then op.value as Word
    else
      var v := Raw(mem, Place(op, regs), op.size);
      if !op.Obf? then v
      else if op.size == 0 then (v ^ OperandMask(op, regs)) & 0xff
      else v ^ OperandMask(op, regs)
  }

  predicate OperandEncoded(op: Operand) {
    (op.Imm? ==> op.value < 0x1_0000) && (op.Obf? ==> op.key < 0x1_0000)
  }

  function Bytes(v: Word, size: nat): seq<Byte> {
    if size == 0 then [Lo(v)] else [Lo(v), Hi(v)]
  }

  /** A byte operand changes the low byte of a register. */
  function Merge(size: nat, was: Word, v: Word): Word {
    if size == 0 then (was & 0xff00) | (v & 0xff) else v
  }

  function Masked(v: Word, mask: Word): Word {
    v ^ mask
  }

  /** save_dest: an immediate destination is ignored. */
  function Save(op: Operand, cpu: Cpu, v: Word): Effect
    requires |cpu.regs| == REGISTERS && OperandDefined(op, cpu.regs) && OperandEncoded(op)
  {
    if op.Reg? then
      Effect(NoStore, cpu.(regs := cpu.regs[op.reg := Merge(op.size, cpu.regs[op.reg], v)]))
    else if op.Imm? then Effect(NoStore, cpu)
    else
      var w := if op.Obf? then Masked(v, OperandMask(op, cpu.regs)) else v;
      Effect(Store(Place(op, cpu.regs), Bytes(w, op.size)), cpu)
  }

  // ---------------------------------------------------------------- flags and conditions

  const ZERO: Word := 1
  const CARRY: Word := 2
  const OVERFLOW: Word := 4
  const SIGN: Word := 8

  /** test_flags: code 14 never holds. */
  predicate Test(code: nat, f: Word) {
    var z, c, o, s := f & ZERO != 0, f & CARRY != 0, f & OVERFLOW != 0, f & SIGN != 0;
    match code
    case 0 => z
    case 1 => !z
    case 2 => c
    case 3 => !c
    case 4 => s
    case 5 => !s
    case 6 => o
    case 7 => !o
    case 8 => !z && !c
    case 9 => z || c
    case 10 => o == s && !z
    case 11 => o == s
    case 12 => o != s
    case 13 => o != s || z
    case _ => code == 15
  }

  /** Bank 0 is the high nibble of the flag byte, bank 1 the low one. */
  function Nibble(flags: Word, bank: nat): Word {
    if bank == 0 then (flags >> 4) & 0xf else flags & 0xf
  }

  function Code(bank: nat, conds: nat): nat {
    if bank == 0 then conds / 16 % 16 else conds % 16
  }

  predicate Matched(bank: nat, conds: nat, flags: Word) {
    Test(Code(bank, conds), Nibble(flags, bank))
  }

  /** sub_4814, once the condition holds and the update flag is set. */
  function SetBank(flags: Word, bank: nat, f: Word): Word {
    if bank == 0 then (flags & 0x0f) | (f << 4) else (flags & 0xf0) | f
  }

  function ZeroSign(r: Word): Word {
    (if r == 0 then ZERO else 0) | (if r >> 15 == 1 then SIGN else 0)
  }

  /** `and` and `or` only let the zero flags through. */
  function LogicFlags(flags: Word, bank: nat, r: Word): Word {
    KeepZeros(SetBank(flags, bank, ZeroSign(r)), flags)
  }

  function KeepZeros(flags: Word, before: Word): Word {
    (flags & 0xff11) | (before & 0xffee)
  }

  /** `neg` replaces the whole nibble. */
  function NegFlags(flags: Word, bank: nat, r: Word): Word {
    SetBank(flags, bank, ZeroSign(r))
  }

  /** A shift always sets the zero flag (server.c:1486). */
  function ShiftFlags(flags: Word, bank: nat, carry: Word): Word {
    SetBank(flags, bank, ZeroCarry(carry))
  }

  function ZeroCarry(carry: Word): Word {
    ZERO | (carry << 1)
  }

  /** Flags that were not updated pass the masks of `and` and `or` unchanged. */
  lemma LogicFlagsBy(flags: Word, bank: nat, r: Word)
    ensures LogicFlags(flags, bank, r) == KeepZeros(SetBank(flags, bank, ZeroSign(r)), flags)
    ensures KeepZeros(flags, flags) == flags
  {
    hide SetBank, ZeroSign;
    KeepAll(flags);
  }

  lemma KeepAll(flags: Word)
    ensures KeepZeros(flags, flags) == flags
  {
  }

  lemma NegFlagsBy(flags: Word, bank: nat, r: Word)
    ensures NegFlags(flags, bank, r) == SetBank(flags, bank, ZeroSign(r))
  {
  }

  lemma ShiftFlagsBy(flags: Word, bank: nat, carry: Word)
    ensures ShiftFlags(flags, bank, carry) == SetBank(flags, bank, ZeroCarry(carry))
  {
  }

  function Shifted(right: bool, count: nat, v: Word): Word
    requires 1 <= count <= 16
  {
    if right then v >> count else v << count
  }

  /** The last bit shifted out. */
  function ShiftCarry(right: bool, count: nat, v: Word): Word
    requires 1 <= count <= 16
  {
    (if right then v >> (count - 1) else v >> (16 - count)) & 1
  }

  // ---------------------------------------------------------------- jumps

  function Position(byte: int, bits: nat): (p: nat)
    ensures p == 8 * (byte % 0x1_0000) + bits
  {
    8 * (byte % 0x1_0000) + bits
  }

  /** A relative jump from `pos`: bit 5 of `bytes` is the direction. */
  function JumpFrom(pos: nat, bytes: nat, bits: nat): nat
    requires bytes < 64 && bits < 8
  {
    var byte, bit, n := pos / 8, pos % 8, bytes % 32;
    if bytes < 32 then Position(byte + n + (bit + bits) / 8, (bit + bits) % 8)
    else if bit < bits then Position(byte - n - 1, bit + 8 - bits)
    else Position(byte - n, bit - bits)
  }

  /** A position held in a word: the byte in the high bits, the bit in the low three. */
  function FarByte(v: Word): (byte: Addr)
    ensures byte < 0x2000
  {
    var high := (v >> 3) & 0x1fff;
    assert high < 0x2000;
    high as int
  }

  function FarBits(v: Word): (bits: nat)
    ensures bits < 8
  {
    var low := v & 7;
    assert low < 8;
    low as nat
  }

  /** Relative jumps move by exactly 8 * n + bits positions, either way, modulo
      the 2^19 bits of the address space. */
  lemma RelativeJumpMovesExactly(pos: nat, bytes: nat, bits: nat)
    requires pos < 8 * 0x1_0000 && bytes < 64 && bits < 8
    ensures JumpFrom(pos, bytes, bits) ==
      (if bytes < 32 then pos + (8 * bytes + bits) else pos - (8 * (bytes - 32) + bits)) % (8 * 0x1_0000)
  {
    if bytes < 32 {
      JumpForward(pos, bytes, bits);
    } else {
      JumpBack(pos, bytes - 32, bits);
    }
  }

  lemma JumpForward(pos: nat, bytes: nat, bits: nat)
    requires bytes < 32 && bits < 8
    ensures JumpFrom(pos, bytes, bits) == (pos + (8 * bytes + bits)) % (8 * 0x1_0000)
  {
    hide Position;
    var byte, sum := pos / 8, pos % 8 + bits;
    PositionWraps(byte + bytes + sum / 8, sum % 8);
  }

  lemma JumpBack(pos: nat, n: nat, bits: nat)
    requires n < 32 && bits < 8
    ensures JumpFrom(pos, n + 32, bits) == (pos - (8 * n + bits)) % (8 * 0x1_0000)
  {
    hide Position;
    var byte, bit := pos / 8, pos % 8;
    if bit < bits {
      PositionWraps(byte - n - 1, bit + 8 - bits);
    } else {
      PositionWraps(byte - n, bit - bits);
    }
  }

  lemma PositionWraps(byte: int, bits: nat)
    requires bits < 8
    ensures Position(byte, bits) == (8 * byte + bits) % (8 * 0x1_0000)
  {
    var q, r := byte / 0x1_0000, byte % 0x1_0000;
    assert 8 * byte + bits == (8 * 0x1_0000) * q + (8 * r + bits);
  }

  // ---------------------------------------------------------------- what is read

  function DataTouch(op: Operand, regs: seq<Word>): seq<nat>
    requires |regs| == REGISTERS && OperandDefined(op, regs)
  {
    if IsMemory(op) then [Place(op, regs)] else []
  }

  function OperandTouches(op: Operand, p: nat, regs: seq<Word>): seq<nat>
    requires |regs| == REGISTERS && OperandDefined(op, regs)
  {
    FieldTouches(p, OperandWidths(op)) + DataTouch(op, regs)
  }

  /** All operands are defined, shifts are by 1 to 16, and opcode 6 (the call)
      is excluded. */
  predicate BodyDefined(body: Body, regs: seq<Word>)
    requires |regs| == REGISTERS
  {
    && (forall i | 0 <= i < |Operands(body)| :: OperandDefined(Operands(body)[i], regs))
    && (body.Shift? ==> 1 <= body.count <= 16)
    && (body.Jump? ==> body.opcode != 6 && body.bytes < 64 && body.bits < 8)
  }

  predicate BodyEncoded(body: Body) {
    forall i | 0 <= i < |Operands(body)| :: OperandEncoded(Operands(body)[i])
  }

  /** The look-ups for several operands, each with its data right after it. */
  function OperandsTouches(ops: seq<Operand>, p: nat, regs: seq<Word>): seq<nat>
    requires |regs| == REGISTERS && forall i | 0 <= i < |ops| :: OperandDefined(ops[i], regs)
    decreases |ops|
  {
    if ops == [] then []
    else OperandTouches(ops[0], p, regs) + OperandsTouches(ops[1..], p + OperandLength(ops[0]), regs)
  }

  /** The byte look-ups of a body that starts at `p`, in order. */
  function BodyTouches(body: Body, p: nat, regs: seq<Word>): seq<nat>
    requires |regs| == REGISTERS && BodyDefined(body, regs)
  {
    FieldTouches(p, PrefixWidths(body)) + OperandsTouches(Operands(body), p + PrefixLength(body), regs)
  }

  predicate Defined(ins: Instruction, cpu: Cpu) {
    && |cpu.regs| == REGISTERS && ins.Instruction?
    && (cpu.pos + Length(ins)) / 8 < USABLE
    && BodyDefined(ins.body, cpu.regs) && BodyEncoded(ins.body)
  }

  function Touches(ins: Instruction, cpu: Cpu): seq<nat>
    requires Defined(ins, cpu)
  {
    FieldTouches(cpu.pos, [1, 8]) + FieldTouches(cpu.pos + 9, [3, 1])
      + BodyTouches(ins.body, cpu.pos + 13, cpu.regs)
  }

  predicate AllBelow(t: seq<nat>, limit: nat) {
    forall i | 0 <= i < |t| :: t[i] < limit
  }

  lemma OperandTouchesBelow(op: Operand, p: nat, regs: seq<Word>)
    requires |regs| == REGISTERS && OperandDefined(op, regs) && (p + OperandLength(op)) / 8 < USABLE
    ensures AllBelow(OperandTouches(op, p, regs), USABLE)
  {
    OperandLengthIsSum(op);
  }

  lemma {:induction false} OperandsTouchesBelow(ops: seq<Operand>, p: nat, regs: seq<Word>)
    requires |regs| == REGISTERS && forall i | 0 <= i < |ops| :: OperandDefined(ops[i], regs)
    requires (p + OperandsLength(ops)) / 8 < USABLE
    ensures AllBelow(OperandsTouches(ops, p, regs), USABLE)
    decreases |ops|
  {
    hide OperandTouches, OperandDefined, OperandLength;
    if ops != [] {
      OperandTouchesBelow(ops[0], p, regs);
      OperandsTouchesBelow(ops[1..], p + OperandLength(ops[0]), regs);
    }
  }

  /** Everything an instruction reads lies below USABLE. */
  lemma TouchesBelow(ins: Instruction, cpu: Cpu)
    requires Defined(ins, cpu)
    ensures AllBelow(Touches(ins, cpu), USABLE)
  {
    hide OperandDefined, OperandsTouches, OperandsLength, Operands, PrefixLength, PrefixWidths, FieldTouches;
    var body := ins.body;
    HeaderSums(body);
    OperandsTouchesBelow(Operands(body), cpu.pos + 13 + PrefixLength(body), cpu.regs);
  }

  // ---------------------------------------------------------------- what is done

  function Finish(ins: Instruction, op: Operand, cpu: Cpu, flags: Word, v: Word): Effect
    requires Defined(ins, cpu) && OperandDefined(op, cpu.regs) && OperandEncoded(op)
  {
    var next := cpu.(pos := cpu.pos + Length(ins));
    if !Matched(ins.bank, ins.conds, cpu.flags) then Effect(NoStore, next)
    else Save(op, next.(flags := if ins.uf == 0 then cpu.flags else flags), v)
  }

  function Target(ins: Instruction, cpu: Cpu, mem: seq<Byte>): nat
    requires Defined(ins, cpu) && ins.body.Jump? && |mem| == MEMORY
  {
    var j := ins.body;
    match j.target
    case Relative => JumpFrom(cpu.pos + Length(ins), j.bytes, j.bits)
    case Absolute(op) =>
      assert op == Operands(j)[0];
      if op.Imm? then Position(op.value, j.bits)
      else
        var v := Value(op, cpu.regs, mem);
        Position(FarByte(v), FarBits(v))
  }

  function Logic(or: bool, a: Word, b: Word): Word {
    if or then a | b else a & b
  }

  function Complement(a: Word): Word {
    !a
  }

  lemma LogicIs(or: bool, a: Word, b: Word)
    ensures Logic(or, a, b) == if or then a | b else a & b
  {
  }

  lemma ComplementIs(a: Word)
    ensures Complement(a) == !a
  {
  }

  datatype Result = Result(value: Word, flags: Word)

  /** What an instruction other than a jump computes for its first operand, and
      the flags if it updates them. */
  function Compute(ins: Instruction, cpu: Cpu, mem: seq<Byte>): Result
    requires Defined(ins, cpu) && !ins.body.Jump? && |mem| == MEMORY
  {
    var regs, flags, bank, ops := cpu.regs, cpu.flags, ins.bank, Operands(ins.body);
    match ins.body
    case And(_, _) =>
      var v := Logic(false, Value(ops[0], regs, mem), Value(ops[1], regs, mem));
      Result(v, LogicFlags(flags, bank, v))
    case Or(_, _) =>
      var v := Logic(true, Value(ops[0], regs, mem), Value(ops[1], regs, mem));
      Result(v, LogicFlags(flags, bank, v))
    case Neg(_) =>
      var v := Complement(Value(ops[0], regs, mem));
      Result(v, NegFlags(flags, bank, v))
    case Shift(right, n, _) =>
      var v := Value(ops[0], regs, mem);
      Result(Shifted(right, n, v), ShiftFlags(flags, bank, ShiftCarry(right, n, v)))
    case Mov(_, _) => Result(Value(ops[1], regs, mem), flags)
  }

  function Execute(ins: Instruction, cpu: Cpu, mem: seq<Byte>): Effect
    requires Defined(ins, cpu) && |mem| == MEMORY
  {
    if ins.body.Jump? then
      var matched := Matched(ins.bank, ins.conds, cpu.flags);
      Effect(NoStore, cpu.(pos := if matched then Target(ins, cpu, mem) else cpu.pos + Length(ins)))
    else
      var r := Compute(ins, cpu, mem);
      Finish(ins, Operands(ins.body)[0], cpu, r.flags, r.value)
  }

  function Apply(store: Store, mem: seq<Byte>): (r: seq<Byte>)
    requires |mem| == MEMORY && (store.Store? ==> store.addr + |store.bytes| <= MEMORY)
    ensures |r| == MEMORY
  {
    match store
    case NoStore => mem
    case Store(a, s) => LineCache.Splice(mem, a, s)
  }

  predicate StoreFits(store: Store) {
    store.Store? ==> store.addr < USABLE && store.addr % LineCache.LINE + |store.bytes| <= LineCache.LINE
  }

  lemma SaveFits(op: Operand, cpu: Cpu, v: Word)
    requires |cpu.regs| == REGISTERS && OperandDefined(op, cpu.regs) && OperandEncoded(op)
    ensures var e := Save(op, cpu, v);
      && StoreFits(e.store) && |e.cpu.regs| == REGISTERS && e.cpu.pos == cpu.pos
      && (e.store.Store? ==> IsMemory(op) && e.store.addr == Place(op, cpu.regs))
  {
  }

  /** A store stays inside the line of an address that the instruction read. */
  lemma StoreWasRead(ins: Instruction, cpu: Cpu, mem: seq<Byte>)
    requires Defined(ins, cpu) && |mem| == MEMORY
    ensures var e := Execute(ins, cpu, mem);
      && StoreFits(e.store) && |e.cpu.regs| == REGISTERS
      && (e.store.Store? ==> e.store.addr in Touches(ins, cpu))
  {
    if !ins.body.Jump? {
      var ops, p := Operands(ins.body), cpu.pos + 13 + PrefixLength(ins.body);
      var d := ops[0];
      FinishFits(ins, d, cpu, mem);
      if IsMemory(d) {
        assert Place(d, cpu.regs) in OperandTouches(d, p, cpu.regs);
        assert Place(d, cpu.regs) in OperandsTouches(ops, p, cpu.regs);
      }
    }
  }

  lemma FinishFits(ins: Instruction, op: Operand, cpu: Cpu, mem: seq<Byte>)
    requires Defined(ins, cpu) && OperandDefined(op, cpu.regs) && OperandEncoded(op)
    ensures forall f, v {:trigger Finish(ins, op, cpu, f, v)} :: var e := Finish(ins, op, cpu, f, v);
      && StoreFits(e.store) && |e.cpu.regs| == REGISTERS
      && (e.store.Store? ==> IsMemory(op) && e.store.addr == Place(op, cpu.regs))
  {
  }

  datatype State = State(cpu: Cpu, mem: seq<Byte>)

  predicate Runs(s: State) {
    |s.mem| == MEMORY && Defined(Parse(s.mem, s.cpu.pos), s.cpu)
  }

  /** One step of the flat machine; it stands still on an instruction whose
      meaning is not modelled. */
  function Step(s: State): (r: State)
    ensures |s.mem| == MEMORY ==> |r.mem| == MEMORY
  {
    if !Runs(s) then s
    else
      var ins := Parse(s.mem, s.cpu.pos);
      StoreWasRead(ins, s.cpu, s.mem);
      var e := Execute(ins, s.cpu, s.mem);
      State(e.cpu, Apply(e.store, s.mem))
  }

  function Steps(s: State, n: nat): State {
    if n == 0 then s else Step(Steps(s, n - 1))
  }
}
