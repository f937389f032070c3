/** The C that the decompiler emits, as syntax, with the meaning that the helper
    functions and macros of its template give it (vmdisas.rb, C_TEMPLATE_DATA). */
module GotoC {
  import opened Options
  import opened Words
  import M = Machine
  import Obf = CalcObf

  const MEMORY := M.MEMORY

  /** An address expression: a constant, or a constant plus a register. */
  datatype Address = At(base: Addr) | AtReg(base: Addr, reg: nat)

  /** A word the program reads: rw(...) and rwo(...) for the last two. */
  datatype Source = Var(reg: nat) | Const(value: nat) | Load(at: Address) | Hidden(base: Addr, reg: nat, key: nat)

  /** Where it writes: a variable, sw(...), or swo(...). */
  datatype Dest = Variable(reg: nat) | Cell(at: Address) | HiddenCell(base: Addr, reg: nat, key: nat)

  datatype Act =
    | Nothing
    | Logic(or: bool, bank: nat, uf: nat, dest: Dest, source: Source)
    | Neg(bank: nat, uf: nat, dest: Dest)
    | Shift(right: bool, bank: nat, uf: nat, dest: Dest, count: nat)
    | Mov(dest: Dest, source: Source)
    | Goto(target: Label)

  /** loc_%04d_%d */
  datatype Label = Label(bytes: int, bits: int)

  /** The `if` before a statement; CodeMe is the text that is not C. */
  datatype Guard = Always | IfZero(bank: nat, expected: bool) | IfCarry(bank: nat, expected: bool) | CodeMe

  datatype CLine = CLine(mark: Option<Label>, guard: Guard, act: Act)

  // ---------------------------------------------------------------- state

  /** c0, z0, s0 or c1, z1, s1. */
  datatype Bank = Bank(carry: bool, zero: bool, sign: bool)

  /** `at` is the line to run next; one past the last line is the end of f. */
  datatype CState = CState(regs: seq<Word>, bank0: Bank, bank1: Bank, mem: seq<Byte>, at: nat)
  {
    predicate Shape() {
      |regs| == M.REGISTERS && |mem| == MEMORY
    }

    function Flags(bank: nat): Bank {
      if bank == 0 then bank0 else bank1
    }

    function WithFlags(bank: nat, b: Bank): (r: CState)
      ensures Shape() ==> r.Shape()
    {
      if bank == 0 then this.(bank0 := b) else this.(bank1 := b)
    }
  }

  // ---------------------------------------------------------------- expressions

  predicate AddressFits(a: Address, regs: seq<Word>) {
    && (a.AtReg? ==> a.reg < |regs|)
    && AddressOf(a, regs) + 1 < MEMORY
  }

  /** C does not wrap the sum of a constant and a register. */
  function AddressOf(a: Address, regs: seq<Word>): nat
  {
    if a.At? || a.reg >= |regs| then a.base else a.base + regs[a.reg] as int
  }

  predicate SourceFits(e: Source, regs: seq<Word>) {
    match e
    case Var(r) => r < |regs|
    case Const(v) => v < 0x1_0000
    case Load(a) => AddressFits(a, regs)
    case Hidden(b, r, k) => AddressFits(AtReg(b, r), regs) && k < 0x1_0000
  }

  predicate DestFits(d: Dest, regs: seq<Word>) {
    match d
    case Variable(r) => r < |regs|
    case Cell(a) => AddressFits(a, regs)
    case HiddenCell(b, r, k) => AddressFits(AtReg(b, r), regs) && k < 0x1_0000
  }

  function Rw(mem: seq<Byte>, a: nat): Word
    requires a + 1 < |mem|
  {
    Join(mem[a], mem[a + 1])
  }

  function Sw(mem: seq<Byte>, a: nat, v: Word): (r: seq<Byte>)
    requires a + 1 < |mem|
    ensures |r| == |mem|
  {
    mem[a := Lo(v)][a + 1 := Hi(v)]
  }

  function CalcMask(base: Addr, reg: nat, key: nat, regs: seq<Word>): Word
    requires reg < |regs| && key < 0x1_0000
  {
    Obf.CalcObf(base as Word, regs[reg] as nat, key as Word)
  }

  function Eval(e: Source, st: CState): Word
    requires st.Shape() && SourceFits(e, st.regs)
  {
    match e
    case Var(r) => st.regs[r]
    case Const(v) => v as Word
    case Load(a) => Rw(st.mem, AddressOf(a, st.regs))
    case Hidden(b, r, k) => Rw(st.mem, AddressOf(AtReg(b, r), st.regs)) ^ CalcMask(b, r, k, st.regs)
  }

  function Source1(d: Dest): Source {
    match d
    case Variable(r) => Var(r)
    case Cell(a) => Load(a)
    case HiddenCell(b, r, k) => Hidden(b, r, k)
  }

  /** The operand of negw, andw, shiftw and the like: the destination is read first. */
  function Fetch(d: Dest, st: CState): Word
    requires st.Shape() && DestFits(d, st.regs)
  {
    Eval(Source1(d), st)
  }

  function Assign(d: Dest, v: Word, st: CState): (r: CState)
    requires st.Shape() && DestFits(d, st.regs)
    ensures r.Shape() && r.at == st.at && r.bank0 == st.bank0 && r.bank1 == st.bank1
  {
    match d
    case Variable(r) => st.(regs := st.regs[r := v])
    case Cell(a) => st.(mem := Sw(st.mem, AddressOf(a, st.regs), v))
    case HiddenCell(b, r, k) =>
      st.(mem := Sw(st.mem, AddressOf(AtReg(b, r), st.regs), CalcMask(b, r, k, st.regs) ^ v))
  }

  // ---------------------------------------------------------------- helpers of the template

  function UpdateFlags(b: Bank, v: Word): Bank {
    b.(zero := v == 0, sign := v >> 15 == 1)
  }

  /** and, or. */
  function Combined(or: bool, v1: Word, v2: Word): Word {
    if or then v1 | v2 else v1 & v2
  }

  /** neg. */
  function Inverted(v1: Word): Word {
    !v1
  }

  /** Their flags. */
  function Updated(st: CState, bank: nat, uf: nat, v: Word): (r: CState)
    ensures st.Shape() ==> r.Shape()
  {
    if uf == 1 then st.WithFlags(bank, UpdateFlags(st.Flags(bank), v)) else st
  }

  function ShiftedBy(right: bool, v: Word, count: nat): Word
    requires 1 <= count <= 15
  {
    if right then v >> count else v << count
  }

  predicate LastShifted(right: bool, v: Word, count: nat)
    requires 1 <= count <= 15
  {
    if right then (v >> (count - 1)) & 1 == 1 else (v >> (16 - count)) & 1 == 1
  }

  /** shift: the carry, and the flags of what is left. */
  function ShiftUpdated(st: CState, right: bool, bank: nat, uf: nat, before: Word, count: nat): (r: CState)
    requires 1 <= count <= 15
    ensures st.Shape() ==> r.Shape()
  {
    if uf == 1 then
      var b := st.Flags(bank).(carry := LastShifted(right, before, count));
      st.WithFlags(bank, UpdateFlags(b, ShiftedBy(right, before, count)))
    else st
  }

  predicate ActFits(act: Act, st: CState)
    requires st.Shape()
  {
    match act
    case Nothing => true
    case Logic(_, _, _, d, e) => DestFits(d, st.regs) && SourceFits(e, st.regs)
    case Neg(_, _, d) => DestFits(d, st.regs)
    case Shift(_, _, _, d, n) => DestFits(d, st.regs) && 1 <= n <= 15
    case Mov(d, e) => DestFits(d, st.regs) && SourceFits(e, st.regs)
    case Goto(_) => true
  }

  /** A statement other than a goto. */
  function Perform(act: Act, st: CState): (r: CState)
    requires st.Shape() && ActFits(act, st)
    ensures r.Shape()
  {
    match act
    case Nothing => st
    case Logic(or, bank, uf, d, e) =>
      var v := Combined(or, Fetch(d, st), Eval(e, st));
      Assign(d, v, Updated(st, bank, uf, v))
    case Neg(bank, uf, d) =>
      var v := Inverted(Fetch(d, st));
      Assign(d, v, Updated(st, bank, uf, v))
    case Shift(right, bank, uf, d, n) =>
      var v := Fetch(d, st);
      Assign(d, ShiftedBy(right, v, n), ShiftUpdated(st, right, bank, uf, v, n))
    case Mov(d, e) => Assign(d, Eval(e, st), st)
    case Goto(_) => st
  }

  predicate Holds(g: Guard, st: CState) {
    match g
    case Always => true
    case IfZero(b, x) => st.Flags(b).zero == x
    case IfCarry(b, x) => st.Flags(b).carry == x
    case CodeMe => false
  }

  /** The line that carries a label, or the length of the program. */
  function Find(prog: seq<CLine>, l: Label, from: nat := 0): (i: nat)
    requires from <= |prog|
    ensures from <= i <= |prog|
    ensures i < |prog| ==> prog[i].mark == Some(l)
    ensures forall k | from <= k < i :: prog[k].mark != Some(l)
    decreases |prog| - from
  {
    if from == |prog| || prog[from].mark == Some(l) then from else Find(prog, l, from + 1)
  }

  /** Whether the next line has a meaning of its own: memory is in range, the
      guard is C and has a statement to guard, and the label exists. */
  predicate LineFits(prog: seq<CLine>, st: CState) {
    && st.Shape() && st.at < |prog| && !prog[st.at].guard.CodeMe?
    && (prog[st.at].act.Nothing? ==> prog[st.at].guard.Always?)
    && (Holds(prog[st.at].guard, st) ==>
         var act := prog[st.at].act;
         ActFits(act, st) && (act.Goto? ==> Find(prog, act.target) < |prog|))
  }

  function CStep(prog: seq<CLine>, st: CState): CState
    requires LineFits(prog, st)
  {
    var line := prog[st.at];
    if !Holds(line.guard, st) then st.(at := st.at + 1)
    else if line.act.Goto? then st.(at := Find(prog, line.act.target))
    else Perform(line.act, st).(at := st.at + 1)
  }
}
