/** From decoded lines to C (vmdisas.rb, the to_c methods, next_pc and compile). */
module Decompiler {
  import opened Options
  import opened Words
  import opened Instructions
  import opened Bitstream
  import opened Decoder
  import C = GotoC
  import M = Machine

  // ---------------------------------------------------------------- operands

  /** to_addr: references through a register have none. */
  function ToAddr(op: Operand): Option<C.Address> {
    match op
    case MemImm(_, a) => Some(C.At(a))
    case MemIdx(_, a, r) => Some(C.AtReg(a, r))
    case _ => None
  }

  /** to_value. */
  function ToSource(op: Operand): Option<C.Source> {
    match op
    case Reg(_, r) => Some(C.Var(r))
    case Imm(size, v) => Some(C.Const(if size == 0 then v % 0x100 else v))
    case Obf(_, a, r, k) => Some(C.Hidden(a, r, k))
    case _ => if ToAddr(op).Some? then Some(C.Load(ToAddr(op).value)) else None
  }

  /** The destination; None where to_c raises. */
  function ToDest(op: Operand): Option<C.Dest> {
    match op
    case Reg(_, r) => Some(C.Variable(r))
    case Obf(_, a, r, k) => Some(C.HiddenCell(a, r, k))
    case _ => if ToAddr(op).Some? then Some(C.Cell(ToAddr(op).value)) else None
  }

  // ---------------------------------------------------------------- jumps

  /** addr_to_pc: thirteen bits of byte address. */
  function AddrToPc(addr: nat): C.Label {
    C.Label(addr / 8 % 0x2000, addr % 8)
  }

  /** next_pc, for a relative jump or an immediate target; None where it raises. */
  function NextPc(line: Line): Option<C.Label>
    requires line.body.Jump?
  {
    var here, r12, r10 := AddrToPc(line.next), line.body.bytes, line.body.bits;
    if r12 != 0 then
      var n := r12 % 0x20;
      if r12 / 0x20 % 2 == 0 then
        Some(C.Label(here.bytes + (n + (here.bits + r10) / 8) % 0x2000, (here.bits + r10) % 8))
      else if here.bits < r10 then Some(C.Label(here.bytes - n - 1, here.bits + 8 - r10))
      else Some(C.Label(here.bytes - n, here.bits - r10))
    else if line.body.target.Absolute? && line.body.target.operand.Imm? then
      Some(C.Label(line.body.target.operand.value, r10))
    else None
  }

  // ---------------------------------------------------------------- statements

  /** calc_cond_bits. */
  function CondBits(bank: nat, conds: nat): nat {
    (if bank == 0 then conds / 16 else conds) % 16
  }

  /** cond_var: only four of the condition codes are programmed.  Code 14 has no
      name, so there is no `if`. */
  function ToGuard(bank: nat, conds: nat): C.Guard {
    var code := CondBits(bank, conds);
    if code == 0 then C.IfZero(bank, true)
    else if code == 1 then C.IfZero(bank, false)
    else if code == 2 then C.IfCarry(bank, true)
    else if code == 3 then C.IfCarry(bank, false)
    else if code <= 13 then C.CodeMe
    else C.Always
  }

  predicate Raises(op: Operand) {
    op.MemOther?
  }

  /** Code 14 has no name, and to_s fails on it. */
  predicate Nameless(line: Line) {
    CondBits(line.bank, line.conds) == 14
  }

  /** to_c, with the to_s of the comment before it; None where one of them raises. */
  function ToAct(line: Line): Option<C.Act> {
    if Nameless(line) || exists op | op in Operands(line.body) :: Raises(op) then None
    else
      match line.body
      case And(d, s) => ToLogic(false, line, d, s)
      case Or(d, s) => ToLogic(true, line, d, s)
      case Neg(d) =>
        if d.Imm? then Some(C.Nothing)
        else if ToDest(d).None? then None
        else Some(C.Neg(line.bank, line.uf, ToDest(d).value))
      case Shift(right, n, d) =>
        if d.Imm? then Some(C.Nothing)
        else if ToDest(d).None? then None
        else Some(C.Shift(right, line.bank, line.uf, ToDest(d).value, n))
      case Mov(d, s) =>
        if d.Imm? then Some(C.Nothing)
        else if ToDest(d).None? || ToSource(s).None? then None
        else Some(C.Mov(ToDest(d).value, ToSource(s).value))
      case Jump(_, _, _, _) =>
        if NextPc(line).None? then None else Some(C.Goto(NextPc(line).value))
  }

  function ToLogic(or: bool, line: Line, d: Operand, s: Operand): Option<C.Act> {
    if d.Imm? then Some(C.Nothing)
    else if ToDest(d).None? || ToSource(s).None? then None
    else Some(C.Logic(or, line.bank, line.uf, ToDest(d).value, ToSource(s).value))
  }

  // ---------------------------------------------------------------- compile

  /** The targets of all the jumps. */
  function Locations(lines: seq<Line>): set<C.Label>
  {
    set i | 0 <= i < |lines| && lines[i].body.Jump? && NextPc(lines[i]).Some? :: NextPc(lines[i]).value
  }

  function Mark(line: Line, locations: set<C.Label>): Option<C.Label> {
    if AddrToPc(line.pc) in locations then Some(AddrToPc(line.pc)) else None
  }

  predicate Compiled(prog: seq<C.CLine>, lines: seq<Line>) {
    && |prog| == |lines|
    && (forall i | 0 <= i < |lines| :: IsLine(prog[i], lines[i], Locations(lines)))
  }

  predicate IsLine(c: C.CLine, line: Line, locations: set<C.Label>) {
    && ToAct(line).Some?
    && c == C.CLine(Mark(line, locations), ToGuard(line.bank, line.conds), ToAct(line).value)
  }

  /** compile: the labels first, then one statement after the other. */
  method Compile(lines: seq<Line>) returns (clines: Option<seq<C.CLine>>)
    ensures clines.Some? ==> Compiled(clines.value, lines)
    ensures clines.None? ==> exists i :: 0 <= i < |lines| && ToAct(lines[i]).None?
  {
    var locations: set<C.Label> := {};
    for i := 0 to |lines|
      invariant locations == Locations(lines[..i])
      invariant forall k | 0 <= k < i :: lines[k].body.Jump? ==> NextPc(lines[k]).Some?
    {
      assert lines[..i + 1] == lines[..i] + [lines[i]];
      LocationsSnoc(lines[..i], lines[i]);
      if lines[i].body.Jump? {
        if NextPc(lines[i]).None? {
          assert ToAct(lines[i]).None?;
          return None;
        }
        locations := locations + {NextPc(lines[i]).value};
      }
    }
    assert lines[..|lines|] == lines;
    var prog: seq<C.CLine> := [];
    for i := 0 to |lines|
      invariant |prog| == i && forall k | 0 <= k < i :: IsLine(prog[k], lines[k], locations)
    {
      var act := ToAct(lines[i]);
      if act.None? {
        return None;
      }
      prog := prog + [C.CLine(Mark(lines[i], locations), ToGuard(lines[i].bank, lines[i].conds), act.value)];
    }
    return Some(prog);
  }

  lemma LocationsSnoc(lines: seq<Line>, line: Line)
    ensures Locations(lines + [line]) ==
      Locations(lines) + if line.body.Jump? && NextPc(line).Some? then {NextPc(line).value} else {}
  {
    hide NextPc;
    var all := lines + [line];
    forall l | l in Locations(lines) ensures l in Locations(all) {
      var i :| 0 <= i < |lines| && lines[i].body.Jump? && NextPc(lines[i]).Some? && l == NextPc(lines[i]).value;
      assert all[i] == lines[i];
    }
    if line.body.Jump? && NextPc(line).Some? {
      assert all[|lines|] == line;
    }
  }

  // ---------------------------------------------------------------- labels

  const CODE := 0x2000  // the byte addresses that a label can name

  /** The position that a label names. */
  function Position(l: C.Label): int {
    8 * l.bytes + l.bits
  }

  predicate InOrder(lines: seq<Line>) {
    && (forall i, k | 0 <= i < k < |lines| :: lines[i].pc < lines[k].pc)
    && (forall i | 0 <= i < |lines| :: lines[i].pc < 8 * CODE)
  }

  lemma {:induction false} ChainIsOrdered(lines: seq<Line>, data: seq<Byte>, i: nat, k: nat)
    requires Chained(lines, data) && i < k < |lines|
    ensures lines[i].pc < lines[k].pc
    decreases k
  {
    hide Bits, ParseBody;
    assert lines[k].pc == lines[k - 1].next;
    assert Reads(lines[k - 1], data, lines[k - 1].pc);
    if i < k - 1 {
      ChainIsOrdered(lines, data, i, k - 1);
    }
  }

  /** The lines of a stream of at most 8192 bytes are in order. */
  lemma ChainInOrder(lines: seq<Line>, data: seq<Byte>)
    requires Chained(lines, data) && Inside(lines, data) && |data| <= CODE
    ensures InOrder(lines)
  {
    forall i, k | 0 <= i < k < |lines| ensures lines[i].pc < lines[k].pc {
      ChainIsOrdered(lines, data, i, k);
    }
  }

  lemma AddrToPcExact(addr: nat, l: C.Label)
    requires addr < 8 * CODE && 0 <= l.bits < 8
    ensures AddrToPc(addr) == l <==> Position(l) == addr
  {
  }

  lemma NextPcBits(line: Line)
    requires line.body.Jump? && line.body.bits < 8 && NextPc(line).Some?
    ensures 0 <= NextPc(line).value.bits < 8
  {
  }

  /** The label of a goto stands on exactly one line if its target is the position
      of a decoded line, and on none otherwise. */
  lemma LabelIffDecoded(prog: seq<C.CLine>, lines: seq<Line>, j: nat)
    requires Compiled(prog, lines) && InOrder(lines) && j < |lines| && prog[j].act.Goto?
    requires lines[j].body.Jump? && lines[j].body.bits < 8
    ensures var l := prog[j].act.target;
      && (forall i | 0 <= i < |prog| :: prog[i].mark == Some(l) <==> lines[i].pc == Position(l))
      && (forall i, k | 0 <= i < k < |prog| :: !(prog[i].mark == Some(l) && prog[k].mark == Some(l)))
  {
    hide NextPc, ToGuard, CondBits;
    var l := prog[j].act.target;
    assert IsLine(prog[j], lines[j], Locations(lines));
    assert NextPc(lines[j]) == Some(l);
    NextPcBits(lines[j]);
    assert l in Locations(lines);
    forall i | 0 <= i < |prog| ensures prog[i].mark == Some(l) <==> lines[i].pc == Position(l) {
      assert IsLine(prog[i], lines[i], Locations(lines));
      AddrToPcExact(lines[i].pc, l);
    }
  }

  // ---------------------------------------------------------------- jumps agree

  /** A relative jump of the decompiler moves by exactly 8 * n + bits positions,
      and does not wrap. */
  lemma NextPcMovesExactly(line: Line)
    requires line.body.Jump? && 0 < line.body.bytes < 64 && line.body.bits < 8 && line.next < 8 * CODE
    ensures NextPc(line).Some? && 0 <= NextPc(line).value.bits < 8
    ensures Position(NextPc(line).value) ==
      if line.body.bytes < 32 then line.next + (8 * line.body.bytes + line.body.bits)
      else line.next - (8 * (line.body.bytes - 32) + line.body.bits)
  {
    hide AddrToPc;
    Here(line.next);
    var b, r12, r10 := line.next % 8, line.body.bytes, line.body.bits;
    Field(r12);
    assert (b + r10) / 8 == (if b + r10 < 8 then 0 else 1)
        && (b + r10) % 8 == (if b + r10 < 8 then b + r10 else b + r10 - 8);
  }

  lemma Here(addr: nat)
    requires addr < 8 * CODE
    ensures AddrToPc(addr) == C.Label(addr / 8, addr % 8)
  {
  }

  /** The sign of a relative jump is its sixth bit. */
  lemma Field(r12: nat)
    requires r12 < 64
    ensures r12 / 0x20 % 2 == (if r12 < 32 then 0 else 1) && r12 % 0x20 == (if r12 < 32 then r12 else r12 - 32)
  {
  }

  /** It is the server's jump if and only if it does not go below position 0. */
  lemma RelativeJumpsAgree(line: Line)
    requires line.body.Jump? && 0 < line.body.bytes < 64 && line.body.bits < 8 && line.next < 8 * CODE
    ensures NextPc(line).Some?
    ensures Position(NextPc(line).value) == M.JumpFrom(line.next, line.body.bytes, line.body.bits)
      <==> (line.body.bytes < 32 || 8 * (line.body.bytes - 32) + line.body.bits <= line.next)
  {
    hide NextPc, Position, M.JumpFrom;
    NextPcMovesExactly(line);
    M.RelativeJumpMovesExactly(line.next, line.body.bytes, line.body.bits);
  }
}
