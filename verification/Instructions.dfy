/** The instruction set as syntax: what a position of the bit stream means,
    independent of who reads it (server.c, decode_operands and do_instruction;
    vmdisas.rb, class Decoder). */
module Instructions {
  import opened Powers
  import opened Words
  import opened Bitstream

  /** `size` is 0 for a byte and 1 for a word. */
  datatype Operand =
    | Reg(size: nat, reg: nat)
    | Imm(size: nat, value: nat)
    | MemReg(size: nat, reg: nat)
    | MemImm(size: nat, addr: Addr)
    | MemIdx(size: nat, addr: Addr, reg: nat)
    | MemOther(size: nat)  // memory reference type 3: no address is read
    | Obf(size: nat, addr: Addr, reg: nat, key: nat)

  datatype Body =
    | And(dst: Operand, src: Operand)
    | Or(dst: Operand, src: Operand)
    | Neg(dst: Operand)
    | Shift(right: bool, count: nat, dst: Operand)
    | Mov(dst: Operand, src: Operand)
    | Jump(opcode: nat, bytes: nat, bits: nat, target: Target)

  datatype Target = Relative | Absolute(operand: Operand)

  /** `bank` selects one of the two sets of flags, `conds` holds the condition
      codes for both, `uf` says whether the flags are updated. */
  datatype Instruction = Stop | Instruction(bank: nat, conds: nat, uf: nat, body: Body)

  // ---------------------------------------------------------------- field widths

  function OperandWidths(op: Operand): seq<nat> {
    match op
    case Reg(_, _) => [1, 2, 4]
    case Imm(size, _) => if size == 0 then [1, 2, 8] else [1, 2, 16]
    case MemReg(_, _) => [1, 2, 2, 4]
    case MemImm(_, _) => [1, 2, 2, 16]
    case MemIdx(_, _, _) => [1, 2, 2, 16, 4]
    case MemOther(_) => [1, 2, 2]
    case Obf(_, _, _, _) => [1, 2, 16, 4, 6]
  }

  const HEADER := [1, 8, 3, 1]

  /** The fields between the header and the first operand. */
  function PrefixWidths(body: Body): seq<nat> {
    match body
    case Shift(_, _, _) => [1, 8]
    case Jump(_, _, _, _) => [6, 3]
    case _ => []
  }

  function OperandLength(op: Operand): (n: nat)
    ensures 5 <= n <= 29
  {
    match op
    case Reg(_, _) => 7
    case Imm(size, _) => if size == 0 then 11 else 19
    case MemReg(_, _) => 9
    case MemImm(_, _) => 21
    case MemIdx(_, _, _) => 25
    case MemOther(_) => 5
    case Obf(_, _, _, _) => 29
  }

  lemma OperandLengthIsSum(op: Operand)
    ensures OperandLength(op) == Sum(OperandWidths(op))
  {
    SumsOfWidths();
  }

  lemma SumsOfWidths()
    ensures Sum([1, 2, 4]) == 7 && Sum([1, 2, 8]) == 11 && Sum([1, 2, 16]) == 19
    ensures Sum([1, 2, 2, 4]) == 9 && Sum([1, 2, 2, 16]) == 21 && Sum([1, 2, 2, 16, 4]) == 25
    ensures Sum([1, 2, 2]) == 5 && Sum([1, 2, 16, 4, 6]) == 29
  {
  }

  // ---------------------------------------------------------------- parsing

  function ParseOperand(mem: seq<Byte>, p: nat): Operand {
    var size := Bits(mem, p, 1);
    var q := p + 3;
    match Bits(mem, p + 1, 2)
    case 0 => Reg(size, Bits(mem, q, 4))
    case 1 => Imm(size, Bits(mem, q, if size == 0 then 8 else 16))
    case 2 =>
      (match Bits(mem, q, 2)
       case 0 => MemReg(size, Bits(mem, q + 2, 4))
       case 1 => MemImm(size, Bits16(mem, q + 2))
       case 2 => MemIdx(size, Bits16(mem, q + 2), Bits(mem, q + 18, 4))
       case _ => MemOther(size))
    case _ => Obf(size, Bits16(mem, q), Bits(mem, q + 16, 4), Bits(mem, q + 20, 6))
  }

  function Bits16(mem: seq<Byte>, p: nat): Addr {
    Pow16();
    Bits(mem, p, 16)
  }

  lemma Pow16()
    ensures Pow2(16) == 0x1_0000
  {
    assert Pow2(8) == 256 by { SmallPowers(8); }
    assert Pow2(12) == 4096;
  }

  /** The body that starts at `p`, given its opcode. */
  function ParseBody(mem: seq<Byte>, p: nat, opcode: nat): Body
    requires opcode < 8
  {
    var first := ParseOperand(mem, p);
    match opcode
    case 0 => And(first, ParseOperand(mem, p + OperandLength(first)))
    case 1 => Or(first, ParseOperand(mem, p + OperandLength(first)))
    case 2 => Neg(first)
    case 3 => Shift(Bits(mem, p, 1) == 1, Bits(mem, p + 1, 8), ParseOperand(mem, p + 9))
    case 4 => Mov(first, ParseOperand(mem, p + OperandLength(first)))
    case _ =>
      var bytes, bits := Bits(mem, p, 6), Bits(mem, p + 6, 3);
      Jump(opcode, bytes, bits, if bytes == 0 then Absolute(ParseOperand(mem, p + 9)) else Relative)
  }

  function Parse(mem: seq<Byte>, p: nat): Instruction {
    var conds := Bits(mem, p + 1, 8);
    if conds == 0xff then Stop
    else
      SmallPowers(3);
      Instruction(Bits(mem, p, 1), conds, Bits(mem, p + 12, 1), ParseBody(mem, p + 13, Bits(mem, p + 9, 3)))
  }

  function Operands(body: Body): (ops: seq<Operand>)
    ensures |ops| <= 2
  {
    match body
    case And(d, s) => [d, s]
    case Or(d, s) => [d, s]
    case Neg(d) => [d]
    case Shift(_, _, d) => [d]
    case Mov(d, s) => [d, s]
    case Jump(_, _, _, t) => if t.Absolute? then [t.operand] else []
  }

  function PrefixLength(body: Body): nat {
    if body.Shift? || body.Jump? then 9 else 0
  }

  lemma HeaderSums(body: Body)
    ensures Sum([1, 8]) == 9 && Sum([3, 1]) == 4
    ensures Sum(PrefixWidths(body)) == PrefixLength(body)
  {
    assert Sum([6, 3]) == 9;
  }

  function OperandsLength(ops: seq<Operand>): (n: nat)
    ensures 5 * |ops| <= n <= 29 * |ops|
  {
    if ops == [] then 0 else OperandLength(ops[0]) + OperandsLength(ops[1..])
  }

  /** The number of bits the server consumes: a stop is left after nine. */
  function Length(ins: Instruction): (n: nat)
    ensures ins.Instruction? ==> 18 <= n <= 80
  {
    match ins
    case Stop => 9
    case Instruction(_, _, _, body) => 13 + PrefixLength(body) + OperandsLength(Operands(body))
  }
}
