/** The decompiler's reader (vmdisas.rb, class Decoder): it shifts bits off the
    front of a list and counts them.  It splits a stream into the same
    instructions, at the same positions, as the server does. */
module Decoder {
  import opened Powers
  import opened Options
  import opened Words
  import opened Bitstream
  import opened Instructions

  /** An instruction with its position and that of the one after it. */
  datatype Line = Line(pc: nat, bank: nat, conds: nat, uf: nat, body: Body, next: nat)

  // ---------------------------------------------------------------- bits as a list

  /** data.unpack('B*'): one digit for each bit. */
  function BitList(data: seq<Byte>): (s: seq<nat>)
    ensures |s| == 8 * |data|
  {
    seq(8 * |data|, i requires 0 <= i => BitAt(data, i))
  }

  /** to_i(2): digits as a number, which is 0 for none at all. */
  function Number(s: seq<nat>): nat {
    if s == [] then 0 else 2 * Number(s[..|s| - 1]) + s[|s| - 1]
  }

  lemma {:induction false} NumberOfSlice(data: seq<Byte>, p: nat, n: nat)
    requires p + n <= 8 * |data|
    ensures Number(BitList(data)[p .. p + n]) == Bits(data, p, n)
  {
    hide BitAt, BitList;
    if n > 0 {
      NumberOfSlice(data, p, n - 1);
      SliceFront(data, p, n);
    } else {
      assert BitList(data)[p .. p] == [];
    }
  }

  lemma SliceFront(data: seq<Byte>, p: nat, n: nat)
    requires 0 < n && p + n <= 8 * |data|
    ensures var s := BitList(data)[p .. p + n];
      s[..n - 1] == BitList(data)[p .. p + (n - 1)] && s[n - 1] == BitAt(data, p + n - 1)
  {
    hide BitAt;
  }

  predicate Digits(s: seq<nat>) {
    forall i | 0 <= i < |s| :: s[i] < 2
  }

  lemma {:induction false} NumberFits(s: seq<nat>, n: nat)
    requires Digits(s) && |s| <= n
    ensures Number(s) < Pow2(n)
    decreases n
  {
    if s != [] {
      NumberFits(s[..|s| - 1], n - 1);
    }
  }

  function Min(a: nat, b: nat): nat {
    if a <= b then a else b
  }

  /** What is left of the stream at position `pc`. */
  function Rest(data: seq<Byte>, pc: nat): seq<nat> {
    BitList(data)[Min(pc, 8 * |data|)..]
  }

  // ---------------------------------------------------------------- the reader

  class Decoder {
    var bitstream: seq<nat>
    var pc: nat
    var instructions: seq<Line>

    constructor (data: seq<Byte>)
      ensures Over(data) && pc == 0 && instructions == []
    {
      bitstream, pc, instructions := BitList(data), 0, [];
    }

    ghost predicate Over(data: seq<Byte>)
      reads this`bitstream, this`pc
    {
      bitstream == Rest(data, pc)
    }

    /** read_bits: near the end of the stream it may get fewer than `n` digits. */
    method ReadBits(n: nat, ghost data: seq<Byte>) returns (v: nat)
      requires Over(data)
      modifies this`bitstream, this`pc
      ensures Over(data) && pc == old(pc) + n && v < Pow2(n)
      ensures |bitstream| == |old(bitstream)| - Min(n, |old(bitstream)|)
      ensures pc <= 8 * |data| ==> v == Bits(data, old(pc), n)
    {
      var k := Min(n, |bitstream|);
      v := Number(bitstream[..k]);
      ReadIs(data, pc, n, bitstream, k);
      pc, bitstream := pc + n, bitstream[k..];
    }

    method ReadWord(ghost data: seq<Byte>) returns (v: Addr)
      requires Over(data)
      modifies this`bitstream, this`pc
      ensures Over(data) && pc == old(pc) + 16 && (pc <= 8 * |data| ==> v == Bits(data, old(pc), 16))
    {
      Pow16();
      v := ReadBits(16, data);
    }

    /** decode_operand: type 3 of decode_mem_ref gives nil, which stays an operand
        without an address. */
    method DecodeOperand(ghost data: seq<Byte>) returns (op: Operand)
      requires Over(data)
      modifies this`bitstream, this`pc
      ensures Over(data) && pc == old(pc) + OperandLength(op)
      ensures pc <= 8 * |data| ==> op == ParseOperand(data, old(pc))
    {
      hide Bits, Rest;
      ghost var p := pc;
      SmallPowers(2);
      var size := ReadBits(1, data);
      var kind := ReadBits(2, data);
      if kind == 0 {
        var reg := ReadBits(4, data);
        return Reg(size, reg);
      } else if kind == 1 {
        var value := ReadBits(if size == 0 then 8 else 16, data);
        return Imm(size, value);
      } else if kind == 2 {
        op := DecodeMemRef(size, p, data);
      } else {
        var addr := ReadWord(data);
        var reg := ReadBits(4, data);
        var key := ReadBits(6, data);
        return Obf(size, addr, reg, key);
      }
    }

    method DecodeMemRef(size: nat, ghost p: nat, ghost data: seq<Byte>) returns (op: Operand)
      requires Over(data) && pc == p + 3
      requires pc <= 8 * |data| ==> size == Bits(data, p, 1) && Bits(data, p + 1, 2) == 2
      modifies this`bitstream, this`pc
      ensures Over(data) && pc == p + OperandLength(op)
      ensures pc <= 8 * |data| ==> op == ParseOperand(data, p)
    {
      hide Bits, Rest;
      SmallPowers(2);
      var kind := ReadBits(2, data);
      if kind == 0 {
        var reg := ReadBits(4, data);
        return MemReg(size, reg);
      } else if kind == 1 {
        var addr := ReadWord(data);
        return MemImm(size, addr);
      } else if kind == 2 {
        var addr := ReadWord(data);
        var reg := ReadBits(4, data);
        return MemIdx(size, addr, reg);
      } else {
        return MemOther(size);
      }
    }

    /** decode_instruction: opcodes 5 and 6 are not registered, so the factory
        raises. */
    method DecodeInstruction(ghost data: seq<Byte>) returns (line: Option<Line>)
      requires Over(data)
      modifies this`bitstream, this`pc
      ensures Over(data) && pc >= old(pc) + 13
      ensures line.Some? ==> Reads(line.value, data, old(pc)) && line.value.next == pc
      ensures line.None? && pc <= 8 * |data| ==> Bits(data, old(pc) + 9, 3) in {5, 6}
    {
      hide Bits, Rest, ParseOperand, OperandLength;
      var insPc := pc;
      SmallPowers(3);
      var cond := ReadBits(1, data);
      var condBits := ReadBits(8, data);
      var opcode := ReadBits(3, data);
      var uf := ReadBits(1, data);
      if opcode == 5 || opcode == 6 {
        return None;
      }
      var body := DecodeBody(opcode, insPc, data);
      line := Some(Line(insPc, cond, condBits, uf, body, pc));
      LineIsRead(line.value, opcode, data);
    }

    method DecodeBody(opcode: nat, ghost p: nat, ghost data: seq<Byte>) returns (body: Body)
      requires Over(data) && pc == p + 13 && opcode < 8 && opcode !in {5, 6}
      modifies this`bitstream, this`pc
      ensures Over(data) && pc == p + BodyLength(body)
      ensures pc <= 8 * |data| ==> body == ParseBody(data, p + 13, opcode)
    {
      hide Bits, Rest, ParseOperand, OperandLength;
      LengthsOfBodies();
      if opcode == 3 {
        var lr := ReadBits(1, data);
        var shift := ReadBits(8, data);
        var op := DecodeOperand(data);
        return Shift(lr == 1, shift, op);
      }
      if opcode == 7 {
        var v1 := ReadBits(6, data);
        var v2 := ReadBits(3, data);
        if v1 != 0 {
          return Jump(7, v1, v2, Relative);
        }
        var op := DecodeOperand(data);
        return Jump(7, v1, v2, Absolute(op));
      }
      var first := DecodeOperand(data);
      if opcode == 2 {
        return Neg(first);
      }
      var second := DecodeOperand(data);
      return if opcode == 0 then And(first, second) else if opcode == 1 then Or(first, second) else Mov(first, second);
    }

    /** decode: until no digit is left; false if an instruction was refused. */
    method Decode(ghost data: seq<Byte>) returns (ok: bool)
      requires Over(data) && pc == 0 && instructions == []
      modifies this
      ensures Chained(instructions, data) && Inside(instructions, data)
      ensures ok ==> |data| > 0 ==> instructions != [] && instructions[|instructions| - 1].next >= 8 * |data|
    {
      hide Reads, Rest;
      ok := true;
      while bitstream != []
        invariant Over(data) && Chained(instructions, data) && Inside(instructions, data)
        invariant pc == if instructions == [] then 0 else instructions[|instructions| - 1].next
        decreases 8 * |data| - pc
      {
        StillInside(bitstream, data, pc);
        var line := DecodeInstruction(data);
        if line.None? {
          return false;
        }
        ChainSnoc(instructions, line.value, data);
        InsideSnoc(instructions, line.value, data);
        instructions := instructions + [line.value];
      }
      StillInside(bitstream, data, pc);
    }
  }

  lemma ReadIs(data: seq<Byte>, pc: nat, n: nat, s: seq<nat>, k: nat)
    requires s == Rest(data, pc) && k == Min(n, |s|)
    ensures Number(s[..k]) < Pow2(n) && s[k..] == Rest(data, pc + n)
    ensures pc + n <= 8 * |data| ==> Number(s[..k]) == Bits(data, pc, n)
  {
    hide Number, Pow2, Bits;
    NumberFits(s[..k], n);
    if pc + n <= 8 * |data| {
      NumberOfSlice(data, pc, n);
      assert s[..k] == BitList(data)[pc .. pc + n];
    }
  }

  lemma StillInside(s: seq<nat>, data: seq<Byte>, pc: nat)
    requires s == Rest(data, pc)
    ensures s == [] <==> pc >= 8 * |data|
  {
  }

  // ---------------------------------------------------------------- agreement

  function BodyLength(body: Body): nat {
    13 + PrefixLength(body) + OperandsLength(Operands(body))
  }

  lemma LengthsOfBodies()
    ensures OperandsLength([]) == 0
    ensures forall a :: OperandsLength([a]) == OperandLength(a)
    ensures forall a, b :: OperandsLength([a, b]) == OperandLength(a) + OperandLength(b)
  {
    hide OperandLength;
    forall a ensures OperandsLength([a]) == OperandLength(a) {
      assert [a][1..] == [];
    }
    forall a, b ensures OperandsLength([a, b]) == OperandLength(a) + OperandLength(b) {
      assert [a, b][1..] == [b] && [b][1..] == [];
    }
  }

  /** The line is what stands at position `p` of the stream, if all of it does. */
  predicate Reads(line: Line, data: seq<Byte>, p: nat) {
    && line.pc == p && line.next == p + BodyLength(line.body)
    && (line.next <= 8 * |data| ==>
         var opcode := Bits(data, p + 9, 3);
         && line.bank == Bits(data, p, 1) && line.conds == Bits(data, p + 1, 8) && line.uf == Bits(data, p + 12, 1)
         && opcode < 8 && opcode !in {5, 6} && line.body == ParseBody(data, p + 13, opcode))
  }

  lemma {:induction false} LineIsRead(line: Line, opcode: nat, data: seq<Byte>)
    requires line.next == line.pc + BodyLength(line.body) && opcode < 8 && opcode !in {5, 6}
    requires line.pc + 13 <= 8 * |data| ==>
      && line.bank == Bits(data, line.pc, 1) && line.conds == Bits(data, line.pc + 1, 8)
      && line.uf == Bits(data, line.pc + 12, 1) && opcode == Bits(data, line.pc + 9, 3)
    requires line.next <= 8 * |data| ==> line.body == ParseBody(data, line.pc + 13, opcode)
    ensures Reads(line, data, line.pc)
  {
    hide Bits, ParseBody;
  }

  /** Lines that follow each other from the start of the stream on. */
  predicate Chained(lines: seq<Line>, data: seq<Byte>) {
    && (forall i | 0 <= i < |lines| :: Reads(lines[i], data, lines[i].pc))
    && (lines != [] ==> lines[0].pc == 0)
    && (forall i | 0 <= i < |lines| - 1 :: lines[i + 1].pc == lines[i].next)
  }

  /** Every line starts inside the stream. */
  predicate Inside(lines: seq<Line>, data: seq<Byte>) {
    forall i | 0 <= i < |lines| :: lines[i].pc < 8 * |data|
  }

  lemma InsideSnoc(lines: seq<Line>, line: Line, data: seq<Byte>)
    requires Inside(lines, data)
    requires var p := if lines == [] then 0 else lines[|lines| - 1].next; Reads(line, data, p) && p < 8 * |data|
    ensures Inside(lines + [line], data)
  {
    hide Bits, ParseBody, BodyLength;
  }

  lemma ChainSnoc(lines: seq<Line>, line: Line, data: seq<Byte>)
    requires Chained(lines, data)
    requires Reads(line, data, if lines == [] then 0 else lines[|lines| - 1].next)
    ensures Chained(lines + [line], data)
  {
    hide Bits, ParseBody, BodyLength;
  }

  /** The stream lies at the start of the memory. */
  predicate Loaded(mem: seq<Byte>, data: seq<Byte>) {
    |data| <= |mem| && mem[..|data|] == data
  }

  lemma {:induction false} LoadedBits(mem: seq<Byte>, data: seq<Byte>, p: nat, n: nat)
    requires Loaded(mem, data) && p + n <= 8 * |data|
    ensures Bits(mem, p, n) == Bits(data, p, n)
  {
    if n > 0 {
      LoadedBits(mem, data, p, n - 1);
      assert mem[..|data|][(p + n - 1) / 8] == mem[(p + n - 1) / 8];
    }
  }

  lemma LoadedOperand(mem: seq<Byte>, data: seq<Byte>, p: nat)
    requires Loaded(mem, data) && p + OperandLength(ParseOperand(data, p)) <= 8 * |data|
    ensures ParseOperand(mem, p) == ParseOperand(data, p)
  {
    hide Bits, Loaded, Pow2;
    LoadedBits(mem, data, p, 1);
    LoadedBits(mem, data, p + 1, 2);
    var op := ParseOperand(data, p);
    match op
    case Reg(_, _) => LoadedBits(mem, data, p + 3, 4);
    case Imm(size, _) => LoadedBits(mem, data, p + 3, if size == 0 then 8 else 16);
    case Obf(_, _, _, _) =>
      LoadedBits(mem, data, p + 3, 16);
      LoadedBits(mem, data, p + 19, 4);
      LoadedBits(mem, data, p + 23, 6);
    case _ => LoadedMemRef(mem, data, p);
  }

  lemma {:induction false} LoadedMemRef(mem: seq<Byte>, data: seq<Byte>, p: nat)
    requires Loaded(mem, data) && p + OperandLength(ParseOperand(data, p)) <= 8 * |data|
    requires Bits(data, p + 1, 2) == 2
    ensures ParseOperand(mem, p) == ParseOperand(data, p)
  {
    hide Bits, Loaded, Pow2;
    LoadedBits(mem, data, p, 1);
    LoadedBits(mem, data, p + 1, 2);
    LoadedBits(mem, data, p + 3, 2);
    var kind := Bits(data, p + 3, 2);
    if kind == 0 {
      LoadedBits(mem, data, p + 5, 4);
    } else if kind == 1 {
      LoadedBits(mem, data, p + 5, 16);
    } else if kind == 2 {
      LoadedBits(mem, data, p + 5, 16);
      LoadedBits(mem, data, p + 21, 4);
    }
  }

  lemma LoadedBody(mem: seq<Byte>, data: seq<Byte>, p: nat, opcode: nat)
    requires Loaded(mem, data) && opcode < 8
    requires var body := ParseBody(data, p, opcode);
      p + PrefixLength(body) + OperandsLength(Operands(body)) <= 8 * |data|
    ensures ParseBody(mem, p, opcode) == ParseBody(data, p, opcode)
  {
    hide *;
    if opcode == 3 {
      LoadedShift(mem, data, p);
    } else if opcode >= 5 {
      LoadedJump(mem, data, p, opcode);
    } else {
      LoadedOperands(mem, data, p, opcode);
    }
  }

  lemma LoadedShift(mem: seq<Byte>, data: seq<Byte>, p: nat)
    requires Loaded(mem, data)
    requires var body := ParseBody(data, p, 3);
      p + PrefixLength(body) + OperandsLength(Operands(body)) <= 8 * |data|
    ensures ParseBody(mem, p, 3) == ParseBody(data, p, 3)
  {
    hide Bits, ParseOperand, OperandLength, Loaded;
    LengthsOfBodies();
    LoadedBits(mem, data, p, 1);
    LoadedBits(mem, data, p + 1, 8);
    LoadedOperand(mem, data, p + 9);
  }

  lemma LoadedJump(mem: seq<Byte>, data: seq<Byte>, p: nat, opcode: nat)
    requires Loaded(mem, data) && 5 <= opcode < 8
    requires var body := ParseBody(data, p, opcode);
      p + PrefixLength(body) + OperandsLength(Operands(body)) <= 8 * |data|
    ensures ParseBody(mem, p, opcode) == ParseBody(data, p, opcode)
  {
    hide Bits, ParseOperand, OperandLength, Loaded;
    LengthsOfBodies();
    LoadedBits(mem, data, p, 6);
    LoadedBits(mem, data, p + 6, 3);
    if Bits(data, p, 6) == 0 {
      LoadedOperand(mem, data, p + 9);
    }
  }

  lemma LoadedOperands(mem: seq<Byte>, data: seq<Byte>, p: nat, opcode: nat)
    requires Loaded(mem, data) && opcode < 5 && opcode != 3
    requires var body := ParseBody(data, p, opcode);
      p + PrefixLength(body) + OperandsLength(Operands(body)) <= 8 * |data|
    ensures ParseBody(mem, p, opcode) == ParseBody(data, p, opcode)
  {
    hide Bits, ParseOperand, OperandLength, Loaded;
    LengthsOfBodies();
    LoadedOperand(mem, data, p);
    if opcode != 2 {
      LoadedOperand(mem, data, p + OperandLength(ParseOperand(data, p)));
    }
  }

  /** Decoder agreement: on every line that lies in the stream the server sees the
      same instruction, of the same length, so it goes on where the next line is;
      except that it stops where the condition byte is 0xff. */
  lemma ServerSplitsAlike(lines: seq<Line>, data: seq<Byte>, mem: seq<Byte>, i: nat)
    requires Chained(lines, data) && Loaded(mem, data) && i < |lines| && lines[i].next <= 8 * |data|
    ensures var ins := Parse(mem, lines[i].pc);
      if lines[i].conds == 0xff then ins.Stop?
      else
        && ins == Instruction(lines[i].bank, lines[i].conds, lines[i].uf, lines[i].body)
        && lines[i].next == lines[i].pc + Length(ins)
        && (i + 1 < |lines| ==> lines[i + 1].pc == lines[i].pc + Length(ins))
  {
    hide Bits, ParseBody, Loaded, OperandsLength, Operands, PrefixLength;
    var p := lines[i].pc;
    LoadedBits(mem, data, p, 1);
    LoadedBits(mem, data, p + 1, 8);
    LoadedBits(mem, data, p + 9, 3);
    LoadedBits(mem, data, p + 12, 1);
    LoadedBody(mem, data, p + 13, Bits(data, p + 9, 3));
  }
}
