/** The instruction format the other way round: the bits that stand for an
    instruction, and the proof that reading gives exactly it. */
module Encoding {
  import opened Powers
  import opened Words
  import opened Bitstream
  import opened Instructions
  import M = Machine

  type Bit = b: int | 0 <= b < 2

  /** A number as `n` bits, highest first. */
  function Field(v: nat, n: nat): (bits: seq<Bit>)
    ensures |bits| == n
  {
    if n == 0 then [] else Field(v / 2, n - 1) + [v % 2]
  }

  ghost predicate HoldsAt(mem: seq<Byte>, p: nat, bits: seq<Bit>) {
    forall i | 0 <= i < |bits| :: BitAt(mem, p + i) == bits[i]
  }

  lemma HoldsParts(mem: seq<Byte>, p: nat, a: seq<Bit>, b: seq<Bit>)
    ensures HoldsAt(mem, p, a + b) <==> HoldsAt(mem, p, a) && HoldsAt(mem, p + |a|, b)
  {
    hide BitAt;
    if HoldsAt(mem, p, a + b) {
      forall i | 0 <= i < |a| ensures BitAt(mem, p + i) == a[i] {
        assert (a + b)[i] == a[i];
      }
      forall i | 0 <= i < |b| ensures BitAt(mem, p + |a| + i) == b[i] {
        assert BitAt(mem, p + (|a| + i)) == (a + b)[|a| + i];
      }
    }
    if HoldsAt(mem, p, a) && HoldsAt(mem, p + |a|, b) {
      forall i | 0 <= i < |a + b| ensures BitAt(mem, p + i) == (a + b)[i] {
        if i >= |a| {
          assert BitAt(mem, p + |a| + (i - |a|)) == b[i - |a|];
        }
      }
    }
  }

  /** A field is read back exactly if its bits are there. */
  lemma {:induction false} FieldRead(mem: seq<Byte>, p: nat, v: nat, n: nat)
    requires v < Pow2(n)
    ensures Bits(mem, p, n) == v <==> HoldsAt(mem, p, Field(v, n))
  {
    hide BitAt;
    if n > 0 {
      FieldRead(mem, p, v / 2, n - 1);
      HoldsParts(mem, p, Field(v / 2, n - 1), [v % 2]);
      OneMore(mem, p, n - 1);
      OneBit(mem, p + (n - 1), v % 2);
    }
  }

  lemma OneBit(mem: seq<Byte>, p: nat, b: Bit)
    ensures HoldsAt(mem, p, [b]) <==> BitAt(mem, p) == b
  {
    hide BitAt;
    if BitAt(mem, p) == b {
      assert BitAt(mem, p + 0) == b;
    }
    if HoldsAt(mem, p, [b]) {
      assert BitAt(mem, p + 0) == [b][0];
    }
  }

  // ---------------------------------------------------------------- operands

  /** Every field is in range. */
  predicate Encodable(op: Operand) {
    && op.size < 2
    && match op
       case Reg(_, r) => r < 16
       case Imm(size, v) => v < if size == 0 then 0x100 else 0x1_0000
       case MemReg(_, r) => r < 16
       case MemImm(_, _) => true
       case MemIdx(_, _, r) => r < 16
       case MemOther(_) => true
       case Obf(_, _, r, key) => r < 16 && key < 64
  }

  function Kind(op: Operand): (k: nat)
    ensures k < 4
  {
    match op
    case Reg(_, _) => 0
    case Imm(_, _) => 1
    case Obf(_, _, _, _) => 3
    case _ => 2
  }

  /** What follows the size and the kind. */
  function Payload(op: Operand): seq<Bit> {
    match op
    case Reg(_, r) => Field(r, 4)
    case Imm(size, v) => Field(v, if size == 0 then 8 else 16)
    case MemReg(_, r) => Field(0, 2) + Field(r, 4)
    case MemImm(_, a) => Field(1, 2) + Field(a, 16)
    case MemIdx(_, a, r) => Field(2, 2) + (Field(a, 16) + Field(r, 4))
    case MemOther(_) => Field(3, 2)
    case Obf(_, a, r, key) => Field(a, 16) + (Field(r, 4) + Field(key, 6))
  }

  function EncodeOperand(op: Operand): (bits: seq<Bit>)
    ensures |bits| == OperandLength(op)
  {
    Field(op.size, 1) + (Field(Kind(op), 2) + Payload(op))
  }

  lemma Ranges()
    ensures Pow2(1) == 2 && Pow2(2) == 4 && Pow2(3) == 8 && Pow2(4) == 16 && Pow2(6) == 64 && Pow2(8) == 0x100
    ensures Pow2(16) == 0x1_0000
  {
    SmallPowers(8);
    Pow16();
  }

  lemma {:induction false} TwoFields(mem: seq<Byte>, p: nat, v: nat, n: nat, bits: seq<Bit>)
    requires v < Pow2(n)
    ensures HoldsAt(mem, p, Field(v, n) + bits) <==> Bits(mem, p, n) == v && HoldsAt(mem, p + n, bits)
  {
    hide HoldsAt, Field, Bits, Pow2;
    FieldRead(mem, p, v, n);
    HoldsParts(mem, p, Field(v, n), bits);
  }

  /** What the payload says, if it is there. */
  predicate PayloadRead(mem: seq<Byte>, q: nat, op: Operand) {
    match op
    case Reg(_, r) => Bits(mem, q, 4) == r
    case Imm(size, v) => Bits(mem, q, if size == 0 then 8 else 16) == v
    case MemReg(_, r) => Bits(mem, q, 2) == 0 && Bits(mem, q + 2, 4) == r
    case MemImm(_, a) => Bits(mem, q, 2) == 1 && Bits(mem, q + 2, 16) == a
    case MemIdx(_, a, r) => Bits(mem, q, 2) == 2 && Bits(mem, q + 2, 16) == a && Bits(mem, q + 18, 4) == r
    case MemOther(_) => Bits(mem, q, 2) == 3
    case Obf(_, a, r, key) => Bits(mem, q, 16) == a && Bits(mem, q + 16, 4) == r && Bits(mem, q + 20, 6) == key
  }

  lemma PayloadIff(mem: seq<Byte>, q: nat, op: Operand)
    requires Encodable(op)
    ensures PayloadRead(mem, q, op) <==> HoldsAt(mem, q, Payload(op))
  {
    Ranges();
    hide HoldsAt, Field, Bits, Pow2;
    match op
    case Reg(_, r) => FieldRead(mem, q, r, 4);
    case Imm(size, v) => FieldRead(mem, q, v, if size == 0 then 8 else 16);
    case MemReg(_, r) =>
      TwoFields(mem, q, 0, 2, Field(r, 4));
      FieldRead(mem, q + 2, r, 4);
    case MemImm(_, a) =>
      TwoFields(mem, q, 1, 2, Field(a, 16));
      FieldRead(mem, q + 2, a, 16);
    case MemIdx(_, a, r) =>
      TwoFields(mem, q, 2, 2, Field(a, 16) + Field(r, 4));
      TwoFields(mem, q + 2, a, 16, Field(r, 4));
      FieldRead(mem, q + 18, r, 4);
    case MemOther(_) => FieldRead(mem, q, 3, 2);
    case Obf(_, a, r, key) =>
      TwoFields(mem, q, a, 16, Field(r, 4) + Field(key, 6));
      TwoFields(mem, q + 16, r, 4, Field(key, 6));
      FieldRead(mem, q + 20, key, 6);
  }

  /** An operand is read exactly where its bits are. */
  lemma OperandIff(mem: seq<Byte>, p: nat, op: Operand)
    requires Encodable(op)
    ensures ParseOperand(mem, p) == op <==> HoldsAt(mem, p, EncodeOperand(op))
  {
    hide HoldsAt, Field, Bits, Pow2, Payload;
    Ranges();
    TwoFields(mem, p, op.size, 1, Field(Kind(op), 2) + Payload(op));
    TwoFields(mem, p + 1, Kind(op), 2, Payload(op));
    PayloadIff(mem, p + 3, op);
    ParsedOperand(mem, p, op);
  }

  lemma {:induction false} ParsedOperand(mem: seq<Byte>, p: nat, op: Operand)
    requires Encodable(op)
    ensures ParseOperand(mem, p) == op <==>
      Bits(mem, p, 1) == op.size && Bits(mem, p + 1, 2) == Kind(op) && PayloadRead(mem, p + 3, op)
  {
    hide Bits;
  }

  // ---------------------------------------------------------------- instructions

  predicate BodyEncodable(body: Body) {
    && (forall i | 0 <= i < |Operands(body)| :: Encodable(Operands(body)[i]))
    && match body
       case Shift(_, count, _) => count < 0x100
       case Jump(opcode, bytes, bits, target) =>
         5 <= opcode < 8 && bytes < 64 && bits < 8 && (bytes == 0 <==> target.Absolute?)
       case _ => true
  }

  predicate InstructionEncodable(ins: Instruction) {
    ins.Instruction? && ins.bank < 2 && ins.conds < 0xff && ins.uf < 2 && BodyEncodable(ins.body)
  }

  function Opcode(body: Body): nat {
    match body
    case And(_, _) => 0
    case Or(_, _) => 1
    case Neg(_) => 2
    case Shift(_, _, _) => 3
    case Mov(_, _) => 4
    case Jump(opcode, _, _, _) => opcode
  }

  function EncodeBody(body: Body): seq<Bit> {
    match body
    case And(d, s) => EncodeOperand(d) + EncodeOperand(s)
    case Or(d, s) => EncodeOperand(d) + EncodeOperand(s)
    case Neg(d) => EncodeOperand(d)
    case Shift(right, count, d) => Field(if right then 1 else 0, 1) + (Field(count, 8) + EncodeOperand(d))
    case Mov(d, s) => EncodeOperand(d) + EncodeOperand(s)
    case Jump(_, bytes, bits, target) =>
      Field(bytes, 6) + (Field(bits, 3) + if target.Absolute? then EncodeOperand(target.operand) else [])
  }

  function Encode(ins: Instruction): seq<Bit>
    requires ins.Instruction?
  {
    Field(ins.bank, 1) + (Field(ins.conds, 8) + (Field(Opcode(ins.body), 3) + (Field(ins.uf, 1) + EncodeBody(ins.body))))
  }

  lemma EncodedLength(ins: Instruction)
    requires ins.Instruction?
    ensures |Encode(ins)| == Length(ins)
  {
    hide EncodeOperand, OperandLength, Field;
    var body := ins.body;
    if |Operands(body)| == 2 {
      assert Operands(body)[1..][1..] == [];
      assert OperandsLength(Operands(body)) == OperandLength(Operands(body)[0]) + OperandLength(Operands(body)[1]);
    } else if |Operands(body)| == 1 {
      assert Operands(body)[1..] == [];
    }
  }

  lemma TwoOperands(mem: seq<Byte>, p: nat, d: Operand, s: Operand)
    requires Encodable(d) && Encodable(s)
    ensures HoldsAt(mem, p, EncodeOperand(d) + EncodeOperand(s)) <==>
      ParseOperand(mem, p) == d && ParseOperand(mem, p + OperandLength(d)) == s
  {
    hide HoldsAt, EncodeOperand, ParseOperand, Encodable, OperandLength;
    HoldsParts(mem, p, EncodeOperand(d), EncodeOperand(s));
    OperandIff(mem, p, d);
    OperandIff(mem, p + OperandLength(d), s);
  }

  lemma BodyIff(mem: seq<Byte>, p: nat, opcode: nat, body: Body)
    requires BodyEncodable(body) && opcode == Opcode(body) < 8
    ensures ParseBody(mem, p, opcode) == body <==> HoldsAt(mem, p, EncodeBody(body))
  {
    Ranges();
    hide HoldsAt, EncodeOperand, ParseOperand, Encodable, OperandLength, Field, Bits, Pow2;
    match body
    case And(d, s) =>
      assert Encodable(Operands(body)[0]) && Encodable(Operands(body)[1]);
      TwoOperands(mem, p, d, s);
    case Or(d, s) =>
      assert Encodable(Operands(body)[0]) && Encodable(Operands(body)[1]);
      TwoOperands(mem, p, d, s);
    case Mov(d, s) =>
      assert Encodable(Operands(body)[0]) && Encodable(Operands(body)[1]);
      TwoOperands(mem, p, d, s);
    case Neg(d) =>
      assert Encodable(Operands(body)[0]);
      OperandIff(mem, p, d);
    case Shift(right, count, d) =>
      assert Encodable(Operands(body)[0]);
      ShiftIff(mem, p, right, count, d);
    case Jump(_, bytes, bits, target) =>
      if target.Absolute? {
        assert Encodable(Operands(body)[0]);
      }
      JumpIff(mem, p, bytes, bits, target);
  }

  lemma {:induction false} ShiftIff(mem: seq<Byte>, p: nat, right: bool, count: nat, d: Operand)
    requires count < 0x100 && Encodable(d)
    ensures HoldsAt(mem, p, EncodeBody(Shift(right, count, d))) <==>
      (Bits(mem, p, 1) == 1) == right && Bits(mem, p + 1, 8) == count && ParseOperand(mem, p + 9) == d
  {
    Ranges();
    hide HoldsAt, EncodeOperand, ParseOperand, Encodable, OperandLength, Field, Pow2;
    TwoFields(mem, p, if right then 1 else 0, 1, Field(count, 8) + EncodeOperand(d));
    TwoFields(mem, p + 1, count, 8, EncodeOperand(d));
    OperandIff(mem, p + 9, d);
    assert Bits(mem, p, 1) < 2;
    hide Bits;
  }

  lemma {:induction false} JumpIff(mem: seq<Byte>, p: nat, bytes: nat, bits: nat, target: Target)
    requires bytes < 64 && bits < 8 && (bytes == 0 <==> target.Absolute?)
    requires target.Absolute? ==> Encodable(target.operand)
    ensures HoldsAt(mem, p, EncodeBody(Jump(5, bytes, bits, target))) <==>
      Bits(mem, p, 6) == bytes && Bits(mem, p + 6, 3) == bits
      && (target.Absolute? ==> ParseOperand(mem, p + 9) == target.operand)
  {
    Ranges();
    hide EncodeOperand, ParseOperand, Encodable, OperandLength, Field, Pow2, Bits;
    var rest := if target.Absolute? then EncodeOperand(target.operand) else [];
    TwoFields(mem, p, bytes, 6, Field(bits, 3) + rest);
    TwoFields(mem, p + 6, bits, 3, rest);
    if target.Absolute? {
      OperandIff(mem, p + 9, target.operand);
    }
  }

  /** An instruction is read exactly where its bits are. */
  lemma ParseIff(mem: seq<Byte>, p: nat, ins: Instruction)
    requires InstructionEncodable(ins)
    ensures Parse(mem, p) == ins <==> HoldsAt(mem, p, Encode(ins))
  {
    Ranges();
    hide HoldsAt, EncodeBody, ParseBody, BodyEncodable, Field, Pow2, Bits;
    var body := ins.body;
    OpcodeFits(body);
    TwoFields(mem, p, ins.bank, 1,
              Field(ins.conds, 8) + (Field(Opcode(body), 3) + (Field(ins.uf, 1) + EncodeBody(body))));
    TwoFields(mem, p + 1, ins.conds, 8, Field(Opcode(body), 3) + (Field(ins.uf, 1) + EncodeBody(body)));
    TwoFields(mem, p + 9, Opcode(body), 3, Field(ins.uf, 1) + EncodeBody(body));
    TwoFields(mem, p + 12, ins.uf, 1, EncodeBody(body));
    BodyIff(mem, p + 13, Opcode(body), body);
    if Parse(mem, p) == ins {
      BodyOpcode(mem, p + 13, Bits(mem, p + 9, 3));
    }
  }

  lemma OpcodeFits(body: Body)
    requires BodyEncodable(body)
    ensures Opcode(body) < 8
  {
  }

  lemma BodyOpcode(mem: seq<Byte>, p: nat, opcode: nat)
    requires opcode < 8
    ensures Opcode(ParseBody(mem, p, opcode)) == opcode
  {
    hide ParseOperand, Bits;
  }

  // ---------------------------------------------------------------- memory made of bits

  /** Bits as a number, the first one highest. */
  function Number(bits: seq<Bit>): (v: nat)
    ensures v < Pow2(|bits|)
  {
    if bits == [] then 0 else 2 * Number(bits[..|bits| - 1]) + bits[|bits| - 1]
  }

  function ByteOf(bits: seq<Bit>): Byte
    requires |bits| == 8
  {
    Ranges();
    Number(bits)
  }

  /** A memory that starts with these bits and is zero behind them. */
  function MemoryOf(bits: seq<Bit>): (mem: seq<Byte>)
    ensures |mem| == M.MEMORY
  {
    seq(M.MEMORY, k requires 0 <= k < M.MEMORY => if 8 * k + 8 <= |bits| then ByteOf(bits[8 * k .. 8 * k + 8]) else 0)
  }

  /** Bit `k` of the number, counted from its highest. */
  lemma {:induction false} NumberBit(bits: seq<Bit>, k: nat)
    requires k < |bits|
    ensures (Number(bits) / Pow2(|bits| - 1 - k)) % 2 == bits[k]
  {
    hide Number, Pow2;
    var n := |bits| - 1;
    NumberStep(bits, n);
    if k < n {
      NumberBit(bits[..n], k);
      var d := Pow2(n - 1 - k);
      Doubles(n - 1 - k);
      HalfOf(Number(bits[..n]), bits[n], d);
      assert n - 1 - k + 1 == n - k;
    } else {
      SmallPowers(0);
      LowestBit(Number(bits[..n]), bits[n]);
    }
  }

  lemma {:induction false} NumberStep(bits: seq<Bit>, n: nat)
    requires |bits| == n + 1
    ensures Number(bits) == 2 * Number(bits[..n]) + bits[n]
  {
  }

  lemma Doubles(n: nat)
    ensures Pow2(n + 1) == 2 * Pow2(n)
  {
  }

  lemma LowestBit(v: nat, b: Bit)
    ensures (2 * v + b) % 2 == b
  {
  }

  lemma HalfOf(v: nat, b: Bit, d: nat)
    requires d > 0
    ensures (2 * v + b) / (2 * d) == v / d
  {
    var q, r := v / d, v % d;
    Euclid(v, d);
    assert 2 * v + b == (2 * d) * q + (2 * r + b);
    DivMod(2 * v + b, 2 * d, q, 2 * r + b);
  }

  lemma ByteOfBit(bits: seq<Bit>, k: nat)
    requires |bits| == 8 && k < 8
    ensures ByteBit(ByteOf(bits), k) == bits[k]
  {
    hide Number, Pow2;
    NumberBit(bits, k);
  }

  lemma MemoryHolds(bits: seq<Bit>)
    requires |bits| % 8 == 0 && |bits| <= 8 * M.MEMORY
    ensures HoldsAt(MemoryOf(bits), 0, bits)
  {
    hide ByteBit, ByteOf;
    var mem := MemoryOf(bits);
    forall i | 0 <= i < |bits| ensures BitAt(mem, 0 + i) == bits[i] {
      var k, o := i / 8, i % 8;
      assert mem[k] == ByteOf(bits[8 * k .. 8 * k + 8]);
      ByteOfBit(bits[8 * k .. 8 * k + 8], o);
    }
  }
}
