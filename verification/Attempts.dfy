/** How the look-ups of a whole instruction follow each other: the opening
    fields, then its operands one by one (server.c, do_instruction). */
module Attempts {
  import opened Words
  import opened Powers
  import opened Bitstream
  import opened Instructions
  import opened LineCache
  import opened Paging
  import opened Lookups
  import M = Machine

  /** A stop, or an instruction whose meaning is modelled. */
  predicate Legal(ins: Instruction, cpu: M.Cpu) {
    && |cpu.regs| == M.REGISTERS
    && if ins.Stop? then cpu.pos + 9 < 8 * USABLE else M.Defined(ins, cpu)
  }

  /** The attempt at `ins` began in the state `was`, with its position saved. */
  predicate Based(was: View, ins: Instruction, cpu: M.Cpu, mem: seq<Byte>) {
    && |mem| == MEMORY && was.cache.Shape() && was.pos == was.saved == cpu.pos
    && ins == Parse(mem, cpu.pos) && Legal(ins, cpu)
  }

  /** The fields before the first operand. */
  function Opening(ins: Instruction): seq<nat> {
    if ins.Stop? then [1, 8] else HEADER + PrefixWidths(ins.body)
  }

  function OpeningAt(ins: Instruction, k: nat): nat
    requires k <= |Opening(ins)|
  {
    Sum(Opening(ins)[..k])
  }

  function OpeningTouches(ins: Instruction, cpu: M.Cpu, k: nat): seq<nat>
    requires k <= |Opening(ins)|
  {
    FieldTouches(cpu.pos, Opening(ins)[..k])
  }

  function Ops(ins: Instruction): (ops: seq<Operand>) {
    if ins.Stop? then [] else Operands(ins.body)
  }

  function OpeningLength(ins: Instruction): nat {
    if ins.Stop? then 9 else 13 + PrefixLength(ins.body)
  }

  /** The look-ups up to the `k`-th operand, and the bits they take. */
  function UpTo(ins: Instruction, cpu: M.Cpu, k: nat): seq<nat>
    requires Legal(ins, cpu) && k <= |Ops(ins)|
  {
    FieldTouches(cpu.pos, Opening(ins)) + M.OperandsTouches(Ops(ins)[..k], cpu.pos + OpeningLength(ins), cpu.regs)
  }

  function LengthUpTo(ins: Instruction, k: nat): nat
    requires k <= |Ops(ins)|
  {
    OpeningLength(ins) + OperandsLength(Ops(ins)[..k])
  }

  function AllTouches(ins: Instruction, cpu: M.Cpu): seq<nat>
    requires Legal(ins, cpu)
  {
    UpTo(ins, cpu, |Ops(ins)|)
  }

  // ---------------------------------------------------------------- the whole

  lemma AllIsTouches(ins: Instruction, cpu: M.Cpu)
    requires Legal(ins, cpu) && ins.Instruction?
    ensures AllTouches(ins, cpu) == M.Touches(ins, cpu) && LengthUpTo(ins, |Ops(ins)|) == Length(ins)
  {
    hide FieldTouches, Opening, M.OperandsTouches, M.BodyDefined, M.BodyEncoded, PrefixWidths, PrefixLength,
      OperandsLength, Operands;
    var ops := Operands(ins.body);
    OpeningSplit(ins, cpu.pos);
    assert ops[..|ops|] == ops;
  }

  lemma {:induction false} OpeningSplit(ins: Instruction, p: nat)
    requires ins.Instruction?
    ensures FieldTouches(p, Opening(ins)) ==
      FieldTouches(p, [1, 8]) + FieldTouches(p + 9, [3, 1]) + FieldTouches(p + 13, PrefixWidths(ins.body))
  {
    hide FieldTouches, Sum, PrefixWidths;
    HeaderSum();
    FieldsConcat(p, [1, 8], [3, 1]);
    FieldsConcat(p, HEADER, PrefixWidths(ins.body));
  }

  lemma HeaderSum()
    ensures [1, 8] + [3, 1] == HEADER && Sum([1, 8]) == 9 && Sum(HEADER) == 13
  {
    SumConcat([1, 8], [3, 1]);
    assert [1, 8] + [3, 1] == HEADER;
  }

  lemma AllBelow(ins: Instruction, cpu: M.Cpu)
    requires Legal(ins, cpu)
    ensures InSpace(AllTouches(ins, cpu))
  {
    if ins.Instruction? {
      AllIsTouches(ins, cpu);
      M.TouchesBelow(ins, cpu);
    } else {
      assert Sum([1, 8]) == 9;
    }
  }

  lemma BelowDrop(t: seq<nat>, k: nat)
    requires InSpace(t) && k <= |t|
    ensures InSpace(t[k..])
  {
  }

  /** A miss on the way is a miss of the whole attempt. */
  lemma AttemptMiss(was: View, ins: Instruction, cpu: M.Cpu, t: seq<nat>, n: nat, now: View)
    requires Legal(ins, cpu) && t <= AllTouches(ins, cpu) && Follows(was, t, n, now, false)
    ensures Follows(was, AllTouches(ins, cpu), Length(ins), now, false)
  {
    hide AllTouches, Legal, Length, Follows, InSpace;
    AllBelow(ins, cpu);
    assert InSpace(AllTouches(ins, cpu)[|t|..]) by {
      BelowDrop(AllTouches(ins, cpu), |t|);
    }
    var all := AllTouches(ins, cpu);
    var rest := all[|t|..];
    assert all == t + rest;
    FollowsMiss(was, t, n, now, rest, Length(ins));
  }

  // ---------------------------------------------------------------- the opening

  lemma OpeningStep(ins: Instruction, cpu: M.Cpu, k: nat)
    requires Legal(ins, cpu) && k < |Opening(ins)|
    ensures var n := Opening(ins)[k];
      && 1 <= n <= 8 && cpu.pos + OpeningAt(ins, k) + n < 8 * USABLE
      && Opening(ins)[..k + 1] == Opening(ins)[..k] + [n] && OpeningAt(ins, k + 1) == OpeningAt(ins, k) + n
    ensures OpeningTouches(ins, cpu, k + 1) <= AllTouches(ins, cpu)
  {
    hide Opening, Legal, OpeningLength, M.OperandsTouches, Ops, FieldTouches, Sum;
    OpeningFits(ins, cpu);
    OpeningWidths(ins);
    var all := Opening(ins);
    assert all[..k + 1] == all[..k] + [all[k]];
    SumConcat(all[..k], [all[k]]);
    SumOne(all[k]);
    SumConcat(all[..k + 1], all[k + 1..]);
    FieldsConcat(cpu.pos, all[..k + 1], all[k + 1..]);
    assert all[..k + 1] + all[k + 1..] == all;
  }

  lemma OpeningNames(ins: Instruction, cpu: M.Cpu, k: nat)
    requires k <= |Opening(ins)|
    ensures OpeningTouches(ins, cpu, k) == FieldTouches(cpu.pos, Opening(ins)[..k])
  {
    hide Opening, FieldTouches;
  }

  lemma OpeningWidths(ins: Instruction)
    ensures Sum(Opening(ins)) == OpeningLength(ins) && |Opening(ins)| >= 2
    ensures forall k | 0 <= k < |Opening(ins)| :: 1 <= Opening(ins)[k] <= 8
  {
    if ins.Instruction? {
      HeaderSums(ins.body);
      SumConcat(HEADER, PrefixWidths(ins.body));
      SumConcat([1, 8], [3, 1]);
      assert [1, 8] + [3, 1] == HEADER;
    } else {
      assert Sum([1, 8]) == 9;
    }
  }

  lemma SumOne(n: nat)
    ensures Sum([n]) == n
  {
    assert [n][1..] == [];
  }

  lemma OpeningFits(ins: Instruction, cpu: M.Cpu)
    requires Legal(ins, cpu)
    ensures cpu.pos + OpeningLength(ins) < 8 * USABLE
  {
  }

  /** What the opening fields say. */
  lemma HeaderMeans(ins: Instruction, mem: seq<Byte>, p: nat)
    requires ins == Parse(mem, p)
    ensures |Opening(ins)| >= 2 && Opening(ins)[0] == 1 && Opening(ins)[1] == 8
    ensures OpeningAt(ins, 0) == 0 && OpeningAt(ins, 1) == 1 && OpeningAt(ins, 2) == 9
    ensures ins.Stop? <==> Bits(mem, p + 1, 8) == 0xff
    ensures ins.Stop? ==> |Opening(ins)| == 2
    ensures ins.Instruction? ==>
      && |Opening(ins)| >= 4 && Opening(ins)[2] == 3 && Opening(ins)[3] == 1
      && OpeningAt(ins, 3) == 12 && OpeningAt(ins, 4) == 13
      && ins.bank == Bits(mem, p, 1) && ins.conds == Bits(mem, p + 1, 8) && ins.uf == Bits(mem, p + 12, 1)
  {
    hide Bits, ParseBody, PrefixWidths;
    var all := Opening(ins);
    assert all[..0] == [] && all[..1] == [1] && all[..2] == [1, 8];
    assert Sum([1, 8]) == 9;
    if ins.Instruction? {
      assert all[..3] == [1, 8] + [3] && all[..4] == [1, 8] + [3, 1];
      SumConcat([1, 8], [3]);
      SumConcat([1, 8], [3, 1]);
    }
  }

  lemma OpeningDone(ins: Instruction, cpu: M.Cpu)
    requires Legal(ins, cpu)
    ensures var k := |Opening(ins)|;
      OpeningTouches(ins, cpu, k) == UpTo(ins, cpu, 0) && OpeningAt(ins, k) == LengthUpTo(ins, 0)
  {
    hide Opening, FieldTouches, OpeningLength, Legal;
    OpeningWidths(ins);
    var all := Opening(ins);
    assert all[..|all|] == all;
    assert FieldTouches(cpu.pos, all) + [] == FieldTouches(cpu.pos, all);
  }

  // ---------------------------------------------------------------- the operands

  lemma {:induction false} OperandsSnoc(ops: seq<Operand>, op: Operand, p: nat, regs: seq<Word>)
    requires |regs| == M.REGISTERS && M.OperandDefined(op, regs)
    requires forall i | 0 <= i < |ops| :: M.OperandDefined(ops[i], regs)
    ensures M.OperandsTouches(ops + [op], p, regs) ==
      M.OperandsTouches(ops, p, regs) + M.OperandTouches(op, p + OperandsLength(ops), regs)
    ensures OperandsLength(ops + [op]) == OperandsLength(ops) + OperandLength(op)
    decreases |ops|
  {
    hide M.OperandTouches, M.OperandDefined, OperandLength, Operands;
    var all := ops + [op];
    OperandsStart(all, p, regs);
    if ops == [] {
      assert all[1..] == [];
    } else {
      OperandsStart(ops, p, regs);
      hide M.OperandsTouches, OperandsLength;
      assert all[1..] == ops[1..] + [op];
      OperandsSnoc(ops[1..], op, p + OperandLength(ops[0]), regs);
    }
  }

  lemma OperandsStart(ops: seq<Operand>, p: nat, regs: seq<Word>)
    requires |regs| == M.REGISTERS && ops != []
    requires forall i | 0 <= i < |ops| :: M.OperandDefined(ops[i], regs)
    ensures forall i | 0 <= i < |ops[1..]| :: M.OperandDefined(ops[1..][i], regs)
    ensures M.OperandsTouches(ops, p, regs) ==
      M.OperandTouches(ops[0], p, regs) + M.OperandsTouches(ops[1..], p + OperandLength(ops[0]), regs)
    ensures OperandsLength(ops) == OperandLength(ops[0]) + OperandsLength(ops[1..])
  {
    hide M.OperandTouches, M.OperandDefined, OperandLength;
  }

  lemma {:induction false} OperandsConcat(ops: seq<Operand>, rest: seq<Operand>, p: nat, regs: seq<Word>)
    requires |regs| == M.REGISTERS
    requires forall i | 0 <= i < |ops + rest| :: M.OperandDefined((ops + rest)[i], regs)
    requires forall i | 0 <= i < |ops| :: M.OperandDefined(ops[i], regs)
    ensures M.OperandsTouches(ops, p, regs) <= M.OperandsTouches(ops + rest, p, regs)
    ensures OperandsLength(ops) <= OperandsLength(ops + rest)
    decreases |ops|
  {
    hide M.OperandTouches, M.OperandDefined, OperandLength;
    if ops != [] {
      var all := ops + rest;
      assert all[1..] == ops[1..] + rest;
      forall i | 0 <= i < |all[1..]| ensures M.OperandDefined(all[1..][i], regs) {
        assert all[1..][i] == all[i + 1];
      }
      OperandsConcat(ops[1..], rest, p + OperandLength(ops[0]), regs);
    }
  }

  /** One operand more. */
  lemma OperandStep(ins: Instruction, cpu: M.Cpu, mem: seq<Byte>, k: nat)
    requires |mem| == MEMORY && ins == Parse(mem, cpu.pos) && Legal(ins, cpu) && k < |Ops(ins)|
    ensures var (op, p) := (Ops(ins)[k], cpu.pos + LengthUpTo(ins, k));
      && Fits(op, p, cpu.regs, mem)
      && UpTo(ins, cpu, k + 1) == UpTo(ins, cpu, k) + M.OperandTouches(op, p, cpu.regs)
      && LengthUpTo(ins, k + 1) == LengthUpTo(ins, k) + OperandLength(op)
    ensures UpTo(ins, cpu, k + 1) <= AllTouches(ins, cpu)
  {
    hide *;
    OperandFits(ins, cpu, mem, k);
    OperandOrder(ins, cpu, k);
  }

  lemma OperandOrder(ins: Instruction, cpu: M.Cpu, k: nat)
    requires Legal(ins, cpu) && k < |Ops(ins)| && M.OperandDefined(Ops(ins)[k], cpu.regs)
    ensures var (op, p) := (Ops(ins)[k], cpu.pos + LengthUpTo(ins, k));
      && UpTo(ins, cpu, k + 1) == UpTo(ins, cpu, k) + M.OperandTouches(op, p, cpu.regs)
      && LengthUpTo(ins, k + 1) == LengthUpTo(ins, k) + OperandLength(op)
    ensures UpTo(ins, cpu, k + 1) <= AllTouches(ins, cpu)
  {
    hide Opening, FieldTouches, OpeningLength, M.OperandDefined, M.OperandsTouches, M.OperandTouches, OperandLength,
      OperandsLength, M.BodyEncoded, Operands, Length;
    var ops, p := Ops(ins), cpu.pos + OpeningLength(ins);
    OperandsSnoc(ops[..k], ops[k], p, cpu.regs);
    assert ops[..k] + [ops[k]] == ops[..k + 1];
    OperandsConcat(ops[..k + 1], ops[k + 1..], p, cpu.regs);
    assert ops[..k + 1] + ops[k + 1..] == ops[..|ops|];
  }

  lemma OperandFits(ins: Instruction, cpu: M.Cpu, mem: seq<Byte>, k: nat)
    requires |mem| == MEMORY && ins == Parse(mem, cpu.pos) && Legal(ins, cpu) && k < |Ops(ins)|
    ensures Fits(Ops(ins)[k], cpu.pos + LengthUpTo(ins, k), cpu.regs, mem)
    ensures |cpu.regs| == M.REGISTERS && M.OperandDefined(Ops(ins)[k], cpu.regs)
  {
    OperandParsed(ins, cpu.pos, mem, k);
    OperandInside(ins, k);
    hide ParseOperand, OperandLength, M.OperandDefined, M.OperandEncoded, OperandsLength, Operands, PrefixLength, Parse;
  }

  lemma OperandInside(ins: Instruction, k: nat)
    requires k < |Ops(ins)|
    ensures LengthUpTo(ins, k) + OperandLength(Ops(ins)[k]) <= Length(ins)
  {
    hide OperandLength, Operands, PrefixLength;
    var ops := Ops(ins);
    LengthConcat(ops[..k], ops[k..]);
    assert ops[..k] + ops[k..] == ops;
  }

  lemma {:induction false} LengthConcat(a: seq<Operand>, b: seq<Operand>)
    ensures OperandsLength(a + b) == OperandsLength(a) + OperandsLength(b)
    decreases |a|
  {
    hide OperandLength;
    if a == [] {
      assert a + b == b;
    } else {
      assert (a + b)[1..] == a[1..] + b;
      LengthConcat(a[1..], b);
    }
  }

  lemma OperandParsed(ins: Instruction, p: nat, mem: seq<Byte>, k: nat)
    requires ins == Parse(mem, p) && k < |Ops(ins)|
    ensures Ops(ins)[k] == ParseOperand(mem, p + LengthUpTo(ins, k))
  {
    hide ParseOperand, OperandLength, Bits;
    var ops := Ops(ins);
    if k == 0 {
      assert ops[..k] == [];
    } else {
      assert ops[..k] == [ops[0]];
      assert OperandsLength([ops[0]]) == OperandLength(ops[0]) by {
        assert [ops[0]][1..] == [];
      }
    }
  }

  // ---------------------------------------------------------------- what the fields mean

  /** The opcode, and the fields that a shift and a jump have before their operand. */
  lemma {:induction false} BodyMeans(ins: Instruction, mem: seq<Byte>, p: nat)
    requires ins == Parse(mem, p) && ins.Instruction?
    ensures var opcode := Bits(mem, p + 12 - 3, 3);
      && (opcode == 0 <==> ins.body.And?) && (opcode == 1 <==> ins.body.Or?) && (opcode == 2 <==> ins.body.Neg?)
      && (opcode == 3 <==> ins.body.Shift?) && (opcode == 4 <==> ins.body.Mov?) && (opcode >= 5 <==> ins.body.Jump?)
      && (ins.body.Jump? ==> ins.body.opcode == opcode)
    ensures !ins.body.Shift? && !ins.body.Jump? ==> |Opening(ins)| == 4
  {
    hide ParseOperand, Bits;
    ThreeBits(mem, p + 9);
  }

  lemma {:induction false} ThreeBits(mem: seq<Byte>, p: nat)
    ensures Bits(mem, p, 3) < 8
  {
    SmallPowers(3);
  }

  lemma {:induction false} PrefixMeans(ins: Instruction, mem: seq<Byte>, p: nat)
    requires ins == Parse(mem, p) && ins.Instruction? && (ins.body.Shift? || ins.body.Jump?)
    ensures |Opening(ins)| == 6 && OpeningAt(ins, 4) == 13
    ensures ins.body.Shift? ==>
      && Opening(ins)[4] == 1 && Opening(ins)[5] == 8 && OpeningAt(ins, 5) == 14
      && ins.body.right == (Bits(mem, p + 13, 1) == 1) && ins.body.count == Bits(mem, p + 14, 8)
    ensures ins.body.Jump? ==>
      && Opening(ins)[4] == 6 && Opening(ins)[5] == 3 && OpeningAt(ins, 5) == 19
      && ins.body.bytes == Bits(mem, p + 13, 6) && ins.body.bits == Bits(mem, p + 19, 3)
      && (ins.body.target.Absolute? <==> ins.body.bytes == 0)
  {
    PrefixPlaces(ins);
    hide ParseOperand, Bits, OpeningAt;
  }

  lemma PrefixPlaces(ins: Instruction)
    requires ins.Instruction? && (ins.body.Shift? || ins.body.Jump?)
    ensures OpeningAt(ins, 4) == 13 && OpeningAt(ins, 5) == 13 + PrefixWidths(ins.body)[0]
  {
    hide Sum;
    var all, w := Opening(ins), PrefixWidths(ins.body)[0];
    HeaderSum();
    assert all[..4] == HEADER && all[..5] == HEADER + [w];
    SumConcat(HEADER, [w]);
    SumOne(w);
  }

  // ---------------------------------------------------------------- what an attempt does

  function ValueAt(ins: Instruction, cpu: M.Cpu, mem: seq<Byte>, k: nat): Word
    requires Legal(ins, cpu) && |mem| == MEMORY && k < |Ops(ins)|
  {
    M.Value(Ops(ins)[k], cpu.regs, mem)
  }

  lemma LogicComputed(ins: Instruction, cpu: M.Cpu, mem: seq<Byte>)
    requires Legal(ins, cpu) && |mem| == MEMORY && ins.Instruction? && (ins.body.And? || ins.body.Or?)
    ensures |Ops(ins)| == 2
    ensures var v := M.Logic(ins.body.Or?, ValueAt(ins, cpu, mem, 0), ValueAt(ins, cpu, mem, 1));
      M.Compute(ins, cpu, mem) == M.Result(v, M.LogicFlags(cpu.flags, ins.bank, v))
  {
    hide M.Value, M.LogicFlags, M.Logic, M.OperandDefined, M.OperandEncoded, Length;
  }

  lemma NegComputed(ins: Instruction, cpu: M.Cpu, mem: seq<Byte>)
    requires Legal(ins, cpu) && |mem| == MEMORY && ins.Instruction? && ins.body.Neg?
    ensures |Ops(ins)| == 1
    ensures var v := M.Complement(ValueAt(ins, cpu, mem, 0));
      M.Compute(ins, cpu, mem) == M.Result(v, M.NegFlags(cpu.flags, ins.bank, v))
  {
    hide M.Value, M.NegFlags, M.Complement, M.OperandDefined, M.OperandEncoded, Length;
  }

  lemma ShiftComputed(ins: Instruction, cpu: M.Cpu, mem: seq<Byte>)
    requires Legal(ins, cpu) && |mem| == MEMORY && ins.Instruction? && ins.body.Shift?
    ensures |Ops(ins)| == 1 && 1 <= ins.body.count <= 16
    ensures var (right, n, v) := (ins.body.right, ins.body.count, ValueAt(ins, cpu, mem, 0));
      M.Compute(ins, cpu, mem) ==
        M.Result(M.Shifted(right, n, v), M.ShiftFlags(cpu.flags, ins.bank, M.ShiftCarry(right, n, v)))
  {
    hide M.Value, M.ShiftFlags, M.Shifted, M.ShiftCarry, M.OperandDefined, M.OperandEncoded, Length;
  }

  lemma MovComputed(ins: Instruction, cpu: M.Cpu, mem: seq<Byte>)
    requires Legal(ins, cpu) && |mem| == MEMORY && ins.Instruction? && ins.body.Mov?
    ensures |Ops(ins)| == 2 && M.Compute(ins, cpu, mem) == M.Result(ValueAt(ins, cpu, mem, 1), cpu.flags)
  {
    hide M.Value, M.OperandDefined, M.OperandEncoded, Length;
  }

  /** Every look-up of the attempt has hit, and left the cache `c`. */
  predicate Completing(was: View, ins: Instruction, cpu: M.Cpu, mem: seq<Byte>, c: Cache) {
    && Based(was, ins, cpu, mem) && ins.Instruction? && InSpace(AllTouches(ins, cpu))
    && Play(was.cache, AllTouches(ins, cpu)) == Done(c)
  }

  /** `now` is the processor after the reads: only flags and position differ. */
  lemma ComputedIsExecute(ins: Instruction, cpu: M.Cpu, mem: seq<Byte>, now: M.Cpu, v: Word)
    requires Legal(ins, cpu) && |mem| == MEMORY && ins.Instruction? && !ins.body.Jump?
    requires var r := M.Compute(ins, cpu, mem);
      && v == r.value
      && now == M.Cpu(cpu.regs, if M.Matched(ins.bank, ins.conds, cpu.flags) && ins.uf != 0 then r.flags else cpu.flags,
                      cpu.pos + Length(ins))
    ensures |Ops(ins)| >= 1 && M.OperandDefined(Ops(ins)[0], cpu.regs) && M.OperandEncoded(Ops(ins)[0])
    ensures M.Execute(ins, cpu, mem) ==
      if M.Matched(ins.bank, ins.conds, cpu.flags) then M.Save(Ops(ins)[0], now, v) else M.Effect(M.NoStore, now)
  {
    hide M.Compute, M.Matched, M.Save, M.OperandDefined, M.OperandEncoded, Length;
  }

  /** The destination was read by the attempt, so it is resident. */
  lemma DestinationRead(was: View, ins: Instruction, cpu: M.Cpu, mem: seq<Byte>, now: View)
    requires Based(was, ins, cpu, mem) && ins.Instruction? && |Ops(ins)| >= 1
    requires |cpu.regs| == M.REGISTERS && M.OperandDefined(Ops(ins)[0], cpu.regs)
    requires Follows(was, AllTouches(ins, cpu), LengthUpTo(ins, |Ops(ins)|), now, true)
    ensures Completing(was, ins, cpu, mem, now.cache) && now.pos == cpu.pos + Length(ins)
    ensures M.IsMemory(Ops(ins)[0]) ==> Resident(now.cache, M.Place(Ops(ins)[0], cpu.regs))
  {
    hide AllTouches, LengthUpTo, Ops, Parse, M.OperandDefined, Length, Legal, Play, InSpace, M.Place, M.IsMemory,
      Resident;
    AllIsTouches(ins, cpu);
    var t := AllTouches(ins, cpu);
    PlaceExists(Ops(ins)[0], cpu.regs);
    if M.IsMemory(Ops(ins)[0]) {
      FirstOperandRead(ins, cpu);
      AllHit(was.cache, t, M.Place(Ops(ins)[0], cpu.regs));
    }
  }

  lemma OperandDefinedAt(ins: Instruction, cpu: M.Cpu, k: nat)
    requires Legal(ins, cpu) && k < |Ops(ins)|
    ensures |cpu.regs| == M.REGISTERS && M.OperandDefined(Ops(ins)[k], cpu.regs) && M.OperandEncoded(Ops(ins)[k])
  {
    hide M.OperandDefined, M.OperandEncoded, Length, Operands;
  }

  lemma PlaceExists(op: Operand, regs: seq<Word>)
    requires |regs| == M.REGISTERS && M.OperandDefined(op, regs)
    ensures M.HasReg(op) ==> op.reg < M.REGISTERS
  {
  }

  lemma {:induction false} AllHit(c: Cache, t: seq<nat>, a: nat)
    requires c.Shape() && InSpace(t) && Play(c, t).Done? && a in t
    ensures Resident(Play(c, t).cache, a)
  {
    hide Play, Slot;
    PlayStopsAtMiss(c, t);
  }

  lemma FirstOperandRead(ins: Instruction, cpu: M.Cpu)
    requires Legal(ins, cpu) && |Ops(ins)| >= 1 && M.OperandDefined(Ops(ins)[0], cpu.regs) && M.IsMemory(Ops(ins)[0])
    ensures M.Place(Ops(ins)[0], cpu.regs) in AllTouches(ins, cpu)
  {
    hide M.OperandDefined, M.IsMemory, M.Place, M.DataTouch, M.OperandsTouches, OpeningLength, Opening;
    PlaceExists(Ops(ins)[0], cpu.regs);
    OperandOrder(ins, cpu, 0);
    FirstData(Ops(ins)[0], cpu.pos + LengthUpTo(ins, 0), cpu.regs);
    InPrefix(M.Place(Ops(ins)[0], cpu.regs), UpTo(ins, cpu, 1), AllTouches(ins, cpu));
  }

  lemma FirstData(op: Operand, p: nat, regs: seq<Word>)
    requires |regs| == M.REGISTERS && M.OperandDefined(op, regs) && M.IsMemory(op)
    ensures M.Place(op, regs) in M.OperandTouches(op, p, regs)
  {
  }

  lemma InPrefix(a: nat, t: seq<nat>, all: seq<nat>)
    requires a in t && t <= all
    ensures a in all
  {
  }

  /** What the server keeps of the header. */
  predicate Header(ins: Instruction, cpu: M.Cpu, bank: nat, uf: nat, matched: bool) {
    && ins.Instruction? && bank == ins.bank && uf == ins.uf
    && matched == M.Matched(ins.bank, ins.conds, cpu.flags)
  }

  lemma HeaderKept(ins: Instruction, cpu: M.Cpu, bank: nat, uf: nat, matched: bool)
    requires Header(ins, cpu, bank, uf, matched)
    ensures ins.Instruction? && bank == ins.bank && uf == ins.uf
    ensures matched == M.Matched(ins.bank, ins.conds, cpu.flags)
  {
    hide M.Matched;
  }

  lemma BasedMeans(was: View, ins: Instruction, cpu: M.Cpu, mem: seq<Byte>)
    requires Based(was, ins, cpu, mem)
    ensures |mem| == MEMORY && ins == Parse(mem, cpu.pos) && Legal(ins, cpu) && was.pos == was.saved == cpu.pos
  {
    hide Legal, Parse;
  }

  lemma UpToBegins(ins: Instruction, cpu: M.Cpu)
    requires Legal(ins, cpu)
    ensures UpTo(ins, cpu, 0) <= AllTouches(ins, cpu)
  {
    hide Opening, OpeningLength, FieldTouches, M.OperandTouches, Ops, M.Defined;
    assert M.OperandsTouches([], cpu.pos + OpeningLength(ins), cpu.regs) == [];
  }

  lemma AllIs(ins: Instruction, cpu: M.Cpu)
    requires Legal(ins, cpu)
    ensures AllTouches(ins, cpu) == UpTo(ins, cpu, |Ops(ins)|)
  {
    hide UpTo;
  }

  lemma LegalMeans(ins: Instruction, cpu: M.Cpu)
    requires Legal(ins, cpu)
    ensures ins.Instruction? ==> M.Defined(ins, cpu)
    ensures M.MEMORY == MEMORY
  {
    hide M.Defined;
  }

  lemma AllHits(was: View, ins: Instruction, cpu: M.Cpu, mem: seq<Byte>, now: View)
    requires Based(was, ins, cpu, mem) && ins.Instruction?
    requires Follows(was, AllTouches(ins, cpu), LengthUpTo(ins, |Ops(ins)|), now, true)
    ensures Completing(was, ins, cpu, mem, now.cache) && now.pos == cpu.pos + Length(ins)
  {
    hide AllTouches, LengthUpTo, Ops, Parse, Length, Legal, Play, InSpace;
    AllIsTouches(ins, cpu);
  }

  /** Where a jump goes, in the server's terms. */
  lemma JumpTarget(ins: Instruction, cpu: M.Cpu, mem: seq<Byte>)
    requires Legal(ins, cpu) && |mem| == MEMORY && ins.Instruction? && ins.body.Jump?
    ensures var j := ins.body;
      && j.bytes < 64 && j.bits < 8
      && |Ops(ins)| == (if j.target.Absolute? then 1 else 0)
      && (j.target.Relative? ==> M.Target(ins, cpu, mem) == M.JumpFrom(cpu.pos + Length(ins), j.bytes, j.bits))
      && (j.target.Absolute? ==>
           var op := Ops(ins)[0];
           && (op.Imm? ==> op.value < 0x1_0000 && M.Target(ins, cpu, mem) == M.Position(op.value, j.bits))
           && (!op.Imm? ==>
                var v := ValueAt(ins, cpu, mem, 0);
                M.Target(ins, cpu, mem) == M.Position(M.FarByte(v), M.FarBits(v))))
  {
    hide M.Value, M.JumpFrom, M.Position, M.FarByte, M.FarBits, M.OperandDefined, Length;
  }

  lemma JumpExecuted(ins: Instruction, cpu: M.Cpu, mem: seq<Byte>)
    requires Legal(ins, cpu) && |mem| == MEMORY && ins.Instruction? && ins.body.Jump?
    ensures M.Execute(ins, cpu, mem) == M.Effect(M.NoStore,
      cpu.(pos := if M.Matched(ins.bank, ins.conds, cpu.flags) then M.Target(ins, cpu, mem) else cpu.pos + Length(ins)))
  {
    hide M.Target, M.Matched, Length, M.BodyDefined;
  }

  lemma HeaderRead(ins: Instruction, cpu: M.Cpu, bank: nat, uf: nat, matched: bool)
    requires ins.Instruction? && bank == ins.bank && uf == ins.uf
    requires matched == M.Matched(ins.bank, ins.conds, cpu.flags)
    ensures Header(ins, cpu, bank, uf, matched)
  {
    hide M.Matched;
  }

  // ---------------------------------------------------------------- steps

  /** The attempt at `ins` is the next step of `s`. */
  predicate From(s: Sys, was: View, ins: Instruction, cpu: M.Cpu, mem: seq<Byte>)
    requires Inv(s)
  {
    && !s.waiting && mem == Flat(s).mem && ins == Current(s) && cpu == s.cpu && was.cache == s.cache
    && Based(was, ins, cpu, mem)
  }

  predicate FinishedWith(was: View, ins: Instruction, cpu: M.Cpu, mem: seq<Byte>, c: Cache, now: M.Cpu) {
    && Based(was, ins, cpu, mem) && ins.Instruction? && InSpace(AllTouches(ins, cpu))
    && var e := M.Execute(ins, cpu, mem);
    var r := Play(was.cache, AllTouches(ins, cpu));
    && r.Done? && M.StoreFits(e.store) && now == e.cpu && c == StoreTo(r.cache, e.store)
  }

  lemma NothingYet(was: View, ins: Instruction, cpu: M.Cpu)
    requires Legal(ins, cpu) && was.cache.Shape()
    ensures OpeningTouches(ins, cpu, 0) <= AllTouches(ins, cpu)
    ensures Follows(was, OpeningTouches(ins, cpu, 0), OpeningAt(ins, 0), was, true)
  {
    hide AllTouches, Legal;
    assert Opening(ins)[..0] == [];
  }

  lemma FootprintIs(s: Sys, was: View, ins: Instruction, cpu: M.Cpu, mem: seq<Byte>)
    requires Inv(s) && From(s, was, ins, cpu, mem) && ins.Instruction?
    ensures Ready(s) && Footprint(s) == AllTouches(ins, cpu)
  {
    hide AllTouches, M.Defined, M.Touches, Parse, Logical, Coherent;
    AllIsTouches(ins, cpu);
  }

  lemma StepFinished(s: Sys, was: View, ins: Instruction, cpu: M.Cpu, mem: seq<Byte>, c: Cache, now: M.Cpu)
    requires Inv(s) && From(s, was, ins, cpu, mem) && FinishedWith(was, ins, cpu, mem, c, now)
    ensures Completes(s) && Sys(c, s.ram, now, false) == Paging.Step(s)
  {
    hide AllTouches, M.Defined, Parse, Coherent, Logical, Play, M.Execute, StoreTo, Legal, Footprint;
    FootprintIs(s, was, ins, cpu, mem);
  }

  lemma StepMissed(s: Sys, was: View, ins: Instruction, cpu: M.Cpu, mem: seq<Byte>, now: View)
    requires Inv(s) && From(s, was, ins, cpu, mem)
    requires Follows(was, AllTouches(ins, cpu), Length(ins), now, false)
    ensures ins.Instruction? ==> !Completes(s) && Sys(now.cache, s.ram, cpu, true) == Paging.Step(s)
  {
    hide AllTouches, M.Defined, Parse, Coherent, Logical, Play, M.Execute, StoreTo, Legal, Footprint;
    if ins.Instruction? {
      FootprintIs(s, was, ins, cpu, mem);
    }
  }
}
