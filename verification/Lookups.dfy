/** The bookkeeping of one attempt at an instruction: which bytes it has looked
    up so far, where its position stands, and which fields and operands that
    completes (server.c, read_nbits, decode_operands and do_instruction). */
module Lookups {
  import opened Powers
  import opened Words
  import opened Bitstream
  import opened Instructions
  import opened Obfuscation
  import opened LineCache
  import opened Paging
  import M = Machine

  /** What the look-ups change: the cache, the position, the saved position. */
  datatype View = View(cache: Cache, pos: nat, saved: nat)

  /** From `was` the server has looked up the bytes `t`: all of them (`ok`), and
      then the position has moved on by `n`; or up to a miss, and then it is
      back at the saved position. */
  predicate Follows(was: View, t: seq<nat>, n: nat, now: View, ok: bool) {
    && was.cache.Shape() && InSpace(t) && now.saved == was.saved
    && Play(was.cache, t) == (if ok then Done(now.cache) else Missed(now.cache))
    && now.pos == if ok then was.pos + n else was.saved
  }

  lemma FollowsBoth(a: View, t: seq<nat>, n: nat, b: View, t': seq<nat>, n': nat, c: View, ok: bool)
    requires Follows(a, t, n, b, true) && Follows(b, t', n', c, ok)
    ensures Follows(a, t + t', n + n', c, ok)
  {
    hide Play;
    PlayConcat(a.cache, t, t');
  }

  lemma FollowsMiss(a: View, t: seq<nat>, n: nat, b: View, t': seq<nat>, n': nat)
    requires Follows(a, t, n, b, false) && InSpace(t')
    ensures Follows(a, t + t', n', b, false)
  {
    hide Play;
    PlayConcat(a.cache, t, t');
  }

  lemma NowAt(was: View, t: seq<nat>, n: nat, now: View)
    requires Follows(was, t, n, now, true)
    ensures now.pos == was.pos + n
  {
  }

  lemma FollowsMoved(was: View, t: seq<nat>, read: View, ok: bool, n: nat, now: View)
    requires Follows(was, t, 0, read, ok) && now == if ok then read.(pos := read.pos + n) else read
    ensures Follows(was, t, n, now, ok)
  {
  }

  lemma {:induction false} FieldsSnoc(p: nat, ws: seq<nat>, n: nat)
    ensures FieldTouches(p, ws + [n]) == FieldTouches(p, ws) + BitTouches(p + Sum(ws), n)
    decreases |ws|
  {
    hide BitTouches;
    if ws == [] {
      assert [n][1..] == [];
    } else {
      FieldsSnoc(p + ws[0], ws[1..], n);
      assert (ws + [n])[1..] == ws[1..] + [n];
    }
  }

  lemma {:induction false} FieldsConcat(p: nat, ws: seq<nat>, rest: seq<nat>)
    ensures FieldTouches(p, ws + rest) == FieldTouches(p, ws) + FieldTouches(p + Sum(ws), rest)
    decreases |ws|
  {
    hide BitTouches;
    if ws == [] {
      assert ws + rest == rest;
    } else {
      FieldsConcat(p + ws[0], ws[1..], rest);
      assert (ws + rest)[1..] == ws[1..] + rest;
    }
  }

  /** The operand at `p`, defined and in the usable memory. */
  predicate Fits(op: Operand, p: nat, regs: seq<Word>, mem: seq<Byte>) {
    && |regs| == M.REGISTERS && |mem| == MEMORY && op == ParseOperand(mem, p) && p + OperandLength(op) < 8 * USABLE
    && M.OperandDefined(op, regs) && M.OperandEncoded(op)
  }

  /** The first `k` fields of an operand, and where the next one begins. */
  function FirstFields(op: Operand, k: nat): seq<nat>
    requires k <= Fields(op)
  {
    OperandWidths(op)[..k]
  }

  function Fields(op: Operand): nat {
    |OperandWidths(op)|
  }

  function Offset(op: Operand, k: nat): nat
    requires k <= Fields(op)
  {
    Sum(FirstFields(op, k))
  }

  /** A miss inside the fields is a miss of the whole operand. */
  lemma OperandMiss(was: View, op: Operand, k: nat, regs: seq<Word>, mem: seq<Byte>, now: View)
    requires Fits(op, was.pos, regs, mem) && k <= Fields(op)
    requires Follows(was, FieldTouches(was.pos, FirstFields(op, k)), Offset(op, k), now, false)
    ensures Follows(was, M.OperandTouches(op, was.pos, regs), OperandLength(op), now, false)
  {
    hide *;
    var t, rest := TouchesSplit(op, was.pos, k, regs, mem);
    FollowsMiss(was, t, Offset(op, k), now, rest, OperandLength(op));
  }

  lemma TouchesSplit(op: Operand, p: nat, k: nat, regs: seq<Word>, mem: seq<Byte>) returns (t: seq<nat>, rest: seq<nat>)
    requires Fits(op, p, regs, mem) && k <= Fields(op)
    ensures |regs| == M.REGISTERS && M.OperandDefined(op, regs)
    ensures t == FieldTouches(p, FirstFields(op, k)) && InSpace(rest) && M.OperandTouches(op, p, regs) == t + rest
  {
    hide FieldTouches, OperandWidths, OperandLength, M.OperandDefined, M.OperandEncoded, ParseOperand, M.DataTouch, Sum;
    var all := OperandWidths(op);
    M.OperandTouchesBelow(op, p, regs);
    FieldsConcat(p, all[..k], all[k..]);
    assert all[..k] + all[k..] == all;
    t, rest := FieldTouches(p, all[..k]), FieldTouches(p + Sum(all[..k]), all[k..]) + M.DataTouch(op, regs);
    assert M.OperandTouches(op, p, regs) == t + rest;
    BelowBoth(t, rest);
  }

  lemma BelowBoth(a: seq<nat>, b: seq<nat>)
    requires M.AllBelow(a + b, USABLE)
    ensures InSpace(b)
  {
    forall i | 0 <= i < |b| ensures b[i] < USABLE {
      assert (a + b)[|a| + i] == b[i];
    }
  }

  lemma OffsetStep(op: Operand, k: nat)
    requires k < Fields(op)
    ensures FirstFields(op, k + 1) == FirstFields(op, k) + [OperandWidths(op)[k]]
    ensures Offset(op, k + 1) == Offset(op, k) + OperandWidths(op)[k]
  {
    hide OperandWidths;
    SumConcat(FirstFields(op, k), [OperandWidths(op)[k]]);
    assert [OperandWidths(op)[k]][1..] == [];
  }

  lemma Offsets(op: Operand)
    requires Fields(op) >= 3
    ensures Offset(op, 0) == 0 && Offset(op, 1) == OperandWidths(op)[0]
    ensures Offset(op, 2) == OperandWidths(op)[0] + OperandWidths(op)[1]
    ensures Offset(op, 3) == Offset(op, 2) + OperandWidths(op)[2]
    ensures Fields(op) >= 4 ==> Offset(op, 4) == Offset(op, 3) + OperandWidths(op)[3]
  {
    OffsetStep(op, 0);
    OffsetStep(op, 1);
    OffsetStep(op, 2);
    if Fields(op) >= 4 {
      OffsetStep(op, 3);
    }
    assert FirstFields(op, 0) == [];
    hide OperandWidths, FirstFields;
  }

  /** How the fields of an operand lie in the stream, case by case. */
  lemma {:induction false} OperandHeader(op: Operand, was: View, regs: seq<Word>, mem: seq<Byte>)
    requires Fits(op, was.pos, regs, mem) && was.cache.Shape()
    ensures Follows(was, FieldTouches(was.pos, FirstFields(op, 0)), Offset(op, 0), was, true)
    ensures Fields(op) >= 3 && OperandWidths(op)[0] == 1 && OperandWidths(op)[1] == 2
    ensures Offset(op, 0) == 0 && Offset(op, 1) == 1
    ensures op.size == Bits(mem, was.pos, 1)
    ensures var kind := Bits(mem, was.pos + 1, 2);
      && (kind == 0 <==> op.Reg?) && (kind == 1 <==> op.Imm?) && (kind >= 3 <==> op.Obf?)
      && (kind == 2 <==> op.MemReg? || op.MemImm? || op.MemIdx?)
  {
    hide Offset, FirstFields, Bits, Follows;
    Offsets(op);
    NoFieldsYet(op, was);
  }

  lemma NoFieldsYet(op: Operand, was: View)
    requires was.cache.Shape()
    ensures Follows(was, FieldTouches(was.pos, FirstFields(op, 0)), 0, was, true)
  {
    assert FirstFields(op, 0) == [];
  }

  lemma {:induction false} RegFields(op: Operand, p: nat, regs: seq<Word>, mem: seq<Byte>)
    requires Fits(op, p, regs, mem) && op.Reg?
    ensures Fields(op) == 3 && OperandWidths(op)[2] == 4 && op.reg == Bits(mem, p + Offset(op, 2), 4)
  {
    Offsets(op);
    hide Offset, FirstFields;
  }

  lemma ImmFields(op: Operand, p: nat, regs: seq<Word>, mem: seq<Byte>, n: nat)
    requires Fits(op, p, regs, mem) && op.Imm? && n == if op.size == 0 then 8 else 16
    ensures Fields(op) == 3 && OperandWidths(op)[2] == n && op.value == Bits(mem, p + Offset(op, 2), n)
  {
    Offsets(op);
    hide Offset, FirstFields;
  }

  lemma {:induction false} MemrefFields(op: Operand, p: nat, regs: seq<Word>, mem: seq<Byte>)
    requires Fits(op, p, regs, mem) && (op.MemReg? || op.MemImm? || op.MemIdx?)
    ensures M.IsMemory(op) && Fields(op) >= 4 && OperandWidths(op)[2] == 2
    ensures var kind := Bits(mem, p + Offset(op, 2), 2);
      && (kind == 0 <==> op.MemReg?) && (kind == 1 <==> op.MemImm?)
    ensures op.MemReg? ==> Fields(op) == 4 && OperandWidths(op)[3] == 4 && op.reg == Bits(mem, p + Offset(op, 3), 4)
    ensures !op.MemReg? ==> OperandWidths(op)[3] == 16 && op.addr == Bits(mem, p + Offset(op, 3), 16)
    ensures op.MemImm? ==> Fields(op) == 4
    ensures op.MemIdx? ==> Fields(op) == 5 && OperandWidths(op)[4] == 4 && op.reg == Bits(mem, p + Offset(op, 4), 4)
  {
    Offsets(op);
    ParsedMemref(op, p, mem);
    hide Offset, FirstFields, Bits, ParseOperand;
  }

  lemma {:induction false} ParsedMemref(op: Operand, p: nat, mem: seq<Byte>)
    requires op == ParseOperand(mem, p) && (op.MemReg? || op.MemImm? || op.MemIdx?)
    ensures var kind := Bits(mem, p + 3, 2);
      && (kind == 0 <==> op.MemReg?) && (kind == 1 <==> op.MemImm?)
    ensures op.MemReg? ==> op.reg == Bits(mem, p + 5, 4)
    ensures !op.MemReg? ==> op.addr == Bits(mem, p + 5, 16)
    ensures op.MemIdx? ==> op.reg == Bits(mem, p + 21, 4)
  {
    hide Bits;
  }

  lemma Places(op: Operand, p: nat, regs: seq<Word>, mem: seq<Byte>)
    requires Fits(op, p, regs, mem) && M.IsMemory(op)
    ensures !op.MemImm? ==> op.reg < |regs|
    ensures op.MemReg? ==> M.Place(op, regs) == regs[op.reg] as int
    ensures op.MemImm? ==> M.Place(op, regs) == op.addr
    ensures op.MemIdx? || op.Obf? ==> M.Place(op, regs) == (op.addr + regs[op.reg] as int) % 0x1_0000
  {
  }

  lemma {:induction false} ObfFields(op: Operand, p: nat, regs: seq<Word>, mem: seq<Byte>)
    requires Fits(op, p, regs, mem) && op.Obf?
    ensures M.IsMemory(op) && Fields(op) == 5 && OperandWidths(op)[2] == 16 && OperandWidths(op)[3] == 4
    ensures OperandWidths(op)[4] == 6
    ensures op.addr == Bits(mem, p + Offset(op, 2), 16) && op.reg == Bits(mem, p + Offset(op, 3), 4)
    ensures op.key == Bits(mem, p + Offset(op, 4), 6)
  {
    hide Offset, FirstFields, Bits, FieldTouches;
    Offsets(op);
  }

  lemma NoData(was: View, op: Operand, regs: seq<Word>, mem: seq<Byte>, now: View)
    requires Fits(op, was.pos, regs, mem) && (op.Reg? || op.Imm?)
    requires Follows(was, FieldTouches(was.pos, FirstFields(op, Fields(op))), Offset(op, Fields(op)), now, true)
    ensures |regs| == M.REGISTERS && |mem| == MEMORY && M.OperandDefined(op, regs) && M.OperandEncoded(op)
    ensures Follows(was, M.OperandTouches(op, was.pos, regs), OperandLength(op), now, true)
    ensures op.Imm? ==> op.value < 0x1_0000 && M.Value(op, regs, mem) == op.value as Word
    ensures op.Reg? ==> op.reg < |regs| && M.Value(op, regs, mem) == regs[op.reg]
  {
    AllFields(op);
    var t := FieldTouches(was.pos, OperandWidths(op));
    assert t + [] == t;
  }

  lemma AllFields(op: Operand)
    ensures FirstFields(op, Fields(op)) == OperandWidths(op) && Offset(op, Fields(op)) == OperandLength(op)
  {
    OperandLengthIsSum(op);
    hide OperandWidths, OperandLength;
    assert FirstFields(op, Fields(op)) == OperandWidths(op);
  }

  lemma {:induction false} DataFits(op: Operand, p: nat, regs: seq<Word>, mem: seq<Byte>)
    requires Fits(op, p, regs, mem) && M.IsMemory(op)
    ensures Offset(op, Fields(op)) == OperandLength(op) && op.size <= 1
    ensures |regs| == M.REGISTERS && M.OperandDefined(op, regs) && M.OperandEncoded(op)
    ensures M.Place(op, regs) < USABLE && (op.size == 1 ==> M.Place(op, regs) % LINE != 15)
    ensures M.OperandTouches(op, p, regs) == FieldTouches(p, FirstFields(op, Fields(op))) + [M.Place(op, regs)]
  {
    hide OperandWidths, OperandLength, FieldTouches, ParseOperand, Sum;
    AllFields(op);
  }

  lemma DataValue(op: Operand, p: nat, regs: seq<Word>, mem: seq<Byte>)
    requires Fits(op, p, regs, mem) && M.IsMemory(op)
    ensures |regs| == M.REGISTERS && M.OperandDefined(op, regs) && M.Place(op, regs) < USABLE && M.OperandEncoded(op)
    ensures !op.Obf? ==> M.Value(op, regs, mem) == M.Raw(mem, M.Place(op, regs), op.size)
    ensures op.Obf? ==>
      && op.reg < |regs| && op.key < 0x1_0000
      && var v := M.Raw(mem, M.Place(op, regs), op.size) ^ M.OperandMask(op, regs);
      M.Value(op, regs, mem) == if op.size == 0 then v & 0xff else v
  {
    hide OperandWidths, OperandLength, FieldTouches, ParseOperand, Sum, M.OperandMask, M.Raw, M.Place;
  }

  lemma MaskOf(op: Operand, regs: seq<Word>)
    requires |regs| == M.REGISTERS && op.Obf? && op.reg < M.REGISTERS && op.key < 0x1_0000
    ensures M.OperandMask(op, regs) == Mask(op.addr as Word, regs[op.reg] as nat, op.key as Word)
  {
  }

  lemma FieldInside(op: Operand, p: nat, k: nat, regs: seq<Word>, mem: seq<Byte>)
    requires Fits(op, p, regs, mem) && k < Fields(op)
    ensures var n := OperandWidths(op)[k];
      && p + Offset(op, k) + n < 8 * USABLE && Offset(op, k + 1) == Offset(op, k) + n
      && FirstFields(op, k + 1) == FirstFields(op, k) + [n]
    ensures Offset(op, k) == Sum(FirstFields(op, k))
    ensures |regs| == M.REGISTERS && M.OperandDefined(op, regs) && M.OperandEncoded(op)
  {
    OffsetStep(op, k);
    OperandLengthIsSum(op);
    hide OperandWidths, OperandLength, ParseOperand, M.OperandDefined, Sum;
    var all := OperandWidths(op);
    SumConcat(all[..k + 1], all[k + 1..]);
    assert all == all[..k + 1] + all[k + 1..];
  }

  lemma {:induction false} SumConcat(a: seq<nat>, b: seq<nat>)
    ensures Sum(a + b) == Sum(a) + Sum(b)
  {
    if a == [] {
      assert a + b == b;
    } else {
      assert (a + b)[1..] == a[1..] + b;
      SumConcat(a[1..], b);
    }
  }

  lemma {:induction false} PlayOne(c: Cache, a: Addr)
    requires c.Shape() && a < USABLE
    ensures InSpace([a])
    ensures Play(c, [a]) ==
      if Touch(c, a, false).Hit? then Done(Touch(c, a, false).cache) else Missed(Touch(c, a, false).cache)
  {
    assert Front([a]) == [];
  }

  /** What lies at the place the look-up returned. */
  lemma CachedByte(was: Cache, c: Cache, ram: seq<Byte>, a: Addr, at: nat, size: nat)
    requires was.Shape() && c == Touch(was, a, false).cache && Coherent(c, ram) && Resident(was, a)
    requires a < USABLE && at == LINE * Slot(was.tags, a) + a % LINE
    requires size <= 1 && (size == 1 ==> a % LINE != 15)
    ensures at < |c.data| && c.data[at] == Logical(c, ram)[a]
    ensures size == 1 ==> at + 1 < |c.data| && c.data[at + 1] == Logical(c, ram)[a + 1]
  {
    if size == 1 {
      UsableLine(a);
      LineOf(a + 1, Line(a));
      SlotFound(c, ram, a + 1, Slot(c.tags, a));
    }
  }

  /** The bytes of a field after its first one, and the number they complete. */
  function RestTouches(b: nat, needed: nat): seq<nat> {
    if needed >= 8 then [b, b + 1] else [b]
  }

  function RestValue(mem: seq<Byte>, b: nat, needed: nat, head: nat): nat
    requires |mem| == MEMORY && needed < 16 && 8 * b + needed < 8 * USABLE
  {
    if needed >= 8 then EndValue(mem, b + 1, needed - 8, WithByte(head, mem[b])) else EndValue(mem, b, needed, head)
  }

  function WithByte(head: nat, b: Byte): nat {
    head * 0x100 + b
  }

  function EndValue(mem: seq<Byte>, b: nat, needed: nat, head: nat): nat
    requires |mem| == MEMORY && needed < 8 && b < USABLE
  {
    Shl(head, needed) + Keep(Shr(mem[b], 8 - needed), needed)
  }

  lemma RestParts(mem: seq<Byte>, b: nat, needed: nat, head: nat)
    requires |mem| == MEMORY && 1 <= needed < 16 && 8 * b + needed < 8 * USABLE
    ensures needed < 8 ==>
      RestTouches(b, needed) == [b] && RestValue(mem, b, needed, head) == EndValue(mem, b, needed, head)
    ensures needed >= 8 ==>
      && RestTouches(b, needed) == [b] + [b + 1] && b + 1 < USABLE && InSpace([b + 1])
      && RestValue(mem, b, needed, head) == EndValue(mem, b + 1, needed - 8, WithByte(head, mem[b]))
  {
  }

  lemma FieldParts(p: nat, n: nat, k: nat, left: nat)
    requires 1 <= n <= 16 && p + n < 8 * USABLE && k == p / 8 && left == 8 - p % 8
    ensures k < USABLE && InSpace([k])
    ensures n <= left ==> BitTouches(p, n) == [k]
    ensures n > left ==>
      var rest := RestTouches(k + 1, n - left);
      BitTouches(p, n) == [k] + rest && 8 * (k + 1) + n - left < 8 * USABLE && InSpace(rest)
  {
    assert p == 8 * k + (8 - left);
  }

  /** The value that read_nbits puts together; nothing is cut off at 16 bits. */
  lemma {:induction false} FieldValue(mem: seq<Byte>, p: nat, n: nat, k: nat, left: nat)
    requires 1 <= n <= 16 && p + n < 8 * USABLE && |mem| == MEMORY && k == p / 8 && left == 8 - p % 8
    ensures k < USABLE && Bits(mem, p, n) < 0x1_0000
    ensures n <= left ==> Bits(mem, p, n) == Keep(Shr(mem[k], left - n), n)
    ensures n > left ==>
      8 * (k + 1) + n - left < 8 * USABLE && Bits(mem, p, n) == RestValue(mem, k + 1, n - left, Keep(mem[k], left))
  {
    hide Pow2, Bits;
    FieldFits(mem, p, n);
    if n <= left {
      FieldInByte(mem, p, n);
    } else if n < left + 8 {
      FieldInTwo(mem, p, n);
    } else {
      FieldInThree(mem, p, n);
    }
  }

  // ---------------------------------------------------------------- stores

  lemma {:induction false} StoreUnfolds(c: Cache, a: Addr, bytes: seq<Byte>)
    requires c.Shape() && a < USABLE && a % LINE + |bytes| <= LINE && Resident(c, a)
    ensures var marked := Touch(c, a, true).cache;
      && Touch(c, a, true).Hit? && LINE * Slot(c.tags, a) + a % LINE + |bytes| <= BUFFERS
      && StoreTo(c, M.Store(a, bytes)) ==
        marked.(data := Splice(marked.data, LINE * Slot(c.tags, a) + a % LINE, bytes))
  {
    hide Slot, Splice;
  }

  /** save_dest, case by case. */
  lemma SaveCases(op: Operand, cpu: M.Cpu, v: Word, c: Cache)
    requires |cpu.regs| == M.REGISTERS && M.OperandDefined(op, cpu.regs) && M.OperandEncoded(op) && c.Shape()
    ensures M.StoreFits(M.Save(op, cpu, v).store) && StoreTo(c, M.NoStore) == c
    ensures op.Imm? ==> M.Save(op, cpu, v) == M.Effect(M.NoStore, cpu)
    ensures op.Reg? ==>
      && op.reg < M.REGISTERS
      && M.Save(op, cpu, v) ==
        M.Effect(M.NoStore, cpu.(regs := cpu.regs[op.reg := M.Merge(op.size, cpu.regs[op.reg], v)]))
    ensures !op.Imm? && !op.Reg? ==>
      var place := M.Place(op, cpu.regs);
      && M.IsMemory(op) && (M.HasReg(op) ==> op.reg < M.REGISTERS)
      && op.size <= 1 && place < USABLE && place % LINE + op.size < LINE
      && (op.Obf? ==> op.reg < M.REGISTERS && op.key < 0x1_0000)
      && M.Save(op, cpu, v) ==
        var w := if op.Obf? then M.Masked(v, M.OperandMask(op, cpu.regs)) else v;
        M.Effect(M.Store(place, M.Bytes(w, op.size)), cpu)
  {
    hide M.Masked, M.OperandMask, M.Merge, M.Place, Lo, Hi;
  }
}
