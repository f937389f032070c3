/** The server as it runs: named words and buffers of its memory are fields that
    its methods update in place (server.c).  Each method is proved equal to the
    functions of LineCache, Machine and Paging.  A miss, which the server leaves
    with a longjmp, is the result `ok == false`. */
module Server {
  import opened Words
  import opened Bitstream
  import opened Instructions
  import opened Obfuscation
  import opened LineCache
  import opened Paging
  import opened Lookups
  import opened Attempts
  import M = Machine

  /** The words SRC_* (and their copy DST_*): the operand as decoded, and its
      value. */
  datatype Latch = Latch(op: Operand, value: Word)

  /** How one pass of do_instruction ends. */
  datatype Verdict = Executed | MissedALine | Stopped

  /** A jump: to a position, or by a distance (bit 5 of `r12` is the direction). */
  datatype Leap = Absolutely(byte: Addr, bits: nat) | Relatively(r12: nat, r10: nat)

  predicate LeapFits(leap: Leap) {
    if leap.Absolutely? then leap.bits < 8 else leap.r12 < 64 && leap.r10 < 8
  }

  function LeapFrom(leap: Leap, pos: nat): nat
    requires LeapFits(leap)
  {
    match leap
    case Absolutely(b, t) => M.Position(b, t)
    case Relatively(r12, r10) => M.JumpFrom(pos, r12, r10)
  }

  lemma JumpParts(byte: Addr, bits: nat, r12: nat, r10: nat)
    requires bits < 8 && r12 < 64 && r10 < 8
    ensures M.JumpFrom(8 * byte + bits, r12, r10) ==
      var n := r12 % 0x20;
      if r12 < 0x20 then 8 * ((byte + n + (bits + r10) / 8) % 0x1_0000) + (bits + r10) % 8
      else if bits < r10 then 8 * ((byte - n - 1) % 0x1_0000) + (bits + 8 - r10)
      else 8 * ((byte - n) % 0x1_0000) + (bits - r10)
  {
    assert (8 * byte + bits) / 8 == byte && (8 * byte + bits) % 8 == bits;
  }

  lemma LeapBy(r12: nat, r10: nat, pos: nat)
    requires r12 < 64 && r10 < 8
    ensures LeapFits(Relatively(r12, r10)) && LeapFrom(Relatively(r12, r10), pos) == M.JumpFrom(pos, r12, r10)
  {
  }

  lemma LeapTo(b: Addr, t: nat, pos: nat)
    requires t < 8
    ensures LeapFits(Absolutely(b, t)) && LeapFrom(Absolutely(b, t), pos) == M.Position(b, t)
  {
  }

  ghost predicate Finishes(s: Sys, n: nat)
    requires Inv(s)
  {
    forall k: nat | k < n :: Completes(Run(s, k))
  }

  /** As long as the next `fuel` passes finish instructions, each meets one whose
      meaning is modelled. */
  ghost predicate Works(s: Sys, fuel: nat)
    requires Inv(s)
  {
    forall k: nat | k < fuel && Finishes(s, k) :: Paging.Ready(Run(s, k))
  }

  lemma {:induction false} RunBegins(s: Sys)
    requires Inv(s)
    ensures Run(s, 0) == s && Finishes(s, 0)
  {
  }

  /** One more pass. */
  lemma Works1(s: Sys, fuel: nat, n: nat, r: Sys)
    requires Inv(s) && Works(s, fuel) && n < fuel && Finishes(s, n) && r == Run(s, n)
    ensures Inv(r) && Paging.Ready(r) && !r.waiting && Legal(Current(r), r.cpu) && Current(r).Instruction?
    ensures Run(s, n + 1) == Paging.Step(r)
    ensures Completes(r) ==> Finishes(s, n + 1)
  {
    hide Paging.Step, Footprint, Logical, Parse;
  }

  lemma BytesBack(lo: Byte, hi: Byte)
    ensures AddrBytes(BytesAddr(lo, hi)) == [lo, hi]
  {
  }

  class Server {
    const data: array<Byte>   // 0x4000: five lines, and four bytes more
    const tags: array<Addr>   // 0x4054
    const ages: array<Addr>   // 0x405e
    const regs: array<Word>   // 0x40fe
    var victim: nat           // BUF_ADDR and OFF_ADDR, as a slot
    var miss: Addr            // NEW_OFF_SRC, as the last miss left it
    var byte: Addr            // CURRENT_BYTE
    var bits: nat             // CURRENT_BITS
    var savedByte: Addr       // SAVED_OFF_DEST
    var savedBits: Addr       // SAVED_OFF_SRC
    var flags: Word           // FLAGS
    var src: Latch
    var dst: Latch

    /** The five buffers are different arrays. */
    ghost predicate Apart() {
      && tags != ages && (data as object) != tags && (data as object) != ages
      && (regs as object) != tags && (regs as object) != ages && (regs as object) != data
    }

    ghost predicate Valid()
      reads this`victim, this`bits
    {
      && data.Length == BUFFERS && tags.Length == SLOTS && ages.Length == SLOTS && Apart()
      && regs.Length == M.REGISTERS && victim < SLOTS && bits < 8
    }

    /** do_server_init: `rom` is what the ROM image leaves in the line buffers,
        `registers` and `word` in the registers and flags. */
    constructor (rom: seq<Byte>, registers: seq<Word>, word: Word)
      requires |rom| == BUFFERS && |registers| == M.REGISTERS
      ensures Valid() && fresh(data) && fresh(tags) && fresh(ages) && fresh(regs)
      ensures forall ram :: System(ram, true) == Boot(rom, ram, registers, word)
    {
      data := new Byte[BUFFERS](i requires 0 <= i < BUFFERS => rom[i]);
      tags := new Addr[SLOTS](i requires 0 <= i < SLOTS => FIRST_TAGS[i]);
      ages := new Addr[SLOTS](i requires 0 <= i < SLOTS => FIRST_AGES[i]);
      regs := new Word[M.REGISTERS](i requires 0 <= i < M.REGISTERS => registers[i]);
      victim, miss, byte, bits, savedByte, savedBits, flags := 0, 0, 0, 0, 0, 0, word;
      src, dst := Latch(Imm(0, 0), 0), Latch(Imm(0, 0), 0);
      new;
      assert data[..] == rom && tags[..] == FIRST_TAGS && ages[..] == FIRST_AGES && regs[..] == registers;
    }

    ghost function Contents(): Cache
      reads this`victim, this`miss, data, tags, ages
    {
      Cache(data[..], tags[..], ages[..], victim, miss)
    }

    ghost function Now(): View
      reads this`victim, this`miss, this`byte, this`bits, this`savedByte, this`savedBits, data, tags, ages
    {
      View(Contents(), 8 * byte + bits, 8 * savedByte + savedBits)
    }

    /** Over the client's memory `ram` the cache is coherent, and the virtual
        machine sees `mem`. */
    ghost predicate Sees(ram: seq<Byte>, mem: seq<Byte>)
      reads this`victim, this`miss, this`bits, this`savedBits, data, tags, ages
    {
      Valid() && savedBits < 8 && Coherent(Contents(), ram) && Logical(Contents(), ram) == mem
    }

    /** sub_41da: the look-up, with the choice of the victim in the same loop. */
    method Lookup(a: Addr, write: bool) returns (ok: bool, at: nat)
      requires Valid() && savedBits < 8 && a < USABLE
      modifies this`victim, this`miss, this`byte, this`bits, tags, ages
      ensures Valid() && Contents() == Touch(old(Contents()), a, write).cache
      ensures ok == Touch(old(Contents()), a, write).Hit?
      ensures ok ==> at == LINE * Slot(old(tags[..]), a) + a % LINE
      ensures Now().pos == if ok then old(Now().pos) else old(Now().saved)
    {
      ghost var was := Contents();
      for i := 0 to SLOTS
        modifies ages
        invariant forall k | 0 <= k < i :: ages[k] == Tick(was.ages[k])
        invariant forall k | i <= k < SLOTS :: ages[k] == was.ages[k]
      {
        ages[i] := Tick(ages[i]);
      }
      assert ages[..] == Older(was.ages);
      var oldest, r1, i := 0, ages[0], 0;
      while i < SLOTS
        invariant 0 <= i <= SLOTS
        invariant Candidate(oldest, r1) == Scan(was.tags, Older(was.ages), i)
        invariant Slot(was.tags, a) == Slot(was.tags, a, i)
        invariant ages[..] == Older(was.ages) && tags[..] == was.tags
      {
        if r1 <= ages[i] {
          oldest, r1 := i, ages[i];
        }
        if tags[i] % 2 == 1 {
          r1 := 0xffff;
        }
        if Line(a) == Base(tags[i]) {
          if write {
            tags[i] := Mark(tags[i]);
          }
          ages[i] := 0;
          return true, LINE * i + (a - Line(a));
        }
        i := i + 1;
      }
      ages[oldest] := 0;
      victim, miss := oldest, a;
      byte, bits := savedByte, savedBits;
      return false, 0;
    }

    /** sub_4162: a byte or, inside one line, a word. */
    method Load(a: Addr, size: nat, ghost ram: seq<Byte>, ghost mem: seq<Byte>) returns (ok: bool, v: Word)
      requires Sees(ram, mem) && a < USABLE && (size == 1 ==> a % LINE != 15) && size <= 1
      modifies this`victim, this`miss, this`byte, this`bits, tags, ages
      ensures Sees(ram, mem) && Follows(old(Now()), [a], 0, Now(), ok)
      ensures ok ==> v == M.Raw(mem, a, size)
    {
      ghost var was := Contents();
      PlayOne(was, a);
      TouchIsTransparent(was, ram, a, false);
      hide Play, Coherent, Logical, Touch;
      var at;
      ok, at := Lookup(a, false);
      v := 0;
      if ok {
        CachedByte(was, Contents(), ram, a, at, size);
        v := if size == 0 then data[at] as Word else Join(data[at], data[at + 1]);
      }
    }

    /** GET_BYTE, as a number. */
    method LoadByte(a: Addr, ghost ram: seq<Byte>, ghost mem: seq<Byte>) returns (ok: bool, v: Byte)
      requires Sees(ram, mem) && a < USABLE && |mem| == MEMORY
      modifies this`victim, this`miss, this`byte, this`bits, tags, ages
      ensures Sees(ram, mem) && Follows(old(Now()), [a], 0, Now(), ok)
      ensures ok ==> v == mem[a]
    {
      ghost var was := Contents();
      PlayOne(was, a);
      TouchIsTransparent(was, ram, a, false);
      hide Play, Coherent, Logical, Touch;
      var at;
      ok, at := Lookup(a, false);
      v := 0;
      if ok {
        CachedByte(was, Contents(), ram, a, at, 0);
        v := data[at];
      }
    }

    /** read_nbits: the rest of the current byte, then at most two more bytes. */
    method ReadNBits(n: nat, ghost ram: seq<Byte>, ghost mem: seq<Byte>) returns (ok: bool, v: Addr)
      requires Sees(ram, mem) && 1 <= n <= 16 && Now().pos + n < 8 * USABLE
      modifies this`victim, this`miss, this`byte, this`bits, tags, ages
      ensures Sees(ram, mem) && Follows(old(Now()), BitTouches(old(Now().pos), n), n, Now(), ok)
      ensures ok ==> v == Bits(mem, old(Now().pos), n)
    {
      ghost var was := Now();
      var remaining, start := 8 - bits, byte;
      PosParts(ram, mem);
      FieldParts(was.pos, n, start, remaining);
      FieldValue(mem, was.pos, n, start, remaining);
      v := 0;
      hide *;
      var first;
      ok, first := LoadByte(start, ram, mem);
      if n <= remaining {
        v := if ok then Keep(Shr(first, remaining - n), n) else 0;
      } else if ok {
        ghost var half := Now();
        ok, v := ReadRest(start + 1, n - remaining, Keep(first, remaining), ram, mem);
        FollowsBoth(was, [start], 0, half, RestTouches(start + 1, n - remaining), 0, Now(), ok);
      } else {
        FollowsMiss(was, [start], 0, Now(), RestTouches(start + 1, n - remaining), 0);
      }
      ghost var read := Now();
      if ok {
        Advance(n, ram, mem);
      }
      FollowsMoved(was, BitTouches(was.pos, n), read, ok, n, Now());
    }

    /** The bits after the current byte; none is cut off at 16 bits. */
    method ReadRest(b: nat, needed: nat, head: nat, ghost ram: seq<Byte>, ghost mem: seq<Byte>)
      returns (ok: bool, v: Addr)
      requires Sees(ram, mem) && |mem| == MEMORY && 1 <= needed < 16 && 8 * b + needed < 8 * USABLE
      requires RestValue(mem, b, needed, head) < 0x1_0000
      modifies this`victim, this`miss, this`byte, this`bits, tags, ages
      ensures Sees(ram, mem) && Follows(old(Now()), RestTouches(b, needed), 0, Now(), ok)
      ensures ok ==> v == RestValue(mem, b, needed, head)
    {
      v := 0;
      RestParts(mem, b, needed, head);
      hide *;
      ghost var was := Now();
      if needed >= 8 {
        var second;
        ok, second := LoadByte(b, ram, mem);
        if ok {
          ghost var half := Now();
          ok, v := LastBits(b + 1, needed - 8, WithByte(head, second), ram, mem);
          FollowsBoth(was, [b], 0, half, [b + 1], 0, Now(), ok);
          return;
        } else {
          FollowsMiss(was, [b], 0, Now(), [b + 1], 0);
        }
      } else {
        ok, v := LastBits(b, needed, head, ram, mem);
      }
    }

    method LastBits(b: nat, needed: nat, head: nat, ghost ram: seq<Byte>, ghost mem: seq<Byte>)
      returns (ok: bool, v: Addr)
      requires Sees(ram, mem) && |mem| == MEMORY && needed < 8 && b < USABLE
      requires EndValue(mem, b, needed, head) < 0x1_0000
      modifies this`victim, this`miss, this`byte, this`bits, tags, ages
      ensures Sees(ram, mem) && Follows(old(Now()), [b], 0, Now(), ok)
      ensures ok ==> v == EndValue(mem, b, needed, head)
    {
      hide Sees, Follows, Keep, Shl, Shr;
      var last;
      ok, last := LoadByte(b, ram, mem);
      v := if ok then Shl(head, needed) + Keep(Shr(last, 8 - needed), needed) else 0;
    }

    method Advance(n: nat, ghost ram: seq<Byte>, ghost mem: seq<Byte>)
      requires Sees(ram, mem) && Now().pos + n < 8 * USABLE
      modifies this`byte, this`bits
      ensures Sees(ram, mem) && Now() == old(Now()).(pos := old(Now()).pos + n)
    {
      hide Coherent, Logical;
      var pos := bits + n;
      byte := byte + pos / 8;
      bits := pos % 8;
    }

    /** One field more than the fields `ws`, which began at `was`. */
    method Next(n: nat, ghost was: View, ghost ws: seq<nat>, ghost at: nat, ghost more: seq<nat>,
                ghost ram: seq<Byte>, ghost mem: seq<Byte>)
      returns (ok: bool, v: Addr)
      requires Sees(ram, mem) && 1 <= n <= 16 && was.pos + at + n < 8 * USABLE
      requires at == Sum(ws) && more == ws + [n] && Follows(was, FieldTouches(was.pos, ws), at, Now(), true)
      modifies this`victim, this`miss, this`byte, this`bits, tags, ages
      ensures Sees(ram, mem) && Follows(was, FieldTouches(was.pos, more), at + n, Now(), ok)
      ensures ok ==> v == Bits(mem, was.pos + at, n)
    {
      hide *;
      ghost var half := Now();
      FieldsSnoc(was.pos, ws, n);
      NowAt(was, FieldTouches(was.pos, ws), at, half);
      ok, v := ReadNBits(n, ram, mem);
      FollowsBoth(was, FieldTouches(was.pos, ws), at, half, BitTouches(half.pos, n), n, Now(), ok);
    }

    /** The operand `op` is being read from `was` on; `k` of its fields are done. */
    ghost predicate Reading(was: View, op: Operand, k: nat, ram: seq<Byte>, mem: seq<Byte>)
      reads this, data, tags, ages, regs
    {
      && Sees(ram, mem) && Fits(op, was.pos, regs[..], mem) && k <= Fields(op)
      && Follows(was, FieldTouches(was.pos, FirstFields(op, k)), Offset(op, k), Now(), true)
    }

    /** The operand `op` has been decoded into the words SRC_*, or was missed. */
    ghost predicate Decoded(was: View, op: Operand, ok: bool, ram: seq<Byte>, mem: seq<Byte>)
      reads this, data, tags, ages, regs
    {
      && Sees(ram, mem) && Fits(op, was.pos, regs[..], mem)
      && Follows(was, M.OperandTouches(op, was.pos, regs[..]), OperandLength(op), Now(), ok)
      && (ok ==> src == Latch(op, M.Value(op, regs[..], mem)))
    }

    lemma Fitting(was: View, op: Operand, k: nat, ram: seq<Byte>, mem: seq<Byte>)
      requires Reading(was, op, k, ram, mem)
      ensures Fits(op, was.pos, regs[..], mem) && Sees(ram, mem) && k <= Fields(op) && regs.Length == M.REGISTERS
      ensures (regs as object) != tags && (regs as object) != ages
      ensures Follows(was, FieldTouches(was.pos, FirstFields(op, k)), Offset(op, k), Now(), true)
    {
    }

    lemma StillReading(was: View, op: Operand, k: nat, ram: seq<Byte>, mem: seq<Byte>)
      requires Sees(ram, mem) && Fits(op, was.pos, regs[..], mem) && k <= Fields(op)
      requires Follows(was, FieldTouches(was.pos, FirstFields(op, k)), Offset(op, k), Now(), true)
      ensures Reading(was, op, k, ram, mem)
    {
    }

    lemma {:induction false} Begin(op: Operand, ram: seq<Byte>, mem: seq<Byte>)
      requires Sees(ram, mem) && Fits(op, Now().pos, regs[..], mem)
      ensures Reading(Now(), op, 0, ram, mem) && (regs as object) != tags && (regs as object) != ages
      ensures Fields(op) >= 3 && OperandWidths(op)[0] == 1 && OperandWidths(op)[1] == 2
      ensures op.size == Bits(mem, Now().pos + Offset(op, 0), 1)
      ensures var kind := Bits(mem, Now().pos + Offset(op, 1), 2);
        && (kind == 0 <==> op.Reg?) && (kind == 1 <==> op.Imm?) && (kind >= 3 <==> op.Obf?)
        && (kind == 2 <==> op.MemReg? || op.MemImm? || op.MemIdx?)
    {
      hide Logical, Coherent, ParseOperand, Fits, Follows, Bits, OperandWidths, Offset, FirstFields, Fields;
      OperandHeader(op, Now(), regs[..], mem);
    }

    lemma Missing(was: View, op: Operand, ram: seq<Byte>, mem: seq<Byte>)
      requires Sees(ram, mem) && Fits(op, was.pos, regs[..], mem) && |regs[..]| == M.REGISTERS
      requires M.OperandDefined(op, regs[..])
      requires Follows(was, M.OperandTouches(op, was.pos, regs[..]), OperandLength(op), Now(), false)
      ensures Decoded(was, op, false, ram, mem)
    {
    }

    lemma Latched(was: View, op: Operand, ram: seq<Byte>, mem: seq<Byte>)
      requires Sees(ram, mem) && Fits(op, was.pos, regs[..], mem) && |regs[..]| == M.REGISTERS
      requires M.OperandDefined(op, regs[..]) && M.OperandEncoded(op) && |mem| == MEMORY
      requires Follows(was, M.OperandTouches(op, was.pos, regs[..]), OperandLength(op), Now(), true)
      requires src == Latch(op, M.Value(op, regs[..], mem))
      ensures Decoded(was, op, true, ram, mem)
    {
    }

    /** The next field of an operand. */
    method NextField(n: nat, ghost was: View, ghost op: Operand, ghost k: nat, ghost ram: seq<Byte>, ghost mem: seq<Byte>)
      returns (ok: bool, v: Addr)
      requires Reading(was, op, k, ram, mem) && 1 <= n <= 16 && k < Fields(op) && n == OperandWidths(op)[k]
      modifies this`victim, this`miss, this`byte, this`bits, tags, ages
      ensures ok ==> Reading(was, op, k + 1, ram, mem) && v == Bits(mem, was.pos + Offset(op, k), n)
      ensures !ok ==> Decoded(was, op, false, ram, mem)
    {
      hide *;
      Fitting(was, op, k, ram, mem);
      FieldInside(op, was.pos, k, regs[..], mem);
      ok, v := Next(n, was, FirstFields(op, k), Offset(op, k), FirstFields(op, k + 1), ram, mem);
      if !ok {
        OperandMiss(was, op, k + 1, regs[..], mem, Now());
        Missing(was, op, ram, mem);
        return;
      }
      StillReading(was, op, k + 1, ram, mem);
    }

    /** decode_operands: the operand at the current position, and its value. */
    method DecodeOperand(ghost op: Operand, ghost ram: seq<Byte>, ghost mem: seq<Byte>) returns (ok: bool)
      requires Sees(ram, mem) && Fits(op, Now().pos, regs[..], mem)
      modifies this`victim, this`miss, this`byte, this`bits, this`src, tags, ages
      ensures Decoded(old(Now()), op, ok, ram, mem)
    {
      hide *;
      ghost var was := Now();
      Begin(op, ram, mem);
      var size, kind;
      ok, size := NextField(1, was, op, 0, ram, mem);
      if !ok {
        return;
      }
      ok, kind := NextField(2, was, op, 1, ram, mem);
      if !ok {
        return;
      }
      if kind == 0 {
        ok := DecodeReg(size, was, op, ram, mem);
      } else if kind == 1 {
        ok := DecodeImm(size, was, op, ram, mem);
      } else if kind == 2 {
        ok := DecodeMemref(size, was, op, ram, mem);
      } else {
        ok := DecodeObf(size, was, op, ram, mem);
      }
    }

    method DecodeReg(size: nat, ghost was: View, ghost op: Operand, ghost ram: seq<Byte>, ghost mem: seq<Byte>)
      returns (ok: bool)
      requires op.Reg? && op.size == size && Reading(was, op, 2, ram, mem)
      modifies this`victim, this`miss, this`byte, this`bits, this`src, tags, ages
      ensures Decoded(was, op, ok, ram, mem)
    {
      hide *;
      Fitting(was, op, 2, ram, mem);
      RegFields(op, was.pos, regs[..], mem);
      var r;
      ok, r := NextField(4, was, op, 2, ram, mem);
      if !ok {
        return;
      }
      Register(size, r, was, ram, mem);
    }

    method DecodeImm(size: nat, ghost was: View, ghost op: Operand, ghost ram: seq<Byte>, ghost mem: seq<Byte>)
      returns (ok: bool)
      requires op.Imm? && op.size == size && Reading(was, op, 2, ram, mem)
      modifies this`victim, this`miss, this`byte, this`bits, this`src, tags, ages
      ensures Decoded(was, op, ok, ram, mem)
    {
      hide *;
      var n := if size == 0 then 8 else 16;
      Fitting(was, op, 2, ram, mem);
      ImmFields(op, was.pos, regs[..], mem, n);
      var v;
      ok, v := NextField(n, was, op, 2, ram, mem);
      if !ok {
        return;
      }
      Immediate(size, v, was, ram, mem);
    }

    method DecodeMemref(size: nat, ghost was: View, ghost op: Operand, ghost ram: seq<Byte>, ghost mem: seq<Byte>)
      returns (ok: bool)
      requires (op.MemReg? || op.MemImm? || op.MemIdx?) && op.size == size && Reading(was, op, 2, ram, mem)
      modifies this`victim, this`miss, this`byte, this`bits, this`src, tags, ages
      ensures Decoded(was, op, ok, ram, mem)
    {
      hide *;
      Fitting(was, op, 2, ram, mem);
      MemrefFields(op, was.pos, regs[..], mem);
      Places(op, was.pos, regs[..], mem);
      var kind, r, addr;
      ok, kind := NextField(2, was, op, 2, ram, mem);
      if !ok {
        return;
      }
      if kind == 0 {
        ok, r := NextField(4, was, op, 3, ram, mem);
        if ok {
          ok := Fetch(MemReg(size, r), regs[r] as int, was, ram, mem);
        }
        return;
      }
      ok, addr := NextField(16, was, op, 3, ram, mem);
      if !ok {
        return;
      }
      if kind == 1 {
        ok := Fetch(MemImm(size, addr), addr, was, ram, mem);
        return;
      }
      ok, r := NextField(4, was, op, 4, ram, mem);
      if !ok {
        return;
      }
      ok := Fetch(MemIdx(size, addr, r), (addr + regs[r] as int) % 0x1_0000, was, ram, mem);
    }

    method DecodeObf(size: nat, ghost was: View, ghost op: Operand, ghost ram: seq<Byte>, ghost mem: seq<Byte>)
      returns (ok: bool)
      requires op.Obf? && op.size == size && Reading(was, op, 2, ram, mem)
      modifies this`victim, this`miss, this`byte, this`bits, this`src, tags, ages
      ensures Decoded(was, op, ok, ram, mem)
    {
      hide *;
      Fitting(was, op, 2, ram, mem);
      ObfFields(op, was.pos, regs[..], mem);
      Places(op, was.pos, regs[..], mem);
      var addr, r, key;
      ok, addr := NextField(16, was, op, 2, ram, mem);
      if !ok {
        return;
      }
      ok, r := NextField(4, was, op, 3, ram, mem);
      if !ok {
        return;
      }
      ok, key := NextField(6, was, op, 4, ram, mem);
      if !ok {
        return;
      }
      ok := Fetch(Obf(size, addr, r, key), (addr + regs[r] as int) % 0x1_0000, was, ram, mem);
    }

    method Register(size: nat, r: nat, ghost was: View, ghost ram: seq<Byte>, ghost mem: seq<Byte>)
      requires Reading(was, Reg(size, r), Fields(Reg(size, r)), ram, mem)
      modifies this`src
      ensures Decoded(was, Reg(size, r), true, ram, mem)
    {
      hide *;
      ghost var op := Reg(size, r);
      Fitting(was, op, Fields(op), ram, mem);
      NoData(was, op, regs[..], mem, Now());
      src := Latch(Reg(size, r), regs[r]);
      Latched(was, op, ram, mem);
    }

    method Immediate(size: nat, v: Addr, ghost was: View, ghost ram: seq<Byte>, ghost mem: seq<Byte>)
      requires Reading(was, Imm(size, v), Fields(Imm(size, v)), ram, mem)
      modifies this`src
      ensures Decoded(was, Imm(size, v), true, ram, mem)
    {
      hide *;
      ghost var op := Imm(size, v);
      Fitting(was, op, Fields(op), ram, mem);
      NoData(was, op, regs[..], mem, Now());
      src := Latch(Imm(size, v), v as Word);
      Latched(was, op, ram, mem);
    }

    /** The value of a memory operand whose fields have been read, unmasked if it
        is obfuscated (sub_4162, sub_4848). */
    method Fetch(op: Operand, place: Addr, ghost was: View, ghost ram: seq<Byte>, ghost mem: seq<Byte>)
      returns (ok: bool)
      requires Reading(was, op, Fields(op), ram, mem) && M.IsMemory(op) && place == M.Place(op, regs[..])
      modifies this`victim, this`miss, this`byte, this`bits, this`src, tags, ages
      ensures Decoded(was, op, ok, ram, mem)
    {
      hide *;
      ghost var half := Now();
      Fitting(was, op, Fields(op), ram, mem);
      DataFits(op, was.pos, regs[..], mem);
      DataValue(op, was.pos, regs[..], mem);
      var v: Word;
      ok, v := Load(place, op.size, ram, mem);
      FollowsBoth(was, FieldTouches(was.pos, FirstFields(op, Fields(op))), OperandLength(op), half, [place], 0, Now(), ok);
      if !ok {
        Missing(was, op, ram, mem);
        return;
      }
      if op.Obf? {
        var mask := ComputeMask(op.addr as Word, regs[op.reg] as nat, op.key as Word);
        MaskOf(op, regs[..]);
        v := if op.size == 0 then (v ^ mask) & 0xff else v ^ mask;
      }
      src := Latch(op, v);
      Latched(was, op, ram, mem);
    }

    // -------------------------------------------------------------- one attempt at an instruction

    ghost function CpuNow(): M.Cpu
      reads this`byte, this`bits, this`flags, regs
    {
      M.Cpu(regs[..], flags, 8 * byte + bits)
    }

    /** The attempt at `ins` that began at `was` has looked up `t`. */
    ghost predicate InAttempt(was: View, ins: Instruction, cpu: M.Cpu, t: seq<nat>, n: nat,
                              ram: seq<Byte>, mem: seq<Byte>)
      reads this`victim, this`miss, this`byte, this`bits, this`savedByte, this`savedBits, data, tags, ages, regs
    {
      && Sees(ram, mem) && Based(was, ins, cpu, mem) && cpu.regs == regs[..]
      && t <= AllTouches(ins, cpu) && Follows(was, t, n, Now(), true)
    }

    /** It has read `k` of the opening fields; it has decoded `k` operands. */
    ghost predicate Opened(was: View, ins: Instruction, cpu: M.Cpu, k: nat, ram: seq<Byte>, mem: seq<Byte>)
      reads this`victim, this`miss, this`byte, this`bits, this`savedByte, this`savedBits, data, tags, ages, regs
    {
      && k <= |Opening(ins)|
      && InAttempt(was, ins, cpu, OpeningTouches(ins, cpu, k), OpeningAt(ins, k), ram, mem)
    }

    ghost predicate Operated(was: View, ins: Instruction, cpu: M.Cpu, k: nat, ram: seq<Byte>, mem: seq<Byte>)
      reads this`victim, this`miss, this`byte, this`bits, this`savedByte, this`savedBits, data, tags, ages, regs
    {
      && Legal(ins, cpu) && k <= |Ops(ins)|
      && InAttempt(was, ins, cpu, UpTo(ins, cpu, k), LengthUpTo(ins, k), ram, mem)
    }

    /** A miss: nothing but the cache has changed. */
    ghost predicate GaveUp(was: View, ins: Instruction, cpu: M.Cpu, ram: seq<Byte>, mem: seq<Byte>)
      reads this`victim, this`miss, this`byte, this`bits, this`savedByte, this`savedBits, data, tags, ages, regs
    {
      && Sees(ram, mem) && Based(was, ins, cpu, mem) && cpu.regs == regs[..]
      && Follows(was, AllTouches(ins, cpu), Length(ins), Now(), false)
    }

    /** The instruction is done: registers, flags, position and cache are those
        of Execute. */
    ghost predicate Finished(was: View, ins: Instruction, cpu: M.Cpu, mem: seq<Byte>)
      reads this, data, tags, ages, regs
    {
      && Valid() && Based(was, ins, cpu, mem) && ins.Instruction? && InSpace(AllTouches(ins, cpu))
      && var e := M.Execute(ins, cpu, mem);
      var r := Play(was.cache, AllTouches(ins, cpu));
      && r.Done? && M.StoreFits(e.store) && CpuNow() == e.cpu && Contents() == StoreTo(r.cache, e.store)
    }

    /** The next of the opening fields. */
    method NextOpening(n: nat, ghost was: View, ghost ins: Instruction, ghost cpu: M.Cpu, ghost k: nat,
                       ghost ram: seq<Byte>, ghost mem: seq<Byte>)
      returns (ok: bool, v: Addr)
      requires Opened(was, ins, cpu, k, ram, mem) && k < |Opening(ins)| && n == Opening(ins)[k]
      modifies this`victim, this`miss, this`byte, this`bits, tags, ages
      ensures ok ==> Opened(was, ins, cpu, k + 1, ram, mem) && v == Bits(mem, cpu.pos + OpeningAt(ins, k), n)
      ensures !ok ==> GaveUp(was, ins, cpu, ram, mem)
    {
      hide *;
      OpenedMeans(was, ins, cpu, k, ram, mem);
      OpeningStep(ins, cpu, k);
      ok, v := Next(n, was, Opening(ins)[..k], OpeningAt(ins, k), Opening(ins)[..k + 1], ram, mem);
      OpeningNames(ins, cpu, k + 1);
      if !ok {
        AttemptMiss(was, ins, cpu, OpeningTouches(ins, cpu, k + 1), OpeningAt(ins, k + 1), Now());
        Giving(was, ins, cpu, ram, mem);
        return;
      }
      Opening1(was, ins, cpu, k + 1, ram, mem);
    }

    /** The next operand. */
    method NextOperand(ghost was: View, ghost ins: Instruction, ghost cpu: M.Cpu, ghost k: nat,
                       ghost ram: seq<Byte>, ghost mem: seq<Byte>)
      returns (ok: bool)
      requires Operated(was, ins, cpu, k, ram, mem) && Legal(ins, cpu) && k < |Ops(ins)| && |mem| == MEMORY
      modifies this`victim, this`miss, this`byte, this`bits, this`src, tags, ages
      ensures ok ==> Operated(was, ins, cpu, k + 1, ram, mem) && src == Latch(Ops(ins)[k], ValueAt(ins, cpu, mem, k))
      ensures !ok ==> GaveUp(was, ins, cpu, ram, mem)
    {
      hide *;
      OperatedMeans(was, ins, cpu, k, ram, mem);
      OperandStep(ins, cpu, mem, k);
      ghost var half := Now();
      NowAt(was, UpTo(ins, cpu, k), LengthUpTo(ins, k), half);
      ok := DecodeOperand(Ops(ins)[k], ram, mem);
      DecodedMeans(half, ins, cpu, k, ok, ram, mem);
      FollowsBoth(was, UpTo(ins, cpu, k), LengthUpTo(ins, k), half,
        M.OperandTouches(Ops(ins)[k], half.pos, cpu.regs), OperandLength(Ops(ins)[k]), Now(), ok);
      if !ok {
        AttemptMiss(was, ins, cpu, UpTo(ins, cpu, k + 1), LengthUpTo(ins, k + 1), Now());
        Giving(was, ins, cpu, ram, mem);
        return;
      }
      Operating(was, ins, cpu, k + 1, ram, mem);
    }

    lemma OpenedMeans(was: View, ins: Instruction, cpu: M.Cpu, k: nat, ram: seq<Byte>, mem: seq<Byte>)
      requires Opened(was, ins, cpu, k, ram, mem)
      ensures Sees(ram, mem) && Based(was, ins, cpu, mem) && cpu.regs == regs[..] && Legal(ins, cpu)
      ensures was.pos == cpu.pos && (regs as object) != tags && (regs as object) != ages && k <= |Opening(ins)|
      ensures OpeningAt(ins, k) == Sum(Opening(ins)[..k])
      ensures Follows(was, FieldTouches(was.pos, Opening(ins)[..k]), OpeningAt(ins, k), Now(), true)
    {
      hide Opening, Sum, FieldTouches, Follows, Legal, AllTouches, Logical, Coherent;
    }

    lemma Opening1(was: View, ins: Instruction, cpu: M.Cpu, k: nat, ram: seq<Byte>, mem: seq<Byte>)
      requires Sees(ram, mem) && Based(was, ins, cpu, mem) && cpu.regs == regs[..] && Legal(ins, cpu)
      requires k <= |Opening(ins)| && OpeningTouches(ins, cpu, k) <= AllTouches(ins, cpu)
      requires Follows(was, OpeningTouches(ins, cpu, k), OpeningAt(ins, k), Now(), true)
      ensures Opened(was, ins, cpu, k, ram, mem)
    {
      hide Opening, OpeningAt, OpeningTouches, Follows, Legal, Based, Sees, AllTouches;
    }

    lemma OperatedMeans(was: View, ins: Instruction, cpu: M.Cpu, k: nat, ram: seq<Byte>, mem: seq<Byte>)
      requires Operated(was, ins, cpu, k, ram, mem)
      ensures Sees(ram, mem) && Based(was, ins, cpu, mem) && cpu.regs == regs[..] && Legal(ins, cpu)
      ensures ins == Parse(mem, cpu.pos) && |mem| == MEMORY && k <= |Ops(ins)| && |cpu.regs| == M.REGISTERS
      ensures was.pos == cpu.pos && (regs as object) != tags && (regs as object) != ages
      ensures Follows(was, UpTo(ins, cpu, k), LengthUpTo(ins, k), Now(), true)
    {
      hide Follows, AllTouches, Logical, Coherent, UpTo, LengthUpTo, M.Defined, Ops, Parse;
    }

    lemma Operating(was: View, ins: Instruction, cpu: M.Cpu, k: nat, ram: seq<Byte>, mem: seq<Byte>)
      requires Sees(ram, mem) && Based(was, ins, cpu, mem) && cpu.regs == regs[..] && Legal(ins, cpu)
      requires k <= |Ops(ins)| && UpTo(ins, cpu, k) <= AllTouches(ins, cpu)
      requires Follows(was, UpTo(ins, cpu, k), LengthUpTo(ins, k), Now(), true)
      ensures Operated(was, ins, cpu, k, ram, mem)
    {
      hide UpTo, LengthUpTo, Follows, Legal, Based, Sees, AllTouches, Ops;
    }

    lemma DecodedMeans(half: View, ins: Instruction, cpu: M.Cpu, k: nat, ok: bool, ram: seq<Byte>, mem: seq<Byte>)
      requires Legal(ins, cpu) && k < |Ops(ins)| && cpu.regs == regs[..] && |mem| == MEMORY
      requires Decoded(half, Ops(ins)[k], ok, ram, mem)
      ensures Sees(ram, mem) && |cpu.regs| == M.REGISTERS && M.OperandDefined(Ops(ins)[k], cpu.regs)
      ensures Follows(half, M.OperandTouches(Ops(ins)[k], half.pos, cpu.regs), OperandLength(Ops(ins)[k]), Now(), ok)
      ensures ok ==> src == Latch(Ops(ins)[k], ValueAt(ins, cpu, mem, k))
    {
      hide Follows, Sees, Ops, M.OperandTouches, OperandLength, M.Value, Legal;
    }

    lemma Giving(was: View, ins: Instruction, cpu: M.Cpu, ram: seq<Byte>, mem: seq<Byte>)
      requires Sees(ram, mem) && Based(was, ins, cpu, mem) && cpu.regs == regs[..] && Legal(ins, cpu)
      requires Follows(was, AllTouches(ins, cpu), Length(ins), Now(), false)
      ensures GaveUp(was, ins, cpu, ram, mem)
    {
      hide Follows, Legal, Based, Sees, AllTouches, Length;
    }

    // -------------------------------------------------------------- what an instruction does

    /** sub_41a6 for a store: the cell was read by the same attempt, so the
        look-up hits. */
    method StoreCell(a: Addr, size: nat, v: Word)
      requires Valid() && savedBits < 8 && size <= 1 && a < USABLE && a % LINE + size < LINE && Resident(Contents(), a)
      modifies this`victim, this`miss, this`byte, this`bits, data, tags, ages
      ensures Valid() && Contents() == StoreTo(old(Contents()), M.Store(a, M.Bytes(v, size)))
      ensures byte == old(byte) && bits == old(bits)
    {
      hide Touch, Slot, Lo, Hi;
      ghost var was := Contents();
      ghost var marked := Touch(was, a, true).cache;
      StoreUnfolds(was, a, M.Bytes(v, size));
      var ok, at := Lookup(a, true);
      data[at] := Lo(v);
      if size == 1 {
        data[at + 1] := Hi(v);
      }
      assert data[..] == Splice(marked.data, at, M.Bytes(v, size));
    }

    /** save_dest: the words DST_* say where, SRC_VALUE what. */
    method SaveDest()
      requires Valid() && savedBits < 8 && M.OperandDefined(dst.op, regs[..]) && M.OperandEncoded(dst.op)
      requires M.IsMemory(dst.op) ==> Resident(Contents(), M.Place(dst.op, regs[..]))
      modifies this`victim, this`miss, this`byte, this`bits, data, tags, ages, regs
      ensures Valid() && Saved(M.Save(dst.op, old(CpuNow()), src.value), old(Contents()))
    {
      hide *;
      ghost var op, cpu, c := dst.op, CpuNow(), Contents();
      Begun();
      SaveCases(op, cpu, src.value, c);
      if dst.op.Reg? {
        regs[dst.op.reg] := M.Merge(dst.op.size, regs[dst.op.reg], src.value);
        Saving(M.Save(op, cpu, src.value), c);
        return;
      }
      if dst.op.Imm? {
        Saving(M.Save(op, cpu, src.value), c);
        return;
      }
      SaveCell();
    }

    /** The part of save_dest that stores into memory. */
    method SaveCell()
      requires Valid() && savedBits < 8 && M.OperandDefined(dst.op, regs[..]) && M.OperandEncoded(dst.op)
      requires M.IsMemory(dst.op) && Resident(Contents(), M.Place(dst.op, regs[..]))
      modifies this`victim, this`miss, this`byte, this`bits, data, tags, ages
      ensures Valid() && Saved(M.Save(dst.op, old(CpuNow()), src.value), old(Contents()))
    {
      hide *;
      ghost var op, cpu, c := dst.op, CpuNow(), Contents();
      Begun();
      SaveCases(op, cpu, src.value, c);
      MemoryOnly(op);
      var place := M.Place(dst.op, regs[..]);
      if dst.op.Obf? {
        var mask := ComputeMask(dst.op.addr as Word, regs[dst.op.reg] as nat, dst.op.key as Word);
        MaskOf(op, regs[..]);
        StoreCell(place, dst.op.size, M.Masked(src.value, mask));
        Saving(M.Save(op, cpu, src.value), c);
        return;
      }
      StoreCell(place, dst.op.size, src.value);
      Saving(M.Save(op, cpu, src.value), c);
    }

    lemma MemoryOnly(op: Operand)
      requires M.IsMemory(op)
      ensures !op.Reg? && !op.Imm?
    {
    }

    /** The effect `e` has happened to a server whose cache was `c`. */
    ghost predicate Saved(e: M.Effect, c: Cache)
      reads this`victim, this`miss, this`byte, this`bits, this`flags, data, tags, ages, regs
    {
      c.Shape() && M.StoreFits(e.store) && CpuNow() == e.cpu && Contents() == StoreTo(c, e.store)
    }

    lemma Begun()
      requires Valid()
      ensures CpuNow() == M.Cpu(regs[..], flags, 8 * byte + bits) && Contents().Shape()
      ensures regs.Length == M.REGISTERS && Apart()
      ensures (regs as object) != tags && (regs as object) != ages && (regs as object) != data
    {
    }

    lemma Saving(e: M.Effect, c: Cache)
      requires c.Shape() && M.StoreFits(e.store) && Contents() == StoreTo(c, e.store)
      requires e.cpu == M.Cpu(regs[..], flags, 8 * byte + bits)
      ensures Saved(e, c)
    {
    }

    /** sub_4814. */
    method UpdateFlags(uf: nat, bank: nat, matched: bool, f: Word)
      modifies this`flags
      ensures flags == if uf != 0 && matched then M.SetBank(old(flags), bank, f) else old(flags)
    {
      if uf != 0 && matched {
        flags := if bank == 0 then (flags & 0x0f) | (f << 4) else (flags & 0xf0) | f;
      }
    }

    /** Everything is read; the flags and SRC_VALUE hold what was computed. */
    ghost predicate Ready(was: View, ins: Instruction, cpu: M.Cpu, ram: seq<Byte>, mem: seq<Byte>)
      reads this, data, tags, ages, regs
    {
      && Legal(ins, cpu) && |mem| == MEMORY && ins.Instruction? && !ins.body.Jump?
      && Operated(was, ins, cpu, |Ops(ins)|, ram, mem) && dst.op == Ops(ins)[0]
      && var r := M.Compute(ins, cpu, mem);
      var matched := M.Matched(ins.bank, ins.conds, cpu.flags);
      src.value == r.value && flags == if matched && ins.uf != 0 then r.flags else cpu.flags
    }

    /** The end of an instruction other than a jump: the store, if its condition
        holds. */
    method Conclude(matched: bool, ghost was: View, ghost ins: Instruction, ghost cpu: M.Cpu,
                    ghost ram: seq<Byte>, ghost mem: seq<Byte>)
      requires Ready(was, ins, cpu, ram, mem) && matched == M.Matched(ins.bank, ins.conds, cpu.flags)
      modifies this`victim, this`miss, this`byte, this`bits, data, tags, ages, regs
      ensures Finished(was, ins, cpu, mem)
    {
      hide *;
      ghost var c := Contents();
      Ready1(was, ins, cpu, ram, mem);
      if !matched {
        Unsaved();
        Finishing(was, ins, cpu, mem, c);
        return;
      }
      SaveDest();
      Finishing(was, ins, cpu, mem, c);
    }

    lemma Unsaved()
      requires Valid()
      ensures Saved(M.Effect(M.NoStore, CpuNow()), Contents())
    {
    }

    /** The store of the instruction, given what it computed, is all that is left. */
    lemma Ready1(was: View, ins: Instruction, cpu: M.Cpu, ram: seq<Byte>, mem: seq<Byte>)
      requires Ready(was, ins, cpu, ram, mem)
      ensures Valid() && savedBits < 8 && M.OperandDefined(dst.op, regs[..]) && M.OperandEncoded(dst.op)
      ensures M.IsMemory(dst.op) ==> Resident(Contents(), M.Place(dst.op, regs[..]))
      ensures Completing(was, ins, cpu, mem, Contents())
      ensures M.Execute(ins, cpu, mem) ==
        if M.Matched(ins.bank, ins.conds, cpu.flags) then M.Save(dst.op, CpuNow(), src.value)
        else M.Effect(M.NoStore, CpuNow())
    {
      hide *;
      ReadyMeans(was, ins, cpu, ram, mem);
      OperandDefinedAt(ins, cpu, 0);
      DestinationRead(was, ins, cpu, mem, Now());
      ComputedIsExecute(ins, cpu, mem, CpuNow(), src.value);
    }

    lemma ReadyMeans(was: View, ins: Instruction, cpu: M.Cpu, ram: seq<Byte>, mem: seq<Byte>)
      requires Ready(was, ins, cpu, ram, mem)
      ensures Valid() && savedBits < 8 && Legal(ins, cpu) && |mem| == MEMORY && ins.Instruction? && !ins.body.Jump?
      ensures Based(was, ins, cpu, mem) && |Ops(ins)| >= 1 && dst.op == Ops(ins)[0] && cpu.regs == regs[..]
      ensures Follows(was, AllTouches(ins, cpu), LengthUpTo(ins, |Ops(ins)|), Now(), true)
      ensures Now().cache == Contents() && Now().pos == CpuNow().pos
      ensures CpuNow() == M.Cpu(regs[..], flags, CpuNow().pos)
      ensures var r := M.Compute(ins, cpu, mem);
        && src.value == r.value
        && flags == if M.Matched(ins.bank, ins.conds, cpu.flags) && ins.uf != 0 then r.flags else cpu.flags
    {
      hide M.Compute, M.Matched, Follows, UpTo, LengthUpTo, Legal, Logical, Coherent, Parse;
    }

    lemma Finishing(was: View, ins: Instruction, cpu: M.Cpu, mem: seq<Byte>, c: Cache)
      requires Valid() && Completing(was, ins, cpu, mem, c) && Saved(M.Execute(ins, cpu, mem), c)
      ensures Finished(was, ins, cpu, mem)
    {
      hide M.Execute, Play, StoreTo, AllTouches, Based, Legal, M.StoreFits;
    }

    /** The attempt is over. */
    ghost predicate Attempted(was: View, ins: Instruction, cpu: M.Cpu, ok: bool, ram: seq<Byte>, mem: seq<Byte>)
      reads this, data, tags, ages, regs
    {
      if ok then Finished(was, ins, cpu, mem) else GaveUp(was, ins, cpu, ram, mem) && flags == cpu.flags
    }

    /** Opcodes 0 and 1: `and` and `or`. */
    method DoLogic(or: bool, bank: nat, uf: nat, matched: bool, ghost was: View, ghost ins: Instruction,
                   ghost cpu: M.Cpu, ghost ram: seq<Byte>, ghost mem: seq<Byte>)
      returns (ok: bool)
      requires Header(ins, cpu, bank, uf, matched) && flags == cpu.flags
      requires ins.Instruction? && (if or then ins.body.Or? else ins.body.And?)
      requires Opened(was, ins, cpu, 4, ram, mem)
      modifies this, data, tags, ages, regs
      ensures Attempted(was, ins, cpu, ok, ram, mem)
    {
      hide *;
      Begin4(was, ins, cpu, ram, mem);
      LogicComputed(ins, cpu, mem);
      HeaderKept(ins, cpu, bank, uf, matched);
      ok := NextOperand(was, ins, cpu, 0, ram, mem);
      if !ok {
        Gone(was, ins, cpu, ram, mem);
        return;
      }
      dst := src;
      ok := NextOperand(was, ins, cpu, 1, ram, mem);
      if !ok {
        Gone(was, ins, cpu, ram, mem);
        return;
      }
      var r0 := if or then dst.value | src.value else dst.value & src.value;
      M.LogicIs(or, dst.value, src.value);
      var before := flags;
      UpdateFlags(uf, bank, matched, M.ZeroSign(r0));
      flags := M.KeepZeros(flags, before);
      M.LogicFlagsBy(before, bank, r0);
      src := src.(value := r0);
      Readying(was, ins, cpu, bank, uf, matched, ram, mem);
      Conclude(matched, was, ins, cpu, ram, mem);
      Came(was, ins, cpu, ram, mem);
    }

    /** Opcode 2: `neg`, the complement. */
    method DoNeg(bank: nat, uf: nat, matched: bool, ghost was: View, ghost ins: Instruction,
                 ghost cpu: M.Cpu, ghost ram: seq<Byte>, ghost mem: seq<Byte>)
      returns (ok: bool)
      requires Header(ins, cpu, bank, uf, matched) && flags == cpu.flags && ins.Instruction? && ins.body.Neg?
      requires Opened(was, ins, cpu, 4, ram, mem)
      modifies this, data, tags, ages, regs
      ensures Attempted(was, ins, cpu, ok, ram, mem)
    {
      hide *;
      Begin4(was, ins, cpu, ram, mem);
      NegComputed(ins, cpu, mem);
      HeaderKept(ins, cpu, bank, uf, matched);
      ok := NextOperand(was, ins, cpu, 0, ram, mem);
      if !ok {
        Gone(was, ins, cpu, ram, mem);
        return;
      }
      dst := src;
      var r0, before := !src.value, flags;
      M.ComplementIs(src.value);
      src := src.(value := r0);
      UpdateFlags(uf, bank, matched, M.ZeroSign(r0));
      M.NegFlagsBy(before, bank, r0);
      Readying(was, ins, cpu, bank, uf, matched, ram, mem);
      Conclude(matched, was, ins, cpu, ram, mem);
      Came(was, ins, cpu, ram, mem);
    }

    /** The value shifted, and the last bit shifted out. */
    static method ShiftWord(lr: nat, shift: nat, v: Word) returns (r0: Word, carry: Word)
      requires 1 <= shift <= 16
      ensures r0 == M.Shifted(lr == 1, shift, v) && carry == M.ShiftCarry(lr == 1, shift, v)
    {
      if lr == 1 {
        carry := (v >> (shift - 1)) & 1;
        r0 := v >> shift;
      } else {
        carry := (v >> (16 - shift)) & 1;
        r0 := v << shift;
      }
    }

    /** Opcode 3: shifts. */
    method DoShift(bank: nat, uf: nat, matched: bool, ghost was: View, ghost ins: Instruction,
                   ghost cpu: M.Cpu, ghost ram: seq<Byte>, ghost mem: seq<Byte>)
      returns (ok: bool)
      requires Header(ins, cpu, bank, uf, matched) && flags == cpu.flags && ins.Instruction? && ins.body.Shift?
      requires Opened(was, ins, cpu, 4, ram, mem)
      modifies this, data, tags, ages, regs
      ensures Attempted(was, ins, cpu, ok, ram, mem)
    {
      hide *;
      OpenedMeans(was, ins, cpu, 4, ram, mem);
      BasedMeans(was, ins, cpu, mem);
      PrefixMeans(ins, mem, cpu.pos);
      ShiftComputed(ins, cpu, mem);
      HeaderKept(ins, cpu, bank, uf, matched);
      var lr, shift;
      ok, lr := NextOpening(1, was, ins, cpu, 4, ram, mem);
      if !ok {
        Gone(was, ins, cpu, ram, mem);
        return;
      }
      ok, shift := NextOpening(8, was, ins, cpu, 5, ram, mem);
      if !ok {
        Gone(was, ins, cpu, ram, mem);
        return;
      }
      BeginOperands(was, ins, cpu, ram, mem);
      ok := NextOperand(was, ins, cpu, 0, ram, mem);
      if !ok {
        Gone(was, ins, cpu, ram, mem);
        return;
      }
      dst := src;
      var before := flags;
      var r0, carry := ShiftWord(lr, shift, src.value);
      src := src.(value := r0);
      UpdateFlags(uf, bank, matched, M.ZeroCarry(carry));
      M.ShiftFlagsBy(before, bank, carry);
      Readying(was, ins, cpu, bank, uf, matched, ram, mem);
      Conclude(matched, was, ins, cpu, ram, mem);
      Came(was, ins, cpu, ram, mem);
    }

    /** Opcode 4: `mov`, which leaves the flags alone. */
    method DoMov(bank: nat, uf: nat, matched: bool, ghost was: View, ghost ins: Instruction,
                 ghost cpu: M.Cpu, ghost ram: seq<Byte>, ghost mem: seq<Byte>)
      returns (ok: bool)
      requires Header(ins, cpu, bank, uf, matched) && flags == cpu.flags && ins.Instruction? && ins.body.Mov?
      requires Opened(was, ins, cpu, 4, ram, mem)
      modifies this, data, tags, ages, regs
      ensures Attempted(was, ins, cpu, ok, ram, mem)
    {
      hide *;
      Begin4(was, ins, cpu, ram, mem);
      MovComputed(ins, cpu, mem);
      ok := NextOperand(was, ins, cpu, 0, ram, mem);
      if !ok {
        Gone(was, ins, cpu, ram, mem);
        return;
      }
      dst := src;
      ok := NextOperand(was, ins, cpu, 1, ram, mem);
      if !ok {
        Gone(was, ins, cpu, ram, mem);
        return;
      }
      Readying(was, ins, cpu, bank, uf, matched, ram, mem);
      Conclude(matched, was, ins, cpu, ram, mem);
      Came(was, ins, cpu, ram, mem);
    }

    /** Opcodes 5 and 7: jumps, relative or to an operand. */
    method DoJump(matched: bool, bank: nat, uf: nat, ghost was: View, ghost ins: Instruction,
                  ghost cpu: M.Cpu, ghost ram: seq<Byte>, ghost mem: seq<Byte>)
      returns (ok: bool)
      requires Header(ins, cpu, bank, uf, matched) && flags == cpu.flags && ins.Instruction? && ins.body.Jump?
      requires Opened(was, ins, cpu, 4, ram, mem)
      modifies this, data, tags, ages, regs
      ensures Attempted(was, ins, cpu, ok, ram, mem)
    {
      hide *;
      OpenedMeans(was, ins, cpu, 4, ram, mem);
      BasedMeans(was, ins, cpu, mem);
      PrefixMeans(ins, mem, cpu.pos);
      HeaderKept(ins, cpu, bank, uf, matched);
      JumpTarget(ins, cpu, mem);
      var r12, r10;
      ok, r12 := NextOpening(6, was, ins, cpu, 4, ram, mem);
      if !ok {
        Gone(was, ins, cpu, ram, mem);
        return;
      }
      ok, r10 := NextOpening(3, was, ins, cpu, 5, ram, mem);
      if !ok {
        Gone(was, ins, cpu, ram, mem);
        return;
      }
      BeginOperands(was, ins, cpu, ram, mem);
      if r12 != 0 {
        LeapBy(r12, r10, cpu.pos + Length(ins));
        JumpTo(Relatively(r12, r10), matched, was, ins, cpu, ram, mem);
        return;
      }
      ok := NextOperand(was, ins, cpu, 0, ram, mem);
      if !ok {
        Gone(was, ins, cpu, ram, mem);
        return;
      }
      if src.op.Imm? {
        LeapTo(src.op.value, r10, cpu.pos + Length(ins));
        JumpTo(Absolutely(src.op.value, r10), matched, was, ins, cpu, ram, mem);
      } else {
        LeapTo(M.FarByte(src.value), M.FarBits(src.value), cpu.pos + Length(ins));
        JumpTo(Absolutely(M.FarByte(src.value), M.FarBits(src.value)), matched, was, ins, cpu, ram, mem);
      }
    }

    method JumpTo(leap: Leap, matched: bool, ghost was: View, ghost ins: Instruction, ghost cpu: M.Cpu,
                  ghost ram: seq<Byte>, ghost mem: seq<Byte>)
      requires Legal(ins, cpu) && |mem| == MEMORY && ins.Instruction? && ins.body.Jump? && flags == cpu.flags
      requires Operated(was, ins, cpu, |Ops(ins)|, ram, mem)
      requires matched == M.Matched(ins.bank, ins.conds, cpu.flags)
      requires LeapFits(leap) && M.Target(ins, cpu, mem) == LeapFrom(leap, cpu.pos + Length(ins))
      modifies this`byte, this`bits
      ensures Attempted(was, ins, cpu, true, ram, mem)
    {
      hide *;
      AllRead(was, ins, cpu, ram, mem);
      LegalMeans(ins, cpu);
      JumpExecuted(ins, cpu, mem);
      if matched {
        Move(leap);
      }
      Jumped(M.Execute(ins, cpu, mem));
      Finishing(was, ins, cpu, mem, Contents());
      Came(was, ins, cpu, ram, mem);
    }

    /** The update of CURRENT_BYTE and CURRENT_BITS. */
    method Move(leap: Leap)
      requires LeapFits(leap) && Valid()
      modifies this`byte, this`bits
      ensures Valid() && 8 * byte + bits == LeapFrom(leap, old(8 * byte + bits))
    {
      match leap
      case Absolutely(b, t) =>
        byte, bits := b, t;
      case Relatively(r12, r10) =>
        MoveBy(r12, r10);
    }

    method MoveBy(r12: nat, r10: nat)
      requires r12 < 64 && r10 < 8 && Valid()
      modifies this`byte, this`bits
      ensures Valid() && 8 * byte + bits == M.JumpFrom(old(8 * byte + bits), r12, r10)
    {
      hide M.JumpFrom;
      JumpParts(byte, bits, r12, r10);
      var n := r12 % 0x20;
      if r12 < 0x20 {
        byte, bits := (byte + n + (bits + r10) / 8) % 0x1_0000, (bits + r10) % 8;
        return;
      }
      if bits < r10 {
        byte, bits := (byte - n - 1) % 0x1_0000, bits + 8 - r10;
        return;
      }
      byte, bits := (byte - n) % 0x1_0000, bits - r10;
    }

    lemma AllRead(was: View, ins: Instruction, cpu: M.Cpu, ram: seq<Byte>, mem: seq<Byte>)
      requires ins.Instruction? && Legal(ins, cpu) && Operated(was, ins, cpu, |Ops(ins)|, ram, mem)
      ensures Valid() && Completing(was, ins, cpu, mem, Contents()) && cpu.regs == regs[..]
      ensures 8 * byte + bits == cpu.pos + Length(ins)
    {
      hide *;
      OperatedMeans(was, ins, cpu, |Ops(ins)|, ram, mem);
      AllIs(ins, cpu);
      AllHits(was, ins, cpu, mem, Now());
      NowIs(ram, mem);
    }

    lemma NowIs(ram: seq<Byte>, mem: seq<Byte>)
      requires Sees(ram, mem)
      ensures Valid() && Now().cache == Contents() && Now().pos == 8 * byte + bits
    {
    }

    lemma Jumped(e: M.Effect)
      requires Valid() && e == M.Effect(M.NoStore, M.Cpu(regs[..], flags, 8 * byte + bits))
      ensures Saved(e, Contents())
    {
    }

    lemma Gone(was: View, ins: Instruction, cpu: M.Cpu, ram: seq<Byte>, mem: seq<Byte>)
      requires GaveUp(was, ins, cpu, ram, mem) && flags == cpu.flags
      ensures Attempted(was, ins, cpu, false, ram, mem)
    {
      hide GaveUp, Finished;
    }

    lemma Came(was: View, ins: Instruction, cpu: M.Cpu, ram: seq<Byte>, mem: seq<Byte>)
      requires Finished(was, ins, cpu, mem)
      ensures Attempted(was, ins, cpu, true, ram, mem)
    {
      hide GaveUp, Finished;
    }

    lemma BeginOperands(was: View, ins: Instruction, cpu: M.Cpu, ram: seq<Byte>, mem: seq<Byte>)
      requires Opened(was, ins, cpu, |Opening(ins)|, ram, mem)
      ensures Operated(was, ins, cpu, 0, ram, mem)
    {
      hide Opening, OpeningTouches, OpeningAt, UpTo, LengthUpTo, Ops, Follows, Legal, Sees, AllTouches, Parse;
      OpeningDone(ins, cpu);
      UpToBegins(ins, cpu);
    }

    /** Instructions whose operands follow the header directly. */
    lemma Begin4(was: View, ins: Instruction, cpu: M.Cpu, ram: seq<Byte>, mem: seq<Byte>)
      requires Opened(was, ins, cpu, 4, ram, mem) && ins.Instruction? && !ins.body.Shift? && !ins.body.Jump?
      ensures Operated(was, ins, cpu, 0, ram, mem)
      ensures Legal(ins, cpu) && |mem| == MEMORY
    {
      hide *;
      OpenedMeans(was, ins, cpu, 4, ram, mem);
      BasedMeans(was, ins, cpu, mem);
      BodyMeans(ins, mem, cpu.pos);
      BeginOperands(was, ins, cpu, ram, mem);
    }

    lemma Readying(was: View, ins: Instruction, cpu: M.Cpu, bank: nat, uf: nat, matched: bool,
                   ram: seq<Byte>, mem: seq<Byte>)
      requires Legal(ins, cpu) && |mem| == MEMORY && ins.Instruction? && !ins.body.Jump? && |Ops(ins)| >= 1
      requires Header(ins, cpu, bank, uf, matched)
      requires Operated(was, ins, cpu, |Ops(ins)|, ram, mem) && dst.op == Ops(ins)[0]
      requires var r := M.Compute(ins, cpu, mem);
        src.value == r.value && flags == if uf != 0 && matched then r.flags else cpu.flags
      ensures Ready(was, ins, cpu, ram, mem) && matched == M.Matched(ins.bank, ins.conds, cpu.flags)
    {
      hide M.Compute, M.Matched, Operated, Ops, Legal;
    }

    /** A stop code was read: nothing has happened but nine bits. */
    ghost predicate Halted(was: View, ins: Instruction, cpu: M.Cpu, ram: seq<Byte>, mem: seq<Byte>)
      reads this, data, tags, ages, regs
    {
      && Sees(ram, mem) && Based(was, ins, cpu, mem) && ins.Stop?
      && Follows(was, AllTouches(ins, cpu), 9, Now(), true) && CpuNow() == cpu.(pos := cpu.pos + 9)
    }

    /** One pass of do_instruction, from its saved position on. */
    method Pass(ghost was: View, ghost ins: Instruction, ghost cpu: M.Cpu, ghost ram: seq<Byte>, ghost mem: seq<Byte>)
      returns (verdict: Verdict)
      requires Opened(was, ins, cpu, 0, ram, mem) && flags == cpu.flags
      modifies this, data, tags, ages, regs
      ensures verdict.Executed? ==> Finished(was, ins, cpu, mem)
      ensures verdict.MissedALine? ==> GaveUp(was, ins, cpu, ram, mem) && flags == cpu.flags
      ensures verdict.Stopped? ==> Halted(was, ins, cpu, ram, mem)
    {
      hide *;
      OpenedMeans(was, ins, cpu, 0, ram, mem);
      BasedMeans(was, ins, cpu, mem);
      HeaderMeans(ins, mem, cpu.pos);
      var ok, bank, conds, opcode, uf;
      ok, bank := NextOpening(1, was, ins, cpu, 0, ram, mem);
      if !ok {
        return MissedALine;
      }
      ok, conds := NextOpening(8, was, ins, cpu, 1, ram, mem);
      if !ok {
        return MissedALine;
      }
      if conds == 0xff {
        Halting(was, ins, cpu, ram, mem);
        return Stopped;
      }
      var matched := M.Matched(bank, conds, flags);
      ok, opcode := NextOpening(3, was, ins, cpu, 2, ram, mem);
      if !ok {
        return MissedALine;
      }
      ok, uf := NextOpening(1, was, ins, cpu, 3, ram, mem);
      if !ok {
        return MissedALine;
      }
      HeaderRead(ins, cpu, bank, uf, matched);
      BodyMeans(ins, mem, cpu.pos);
      ok := Body(opcode, bank, uf, matched, was, ins, cpu, ram, mem);
      Verdict1(was, ins, cpu, ok, ram, mem);
      return if ok then Executed else MissedALine;
    }

    method Body(opcode: nat, bank: nat, uf: nat, matched: bool, ghost was: View, ghost ins: Instruction,
                ghost cpu: M.Cpu, ghost ram: seq<Byte>, ghost mem: seq<Byte>)
      returns (ok: bool)
      requires Header(ins, cpu, bank, uf, matched) && flags == cpu.flags && ins.Instruction?
      requires Opened(was, ins, cpu, 4, ram, mem)
      requires (opcode == 0 <==> ins.body.And?) && (opcode == 1 <==> ins.body.Or?) && (opcode == 2 <==> ins.body.Neg?)
      requires (opcode == 3 <==> ins.body.Shift?) && (opcode == 4 <==> ins.body.Mov?)
      modifies this, data, tags, ages, regs
      ensures Attempted(was, ins, cpu, ok, ram, mem)
    {
      hide *;
      if opcode <= 1 {
        ok := DoLogic(opcode != 0, bank, uf, matched, was, ins, cpu, ram, mem);
      } else if opcode == 2 {
        ok := DoNeg(bank, uf, matched, was, ins, cpu, ram, mem);
      } else if opcode == 3 {
        ok := DoShift(bank, uf, matched, was, ins, cpu, ram, mem);
      } else if opcode == 4 {
        ok := DoMov(bank, uf, matched, was, ins, cpu, ram, mem);
      } else {
        ok := DoJump(matched, bank, uf, was, ins, cpu, ram, mem);
      }
    }

    lemma Verdict1(was: View, ins: Instruction, cpu: M.Cpu, ok: bool, ram: seq<Byte>, mem: seq<Byte>)
      requires Attempted(was, ins, cpu, ok, ram, mem)
      ensures if ok then Finished(was, ins, cpu, mem) else GaveUp(was, ins, cpu, ram, mem) && flags == cpu.flags
    {
      hide Finished, GaveUp;
    }

    lemma Halting(was: View, ins: Instruction, cpu: M.Cpu, ram: seq<Byte>, mem: seq<Byte>)
      requires Opened(was, ins, cpu, 2, ram, mem) && ins.Stop? && flags == cpu.flags && OpeningAt(ins, 2) == 9
      ensures Halted(was, ins, cpu, ram, mem)
    {
      hide FieldTouches, Parse, Sum, Logical, Coherent, Play;
      OpeningDone(ins, cpu);
    }

    // -------------------------------------------------------------- runs

    /** The server and the client's memory as a state of the step machine. */
    ghost function System(ram: seq<Byte>, waiting: bool): Sys
      reads this`victim, this`miss, this`byte, this`bits, this`flags, data, tags, ages, regs
    {
      Sys(Contents(), ram, CpuNow(), waiting)
    }

    /** One pass of do_instruction over an instruction, or over a stop code.  On an
        instruction it is exactly a step of the step machine. */
    method Attempt(ghost ram: seq<Byte>) returns (verdict: Verdict)
      requires Valid() && Inv(System(ram, false)) && Legal(Current(System(ram, false)), CpuNow())
      modifies this, data, tags, ages, regs
      ensures Valid()
      ensures var s := old(System(ram, false));
        if Current(s).Stop? then
          && verdict != Executed && Inv(System(ram, false)) && Flat(System(ram, false)).mem == Flat(s).mem
          && CpuNow() == s.cpu.(pos := s.cpu.pos + if verdict == Stopped then 9 else 0)
        else
          && verdict != Stopped && (verdict == Executed <==> Completes(s))
          && System(ram, verdict == MissedALine) == Paging.Step(s)
    {
      hide *;
      ghost var s := System(ram, false);
      SystemIs(ram, false);
      ghost var mem, ins, cpu := Flat(s).mem, Current(s), CpuNow();
      SavePosition(s, ram);
      ghost var was := Now();
      verdict := Pass(was, ins, cpu, ram, mem);
      Verdicts(verdict, s, was, ins, cpu, ram, mem);
    }

    /** SAVED_OFF_DEST and SAVED_OFF_SRC: where a miss will take it up again. */
    method SavePosition(ghost s: Sys, ghost ram: seq<Byte>)
      requires Valid() && Inv(s) && s == System(ram, false) && Legal(Current(s), s.cpu)
      modifies this`savedByte, this`savedBits
      ensures Opened(Now(), Current(s), s.cpu, 0, ram, Flat(s).mem) && flags == s.cpu.flags
      ensures From(s, Now(), Current(s), s.cpu, Flat(s).mem)
    {
      hide Parse, Legal, Logical, Coherent, AllTouches, Opening, FieldTouches, Follows, OpeningAt, OpeningTouches;
      savedByte, savedBits := byte, bits;
      NothingYet(Now(), Current(s), s.cpu);
    }

    /** What one pass has done is what the step machine does. */
    lemma Verdicts(verdict: Verdict, s: Sys, was: View, ins: Instruction, cpu: M.Cpu, ram: seq<Byte>, mem: seq<Byte>)
      requires Inv(s) && From(s, was, ins, cpu, mem) && s.ram == ram
      requires verdict.Executed? ==> Finished(was, ins, cpu, mem)
      requires verdict.MissedALine? ==> GaveUp(was, ins, cpu, ram, mem) && flags == cpu.flags
      requires verdict.Stopped? ==> Halted(was, ins, cpu, ram, mem)
      ensures Valid()
      ensures if ins.Stop? then
          && verdict != Executed && Inv(System(ram, false)) && Flat(System(ram, false)).mem == mem
          && CpuNow() == cpu.(pos := cpu.pos + if verdict == Stopped then 9 else 0)
        else
          && verdict != Stopped && (verdict == Executed <==> Completes(s))
          && System(ram, verdict == MissedALine) == Paging.Step(s)
    {
      hide *;
      if verdict.Executed? {
        FinishedMeans(was, ins, cpu, mem);
        StepFinished(s, was, ins, cpu, mem, Contents(), CpuNow());
        SystemIs(ram, false);
      } else if verdict.MissedALine? {
        GaveUpMeans(was, ins, cpu, ram, mem);
        StepMissed(s, was, ins, cpu, mem, Now());
        SystemIs(ram, true);
        Seen(ram, mem);
      } else {
        HaltedMeans(was, ins, cpu, ram, mem);
        Seen(ram, mem);
      }
    }

    lemma SystemIs(ram: seq<Byte>, waiting: bool)
      ensures System(ram, waiting) == Sys(Contents(), ram, CpuNow(), waiting)
    {
    }

    lemma Seen(ram: seq<Byte>, mem: seq<Byte>)
      requires Sees(ram, mem)
      ensures Valid() && Inv(System(ram, false)) && Flat(System(ram, false)).mem == mem
    {
      hide Logical, Coherent;
    }

    lemma FinishedMeans(was: View, ins: Instruction, cpu: M.Cpu, mem: seq<Byte>)
      requires Finished(was, ins, cpu, mem)
      ensures Valid() && ins.Instruction? && FinishedWith(was, ins, cpu, mem, Contents(), CpuNow())
    {
      hide M.Execute, Play, AllTouches, Parse, Legal, StoreTo;
    }

    lemma GaveUpMeans(was: View, ins: Instruction, cpu: M.Cpu, ram: seq<Byte>, mem: seq<Byte>)
      requires GaveUp(was, ins, cpu, ram, mem) && flags == cpu.flags
      ensures Sees(ram, mem) && Based(was, ins, cpu, mem) && CpuNow() == cpu
      ensures Follows(was, AllTouches(ins, cpu), Length(ins), Now(), false) && Now().cache == Contents()
    {
      hide Play, AllTouches, Parse, Legal, Logical, Coherent;
    }

    lemma HaltedMeans(was: View, ins: Instruction, cpu: M.Cpu, ram: seq<Byte>, mem: seq<Byte>)
      requires Halted(was, ins, cpu, ram, mem)
      ensures Sees(ram, mem) && ins.Stop? && CpuNow() == cpu.(pos := cpu.pos + 9)
    {
      hide Play, AllTouches, Parse, Legal, Logical, Coherent;
    }

    /** do_instruction: pass after pass, until a line is missing.  The source's
        loop has no bound; `fuel` bounds this one. */
    method DoInstruction(fuel: nat, ghost ram: seq<Byte>) returns (missing: bool, ghost n: nat)
      requires Valid() && Inv(System(ram, false)) && Works(System(ram, false), fuel)
      modifies this, data, tags, ages, regs
      ensures Valid() && Inv(old(System(ram, false))) && System(ram, missing) == Run(old(System(ram, false)), n)
      ensures missing || n == fuel
    {
      hide *;
      ghost var s := System(ram, false);
      var i := 0;
      missing, n := false, 0;
      RunBegins(s);
      while i < fuel && !missing
        invariant n == i <= fuel && Inv(s) && Works(s, fuel)
        invariant Valid() && System(ram, missing) == Run(s, n) && (!missing ==> Finishes(s, n))
      {
        Works1(s, fuel, n, Run(s, n));
        SystemIs(ram, false);
        var verdict := Attempt(ram);
        missing := verdict == MissedALine;
        i, n := i + 1, n + 1;
      }
    }

    /** The callback of a 0x51 request: the line and its address go where the
        victim was (handle_receive_req), before do_instruction is restarted. */
    method HandleReceive(value: Addr, payload: seq<Byte>)
      requires Valid() && |payload| == LINE
      modifies data, tags
      ensures Valid() && Contents() == Install(old(Contents()), value, payload) && CpuNow() == old(CpuNow())
    {
      ghost var was := Contents();
      tags[victim] := value;
      var at := LINE * victim;
      for i := 0 to LINE
        modifies data
        invariant forall k | 0 <= k < BUFFERS :: data[k] == if at <= k < at + i then payload[k - at] else was.data[k]
      {
        data[at + i] := payload[i];
      }
      assert data[..] == Splice(was.data, at, payload);
    }

    /** A 0x56 request (handle_send_req, sub_40e8): the four bytes behind the
        victim's line carry its tag and the missing address, and are put back
        afterwards.  What they held is parked in the saved position, which the
        next pass overwrites; the position itself is left alone. */
    method HandleSend() returns (packet: seq<Byte>)
      requires Valid()
      modifies this`savedByte, this`savedBits, data
      ensures Valid() && Contents() == old(Contents()) && CpuNow() == old(CpuNow())
      ensures |packet| == LINE + 4 && packet[..LINE] == LineData(Contents(), victim)
      ensures BytesAddr(packet[LINE], packet[LINE + 1]) == tags[victim]
      ensures BytesAddr(packet[LINE + 2], packet[LINE + 3]) == miss
    {
      ghost var was := data[..];
      var at := LINE * victim + LINE;
      savedByte, savedBits := BytesAddr(data[at], data[at + 1]), BytesAddr(data[at + 2], data[at + 3]);
      var tag, address := AddrBytes(tags[victim]), AddrBytes(miss);
      data[at], data[at + 1], data[at + 2], data[at + 3] := tag[0], tag[1], address[0], address[1];
      packet := data[at - LINE .. at + 4];
      BytesBack(was[at], was[at + 1]);
      BytesBack(was[at + 2], was[at + 3]);
      var first, second := AddrBytes(savedByte), AddrBytes(savedBits);
      data[at], data[at + 1], data[at + 2], data[at + 3] := first[0], first[1], second[0], second[1];
      assert data[..] == was;
    }

    lemma PosParts(ram: seq<Byte>, mem: seq<Byte>)
      requires Sees(ram, mem)
      ensures byte == Now().pos / 8 && 8 - bits == 8 - Now().pos % 8 && byte < 0x1_0000 && bits < 8 && |mem| == MEMORY
    {
    }
  }
}
