/** A program that livelocks the system: from the start, whatever the registers and
    flags hold, it runs into the trap of module Livelock.  It loads from two lines and
    jumps through a third, so that its last line comes into slot 1; there it stores
    into its own line, and then copies a word between two lines more. */
module Trapped {
  import opened Words
  import opened Bitstream
  import opened Instructions
  import opened Encoding
  import opened LineCache
  import opened Paging
  import opened Progress
  import opened Livelock
  import opened Footprints
  import opened Liveness
  import M = Machine

  // ---------------------------------------------------------------- the program

  /** An instruction that is always carried out. */
  function Always(body: Body): Instruction {
    Instruction(0, 0xf0, 0, body)
  }

  const LOAD := Always(Mov(Reg(1, 0), MemImm(1, 0x30)))
  const LOAD_AGAIN := Always(Mov(Reg(1, 0), MemImm(1, 0x40)))
  const HOP := Always(Jump(5, 3, 0, Relative))
  const HOP_AGAIN := Always(Jump(5, 13, 2, Relative))
  const OWN_LINE := Always(Mov(MemImm(1, 0x2e), MemImm(1, 0x2e)))
  const COPY := Always(Mov(MemImm(1, 0x50), MemImm(1, 0x60)))

  function Zeros(n: nat): (bits: seq<Bit>)
    ensures |bits| == n
  {
    seq(n, i => 0)
  }

  /** Three lines of code. */
  function Code(): seq<Bit> {
    Encode(LOAD) + (Encode(LOAD_AGAIN) + (Encode(HOP) + (Zeros(24) + (Encode(HOP_AGAIN) + (Zeros(106)
      + (Encode(OWN_LINE) + (Encode(COPY) + Zeros(18))))))))
  }

  lemma Lengths()
    ensures |Encode(LOAD)| == |Encode(LOAD_AGAIN)| == 41 && |Encode(HOP)| == |Encode(HOP_AGAIN)| == 22
    ensures |Encode(OWN_LINE)| == |Encode(COPY)| == 55
    ensures |Code()| == 384
  {
    hide Encode;
    EncodedLength(LOAD);
    EncodedLength(LOAD_AGAIN);
    EncodedLength(HOP);
    EncodedLength(HOP_AGAIN);
    EncodedLength(OWN_LINE);
    EncodedLength(COPY);
  }

  /** The instructions as they are read from a memory. */
  ghost predicate Holds(mem: seq<Byte>) {
    && |mem| == MEMORY
    && Parse(mem, 0) == LOAD && Parse(mem, 41) == LOAD_AGAIN && Parse(mem, 82) == HOP
    && Parse(mem, 128) == HOP_AGAIN && Parse(mem, 256) == OWN_LINE && HoldsAt(mem, 311, Encode(COPY))
  }

  lemma AllEncodable()
    ensures InstructionEncodable(LOAD) && InstructionEncodable(LOAD_AGAIN) && InstructionEncodable(HOP)
    ensures InstructionEncodable(HOP_AGAIN) && InstructionEncodable(OWN_LINE) && InstructionEncodable(COPY)
  {
  }

  lemma CodeHolds(mem: seq<Byte>)
    requires |mem| == MEMORY && HoldsAt(mem, 0, Code())
    ensures Holds(mem)
  {
    hide HoldsAt, Encode, Parse, Zeros, InstructionEncodable;
    Lengths();
    AllEncodable();
    var a := Encode(OWN_LINE) + (Encode(COPY) + Zeros(18));
    var b := Encode(HOP_AGAIN) + (Zeros(106) + a);
    var c := Encode(HOP) + (Zeros(24) + b);
    HoldsParts(mem, 0, Encode(LOAD), Encode(LOAD_AGAIN) + c);
    HoldsParts(mem, 41, Encode(LOAD_AGAIN), c);
    HoldsParts(mem, 82, Encode(HOP), Zeros(24) + b);
    HoldsParts(mem, 104, Zeros(24), b);
    HoldsParts(mem, 128, Encode(HOP_AGAIN), Zeros(106) + a);
    HoldsParts(mem, 150, Zeros(106), a);
    HoldsParts(mem, 256, Encode(OWN_LINE), Encode(COPY) + Zeros(18));
    HoldsParts(mem, 311, Encode(COPY), Zeros(18));
    ParseIff(mem, 0, LOAD);
    ParseIff(mem, 41, LOAD_AGAIN);
    ParseIff(mem, 82, HOP);
    ParseIff(mem, 128, HOP_AGAIN);
    ParseIff(mem, 256, OWN_LINE);
  }

  // ---------------------------------------------------------------- attempts in a cache

  /** Every look-up before `n` is in the line of slot `q`. */
  predicate InSlot(c: Cache, t: seq<nat>, n: nat, q: nat)
    requires c.Shape() && InSpace(t) && n <= |t| && q < SLOTS
  {
    forall m | 0 <= m < n :: Line(t[m]) == Base(c.tags[q])
  }

  /** Slot `v` is the one to go when index `n` misses, after `n` hits in slot `q`. */
  predicate Goes(c: Cache, n: nat, q: nat, v: nat)
    requires c.Shape() && q < SLOTS && v < SLOTS
  {
    && v <= Reach(c.tags) && (n > 0 ==> v != q)
    && (forall s | 0 <= s <= Reach(c.tags) && (s != q || n == 0) :: c.ages[s] <= c.ages[v])
    && (forall s | v < s <= Reach(c.tags) && (s != q || n == 0) :: c.ages[s] < c.ages[v])
  }

  predicate LineAbsent(c: Cache, a: Addr)
    requires c.Shape()
  {
    forall s | 0 <= s < SLOTS :: Base(c.tags[s]) != Line(a)
  }

  lemma {:induction false} PrefixOf(c: Cache, t: seq<nat>, n: nat, q: nat)
    requires c.Shape() && InSpace(t) && n < |t| && q < SLOTS && InSlot(c, t, n, q) && LineAbsent(c, t[n])
    ensures Prefix(c.tags, t) == n
  {
    hide Prefix, Slot;
    forall m | 0 <= m < n ensures Resident(c, t[m]) {
      assert Base(c.tags[q]) == Line(t[m]);
    }
    PrefixIs(c, t, n);
  }

  /** The age that counts when index `n` misses. */
  lemma {:induction false} WeighedAge(c: Cache, t: seq<nat>, n: nat, q: nat, s: nat)
    requires c.Shape() && Sound(c.tags) && InSpace(t) && n < |t| && q < SLOTS && InSlot(c, t, n, q) && s < SLOTS
    requires n > 0 ==> InUse(c.tags[q])
    ensures MissAge(c, t, n, s) == if s == q && n > 0 then 1 else c.ages[s] + n + 1
  {
    hide Sound, Base;
    if s != q && n > 0 {
      OtherTag(c, q, s);
    }
  }

  /** A miss after hits in one line. */
  lemma {:induction false} MissAfterHits(c: Cache, t: seq<nat>, n: nat, q: nat, v: nat)
    requires c.Shape() && Sound(c.tags) && InSpace(t) && n < |t| && q < SLOTS && v < SLOTS
    requires InSlot(c, t, n, q) && LineAbsent(c, t[n]) && Room(c, n + 1) && Goes(c, n, q, v)
    ensures Play(c, t).Missed?
    ensures var r := Retry(c, t);
      && r.tags == c.tags[v := Line(t[n])]
      && forall s | 0 <= s < SLOTS ::
           r.ages[s] == if s == v then 0 else if s == q && n > 0 then 1 else c.ages[s] + n + 1
  {
    PrefixOf(c, t, n, q);
    if n > 0 {
      UsableLine(t[0]);
    }
    hide Prefix, Slot, Play, Sound, Goes, Chosen, InSlot, LineAbsent, Room, Line;
    var m, n' := AttemptFails(c, t);
    OldestGoes(c, t, m, n, q, v);
  }

  lemma {:induction false} OldestGoes(c: Cache, t: seq<nat>, m: Cache, n: nat, q: nat, v: nat)
    requires c.Shape() && Sound(c.tags) && InSpace(t) && n < |t| && q < SLOTS && v < SLOTS && InSlot(c, t, n, q)
    requires n > 0 ==> InUse(c.tags[q])
    requires Chosen(c, t, m, n) && Goes(c, n, q, v)
    ensures m.victim == v
    ensures forall s | 0 <= s < SLOTS ::
      m.ages[s] == if s == v then 0 else if s == q && n > 0 then 1 else c.ages[s] + n + 1
  {
    hide MissAge, Sound, Line, Base, Reach, InSlot;
    forall s | 0 <= s < SLOTS
      ensures MissAge(c, t, n, s) == if s == q && n > 0 then 1 else c.ages[s] + n + 1
    {
      WeighedAge(c, t, n, q, s);
    }
    assert MissAge(c, t, n, v) <= MissAge(c, t, n, m.victim);
    assert c.ages[m.victim] <= c.ages[v];
  }

  /** The age after hits in one line. */
  lemma {:induction false} HitsInSlot(c: Cache, t: seq<nat>, n: nat, q: nat)
    requires c.Shape() && Sound(c.tags) && InSpace(t) && 0 < n <= |t| && q < SLOTS && InSlot(c, t, n, q) && Room(c, n)
    requires InUse(c.tags[q])
    ensures Play(c, t[..n]).Done?
    ensures forall s | 0 <= s < SLOTS :: Play(c, t[..n]).cache.ages[s] == if s == q then 0 else c.ages[s] + n
  {
    hide Prefix, Slot, Play, Sound;
    forall m | 0 <= m < n ensures Slot(c.tags, t[m]) < SLOTS {
      assert Base(c.tags[q]) == Line(t[m]);
    }
    PrefixReaches(c.tags, t, n);
    HitAges(c, t, n);
    forall s | 0 <= s < SLOTS && s != q ensures AgeAfter(c, t, n, s) == c.ages[s] + n {
      OtherTag(c, q, s);
    }
  }

  /** Hits in one line, and then one in another. */
  lemma {:induction false} HitsThenOther(c: Cache, t: seq<nat>, q: nat, v: nat)
    requires c.Shape() && Sound(c.tags) && InSpace(t) && |t| >= 2 && q < SLOTS && v < SLOTS && q != v
    requires InSlot(c, t, |t| - 1, q) && InUse(c.tags[q]) && Base(c.tags[v]) == Line(End(t)) && Room(c, |t|)
    ensures Play(c, t).Done?
    ensures forall s | 0 <= s < SLOTS ::
      Play(c, t).cache.ages[s] == if s == v then 0 else if s == q then 1 else c.ages[s] + |t|
  {
    var n := |t| - 1;
    RoomForLess(c, |t|, n);
    HitsInSlot(c, t, n, q);
    assert Front(t) == t[..n];
    LastHit(c, t, Play(c, t[..n]).cache, v);
    hide Sound, InSlot, Line, Base, Play;
    assert forall s | 0 <= s < SLOTS :: c.ages[s] + |t| < 0xffff;
  }

  lemma {:induction false} LastHit(c: Cache, t: seq<nat>, before: Cache, v: nat)
    requires c.Shape() && Sound(c.tags) && InSpace(t) && t != [] && v < SLOTS
    requires Play(c, Front(t)) == Done(before) && Base(c.tags[v]) == Line(End(t))
    ensures Play(c, t).Done?
    ensures forall s | 0 <= s < SLOTS :: Play(c, t).cache.ages[s] == if s == v then 0 else Tick(before.ages[s])
  {
    hide Sound, Line, Base, Slot;
    OnlyOneSlot(c.tags, End(t), v);
  }

  /** An attempt that misses its data, and the one after it. */
  lemma {:induction false} DataMissed(c: Cache, t: seq<nat>, q: nat, v: nat)
    requires c.Shape() && Sound(c.tags) && InSpace(t) && |t| >= 2 && q < SLOTS && v < SLOTS
    requires InSlot(c, t, |t| - 1, q) && InUse(c.tags[q]) && LineAbsent(c, End(t))
    requires Room(c, 2 * |t|) && Goes(c, |t| - 1, q, v)
    ensures Play(c, t).Missed? && Play(Retry(c, t), t).Done?
    ensures var r := Play(Retry(c, t), t).cache;
      && r.tags == c.tags[v := Line(End(t))]
      && forall s | 0 <= s < SLOTS :: r.ages[s] == if s == v then 0 else if s == q then 1 else c.ages[s] + 2 * |t|
  {
    RoomForLess(c, 2 * |t|, |t|);
    MissAfterHits(c, t, |t| - 1, q, v);
    var r := Retry(c, t);
    MissStaysSound(c, t);
    LineIsClean(End(t));
    hide Play, Sound, Line, Base, Goes, LineAbsent, Retry;
    assert v != q && r.tags[q] == c.tags[q];
    assert Room(r, |t|) by {
      assert forall s | 0 <= s < SLOTS :: c.ages[s] + 2 * |t| < 0xffff;
    }
    assert InSlot(r, t, |t| - 1, q);
    HitsThenOther(r, t, q, v);
  }

  lemma {:induction false} MissStaysSound(c: Cache, t: seq<nat>)
    requires c.Shape() && Sound(c.tags) && InSpace(t) && Play(c, t).Missed?
    ensures Sound(Retry(c, t).tags)
  {
    PlayStopsAtMiss(c, t);
    hide Play, Sound, Prefix;
    ExchangedTags(c, t, Play(c, t).cache, Retry(c, t));
  }

  /** An attempt that misses its own code, and the one after it. */
  lemma {:induction false} CodeMissed(c: Cache, t: seq<nat>, v: nat)
    requires c.Shape() && Sound(c.tags) && InSpace(t) && t != [] && v < SLOTS
    requires (forall m | 0 <= m < |t| :: Line(t[m]) == Line(t[0])) && LineAbsent(c, t[0])
    requires Room(c, 1 + |t|) && Goes(c, 0, v, v)
    ensures Play(c, t).Missed? && Play(Retry(c, t), t).Done?
    ensures var r := Play(Retry(c, t), t).cache;
      && r.tags == c.tags[v := Line(t[0])]
      && forall s | 0 <= s < SLOTS :: r.ages[s] == if s == v then 0 else c.ages[s] + 1 + |t|
  {
    RoomForLess(c, 1 + |t|, 1);
    MissAfterHits(c, t, 0, v, v);
    var r := Retry(c, t);
    MissStaysSound(c, t);
    LineIsClean(t[0]);
    hide Play, Sound, Line, Base, Goes, LineAbsent, Retry;
    assert Room(r, |t|) by {
      assert forall s | 0 <= s < SLOTS :: c.ages[s] + (1 + |t|) < 0xffff;
    }
    assert InSlot(r, t, |t|, v);
    HitsInSlot(r, t, |t|, v);
    assert t[..|t|] == t;
  }

  /** With every counter at 0xffff, the first look-up takes them all to 0. */
  lemma {:induction false} FirstLookUp(c: Cache, t: seq<nat>) returns (c1: Cache)
    requires c.Shape() && InSpace(t) && |t| >= 2 && Resident(c, t[0])
    requires forall s | 0 <= s < SLOTS :: c.ages[s] == 0xffff
    ensures c1.Shape() && c1.tags == c.tags && forall s | 0 <= s < SLOTS :: c1.ages[s] == 0
    ensures InSpace(t[1..]) && Play(c, t) == Play(c1, t[1..])
  {
    c1 := Touch(c, t[0], false).cache;
    assert t == [t[0]] + t[1..];
    assert Front([t[0]]) == [] && End([t[0]]) == t[0];
    PlayConcat(c, [t[0]], t[1..]);
    assert Play(c, []) == Done(c);
  }

  // ---------------------------------------------------------------- attempts in the system

  lemma {:induction false} StoreSameBoard(c: Cache, c': Cache, store: M.Store)
    requires SameBoard(c, c') && M.StoreFits(store)
    ensures SameBoard(StoreTo(c, store), StoreTo(c', store))
  {
    hide Slot, Victim;
  }

  /** An instruction that misses once. */
  lemma {:induction false} MissedOnce(s: Sys) returns (r: Sys)
    requires Inv(s) && Ready(s)
    requires var (c, t) := (s.cache, Footprint(s)); Play(c, t).Missed? && Play(Retry(c, t), t).Done?
    ensures r == Run(s, 3) && Completed(s, 3) == 1 && Inv(r) && !r.waiting && Flat(r) == M.Step(Flat(s))
    ensures M.StoreFits(M.Execute(Current(s), s.cpu, Flat(s).mem).store)
    ensures SameBoard(StoreTo(Play(Retry(s.cache, Footprint(s)), Footprint(s)).cache,
                              M.Execute(Current(s), s.cpu, Flat(s).mem).store), r.cache)
  {
    hide Footprint, Play, Retry, Step, M.Step, M.Execute, StoreTo, Completes, M.StoreFits, Logical, Parse, M.Defined, Sound;
    var t := Footprint(s);
    AttemptAndExchange(s);
    var r2 := Run(s, 2);
    NothingYet(s, r2);
    PlaySameBoard(Retry(s.cache, t), r2.cache, t);
    r := FinishedAtOnce(r2);
    assert Run(s, 3) == Step(Run(s, 2)) && Completed(s, 3) == Completed(s, 2) + 1 by {
      AtOnceCompletes(r2);
    }
    StoreSameBoard(Play(Retry(s.cache, t), t).cache, Play(r2.cache, t).cache,
                   M.Execute(Current(s), s.cpu, Flat(s).mem).store);
  }

  lemma AtOnceCompletes(s: Sys)
    requires Inv(s) && Ready(s) && Play(s.cache, Footprint(s)).Done?
    ensures Completes(s)
  {
  }

  lemma {:induction false} NothingYet(s: Sys, r: Sys)
    requires Inv(s) && r == Run(s, 2) && Completed(s, 2) == 0
    ensures Inv(r) && Flat(r) == Flat(s) && r.cpu == s.cpu && Current(r) == Current(s)
  {
    hide Run, Completed, Step, Logical, Parse;
    RunRefines(s, 2);
  }

  // ---------------------------------------------------------------- what the instructions look up

  /** Code in line `l`, then one data byte. */
  predicate IsLoad(t: seq<nat>, l: Addr, a: Addr) {
    InSpace(t) && 3 <= |t| <= 50 && End(t) == a && forall m | 0 <= m < |t| - 1 :: Line(t[m]) == l
  }

  /** Code only. */
  predicate IsHop(t: seq<nat>, l: Addr) {
    InSpace(t) && 1 <= |t| <= 50 && forall m | 0 <= m < |t| :: Line(t[m]) == l
  }

  /** Code, a data byte at index `j`, code, and another data byte. */
  predicate IsCopy(t: seq<nat>, l: Addr, d: Addr, a: Addr, j: nat) {
    && InSpace(t) && 1 <= j < |t| - 2 && |t| <= 50 && t[j] == d && End(t) == a
    && forall m | 0 <= m < |t| - 1 && m != j :: Line(t[m]) == l
  }

  /** Code in line `l`. */
  predicate CodeIn(ins: Instruction, cpu: M.Cpu, l: Addr) {
    M.Defined(ins, cpu) && Line(CodeStart(cpu)) == l == Line(CodeEnd(ins, cpu))
  }

  lemma WithinLine(t: seq<nat>, lo: nat, hi: nat, m: nat)
    requires InSpace(t) && m < |t| && lo <= t[m] <= hi < USABLE && Line(lo) == Line(hi)
    ensures Line(t[m]) == Line(lo)
  {
    BetweenLines(t[m], lo, hi);
  }

  /** A load looks up code in its line, and its data last. */
  lemma LoadLooksUp(ins: Instruction, cpu: M.Cpu, l: Addr, a: Addr)
    requires CodeIn(ins, cpu, l) && ins.body == Mov(Reg(1, 0), MemImm(1, a))
    ensures IsLoad(M.Touches(ins, cpu), l, a)
  {
    M.TouchesBelow(ins, cpu);
    CodeIsShort(ins, cpu);
    var e := FootprintShape(ins, cpu);
    var h, x, y := LoadParts(ins, cpu, a);
    var t, lo, hi := M.Touches(ins, cpu), CodeStart(cpu), CodeEnd(ins, cpu);
    hide M.Touches, M.Defined, CodeStart, CodeEnd, Line;
    forall m | 0 <= m < |t| - 1 ensures Line(t[m]) == l {
      if m < |h| {
        assert t[m] == h[m];
      } else if m < |h| + |x| {
        assert t[m] == x[m - |h|];
      } else {
        assert t[m] == y[m - |h| - |x|];
      }
      WithinLine(t, lo, hi, m);
    }
  }

  lemma LoadParts(ins: Instruction, cpu: M.Cpu, a: Addr) returns (h: seq<nat>, x: seq<nat>, y: seq<nat>)
    requires M.Defined(ins, cpu) && ins.body == Mov(Reg(1, 0), MemImm(1, a))
    ensures M.Touches(ins, cpu) == h + (x + y) && h != [] && x != [] && |y| >= 2 && End(y) == a
    ensures var (lo, hi) := (CodeStart(cpu), CodeEnd(ins, cpu));
      Within(h, lo, hi) && Within(x, lo, hi) && CodeBut(y, -1, lo, hi)
  {
    hide M.OperandTouches, M.OperandsTouches, M.Touches, HeaderTouches, CodeBut, Within;
    var ops, p := Operands(ins.body), cpu.pos + 13 + PrefixLength(ins.body);
    var q := p + OperandLength(ops[0]);
    h, x, y := HeaderTouches(ins, cpu), M.OperandTouches(ops[0], p, cpu.regs), M.OperandTouches(ops[1], q, cpu.regs);
    BothOperands(ops, p, cpu.regs);
    assert CodeStart(cpu) <= p / 8 && (q + OperandLength(ops[1])) / 8 <= CodeEnd(ins, cpu);
    HeaderCode(ins, cpu);
    HeaderThenOperands(ins, cpu);
    SecondOperandHasCode(ops[1], q, cpu.regs);
    OperandCode(ops[0], p, cpu.regs, CodeStart(cpu), CodeEnd(ins, cpu));
    OperandCode(ops[1], q, cpu.regs, CodeStart(cpu), CodeEnd(ins, cpu));
  }

  /** A relative jump looks up only code. */
  lemma HopLooksUp(ins: Instruction, cpu: M.Cpu, l: Addr)
    requires CodeIn(ins, cpu, l) && Operands(ins.body) == []
    ensures IsHop(M.Touches(ins, cpu), l)
  {
    M.TouchesBelow(ins, cpu);
    CodeIsShort(ins, cpu);
    var e := FootprintShape(ins, cpu);
    RegisterCode(ins, cpu);
    var t, lo, hi := M.Touches(ins, cpu), CodeStart(cpu), CodeEnd(ins, cpu);
    hide M.Touches, M.Defined, CodeStart, CodeEnd, Line;
    forall m | 0 <= m < |t| ensures Line(t[m]) == l {
      WithinLine(t, lo, hi, m);
    }
  }

  /** A copy looks up code, the first place, code again, and the second place. */
  lemma CopyLooksUp(ins: Instruction, cpu: M.Cpu, l: Addr, d: Addr, a: Addr) returns (j: nat)
    requires CodeIn(ins, cpu, l) && ins.body == Mov(MemImm(1, d), MemImm(1, a))
    ensures IsCopy(M.Touches(ins, cpu), l, d, a, j)
  {
    M.TouchesBelow(ins, cpu);
    CodeIsShort(ins, cpu);
    var e := FootprintShape(ins, cpu);
    var h, x, y := MemoryParts(ins, cpu);
    var t, lo, hi := M.Touches(ins, cpu), CodeStart(cpu), CodeEnd(ins, cpu);
    j := PartsInLine(t, h, x, y, lo, hi, d, a);
  }

  lemma PartsInLine(t: seq<nat>, h: seq<nat>, x: seq<nat>, y: seq<nat>, lo: nat, hi: nat, d: Addr, a: Addr)
    returns (j: nat)
    requires InSpace(t) && |t| <= 50 && t == h + (x + y) && h != [] && x != [] && |y| >= 2
    requires Within(h, lo, hi) && CodeBut(x, -1, lo, hi) && CodeBut(y, -1, lo, hi)
    requires End(x) == d && End(y) == a && hi < USABLE && lo < USABLE && Line(lo) == Line(hi)
    ensures IsCopy(t, Line(lo), d, a, j)
  {
    hide Line;
    j := |h| + |x| - 1;
    var l := Line(lo);
    forall m | 0 <= m < |t| - 1 && m != j ensures Line(t[m]) == l {
      if m < |h| {
        assert t[m] == h[m];
      } else if m < j {
        assert t[m] == x[m - |h|];
      } else {
        assert t[m] == y[m - |h| - |x|];
      }
      WithinLine(t, lo, hi, m);
    }
  }

  // ---------------------------------------------------------------- what the instructions do

  lemma LoadRuns(f: M.State, a: Addr)
    requires |f.mem| == MEMORY && |f.cpu.regs| == M.REGISTERS && f.cpu.pos < 0x1000
    requires Parse(f.mem, f.cpu.pos) == Always(Mov(Reg(1, 0), MemImm(1, a))) && a < 0x1000 && a % LINE != 15
    ensures M.Runs(f) && M.Execute(Parse(f.mem, f.cpu.pos), f.cpu, f.mem).store == M.NoStore
    ensures M.Step(f).mem == f.mem && M.Step(f).cpu.pos == f.cpu.pos + 41 && |M.Step(f).cpu.regs| == M.REGISTERS
  {
    hide Parse, M.Raw, M.Merge, M.Touches;
    var ins := Parse(f.mem, f.cpu.pos);
    TwoOperandsOf(ins.body);
    M.StoreWasRead(ins, f.cpu, f.mem);
  }

  lemma TwoOperandsOf(body: Body)
    requires body.Mov?
    ensures OperandsLength(Operands(body)) == OperandLength(body.dst) + OperandLength(body.src)
  {
    assert Operands(body)[1..] == [body.src] && [body.src][1..] == [];
  }

  lemma HopRuns(f: M.State, bytes: nat, bits: nat)
    requires |f.mem| == MEMORY && |f.cpu.regs| == M.REGISTERS && f.cpu.pos < 0x1000
    requires Parse(f.mem, f.cpu.pos) == Always(Jump(5, bytes, bits, Relative)) && 0 < bytes < 32 && bits < 8
    ensures M.Runs(f) && M.Execute(Parse(f.mem, f.cpu.pos), f.cpu, f.mem).store == M.NoStore
    ensures M.Step(f).mem == f.mem && M.Step(f).cpu.pos == f.cpu.pos + 22 + 8 * bytes + bits
    ensures |M.Step(f).cpu.regs| == M.REGISTERS
  {
    hide Parse, M.Touches, M.JumpFrom;
    M.RelativeJumpMovesExactly(f.cpu.pos + 22, bytes, bits);
  }

  lemma CopyRuns(f: M.State, d: Addr, a: Addr)
    requires |f.mem| == MEMORY && |f.cpu.regs| == M.REGISTERS && f.cpu.pos < 0x1000
    requires Parse(f.mem, f.cpu.pos) == Always(Mov(MemImm(1, d), MemImm(1, a)))
    requires a < 0x1000 && a % LINE != 15 && d < 0x1000 && d % LINE != 15
    ensures M.Runs(f)
    ensures var store := M.Execute(Parse(f.mem, f.cpu.pos), f.cpu, f.mem).store;
      store.Store? && store.addr == d && |store.bytes| == 2 && M.Step(f).mem == Splice(f.mem, d, store.bytes)
    ensures M.Step(f).cpu.pos == f.cpu.pos + 55 && |M.Step(f).cpu.regs| == M.REGISTERS
  {
    hide Parse, M.Raw, M.Touches, Splice;
    var ins := Parse(f.mem, f.cpu.pos);
    TwoOperandsOf(ins.body);
    M.StoreWasRead(ins, f.cpu, f.mem);
  }

  // ---------------------------------------------------------------- the boards, one after the other

  const BOARD_0: seq<Addr> := [0, 0xfff2, 0xfff3, 0xfff4, 0xfff5]
  const BOARD_1: seq<Addr> := [0, 0xfff2, 0x30, 0xfff4, 0xfff5]
  const BOARD_2: seq<Addr> := [0, 0xfff2, 0x30, 0xfff4, 0x40]
  const BOARD_3: seq<Addr> := [0, 0xfff2, 0x30, 0x10, 0x40]
  const BOARD_4: seq<Addr> := [0, 0x20, 0x30, 0x10, 0x40]
  const BOARD_5: seq<Addr> := [0, 0x21, 0x30, 0x10, 0x40]
  const BOARD_6: seq<Addr> := [0x50, 0x21, 0x30, 0x10, 0x40]

  predicate Young(c: Cache, bound: nat)
    requires c.Shape()
  {
    forall s | 0 <= s < SLOTS :: c.ages[s] <= bound
  }

  /** Slots 1, 3 and 4 are equally old, and older than the others. */
  predicate Old134(c: Cache)
    requires c.Shape()
  {
    c.ages[1] == c.ages[3] == c.ages[4] > c.ages[0] && c.ages[1] > c.ages[2]
  }

  predicate Old13(c: Cache)
    requires c.Shape()
  {
    c.ages[1] == c.ages[3] > c.ages[0] && c.ages[1] > c.ages[2] && c.ages[1] > c.ages[4]
  }

  predicate Old1(c: Cache)
    requires c.Shape()
  {
    c.ages[1] > c.ages[0] && c.ages[1] > c.ages[2] && c.ages[1] > c.ages[3] && c.ages[1] > c.ages[4]
  }

  lemma Bases()
    ensures Base(0) == 0 && Base(0xfff2) == Base(0xfff3) == 0xfff2 && Base(0xfff4) == Base(0xfff5) == 0xfff4
    ensures Line(0x30) == 0x30 && Line(0x40) == 0x40 && Line(0x50) == 0x50 && Line(0x60) == 0x60
  {
  }

  lemma Reaches()
    ensures Reach(BOARD_0) == 2 && Reach(BOARD_1) == 4 && Reach(BOARD_2) == 4 && Reach(BOARD_3) == 4 && Reach(BOARD_5) == 1
  {
    assert FirstDirty(BOARD_0) == 2 && FirstDirty(BOARD_1) == 4 && FirstDirty(BOARD_5) == 1;
  }

  /** The cache after an attempt that misses and another that does not. */
  ghost predicate Ends(c: Cache, t: seq<nat>, r: Cache)
    requires c.Shape() && InSpace(t)
  {
    Play(c, t).Missed? && Play(Retry(c, t), t) == Done(r)
  }

  lemma {:induction false} FirstMiss(c: Cache, t: seq<nat>)
    requires c.Shape() && Sound(c.tags) && c.tags == BOARD_0 && IsLoad(t, 0, 0x30)
    requires forall s | 0 <= s < SLOTS :: c.ages[s] == 0xffff
    ensures Play(c, t).Missed?
    ensures var m := Retry(c, t);
      && m.tags == BOARD_1 && Sound(m.tags) && m.ages[0] == 1 && m.ages[2] == 0
      && m.ages[1] == m.ages[3] == m.ages[4] == |t| - 1
  {
    hide Sound, Play, IsLoad, Retry, Resident, Line, End;
    InSlotZero(c, t);
    RestOfLoad(t);
    var c1 := FirstLookUp(c, t);
    MissOfYoung(c1, t[1..]);
    SameRetry(c, t, c1, t[1..]);
    MissStaysSound(c, t);
  }

  lemma RestOfLoad(t: seq<nat>)
    requires IsLoad(t, 0, 0x30)
    ensures InSpace(t) && 3 <= |t| <= 50 && End(t[1..]) == 0x30 && forall m | 0 <= m < |t| - 2 :: Line(t[1..][m]) == 0
  {
  }

  lemma InSlotZero(c: Cache, t: seq<nat>)
    requires c.Shape() && c.tags == BOARD_0 && IsLoad(t, 0, 0x30)
    ensures Resident(c, t[0])
  {
    assert Base(c.tags[0]) == Line(t[0]);
  }

  lemma {:induction false} SameRetry(c: Cache, t: seq<nat>, c1: Cache, u: seq<nat>)
    requires c.Shape() && c1.Shape() && InSpace(t) && InSpace(u) && Play(c, t) == Play(c1, u) && Play(c, t).Missed?
    ensures Retry(c, t) == Retry(c1, u)
  {
    hide Play;
  }

  lemma {:induction false} MissOfYoung(c: Cache, u: seq<nat>)
    requires c.Shape() && Sound(c.tags) && c.tags == BOARD_0 && InSpace(u) && 2 <= |u| <= 49 && End(u) == 0x30
    requires (forall m | 0 <= m < |u| - 1 :: Line(u[m]) == 0) && forall s | 0 <= s < SLOTS :: c.ages[s] == 0
    ensures Play(c, u).Missed?
    ensures var m := Retry(c, u);
      m.tags == BOARD_1 && m.ages[0] == 1 && m.ages[2] == 0 && m.ages[1] == m.ages[3] == m.ages[4] == |u|
  {
    hide Sound, Play, Base, Line, Reach;
    Reaches();
    Bases();
    MissAfterHits(c, u, |u| - 1, 0, 2);
  }

  lemma {:induction false} FirstLoad(c: Cache, t: seq<nat>) returns (r: Cache)
    requires c.Shape() && Sound(c.tags) && c.tags == BOARD_0 && IsLoad(t, 0, 0x30)
    requires forall s | 0 <= s < SLOTS :: c.ages[s] == 0xffff
    ensures Ends(c, t, r) && r.tags == BOARD_1 && Old134(r) && Young(r, 100)
  {
    hide Sound, Play;
    FirstMiss(c, t);
    var m := Retry(c, t);
    hide Retry;
    HitsThenOther(m, t, 0, 2);
    r := Play(m, t).cache;
  }

  lemma {:induction false} SecondLoad(c: Cache, t: seq<nat>) returns (r: Cache)
    requires c.Shape() && Sound(c.tags) && c.tags == BOARD_1 && IsLoad(t, 0, 0x40) && Old134(c) && Young(c, 100)
    ensures Ends(c, t, r) && r.tags == BOARD_2 && Old13(r) && Young(r, 200)
  {
    hide Sound, Play;
    Reaches();
    DataMissed(c, t, 0, 4);
    r := Play(Retry(c, t), t).cache;
  }

  lemma {:induction false} FirstHop(c: Cache, t: seq<nat>) returns (r: Cache)
    requires c.Shape() && Sound(c.tags) && c.tags == BOARD_2 && IsHop(t, 0) && Old13(c) && Young(c, 200)
    ensures Play(c, t) == Done(r) && r.tags == BOARD_2 && Old13(r) && Young(r, 250)
  {
    hide Sound, Play;
    HitsInSlot(c, t, |t|, 0);
    assert t[..|t|] == t;
    r := Play(c, t).cache;
  }

  lemma {:induction false} SecondHop(c: Cache, t: seq<nat>) returns (r: Cache)
    requires c.Shape() && Sound(c.tags) && c.tags == BOARD_2 && IsHop(t, 0x10) && Old13(c) && Young(c, 250)
    ensures Ends(c, t, r) && r.tags == BOARD_3 && Old1(r) && Young(r, 301)
  {
    hide Sound, Play;
    Reaches();
    CodeMissed(c, t, 3);
    r := Play(Retry(c, t), t).cache;
  }

  lemma {:induction false} OwnLineStore(c: Cache, t: seq<nat>) returns (r: Cache)
    requires c.Shape() && Sound(c.tags) && c.tags == BOARD_3 && IsHop(t, 0x20) && Old1(c) && Young(c, 301)
    ensures Ends(c, t, r) && r.tags == BOARD_4 && Young(r, 352)
  {
    hide Sound, Play;
    Reaches();
    CodeMissed(c, t, 1);
    r := Play(Retry(c, t), t).cache;
  }

  lemma OwnSlot()
    ensures Slot(BOARD_4, 0x2e) == 1 && Mark(0x20) == 0x21
  {
    assert Base(0) == 0 && Base(0x20) == 0x20 && Line(0x2e) == 0x20;
  }

  lemma {:induction false} OwnLineDirty(c: Cache, store: M.Store)
    requires c.Shape() && c.tags == BOARD_4 && Young(c, 352) && M.StoreFits(store) && store.Store? && store.addr == 0x2e
    ensures StoreTo(c, store).tags == BOARD_5 && Young(StoreTo(c, store), 353)
  {
    OwnSlot();
    hide Slot, Mark, Splice, Victim;
  }

  /** The copy misses its first place, and slot 0 goes: that is the trap. */
  lemma {:induction false} CopyTraps(c: Cache, t: seq<nat>, j: nat) returns (r: Cache)
    requires c.Shape() && Sound(c.tags) && c.tags == BOARD_5 && Young(c, 353)
    requires IsCopy(t, 0x20, 0x50, 0x60, j)
    ensures Play(c, t).Missed? && r == Retry(c, t) && Young(r, 404)
    ensures Pattern(t, 0x20, 0, j, j + 1, |t| - 1) && Trap(r, t, 0x20, 0x50, 0x60)
  {
    hide Sound, Play;
    Reaches();
    MissAfterHits(c, t, j, 1, 0);
    MissStaysSound(c, t);
    r := Retry(c, t);
    assert r.tags == BOARD_6;
    assert Line(t[j]) == 0x50 && Line(End(t)) == 0x60;
  }

  // ---------------------------------------------------------------- the run

  /** Where the system stands between two instructions. */
  ghost predicate Stands(s: Sys, mem: seq<Byte>, pos: nat, tags: seq<Addr>) {
    Inv(s) && !s.waiting && s.cpu.pos == pos && Flat(s).mem == mem && s.cache.tags == tags
  }

  lemma StandsCoherent(s: Sys, mem: seq<Byte>, pos: nat, tags: seq<Addr>)
    requires Stands(s, mem, pos, tags)
    ensures Inv(s) && !s.waiting && s.cpu.pos == pos && s.cache.tags == tags
    ensures s.cache.Shape() && Sound(s.cache.tags) && Flat(s) == M.State(s.cpu, mem) && |mem| == MEMORY
    ensures |s.cpu.regs| == M.REGISTERS && Current(s) == Parse(mem, pos)
  {
  }

  /** These bits, and the one after them, lie in line `l`. */
  predicate OneLine(pos: nat, length: nat, l: Addr) {
    l < 0x100 && l % LINE == 0 && 8 * l <= pos && pos + length < 8 * (l + LINE)
  }

  lemma OneLineIsCode(ins: Instruction, cpu: M.Cpu, length: nat, l: Addr)
    requires M.Defined(ins, cpu) && Length(ins) == length && OneLine(cpu.pos, length, l)
    ensures CodeIn(ins, cpu, l)
  {
    hide M.Defined, Line;
    LineOf(cpu.pos / 8, l);
    LineOf((cpu.pos + length) / 8, l);
  }

  lemma ReadyFrom(s: Sys, mem: seq<Byte>, pos: nat, tags: seq<Addr>)
    requires Stands(s, mem, pos, tags) && M.Runs(M.State(s.cpu, mem))
    ensures Ready(s) && M.Defined(Current(s), s.cpu) && Footprint(s) == M.Touches(Current(s), s.cpu)
  {
    hide Parse, M.Defined, Logical, Coherent;
  }

  lemma LoadIsReady(s: Sys, mem: seq<Byte>, pos: nat, tags: seq<Addr>, l: Addr, a: Addr)
    requires Stands(s, mem, pos, tags) && OneLine(pos, 41, l) && a < 0x1000 && a % LINE != 15
    requires Parse(mem, pos) == Always(Mov(Reg(1, 0), MemImm(1, a)))
    ensures Inv(s) && Ready(s) && IsLoad(Footprint(s), l, a)
    ensures M.Execute(Current(s), s.cpu, Flat(s).mem).store == M.NoStore
    ensures M.Step(Flat(s)).mem == mem && M.Step(Flat(s)).cpu.pos == pos + 41
  {
    hide Stands, Parse, M.Runs, M.Defined, M.Execute, M.Step, M.Touches, Footprint, Ready, Inv, Flat, Current, Line, OneLine,
      CodeIn, IsLoad, IsHop, IsCopy, Splice;
    StandsCoherent(s, mem, pos, tags);
    OneLineIsLow(pos, 41, l);
    LoadRuns(M.State(s.cpu, mem), a);
    ReadyFrom(s, mem, pos, tags);
    TwoOperandsOf(Current(s).body);
    OneLineIsCode(Current(s), s.cpu, 41, l);
    LoadLooksUp(Current(s), s.cpu, l, a);
  }

  lemma OneLineIsLow(pos: nat, length: nat, l: Addr)
    requires OneLine(pos, length, l)
    ensures pos < 0x1000
  {
  }

  lemma HopIsReady(s: Sys, mem: seq<Byte>, pos: nat, tags: seq<Addr>, l: Addr, bytes: nat, bits: nat)
    requires Stands(s, mem, pos, tags) && OneLine(pos, 22, l) && 0 < bytes < 32 && bits < 8
    requires Parse(mem, pos) == Always(Jump(5, bytes, bits, Relative))
    ensures Inv(s) && Ready(s) && IsHop(Footprint(s), l)
    ensures M.Execute(Current(s), s.cpu, Flat(s).mem).store == M.NoStore
    ensures M.Step(Flat(s)).mem == mem && M.Step(Flat(s)).cpu.pos == pos + 22 + 8 * bytes + bits
  {
    hide Stands, Parse, M.Runs, M.Defined, M.Execute, M.Step, M.Touches, Footprint, Ready, Inv, Flat, Current, Line, OneLine,
      CodeIn, IsLoad, IsHop, IsCopy, Splice;
    StandsCoherent(s, mem, pos, tags);
    OneLineIsLow(pos, 22, l);
    HopRuns(M.State(s.cpu, mem), bytes, bits);
    ReadyFrom(s, mem, pos, tags);
    OneLineIsCode(Current(s), s.cpu, 22, l);
    HopLooksUp(Current(s), s.cpu, l);
  }

  lemma CopyIsReady(s: Sys, mem: seq<Byte>, pos: nat, tags: seq<Addr>, l: Addr, d: Addr, a: Addr) returns (j: nat)
    requires Stands(s, mem, pos, tags) && OneLine(pos, 55, l)
    requires a < 0x1000 && a % LINE != 15 && d < 0x1000 && d % LINE != 15
    requires Parse(mem, pos) == Always(Mov(MemImm(1, d), MemImm(1, a)))
    ensures Inv(s) && Ready(s) && IsCopy(Footprint(s), l, d, a, j)
    ensures var store := M.Execute(Current(s), s.cpu, Flat(s).mem).store;
      && store.Store? && store.addr == d && |store.bytes| == 2 && |mem| == MEMORY
      && M.Step(Flat(s)).mem == Splice(mem, d, store.bytes)
    ensures M.Step(Flat(s)).cpu.pos == pos + 55
  {
    hide Stands, Parse, M.Runs, M.Defined, M.Execute, M.Step, M.Touches, Footprint, Ready, Inv, Flat, Current, Line, OneLine,
      CodeIn, IsLoad, IsHop, IsCopy, Splice;
    StandsCoherent(s, mem, pos, tags);
    OneLineIsLow(pos, 55, l);
    CopyRuns(M.State(s.cpu, mem), d, a);
    ReadyFrom(s, mem, pos, tags);
    TwoOperandsOf(Current(s).body);
    OneLineIsCode(Current(s), s.cpu, 55, l);
    j := CopyLooksUp(Current(s), s.cpu, l, d, a);
  }

  lemma Lines()
    ensures OneLine(0, 41, 0) && OneLine(41, 41, 0) && OneLine(82, 22, 0) && OneLine(128, 22, 0x10)
    ensures OneLine(256, 55, 0x20) && OneLine(311, 55, 0x20)
  {
  }

  /** A system is left on the board that the cache ends with. */
  lemma LeftOn(s: Sys, r: Sys, c: Cache, mem: seq<Byte>, pos: nat, tags: seq<Addr>)
    requires Inv(r) && !r.waiting && SameBoard(c, r.cache) && c.tags == tags
    requires Flat(r).mem == mem && Flat(r).cpu.pos == pos
    ensures Stands(r, mem, pos, tags) && r.cache.ages == c.ages
  {
  }

  lemma AfterLoad(s: Sys, mem: seq<Byte>) returns (r: Sys)
    requires Holds(mem) && Stands(s, mem, 0, BOARD_0) && s.cache.Shape()
    requires forall i | 0 <= i < SLOTS :: s.cache.ages[i] == 0xffff
    ensures Inv(s) && r == Run(s, 3) && Completed(s, 3) == 1
    ensures Stands(r, mem, 41, BOARD_1) && r.cache.Shape() && Old134(r.cache) && Young(r.cache, 100)
  {
    hide Parse, M.Execute, M.Step, Footprint, IsLoad, OneLine, Play, Retry, Inv, Ready, Flat, Current, HoldsAt, Sound;
    StandsCoherent(s, mem, 0, BOARD_0);
    Lines();
    LoadIsReady(s, mem, 0, BOARD_0, 0, 0x30);
    var c := FirstLoad(s.cache, Footprint(s));
    r := MissedOnce(s);
    LeftOn(s, r, c, mem, 41, BOARD_1);
  }

  lemma AfterLoadAgain(s: Sys, mem: seq<Byte>) returns (r: Sys)
    requires Holds(mem) && Stands(s, mem, 41, BOARD_1) && s.cache.Shape() && Old134(s.cache) && Young(s.cache, 100)
    ensures Inv(s) && r == Run(s, 3) && Completed(s, 3) == 1
    ensures Stands(r, mem, 82, BOARD_2) && r.cache.Shape() && Old13(r.cache) && Young(r.cache, 200)
  {
    hide Parse, M.Execute, M.Step, Footprint, IsLoad, OneLine, Play, Retry, Inv, Ready, Flat, Current, HoldsAt, Sound;
    StandsCoherent(s, mem, 41, BOARD_1);
    Lines();
    LoadIsReady(s, mem, 41, BOARD_1, 0, 0x40);
    var c := SecondLoad(s.cache, Footprint(s));
    r := MissedOnce(s);
    LeftOn(s, r, c, mem, 82, BOARD_2);
  }

  lemma {:induction false} AfterHop(s: Sys, mem: seq<Byte>) returns (r: Sys)
    requires Holds(mem) && Stands(s, mem, 82, BOARD_2) && s.cache.Shape() && Old13(s.cache) && Young(s.cache, 200)
    ensures Inv(s) && r == Run(s, 1) && Completed(s, 1) == 1
    ensures Stands(r, mem, 128, BOARD_2) && r.cache.Shape() && Old13(r.cache) && Young(r.cache, 250)
  {
    hide Parse, M.Execute, M.Step, Footprint, IsHop, OneLine, Play, Inv, Ready, Flat, Current, HoldsAt, Sound, Step,
      Completes;
    StandsCoherent(s, mem, 82, BOARD_2);
    Lines();
    HopIsReady(s, mem, 82, BOARD_2, 0, 3, 0);
    var c := FirstHop(s.cache, Footprint(s));
    r := FinishedAtOnce(s);
    OneStep(s);
    LeftOn(s, r, c, mem, 128, BOARD_2);
  }

  lemma AfterHopAgain(s: Sys, mem: seq<Byte>) returns (r: Sys)
    requires Holds(mem) && Stands(s, mem, 128, BOARD_2) && s.cache.Shape() && Old13(s.cache) && Young(s.cache, 250)
    ensures Inv(s) && r == Run(s, 3) && Completed(s, 3) == 1
    ensures Stands(r, mem, 256, BOARD_3) && r.cache.Shape() && Old1(r.cache) && Young(r.cache, 301)
  {
    hide Parse, M.Execute, M.Step, Footprint, IsHop, OneLine, Play, Retry, Inv, Ready, Flat, Current, HoldsAt, Sound;
    StandsCoherent(s, mem, 128, BOARD_2);
    Lines();
    HopIsReady(s, mem, 128, BOARD_2, 0x10, 13, 2);
    var c := SecondHop(s.cache, Footprint(s));
    r := MissedOnce(s);
    LeftOn(s, r, c, mem, 256, BOARD_3);
  }

  lemma OwnLineOnly(t: seq<nat>, j: nat)
    requires IsCopy(t, 0x20, 0x2e, 0x2e, j)
    ensures IsHop(t, 0x20)
  {
    assert Line(0x2e) == 0x20;
  }

  lemma {:induction false} CopySurvives(mem: seq<Byte>, bytes: seq<Byte>)
    requires |mem| == MEMORY && |bytes| == 2 && HoldsAt(mem, 311, Encode(COPY))
    ensures Parse(Splice(mem, 0x2e, bytes), 311) == COPY
  {
    hide Parse, Encode, ByteBit;
    Lengths();
    AllEncodable();
    var after := Splice(mem, 0x2e, bytes);
    forall p | 311 <= p < 366 ensures BitAt(after, p) == BitAt(mem, p) {
      assert p / 8 < 0x2e;
    }
    ParseIff(after, 311, COPY);
  }

  lemma AfterOwnLine(s: Sys, mem: seq<Byte>) returns (r: Sys, after: seq<Byte>)
    requires Holds(mem) && Stands(s, mem, 256, BOARD_3) && s.cache.Shape() && Old1(s.cache) && Young(s.cache, 301)
    ensures Inv(s) && r == Run(s, 3) && Completed(s, 3) == 1 && Parse(after, 311) == COPY
    ensures Stands(r, after, 311, BOARD_5) && r.cache.Shape() && Young(r.cache, 353)
  {
    hide Parse, M.Execute, M.Step, Footprint, IsHop, IsCopy, OneLine, Play, Retry, Inv, Ready, Flat, Current, HoldsAt,
      Sound, Encode, StoreTo, M.StoreFits;
    StandsCoherent(s, mem, 256, BOARD_3);
    Lines();
    var j := CopyIsReady(s, mem, 256, BOARD_3, 0x20, 0x2e, 0x2e);
    OwnLineOnly(Footprint(s), j);
    var c := OwnLineStore(s.cache, Footprint(s));
    r := MissedOnce(s);
    var store := M.Execute(Current(s), s.cpu, Flat(s).mem).store;
    after := Splice(mem, 0x2e, store.bytes);
    CopySurvives(mem, store.bytes);
    OwnLineDirty(c, store);
    LeftOn(s, r, StoreTo(c, store), after, 311, BOARD_5);
  }

  /** What the trap is, for a system whose next instruction is the copy. */
  ghost predicate InTrap(s: Sys) {
    && Inv(s) && Ready(s) && Current(s) == COPY && Young(s.cache, 404)
    && Trap(s.cache, Footprint(s), 0x20, 0x50, 0x60) && |Footprint(s)| <= 50
    && exists j: nat :: IsCopy(Footprint(s), 0x20, 0x50, 0x60, j)
  }

  lemma {:induction false} AfterCopyMissed(s: Sys, mem: seq<Byte>) returns (r: Sys)
    requires Stands(s, mem, 311, BOARD_5) && s.cache.Shape() && Young(s.cache, 353) && Parse(mem, 311) == COPY
    ensures Inv(s) && r == Run(s, 2) && Completed(s, 2) == 0 && InTrap(r)
    ensures M.Runs(Flat(s)) && M.Step(Flat(s)).cpu.pos == 366
  {
    hide Parse, M.Execute, M.Step, Footprint, IsCopy, OneLine, Play, Retry, Inv, Flat, HoldsAt, Sound, Step,
      Completes, Pattern, Trap, Run, Completed;
    StandsCoherent(s, mem, 311, BOARD_5);
    Lines();
    var j := CopyIsReady(s, mem, 311, BOARD_5, 0x20, 0x50, 0x60);
    var t := Footprint(s);
    var c := CopyTraps(s.cache, t, j);
    AttemptAndExchange(s);
    r := Run(s, 2);
    NothingYet(s, r);
    SameTrap(c, r.cache, t);
    CopyIsShort(t, j);
  }

  lemma CopyIsShort(t: seq<nat>, j: nat)
    requires IsCopy(t, 0x20, 0x50, 0x60, j)
    ensures |t| <= 50
  {
  }

  lemma SameTrap(c: Cache, c': Cache, t: seq<nat>)
    requires SameBoard(c, c') && Trap(c, t, 0x20, 0x50, 0x60) && Young(c, 404)
    ensures Trap(c', t, 0x20, 0x50, 0x60) && Young(c', 404)
  {
  }

  // ---------------------------------------------------------------- stuck

  lemma {:induction false} StuckFor(s: Sys, c: Cache, t: seq<nat>, n: nat)
    requires Inv(s) && Ready(s) && Footprint(s) == t && SameBoard(c, s.cache)
    requires forall k | 0 <= k < n :: Play(Retries(c, t, k), t).Missed?
    ensures Completed(s, 2 * n) == 0
    decreases n
  {
    hide Play, Ready, Inv, Footprint, Run, Completed, Retry;
    if n == 0 {
      NoneAtFirst(s);
    } else {
      PlaySameBoard(c, s.cache, t);
      assert Retries(c, t, 0) == c;
      AttemptAndExchange(s);
      BoardAfterRetry(c, s.cache, t);
      forall k | 0 <= k < n - 1 ensures Play(Retries(Retry(c, t), t, k), t).Missed? {
        RetriesFromFront(c, t, k);
        assert Play(Retries(c, t, k + 1), t).Missed?;
      }
      StuckFor(Run(s, 2), Retry(c, t), t, n - 1);
      RunOnward(s, 2, 2 * (n - 1));
    }
  }

  lemma {:induction false} NoneAtFirst(s: Sys)
    requires Inv(s)
    ensures Completed(s, 0) == 0
  {
    hide Inv;
  }

  lemma {:induction false} TrappedFor(s: Sys, n: nat)
    requires InTrap(s) && n <= 1000
    ensures Completed(s, 2 * n) == 0
  {
    var t, c := Footprint(s), s.cache;
    var j: nat :| IsCopy(t, 0x20, 0x50, 0x60, j);
    hide Footprint, Inv, Ready, Trap, Play, IsCopy, Completed, Retries, Young;
    TrapIsShaped(c, t);
    forall k | 0 <= k < n ensures Play(Retries(c, t, k), t).Missed? {
      TrappedOnce(c, t, j, k);
    }
    StuckFor(s, c, t, n);
  }

  lemma TrapIsShaped(c: Cache, t: seq<nat>)
    requires Trap(c, t, 0x20, 0x50, 0x60)
    ensures c.Shape() && InSpace(t)
  {
  }

  lemma {:induction false} TrappedOnce(c: Cache, t: seq<nat>, j: nat, k: nat)
    requires c.Shape() && Trap(c, t, 0x20, 0x50, 0x60) && IsCopy(t, 0x20, 0x50, 0x60, j) && Young(c, 404) && k < 1000
    ensures Play(Retries(c, t, k), t).Missed?
  {
    CopyIsShort(t, j);
    CopyPattern(t, j);
    hide Trap, Play, Pattern, IsCopy, Line, Retries;
    TimesBound(k + 1, |t|);
    assert Room(c, Times(k + 1, |t|));
    TrapLasts(c, t, 0x20, 0, j, j + 1, |t| - 1, k);
  }

  lemma CopyPattern(t: seq<nat>, j: nat)
    requires IsCopy(t, 0x20, 0x50, 0x60, j)
    ensures InSpace(t) && 1 <= j < |t| - 2 && Pattern(t, 0x20, 0, j, j + 1, |t| - 1)
    ensures Line(t[j]) == 0x50 && Line(t[|t| - 1]) == 0x60
  {
    assert Line(0x50) == 0x50 && Line(0x60) == 0x60;
  }

  /** The state after the client has sent the first line. */
  lemma {:induction false} AfterFirstLine(data: seq<Byte>, ram: seq<Byte>, regs: seq<Word>, flags: Word) returns (r: Sys)
    requires |data| == BUFFERS && |ram| == MEMORY && |regs| == M.REGISTERS
    ensures var s := Boot(data, ram, regs, flags);
      Inv(s) && r == Run(s, 1) && Completed(s, 1) == 0 && Flat(s) == M.State(M.Cpu(regs, flags, 0), ram)
    ensures Stands(r, ram, 0, BOARD_0) && r.cache.Shape() && forall i | 0 <= i < SLOTS :: r.cache.ages[i] == 0xffff
  {
    var s := Boot(data, ram, regs, flags);
    BootIsCoherent(data, ram, regs, flags);
    StepRefines(s);
    WaitingStep(s);
    r := Step(s);
    FirstStep(s, r);
    FirstBoard(data, ram, regs, flags, r.cache);
    hide Step, Logical, Coherent, Completes;
  }

  lemma FirstBoard(data: seq<Byte>, ram: seq<Byte>, regs: seq<Word>, flags: Word, c: Cache)
    requires c.Shape()
    requires var before := Boot(data, ram, regs, flags).cache;
      before.Shape() && c.ages == before.ages && c.tags == before.tags[before.victim := Line(before.miss)]
    ensures c.tags == BOARD_0 && forall i | 0 <= i < SLOTS :: c.ages[i] == 0xffff
  {
    assert Line(0) == 0;
  }

  /** The five instructions before the copy. */
  lemma {:induction false} FiveInstructions(s: Sys, s1: Sys, ram: seq<Byte>) returns (r: Sys, mem: seq<Byte>)
    requires Inv(s) && s1 == Run(s, 1) && Completed(s, 1) == 0 && Holds(ram)
    requires Stands(s1, ram, 0, BOARD_0) && s1.cache.Shape() && forall i | 0 <= i < SLOTS :: s1.cache.ages[i] == 0xffff
    ensures r == Run(s, 14) && Completed(s, 14) == 5 && Parse(mem, 311) == COPY
    ensures Stands(r, mem, 311, BOARD_5) && r.cache.Shape() && Young(r.cache, 353)
  {
    hide *;
    var s2 := AfterLoad(s1, ram);
    RunOnward(s, 1, 3);
    var s3 := AfterLoadAgain(s2, ram);
    RunOnward(s, 4, 3);
    var s4 := AfterHop(s3, ram);
    RunOnward(s, 7, 1);
    var s5 := AfterHopAgain(s4, ram);
    RunOnward(s, 8, 3);
    r, mem := AfterOwnLine(s5, ram);
    RunOnward(s, 11, 3);
  }

  /** A livelock that is reached from the start: after 16 steps five instructions are
      finished and the copy is in the trap; a thousand retries later it still is,
      although on flat memory it is finished in one step. */
  lemma {:induction false} LivelockFromStart(data: seq<Byte>, regs: seq<Word>, flags: Word) returns (ram: seq<Byte>)
    requires |data| == BUFFERS && |regs| == M.REGISTERS
    ensures |ram| == MEMORY
    ensures var s := Boot(data, ram, regs, flags);
      && Inv(s) && InTrap(Run(s, 16)) && Completed(s, 16) == 5 && Completed(s, 2016) == 5
      && M.Steps(Flat(s), 6).cpu.pos == M.Steps(Flat(s), 5).cpu.pos + 55
  {
    hide *;
    ram := MemoryOf(Code());
    CodeIsWhole();
    MemoryHolds(Code());
    CodeHolds(ram);
    var s := Boot(data, ram, regs, flags);
    var s1 := AfterFirstLine(data, ram, regs, flags);
    var r, mem := FiveInstructions(s, s1, ram);
    StandsCoherent(r, mem, 311, BOARD_5);
    var trapped := AfterCopyMissed(r, mem);
    RunOnward(s, 14, 2);
    TrappedFor(trapped, 1000);
    RunOnward(s, 16, 2000);
    RunRefines(s, 14);
    SixthStep(Flat(s), Flat(r));
  }

  lemma CodeIsWhole()
    ensures |Code()| % 8 == 0 && |Code()| <= 8 * M.MEMORY && M.MEMORY == MEMORY
  {
    hide Code;
    Lengths();
  }

  lemma {:induction false} SixthStep(f: M.State, g: M.State)
    requires g == M.Steps(f, 5)
    ensures M.Steps(f, 6) == M.Step(g)
  {
    hide M.Step;
  }
}
