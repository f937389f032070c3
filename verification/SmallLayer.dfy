/** A layer in miniature, run from the start: it says that it has an answer, jumps out
    of its first line, and ends as every layer ends.  Its answer reaches the client. */
module SmallLayer {
  import opened Words
  import opened Bitstream
  import opened Instructions
  import opened Encoding
  import opened LineCache
  import opened Paging
  import opened Progress
  import opened Livelock
  import opened Footprints
  import Client
  import Flush
  import Liveness
  import M = Machine
  import Stretch
  import T = Trapped
  import Tail

  // ---------------------------------------------------------------- the program

  const FLAG: Addr := 0x8000
  const FILLERS := 45

  const ANSWER := T.Always(Mov(MemImm(1, FLAG), Imm(1, 0xdead)))
  const HOP := T.Always(Jump(5, 6, 5, Relative))
  const FILLER := T.Always(Mov(Reg(1, 0), Imm(1, 0xaa)))
  const HOME := T.Always(Jump(7, 0, 0, Absolute(Imm(1, 0))))

  function Fillers(n: nat): (bits: seq<Bit>) {
    if n == 0 then [] else Encode(FILLER) + Fillers(n - 1)
  }

  function Ending(): seq<Bit> {
    Fillers(FILLERS) + (Encode(HOME) + T.Zeros(4))
  }

  function Code(): seq<Bit> {
    Encode(ANSWER) + (Encode(HOP) + (T.Zeros(53) + Ending()))
  }

  lemma Lengths()
    ensures |Encode(ANSWER)| == 53 && |Encode(HOP)| == 22 && |Encode(FILLER)| == 39 && |Encode(HOME)| == 41
  {
    hide Encode;
    EncodedLength(ANSWER);
    EncodedLength(HOP);
    EncodedLength(FILLER);
    EncodedLength(HOME);
  }

  lemma {:induction false} FillersLength(n: nat)
    ensures |Fillers(n)| == 39 * n
  {
    hide Encode;
    Lengths();
    if n > 0 {
      FillersLength(n - 1);
    }
  }

  lemma AllEncodable()
    ensures InstructionEncodable(ANSWER) && InstructionEncodable(HOP)
    ensures InstructionEncodable(FILLER) && InstructionEncodable(HOME)
  {
  }

  lemma CodeIsWhole()
    ensures |Ending()| == 1800 && |Code()| == 1928 && |Code()| % 8 == 0 && |Code()| <= 8 * M.MEMORY
  {
    hide Encode, Fillers;
    Lengths();
    FillersLength(FILLERS);
  }

  lemma {:induction false} FillersRead(mem: seq<Byte>, p: nat, n: nat, i: nat)
    requires HoldsAt(mem, p, Fillers(n)) && i < n
    ensures Parse(mem, p + 39 * i) == FILLER
    decreases n
  {
    hide HoldsAt, Encode, Parse, InstructionEncodable;
    Lengths();
    AllEncodable();
    HoldsParts(mem, p, Encode(FILLER), Fillers(n - 1));
    if i == 0 {
      ParseIff(mem, p, FILLER);
    } else {
      FillersRead(mem, p + 39, n - 1, i - 1);
      assert p + 39 + 39 * (i - 1) == p + 39 * i;
    }
  }

  /** The ending is the end of a layer. */
  lemma EndingEnds(mem: seq<Byte>)
    requires |mem| == MEMORY && HoldsAt(mem, 128, Ending())
    ensures Tail.EndsAt(mem, 128, FILLERS)
  {
    hide HoldsAt, Encode, Parse, InstructionEncodable, Fillers, T.Zeros;
    Lengths();
    AllEncodable();
    FillersLength(FILLERS);
    HoldsParts(mem, 128, Fillers(FILLERS), Encode(HOME) + T.Zeros(4));
    HoldsParts(mem, 128 + 39 * FILLERS, Encode(HOME), T.Zeros(4));
    forall i: nat | i < FILLERS ensures Tail.IsFiller(Parse(mem, 128 + 39 * i)) {
      FillersRead(mem, 128, FILLERS, i);
    }
    ParseIff(mem, 128 + 39 * FILLERS, HOME);
  }

  /** What the memory says, also after the answer. */
  ghost predicate Holds(mem: seq<Byte>) {
    |mem| == MEMORY && Parse(mem, 0) == ANSWER && Parse(mem, 53) == HOP && HoldsAt(mem, 128, Ending())
  }

  lemma CodeHolds(mem: seq<Byte>)
    requires |mem| == MEMORY && HoldsAt(mem, 0, Code())
    ensures Holds(mem)
  {
    hide HoldsAt, Encode, Parse, InstructionEncodable, Ending, T.Zeros;
    Lengths();
    AllEncodable();
    HoldsParts(mem, 0, Encode(ANSWER), Encode(HOP) + (T.Zeros(53) + Ending()));
    HoldsParts(mem, 53, Encode(HOP), T.Zeros(53) + Ending());
    HoldsParts(mem, 75, T.Zeros(53), Ending());
    ParseIff(mem, 0, ANSWER);
    ParseIff(mem, 53, HOP);
  }

  lemma SameBits(mem: seq<Byte>, mem': seq<Byte>, p: nat, bits: seq<Bit>)
    requires |mem| == |mem'| == MEMORY && forall k | 0 <= k < FLAG :: mem[k] == mem'[k]
    requires HoldsAt(mem, p, bits) && p + |bits| <= 8 * FLAG
    ensures HoldsAt(mem', p, bits)
  {
    hide ByteBit;
    forall i | 0 <= i < |bits| ensures BitAt(mem', p + i) == bits[i] {
      assert BitAt(mem, p + i) == bits[i] && (p + i) / 8 < FLAG;
    }
  }

  /** The answer leaves the code alone. */
  lemma StillHolds(mem: seq<Byte>, bytes: seq<Byte>)
    requires Holds(mem) && |bytes| == 2
    ensures Holds(Splice(mem, FLAG, bytes))
  {
    var after := Splice(mem, FLAG, bytes);
    hide HoldsAt, Encode, Parse, InstructionEncodable, Ending, Splice;
    Lengths();
    AllEncodable();
    CodeIsWhole();
    ParseIff(mem, 0, ANSWER);
    ParseIff(mem, 53, HOP);
    SameBits(mem, after, 0, Encode(ANSWER));
    SameBits(mem, after, 53, Encode(HOP));
    SameBits(mem, after, 128, Ending());
    ParseIff(after, 0, ANSWER);
    ParseIff(after, 53, HOP);
  }

  // ---------------------------------------------------------------- the answer

  /** Code in line 0, but for the flag at index `j`. */
  predicate IsAnswer(t: seq<nat>, j: nat) {
    && InSpace(t) && 2 <= j < |t| <= 50 && t[j] == FLAG
    && forall m | 0 <= m < |t| && m != j :: Line(t[m]) == 0
  }

  function WordOf(v: Addr): Word {
    v as Word
  }

  lemma AnswerRuns(f: M.State)
    requires |f.mem| == MEMORY && |f.cpu.regs| == M.REGISTERS && f.cpu.pos == 0 && Parse(f.mem, 0) == ANSWER
    ensures M.Runs(f) && M.Execute(Parse(f.mem, f.cpu.pos), f.cpu, f.mem).store == M.Store(FLAG, [0xad, 0xde])
    ensures M.Step(f) == M.State(f.cpu.(pos := 53), Splice(f.mem, FLAG, [0xad, 0xde]))
  {
    hide Parse, M.Touches, M.Defined, M.Execute, Splice;
    AnswerDefined(f.cpu);
    AnswerExecutes(f.cpu, f.mem);
  }

  lemma AnswerDefined(cpu: M.Cpu)
    requires |cpu.regs| == M.REGISTERS && cpu.pos == 0
    ensures M.Defined(ANSWER, cpu) && Length(ANSWER) == 53 && Operands(ANSWER.body) == [MemImm(1, FLAG), Imm(1, 0xdead)]
  {
    T.TwoOperandsOf(ANSWER.body);
  }

  lemma AnswerExecutes(cpu: M.Cpu, mem: seq<Byte>)
    requires |cpu.regs| == M.REGISTERS && M.Defined(ANSWER, cpu) && |mem| == MEMORY && cpu.pos == 0
    ensures M.Execute(ANSWER, cpu, mem) == M.Effect(M.Store(FLAG, [0xad, 0xde]), cpu.(pos := 53))
  {
    hide *;
    AnswerDefined(cpu);
    ExecutesAs(cpu, mem);
    AnswerComputes(cpu, mem);
    AnswerFinishes(cpu);
    AnswerBytes();
  }

  lemma ExecutesAs(cpu: M.Cpu, mem: seq<Byte>)
    requires M.Defined(ANSWER, cpu) && |mem| == MEMORY
    ensures !ANSWER.body.Jump? && M.OperandDefined(MemImm(1, FLAG), cpu.regs) && M.OperandEncoded(MemImm(1, FLAG))
    ensures M.Execute(ANSWER, cpu, mem) ==
      M.Finish(ANSWER, MemImm(1, FLAG), cpu, M.Compute(ANSWER, cpu, mem).flags, M.Compute(ANSWER, cpu, mem).value)
  {
    hide M.Compute, M.Finish;
  }

  lemma AnswerComputes(cpu: M.Cpu, mem: seq<Byte>)
    requires |cpu.regs| == M.REGISTERS && M.Defined(ANSWER, cpu) && |mem| == MEMORY
    ensures !ANSWER.body.Jump? && M.Compute(ANSWER, cpu, mem) == M.Result(WordOf(0xdead), cpu.flags)
  {
    hide *;
    AnswerBody();
    MovComputes(ANSWER, cpu, mem);
    ImmediateValue(0xdead, cpu.regs, mem);
  }

  lemma AnswerBody()
    ensures ANSWER.Instruction? && ANSWER.body.Mov? && ANSWER.body.src == Imm(1, 0xdead)
  {
  }

  lemma MovComputes(ins: Instruction, cpu: M.Cpu, mem: seq<Byte>)
    requires M.Defined(ins, cpu) && |mem| == MEMORY && ins.body.Mov?
    ensures M.OperandDefined(ins.body.src, cpu.regs) && M.OperandEncoded(ins.body.src)
    ensures M.Compute(ins, cpu, mem) == M.Result(M.Value(ins.body.src, cpu.regs, mem), cpu.flags)
  {
    hide M.Value, M.OperandDefined, M.OperandEncoded;
    assert Operands(ins.body)[1] == ins.body.src;
  }

  lemma ImmediateValue(v: Addr, regs: seq<Word>, mem: seq<Byte>)
    requires |regs| == M.REGISTERS && |mem| == MEMORY
    ensures M.Value(Imm(1, v), regs, mem) == WordOf(v)
  {
  }

  lemma AnswerFinishes(cpu: M.Cpu)
    requires M.Defined(ANSWER, cpu) && cpu.pos == 0 && Length(ANSWER) == 53
    requires M.OperandDefined(MemImm(1, FLAG), cpu.regs) && M.OperandEncoded(MemImm(1, FLAG))
    ensures M.Finish(ANSWER, MemImm(1, FLAG), cpu, cpu.flags, WordOf(0xdead)) ==
      M.Effect(M.Store(FLAG, M.Bytes(WordOf(0xdead), 1)), cpu.(pos := 53))
  {
    hide M.Defined, M.Bytes, M.Nibble, Length, WordOf;
  }

  lemma AnswerBytes()
    ensures M.Bytes(WordOf(0xdead), 1) == [0xad, 0xde]
  {
  }

  lemma AnswerLooksUp(cpu: M.Cpu) returns (j: nat)
    requires M.Defined(ANSWER, cpu) && cpu.pos == 0
    ensures IsAnswer(M.Touches(ANSWER, cpu), j)
  {
    M.TouchesBelow(ANSWER, cpu);
    AnswerDefined(cpu);
    var e := FootprintShape(ANSWER, cpu);
    var h, x, y := AnswerParts(cpu);
    var t := M.Touches(ANSWER, cpu);
    j := |h| + |x| - 1;
    hide M.Touches, M.Defined, Length, Operands;
    forall m | 0 <= m < |t| && m != j ensures 0 <= t[m] <= 6 {
      if m < |h| {
        assert t[m] == h[m];
      } else if m < j {
        assert t[m] == x[m - |h|];
      } else {
        assert t[m] == y[m - |h| - |x|];
      }
    }
    assert t[j] == x[|x| - 1];
    InFirstLine(t, j);
  }

  lemma InFirstLine(t: seq<nat>, j: nat)
    requires InSpace(t) && forall m | 0 <= m < |t| && m != j :: t[m] <= 6
    ensures forall m | 0 <= m < |t| && m != j :: Line(t[m]) == 0
  {
  }

  lemma AnswerParts(cpu: M.Cpu) returns (h: seq<nat>, x: seq<nat>, y: seq<nat>)
    requires M.Defined(ANSWER, cpu) && cpu.pos == 0
    ensures M.Touches(ANSWER, cpu) == h + (x + y) && h != [] && |x| >= 2 && y != [] && x[|x| - 1] == FLAG
    ensures Within(h, 0, 6) && CodeBut(x, -1, 0, 6) && Within(y, 0, 6)
  {
    AnswerDefined(cpu);
    hide M.OperandTouches, M.OperandsTouches, M.Touches, HeaderTouches, CodeBut, Within;
    var ops, p := Operands(ANSWER.body), cpu.pos + 13 + PrefixLength(ANSWER.body);
    var q := p + OperandLength(ops[0]);
    h, x, y := HeaderTouches(ANSWER, cpu), M.OperandTouches(ops[0], p, cpu.regs), M.OperandTouches(ops[1], q, cpu.regs);
    BothOperands(ops, p, cpu.regs);
    HeaderCode(ANSWER, cpu);
    HeaderThenOperands(ANSWER, cpu);
    SecondOperandHasCode(ops[0], p, cpu.regs);
    OperandCode(ops[0], p, cpu.regs, 0, 6);
    OperandCode(ops[1], q, cpu.regs, 0, 6);
  }

  // ---------------------------------------------------------------- the cache

  const BOARD_1: seq<Addr> := [0, 0xfff2, 0x8000, 0xfff4, 0xfff5]
  const BOARD_2: seq<Addr> := [0, 0xfff2, 0x8001, 0xfff4, 0xfff5]

  /** The first attempt misses the flag, and slot 2 goes. */
  lemma {:induction false} FlagMissed(c: Cache, t: seq<nat>, j: nat)
    requires c.Shape() && Sound(c.tags) && c.tags == T.BOARD_0 && IsAnswer(t, j)
    requires forall s | 0 <= s < SLOTS :: c.ages[s] == 0xffff
    ensures Play(c, t).Missed?
    ensures var m := Retry(c, t); m.tags == BOARD_1 && Sound(m.tags) && T.Young(m, 50)
  {
    hide Sound, Play, Retry, Resident, Line;
    FirstIsZero(c, t, j);
    var c1 := T.FirstLookUp(c, t);
    FlagMissedYoung(c1, t[1..], j - 1);
    T.SameRetry(c, t, c1, t[1..]);
    T.MissStaysSound(c, t);
  }

  lemma FirstIsZero(c: Cache, t: seq<nat>, j: nat)
    requires c.Shape() && c.tags == T.BOARD_0 && IsAnswer(t, j)
    ensures Resident(c, t[0]) && InSpace(t[1..]) && IsAnswerRest(t[1..], j - 1)
  {
    assert Base(c.tags[0]) == Line(t[0]);
  }

  predicate IsAnswerRest(u: seq<nat>, n: nat) {
    InSpace(u) && 1 <= n < |u| <= 49 && u[n] == FLAG && forall m | 0 <= m < n :: Line(u[m]) == 0
  }

  lemma {:induction false} FlagMissedYoung(c: Cache, u: seq<nat>, n: nat)
    requires c.Shape() && Sound(c.tags) && c.tags == T.BOARD_0 && IsAnswerRest(u, n)
    requires forall s | 0 <= s < SLOTS :: c.ages[s] == 0
    ensures Play(c, u).Missed?
    ensures var m := Retry(c, u); m.tags == BOARD_1 && T.Young(m, 50)
  {
    hide Sound, Play, Base, Line, Reach;
    T.Reaches();
    T.Bases();
    FlagLine();
    T.MissAfterHits(c, u, n, 0, 2);
  }

  lemma FlagLine()
    ensures Line(FLAG) == FLAG && Base(FLAG) == FLAG && Mark(FLAG) == 0x8001 && Base(0x8001) == FLAG
  {
  }

  /** The second attempt finds everything. */
  lemma {:induction false} FlagFound(c: Cache, t: seq<nat>, j: nat)
    requires c.Shape() && Sound(c.tags) && c.tags == BOARD_1 && IsAnswer(t, j) && T.Young(c, 50)
    ensures Play(c, t).Done?
    ensures var r := Play(c, t).cache; r.tags == BOARD_1 && T.Young(r, 100)
  {
    hide Play, Sound, Line, Prefix, AgeAfter, Slot, IsAnswer;
    FlagSlots(c, t, j);
    PrefixReaches(c.tags, t, |t|);
    HitAges(c, t, |t|);
    assert t[..|t|] == t;
    forall s | 0 <= s < SLOTS ensures AgeAfter(c, t, |t|, s) <= 100 {
      Stretch.OldOrYoung(c, t, s);
    }
  }

  lemma FlagSlots(c: Cache, t: seq<nat>, j: nat)
    requires c.Shape() && c.tags == BOARD_1 && IsAnswer(t, j) && T.Young(c, 50)
    ensures |t| <= 50 && InSpace(t) && Room(c, |t|) && forall m | 0 <= m < |t| :: Slot(c.tags, t[m]) < SLOTS
  {
    hide Line, Slot, Base;
    T.Bases();
    FlagLine();
    forall m | 0 <= m < |t| ensures Slot(c.tags, t[m]) < SLOTS {
      FoundAt(c.tags, t[m], if m == j then 2 else 0);
    }
  }

  lemma {:induction false} FoundAt(tags: seq<Addr>, a: Addr, s: nat)
    requires |tags| == SLOTS && s < SLOTS && Base(tags[s]) == Line(a)
    ensures Slot(tags, a) < SLOTS
  {
    hide Slot, Base, Line;
  }

  /** Storing marks the line. */
  lemma {:induction false} FlagStored(c: Cache, store: M.Store)
    requires c.Shape() && c.tags == BOARD_1 && T.Young(c, 100) && M.StoreFits(store) && store.Store? && store.addr == FLAG
    ensures StoreTo(c, store).tags == BOARD_2 && T.Young(StoreTo(c, store), 101)
  {
    FlagSlot(c.tags);
    hide Slot, Mark, Splice, Victim;
  }

  lemma {:induction false} FlagSlot(tags: seq<Addr>)
    requires tags == BOARD_1
    ensures Slot(tags, FLAG) == 2 && Mark(tags[2]) == 0x8001
  {
    FlagLine();
    BoardBases();
    hide Base, Line, Mark, Slot;
    FoundAt(tags, FLAG, 2);
  }

  lemma BoardBases()
    ensures Base(0) == 0 && Base(0xfff2) == 0xfff2 && Base(0xfff4) == Base(0xfff5) == 0xfff4
  {
  }

  lemma {:induction false} HopFound(c: Cache, t: seq<nat>)
    requires c.Shape() && Sound(c.tags) && c.tags == BOARD_2 && T.IsHop(t, 0) && T.Young(c, 101)
    ensures Play(c, t).Done?
    ensures var r := Play(c, t).cache; r.tags == BOARD_2 && T.Young(r, 151)
  {
    hide Sound, Play;
    T.HitsInSlot(c, t, |t|, 0);
    assert t[..|t|] == t;
  }

  // ---------------------------------------------------------------- the run

  const ANSWERED: seq<Byte> := [0xad, 0xde]

  lemma Sizes()
    ensures FILLERS == 45 && |ANSWERED| == 2 && FLAG == 0x8000 && MEMORY == M.MEMORY == 0x1_0000
  {
  }

  lemma AnswerIsReady(s: Sys, mem: seq<Byte>) returns (j: nat)
    requires Holds(mem) && T.Stands(s, mem, 0, T.BOARD_0)
    ensures Inv(s) && Ready(s) && IsAnswer(Footprint(s), j) && M.Defined(Current(s), s.cpu)
    ensures M.Execute(Current(s), s.cpu, Flat(s).mem).store == M.Store(FLAG, ANSWERED)
    ensures M.Step(Flat(s)).mem == Splice(mem, FLAG, ANSWERED) && M.Step(Flat(s)).cpu.pos == 53
  {
    hide T.Stands, Parse, M.Runs, M.Defined, M.Execute, M.Step, M.Touches, Footprint, Ready, Inv, Flat, Current, IsAnswer,
      Splice, HoldsAt;
    T.StandsCoherent(s, mem, 0, T.BOARD_0);
    AnswerRuns(Flat(s));
    T.ReadyFrom(s, mem, 0, T.BOARD_0);
    j := AnswerLooksUp(s.cpu);
  }

  lemma AfterAnswer(s: Sys, mem: seq<Byte>) returns (r: Sys)
    requires Holds(mem) && T.Stands(s, mem, 0, T.BOARD_0) && s.cache.Shape()
    requires forall i | 0 <= i < SLOTS :: s.cache.ages[i] == 0xffff
    ensures Inv(s) && r == Run(s, 3) && Completed(s, 3) == 1 && r.ram == s.ram
    ensures T.Stands(r, Splice(mem, FLAG, ANSWERED), 53, BOARD_2) && r.cache.Shape() && T.Young(r.cache, 101)
  {
    hide *;
    Sizes();
    T.StandsCoherent(s, mem, 0, T.BOARD_0);
    var j := AnswerIsReady(s, mem);
    var t := Footprint(s);
    FlagMissed(s.cache, t, j);
    var c := Retry(s.cache, t);
    FlagFound(c, t, j);
    r := T.MissedOnce(s);
    AttemptAndExchange(s);
    NothingDirty(s.cache);
    RamStays(s, 2);
    var store := M.Execute(Current(s), s.cpu, Flat(s).mem).store;
    FlagStored(Play(c, t).cache, store);
    T.LeftOn(s, r, StoreTo(Play(c, t).cache, store), Splice(mem, FLAG, ANSWERED), 53, BOARD_2);
    SameYoung(StoreTo(Play(c, t).cache, store), r.cache, 101);
  }

  lemma NothingDirty(c: Cache)
    requires c.Shape() && c.tags == T.BOARD_0
    ensures Liveness.DirtyWithin(c, {})
  {
  }

  /** The client's memory only changes by a dirty line. */
  lemma {:induction false} RamStays(s: Sys, k: nat)
    requires Inv(s) && s.cache.Shape() && Liveness.DirtyWithin(s.cache, {}) && Completed(s, k) == 0
    ensures Run(s, k + 1).ram == s.ram
    decreases k
  {
    hide Inv, Step, Completes, Liveness.DirtyWithin;
    Liveness.NoneFinishedDirties(s, {}, k);
    Shaped(Run(s, k));
    RamStaysOnce(Run(s, k));
    if k > 0 {
      RamStays(s, k - 1);
    }
  }

  lemma Shaped(s: Sys)
    requires Inv(s)
    ensures s.cache.Shape()
  {
  }

  lemma RamStaysOnce(s: Sys)
    requires Inv(s) && (s.waiting ==> Liveness.DirtyWithin(s.cache, {}))
    ensures Step(s).ram == s.ram
  {
    hide M.Execute, Footprint, Play, Coherent, M.Runs;
  }

  lemma SameYoung(c: Cache, c': Cache, bound: nat)
    requires SameBoard(c, c') && c.Shape() && T.Young(c, bound)
    ensures c'.Shape() && T.Young(c', bound)
  {
  }

  lemma {:induction false} AfterHop(s: Sys, mem: seq<Byte>) returns (r: Sys)
    requires Holds(mem) && T.Stands(s, mem, 53, BOARD_2) && s.cache.Shape() && T.Young(s.cache, 101)
    ensures Inv(s) && r == Run(s, 1) && Completed(s, 1) == 1 && r.ram == s.ram
    ensures T.Stands(r, mem, 128, BOARD_2) && r.cache.Shape() && T.Young(r.cache, 151)
  {
    hide Parse, M.Execute, M.Step, Footprint, T.IsHop, T.OneLine, Play, Inv, Ready, Flat, Current, HoldsAt, Sound, Step,
      Completes, T.Stands;
    T.StandsCoherent(s, mem, 53, BOARD_2);
    HopInLine();
    T.HopIsReady(s, mem, 53, BOARD_2, 0, 6, 5);
    HopFound(s.cache, Footprint(s));
    r := FinishedAtOnce(s);
    OneStep(s);
    RamStaysOnce(s);
    T.LeftOn(s, r, Play(s.cache, Footprint(s)).cache, mem, 128, BOARD_2);
  }

  lemma HopInLine()
    ensures T.OneLine(53, 22, 0)
  {
  }

  lemma EndingThere(mem: seq<Byte>)
    requires Holds(mem)
    ensures |mem| == MEMORY && Tail.EndsAt(mem, 128, FILLERS)
  {
    hide HoldsAt, Parse, Tail.EndsAt;
    EndingEnds(mem);
  }

  lemma StandsReady(s: Sys, mem: seq<Byte>)
    requires T.Stands(s, mem, 128, BOARD_2) && Holds(mem)
    ensures Inv(s) && Ready(s)
  {
    hide *;
    Sizes();
    T.StandsCoherent(s, mem, 128, BOARD_2);
    EndingThere(mem);
    Tail.AtFiller(Flat(s), FILLERS, 0);
    Tail.NoSteps(Flat(s));
    ReadyIf(s);
  }

  lemma ReadyIf(s: Sys)
    requires Inv(s) && !s.waiting && Tail.RegisterOnly(Flat(s))
    ensures Ready(s)
  {
    hide M.Runs, Logical, Coherent;
  }

  lemma CodeAway(s: Sys)
    requires Inv(s) && Ready(s) && s.cpu.pos == 128 && s.cache.tags == BOARD_2
    ensures CodeIsClean(s)
  {
    hide Logical, Coherent, Parse;
    forall i, a: Addr | 0 <= i < SLOTS && Dirty(s.cache.tags[i]) && InUse(s.cache.tags[i])
      && CodeStart(s.cpu) <= a <= CodeEnd(Current(s), s.cpu) ensures Line(a) != Base(s.cache.tags[i])
    {
      assert i == 2 && a < 0x100;
    }
  }

  lemma OnlyFlagCached(s: Sys)
    requires Inv(s) && s.cache.tags == BOARD_2
    requires Tail.StartByte(Flat(s), 0) == 16 && Tail.EndByte(Flat(s), FILLERS) == 240
    ensures Tail.Fresh(s, FILLERS + 1)
  {
    hide Logical, Coherent, Tail.StartByte, Tail.EndByte, Lines, Flush.Reads;
    var f := Flat(s);
    forall b | b in Flush.Bases(s.cache.tags) ensures b == 0 || b >= 0x8000 {
      var i :| 0 <= i < SLOTS && b == Base(s.cache.tags[i]);
    }
  }

  lemma EndBytes(f: M.State)
    requires |f.cpu.regs| == M.REGISTERS && Tail.EndsAt(f.mem, f.cpu.pos, FILLERS) && f.cpu.pos == 128
    ensures Tail.StartByte(f, 0) == 16 && Tail.EndByte(f, FILLERS) == 240
  {
    hide Tail.EndsAt, M.Steps, Tail.PosAfter, Tail.RegisterOnly;
    Tail.NoSteps(f);
    Tail.AtWayHome(f, FILLERS);
  }

  lemma HomeRuns(f: M.State, mem: seq<Byte>)
    requires Holds(mem) && f.mem == mem && f.cpu.pos == 0 && |f.cpu.regs| == M.REGISTERS
    ensures M.Runs(f)
  {
    hide HoldsAt, Parse, M.Step, M.Execute, M.Runs;
    AnswerRuns(f);
  }

  lemma RoomEnough(c: Cache)
    requires c.Shape() && T.Young(c, 151)
    ensures Room(c, 50 * (FILLERS + 15))
  {
  }

  /** What the theorem asks of the state before the fillers. */
  lemma BeforeTheEnd(s: Sys, mem: seq<Byte>)
    requires Holds(mem) && T.Stands(s, mem, 128, BOARD_2) && s.cache.Shape() && T.Young(s.cache, 151)
    ensures Inv(s) && Ready(s) && CodeIsClean(s) && Tail.EndsAt(Flat(s).mem, s.cpu.pos, FILLERS)
    ensures Tail.Fresh(s, FILLERS + 1) && Room(s.cache, 50 * (FILLERS + 15)) && M.Runs(M.Steps(Flat(s), FILLERS + 1))
  {
    hide *;
    Sizes();
    T.StandsCoherent(s, mem, 128, BOARD_2);
    EndingThere(mem);
    StandsReady(s, mem);
    CodeAway(s);
    EndBytes(Flat(s));
    OnlyFlagCached(s);
    RoomEnough(s.cache);
    Tail.AtWayHome(Flat(s), FILLERS);
    HomeRuns(M.Steps(Flat(s), FILLERS + 1), mem);
  }

  /** From the start, whatever the registers and flags hold: after five steps the
      answer is given, in a dirty line, and the client's memory is still as it was;
      when the machine gets back to address 0 the client has it, and sees address 0
      missing. */
  lemma {:induction false} AnswerArrives(data: seq<Byte>, regs: seq<Word>, flags: Word) returns (ram: seq<Byte>, k: nat)
    requires |data| == BUFFERS && |regs| == M.REGISTERS
    ensures |ram| == MEMORY && !Client.FlagSet(ram) && Client.FlagSet(Splice(ram, FLAG, ANSWERED))
    ensures var s := Boot(data, ram, regs, flags);
      && Inv(s) && Completed(s, 5) == 2 && Run(s, 5).cache.tags == BOARD_2 && Run(s, 5).ram == ram
      && Completed(s, k) == FILLERS + 3 && Run(s, k).waiting && Run(s, k).cache.miss == 0
      && WriteBack(Run(s, k).cache, Run(s, k).ram) == Splice(ram, FLAG, ANSWERED)
  {
    hide *;
    Sizes();
    ram := MemoryOf(Code());
    CodeIsWhole();
    MemoryHolds(Code());
    CodeHolds(ram);
    NoAnswerYet(ram);
    var s := Boot(data, ram, regs, flags);
    var s1 := T.AfterFirstLine(data, ram, regs, flags);
    var s2 := AfterAnswer(s1, ram);
    RunOnward(s, 1, 3);
    var mem := Splice(ram, FLAG, ANSWERED);
    StillHolds(ram, ANSWERED);
    var s3 := AfterHop(s2, mem);
    RunOnward(s, 4, 1);
    FirstRam(data, ram, regs, flags);
    T.StandsCoherent(s3, mem, 128, BOARD_2);
    BeforeTheEnd(s3, mem);
    var more := Tail.EndFlushes(s3, FILLERS);
    RunOnward(s, 5, more);
    k := 5 + more;
  }

  lemma {:induction false} FirstRam(data: seq<Byte>, ram: seq<Byte>, regs: seq<Word>, flags: Word)
    requires |data| == BUFFERS && |ram| == MEMORY && |regs| == M.REGISTERS
    ensures var s := Boot(data, ram, regs, flags); Inv(s) && Run(s, 1).ram == ram
  {
    var s := Boot(data, ram, regs, flags);
    BootIsCoherent(data, ram, regs, flags);
    hide Logical, Coherent, Step, Completes;
    Liveness.FirstStep(s, Step(s));
    RamStaysOnce(s);
  }

  lemma NoAnswerYet(ram: seq<Byte>)
    requires ram == MemoryOf(Code()) && |Code()| == 1928
    ensures |ram| == MEMORY && !Client.FlagSet(ram) && Client.FlagSet(Splice(ram, FLAG, ANSWERED))
  {
    hide Code, ByteOf, Splice;
    var after := Splice(ram, FLAG, ANSWERED);
    assert after[FLAG] == 0xad;
  }
}
