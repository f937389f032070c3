/** The end of a layer: straight-line code over registers and constants, in lines that
    have not been used before, and a jump to address 0.  It brings everything back to
    the client, which then sees address 0 missing. */
module Tail {
  import opened Words
  import opened Instructions
  import opened LineCache
  import opened Paging
  import opened Progress
  import opened Livelock
  import opened Footprints
  import opened Liveness
  import opened Flush
  import opened Stretch
  import B = Bitstream
  import M = Machine

  // ---------------------------------------------------------------- straight-line register code

  function Next(f: M.State): Instruction {
    Parse(f.mem, f.cpu.pos)
  }

  /** The next instruction has a meaning, and no operand in memory. */
  predicate RegisterOnly(f: M.State) {
    M.Runs(f) && forall i | 0 <= i < |Operands(Next(f).body)| :: !M.IsMemory(Operands(Next(f).body)[i])
  }

  function PosAfter(f: M.State): nat {
    f.cpu.pos + Length(Next(f))
  }

  /** `n` such instructions, each behind the one before; the last may jump. */
  ghost predicate Straight(f: M.State, n: nat) {
    && (forall j: nat | j < n :: RegisterOnly(M.Steps(f, j)))
    && (forall j: nat | j + 1 < n :: M.Steps(f, j + 1).cpu.pos == PosAfter(M.Steps(f, j)))
  }

  /** The byte that instruction `j` starts in, and the last one it may look at. */
  function StartByte(f: M.State, j: nat): nat {
    M.Steps(f, j).cpu.pos / 8
  }

  function EndByte(f: M.State, j: nat): nat {
    PosAfter(M.Steps(f, j)) / 8
  }

  lemma Bytes(f: M.State)
    requires M.Runs(f)
    ensures f.cpu.pos / 8 <= PosAfter(f) / 8 <= f.cpu.pos / 8 + 10 && PosAfter(f) / 8 < USABLE
    ensures CodeStart(f.cpu) == f.cpu.pos / 8 && CodeEnd(Next(f), f.cpu) == PosAfter(f) / 8
  {
    hide Parse, M.BodyDefined, M.BodyEncoded;
  }

  lemma {:induction false} StraightBytes(f: M.State, n: nat, i: nat, j: nat)
    requires Straight(f, n) && i <= j < n
    ensures StartByte(f, i) <= StartByte(f, j) && EndByte(f, i) <= EndByte(f, j) < USABLE
    ensures StartByte(f, j) <= EndByte(f, j) <= StartByte(f, j) + 10
    decreases j
  {
    hide M.Step, M.Runs, PosAfter, Length;
    Bytes(M.Steps(f, j));
    if i < j {
      StraightBytes(f, n, i, j - 1);
    }
  }

  /** It reads only its code, the first byte of it among it, and stores nothing. */
  lemma RegisterReads(f: M.State)
    requires RegisterOnly(f)
    ensures CodeOnly(f) && StoresNothing(f) && Line(f.cpu.pos / 8) in Lines(Reads(f))
    ensures forall m | 0 <= m < |Reads(f)| :: f.cpu.pos / 8 <= Reads(f)[m] <= PosAfter(f) / 8
  {
    RegisterCode(Next(f), f.cpu);
    RegisterStoresNothing(Next(f), f.cpu, f.mem);
    Bytes(f);
    FirstRead(f);
    hide Parse, M.Defined, M.Touches, M.Execute, Length, Line;
    LineIn(Reads(f), 0);
  }

  lemma FirstRead(f: M.State)
    requires M.Runs(f)
    ensures Reads(f) != [] && Reads(f)[0] == f.cpu.pos / 8
  {
    var ins := Next(f);
    HeaderThenOperands(ins, f.cpu);
    hide M.Touches, M.Defined, M.OperandsTouches, Operands, PrefixWidths, Parse;
    FirstField(f.cpu.pos);
  }

  lemma {:induction false} FirstField(p: nat)
    ensures B.FieldTouches(p, [1, 8])[..1] == [p / 8]
  {
    assert B.FieldTouches(p, [1, 8]) == B.BitTouches(p, 1) + B.FieldTouches(p + 1, [1, 8][1..]);
  }

  /** Every line from the first instruction's to the last one's is read. */
  lemma {:induction false} EveryLine(f: M.State, n: nat, m: nat, l: Addr)
    requires Straight(f, n) && m < n && l % LINE == 0 && StartByte(f, m) < USABLE
    requires StartByte(f, 0) < l + LINE && l <= StartByte(f, m)
    ensures l in ReadLines(f, m + 1)
    decreases m
  {
    hide *;
    Sizes();
    StraightAt(f, n, m);
    RegisterReads(M.Steps(f, m));
    OneMoreRead(f, m);
    BytesAt(f, m);
    if StartByte(f, m) < l + LINE {
      LineOf(StartByte(f, m), l);
    } else {
      StraightBytes(f, n, m - 1, m - 1);
      StraightStep(f, n, m);
      EveryLine(f, n, m - 1, l);
    }
  }

  lemma Sizes()
    ensures USABLE == 0xfff0 && LINE == 16
  {
  }

  lemma StraightStep(f: M.State, n: nat, m: nat)
    requires Straight(f, n) && 0 < m < n
    ensures StartByte(f, m) == EndByte(f, m - 1)
  {
    hide RegisterOnly, M.Steps, PosAfter;
  }

  /** No line of the code is cached but what the first instruction reads. */
  ghost predicate Fresh(s: Sys, n: nat)
    requires Inv(s) && n > 0
  {
    forall b | b in Bases(s.cache.tags) && b !in Lines(Reads(Flat(s))) ::
      b + LINE <= StartByte(Flat(s), 0) || b > EndByte(Flat(s), n - 1)
  }

  /** The cache meets this if the program does: no instruction so far has read the
      rest of this code, and none of it was cached at the start. */
  lemma {:induction false} FreshIfUnread(s: Sys, k: nat, n: nat)
    requires Inv(s) && !s.waiting && n > 0
    requires var f := Flat(Run(s, k));
      forall b | b in Bases(s.cache.tags) + ReadLines(Flat(s), Completed(s, k)) && b !in Lines(Reads(f)) ::
        b + LINE <= StartByte(f, 0) || b > EndByte(f, n - 1)
    ensures Fresh(Run(s, k), n)
  {
    hide Inv, Flat, Reads, Lines, Bases, StartByte, EndByte, ReadLines, Came, Completed, Run;
    Arrivals(s, k);
    CameToBeRead(s, k);
    RunRefines(s, k);
    OneMoreRead(Flat(s), Completed(s, k));
  }

  /** Code of six lines more than the one that it begins in. */
  ghost predicate SixMore(f: M.State, n: nat) {
    n > 0 && StartByte(f, n - 1) >= StartByte(f, 0) + 7 * LINE
  }

  /** Register code of at least six new lines flushes the cache. */
  lemma {:induction false} StraightIsStretch(s: Sys, n: nat)
    requires Inv(s) && Ready(s) && CodeIsClean(s) && Straight(Flat(s), n) && SixMore(Flat(s), n) && Fresh(s, n)
    requires Room(s.cache, 50 * (n + 14))
    ensures IsStretch(s, n)
  {
    hide *;
    Firstly(Flat(s), n);
    RegisterReads(Flat(s));
    StraightIsQuiet(s, n);
    StraightReadsFive(s, n);
    StretchIf(s, n);
  }

  lemma {:induction false} Firstly(f: M.State, n: nat)
    requires Straight(f, n) && SixMore(f, n)
    ensures n > 0 && RegisterOnly(f) && StartByte(f, 0) == f.cpu.pos / 8 && EndByte(f, 0) == PosAfter(f) / 8
  {
    hide RegisterOnly, PosAfter;
    assert M.Steps(f, 0) == f;
  }

  lemma {:induction false} StretchIf(s: Sys, n: nat)
    requires Inv(s) && Ready(s) && CodeIsClean(s) && CodeOnly(Flat(s)) && n > 0 && Room(s.cache, 50 * (n + 14))
    requires forall j: nat | 1 <= j < n :: QuietCode(M.Steps(Flat(s), j), Early(s))
    requires |ReadLines(Flat(s), n) - Bases(s.cache.tags) - Lines(Reads(Flat(s)))| >= SLOTS
    ensures IsStretch(s, n)
  {
    hide Ready, CodeIsClean, CodeOnly, Room, QuietCode, Early, ReadLines, Bases, Lines, Reads, Flat;
  }

  lemma {:induction false} StraightIsQuiet(s: Sys, n: nat)
    requires Inv(s) && Straight(Flat(s), n) && SixMore(Flat(s), n) && Fresh(s, n)
    ensures forall j: nat | 1 <= j < n :: QuietCode(M.Steps(Flat(s), j), Early(s))
  {
    hide Inv, Flat, M.Step, QuietCode, Early, Fresh, RegisterOnly, SixMore, StartByte, EndByte;
    forall j: nat | 1 <= j < n ensures QuietCode(M.Steps(Flat(s), j), Early(s)) {
      OneIsQuiet(s, n, j);
    }
  }

  lemma {:induction false} OneIsQuiet(s: Sys, n: nat, j: nat)
    requires Inv(s) && Straight(Flat(s), n) && SixMore(Flat(s), n) && Fresh(s, n) && 1 <= j < n
    ensures QuietCode(M.Steps(Flat(s), j), Early(s))
  {
    hide *;
    var f := Flat(s);
    StraightAt(f, n, j);
    StraightBytes(f, n, 0, j);
    StraightBytes(f, n, j, n - 1);
    BytesAt(f, j);
    QuietIf(s, n, M.Steps(f, j));
  }

  lemma {:induction false} StraightAt(f: M.State, n: nat, j: nat)
    requires Straight(f, n) && j < n
    ensures RegisterOnly(M.Steps(f, j))
  {
    hide RegisterOnly, M.Steps, PosAfter;
  }

  lemma {:induction false} BytesAt(f: M.State, j: nat)
    ensures StartByte(f, j) == M.Steps(f, j).cpu.pos / 8 && EndByte(f, j) == PosAfter(M.Steps(f, j)) / 8
  {
    hide M.Steps, PosAfter;
  }

  lemma QuietIf(s: Sys, n: nat, g: M.State)
    requires Inv(s) && n > 0 && Fresh(s, n) && RegisterOnly(g)
    requires StartByte(Flat(s), 0) <= g.cpu.pos / 8 && PosAfter(g) / 8 <= EndByte(Flat(s), n - 1)
    ensures QuietCode(g, Early(s))
  {
    hide Inv, Flat, M.Runs, Lines, Line, Bases, Reads, StoresNothing, CodeOnly, PosAfter, StartByte, EndByte, M.Steps;
    RegisterReads(g);
    forall m | 0 <= m < |Reads(g)| ensures Line(Reads(g)[m]) !in Early(s) {
      NotEarly(Reads(g)[m], StartByte(Flat(s), 0), EndByte(Flat(s), n - 1), Bases(s.cache.tags), Lines(Reads(Flat(s))));
    }
  }

  lemma NotEarly(a: Addr, start: nat, end: nat, cached: set<Addr>, first: set<Addr>)
    requires start <= a <= end
    requires forall b | b in cached && b !in first :: b + LINE <= start || b > end
    ensures Line(a) !in cached - first
  {
    assert Line(a) <= a < Line(a) + LINE;
    hide Line;
  }

  /** Five lines that are neither cached nor the first instruction's. */
  function FiveLines(l: nat): set<nat> {
    {l + 2 * LINE, l + 3 * LINE, l + 4 * LINE, l + 5 * LINE, l + 6 * LINE}
  }

  lemma {:induction false} StraightReadsFive(s: Sys, n: nat)
    requires Inv(s) && Straight(Flat(s), n) && SixMore(Flat(s), n) && Fresh(s, n)
    ensures |ReadLines(Flat(s), n) - Bases(s.cache.tags) - Lines(Reads(Flat(s)))| >= SLOTS
  {
    var f := Flat(s);
    hide *;
    Firstly(f, n);
    StraightBytes(f, n, 0, n - 1);
    StraightAt(f, n, n - 1);
    var l := FirstLine(f, n);
    var five: set<Addr> := set b: Addr | b in FiveLines(l);
    FiveAreFive(l, five);
    forall b | b in five ensures b in ReadLines(f, n) && b !in Bases(s.cache.tags) && b !in Lines(Reads(f)) {
      OneOfFive(s, n, l, b);
    }
    Cardinality(five, ReadLines(f, n) - Bases(s.cache.tags) - Lines(Reads(f)));
  }

  lemma FirstLine(f: M.State, n: nat) returns (l: nat)
    requires SixMore(f, n) && StartByte(f, n - 1) < USABLE
    ensures l % LINE == 0 && l <= StartByte(f, 0) < l + LINE && l + 6 * LINE < USABLE
  {
    l := StartByte(f, 0) - StartByte(f, 0) % LINE;
  }

  lemma FiveAreFive(l: nat, five: set<Addr>)
    requires l + 6 * LINE < 0x1_0000 && five == set b: Addr | b in FiveLines(l)
    ensures |five| == SLOTS
  {
    var a: Addr, b: Addr, c: Addr, d: Addr, e: Addr := l + 2 * LINE, l + 3 * LINE, l + 4 * LINE, l + 5 * LINE, l + 6 * LINE;
    assert five == {a, b, c, d, e};
  }

  lemma {:induction false} OneOfFive(s: Sys, n: nat, l: nat, b: Addr)
    requires Inv(s) && Straight(Flat(s), n) && SixMore(Flat(s), n) && Fresh(s, n) && b in FiveLines(l)
    requires l % LINE == 0 && l <= StartByte(Flat(s), 0) < l + LINE
    ensures b in ReadLines(Flat(s), n) && b !in Bases(s.cache.tags) && b !in Lines(Reads(Flat(s)))
  {
    hide *;
    Sizes();
    var f := Flat(s);
    Firstly(f, n);
    SixMoreMeans(f, n);
    StraightBytes(f, n, 0, 0);
    StraightBytes(f, n, 0, n - 1);
    Between(StartByte(f, 0), StartByte(f, n - 1), l, b);
    EveryLine(f, n, n - 1, b);
    RegisterReads(f);
    NotRead(Reads(f), EndByte(f, 0), l, b);
    NotCached(s, n, b);
  }

  lemma SixMoreMeans(f: M.State, n: nat)
    requires SixMore(f, n)
    ensures n > 0 && StartByte(f, n - 1) >= StartByte(f, 0) + 112 && LINE == 16
  {
    hide StartByte;
  }

  lemma NotCached(s: Sys, n: nat, b: Addr)
    requires Inv(s) && n > 0 && Fresh(s, n) && b !in Lines(Reads(Flat(s)))
    requires b + LINE > StartByte(Flat(s), 0) && b <= EndByte(Flat(s), n - 1)
    ensures b !in Bases(s.cache.tags)
  {
    hide Inv, Flat, Reads, Lines, Bases, StartByte, EndByte;
  }

  lemma Between(start: Addr, last: Addr, l: nat, b: Addr)
    requires l % LINE == 0 && l <= start < l + LINE && b in FiveLines(l) && last >= start + 7 * LINE
    ensures b % LINE == 0 && Line(start) <= b <= Line(last) && b + LINE > start && b <= last
  {
  }

  lemma NotRead(t: seq<nat>, end: nat, l: nat, b: Addr)
    requires InSpace(t) && (forall m | 0 <= m < |t| :: t[m] <= end) && end <= l + 25 && b in FiveLines(l)
    ensures b !in Lines(t)
  {
    forall m | 0 <= m < |t| ensures Line(t[m]) != b {
      assert Line(t[m]) <= t[m];
    }
  }

  // ---------------------------------------------------------------- the end of a layer

  /** `mov r0, 0xaa`, whatever its condition. */
  predicate IsFiller(ins: Instruction) {
    ins.Instruction? && ins.body == Mov(Reg(1, 0), Imm(1, 0xaa))
  }

  /** `jmp 0000:0`, always. */
  predicate IsWayHome(ins: Instruction) {
    ins.Instruction? && ins.body == Jump(7, 0, 0, Absolute(Imm(1, 0))) && M.Code(ins.bank, ins.conds) == 15
  }

  /** How every layer ends: `n` fillers at `p`, and the way back to address 0. */
  ghost predicate EndsAt(mem: seq<Byte>, p: nat, n: nat) {
    && |mem| == MEMORY && 128 <= p && (p + 39 * n + 41) / 8 < USABLE
    && (forall i: nat | i < n :: IsFiller(Parse(mem, p + 39 * i)))
    && IsWayHome(Parse(mem, p + 39 * n))
  }

  lemma FillerRuns(f: M.State)
    requires |f.mem| == MEMORY && |f.cpu.regs| == M.REGISTERS && (f.cpu.pos + 39) / 8 < USABLE && IsFiller(Next(f))
    ensures RegisterOnly(f) && PosAfter(f) == f.cpu.pos + 39
    ensures var g := M.Step(f); g.mem == f.mem && g.cpu.pos == f.cpu.pos + 39 && |g.cpu.regs| == M.REGISTERS
  {
    hide Parse, M.Raw, M.Merge, M.Touches, M.Matched;
    var ops := Operands(Next(f).body);
    assert ops[1..] == [Imm(1, 0xaa)] && ops[1..][1..] == [];
    M.StoreWasRead(Next(f), f.cpu, f.mem);
  }

  lemma WayHomeRuns(f: M.State)
    requires |f.mem| == MEMORY && |f.cpu.regs| == M.REGISTERS && (f.cpu.pos + 41) / 8 < USABLE && IsWayHome(Next(f))
    ensures RegisterOnly(f) && PosAfter(f) == f.cpu.pos + 41
    ensures var g := M.Step(f); g.mem == f.mem && g.cpu.pos == 0 && |g.cpu.regs| == M.REGISTERS
  {
    hide *;
    var ins := Parse(f.mem, f.cpu.pos);
    NextIs(f);
    WayHomeDefined(ins, f.cpu);
    JumpsHome(ins, f.cpu, f.mem);
    StepsTo(f, ins, f.cpu.(pos := 0));
  }

  lemma NextIs(f: M.State)
    ensures Next(f) == Parse(f.mem, f.cpu.pos)
  {
  }

  lemma StepsTo(f: M.State, ins: Instruction, cpu: M.Cpu)
    requires |f.mem| == MEMORY && ins == Parse(f.mem, f.cpu.pos) && M.Defined(ins, f.cpu)
    requires Operands(ins.body) == [Imm(1, 0)] && M.Execute(ins, f.cpu, f.mem) == M.Effect(M.NoStore, cpu)
    ensures RegisterOnly(f) && PosAfter(f) == f.cpu.pos + Length(ins) && M.Step(f) == M.State(cpu, f.mem)
  {
    hide Parse, M.Defined, M.Execute, Length, Operands;
  }

  lemma WayHomeDefined(ins: Instruction, cpu: M.Cpu)
    requires |cpu.regs| == M.REGISTERS && (cpu.pos + 41) / 8 < USABLE && IsWayHome(ins)
    ensures M.Defined(ins, cpu) && Length(ins) == 41 && Operands(ins.body) == [Imm(1, 0)]
  {
    assert Operands(ins.body)[1..] == [];
  }

  lemma JumpsHome(ins: Instruction, cpu: M.Cpu, mem: seq<Byte>)
    requires M.Defined(ins, cpu) && IsWayHome(ins) && |mem| == MEMORY
    ensures M.Execute(ins, cpu, mem) == M.Effect(M.NoStore, cpu.(pos := 0))
  {
    hide M.Defined, M.Nibble, Length;
  }

  /** The fillers one by one. */
  lemma {:induction false} AmongFillers(f: M.State, n: nat, i: nat)
    requires |f.cpu.regs| == M.REGISTERS && EndsAt(f.mem, f.cpu.pos, n) && i <= n
    ensures var g := M.Steps(f, i);
      g.mem == f.mem && g.cpu.pos == f.cpu.pos + 39 * i && |g.cpu.regs| == M.REGISTERS
    decreases i
  {
    hide Parse, M.Step, IsFiller, IsWayHome, RegisterOnly, PosAfter;
    if i > 0 {
      AmongFillers(f, n, i - 1);
      FillerRuns(M.Steps(f, i - 1));
    }
  }

  lemma {:induction false} AtFiller(f: M.State, n: nat, i: nat)
    requires |f.cpu.regs| == M.REGISTERS && EndsAt(f.mem, f.cpu.pos, n) && i < n
    ensures RegisterOnly(M.Steps(f, i)) && M.Steps(f, i).cpu.pos == f.cpu.pos + 39 * i
    ensures PosAfter(M.Steps(f, i)) == M.Steps(f, i + 1).cpu.pos
  {
    hide Parse, M.Step, M.Steps, IsFiller, IsWayHome, RegisterOnly, PosAfter;
    AmongFillers(f, n, i);
    AmongFillers(f, n, i + 1);
    FillerRuns(M.Steps(f, i));
  }

  lemma {:induction false} AtWayHome(f: M.State, n: nat)
    requires |f.cpu.regs| == M.REGISTERS && EndsAt(f.mem, f.cpu.pos, n)
    ensures RegisterOnly(M.Steps(f, n)) && M.Steps(f, n).cpu.pos == f.cpu.pos + 39 * n
    ensures PosAfter(M.Steps(f, n)) == f.cpu.pos + 39 * n + 41
    ensures var g := M.Steps(f, n + 1); g.mem == f.mem && g.cpu.pos == 0 && |g.cpu.regs| == M.REGISTERS
  {
    hide Parse, M.Step, IsFiller, IsWayHome, RegisterOnly, PosAfter;
    AmongFillers(f, n, n);
    WayHomeRuns(M.Steps(f, n));
    assert M.Steps(f, n + 1) == M.Step(M.Steps(f, n));
  }

  /** So the end of a layer is straight-line register code. */
  lemma {:induction false} EndIsStraight(f: M.State, n: nat)
    requires |f.cpu.regs| == M.REGISTERS && EndsAt(f.mem, f.cpu.pos, n) && n >= 23
    ensures Straight(f, n + 1) && SixMore(f, n + 1)
  {
    hide M.Steps, EndsAt, RegisterOnly, PosAfter, IsFiller, IsWayHome;
    AtWayHome(f, n);
    AtFiller(f, n, 0);
    forall j: nat | j < n
      ensures RegisterOnly(M.Steps(f, j)) && M.Steps(f, j + 1).cpu.pos == PosAfter(M.Steps(f, j))
    {
      AtFiller(f, n, j);
    }
  }

  // ---------------------------------------------------------------- it is finished

  function DirtyLines(tags: seq<Addr>): set<Addr> {
    set i | 0 <= i < |tags| && Dirty(tags[i]) && InUse(tags[i]) :: Base(tags[i])
  }

  lemma DirtyLinesAreCached(tags: seq<Addr>, b: Addr)
    requires b in DirtyLines(tags)
    ensures b in Bases(tags)
  {
    hide Base, Dirty, InUse;
  }

  lemma DirtyWithinThem(c: Cache)
    requires c.Shape()
    ensures DirtyWithin(c, DirtyLines(c.tags))
  {
    hide Base, Dirty, InUse;
  }

  /** The first instruction reads no dirty line. */
  lemma FirstIsClean(s: Sys, b: Addr)
    requires Inv(s) && s.cache.Shape() && CodeIsClean(s) && RegisterOnly(Flat(s)) && b in DirtyLines(s.cache.tags)
    ensures b !in Lines(Reads(Flat(s)))
  {
    hide Logical, Coherent, Parse, M.Runs, M.Touches, Base, Line, Dirty, InUse, Reads, RegisterOnly;
    var t := Reads(Flat(s));
    OnlyCode(s);
    var i :| 0 <= i < SLOTS && Dirty(s.cache.tags[i]) && InUse(s.cache.tags[i]) && Base(s.cache.tags[i]) == b;
    forall m | 0 <= m < |t| ensures Line(t[m]) != b {
      var a: Addr := t[m];
    }
  }

  lemma OnlyCode(s: Sys)
    requires Inv(s) && RegisterOnly(Flat(s))
    ensures forall m | 0 <= m < |Reads(Flat(s))| ::
      CodeStart(s.cpu) <= Reads(Flat(s))[m] <= CodeEnd(Current(s), s.cpu) < USABLE
  {
    hide Logical, Coherent, Parse, M.Defined, M.Touches, Reads, PosAfter, CodeEnd;
    RegisterReads(Flat(s));
    Bytes(Flat(s));
  }

  lemma {:induction false} StoresNoLine(f: M.State, n: nat, j: nat)
    requires Straight(f, n) && j <= n
    ensures StoredLines(f, j) == {}
  {
    hide *;
    if j == 0 {
      NoneStored(f);
    } else {
      StoresNoLine(f, n, j - 1);
      StraightAt(f, n, j - 1);
      RegisterReads(M.Steps(f, j - 1));
      NoStoreLine(M.Steps(f, j - 1));
      OneMoreStored(f, j - 1);
    }
  }

  lemma {:induction false} NoneStored(f: M.State)
    ensures StoredLines(f, 0) == {}
  {
  }

  lemma {:induction false} OneMoreStored(f: M.State, j: nat)
    ensures StoredLines(f, j + 1) == StoredLines(f, j) + StoreLine(M.Steps(f, j))
  {
    hide StoreLine, M.Step;
  }

  lemma NoStoreLine(f: M.State)
    requires StoresNothing(f)
    ensures StoreLine(f) == {}
  {
    hide M.Runs, M.Execute, Parse;
  }

  lemma {:induction false} StraightIsSeparate(s: Sys, n: nat)
    requires Inv(s) && s.cache.Shape() && CodeIsClean(s) && n > 0 && Straight(Flat(s), n) && Fresh(s, n)
    ensures Liveness.Separate(Flat(s), DirtyLines(s.cache.tags), n)
  {
    hide Inv, Flat, M.Step, M.Steps, CodeIsClean, Straight, Fresh, DirtyLines, CodeAwayFrom;
    forall j: nat | j < n
      ensures CodeAwayFrom(M.Steps(Flat(s), j), DirtyLines(s.cache.tags) + StoredLines(Flat(s), j))
    {
      StoresNoLine(Flat(s), n, j);
      assert DirtyLines(s.cache.tags) + StoredLines(Flat(s), j) == DirtyLines(s.cache.tags);
      OneIsSeparate(s, n, j);
    }
  }

  lemma {:induction false} OneIsSeparate(s: Sys, n: nat, j: nat)
    requires Inv(s) && s.cache.Shape() && CodeIsClean(s) && Straight(Flat(s), n) && j < n && Fresh(s, n)
    ensures CodeAwayFrom(M.Steps(Flat(s), j), DirtyLines(s.cache.tags))
  {
    hide *;
    var f := Flat(s);
    StraightAt(f, n, j);
    StraightAt(f, n, 0);
    StraightBytes(f, n, 0, j);
    StraightBytes(f, n, j, n - 1);
    BytesAt(f, j);
    NoSteps(f);
    AwayIf(s, n, M.Steps(f, j));
  }

  lemma {:induction false} NoSteps(f: M.State)
    ensures M.Steps(f, 0) == f
  {
  }

  lemma AwayIf(s: Sys, n: nat, g: M.State)
    requires Inv(s) && s.cache.Shape() && CodeIsClean(s) && n > 0 && Fresh(s, n) && RegisterOnly(Flat(s)) && RegisterOnly(g)
    requires StartByte(Flat(s), 0) <= g.cpu.pos / 8 && PosAfter(g) / 8 <= EndByte(Flat(s), n - 1)
    ensures CodeAwayFrom(g, DirtyLines(s.cache.tags))
  {
    hide Inv, Flat, M.Runs, Lines, Line, Bases, Reads, PosAfter, StartByte, EndByte, M.Steps, DirtyLines, CodeIsClean,
      CodeStart, CodeEnd, Parse;
    Bytes(g);
    forall a: Addr | CodeStart(g.cpu) <= a <= CodeEnd(Next(g), g.cpu) ensures Line(a) !in DirtyLines(s.cache.tags) {
      NotEarly(a, StartByte(Flat(s), 0), EndByte(Flat(s), n - 1), Bases(s.cache.tags), Lines(Reads(Flat(s))));
      if Line(a) in DirtyLines(s.cache.tags) {
        DirtyLinesAreCached(s.cache.tags, Line(a));
        FirstIsClean(s, Line(a));
      }
    }
  }

  // ---------------------------------------------------------------- the way out

  /** Everything that a straight stretch reads lies behind its first byte. */
  lemma {:induction false} ReadsBehind(f: M.State, n: nat, m: nat)
    requires Straight(f, n) && 0 < m <= n && StartByte(f, 0) >= LINE
    ensures 0 !in ReadLines(f, m)
  {
    hide *;
    Sizes();
    OneMoreRead(f, m - 1);
    StraightAt(f, n, m - 1);
    StraightBytes(f, n, 0, m - 1);
    BytesAt(f, m - 1);
    RegisterReads(M.Steps(f, m - 1));
    NotLineZero(Reads(M.Steps(f, m - 1)), StartByte(f, 0));
    if m == 1 {
      NothingRead(f);
    } else {
      ReadsBehind(f, n, m - 1);
    }
  }

  lemma NotLineZero(t: seq<nat>, start: nat)
    requires InSpace(t) && start >= LINE && forall m | 0 <= m < |t| :: t[m] >= start
    ensures 0 !in Lines(t)
  {
  }

  /** With line 0 not cached, the instruction at address 0 misses there. */
  lemma {:induction false} MissesHome(s: Sys) returns (r: Sys)
    requires Inv(s) && !s.waiting && s.cpu.pos == 0 && M.Runs(Flat(s)) && 0 !in Bases(s.cache.tags)
    ensures r == Step(s) && Inv(r) && r.waiting && r.cache.miss == 0 && r.cache.tags == s.cache.tags
    ensures Flat(r) == Flat(s) && !Completes(s)
  {
    FirstRead(Flat(s));
    StepRefines(s);
    hide M.Execute, Parse, M.Touches, M.Defined, Coherent, Logical, Play, M.Step;
    HomeIsMissed(s.cache, Footprint(s));
    r := Step(s);
  }

  lemma {:induction false} HomeIsMissed(c: Cache, t: seq<nat>)
    requires c.Shape() && InSpace(t) && t != [] && t[0] == 0 && 0 !in Bases(c.tags)
    ensures Play(c, t).Missed? && Play(c, t).cache.miss == 0
  {
    hide Play, Base, Victim;
    assert Line(0) == 0;
    PrefixIs(c, t, 0);
    PlayStopsAtMiss(c, t);
  }

  /** At the end of a layer the machine gets back to address 0 and misses there, and
      by then the client's memory is the memory that the machine sees. */
  lemma {:induction false} EndFlushes(s: Sys, n: nat) returns (k: nat)
    requires Inv(s) && Ready(s) && CodeIsClean(s) && EndsAt(Flat(s).mem, s.cpu.pos, n) && n >= 23
    requires Fresh(s, n + 1) && Room(s.cache, 50 * (n + 15)) && M.Runs(M.Steps(Flat(s), n + 1))
    ensures Completed(s, k) == n + 1 && k <= 13463 * (n + 1) + 1
    ensures var r := Run(s, k);
      && r.waiting && r.cache.miss == 0 && Clean(r.cache.tags)
      && r.ram == Flat(s).mem && WriteBack(r.cache, r.ram) == Flat(s).mem && Flat(r) == M.Steps(Flat(s), n + 1)
  {
    hide *;
    Standing(s);
    EndIsStraight(Flat(s), n);
    StraightIsStretch(s, n + 1);
    StraightIsSeparate(s, n + 1);
    DirtyWithinThem(s.cache);
    var k1 := MakesProgress(s, DirtyLines(s.cache.tags), n + 1);
    var k2 := StretchEnds(s, n + 1, k1);
    NoSteps(Flat(s));
    FirstByteAt(s, n);
    ReadsBehind(Flat(s), n + 1, n + 1);
    RunRefines(s, k2);
    AtWayHome(Flat(s), n);
    FlatPosition(Run(s, k2));
    var r := MissesHome(Run(s, k2));
    k := k2 + 1;
    NoneMore(s, k2);
    CleanIsWrittenBack(r);
  }

  lemma {:induction false} NoneMore(s: Sys, k: nat)
    requires Inv(s) && !Completes(Run(s, k))
    ensures Run(s, k + 1) == Step(Run(s, k)) && Completed(s, k + 1) == Completed(s, k)
  {
    hide Inv, Step, Completes;
  }

  lemma Standing(s: Sys)
    requires Inv(s) && Ready(s)
    ensures !s.waiting && s.cache.Shape() && |Flat(s).cpu.regs| == M.REGISTERS && Flat(s).cpu == s.cpu
  {
    hide M.Runs, Logical;
  }

  lemma FlatPosition(s: Sys)
    requires Inv(s)
    ensures Flat(s).cpu == s.cpu
  {
  }

  lemma FirstByteAt(s: Sys, n: nat)
    requires Inv(s) && EndsAt(Flat(s).mem, s.cpu.pos, n)
    ensures StartByte(Flat(s), 0) >= LINE
  {
    hide Parse, Logical, IsFiller, IsWayHome;
    NoSteps(Flat(s));
  }
}
