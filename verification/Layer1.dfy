/** The first layer (bflayer1.c): a check that exactly one key passes.  Every
    statement of the program is here, in its order, but for the filler at the end. */
module Layer1 {
  import opened Words
  import opened Adder
  import opened Programs
  import opened Ram

  const KEY := 0xa000

  /** What the program makes of the first key word, and of both. */
  function Six(k1: Word): Word {
    Xor(Xor(k1 >> 8, k1), 0x9577)
  }

  function Eight(k1: Word, k2: Word): Word {
    var low, high := k1 & 0xff, k1 >> 8;
    Xor(Xor(Xor(Xor(Xor(k2 >> 8, k2), low), low << 8), high << 8), high)
  }

  /** The only key. */
  predicate Right(k1: Word, k2: Word) {
    k1 == 0xe5df && k2 == 0x94e3
  }

  function Result(s: seq<bv8>): (r: seq<bv8>)
    requires |s| == SIZE
    ensures |r| == SIZE
  {
    var k1, k2 := WordAt(s, KEY), WordAt(s, KEY + 2);
    var answered := Put(Put(s, KEY, 0xdead + 0xae4d), KEY + 2, 0x6b14 ^ 0xbeef);
    Put(Put(if Right(k1, k2) then answered else s, 0x8000, 0xdead), 0x8002, 0xbeef)
  }

  // ---------------------------------------------------------------- the program

  /** Nothing here is stored with a mask: the register that stays zero is one that
      the program does not use. */
  predicate Ready(p: Program) {
    p.layer == One && p.zero == 2
  }

  /** It accepts exactly one key, whatever the registers and the rest of the memory
      hold, and leaves exactly the result outside its cells. */
  method Run(m: array<bv8>, regs: seq<Word>) returns (ret: bool)
    requires m.Length == SIZE && |regs| == 16
    modifies m
    ensures ret == Right(WordAt(old(m[..]), KEY), WordAt(old(m[..]), KEY + 2))
    ensures Clear(One, m[..]) == Result(Clear(One, old(m[..])))
  {
    hide Program.Valid, Value, Assign, Clear, Put, WordAt, Right, Six, Eight, Plus, Not, Xor;
    var p := new Program(m, One, regs[2 := 0], 2);
    ghost var was := p.rest;
    ghost var k1, k2 := WordAt(was, KEY), WordAt(was, KEY + 2);
    Keys(m[..]);
    ret := false;
    Mix(p);
    RightIff(k1, k2);
    Check(p);
    Differences(Eight(k1, k2));
    if p.z0 {
      Subtract(p);
      SubtractAgain(p);
      Differences(Six(k1));
      ret := Answer(p);
    }
    Finish(p);
    ResultIs(was);
    p.RestIs();
  }

  lemma Keys(s: seq<bv8>)
    requires |s| == SIZE
    ensures WordAt(Clear(One, s), KEY) == WordAt(s, KEY) && WordAt(Clear(One, s), KEY + 2) == WordAt(s, KEY + 2)
  {
    hide WordAt, Clear;
    OtherLoad(One, s, KEY);
    OtherLoad(One, s, KEY + 2);
  }

  method Mix(p: Program)
    requires p.Valid() && Ready(p)
    modifies p, p.m, p.r
    ensures p.Valid() && p.rest == old(p.rest)
    ensures var (k1, k2) := (WordAt(p.rest, KEY), WordAt(p.rest, KEY + 2));
      Value(p.env, R6) == Six(k1) && Value(p.env, R8) == Eight(k1, k2)
  {
    hide *;
    FoldFirst(p);
    FoldSecond(p);
    LowByte(p);
    HighByte(p);
    Mixed(p.rest);
  }

  /** The first key word with its halves combined, and with a constant. */
  method FoldFirst(p: Program)
    requires p.Valid() && Ready(p)
    modifies p, p.m, p.r
    ensures p.Valid() && p.rest == old(p.rest)
    ensures var (k1, k2) := (WordAt(p.rest, KEY), WordAt(p.rest, KEY + 2));
      && Value(p.env, R12) == k1 && Value(p.env, R3) == k2 && Value(p.env, R0) == Shifted(k1, true, 8)
      && Value(p.env, R6) == Xor(Xor(Shifted(k1, true, 8), k1), 0x9577)
  {
    hide Program.Valid, Program.Carry, Program.Zero, Value, Assign, Exec, Legal, Both, Either, Not, Xor, Twice, Shifted,
      Plus, Overflows, Top;
    Laws();
    var k1 := p.Load(0xa000);
    var k2 := p.Load(0xa002);
    NotXnorIsXor(Shifted(k1, true, 8), k1);
    NorThenAndIsXor(Xor(Shifted(k1, true, 8), k1), 0x9577);
    p.Do(Set(R12, k1), Set(R3, k2), Mov(R0, R12), Shift(R0, true, 8), Mov(R13, R0), And(R13, R12),
         Mov(0xe3b4, R0), Or(0xe3b4, R12), Neg(0xe3b4), Or(R13, 0xe3b4), Neg(R13), Mov(R6, R13));
    p.Do(Mov(R5, R6), Set(0xc7f2, 0x9577), Neg(0xc7f2), Or(R5, 0xc7f2), Neg(R5), Mov(0xc882, R6),
         Set(0xf400, 0x9577), Neg(0xf400), And(0xc882, 0xf400), Or(R5, 0xc882), Mov(R6, R5));
  }

  method FoldSecond(p: Program)
    requires p.Valid() && Ready(p)
    modifies p, p.m, p.r
    ensures p.Valid() && p.rest == old(p.rest)
    ensures Value(p.env, R8) == old(Xor(Shifted(Value(p.env, R3), true, 8), Value(p.env, R3)))
    ensures Value(p.env, R12) == old(Value(p.env, R12)) && Value(p.env, R0) == old(Value(p.env, R0))
    ensures Value(p.env, R6) == old(Value(p.env, R6))
  {
    hide Program.Valid, Program.Carry, Program.Zero, Value, Assign, Exec, Legal, Both, Either, Not, Xor, Twice, Shifted,
      Plus, Overflows, Top;
    Laws();
    AndNotMovedIsXor(Shifted(Value(p.env, R3), true, 8), Value(p.env, R3));
    p.Do(Mov(R1, R3), Shift(R1, true, 8), Mov(0xf31c, R1), Mov(0xe99c, R3), Neg(0xe99c), And(0xf31c, 0xe99c),
         Mov(R5, R1), Mov(0xfc70, R3), Neg(0xfc70), Or(R5, 0xfc70), Mov(0xfc70, R5), Neg(0xfc70));
    p.Do(Or(0xf31c, 0xfc70), Mov(R8, 0xf31c));
  }

  method LowByte(p: Program)
    requires p.Valid() && Ready(p)
    modifies p, p.m, p.r
    ensures p.Valid() && p.rest == old(p.rest)
    ensures var low := old(Both(Value(p.env, R12), 0xff));
      Value(p.env, R8) == Xor(Xor(old(Value(p.env, R8)), low), Shifted(low, false, 8))
    ensures Value(p.env, R0) == old(Value(p.env, R0)) && Value(p.env, R6) == old(Value(p.env, R6))
  {
    hide *;
    LowByteItself(p);
    LowByteMoved(p);
  }

  method LowByteItself(p: Program)
    requires p.Valid() && Ready(p)
    modifies p, p.m, p.r
    ensures p.Valid() && Ready(p) && p.rest == old(p.rest)
    ensures var low := old(Both(Value(p.env, R12), 0xff));
      Value(p.env, R8) == Xor(old(Value(p.env, R8)), low) && Value(p.env, 0xe2ca) == low
    ensures Value(p.env, R0) == old(Value(p.env, R0)) && Value(p.env, R6) == old(Value(p.env, R6))
  {
    hide Program.Valid, Program.Carry, Program.Zero, Value, Assign, Exec, Legal, Both, Either, Not, Xor, Twice, Shifted,
      Plus, Overflows, Top;
    Laws();
    ghost var r8, low := Value(p.env, R8), Both(Value(p.env, R12), 0xff);
    NotXnorIsXor(r8, low);
    p.Do(Mov(0xcac6, R12), AndWith(0xcac6, 0x00ff), Mov(R1, 0xcac6), Mov(0xfe0c, R8), And(0xfe0c, R1),
         Mov(R5, R8), Or(R5, R1), Neg(R5), Or(0xfe0c, R5), Neg(0xfe0c), Mov(R8, 0xfe0c), Mov(0xe2ca, R1));
  }

  method LowByteMoved(p: Program)
    requires p.Valid() && Ready(p)
    modifies p, p.m, p.r
    ensures p.Valid() && p.rest == old(p.rest)
    ensures Value(p.env, R8) == Xor(old(Value(p.env, R8)), Shifted(old(Value(p.env, 0xe2ca)), false, 8))
    ensures Value(p.env, R0) == old(Value(p.env, R0)) && Value(p.env, R6) == old(Value(p.env, R6))
  {
    hide Program.Valid, Program.Carry, Program.Zero, Value, Assign, Exec, Legal, Both, Either, Not, Xor, Twice, Shifted,
      Plus, Overflows, Top;
    Laws();
    NorOrAndIsXor(Value(p.env, R8), Shifted(Value(p.env, 0xe2ca), false, 8));
    p.Do(Shift(0xe2ca, false, 8), Mov(R1, 0xe2ca), Mov(0xd68e, R8), Neg(0xd68e), Or(0xd68e, R1), Neg(0xd68e),
         Mov(0xd760, R8), Neg(0xd760), And(0xd760, R1), Or(0xd68e, 0xd760), Mov(R8, 0xd68e));
  }

  method HighByte(p: Program)
    requires p.Valid() && Ready(p)
    modifies p, p.m, p.r
    ensures p.Valid() && p.rest == old(p.rest)
    ensures var high := old(Value(p.env, R0));
      Value(p.env, R8) == Xor(Xor(old(Value(p.env, R8)), Shifted(high, false, 8)), high)
    ensures Value(p.env, R6) == old(Value(p.env, R6))
  {
    hide Program.Valid, Program.Carry, Program.Zero, Value, Assign, Exec, Legal, Both, Either, Not, Xor, Twice, Shifted,
      Plus, Overflows, Top;
    Laws();
    ghost var r8, high := Value(p.env, R8), Value(p.env, R0);
    NotNorAndIsXor(r8, Shifted(high, false, 8));
    NandAndOrIsXor(Xor(r8, Shifted(high, false, 8)), high);
    p.Do(Mov(0xc1b4, R0), Shift(0xc1b4, false, 8), Mov(R1, 0xc1b4), Mov(0xda1e, R8), Or(0xda1e, R1), Neg(0xda1e),
         Mov(0xf26c, R8), And(0xf26c, R1), Or(0xda1e, 0xf26c), Neg(0xda1e), Mov(R8, 0xda1e), Mov(R5, R8));
    p.Do(And(R5, R0), Neg(R5), Mov(0xdd18, R8), Or(0xdd18, R0), And(R5, 0xdd18), Mov(R8, R5));
  }

  lemma Mixed(s: seq<bv8>)
    requires |s| == SIZE
    ensures var (k1, k2) := (WordAt(s, KEY), WordAt(s, KEY + 2));
      var (low, high) := (Both(k1, 0xff), Shifted(k1, true, 8));
      && Six(k1) == Xor(Xor(high, k1), 0x9577)
      && Eight(k1, k2)
         == Xor(Xor(Xor(Xor(Xor(Shifted(k2, true, 8), k2), low), Shifted(low, false, 8)), Shifted(high, false, 8)), high)
  {
    hide Xor, WordAt, Shifted;
    var k1, k2 := WordAt(s, KEY), WordAt(s, KEY + 2);
    ByteShifts(k1);
    ByteShifts(k2);
    ByteShifts(k1 & 0xff);
    ByteShifts(k1 >> 8);
  }

  method NegateCheck(p: Program)
    requires p.Valid() && Ready(p)
    modifies p, p.m, p.r
    ensures p.Valid() && p.rest == old(p.rest)
    ensures Value(p.env, 0xfedc) == Plus(1, Not(0xae4d)) && Value(p.env, 0xf9f8) == Value(p.env, R8)
    ensures Value(p.env, R6) == old(Value(p.env, R6)) && Value(p.env, R8) == old(Value(p.env, R8))
  {
    hide Program.Valid, Program.Carry, Program.Zero, Value, Assign, Exec, Legal, Both, Either, Not, Xor, Twice, Shifted,
      Plus, Overflows, Top;
    Laws();
    Tops();
    p.Do(Mov(0xf9f8, R8), Set(0xfedc, 0xae4d), Neg(0xfedc));
    p.Sum(1, NotOfOrs, Spots(0xc75e, 0xd89e, R5, 0xd124, 0xcf9a, R15, 0xe5e2, R13), 0x1175, 0x81a4,
          Lit(0x0001), Of(0xfedc));
    p.Do(Mov(0xfedc, 0xc75e));
  }

  /** r8 is compared with the first check word. */
  method Check(p: Program)
    requires p.Valid() && Ready(p)
    modifies p, p.m, p.r
    ensures p.Valid() && p.rest == old(p.rest)
    ensures p.z0 == (old(Plus(Value(p.env, R8), Plus(1, Not(0xae4d)))) == 0)
    ensures Value(p.env, R6) == old(Value(p.env, R6)) && Value(p.env, R8) == old(Value(p.env, R8))
  {
    hide Program.Valid, Program.Carry, Value, Assign, Exec, Legal, Both, Either, Not, Xor, Twice, Shifted,
      Plus, Overflows, Top;
    Laws();
    Tops();
    Idempotent(Plus(Value(p.env, R8), Plus(1, Not(0xae4d))));
    NegateCheck(p);
    p.Sum(0, NorOrAnd, Spots(0xd4ac, 0xcb26, 0xdeb4, 0xf9e4, R14, R15, R13, R5), 0x16b8, 0xd8bf, Of(0xf9f8),
          Of(0xfedc));
    p.Do(Mov(0xf9f8, 0xd4ac));
    p.Test(0, 0xf9f8);
  }

  method NegateConstant(p: Program)
    requires p.Valid() && Ready(p)
    modifies p, p.m, p.r
    ensures p.Valid() && p.rest == old(p.rest)
    ensures Value(p.env, 0xfa7a) == Plus(1, Not(0x0539))
    ensures Value(p.env, R6) == old(Value(p.env, R6)) && Value(p.env, R8) == old(Value(p.env, R8))
  {
    hide Program.Valid, Program.Carry, Program.Zero, Value, Assign, Exec, Legal, Both, Either, Not, Xor, Twice, Shifted,
      Plus, Overflows, Top;
    Laws();
    Tops();
    p.Do(Set(0xfa7a, 0x0539), Neg(0xfa7a));
    p.Sum(0, AndNorCopied, Spots(0xcbd4, 0xf4ba, 0xea36, 0xe614, R5, 0xf82e, R13, 0xdd8c), 0x0c9b, 0xcd8e,
          Lit(0x0001), Of(0xfa7a));
    p.Do(Mov(0xfa7a, 0xcbd4));
  }

  /** A constant is taken from r6. */
  method Subtract(p: Program)
    requires p.Valid() && Ready(p)
    modifies p, p.m, p.r
    ensures p.Valid() && p.rest == old(p.rest)
    ensures Value(p.env, R6) == old(Plus(Value(p.env, R6), Plus(1, Not(0x0539)))) && Value(p.env, 0xf2ce) == Value(p.env, R6)
    ensures Value(p.env, R8) == old(Value(p.env, R8))
  {
    hide Program.Valid, Program.Carry, Program.Zero, Value, Assign, Exec, Legal, Both, Either, Not, Xor, Twice, Shifted,
      Plus, Overflows, Top;
    Laws();
    Tops();
    NegateConstant(p);
    p.Sum(1, TwoAnds, Spots(0xfbc0, 0xf2ce, R5, 0xdd4e, 0xc6c6, R15, 0xd1e4, R13), 0x3167, 0xdcba, Of(R6),
          Of(0xfa7a));
    p.Do(Mov(R6, 0xfbc0), Mov(0xf2ce, R6));
  }

  method NegateOther(p: Program)
    requires p.Valid() && Ready(p)
    modifies p, p.m, p.r
    ensures p.Valid() && p.rest == old(p.rest)
    ensures Value(p.env, 0xd1e4) == Plus(1, Not(0x6b14)) && Value(p.env, 0xf2ce) == old(Value(p.env, 0xf2ce))
    ensures Value(p.env, R6) == old(Value(p.env, R6)) && Value(p.env, R8) == old(Value(p.env, R8))
  {
    hide Program.Valid, Program.Carry, Program.Zero, Value, Assign, Exec, Legal, Both, Either, Not, Xor, Twice, Shifted,
      Plus, Overflows, Top;
    Laws();
    Tops();
    p.Do(Set(0xd1e4, 0x6b14), Neg(0xd1e4));
    p.Sum(1, NorOrAnd, Spots(0xc33c, 0xfb6a, R5, 0xf16c, R14, R15, 0xc2ce, 0xe4ca), 0x6d7b, 0xa14f,
          Lit(0x0001), Of(0xd1e4));
    p.Do(Mov(0xd1e4, 0xc33c));
  }

  /** What is left of it must be another constant. */
  method SubtractAgain(p: Program)
    requires p.Valid() && Ready(p)
    modifies p, p.m, p.r
    ensures p.Valid() && p.rest == old(p.rest)
    ensures p.z0 == (old(Plus(Value(p.env, 0xf2ce), Plus(1, Not(0x6b14)))) == 0)
    ensures Value(p.env, R6) == old(Value(p.env, R6)) && Value(p.env, R8) == old(Value(p.env, R8))
  {
    hide Program.Valid, Program.Carry, Value, Assign, Exec, Legal, Both, Either, Not, Xor, Twice, Shifted,
      Plus, Overflows, Top;
    Laws();
    Tops();
    Idempotent(Plus(Value(p.env, 0xf2ce), Plus(1, Not(0x6b14))));
    NegateOther(p);
    p.Sum(0, OrAndNand, Spots(0xc9c8, 0xc82a, 0xc71e, R5, R14, R15, R13, 0xe6ea), 0x4d27, 0xd149, Of(0xf2ce),
          Of(0xd1e4));
    p.Do(Mov(0xf2ce, 0xc9c8));
    p.Test(0, 0xf2ce);
  }

  /** The last part depends on z0, which nothing in it changes: the condition of
      each of its statements is tested once. */
  method Answer(p: Program) returns (ret: bool)
    requires p.Valid() && Ready(p)
    modifies p, p.m, p.r
    ensures p.Valid() && ret == old(p.z0)
    ensures p.rest == old(
      if p.z0
      then Put(Put(p.rest, KEY, Plus(0xdead, Value(p.env, R8))), KEY + 2, Xor(Value(p.env, R6), 0xbeef))
      else p.rest)
  {
    hide Program.Valid, Value, Assign, Exec, Legal, Xor, Plus, Put;
    ret := false;
    if !p.z0 {
      NoSum(p);
      return;
    }
    FirstAnswer(p);
    var v := p.Read(0xc1a4);
    ret := true;
    p.Store(0xa000, v);
    SecondAnswer(p);
    v := p.Read(0xdfd0);
    p.Store(0xa002, v);
  }

  /** The loop at 1205 with its own spelling of the adder. */
  method FirstAnswer(p: Program)
    requires p.Valid() && Ready(p)
    modifies p, p.m, p.r
    ensures p.Valid() && p.rest == old(p.rest)
    ensures Value(p.env, 0xc1a4) == Plus(0xdead, old(Value(p.env, R8))) && Value(p.env, R6) == old(Value(p.env, R6))
  {
    hide Program.Valid, Program.Carry, Program.Zero, Value, Assign, Exec, Legal, Both, Either, Not, Xor, Twice, Shifted,
      Plus, Overflows, Top;
    Laws();
    Tops();
    p.Sum(1, NorOrAnd, Spots(0xc1a4, 0xd568, 0xd800, 0xe6b8, R14, R15, 0xf0da, 0xfd20), 0x084c, 0xb4fd,
          Lit(0xdead), Of(R8));
  }

  /** Once through the same statements with z0 clear. */
  method NoSum(p: Program)
    requires p.Valid() && Ready(p)
    modifies p, p.m, p.r
    ensures p.Valid() && p.rest == old(p.rest)
  {
    hide Program.Valid, Program.Carry, Program.Zero, Value, Assign, Exec, Legal, Both, Either, Not, Xor, Twice, Shifted,
      Plus, Overflows, Top;
    Laws();
    p.ShiftOut(1, 0xd568);
    if p.c1 {
      p.Do(OrWith(0xfd20, 0xb4fd));
    }
    p.Test(1, 0xd568);
    p.Do(Neg(0xfd20));
    p.ShiftOut(1, 0xfd20);
  }

  method SecondAnswer(p: Program)
    requires p.Valid() && Ready(p)
    modifies p, p.m, p.r
    ensures p.Valid() && p.rest == old(p.rest)
    ensures Value(p.env, 0xdfd0) == Xor(old(Value(p.env, R6)), 0xbeef)
  {
    hide Program.Valid, Program.Carry, Program.Zero, Value, Assign, Exec, Legal, Both, Either, Not, Xor, Twice, Shifted,
      Plus, Overflows, Top;
    Laws();
    TwoAndsIsXor(Value(p.env, R6), 0xbeef);
    p.Do(Mov(0xdfd0, R6), Set(0xe738, 0xbeef), Neg(0xe738), And(0xdfd0, 0xe738), Mov(0xd25c, R6), Neg(0xd25c),
         AndWith(0xd25c, 0xbeef), Or(0xdfd0, 0xd25c));
  }

  /** The result flag. */
  method Finish(p: Program)
    requires p.Valid() && Ready(p)
    modifies p, p.m, p.r
    ensures p.Valid() && p.rest == old(Put(Put(p.rest, 0x8000, 0xdead), 0x8002, 0xbeef))
  {
    hide Program.Valid, Program.Carry, Program.Zero, Value, Assign, Exec, Legal, Both, Either, Not, Xor, Twice, Shifted,
      Plus, Overflows, Top;
    Laws();
    p.Do(Mov(0xcb1e, R1), Or(0xcb1e, R1));
    p.Store(0x8000, 0xdead);
    p.Store(0x8002, 0xbeef);
  }

  lemma Tops()
    ensures !Top(0x1175) && Top(0x81a4) && !Top(0x16b8) && Top(0xd8bf) && !Top(0x0c9b) && Top(0xcd8e)
    ensures !Top(0x3167) && Top(0xdcba) && !Top(0x6d7b) && Top(0xa14f) && !Top(0x4d27) && Top(0xd149)
    ensures !Top(0x084c) && Top(0xb4fd)
  {
  }

  lemma Differences(v: Word)
    ensures Plus(v, Plus(1, Not(0xae4d))) == 0 <==> v == 0xae4d
    ensures var rest := Plus(v, Plus(1, Not(0x0539)));
      && (Plus(rest, Plus(1, Not(0x6b14))) == 0 <==> v == 0x0539 + 0x6b14)
      && (v == 0x0539 + 0x6b14 ==> rest == 0x6b14)
  {
  }

  lemma ResultIs(s: seq<bv8>)
    requires |s| == SIZE
    ensures var k1, k2 := WordAt(s, KEY), WordAt(s, KEY + 2);
      var answered := Put(Put(s, KEY, Plus(0xdead, 0xae4d)), KEY + 2, Xor(0x6b14, 0xbeef));
      Result(s) == Put(Put(if Right(k1, k2) then answered else s, 0x8000, 0xdead), 0x8002, 0xbeef)
  {
    hide Put, WordAt, Right;
    Answers();
  }

  lemma Answers()
    ensures Plus(0xdead, 0xae4d) == 0xdead + 0xae4d && Xor(0x6b14, 0xbeef) == 0x6b14 ^ 0xbeef
  {
  }

  // ---------------------------------------------------------------- why only one key

  /** The mixing loses nothing: different keys give different words. */
  lemma MixIsInjective(k1: Word, k2: Word, l1: Word, l2: Word)
    requires Six(k1) == Six(l1) && Eight(k1, k2) == Eight(l1, l2)
    ensures k1 == l1 && k2 == l2
  {
    SixIsInjective(k1, l1);
    EightIsInjective(k1, k2, l2);
  }

  lemma SixIsInjective(k: Word, l: Word)
    requires Six(k) == Six(l)
    ensures k == l
  {
  }

  lemma EightIsInjective(k1: Word, k2: Word, l2: Word)
    requires Eight(k1, k2) == Eight(k1, l2)
    ensures k2 == l2
  {
    hide Xor;
    var low, high := k1 & 0xff, k1 >> 8;
    var a, b := Xor(k2 >> 8, k2), Xor(l2 >> 8, l2);
    var c, d := Xor(Xor(a, low), low << 8), Xor(Xor(b, low), low << 8);
    Cancel(Xor(c, high << 8), Xor(d, high << 8), high);
    Cancel(c, d, high << 8);
    Cancel(Xor(a, low), Xor(b, low), low << 8);
    Cancel(a, b, low);
    Folded(k2, l2);
  }

  lemma Cancel(x: Word, y: Word, z: Word)
    requires Xor(x, z) == Xor(y, z)
    ensures x == y
  {
  }

  lemma Folded(k: Word, l: Word)
    requires Xor(k >> 8, k) == Xor(l >> 8, l)
    ensures k == l
  {
  }

  /** The two conditions hold for that key, and so for no other. */
  lemma RightIff(k1: Word, k2: Word)
    ensures Right(k1, k2) <==> Eight(k1, k2) == 0xae4d && Six(k1) == 0x0539 + 0x6b14
  {
    TheKey();
    hide Six, Eight;
    if Eight(k1, k2) == 0xae4d && Six(k1) == 0x0539 + 0x6b14 {
      MixIsInjective(k1, k2, 0xe5df, 0x94e3);
    }
  }

  lemma TheKey()
    ensures Eight(0xe5df, 0x94e3) == 0xae4d && Six(0xe5df) == 0x0539 + 0x6b14
  {
  }
}
