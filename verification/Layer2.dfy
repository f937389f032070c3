/** The second layer (bflayer2.c): sixty-four pairs of words are decrypted in
    place, and the last word is compared with a check word.  Every statement of the
    program is here, in its order, but for the filler at the end. */
module Layer2 {
  import opened Words
  import opened Obfuscation
  import opened Adder
  import opened Programs
  import opened Ram
  import opened WordBits

  const KEY := 0xa000
  const BASE := 0x9fc0  // where the masks of the block are counted from
  const BLOCK := 0xa010
  const ROUNDS := 64
  const CHECK: Word := 0xbe92

  /** The counter as the program keeps it. */
  function Count(n: nat): Word {
    if n == 0 then 0 else Plus(1, Count(n - 1))
  }

  /** The key words of round `n`: the counter is added to the first, and taken
      from the second, after each round. */
  function First(k1: Word, n: nat): Word {
    if n == 0 then k1 else Plus(Count(n - 1), First(k1, n - 1))
  }

  function Second(k2: Word, n: nat): Word {
    if n == 0 then k2 else Plus(Second(k2, n - 1), Plus(1, Not(Count(n - 1))))
  }

  function Pad(offset: nat, key: Word): Word {
    Xor(Mask(BASE as Word, offset, 7), key)
  }

  function XorAt(s: seq<bv8>, offset: nat, key: Word): (r: seq<bv8>)
    requires |s| == SIZE && BASE + offset + 1 < SIZE
    ensures |r| == SIZE
  {
    Put(s, BASE + offset, Xor(WordAt(s, BASE + offset), Pad(offset, key)))
  }

  /** The memory after `n` rounds. */
  function Decrypted(s: seq<bv8>, k1: Word, k2: Word, n: nat): (r: seq<bv8>)
    requires |s| == SIZE && n <= ROUNDS
    ensures |r| == SIZE
  {
    if n == 0 then s
    else
      var first := XorAt(Decrypted(s, k1, k2, n - 1), 0x50 + 4 * (n - 1), First(k1, n - 1));
      XorAt(first, 0x52 + 4 * (n - 1), Second(k2, n - 1))
  }

  const LAST := BLOCK + 4 * ROUNDS - 2

  function Accepts(s: seq<bv8>): bool
    requires |s| == SIZE
  {
    WordAt(Decrypted(s, WordAt(s, KEY), WordAt(s, KEY + 2), ROUNDS), LAST) == CHECK
  }

  /** The memory after `n` rounds, with the check after the last one. */
  function Checked(s: seq<bv8>, n: nat): (r: seq<bv8>)
    requires |s| == SIZE && n <= ROUNDS
    ensures |r| == SIZE
  {
    var d := Decrypted(s, WordAt(s, KEY), WordAt(s, KEY + 2), n);
    if n < ROUNDS || Accepts(s) then d else Put(d, LAST, 0xffff)
  }

  function Result(s: seq<bv8>): (r: seq<bv8>)
    requires |s| == SIZE
    ensures |r| == SIZE
  {
    Put(Put(Checked(s, ROUNDS), 0x8000, 0xdead), 0x8002, 0xbeef)
  }

  // ---------------------------------------------------------------- the program

  /** r4 is cleared first and never written again. */
  predicate Ready(p: Program) {
    p.layer == Two && p.zero == 4
  }

  /** What the program carries from one round to the next. */
  datatype Regs = Regs(first: Word, second: Word, r8: Word, i: Word)

  /** Where it keeps them. */
  predicate Holds(e: Env, r: Regs) {
    Value(e, R11) == r.first && Value(e, 0xf308) == r.second && Value(e, R8) == r.r8 && Value(e, 0xdf44) == r.i
  }

  /** Their values at the start of round `n`. */
  predicate At(s: seq<bv8>, r: Regs, n: nat)
    requires |s| == SIZE
  {
    && n <= ROUNDS && r.first == First(WordAt(s, KEY), n) && r.second == Second(WordAt(s, KEY + 2), n)
    && r.i == Count(n) && r.i as int == n && r.r8 as int == 0x50 + 4 * n && r.i < 0x200 && r.r8 < 0x200
  }

  /** Whatever the registers and the cells hold: it accepts if and only if the check
      word comes out, and outside its cells leaves exactly the result. */
  method Run(m: array<bv8>, regs: seq<Word>) returns (ret: bool)
    requires m.Length == SIZE && |regs| == 16
    modifies m
    ensures ret == Accepts(Clear(Two, old(m[..])))
    ensures Clear(Two, m[..]) == Result(Clear(Two, old(m[..])))
  {
    hide Program.Valid, Program.Carry, Value, Assign, Exec, Legal, Holds, At, Checked, Accepts, Decrypted, XorAt, First,
      Second, Count, Put, WordAt;
    var p := new Program(m, Two, regs[4 := 0], 4);
    ghost var was := p.rest;
    ghost var r := Regs(WordAt(was, KEY), WordAt(was, KEY + 2), 0x50, 0);
    ghost var n := 0;
    Start(p, r);
    Begin(was, r);
    ret := true;
    var more := true;
    while more
      invariant p.Valid() && n <= ROUNDS && more == (n < ROUNDS) && p.rest == Checked(was, n)
      invariant ret == (n < ROUNDS || Accepts(was))
      invariant more ==> At(was, r, n) && Holds(p.env, r)
      decreases ROUNDS - n
    {
      r := Round(p, r, was, n);
      ret, r := Check(p, r, was, n + 1);
      Again(p, r, was, n + 1);
      more := p.c0;
      n := n + 1;
    }
    Finish(p);
    Finished(was);
    p.RestIs();
  }

  method Start(p: Program, ghost r: Regs)
    requires p.Valid() && Ready(p) && r == Regs(WordAt(p.rest, KEY), WordAt(p.rest, KEY + 2), 0x50, 0)
    modifies p, p.m, p.r
    ensures p.Valid() && p.rest == old(p.rest) && Holds(p.env, r)
  {
    hide Program.Valid, Value, WordAt;
    FirstKey(p);
    SecondKey(p);
    StartCounting(p);
    Prepare(p, r);
  }

  method FirstKey(p: Program)
    requires p.Valid() && Ready(p)
    modifies p, p.m, p.r
    ensures p.Valid() && p.rest == old(p.rest)
    ensures Value(p.env, R11) == WordAt(p.rest, KEY)
  {
    hide Program.Valid, Program.Carry, Program.Zero, Value, Assign, Exec, Legal, Both, Either, Not, Xor, Twice, Shifted,
      Plus, Overflows, Top, WordAt;
    Laws();
    var k1 := p.Load(0xa000);
    p.Do(Mov(0xca5c, R11), Or(0xca5c, R10), Set(0xca5c, 0x56de), Set(0xe4ac, 0x40b7), Set(R11, k1),
         Mov(0xeafe, R6), And(0xeafe, R10), Mov(0xec86, 0xca5c), AndWith(0xec86, 0x56fa), Neg(0xec86),
         Mov(0xc56a, 0xca5c), OrWith(0xc56a, 0x56fa));
    p.Do(Neg(0xc56a), Neg(0xc56a), And(0xec86, 0xc56a), Mov(0xca5c, 0xec86), Mov(0xe648, R12), Set(R0, 0xfb51),
         Mov(0xc56a, R11), Or(0xc56a, 0xca5c), Mov(0xec86, R11), And(0xec86, 0xca5c), Neg(0xec86),
         And(0xc56a, 0xec86));
    p.Do(Mov(0xdf44, 0xc56a), Set(0xeb02, 0x21c7), Shift(0xeb02, true, 1));
  }

  method SecondKey(p: Program)
    requires p.Valid() && Ready(p)
    modifies p, p.m, p.r
    ensures p.Valid() && p.rest == old(p.rest)
    ensures Value(p.env, 0xf308) == WordAt(p.rest, KEY + 2) && Value(p.env, R11) == old(Value(p.env, R11))
  {
    hide Program.Valid, Program.Carry, Program.Zero, Value, Assign, Exec, Legal, Both, Either, Not, Xor, Twice, Shifted,
      Plus, Overflows, Top, WordAt;
    Laws();
    var k2 := p.Load(0xa002);
    p.Do(Set(0xf308, k2), Mov(0xd67c, R2), And(0xd67c, R9), Set(0xc56a, 0x0024), Shift(0xc56a, false, 2),
         Mov(0xca5c, 0xc56a), Mov(0xd1a2, R0));
  }

  method StartCounting(p: Program)
    requires p.Valid() && Ready(p)
    modifies p, p.m, p.r
    ensures p.Valid() && p.rest == old(p.rest)
    ensures Value(p.env, R8) == 0x50 && Value(p.env, 0xdf44) == 0
    ensures Value(p.env, R11) == old(Value(p.env, R11)) && Value(p.env, 0xf308) == old(Value(p.env, 0xf308))
  {
    hide Program.Valid, Program.Carry, Program.Zero, Value, Assign, Exec, Legal, Both, Either, Not, Xor, Twice, Shifted,
      Plus, Overflows, Top;
    Laws();
    p.Do(Set(0xed58, 0xfc51), Neg(0xed58), Or(0xd1a2, 0xed58), Mov(0xfe22, R0), Neg(0xfe22),
         OrWith(0xfe22, 0xfc51), And(0xd1a2, 0xfe22), Neg(0xd1a2), Mov(R0, 0xd1a2), Set(R8, 0x0050),
         Set(0xdf44, 0x0000));
  }

  /** Two words that nothing depends on. */
  method Prepare(p: Program, ghost r: Regs)
    requires p.Valid() && Ready(p) && Holds(p.env, r)
    modifies p, p.m, p.r
    ensures p.Valid() && p.rest == old(p.rest)
    ensures Holds(p.env, r)
  {
    hide Program.Valid, Program.Carry, Program.Zero, Value, Assign, Exec, Legal, Both, Either, Not, Xor, Twice, Shifted,
      Plus, Overflows, Top;
    Laws();
    Tops();
    p.Sum(0, NandAndOr, Spots(0xdd3e, 0xc7fc, 0xfe6c, 0xc56a, R14, R15, 0xd1b4, 0xec86), 0x0f2a, 0xded2,
          Lit(0x0002), Of(0xca5c));
    p.Do(Mov(0xca5c, 0xdd3e), Mov(0xd1b4, R13), Mov(0xee96, R0), Shift(0xee96, false, 2), Mov(R0, 0xee96));
  }

  /** Two words, and the keys for the next two. */
  method Round(p: Program, ghost r: Regs, ghost was: seq<bv8>, ghost n: nat) returns (ghost r': Regs)
    requires p.Valid() && Ready(p) && Holds(p.env, r)
    requires |was| == SIZE && n < ROUNDS && At(was, r, n) && p.rest == Checked(was, n)
    modifies p, p.m, p.r
    ensures p.Valid() && Holds(p.env, r') && At(was, r', n + 1)
    ensures p.rest == Decrypted(was, WordAt(was, KEY), WordAt(was, KEY + 2), n + 1)
  {
    hide *;
    Values();
    Offsets(was, r, n);
    DecryptsTwo(was, n, r);
    NextRegs(was, r, n);
    FirstHalf(p, r, 0x50 + 4 * n);
    r' := Regs(Plus(r.i, r.first), r.second, Plus(2, r.r8), r.i);
    SecondHalf(p, r', 0x52 + 4 * n);
    r' := Regs(Plus(r.i, r.first), Plus(r.second, Plus(1, Not(r.i))), Plus(2, Plus(2, r.r8)), Plus(1, r.i));
  }

  method FirstHalf(p: Program, ghost r: Regs, ghost offset: nat)
    requires p.Valid() && Ready(p) && Holds(p.env, r) && r.r8 as int == offset < 0x200
    modifies p, p.m, p.r
    ensures p.Valid() && p.rest == XorAt(old(p.rest), offset, r.first)
    ensures Holds(p.env, Regs(Plus(r.i, r.first), r.second, Plus(2, r.r8), r.i))
  {
    hide *;
    DecryptFirst(p, r, offset);
    NextFirst(p, r);
    HalfWay(p, Regs(Plus(r.i, r.first), r.second, r.r8, r.i));
  }

  method SecondHalf(p: Program, ghost r: Regs, ghost offset: nat)
    requires p.Valid() && Ready(p) && Holds(p.env, r) && r.r8 as int == offset < 0x200
    modifies p, p.m, p.r
    ensures p.Valid() && p.rest == XorAt(old(p.rest), offset, r.second)
    ensures Holds(p.env, Regs(r.first, Plus(r.second, Plus(1, Not(r.i))), Plus(2, r.r8), Plus(1, r.i)))
  {
    hide *;
    DecryptSecond(p, r, offset);
    Negative(p, r);
    NextSecond(p, r);
    ghost var second := Plus(r.second, Plus(1, Not(r.i)));
    NextOffset(p, Regs(r.first, second, r.r8, r.i));
    NextRound(p, Regs(r.first, second, Plus(2, r.r8), r.i));
  }

  /** A word of the block: unmasked, combined with the key, stored without a mask. */
  method DecryptFirst(p: Program, ghost r: Regs, ghost offset: nat)
    requires p.Valid() && Ready(p) && Holds(p.env, r) && r.r8 as int == offset < 0x200
    modifies p, p.m, p.r
    ensures p.Valid() && Holds(p.env, r) && p.rest == XorAt(old(p.rest), offset, r.first)
  {
    hide Program.Valid, Value, IsCell, XorAt, Put, WordAt, Mask, Xor;
    var r8 := p.Read(R8);
    var at := r8 as nat;
    XorAtIs(p.rest, at, r.first);
    var word := p.LoadMasked(BASE, at, 0x7);
    word := SpellFirst(p, r, word);
    p.Store(BASE + at, word);
  }

  method SpellFirst(p: Program, ghost r: Regs, word: Word) returns (combined: Word)
    requires p.Valid() && Ready(p) && Holds(p.env, r)
    modifies p, p.m, p.r
    ensures p.Valid() && p.rest == old(p.rest) && Holds(p.env, r) && combined == Xor(word, r.first)
  {
    hide Program.Valid, Program.Carry, Program.Zero, Value, Assign, Exec, Legal, Both, Either, Not, Xor, Twice, Shifted,
      Plus, Overflows, Top;
    Laws();
    NandAndOrIsXor(word, r.first);
    p.Do(Set(0xed5e, word), Mov(0xd3cc, R11), Mov(0xc56a, 0xed5e), And(0xc56a, R11), Neg(0xc56a),
         Mov(0xec0e, 0xed5e), Or(0xec0e, R11), And(0xc56a, 0xec0e));
    combined := p.Read(0xc56a);
  }

  method NextFirst(p: Program, ghost r: Regs)
    requires p.Valid() && Ready(p) && Holds(p.env, r)
    modifies p, p.m, p.r
    ensures p.Valid() && p.rest == old(p.rest)
    ensures Holds(p.env, Regs(Plus(r.i, r.first), r.second, r.r8, r.i))
  {
    hide Program.Valid, Program.Carry, Program.Zero, Value, Assign, Exec, Legal, Both, Either, Not, Xor, Twice, Shifted,
      Plus, Overflows, Top;
    Laws();
    Tops();
    p.Sum(0, AndsOfNots, Spots(0xea0a, 0xedce, 0xc56a, 0xfa8c, 0xfb56, R15, 0xc5c0, 0xd260), 0x1bda, 0xd3dc,
          Of(0xdf44), Of(R11));
    p.Do(Mov(R11, 0xea0a), Mov(0xec0e, R6));
  }

  method HalfWay(p: Program, ghost r: Regs)
    requires p.Valid() && Ready(p) && Holds(p.env, r)
    modifies p, p.m, p.r
    ensures p.Valid() && p.rest == old(p.rest)
    ensures Holds(p.env, Regs(r.first, r.second, Plus(2, r.r8), r.i))
  {
    hide Program.Valid, Program.Carry, Program.Zero, Value, Assign, Exec, Legal, Both, Either, Not, Xor, Twice, Shifted,
      Plus, Overflows, Top;
    Laws();
    Tops();
    p.Sum(1, AndOrNor, Spots(0xc5de, 0xf6a2, 0xc812, 0xee1a, R14, R15, 0xecac, 0xec86), 0x4d6c, 0x99c3,
          Lit(0x0002), Of(R8));
    p.Do(Mov(R8, 0xc5de));
  }

  /** The other word, with another spelling. */
  method DecryptSecond(p: Program, ghost r: Regs, ghost offset: nat)
    requires p.Valid() && Ready(p) && Holds(p.env, r) && r.r8 as int == offset < 0x200
    modifies p, p.m, p.r
    ensures p.Valid() && Holds(p.env, r) && p.rest == XorAt(old(p.rest), offset, r.second)
  {
    hide Program.Valid, Value, IsCell, XorAt, Put, WordAt, Mask, Xor;
    var r8 := p.Read(R8);
    var at := r8 as nat;
    XorAtIs(p.rest, at, r.second);
    var word := p.LoadMasked(BASE, at, 0x7);
    word := SpellSecond(p, r, word);
    p.Store(BASE + at, word);
  }

  method SpellSecond(p: Program, ghost r: Regs, word: Word) returns (combined: Word)
    requires p.Valid() && Ready(p) && Holds(p.env, r)
    modifies p, p.m, p.r
    ensures p.Valid() && p.rest == old(p.rest) && Holds(p.env, r) && combined == Xor(word, r.second)
  {
    hide Program.Valid, Program.Carry, Program.Zero, Value, Assign, Exec, Legal, Both, Either, Not, Xor, Twice, Shifted,
      Plus, Overflows, Top;
    Laws();
    NotXnorIsXor(word, r.second);
    p.Do(Set(0xf5d6, word), Mov(0xec86, 0xf5d6), And(0xec86, 0xf308), Mov(0xc56a, 0xf5d6), Or(0xc56a, 0xf308),
         Neg(0xc56a), Or(0xec86, 0xc56a), Neg(0xec86));
    combined := p.Read(0xec86);
  }

  method Negative(p: Program, ghost r: Regs)
    requires p.Valid() && Ready(p) && Holds(p.env, r)
    modifies p, p.m, p.r
    ensures p.Valid() && p.rest == old(p.rest)
    ensures Holds(p.env, r) && Value(p.env, 0xec86) == Plus(1, Not(r.i))
  {
    hide Program.Valid, Program.Carry, Program.Zero, Value, Assign, Exec, Legal, Both, Either, Not, Xor, Twice, Shifted,
      Plus, Overflows, Top;
    Laws();
    Tops();
    p.Do(Set(0xec86, 0x05ef), Shift(0xec86, true, 1), Mov(0xec86, 0xdf44), Neg(0xec86));
    p.Sum(0, OrAndNand, Spots(0xd54a, 0xea56, 0xcbbe, 0xeaee, R14, R15, 0xc56a, 0xde48), 0x1b51, 0xfd25,
          Lit(0x0001), Of(0xec86));
    p.Do(Mov(0xec86, 0xd54a));
  }

  method NextSecond(p: Program, ghost r: Regs)
    requires p.Valid() && Ready(p) && Holds(p.env, r)
    modifies p, p.m, p.r
    ensures p.Valid() && p.rest == old(p.rest)
    ensures Holds(p.env, Regs(r.first, old(Plus(r.second, Value(p.env, 0xec86))), r.r8, r.i))
  {
    hide Program.Valid, Program.Carry, Program.Zero, Value, Assign, Exec, Legal, Both, Either, Not, Xor, Twice, Shifted,
      Plus, Overflows, Top;
    Laws();
    Tops();
    p.Sum(1, OrAndNand, Spots(0xcb60, 0xcac2, 0xdb1e, 0xdc92, R14, R15, 0xd31c, 0xc56a), 0x69f5, 0xeda8,
          Of(0xf308), Of(0xec86));
    p.Do(Mov(0xf308, 0xcb60));
  }

  method NextOffset(p: Program, ghost r: Regs)
    requires p.Valid() && Ready(p) && Holds(p.env, r)
    modifies p, p.m, p.r
    ensures p.Valid() && p.rest == old(p.rest)
    ensures Holds(p.env, Regs(r.first, r.second, Plus(2, r.r8), r.i))
  {
    hide Program.Valid, Program.Carry, Program.Zero, Value, Assign, Exec, Legal, Both, Either, Not, Xor, Twice, Shifted,
      Plus, Overflows, Top;
    Laws();
    Tops();
    p.Do(Set(0xec86, 0x6030));
    p.Sum(1, NandAndOr, Spots(0xc802, 0xe69c, 0xec86, 0xd556, R14, R15, 0xee0c, 0xc474), 0x53e8, 0xd1c2,
          Lit(0x0002), Of(R8));
    p.Do(Mov(R8, 0xc802));
  }

  method NextRound(p: Program, ghost r: Regs)
    requires p.Valid() && Ready(p) && Holds(p.env, r)
    modifies p, p.m, p.r
    ensures p.Valid() && p.rest == old(p.rest)
    ensures Holds(p.env, Regs(r.first, r.second, r.r8, Plus(1, r.i)))
  {
    hide Program.Valid, Program.Carry, Program.Zero, Value, Assign, Exec, Legal, Both, Either, Not, Xor, Twice, Shifted,
      Plus, Overflows, Top;
    Laws();
    Tops();
    p.Sum(0, NorThenAnd, Spots(0xcf66, 0xdb5e, 0xc7e0, 0xf7a4, 0xdade, 0xc6f4, 0xefce, 0xc56a), 0x2c71,
          0xcddc, Lit(0x0001), Of(0xdf44));
    p.Do(Mov(0xdf44, 0xcf66));
  }

  /** After the last round the last word must be the check word, and is otherwise
      overwritten. */
  method Check(p: Program, ghost r: Regs, ghost was: seq<bv8>, ghost n: nat) returns (ret: bool, ghost r': Regs)
    requires p.Valid() && Ready(p) && Holds(p.env, r) && |was| == SIZE && 0 < n && At(was, r, n)
    requires p.rest == Decrypted(was, WordAt(was, KEY), WordAt(was, KEY + 2), n)
    modifies p, p.m, p.r
    ensures p.Valid() && Holds(p.env, r') && r'.i as int == n && (n < ROUNDS ==> r' == r)
    ensures p.rest == Checked(was, n) && ret == (n < ROUNDS || Accepts(was))
  {
    hide *;
    Values();
    Checking(was, r, n);
    r' := r;
    ret := true;
    Limit(p, r);
    AtLimit(p, r);
    if !p.z1 {
      return;
    }
    Address(p, r);
    Length(p, r);
    MinusTwo(p, r);
    LastOffset(p, r);
    r' := Regs(r.first, r.second, Plus(r.r8, Plus(1, Not(0x2))), r.i);
    LoadLast(p, r');
    MinusCheck(p, r');
    Comparing(Value(p.env, 0xfeda));
    Compare(p, r');
    if !p.z1 {
      ret := false;
      StoreLast(p, r');
    }
  }

  method Limit(p: Program, ghost r: Regs)
    requires p.Valid() && Ready(p) && Holds(p.env, r)
    modifies p, p.m, p.r
    ensures p.Valid() && p.rest == old(p.rest)
    ensures Holds(p.env, r) && Value(p.env, 0xcf66) == r.i && Value(p.env, 0xc56a) == Plus(1, Not(0x40))
  {
    hide Program.Valid, Program.Carry, Program.Zero, Value, Assign, Exec, Legal, Both, Either, Not, Xor, Twice, Shifted,
      Plus, Overflows, Top;
    Laws();
    Tops();
    p.Do(Mov(0xcf66, 0xdf44), Set(0xc56a, 0x0040), Neg(0xc56a));
    p.Sum(1, OrAndNand, Spots(0xcaf8, 0xce44, 0xe242, 0xdfa0, R14, R15, 0xe4c8, 0xe740), 0x4c6c, 0x8127,
          Lit(0x0001), Of(0xc56a));
    p.Do(Mov(0xc56a, 0xcaf8));
  }

  method AtLimit(p: Program, ghost r: Regs)
    requires p.Valid() && Ready(p) && Holds(p.env, r)
    modifies p, p.m, p.r
    ensures p.Valid() && p.rest == old(p.rest)
    ensures Holds(p.env, r) && p.z1 == (old(Plus(Value(p.env, 0xcf66), Value(p.env, 0xc56a))) == 0)
  {
    hide Program.Valid, Program.Carry, Value, Assign, Exec, Legal, Both, Either, Not, Xor, Twice, Shifted,
      Plus, Overflows, Top;
    Laws();
    Tops();
    Idempotent(Plus(Value(p.env, 0xcf66), Value(p.env, 0xc56a)));
    p.Sum(1, NotOfOrs, Spots(0xc6f2, 0xc2d6, 0xe074, 0xc086, 0xe356, R15, 0xec86, 0xd0d2), 0x28e1, 0xef91,
          Of(0xcf66), Of(0xc56a));
    p.Do(Mov(0xcf66, 0xc6f2));
    p.Test(1, 0xcf66);
  }

  /** Nothing depends on what the two loops at 744 and 792 compute. */
  method Address(p: Program, ghost r: Regs)
    requires p.Valid() && Ready(p) && Holds(p.env, r)
    modifies p, p.m, p.r
    ensures p.Valid() && p.rest == old(p.rest)
    ensures Holds(p.env, r)
  {
    hide Program.Valid, Program.Carry, Program.Zero, Value, Assign, Exec, Legal, Both, Either, Not, Xor, Twice, Shifted,
      Plus, Overflows, Top;
    Laws();
    Tops();
    p.Do(Set(0xcf66, 0x1fbf), Set(0xec86, 0xb000), Set(0xe968, 0x5f32), Shift(0xe968, true, 1));
    p.Sum(0, NandAndNotNor, Spots(0xe0b8, 0xc56e, 0xf142, 0xc10e, R14, R15, 0xdbb4, 0xc56a), 0x2731, 0xbbbc,
          Of(R0), Of(0xec86));
    p.Do(Mov(0xec86, 0xe0b8));
  }

  method Length(p: Program, ghost r: Regs)
    requires p.Valid() && Ready(p) && Holds(p.env, r)
    modifies p, p.m, p.r
    ensures p.Valid() && p.rest == old(p.rest)
    ensures Holds(p.env, r)
  {
    hide Program.Valid, Program.Carry, Program.Zero, Value, Assign, Exec, Legal, Both, Either, Not, Xor, Twice, Shifted,
      Plus, Overflows, Top;
    Laws();
    Tops();
    p.Sum(1, AndOrNor, Spots(0xc1c8, 0xfde4, 0xf016, 0xec30, R14, R15, 0xc56a, 0xf282), 0x2f2c, 0x87d9,
          Of(0xca5c), Of(0xec86));
  }

  method MinusTwo(p: Program, ghost r: Regs)
    requires p.Valid() && Ready(p) && Holds(p.env, r)
    modifies p, p.m, p.r
    ensures p.Valid() && p.rest == old(p.rest)
    ensures Holds(p.env, r) && Value(p.env, 0xec86) == 0xbe92 && Value(p.env, 0xc56a) == Plus(1, Not(0x2))
  {
    hide Program.Valid, Program.Carry, Program.Zero, Value, Assign, Exec, Legal, Both, Either, Not, Xor, Twice, Shifted,
      Plus, Overflows, Top;
    Laws();
    Tops();
    p.Do(Set(0xec86, 0xbe92), Set(0xc56a, 0x0002), Neg(0xc56a));
    p.Sum(0, NotOfOrs, Spots(0xcf42, 0xe402, 0xd7dc, 0xd98e, 0xddf4, R15, 0xd6c6, 0xe28c), 0x013b, 0xde81,
          Lit(0x0001), Of(0xc56a));
    p.Do(Mov(0xc56a, 0xcf42));
  }

  method LastOffset(p: Program, ghost r: Regs)
    requires p.Valid() && Ready(p) && Holds(p.env, r)
    modifies p, p.m, p.r
    ensures p.Valid() && p.rest == old(p.rest)
    ensures Holds(p.env, Regs(r.first, r.second, Plus(r.r8, old(Value(p.env, 0xc56a))), r.i))
    ensures Value(p.env, 0xec86) == old(Value(p.env, 0xec86))
  {
    hide Program.Valid, Program.Carry, Program.Zero, Value, Assign, Exec, Legal, Both, Either, Not, Xor, Twice, Shifted,
      Plus, Overflows, Top;
    Laws();
    Tops();
    p.Sum(1, NotOfOrsSwapped, Spots(0xc9c8, 0xc4cc, 0xd3b0, 0xc372, 0xd17e, R15, 0xe7a6, 0xeda0), 0x7500,
          0x9ad9, Of(R8), Of(0xc56a));
    p.Do(Mov(R8, 0xc9c8));
  }

  method LoadLast(p: Program, ghost r: Regs)
    requires p.Valid() && Ready(p) && Holds(p.env, r) && r.r8 < 0x200
    modifies p, p.m, p.r
    ensures p.Valid() && p.rest == old(p.rest) && Holds(p.env, r)
    ensures BASE + r.r8 as int + 1 < SIZE && Value(p.env, 0xfeda) == WordAt(p.rest, BASE + r.r8 as int)
    ensures Value(p.env, 0xec86) == old(Value(p.env, 0xec86))
  {
    hide Program.Valid, Program.Carry, Program.Zero, Value, Assign, Exec, Legal, Both, Either, Not, Xor, Twice, Shifted,
      Plus, Overflows, Top, WordAt;
    Laws();
    Within(r.r8);
    var r8 := p.Read(R8);
    var at := r8 as nat;
    var last := p.Load(BASE + at);
    p.Do(Set(0xd19c, last), Mov(0xfeda, 0xd19c));
  }

  method MinusCheck(p: Program, ghost r: Regs)
    requires p.Valid() && Ready(p) && Holds(p.env, r)
    modifies p, p.m, p.r
    ensures p.Valid() && p.rest == old(p.rest)
    ensures Holds(p.env, r) && Value(p.env, 0xccf6) == old(Plus(1, Not(Value(p.env, 0xec86))))
    ensures Value(p.env, 0xfeda) == old(Value(p.env, 0xfeda))
  {
    hide Program.Valid, Program.Carry, Program.Zero, Value, Assign, Exec, Legal, Both, Either, Not, Xor, Twice, Shifted,
      Plus, Overflows, Top;
    Laws();
    Tops();
    p.Do(Mov(0xccf6, 0xec86), Neg(0xccf6));
    p.Sum(1, NandAndNotNor, Spots(0xc966, 0xd092, 0xd80c, 0xc2b6, R14, R15, 0xc56a, 0xf346), 0x1d75, 0xa04f,
          Lit(0x0001), Of(0xccf6));
    p.Do(Mov(0xccf6, 0xc966));
  }

  method Compare(p: Program, ghost r: Regs)
    requires p.Valid() && Ready(p) && Holds(p.env, r)
    modifies p, p.m, p.r
    ensures p.Valid() && p.rest == old(p.rest)
    ensures Holds(p.env, r) && p.z1 == (old(Plus(Value(p.env, 0xfeda), Value(p.env, 0xccf6))) == 0)
  {
    hide Program.Valid, Program.Carry, Value, Assign, Exec, Legal, Both, Either, Not, Xor, Twice, Shifted,
      Plus, Overflows, Top;
    Laws();
    Tops();
    Idempotent(Plus(Value(p.env, 0xfeda), Value(p.env, 0xccf6)));
    p.Sum(1, AndNor, Spots(0xfb4e, 0xd072, 0xf5de, 0xe000, 0xfd18, 0xc698, 0xc56a, 0xc46a), 0x0da1, 0xc36e,
          Of(0xfeda), Of(0xccf6));
    p.Do(Mov(0xfeda, 0xfb4e));
    p.Test(1, 0xfeda);
  }

  method StoreLast(p: Program, ghost r: Regs)
    requires p.Valid() && Ready(p) && Holds(p.env, r) && r.r8 < 0x200
    modifies p, p.m, p.r
    ensures p.Valid() && Holds(p.env, r)
    ensures BASE + r.r8 as int + 1 < SIZE && p.rest == Put(old(p.rest), BASE + r.r8 as int, 0xffff)
  {
    hide Program.Valid, Value, Put;
    Within(r.r8);
    var r8 := p.Read(R8);
    var at := r8 as nat;
    p.Store(BASE + at, 0xffff);
  }

  /** The test at the end of the loop. */
  method Again(p: Program, ghost r: Regs, ghost was: seq<bv8>, ghost n: nat)
    requires p.Valid() && Ready(p) && Holds(p.env, r) && |was| == SIZE && n <= ROUNDS && r.i as int == n
    modifies p, p.m, p.r
    ensures p.Valid() && p.rest == old(p.rest) && Holds(p.env, r) && p.c0 == (n < ROUNDS)
  {
    hide *;
    Values();
    Compared(r.i);
    LimitAgain(p, r);
    BelowLimit(p, r);
  }

  method LimitAgain(p: Program, ghost r: Regs)
    requires p.Valid() && Ready(p) && Holds(p.env, r)
    modifies p, p.m, p.r
    ensures p.Valid() && p.rest == old(p.rest)
    ensures Holds(p.env, r) && Value(p.env, 0xd7ac) == r.i && Value(p.env, 0xd5e8) == Plus(1, Not(0x40))
  {
    hide Program.Valid, Program.Carry, Program.Zero, Value, Assign, Exec, Legal, Both, Either, Not, Xor, Twice, Shifted,
      Plus, Overflows, Top;
    Laws();
    Tops();
    p.Do(Mov(0xd7ac, 0xdf44), Set(0xd5e8, 0x0040), Neg(0xd5e8));
    p.Sum(1, AndNotMoved, Spots(0xfe82, 0xc958, 0xc642, 0xf9ea, 0xc56a, 0xfac2, 0xc122, 0xc636), 0x5020,
          0x9bce, Lit(0x0001), Of(0xd5e8));
    p.Do(Mov(0xd5e8, 0xfe82));
  }

  method BelowLimit(p: Program, ghost r: Regs)
    requires p.Valid() && Ready(p) && Holds(p.env, r)
    modifies p, p.m, p.r
    ensures p.Valid() && p.rest == old(p.rest)
    ensures Holds(p.env, r) && p.c0 == !old(Overflows(Value(p.env, 0xd7ac), Value(p.env, 0xd5e8)))
  {
    hide Program.Valid, Program.Zero, Value, Assign, Exec, Legal, Both, Either, Not, Xor, Twice, Shifted,
      Plus, Overflows, Top;
    Laws();
    Tops();
    p.Sum(0, OrAndNand, Spots(0xfee4, 0xc402, 0xf8b0, 0xfe56, R14, R15, 0xec06, 0xc56a), 0x5075, 0xed90,
          Of(0xd7ac), Of(0xd5e8));
    p.Do(Mov(0xd7ac, 0xfee4));
    p.Test(0, 0xd7ac);
  }

  method Finish(p: Program)
    requires p.Valid() && Ready(p)
    modifies p, p.m, p.r
    ensures p.Valid() && p.rest == Put(Put(old(p.rest), 0x8000, 0xdead), 0x8002, 0xbeef)
  {
    hide Program.Valid, Program.Carry, Program.Zero, Value, Assign, Exec, Legal, Both, Either, Not, Xor, Twice, Shifted,
      Plus, Overflows, Top, Put;
    Laws();
    p.Store(0x8000, 0xdead);
    p.Do(Mov(0xd458, R9), And(0xd458, R11));
    p.Store(0x8002, 0xbeef);
  }

  // ---------------------------------------------------------------- why

  lemma Values()
    ensures KEY == 0xa000 && BASE == 0x9fc0 && BLOCK == 0xa010 && ROUNDS == 64 && SIZE == 0x1_0000 && LAST == 0xa10e
    ensures CHECK == 0xbe92
  {
  }

  lemma Tops()
    ensures !Top(0x1bda) && Top(0xd3dc) && !Top(0x4d6c) && Top(0x99c3) && !Top(0x1b51) && Top(0xfd25)
    ensures !Top(0x69f5) && Top(0xeda8) && !Top(0x53e8) && Top(0xd1c2) && !Top(0x2c71) && Top(0xcddc)
    ensures !Top(0x4c6c) && Top(0x8127) && !Top(0x28e1) && Top(0xef91) && !Top(0x013b) && Top(0xde81)
    ensures !Top(0x7500) && Top(0x9ad9) && !Top(0x1d75) && Top(0xa04f) && !Top(0x0da1) && Top(0xc36e)
    ensures !Top(0x5020) && Top(0x9bce) && !Top(0x5075) && Top(0xed90) && !Top(0x0f2a) && Top(0xded2)
    ensures !Top(0x2731) && Top(0xbbbc) && !Top(0x2f2c) && Top(0x87d9)
  {
  }

  lemma Begin(s: seq<bv8>, r: Regs)
    requires |s| == SIZE && r == Regs(WordAt(s, KEY), WordAt(s, KEY + 2), 0x50, 0)
    ensures At(s, r, 0) && Checked(s, 0) == s
  {
    hide WordAt;
  }

  lemma Offsets(s: seq<bv8>, r: Regs, n: nat)
    requires |s| == SIZE && At(s, r, n) && n < ROUNDS
    ensures r.r8 as int == 0x50 + 4 * n && Plus(2, r.r8) as int == 0x52 + 4 * n
    ensures r.r8 < 0x200 && Plus(2, r.r8) < 0x200
  {
    hide First, Second, Count, WordAt;
    TwoMore(r.r8);
  }

  lemma TwoMore(v: Word)
    requires v < 0x180
    ensures Plus(2, v) as int == v as int + 2 && Plus(2, v) < 0x200
  {
  }

  lemma Within(r8: Word)
    requires r8 < 0x200
    ensures BASE + r8 as int + 1 < 0xc000
  {
  }

  lemma XorAtIs(s: seq<bv8>, offset: nat, key: Word)
    requires |s| == SIZE && BASE + offset + 1 < SIZE
    ensures XorAt(s, offset, key)
         == Put(s, BASE + offset, Xor(Xor(WordAt(s, BASE + offset), Mask(BASE as Word, offset, 7)), key))
  {
    hide WordAt, Put, Mask, Xor;
    Regroup(WordAt(s, BASE + offset), Mask(BASE as Word, offset, 7), key);
  }

  lemma {:induction false} DecryptsTwo(s: seq<bv8>, n: nat, r: Regs)
    requires |s| == SIZE && At(s, r, n) && n < ROUNDS
    ensures var (k1, k2) := (WordAt(s, KEY), WordAt(s, KEY + 2));
      Decrypted(s, k1, k2, n + 1) == XorAt(XorAt(Checked(s, n), 0x50 + 4 * n, r.first), 0x52 + 4 * n, r.second)
  {
    hide First, Second, Count, WordAt, XorAt, Accepts;
  }

  lemma NextRegs(s: seq<bv8>, r: Regs, n: nat)
    requires |s| == SIZE && At(s, r, n) && n < ROUNDS
    ensures At(s, Regs(Plus(r.i, r.first), Plus(r.second, Plus(1, Not(r.i))), Plus(2, Plus(2, r.r8)), Plus(1, r.i)), n + 1)
  {
    hide WordAt, Plus, First, Second, Count;
    NextCount(r.i, r.r8, n);
    NextKeys(WordAt(s, KEY), WordAt(s, KEY + 2), n);
  }

  lemma NextKeys(k1: Word, k2: Word, n: nat)
    ensures First(k1, n + 1) == Plus(Count(n), First(k1, n))
    ensures Second(k2, n + 1) == Plus(Second(k2, n), Plus(1, Not(Count(n))))
  {
    hide Plus;
  }

  lemma NextCount(i: Word, r8: Word, n: nat)
    requires i == Count(n) && i as int == n && r8 as int == 0x50 + 4 * n && i < 0x200 && r8 < 0x200 && n < ROUNDS
    ensures Plus(1, i) == Count(n + 1) && Plus(1, i) as int == n + 1 && Plus(1, i) < 0x200
    ensures Plus(2, Plus(2, r8)) as int == 0x50 + 4 * (n + 1) && Plus(2, Plus(2, r8)) < 0x200
  {
    hide Plus;
    Steps(i, r8);
  }

  lemma Steps(i: Word, r8: Word)
    requires i < 0x100 && r8 < 0x180
    ensures Plus(1, i) as int == i as int + 1 && Plus(1, i) < 0x200
    ensures Plus(2, Plus(2, r8)) as int == r8 as int + 4 && Plus(2, Plus(2, r8)) < 0x200
  {
  }

  lemma Compared(i: Word)
    ensures !Overflows(i, Plus(1, Not(0x40))) == (i as int < ROUNDS)
  {
    Below64(i);
  }

  lemma Below64(i: Word)
    ensures !Overflows(i, 1 + !0x40) == (i as int < 64)
    ensures i + (1 + !0x40) == 0 <==> i as int == 64
  {
  }

  lemma {:induction false} Checking(s: seq<bv8>, r: Regs, n: nat)
    requires |s| == SIZE && At(s, r, n) && 0 < n
    ensures n <= ROUNDS && r.i as int == n && (Plus(r.i, Plus(1, Not(0x40))) == 0 <==> n == ROUNDS)
    ensures n == ROUNDS ==> Plus(r.r8, Plus(1, Not(0x2))) as int + BASE == LAST && Plus(r.r8, Plus(1, Not(0x2))) < 0x200
    ensures var (k1, k2) := (WordAt(s, KEY), WordAt(s, KEY + 2));
      var d := Decrypted(s, k1, k2, n);
      && (n == ROUNDS ==> Accepts(s) == (WordAt(d, LAST) == CHECK))
      && Checked(s, n) == if n == ROUNDS && !Accepts(s) then Put(d, LAST, 0xffff) else d
  {
    hide First, Second, Count, WordAt, Decrypted;
    Below64(r.i);
    if n == ROUNDS {
      LastOffsetIs(r.r8);
    }
  }

  lemma LastOffsetIs(r8: Word)
    requires r8 as int == 0x150
    ensures (r8 + (1 + !0x2)) as int == 0x14e && r8 + (1 + !0x2) < 0x200
  {
  }

  lemma Comparing(last: Word)
    ensures Plus(last, Plus(1, Not(CHECK))) == 0 <==> last == CHECK
  {
  }

  lemma Finished(s: seq<bv8>)
    requires |s| == SIZE
    ensures Put(Put(Checked(s, ROUNDS), 0x8000, 0xdead), 0x8002, 0xbeef) == Result(s)
  {
    hide Checked, Put;
  }

  // ---------------------------------------------------------------- what it computes

  lemma {:induction false} CountIs(n: nat)
    requires n <= ROUNDS
    ensures Int(Count(n)) == n
  {
    hide Int, Plus;
    if n == 0 {
      ZeroInt();
    } else {
      CountIs(n - 1);
      OneInt();
      PlusInt(1, Count(n - 1));
    }
  }

  /** 0 + 1 + ... + (n - 1). */
  function Triangle(n: nat): nat {
    if n == 0 then 0 else Triangle(n - 1) + (n - 1)
  }

  lemma {:induction false} TriangleIs(n: nat)
    ensures 2 * Triangle(n) == n * (n - 1)
  {
    if n > 0 {
      TriangleIs(n - 1);
      assert n * (n - 1) == (n - 1) * (n - 2) + 2 * (n - 1);
    }
  }

  lemma {:induction false} TriangleHalf(n: nat)
    ensures Triangle(n) == n * (n - 1) / 2
  {
    TriangleIs(n);
  }

  lemma {:induction false} TriangleStep(n: nat)
    ensures Triangle(n) == if n == 0 then 0 else Triangle(n - 1) + (n - 1)
  {
  }

  lemma {:induction false} FirstKeys(k1: Word, k2: Word)
    ensures First(k1, 0) == k1 && Second(k2, 0) == k2
  {
  }

  /** Sixteen bits. */
  function Low(v: int): int {
    v % 0x1_0000
  }

  /** The first key word of round `n` is k1 + n(n - 1)/2 modulo 2^16. */
  lemma {:induction false} FirstIs(k1: Word, n: nat)
    requires n <= ROUNDS
    ensures Int(First(k1, n)) == Low(Int(k1) + Triangle(n))
  {
    hide *;
    TriangleStep(n);
    if n == 0 {
      FirstKeys(k1, k1);
      InLow(k1);
      return;
    }
    FirstIs(k1, n - 1);
    FirstStep(k1, n, Int(k1) + Triangle(n - 1), Int(k1) + Triangle(n));
  }

  lemma {:induction false} FirstStep(k1: Word, n: nat, a: int, v: int)
    requires 0 < n <= ROUNDS && Int(First(k1, n - 1)) == Low(a) && v == a + (n - 1)
    ensures Int(First(k1, n)) == Low(v)
  {
    hide *;
    CountIs(n - 1);
    var i, k := Count(n - 1), First(k1, n - 1);
    FirstNext(k1, n, i, k);
    AddStep(i, k, a, n - 1, v);
  }

  lemma FirstNext(k1: Word, n: nat, i: Word, k: Word)
    requires 0 < n && i == Count(n - 1) && k == First(k1, n - 1)
    ensures First(k1, n) == Plus(i, k)
  {
    hide Plus, Count;
  }

  /** The second key word of round `n` is k2 - n(n - 1)/2 modulo 2^16. */
  lemma {:induction false} SecondIs(k2: Word, n: nat)
    requires n <= ROUNDS
    ensures Int(Second(k2, n)) == Low(Int(k2) - Triangle(n))
  {
    hide *;
    TriangleStep(n);
    if n == 0 {
      FirstKeys(k2, k2);
      InLow(k2);
      return;
    }
    SecondIs(k2, n - 1);
    SecondStep(k2, n, Int(k2) - Triangle(n - 1), Int(k2) - Triangle(n));
  }

  lemma {:induction false} SecondStep(k2: Word, n: nat, a: int, v: int)
    requires 0 < n <= ROUNDS && Int(Second(k2, n - 1)) == Low(a) && v == a - (n - 1)
    ensures Int(Second(k2, n)) == Low(v)
  {
    hide *;
    CountIs(n - 1);
    var i, k := Count(n - 1), Second(k2, n - 1);
    SecondNext(k2, n, i, k);
    SubStep(i, k, a, n - 1, v);
  }

  lemma SecondNext(k2: Word, n: nat, i: Word, k: Word)
    requires 0 < n && i == Count(n - 1) && k == Second(k2, n - 1)
    ensures Second(k2, n) == Plus(k, Plus(1, Not(i)))
  {
    hide Plus, Count;
  }

  lemma InLow(k: Word)
    ensures Int(k) == Low(Int(k))
  {
    hide Int;
    Fits(k);
  }

  lemma AddStep(i: Word, k: Word, a: int, b: int, v: int)
    requires Int(i) == b && Int(k) == Low(a) && v == a + b
    ensures Int(Plus(i, k)) == Low(v)
  {
    hide Int, Plus;
    PlusInt(i, k);
  }

  lemma SubStep(i: Word, k: Word, a: int, b: int, v: int)
    requires Int(i) == b && Int(k) == Low(a) && v == a - b
    ensures Int(Plus(k, Plus(1, Not(i)))) == Low(v)
  {
    hide Int, Plus;
    NegativeInt(i);
    PlusInt(k, Plus(1, Not(i)));
  }

  /** The two words of round `i`, before and after `n` rounds. */
  lemma {:induction false} DecryptedWords(s: seq<bv8>, k1: Word, k2: Word, n: nat, i: nat)
    requires |s| == SIZE && n <= ROUNDS && i < ROUNDS
    ensures var (d, a, b) := (Decrypted(s, k1, k2, n), BLOCK + 4 * i, BLOCK + 2 + 4 * i);
      && WordAt(d, a) == (if i < n then Xor(WordAt(s, a), Pad(0x50 + 4 * i, First(k1, i))) else WordAt(s, a))
      && WordAt(d, b) == (if i < n then Xor(WordAt(s, b), Pad(0x52 + 4 * i, Second(k2, i))) else WordAt(s, b))
  {
    hide WordAt, Put, Pad, Xor, First, Second;
    if n > 0 {
      DecryptedWords(s, k1, k2, n - 1, i);
      var before := Decrypted(s, k1, k2, n - 1);
      var a := 0x50 + 4 * (n - 1);
      var first := XorAt(before, a, First(k1, n - 1));
      XorAtWord(before, a, First(k1, n - 1), BLOCK + 4 * i);
      XorAtWord(before, a, First(k1, n - 1), BLOCK + 2 + 4 * i);
      XorAtWord(first, a + 2, Second(k2, n - 1), BLOCK + 4 * i);
      XorAtWord(first, a + 2, Second(k2, n - 1), BLOCK + 2 + 4 * i);
    }
  }

  lemma XorAtWord(s: seq<bv8>, offset: nat, key: Word, b: nat)
    requires |s| == SIZE && BASE + offset + 1 < SIZE && b + 1 < SIZE && offset % 2 == b % 2 == 0
    ensures WordAt(XorAt(s, offset, key), b) ==
      if b == BASE + offset then Xor(WordAt(s, b), Pad(offset, key)) else WordAt(s, b)
  {
    hide WordAt, Put, Pad, Xor;
    PutThenRead(s, BASE + offset, Xor(WordAt(s, BASE + offset), Pad(offset, key)), b);
  }

  lemma {:induction false} DecryptedElsewhere(s: seq<bv8>, k1: Word, k2: Word, n: nat, b: nat)
    requires |s| == SIZE && n <= ROUNDS && b < SIZE && !(BLOCK <= b < BLOCK + 4 * ROUNDS)
    ensures Decrypted(s, k1, k2, n)[b] == s[b]
  {
    hide WordAt, Pad, Xor, First, Second, Low, High;
    if n > 0 {
      DecryptedElsewhere(s, k1, k2, n - 1, b);
    }
  }

  /** The key words of round `i` are k1 + i(i - 1)/2 and k2 - i(i - 1)/2, modulo 2^16. */
  predicate KeysOf(k1: Word, k2: Word, i: nat, first: Word, second: Word) {
    Int(first) == Low(Int(k1) + i * (i - 1) / 2) && Int(second) == Low(Int(k2) - i * (i - 1) / 2)
  }

  lemma {:induction false} KeysAre(k1: Word, k2: Word, i: nat, first: Word, second: Word)
    requires i < ROUNDS
    ensures KeysOf(k1, k2, i, first, second) <==> first == First(k1, i) && second == Second(k2, i)
  {
    hide First, Second, Int, Low, Triangle;
    FirstIs(k1, i);
    SecondIs(k2, i);
    TriangleHalf(i);
    if KeysOf(k1, k2, i, first, second) {
      IntInjective(first, First(k1, i));
      IntInjective(second, Second(k2, i));
    }
  }

  lemma AllKeysAre(k1: Word, k2: Word)
    ensures KeysClosed(k1, k2)
  {
    hide KeysOf, First, Second;
    forall i: nat, first: Word, second: Word | i < ROUNDS
      ensures KeysOf(k1, k2, i, first, second) <==> first == First(k1, i) && second == Second(k2, i)
    {
      KeysAre(k1, k2, i, first, second);
    }
  }

  /** A word unmasked and combined with a key. */
  function Combined(s: seq<bv8>, offset: nat, key: Word): Word
    requires |s| == SIZE && BASE + offset + 1 < SIZE
  {
    WordAt(s, BASE + offset) ^ (Mask(BASE as Word, offset, 7) ^ key)
  }

  /** That closed form determines the key words of every round. */
  ghost predicate KeysClosed(k1: Word, k2: Word) {
    forall i: nat, first: Word, second: Word | i < ROUNDS ::
      KeysOf(k1, k2, i, first, second) <==> first == First(k1, i) && second == Second(k2, i)
  }

  predicate FirstWords(s: seq<bv8>, d: seq<bv8>, k1: Word)
    requires |s| == |d| == SIZE
  {
    forall i: nat | i < ROUNDS :: WordAt(d, BLOCK + 4 * i) == Combined(s, 0x50 + 4 * i, First(k1, i))
  }

  /** A refused last word is 0xffff. */
  predicate SecondWords(s: seq<bv8>, d: seq<bv8>, k2: Word, accepted: bool)
    requires |s| == |d| == SIZE
  {
    forall i: nat | i < ROUNDS ::
      WordAt(d, BLOCK + 2 + 4 * i) == if i == 63 && !accepted then 0xffff else Combined(s, 0x52 + 4 * i, Second(k2, i))
  }

  /** The last word becomes the check word. */
  predicate Opens(s: seq<bv8>, k2: Word)
    requires |s| == SIZE
  {
    Combined(s, 0x14e, Second(k2, 63)) == CHECK
  }

  predicate Flagged(d: seq<bv8>)
    requires |d| == SIZE
  {
    WordAt(d, 0x8000) == 0xdead && WordAt(d, 0x8002) == 0xbeef
  }

  /** No byte outside the block and the result flag changes. */
  predicate OthersKept(s: seq<bv8>, d: seq<bv8>)
    requires |s| == |d| == SIZE
  {
    forall b: nat | b < SIZE && !(BLOCK <= b < BLOCK + 4 * ROUNDS) && !(0x8000 <= b < 0x8004) :: d[b] == s[b]
  }

  /** What the program returns and leaves: it accepts exactly if the last word
      becomes the check word, and every word of the block is combined with the key
      words of its round, in closed form. */
  lemma ResultIs(s: seq<bv8>)
    requires |s| == SIZE
    ensures var (k1, k2, d) := (WordAt(s, KEY), WordAt(s, KEY + 2), Result(s));
      && KeysClosed(k1, k2) && FirstWords(s, d, k1) && SecondWords(s, d, k2, Accepts(s)) && OthersKept(s, d)
      && (Accepts(s) <==> Opens(s, k2)) && Flagged(d)
  {
    hide WordAt, KeysClosed, Combined, First, Second, Accepts, Result;
    Accepting(s);
    ResultFlag(s);
    AllKeysAre(WordAt(s, KEY), WordAt(s, KEY + 2));
    forall i: nat | i < ROUNDS
      ensures WordAt(Result(s), BLOCK + 4 * i) == Combined(s, 0x50 + 4 * i, First(WordAt(s, KEY), i))
      ensures WordAt(Result(s), BLOCK + 2 + 4 * i) ==
        if i == 63 && !Accepts(s) then 0xffff else Combined(s, 0x52 + 4 * i, Second(WordAt(s, KEY + 2), i))
    {
      FirstWord(s, i);
      SecondWord(s, i);
    }
    forall b: nat | b < SIZE && !(BLOCK <= b < BLOCK + 4 * ROUNDS) && !(0x8000 <= b < 0x8004)
      ensures Result(s)[b] == s[b]
    {
      ResultElsewhere(s, b);
    }
  }

  lemma Accepting(s: seq<bv8>)
    requires |s| == SIZE
    ensures Accepts(s) <==> Opens(s, WordAt(s, KEY + 2))
  {
    hide WordAt, Put, Pad, Xor, Decrypted, First, Second, Combined;
    DecryptedWords(s, WordAt(s, KEY), WordAt(s, KEY + 2), ROUNDS, 63);
    PadIs(s, 0x14e, Second(WordAt(s, KEY + 2), 63));
  }

  lemma PadIs(s: seq<bv8>, offset: nat, key: Word)
    requires |s| == SIZE && BASE + offset + 1 < SIZE
    ensures Xor(WordAt(s, BASE + offset), Pad(offset, key)) == Combined(s, offset, key)
  {
    hide Mask, WordAt, Xor;
    PadOf(WordAt(s, BASE + offset), Mask(BASE as Word, offset, 7), key);
  }

  lemma PadOf(w: Word, mask: Word, key: Word)
    ensures Xor(w, Xor(mask, key)) == w ^ (mask ^ key)
  {
  }

  lemma {:induction false} FirstWord(s: seq<bv8>, i: nat)
    requires |s| == SIZE && i < ROUNDS
    ensures WordAt(Result(s), BLOCK + 4 * i) == Combined(s, 0x50 + 4 * i, First(WordAt(s, KEY), i))
  {
    hide WordAt, Put, Pad, Xor, Decrypted, First, Second, Combined, Accepts;
    var k1, k2, a := WordAt(s, KEY), WordAt(s, KEY + 2), BLOCK + 4 * i;
    DecryptedWords(s, k1, k2, ROUNDS, i);
    FlagElsewhere(s, a);
    PutThenRead(Decrypted(s, k1, k2, ROUNDS), LAST, 0xffff, a);
    PadIs(s, 0x50 + 4 * i, First(k1, i));
  }

  lemma {:induction false} SecondWord(s: seq<bv8>, i: nat)
    requires |s| == SIZE && i < ROUNDS
    ensures WordAt(Result(s), BLOCK + 2 + 4 * i) ==
      if i == 63 && !Accepts(s) then 0xffff else Combined(s, 0x52 + 4 * i, Second(WordAt(s, KEY + 2), i))
  {
    hide WordAt, Put, Pad, Xor, Decrypted, First, Second, Combined, Accepts;
    var k1, k2, a := WordAt(s, KEY), WordAt(s, KEY + 2), BLOCK + 2 + 4 * i;
    DecryptedWords(s, k1, k2, ROUNDS, i);
    FlagElsewhere(s, a);
    PutThenRead(Decrypted(s, k1, k2, ROUNDS), LAST, 0xffff, a);
    PadIs(s, 0x52 + 4 * i, Second(k2, i));
  }

  lemma FlagElsewhere(s: seq<bv8>, a: nat)
    requires |s| == SIZE && a % 2 == 0 && BLOCK <= a < BLOCK + 4 * ROUNDS
    ensures WordAt(Result(s), a) == WordAt(Checked(s, ROUNDS), a)
  {
    hide WordAt, Put, Checked;
    var e := Put(Checked(s, ROUNDS), 0x8000, 0xdead);
    PutThenRead(Checked(s, ROUNDS), 0x8000, 0xdead, a);
    PutThenRead(e, 0x8002, 0xbeef, a);
  }

  lemma ResultFlag(s: seq<bv8>)
    requires |s| == SIZE
    ensures Flagged(Result(s))
  {
    hide WordAt, Put, Checked;
    var e := Put(Checked(s, ROUNDS), 0x8000, 0xdead);
    PutThenRead(Checked(s, ROUNDS), 0x8000, 0xdead, 0x8000);
    PutThenRead(e, 0x8002, 0xbeef, 0x8000);
    PutThenRead(e, 0x8002, 0xbeef, 0x8002);
  }

  lemma ResultElsewhere(s: seq<bv8>, b: nat)
    requires |s| == SIZE && b < SIZE && !(BLOCK <= b < BLOCK + 4 * ROUNDS) && !(0x8000 <= b < 0x8004)
    ensures Result(s)[b] == s[b]
  {
    hide WordAt, Pad, Xor, Decrypted, First, Second, Mask, Accepts, Low, High;
    DecryptedElsewhere(s, WordAt(s, KEY), WordAt(s, KEY + 2), ROUNDS, b);
  }
}
