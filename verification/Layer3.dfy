/** The third layer (bflayer3.c): sixteen words are decrypted in place.  Every
    statement of the program is here, in its order, but for the filler at the end. */
module Layer3 {
  import opened Words
  import opened Obfuscation
  import opened Adder
  import opened Ram
  import opened Programs

  const KEY := 0xa000
  const BASE := 0xa00c  // where the masks of the block are counted from
  const BLOCK := 0xa010

  /** The two key words as one: the bytewise exclusive or, its high byte used twice. */
  function Key(k1: Word, k2: Word): Word {
    Fold(Xor(k1 >> 8, k2 >> 8), Xor(k1 & 0xff, k2 & 0xff))
  }

  function Fold(high: Word, low: Word): Word {
    Plus(Plus(high, low), high << 8)
  }

  /** What word number `i` is combined with. */
  function Pad(key: Word, i: nat): Word {
    Xor(Mask(BASE as Word, 4 + 2 * i, 0x33), key)
  }

  /** The memory after the first `n` words of the block. */
  function Decrypted(s: seq<bv8>, key: Word, n: nat): (r: seq<bv8>)
    requires |s| == SIZE && n <= 16
    ensures |r| == SIZE
  {
    if n == 0 then s
    else
      var before := Decrypted(s, key, n - 1);
      var a := BLOCK + 2 * (n - 1);
      Put(before, a, Xor(WordAt(before, a), Pad(key, n - 1)))
  }

  function Result(s: seq<bv8>): (r: seq<bv8>)
    requires |s| == SIZE
    ensures |r| == SIZE
  {
    var key := Key(WordAt(s, KEY), WordAt(s, KEY + 2));
    Put(Put(Decrypted(s, key, 16), 0x8000, 0xdead), 0x8002, 0xbeef)
  }

  // ---------------------------------------------------------------- the program

  /** r9 is cleared before the first masked access and never written again. */
  predicate Ready(p: Program) {
    p.layer == Three && p.zero == 9
  }

  /** What the program carries from one word to the next. */
  predicate Carries(e: Env, key: Word, counter: Word, r0: Word) {
    Value(e, 0xdb2a) == key && Value(e, 0xea26) == counter && Value(e, R0) == r0
  }

  /** Whatever the registers and the cells hold: outside its cells the program
      leaves exactly the result. */
  method Run(m: array<bv8>, regs: seq<Word>)
    requires m.Length == SIZE && |regs| == 16
    modifies m
    ensures Clear(Three, m[..]) == Result(Clear(Three, old(m[..])))
  {
    hide Program.Valid, Program.Carry, Value, Assign, Carries, Decrypted, Key, Put, WordAt, Counts;
    var p := new Program(m, Three, regs[9 := 0], 9);
    ghost var was := p.rest;
    ghost var key := KeyOf(was);
    ghost var counter, r0: Word := 0, 4;
    ghost var i := 0;
    MakeKey(p);
    Begin(was, key);
    var more := true;
    while more
      invariant p.Valid() && i <= 16 && p.rest == Decrypted(was, key, i) && more == (i < 16)
      invariant Counts(counter, r0, i) && Carries(p.env, key, counter, r0)
      decreases 16 - i
    {
      DecryptWord(p, key, counter, r0, was, i);
      counter, r0 := Advance(p, key, counter, r0, i);
      more := p.c0;
      i := i + 1;
    }
    p.Store(0x8000, 0xdead);
    p.Do(Mov(0xcac6, R1), And(0xcac6, R8));
    p.Store(0x8002, 0xbeef);
    Finished(was, key);
    p.RestIs();
  }

  method MakeKey(p: Program)
    requires p.Valid() && Ready(p)
    modifies p, p.m, p.r
    ensures p.Valid() && p.rest == old(p.rest) && Carries(p.env, KeyOf(p.rest), 0, 4)
  {
    hide Program.Valid, Value, Both, Xor, Shifted, Plus, Key, WordAt;
    LowBytes(p);
    HighBytes(p);
    KeyMade(WordAt(p.rest, KEY), WordAt(p.rest, KEY + 2));
    SumBytes(p);
    SumAll(p);
  }

  method SumBytes(p: Program)
    requires p.Valid() && Ready(p)
    modifies p, p.m, p.r
    ensures p.Valid() && p.rest == old(p.rest)
    ensures Value(p.env, R13) == old(Plus(Value(p.env, R7), Value(p.env, R13)))
    ensures Value(p.env, 0xdb2a) == old(Value(p.env, 0xdb2a))
  {
    hide Program.Valid, Program.Carry, Program.Zero, Value, Assign, Exec, Legal, Both, Either, Not, Xor, Twice, Shifted,
      Plus, Overflows, Top;
    Laws();
    Tops();
    p.Sum(0, AndNotMoved, Spots(0xf49c, 0xe216, R12, 0xe5a0, 0xd666, 0xc9c0, 0xea26, 0xd944), 0x4cf0, 0xa1a6,
          Of(R7), Of(R13));
    p.Do(Mov(R13, 0xf49c));
  }

  method SumAll(p: Program)
    requires p.Valid() && Ready(p)
    modifies p, p.m, p.r
    ensures p.Valid() && p.rest == old(p.rest)
    ensures Carries(p.env, old(Plus(Value(p.env, R13), Value(p.env, 0xdb2a))), 0, 4)
  {
    hide Program.Valid, Program.Carry, Program.Zero, Value, Assign, Exec, Legal, Both, Either, Not, Xor, Twice, Shifted,
      Plus, Overflows, Top;
    Laws();
    Tops();
    p.Sum(1, AndNotMoved, Spots(0xc82a, 0xf97a, 0xe38e, 0xc07c, 0xdbc6, 0xc76e, 0xcb82, 0xea26), 0x6d6d,
          0xac93, Of(R13), Of(0xdb2a));
    p.Do(Mov(0xdb2a, 0xc82a), Set(0xea26, 0x0000), Mov(0xf9ca, R7), And(0xf9ca, R0), Set(R0, 0x0004));
  }

  /** The low bytes of the two key words. */
  method LowBytes(p: Program)
    requires p.Valid() && Ready(p)
    modifies p, p.m, p.r
    ensures p.Valid() && p.rest == old(p.rest)
    ensures var (k1, k2) := (WordAt(p.rest, KEY), WordAt(p.rest, KEY + 2));
      && Value(p.env, R13) == Xor(Both(k1, 0xff), Both(k2, 0xff))
      && Value(p.env, 0xdb2a) == k1 && Value(p.env, R0) == k2
  {
    hide Program.Valid, Program.Carry, Program.Zero, Value, Assign, Exec, Legal, Both, Either, Not, Xor, Twice, Shifted,
      Plus, Overflows, Top;
    Laws();
    var k1 := p.Load(0xa000);
    var k2 := p.Load(0xa002);
    NandAndOrIsXor(Both(k1, 0xff), Both(k2, 0xff));
    p.Do(Mov(R13, R7), Set(0xdb2a, k1), Mov(0xd73c, R2), Or(0xd73c, R0), Set(R0, k2), Set(0xd9a6, 0x6e63),
         Shift(0xd9a6, true, 1), Mov(R12, 0xdb2a), AndWith(R12, 0x00ff), Mov(0xf9c4, R12), Mov(0xdf0c, R0),
         AndWith(0xdf0c, 0x00ff));
    p.Do(Mov(0xef0c, R4), Or(0xef0c, R7), Mov(0xc910, 0xf9c4), And(0xc910, 0xdf0c), Neg(0xc910),
         Mov(0xfdee, 0xf9c4), Or(0xfdee, 0xdf0c), And(0xc910, 0xfdee), Mov(R13, 0xc910));
  }

  /** The high bytes. */
  method HighBytes(p: Program)
    requires p.Valid() && Ready(p)
    modifies p, p.m, p.r
    ensures p.Valid() && p.rest == old(p.rest)
    ensures var (k1, k2) := old((Value(p.env, 0xdb2a), Value(p.env, R0)));
      var high := Xor(Shifted(k1, true, 8), Shifted(k2, true, 8));
      && Value(p.env, R7) == high && Value(p.env, R13) == old(Value(p.env, R13))
      && Value(p.env, 0xdb2a) == Shifted(high, false, 8)
  {
    hide Program.Valid, Program.Carry, Program.Zero, Value, Assign, Exec, Legal, Both, Either, Not, Xor, Twice, Shifted,
      Plus, Overflows, Top;
    Laws();
    AndOrNorIsXor(Shifted(Value(p.env, 0xdb2a), true, 8), Shifted(Value(p.env, R0), true, 8));
    p.Do(Mov(0xfb78, 0xdb2a), Shift(0xfb78, true, 8), Mov(0xf9c4, 0xfb78), Mov(0xfb78, R2), Mov(0xe462, R0),
         Shift(0xe462, true, 8), Mov(0xdf0c, 0xe462), Mov(0xdfc8, 0xf9c4), Neg(0xdfc8), And(0xdfc8, 0xdf0c),
         Mov(0xea26, 0xf9c4), Neg(0xea26));
    p.Do(Or(0xea26, 0xdf0c), Neg(0xea26), Or(0xdfc8, 0xea26), Mov(R7, 0xdfc8), Mov(0xf390, R8), Mov(0xf740, R7),
         Shift(0xf740, false, 8), Mov(0xdb2a, 0xf740), Mov(0xf740, R11));
  }

  lemma KeyMade(k1: Word, k2: Word)
    ensures var high := Xor(Shifted(k1, true, 8), Shifted(k2, true, 8));
      Plus(Plus(high, Xor(Both(k1, 0xff), Both(k2, 0xff))), Shifted(high, false, 8)) == Key(k1, k2)
  {
    hide Plus, Xor, Shifted;
    ByteShifts(k1);
    ByteShifts(k2);
    ByteShifts(Xor(k1 >> 8, k2 >> 8));
  }

  /** The counters at the start of word `i`. */
  predicate Counts(counter: Word, r0: Word, i: nat) {
    i <= 16 && counter as int == i && r0 as int == 4 + 2 * i && counter < 0x200 && r0 < 0x200
  }

  /** A word of the block: unmasked, combined with the key, stored without a mask. */
  method DecryptWord(p: Program, ghost key: Word, ghost counter: Word, ghost r0: Word, ghost was: seq<bv8>, ghost i: nat)
    requires p.Valid() && Ready(p) && Carries(p.env, key, counter, r0)
    requires |was| == SIZE && i < 16 && Counts(counter, r0, i) && p.rest == Decrypted(was, key, i)
    modifies p, p.m, p.r
    ensures p.Valid() && p.rest == Decrypted(was, key, i + 1) && Carries(p.env, key, counter, r0)
  {
    hide Program.Valid, IsCell, Value, Decrypted, Put, WordAt, Counts, Xor, Mask;
    Offset(counter, r0, i);
    var at := p.Read(R0);
    SpellWord(p, at as nat, key, counter, r0);
    DecryptsOne(was, key, i);
  }

  method SpellWord(p: Program, at: nat, ghost key: Word, ghost counter: Word, ghost r0: Word)
    requires p.Valid() && Ready(p) && Carries(p.env, key, counter, r0) && at <= 34
    modifies p, p.m, p.r
    ensures p.Valid() && Carries(p.env, key, counter, r0)
    ensures p.rest == old(Put(p.rest, BASE + at, Xor(Xor(WordAt(p.rest, BASE + at), Mask(BASE as Word, at, 0x33)), key)))
  {
    hide Program.Valid, Program.Carry, Program.Zero, Value, Assign, Exec, Legal, Both, Either, Not, Xor, Twice, Shifted,
      Plus, Overflows, Top, Put, WordAt, Mask;
    Laws();
    p.Do(Set(0xd3d4, 0x7703), Shift(0xd3d4, false, 1));
    var word := p.LoadMasked(BASE, at, 0x33);
    NotNorAndNandIsXor(word, key);
    p.Do(Set(0xf7f8, word), Set(0xc2d2, 0x416e), Mov(R12, 0xf7f8), Or(R12, 0xdb2a), Neg(R12), Neg(R12),
         Mov(0xd5aa, 0xf7f8), And(0xd5aa, 0xdb2a), Neg(0xd5aa), And(R12, 0xd5aa), Mov(0xf7f8, R12), Mov(R12, R8));
    p.Do(And(R12, R0));
    word := p.Read(0xf7f8);
    p.Store(BASE + at, word);
  }

  /** One more word, and the test whether sixteen are done. */
  method Advance(p: Program, ghost key: Word, ghost counter: Word, ghost r0: Word, ghost i: nat)
    returns (ghost counter': Word, ghost r0': Word)
    requires p.Valid() && Ready(p) && Carries(p.env, key, counter, r0) && i < 16 && Counts(counter, r0, i)
    modifies p, p.m, p.r
    ensures p.Valid() && p.rest == old(p.rest) && Carries(p.env, key, counter', r0')
    ensures Counts(counter', r0', i + 1) && p.c0 == (i + 1 < 16)
  {
    hide *;
    Counting(counter, r0, i);
    NextWord(p, key, counter, r0);
    NextOffset(p, key, Plus(1, counter), r0);
    var limit := Limit(p, key, Plus(1, counter), Plus(2, r0));
    Compare(p, key, Plus(1, counter), Plus(2, r0), limit);
    counter', r0' := Plus(1, counter), Plus(2, r0);
  }

  method NextWord(p: Program, ghost key: Word, ghost counter: Word, ghost r0: Word)
    requires p.Valid() && Ready(p) && Carries(p.env, key, counter, r0)
    modifies p, p.m, p.r
    ensures p.Valid() && p.rest == old(p.rest) && Carries(p.env, key, Plus(1, counter), r0)
  {
    hide Program.Valid, Program.Carry, Program.Zero, Value, Assign, Exec, Legal, Both, Either, Not, Xor, Twice, Shifted,
      Plus, Overflows, Top;
    Laws();
    Tops();
    p.Do(Mov(0xd062, R7));
    p.Sum(1, NandAndNotNor, Spots(0xc430, 0xf850, R12, 0xd920, R14, R15, 0xc99a, 0xec5a), 0x2619, 0x9994,
          Lit(0x0001), Of(0xea26));
    p.Do(Mov(0xea26, 0xc430), Mov(0xec5a, R3), Or(0xec5a, R5));
  }

  method NextOffset(p: Program, ghost key: Word, ghost counter: Word, ghost r0: Word)
    requires p.Valid() && Ready(p) && Carries(p.env, key, counter, r0)
    modifies p, p.m, p.r
    ensures p.Valid() && p.rest == old(p.rest) && Carries(p.env, key, counter, Plus(2, r0))
  {
    hide Program.Valid, Program.Carry, Program.Zero, Value, Assign, Exec, Legal, Both, Either, Not, Xor, Twice, Shifted,
      Plus, Overflows, Top;
    Laws();
    Tops();
    p.Sum(1, NandAndNotNor, Spots(0xe292, 0xd5a4, 0xd904, R12, R14, R15, 0xead6, 0xcd96), 0x7eb2, 0x8a22,
          Lit(0x0002), Of(R0));
    p.Do(Mov(R0, 0xe292));
  }

  method Limit(p: Program, ghost key: Word, ghost counter: Word, ghost r0: Word) returns (ghost limit: Word)
    requires p.Valid() && Ready(p) && Carries(p.env, key, counter, r0)
    modifies p, p.m, p.r
    ensures p.Valid() && p.rest == old(p.rest) && Carries(p.env, key, counter, r0)
    ensures limit == Plus(1, Not(0x10)) == Value(p.env, 0xd5a4) && Value(p.env, 0xead6) == counter
  {
    hide Program.Valid, Program.Carry, Program.Zero, Value, Assign, Exec, Legal, Both, Either, Not, Xor, Twice, Shifted,
      Plus, Overflows, Top;
    Laws();
    Tops();
    p.Do(Mov(0xead6, 0xea26), Set(0xd5a4, 0x0010), Neg(0xd5a4));
    p.Sum(1, NorThenAnd, Spots(0xcec2, 0xe244, 0xe0fe, 0xd5ae, 0xec46, 0xe388, 0xf2bc, 0xf106), 0x684e,
          0xc433, Lit(0x0001), Of(0xd5a4));
    p.Do(Mov(0xd5a4, 0xcec2));
    limit := Plus(1, Not(0x10));
  }

  method Compare(p: Program, ghost key: Word, ghost counter: Word, ghost r0: Word, ghost limit: Word)
    requires p.Valid() && Ready(p) && Carries(p.env, key, counter, r0)
    requires Value(p.env, 0xd5a4) == limit && Value(p.env, 0xead6) == counter
    modifies p, p.m, p.r
    ensures p.Valid() && p.rest == old(p.rest) && Carries(p.env, key, counter, r0)
    ensures p.c0 == !Overflows(counter, limit)
  {
    hide Program.Valid, Value, Assign, Exec, Legal, Both, Either, Not, Xor, Twice, Shifted,
      Plus, Overflows, Top;
    Laws();
    Tops();
    p.Sum(0, AndsOfNots, Spots(0xda82, 0xe20e, 0xd5f8, 0xcb10, 0xebb4, R15, 0xc450, 0xe1a6), 0x2930, 0xb929,
          Of(0xead6), Of(0xd5a4));
    p.Do(Mov(0xead6, 0xda82));
    p.Test(0, 0xead6);
  }

  lemma Offset(counter: Word, r0: Word, i: nat)
    requires Counts(counter, r0, i) && i < 16
    ensures r0 as int == 4 + 2 * i <= 34
  {
  }

  lemma Tops()
    ensures !Top(0x4cf0) && Top(0xa1a6) && !Top(0x6d6d) && Top(0xac93) && !Top(0x2619) && Top(0x9994)
    ensures !Top(0x7eb2) && Top(0x8a22) && !Top(0x684e) && Top(0xc433) && !Top(0x2930) && Top(0xb929)
  {
  }

  lemma {:induction false} Begin(s: seq<bv8>, key: Word)
    requires |s| == SIZE
    ensures Decrypted(s, key, 0) == s && Counts(0, 4, 0)
  {
  }

  /** One word: unmasked, combined with the key, and stored without a mask. */
  lemma DecryptsOne(s: seq<bv8>, key: Word, i: nat)
    requires |s| == SIZE && i < 16
    ensures var (before, a) := (Decrypted(s, key, i), BASE + (4 + 2 * i));
      && a + 1 < SIZE
      && Decrypted(s, key, i + 1) == Put(before, a, Xor(Xor(WordAt(before, a), Mask(BASE as Word, 4 + 2 * i, 0x33)), key))
  {
    hide WordAt, Put, Mask, Xor;
    Regroup(WordAt(Decrypted(s, key, i), BASE + (4 + 2 * i)), Mask(BASE as Word, 4 + 2 * i, 0x33), key);
  }

  /** `neg`, add one, add the counter: no carry is lost as long as it is below 16. */
  lemma Counting(counter: Word, r0: Word, i: nat)
    requires i < 16 && Counts(counter, r0, i)
    ensures Counts(Plus(1, counter), Plus(2, r0), i + 1)
    ensures !Overflows(Plus(1, counter), Plus(1, Not(0x10))) == (i + 1 < 16)
  {
    OneUp(counter, r0);
    Compared(1 + counter);
  }

  lemma OneUp(counter: Word, r0: Word)
    requires counter < 0x200 && r0 < 0x200 && (counter as int) < 16 && (r0 as int) < 36
    ensures (1 + counter) as int == counter as int + 1 && (2 + r0) as int == r0 as int + 2
    ensures 1 + counter < 0x200 && 2 + r0 < 0x200
  {
  }

  lemma Compared(counter: Word)
    ensures !Overflows(counter, 1 + !0x10) == (counter as int < 16)
  {
  }

  lemma {:induction false} Finished(s: seq<bv8>, key: Word)
    requires |s| == SIZE && key == Key(WordAt(s, KEY), WordAt(s, KEY + 2))
    ensures Put(Put(Decrypted(s, key, 16), 0x8000, 0xdead), 0x8002, 0xbeef) == Result(s)
  {
  }

  // ---------------------------------------------------------------- what it computes

  lemma {:induction false} DecryptedWords(s: seq<bv8>, key: Word, n: nat, i: nat)
    requires |s| == SIZE && n <= 16 && i < 16
    ensures var a := BLOCK + 2 * i;
      WordAt(Decrypted(s, key, n), a) == if i < n then Xor(WordAt(s, a), Pad(key, i)) else WordAt(s, a)
  {
    hide WordAt, Put, Pad, Xor;
    if n > 0 {
      DecryptedWords(s, key, n - 1, i);
      var before, a := Decrypted(s, key, n - 1), BLOCK + 2 * (n - 1);
      PutThenRead(before, a, Xor(WordAt(before, a), Pad(key, n - 1)), BLOCK + 2 * i);
    }
  }

  lemma {:induction false} DecryptedElsewhere(s: seq<bv8>, key: Word, n: nat, b: nat)
    requires |s| == SIZE && n <= 16 && b < SIZE && !(BLOCK <= b < BLOCK + 32)
    ensures Decrypted(s, key, n)[b] == s[b]
  {
    hide WordAt, Pad, Xor;
    if n > 0 {
      DecryptedElsewhere(s, key, n - 1, b);
    }
  }

  function KeyOf(s: seq<bv8>): Word
    requires |s| == SIZE
  {
    Key(WordAt(s, KEY), WordAt(s, KEY + 2))
  }

  /** The sixteen words are combined with mask and key; of the other bytes only
      the four of the result flag change. */
  lemma ResultIs(s: seq<bv8>)
    requires |s| == SIZE
    ensures forall i: nat | i < 16 ::
      WordAt(Result(s), BLOCK + 2 * i) ==
        WordAt(s, BLOCK + 2 * i) ^ (Mask(BASE as Word, 4 + 2 * i, 0x33) ^ KeyOf(s))
    ensures forall b: nat | b < SIZE && !(BLOCK <= b < BLOCK + 32) && !(0x8000 <= b < 0x8004) :: Result(s)[b] == s[b]
    ensures WordAt(Result(s), 0x8000) == 0xdead && WordAt(Result(s), 0x8002) == 0xbeef
  {
    hide WordAt, Put, Pad, Xor, Decrypted, Key;
    var d := Decrypted(s, KeyOf(s), 16);
    var e := Put(d, 0x8000, 0xdead);
    forall i: nat | i < 16
      ensures WordAt(Result(s), BLOCK + 2 * i) ==
        WordAt(s, BLOCK + 2 * i) ^ (Mask(BASE as Word, 4 + 2 * i, 0x33) ^ KeyOf(s))
    {
      ResultWord(s, i);
      PadIs(WordAt(s, BLOCK + 2 * i), KeyOf(s), i);
    }
    forall b: nat | b < SIZE && !(BLOCK <= b < BLOCK + 32) && !(0x8000 <= b < 0x8004)
      ensures Result(s)[b] == s[b]
    {
      ResultElsewhere(s, b);
    }
    PutThenRead(d, 0x8000, 0xdead, 0x8000);
    PutThenRead(e, 0x8002, 0xbeef, 0x8000);
    PutThenRead(e, 0x8002, 0xbeef, 0x8002);
  }

  lemma ResultWord(s: seq<bv8>, i: nat)
    requires |s| == SIZE && i < 16
    ensures WordAt(Result(s), BLOCK + 2 * i) == Xor(WordAt(s, BLOCK + 2 * i), Pad(KeyOf(s), i))
  {
    hide WordAt, Put, Pad, Xor, Decrypted, Key;
    var d, a := Decrypted(s, KeyOf(s), 16), BLOCK + 2 * i;
    DecryptedWords(s, KeyOf(s), 16, i);
    PutThenRead(d, 0x8000, 0xdead, a);
    PutThenRead(Put(d, 0x8000, 0xdead), 0x8002, 0xbeef, a);
  }

  lemma ResultElsewhere(s: seq<bv8>, b: nat)
    requires |s| == SIZE && b < SIZE && !(BLOCK <= b < BLOCK + 32) && !(0x8000 <= b < 0x8004)
    ensures Result(s)[b] == s[b]
  {
    hide WordAt, Pad, Xor, Decrypted, Key, Low, High;
    DecryptedElsewhere(s, KeyOf(s), 16, b);
  }

  lemma PadIs(w: Word, key: Word, i: nat)
    ensures Xor(w, Pad(key, i)) == w ^ (Mask(BASE as Word, 4 + 2 * i, 0x33) ^ key)
  {
    hide Mask;
  }

  lemma Values()
    ensures KEY == 0xa000 && BASE == 0xa00c && BLOCK == 0xa010 && SIZE == 0x1_0000
  {
  }

  /** Two runs, each leaving what its contract says: the second restores every
      byte outside the cells and the result flag. */
  lemma TwiceRestores(s: seq<bv8>, t: seq<bv8>, u: seq<bv8>)
    requires |s| == |t| == |u| == SIZE
    requires Clear(Three, t) == Result(Clear(Three, s)) && Clear(Three, u) == Result(Clear(Three, t))
    ensures forall b: nat | b < SIZE && !Covered(Three, b) && !(0x8000 <= b < 0x8004) :: u[b] == s[b]
  {
    hide Result, Covered;
    ResultTwice(Clear(Three, s));
    forall b: nat | b < SIZE && !Covered(Three, b) && !(0x8000 <= b < 0x8004)
      ensures u[b] == s[b]
    {
      assert Clear(Three, u)[b] == Clear(Three, s)[b];
    }
  }

  lemma ResultTwice(s: seq<bv8>)
    requires |s| == SIZE
    ensures forall b: nat | b < SIZE && !(0x8000 <= b < 0x8004) :: Result(Result(s))[b] == s[b]
  {
    hide *;
    Values();
    var r := Result(s);
    SameKey(s);
    forall b: nat | b < SIZE && !(0x8000 <= b < 0x8004) ensures Result(r)[b] == s[b] {
      if BLOCK <= b < BLOCK + 32 {
        var i := (b - BLOCK) / 2;
        ResultWord(s, i);
        ResultWord(r, i);
        XorTwice(WordAt(s, BLOCK + 2 * i), Pad(KeyOf(s), i));
        SameBytes(Result(r), s, BLOCK + 2 * i);
      } else {
        ResultElsewhere(s, b);
        ResultElsewhere(r, b);
      }
    }
  }

  lemma SameKey(s: seq<bv8>)
    requires |s| == SIZE
    ensures KeyOf(Result(s)) == KeyOf(s)
  {
    hide Key, Result, WordAt;
    ResultElsewhere(s, KEY);
    ResultElsewhere(s, KEY + 1);
    ResultElsewhere(s, KEY + 2);
    ResultElsewhere(s, KEY + 3);
    SameWord(Result(s), s, KEY);
    SameWord(Result(s), s, KEY + 2);
  }

  lemma SameWord(s: seq<bv8>, t: seq<bv8>, a: nat)
    requires a + 1 < |s| == |t| && s[a] == t[a] && s[a + 1] == t[a + 1]
    ensures WordAt(s, a) == WordAt(t, a)
  {
  }

  lemma XorTwice(w: Word, p: Word)
    ensures Xor(Xor(w, p), p) == w
  {
  }

  lemma SameBytes(s: seq<bv8>, t: seq<bv8>, a: nat)
    requires a + 1 < |s| == |t| && WordAt(s, a) == WordAt(t, a)
    ensures s[a] == t[a] && s[a + 1] == t[a + 1]
  {
    BytesOfWord(s[a], s[a + 1]);
    BytesOfWord(t[a], t[a + 1]);
  }

  lemma BytesOfWord(lo: bv8, hi: bv8)
    ensures Low((lo as bv16) | ((hi as bv16) << 8)) == lo && High((lo as bv16) | ((hi as bv16) << 8)) == hi
  {
  }
}
