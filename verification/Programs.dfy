/** The decompiled layers as programs over one memory (bflayer1.c, bflayer2.c,
    bflayer3.c).  A program computes in registers and in cells of the memory, most
    of them stored XORed with a mask; the cells are listed, and what a program
    leaves elsewhere is what it is for. */
module Programs {
  import opened Words
  import opened Obfuscation
  import opened Adder
  import opened Ram
  import Obf = CalcObf

  // ---------------------------------------------------------------- registers and cells

  datatype Layer = One | Two | Three

  /** A word stored as it is, or by swo with a key. */
  datatype Storage = Plain | Masked(key: Word)

  /** The cells of layer one. */
  predicate CellOne(a: nat) {
    a == 0xc1a4 || a == 0xc1b4 || a == 0xc2ce || a == 0xc33c || a == 0xc6c6 || a == 0xc71e || a == 0xc75e
    || a == 0xc7f2 || a == 0xc82a || a == 0xc882 || a == 0xc9c8 || a == 0xcac6 || a == 0xcb1e || a == 0xcb26
    || a == 0xcbd4 || a == 0xcf9a || a == 0xd124 || a == 0xd1e4 || a == 0xd25c || a == 0xd4ac || a == 0xd568
    || a == 0xd68e || a == 0xd760 || a == 0xd800 || a == 0xd89e || a == 0xda1e || a == 0xdd18 || a == 0xdd4e
    || a == 0xdd8c || a == 0xdeb4 || a == 0xdfd0 || a == 0xe2ca || a == 0xe3b4 || a == 0xe4ca || a == 0xe5e2
    || a == 0xe614 || a == 0xe6b8 || a == 0xe6ea || a == 0xe738 || a == 0xe99c || a == 0xea36 || a == 0xf0da
    || a == 0xf16c || a == 0xf26c || a == 0xf2ce || a == 0xf31c || a == 0xf400 || a == 0xf4ba || a == 0xf82e
    || a == 0xf9e4 || a == 0xf9f8 || a == 0xfa7a || a == 0xfb6a || a == 0xfbc0 || a == 0xfc70 || a == 0xfd20
    || a == 0xfe0c || a == 0xfedc
  }

  /** The cells of layer two. */
  predicate CellTwo(a: nat) {
    a == 0xc086 || a == 0xc10e || a == 0xc122 || a == 0xc1c8 || a == 0xc2b6 || a == 0xc2d6 || a == 0xc372
    || a == 0xc402 || a == 0xc46a || a == 0xc474 || a == 0xc4cc || a == 0xc56a || a == 0xc56e || a == 0xc5c0
    || a == 0xc5de || a == 0xc636 || a == 0xc642 || a == 0xc698 || a == 0xc6f2 || a == 0xc6f4 || a == 0xc7e0
    || a == 0xc7fc || a == 0xc802 || a == 0xc812 || a == 0xc958 || a == 0xc966 || a == 0xc9c8 || a == 0xca5c
    || a == 0xcac2 || a == 0xcaf8 || a == 0xcb60 || a == 0xcbbe || a == 0xccf6 || a == 0xce44 || a == 0xcf42
    || a == 0xcf66 || a == 0xd072 || a == 0xd092 || a == 0xd0d2 || a == 0xd17e || a == 0xd19c || a == 0xd1a2
    || a == 0xd1b4 || a == 0xd260 || a == 0xd31c || a == 0xd3b0 || a == 0xd3cc || a == 0xd458 || a == 0xd54a
    || a == 0xd556 || a == 0xd5e8 || a == 0xd67c || a == 0xd6c6 || a == 0xd7ac || a == 0xd7dc || a == 0xd80c
    || a == 0xd98e || a == 0xdade || a == 0xdb1e || a == 0xdb5e || a == 0xdbb4 || a == 0xdc92 || a == 0xdd3e
    || a == 0xddf4 || a == 0xde48 || a == 0xdf44 || a == 0xdfa0 || a == 0xe000 || a == 0xe074 || a == 0xe0b8
    || a == 0xe242 || a == 0xe28c || a == 0xe356 || a == 0xe402 || a == 0xe4ac || a == 0xe4c8 || a == 0xe648
    || a == 0xe69c || a == 0xe740 || a == 0xe7a6 || a == 0xe968 || a == 0xea0a || a == 0xea56 || a == 0xeaee
    || a == 0xeafe || a == 0xeb02 || a == 0xec06 || a == 0xec0e || a == 0xec30 || a == 0xec86 || a == 0xecac
    || a == 0xed58 || a == 0xed5e || a == 0xeda0 || a == 0xedce || a == 0xee0c || a == 0xee1a || a == 0xee96
    || a == 0xefce || a == 0xf016 || a == 0xf142 || a == 0xf282 || a == 0xf308 || a == 0xf346 || a == 0xf5d6
    || a == 0xf5de || a == 0xf6a2 || a == 0xf7a4 || a == 0xf8b0 || a == 0xf9ea || a == 0xfa8c || a == 0xfac2
    || a == 0xfb4e || a == 0xfb56 || a == 0xfd18 || a == 0xfde4 || a == 0xfe22 || a == 0xfe56 || a == 0xfe6c
    || a == 0xfe82 || a == 0xfeda || a == 0xfee4
  }

  /** The key that each of them is stored with. */
  function KeyTwo(a: nat): Word {
    match a
    case 0xc086 => 0x2d
    case 0xc10e => 0x37
    case 0xc122 => 0x10
    case 0xc1c8 => 0x3d
    case 0xc2b6 => 0x21
    case 0xc2d6 => 0x2c
    case 0xc372 => 0x10
    case 0xc402 => 0x3d
    case 0xc46a => 0x18
    case 0xc474 => 0x3d
    case 0xc4cc => 0x6
    case 0xc56a => 0xc
    case 0xc56e => 0x39
    case 0xc5c0 => 0x3e
    case 0xc5de => 0x24
    case 0xc636 => 0x23
    case 0xc642 => 0x7
    case 0xc698 => 0x1d
    case 0xc6f2 => 0x18
    case 0xc6f4 => 0x20
    case 0xc7e0 => 0x39
    case 0xc7fc => 0x36
    case 0xc802 => 0xf
    case 0xc812 => 0x13
    case 0xc958 => 0x30
    case 0xc966 => 0x27
    case 0xc9c8 => 0x30
    case 0xca5c => 0xf
    case 0xcac2 => 0x29
    case 0xcaf8 => 0x15
    case 0xcb60 => 0x2b
    case 0xcbbe => 0x2
    case 0xccf6 => 0x20
    case 0xce44 => 0x3d
    case 0xcf42 => 0x10
    case 0xcf66 => 0x3f
    case 0xd072 => 0x3b
    case 0xd092 => 0x17
    case 0xd0d2 => 0x5
    case 0xd17e => 0x3b
    case 0xd19c => 0x28
    case 0xd1a2 => 0x20
    case 0xd1b4 => 0x18
    case 0xd260 => 0x38
    case 0xd31c => 0x13
    case 0xd3b0 => 0x18
    case 0xd3cc => 0x1b
    case 0xd458 => 0x1f
    case 0xd54a => 0x9
    case 0xd556 => 0x6
    case 0xd5e8 => 0xd
    case 0xd67c => 0x38
    case 0xd6c6 => 0xa
    case 0xd7ac => 0x21
    case 0xd7dc => 0x3
    case 0xd80c => 0x2c
    case 0xd98e => 0x39
    case 0xdade => 0x30
    case 0xdb1e => 0x21
    case 0xdb5e => 0x21
    case 0xdbb4 => 0x23
    case 0xdc92 => 0x2b
    case 0xdd3e => 0x3
    case 0xddf4 => 0x21
    case 0xde48 => 0x1e
    case 0xdf44 => 0x37
    case 0xdfa0 => 0x8
    case 0xe000 => 0x26
    case 0xe074 => 0x11
    case 0xe0b8 => 0x12
    case 0xe242 => 0x2a
    case 0xe28c => 0x35
    case 0xe356 => 0x18
    case 0xe402 => 0x2
    case 0xe4ac => 0x24
    case 0xe4c8 => 0x27
    case 0xe648 => 0x28
    case 0xe69c => 0xf
    case 0xe740 => 0x2a
    case 0xe7a6 => 0x9
    case 0xe968 => 0x23
    case 0xea0a => 0x33
    case 0xea56 => 0x3c
    case 0xeaee => 0x24
    case 0xeafe => 0x29
    case 0xeb02 => 0x34
    case 0xec06 => 0x37
    case 0xec0e => 0x5
    case 0xec30 => 0x1a
    case 0xec86 => 0x25
    case 0xecac => 0x21
    case 0xed58 => 0x35
    case 0xed5e => 0x14
    case 0xeda0 => 0x22
    case 0xedce => 0x2d
    case 0xee0c => 0x27
    case 0xee1a => 0x36
    case 0xee96 => 0x2d
    case 0xefce => 0x37
    case 0xf016 => 0x1b
    case 0xf142 => 0x23
    case 0xf282 => 0x16
    case 0xf308 => 0x8
    case 0xf346 => 0x15
    case 0xf5d6 => 0x32
    case 0xf5de => 0x2b
    case 0xf6a2 => 0x39
    case 0xf7a4 => 0x3b
    case 0xf8b0 => 0x1
    case 0xf9ea => 0x2a
    case 0xfa8c => 0x9
    case 0xfac2 => 0x2a
    case 0xfb4e => 0x35
    case 0xfb56 => 0x4
    case 0xfd18 => 0x36
    case 0xfde4 => 0x23
    case 0xfe22 => 0x4
    case 0xfe56 => 0x3
    case 0xfe6c => 0xe
    case 0xfe82 => 0xe
    case 0xfeda => 0x35
    case 0xfee4 => 0x1
    case _ => 0
  }

  /** The cells of layer three. */
  predicate CellThree(a: nat) {
    a == 0xc07c || a == 0xc2d2 || a == 0xc430 || a == 0xc450 || a == 0xc76e || a == 0xc82a || a == 0xc910
    || a == 0xc99a || a == 0xc9c0 || a == 0xcac6 || a == 0xcb10 || a == 0xcb82 || a == 0xcd96 || a == 0xcec2
    || a == 0xd062 || a == 0xd3d4 || a == 0xd5a4 || a == 0xd5aa || a == 0xd5ae || a == 0xd5f8 || a == 0xd666
    || a == 0xd73c || a == 0xd904 || a == 0xd920 || a == 0xd944 || a == 0xd9a6 || a == 0xda82 || a == 0xdb2a
    || a == 0xdbc6 || a == 0xdf0c || a == 0xdfc8 || a == 0xe0fe || a == 0xe1a6 || a == 0xe20e || a == 0xe216
    || a == 0xe244 || a == 0xe292 || a == 0xe388 || a == 0xe38e || a == 0xe462 || a == 0xe5a0 || a == 0xea26
    || a == 0xead6 || a == 0xebb4 || a == 0xec46 || a == 0xec5a || a == 0xef0c || a == 0xf106 || a == 0xf2bc
    || a == 0xf390 || a == 0xf49c || a == 0xf740 || a == 0xf7f8 || a == 0xf850 || a == 0xf97a || a == 0xf9c4
    || a == 0xf9ca || a == 0xfb78 || a == 0xfdee
  }

  /** The key that each of them is stored with. */
  function KeyThree(a: nat): Word {
    match a
    case 0xc07c => 0x11
    case 0xc2d2 => 0x10
    case 0xc430 => 0x3c
    case 0xc450 => 0x20
    case 0xc76e => 0x3
    case 0xc82a => 0x3d
    case 0xc910 => 0xc
    case 0xc99a => 0x9
    case 0xc9c0 => 0xc
    case 0xcac6 => 0x34
    case 0xcb10 => 0x16
    case 0xcb82 => 0xe
    case 0xcd96 => 0x25
    case 0xcec2 => 0x3b
    case 0xd062 => 0x36
    case 0xd3d4 => 0x26
    case 0xd5a4 => 0x2e
    case 0xd5aa => 0x20
    case 0xd5ae => 0x33
    case 0xd5f8 => 0x25
    case 0xd666 => 0x1d
    case 0xd73c => 0x28
    case 0xd904 => 0x11
    case 0xd920 => 0x7
    case 0xd944 => 0xd
    case 0xd9a6 => 0x18
    case 0xda82 => 0x24
    case 0xdb2a => 0x3b
    case 0xdbc6 => 0x24
    case 0xdf0c => 0x7
    case 0xdfc8 => 0x35
    case 0xe0fe => 0x1f
    case 0xe1a6 => 0xb
    case 0xe20e => 0x37
    case 0xe216 => 0xc
    case 0xe244 => 0x33
    case 0xe292 => 0xa
    case 0xe388 => 0x2f
    case 0xe38e => 0x27
    case 0xe462 => 0x23
    case 0xe5a0 => 0x2b
    case 0xea26 => 0x31
    case 0xead6 => 0x11
    case 0xebb4 => 0x3c
    case 0xec46 => 0x28
    case 0xec5a => 0x2d
    case 0xef0c => 0x13
    case 0xf106 => 0x33
    case 0xf2bc => 0x35
    case 0xf390 => 0x6
    case 0xf49c => 0x2
    case 0xf740 => 0x31
    case 0xf7f8 => 0x9
    case 0xf850 => 0xd
    case 0xf97a => 0xf
    case 0xf9c4 => 0x29
    case 0xf9ca => 0x3b
    case 0xfb78 => 0x2e
    case 0xfdee => 0x35
    case _ => 0
  }

  predicate IsCell(layer: Layer, a: nat) {
    match layer
    case One => CellOne(a)
    case Two => CellTwo(a)
    case Three => CellThree(a)
  }

  function CellOf(layer: Layer, a: nat): Storage {
    match layer
    case One => Plain
    case Two => Masked(KeyTwo(a))
    case Three => Masked(KeyThree(a))
  }

  /** Cells are even words in the upper quarter of the memory: no two overlap. */
  lemma CellsAreWords(layer: Layer, a: nat)
    requires IsCell(layer, a)
    ensures 0xc000 <= a < 0xffff && a % 2 == 0
  {
    hide CellOne, CellTwo, CellThree;
    match layer
    case One => OnesAreWords(a);
    case Two => TwosAreWords(a);
    case Three => ThreesAreWords(a);
  }

  lemma OnesAreWords(a: nat)
    requires CellOne(a)
    ensures 0xc000 <= a < 0xffff && a % 2 == 0
  {
  }

  lemma TwosAreWords(a: nat)
    requires CellTwo(a)
    ensures 0xc000 <= a < 0xffff && a % 2 == 0
  {
  }

  lemma ThreesAreWords(a: nat)
    requires CellThree(a)
    ensures 0xc000 <= a < 0xffff && a % 2 == 0
  {
  }

  /** A byte of one of the cells. */
  predicate Covered(layer: Layer, b: nat) {
    IsCell(layer, b) || (b > 0 && IsCell(layer, b - 1))
  }

  lemma CellsAreHigh(layer: Layer, b: nat)
    requires b < 0xc000
    ensures !Covered(layer, b)
  {
    hide IsCell;
    if Covered(layer, b) {
      CellsAreWords(layer, if IsCell(layer, b) then b else b - 1);
    }
  }

  /** The memory with the cells cleared: what a program leaves for others. */
  function Clear(layer: Layer, mem: seq<bv8>): (r: seq<bv8>)
    ensures |r| == |mem|
  {
    seq(|mem|, b requires 0 <= b < |mem| => if Covered(layer, b) then 0 else mem[b])
  }

  /** Equal but for the cells. */
  lemma ClearIs(layer: Layer, s: seq<bv8>, t: seq<bv8>)
    requires |s| == |t|
    ensures Clear(layer, s) == Clear(layer, t) <==> forall b: nat | b < |s| && !Covered(layer, b) :: s[b] == t[b]
  {
    hide Covered;
    if Clear(layer, s) == Clear(layer, t) {
      forall b: nat | b < |s| && !Covered(layer, b)
        ensures s[b] == t[b]
      {
        assert Clear(layer, s)[b] == Clear(layer, t)[b];
      }
    }
  }

  lemma OwnStore(layer: Layer, s: seq<bv8>, a: nat, v: Word)
    requires |s| == SIZE && IsCell(layer, a) && a + 1 < SIZE
    ensures Clear(layer, Put(s, a, v)) == Clear(layer, s)
  {
    hide IsCell, Low, High, Clear;
    ClearIs(layer, Put(s, a, v), s);
  }

  lemma OtherStore(layer: Layer, s: seq<bv8>, a: nat, v: Word)
    requires a + 1 < |s| && a + 1 < 0xc000
    ensures Clear(layer, Put(s, a, v)) == Put(Clear(layer, s), a, v)
  {
    hide Covered, Low, High;
    CellsAreHigh(layer, a);
    CellsAreHigh(layer, a + 1);
  }

  lemma OtherLoad(layer: Layer, s: seq<bv8>, a: nat)
    requires a + 1 < |s| && a + 1 < 0xc000
    ensures WordAt(Clear(layer, s), a) == WordAt(s, a)
  {
    hide Covered;
    CellsAreHigh(layer, a);
    CellsAreHigh(layer, a + 1);
  }

  // ---------------------------------------------------------------- what they hold

  /** The values of registers, numbered below 16, and of cells, by their address. */
  datatype Env = Env(values: map<nat, Word>)

  function Value(e: Env, l: nat): Word {
    if l in e.values then e.values[l] else 0
  }

  function Assign(e: Env, l: nat, v: Word): Env {
    Env(e.values[l := v])
  }

  lemma Stored()
    ensures forall e: Env, l: nat, v: Word, k: nat {:trigger Value(Assign(e, l, v), k)} ::
      Value(Assign(e, l, v), k) == if k == l then v else Value(e, k)
  {
  }

  /** calc_obf(a, 0, key). */
  function MaskAt(a: nat, key: Word): Word
    requires a < 0x1_0000
  {
    Mask(a as Word, 0, key)
  }

  function Actual(layer: Layer, mem: seq<bv8>, regs: seq<Word>, l: nat): Word
    requires |mem| == SIZE && |regs| == 16
  {
    if l < 16 then regs[l]
    else if l + 1 >= SIZE then 0
    else
      match CellOf(layer, l)
      case Plain => WordAt(mem, l)
      case Masked(key) => Xor(WordAt(mem, l), MaskAt(l, key))
  }

  predicate Place(layer: Layer, l: nat) {
    l < 16 || IsCell(layer, l)
  }

  /** The values are those in the registers and, unmasked, in the memory. */
  ghost predicate Linked(layer: Layer, e: Env, mem: seq<bv8>, regs: seq<Word>)
    requires |mem| == SIZE && |regs| == 16
  {
    forall l: nat | Place(layer, l) :: Value(e, l) == Actual(layer, mem, regs, l)
  }

  lemma LinkedAt(layer: Layer, e: Env, mem: seq<bv8>, regs: seq<Word>, l: nat)
    requires |mem| == SIZE && |regs| == 16 && Linked(layer, e, mem, regs) && Place(layer, l)
    ensures Value(e, l) == Actual(layer, mem, regs, l)
  {
  }

  lemma Linking(layer: Layer, e: Env, mem: seq<bv8>, regs: seq<Word>)
    requires |mem| == SIZE && |regs| == 16
    requires e == Env(map l: nat | l < SIZE && Place(layer, l) :: Actual(layer, mem, regs, l))
    ensures Linked(layer, e, mem, regs)
  {
    hide IsCell, CellOf, WordAt, MaskAt, Xor, Actual;
    forall l: nat | Place(layer, l)
      ensures Value(e, l) == Actual(layer, mem, regs, l)
    {
      if l >= 16 {
        CellsAreWords(layer, l);
      }
    }
  }

  lemma RegisterStore(layer: Layer, e: Env, mem: seq<bv8>, regs: seq<Word>, i: nat, v: Word)
    requires |mem| == SIZE && |regs| == 16 && Linked(layer, e, mem, regs) && i < 16
    ensures Linked(layer, Assign(e, i, v), mem, regs[i := v])
  {
    hide Value, Assign, IsCell, CellOf, WordAt, MaskAt, Xor;
    Stored();
    forall l: nat | Place(layer, l)
      ensures Value(Assign(e, i, v), l) == Actual(layer, mem, regs[i := v], l)
    {
      LinkedAt(layer, e, mem, regs, l);
      if l >= 16 {
        CellsAreWords(layer, l);
      }
    }
  }

  lemma StaysLinked(layer: Layer, e: Env, mem: seq<bv8>, regs: seq<Word>, a: nat, v: Word)
    requires |mem| == SIZE && |regs| == 16 && Linked(layer, e, mem, regs) && a + 1 < 0xc000
    ensures Linked(layer, e, Put(mem, a, v), regs)
  {
    hide Value, IsCell, CellOf, WordAt, Put, MaskAt, Xor;
    forall l: nat | Place(layer, l)
      ensures Value(e, l) == Actual(layer, Put(mem, a, v), regs, l)
    {
      LinkedAt(layer, e, mem, regs, l);
      if l >= 16 {
        CellsAreWords(layer, l);
        PutThenRead(mem, a, v, l);
      }
    }
  }

  /** Stored with its mask, a value is read back without it, and no other is disturbed. */
  lemma CellStore(layer: Layer, e: Env, mem: seq<bv8>, regs: seq<Word>, a: nat, v: Word, w: Word)
    requires |mem| == SIZE && |regs| == 16 && Linked(layer, e, mem, regs) && IsCell(layer, a) && a + 1 < SIZE
    requires w == match CellOf(layer, a)
                    case Plain => v
             case Masked(key) => Xor(MaskAt(a, key), v)
    ensures Linked(layer, Assign(e, a, v), Put(mem, a, w), regs)
  {
    hide Value, Assign, IsCell, CellOf, WordAt, Put, MaskAt, Xor;
    Stored();
    CellsAreWords(layer, a);
    forall l: nat | Place(layer, l)
      ensures Value(Assign(e, a, v), l) == Actual(layer, Put(mem, a, w), regs, l)
    {
      LinkedAt(layer, e, mem, regs, l);
      if l >= 16 {
        CellsAreWords(layer, l);
        PutThenRead(mem, a, w, l);
        if l == a && CellOf(layer, a).Masked? {
          Unmask(MaskAt(a, CellOf(layer, a).key), v);
        }
      }
    }
  }

  lemma Unmask(mask: Word, v: Word)
    ensures Xor(Xor(mask, v), mask) == v
  {
  }

  // ---------------------------------------------------------------- statements

  datatype Stmt =
    | Skip
    | Set(l: nat, w: Word)
    | Mov(l: nat, k: nat)
    | And(l: nat, k: nat)
    | AndWith(l: nat, w: Word)
    | Or(l: nat, k: nat)
    | OrWith(l: nat, w: Word)
    | Neg(l: nat)
    | Shift(l: nat, right: bool, n: nat)  // one that leaves the flags alone

  /** It names registers and cells, and does not write the register that stays zero. */
  predicate Legal(layer: Layer, zero: nat, s: Stmt) {
    match s
    case Skip => true
    case Set(l, _) => Usable(layer, zero, l)
    case Mov(l, k) => Usable(layer, zero, l) && Place(layer, k)
    case And(l, k) => Usable(layer, zero, l) && Place(layer, k)
    case AndWith(l, _) => Usable(layer, zero, l)
    case Or(l, k) => Usable(layer, zero, l) && Place(layer, k)
    case OrWith(l, _) => Usable(layer, zero, l)
    case Neg(l) => Usable(layer, zero, l)
    case Shift(l, _, n) => Usable(layer, zero, l) && n < 16
  }

  predicate AllLegal(layer: Layer, zero: nat, a: Stmt, b: Stmt, c: Stmt, d: Stmt, e: Stmt, f: Stmt,
                     g: Stmt, h: Stmt, i: Stmt, j: Stmt, k: Stmt, l: Stmt) {
    && Legal(layer, zero, a) && Legal(layer, zero, b) && Legal(layer, zero, c) && Legal(layer, zero, d)
    && Legal(layer, zero, e) && Legal(layer, zero, f) && Legal(layer, zero, g) && Legal(layer, zero, h)
    && Legal(layer, zero, i) && Legal(layer, zero, j) && Legal(layer, zero, k) && Legal(layer, zero, l)
  }

  predicate Usable(layer: Layer, zero: nat, l: nat) {
    Place(layer, l) && l != zero
  }

  function Shifted(v: Word, right: bool, n: nat): Word {
    if n >= 16 then 0 else if right then v >> n else v << n
  }

  lemma ByteShifts(v: Word)
    ensures Shifted(v, true, 8) == v >> 8 && Shifted(v, false, 8) == v << 8
  {
  }

  function Exec(e: Env, s: Stmt): Env {
    match s
    case Skip => e
    case Set(l, w) => Assign(e, l, w)
    case Mov(l, k) => Assign(e, l, Value(e, k))
    case And(l, k) => Assign(e, l, Both(Value(e, l), Value(e, k)))
    case AndWith(l, w) => Assign(e, l, Both(Value(e, l), w))
    case Or(l, k) => Assign(e, l, Either(Value(e, l), Value(e, k)))
    case OrWith(l, w) => Assign(e, l, Either(Value(e, l), w))
    case Neg(l) => Assign(e, l, Not(Value(e, l)))
    case Shift(l, right, n) => Assign(e, l, Shifted(Value(e, l), right, n))
  }

  lemma Laws()
    ensures forall e: Env, l: nat, v: Word, k: nat {:trigger Value(Assign(e, l, v), k)} ::
      Value(Assign(e, l, v), k) == if k == l then v else Value(e, k)
    ensures forall e: Env {:trigger Exec(e, Skip)} :: Exec(e, Skip) == e
    ensures forall e: Env, l: nat, w: Word {:trigger Exec(e, Set(l, w))} :: Exec(e, Set(l, w)) == Assign(e, l, w)
    ensures forall e: Env, l: nat, k: nat {:trigger Exec(e, Mov(l, k))} ::
      Exec(e, Mov(l, k)) == Assign(e, l, Value(e, k))
    ensures forall e: Env, l: nat, k: nat {:trigger Exec(e, And(l, k))} ::
      Exec(e, And(l, k)) == Assign(e, l, Both(Value(e, l), Value(e, k)))
    ensures forall e: Env, l: nat, w: Word {:trigger Exec(e, AndWith(l, w))} ::
      Exec(e, AndWith(l, w)) == Assign(e, l, Both(Value(e, l), w))
    ensures forall e: Env, l: nat, k: nat {:trigger Exec(e, Or(l, k))} ::
      Exec(e, Or(l, k)) == Assign(e, l, Either(Value(e, l), Value(e, k)))
    ensures forall e: Env, l: nat, w: Word {:trigger Exec(e, OrWith(l, w))} ::
      Exec(e, OrWith(l, w)) == Assign(e, l, Either(Value(e, l), w))
    ensures forall e: Env, l: nat {:trigger Exec(e, Neg(l))} :: Exec(e, Neg(l)) == Assign(e, l, Not(Value(e, l)))
    ensures forall e: Env, l: nat, right: bool, n: nat {:trigger Exec(e, Shift(l, right, n))} ::
      Exec(e, Shift(l, right, n)) == Assign(e, l, Shifted(Value(e, l), right, n))
    ensures forall x: Layer, z: nat {:trigger Legal(x, z, Skip)} :: Legal(x, z, Skip)
    ensures forall x: Layer, z: nat, l: nat, w: Word {:trigger Legal(x, z, Set(l, w))} ::
      Legal(x, z, Set(l, w)) == Usable(x, z, l)
    ensures forall x: Layer, z: nat, l: nat, k: nat {:trigger Legal(x, z, Mov(l, k))} ::
      Legal(x, z, Mov(l, k)) == (Usable(x, z, l) && Place(x, k))
    ensures forall x: Layer, z: nat, l: nat, k: nat {:trigger Legal(x, z, And(l, k))} ::
      Legal(x, z, And(l, k)) == (Usable(x, z, l) && Place(x, k))
    ensures forall x: Layer, z: nat, l: nat, w: Word {:trigger Legal(x, z, AndWith(l, w))} ::
      Legal(x, z, AndWith(l, w)) == Usable(x, z, l)
    ensures forall x: Layer, z: nat, l: nat, k: nat {:trigger Legal(x, z, Or(l, k))} ::
      Legal(x, z, Or(l, k)) == (Usable(x, z, l) && Place(x, k))
    ensures forall x: Layer, z: nat, l: nat, w: Word {:trigger Legal(x, z, OrWith(l, w))} ::
      Legal(x, z, OrWith(l, w)) == Usable(x, z, l)
    ensures forall x: Layer, z: nat, l: nat {:trigger Legal(x, z, Neg(l))} :: Legal(x, z, Neg(l)) == Usable(x, z, l)
    ensures forall x: Layer, z: nat, l: nat, right: bool, n: nat {:trigger Legal(x, z, Shift(l, right, n))} ::
      Legal(x, z, Shift(l, right, n)) == (Usable(x, z, l) && n < 16)
  {
    hide Both, Either, Not, Shifted, Usable, Place;
  }

  // ---------------------------------------------------------------- exclusive or, spelled

  /** All the ways in which the programs spell it. */
  lemma OrAndNandIsXor(x: Word, y: Word)
    ensures Both(Either(x, y), Not(Both(x, y))) == Xor(x, y)
  {
  }

  lemma NandAndNotNorIsXor(x: Word, y: Word)
    ensures Both(Not(Both(x, y)), Not(Not(Either(x, y)))) == Xor(x, y)
  {
  }

  lemma NotOfOrsIsXor(x: Word, y: Word)
    ensures Not(Both(Either(Not(x), y), Either(x, Not(y)))) == Xor(x, y)
  {
  }

  lemma AndNotMovedIsXor(x: Word, y: Word)
    ensures Either(Both(x, Not(y)), Not(Either(x, Not(y)))) == Xor(x, y)
  {
  }

  lemma NorOrAndIsXor(x: Word, y: Word)
    ensures Either(Not(Either(Not(x), y)), Both(Not(x), y)) == Xor(x, y)
  {
  }

  lemma NandAndOrIsXor(x: Word, y: Word)
    ensures Both(Not(Both(x, y)), Either(x, y)) == Xor(x, y)
  {
  }

  lemma AndsOfNotsIsXor(x: Word, y: Word)
    ensures Either(Both(Not(x), y), Both(x, Not(y))) == Xor(x, y)
  {
  }

  lemma AndOrNorIsXor(x: Word, y: Word)
    ensures Either(Both(Not(x), y), Not(Either(Not(x), y))) == Xor(x, y)
  {
  }

  lemma NorThenAndIsXor(x: Word, y: Word)
    ensures Either(Not(Either(x, Not(y))), Both(x, Not(y))) == Xor(x, y)
  {
  }

  lemma TwoAndsIsXor(x: Word, y: Word)
    ensures Either(Both(x, Not(y)), Both(Not(x), y)) == Xor(x, y)
  {
  }

  lemma NotOfOrsSwappedIsXor(x: Word, y: Word)
    ensures Not(Both(Either(x, Not(y)), Either(Not(x), y))) == Xor(x, y)
  {
  }

  lemma NotNorAndNandIsXor(x: Word, y: Word)
    ensures Both(Not(Not(Either(x, y))), Not(Both(x, y))) == Xor(x, y)
  {
  }

  lemma NotXnorIsXor(x: Word, y: Word)
    ensures Not(Either(Both(x, y), Not(Either(x, y)))) == Xor(x, y)
  {
  }

  lemma NotNorAndIsXor(x: Word, y: Word)
    ensures Not(Either(Not(Either(x, y)), Both(x, y))) == Xor(x, y)
  {
  }

  lemma Idempotent(v: Word)
    ensures Both(v, v) == v
  {
  }

  lemma ZeroWord(w: Word)
    ensures w == 0 ==> w as int == 0
  {
  }

  // ---------------------------------------------------------------- the adder

  datatype Form =
    OrAndNand | NandAndNotNor | NotOfOrs | AndNotMoved | NorOrAnd | NandAndOr | AndsOfNots
    | AndOrNor | NorThenAnd | AndNorCopied | TwoAnds | NotOfOrsSwapped | AndNor

  /** Where an adder keeps its two numbers, what it needs to spell an exclusive or,
      and its accumulator.  A spelling that needs fewer places is given registers
      that the programs never touch. */
  datatype Spots = Spots(x: nat, y: nat, a: nat, b: nat, c: nat, d: nat, out: nat, acc: nat)

  predicate Away(l: nat, p: Spots) {
    l != p.a && l != p.b && l != p.c && l != p.d && l != p.out
  }

  predicate Beyond(l: nat, p: Spots) {
    Away(l, p) && l != p.x && l != p.y && l != p.acc
  }

  lemma UsableIsPlace(layer: Layer, zero: nat, l: nat)
    requires Usable(layer, zero, l)
    ensures Place(layer, l)
  {
  }

  predicate Fit(layer: Layer, zero: nat, p: Spots) {
    && Usable(layer, zero, p.x) && Usable(layer, zero, p.y) && Usable(layer, zero, p.a) && Usable(layer, zero, p.b)
    && Usable(layer, zero, p.c) && Usable(layer, zero, p.d) && Usable(layer, zero, p.out) && Usable(layer, zero, p.acc)
    && Away(p.x, p) && Away(p.y, p) && Away(p.acc, p) && p.x != p.y && p.x != p.acc && p.y != p.acc
    && p.a != p.b && p.a != p.c && p.a != p.d && p.a != p.out && p.b != p.c && p.b != p.d && p.b != p.out
    && p.c != p.d && p.c != p.out && p.d != p.out
  }

  /** Where an adder takes a number from. */
  datatype Source = Lit(w: Word) | Of(l: nat)

  function From(e: Env, x: Source): Word {
    match x
    case Lit(w) => w
    case Of(l) => Value(e, l)
  }

  predicate Readable(layer: Layer, x: Source, p: Spots) {
    x.Of? ==> Place(layer, x.l) && x.l != p.acc && x.l != p.x
  }

  /** x ^ y is in `out`; only the places for spelling it have changed. */
  ghost predicate Spelled(e: Env, f: Env, p: Spots) {
    && Value(f, p.out) == Xor(Value(e, p.x), Value(e, p.y))
    && forall l: nat {:trigger Value(f, l)} | Away(l, p) :: Value(f, l) == Value(e, l)
  }

  /** Only the adder's places have changed. */
  ghost predicate OnlyAt(e: Env, f: Env, p: Spots) {
    forall l: nat {:trigger Value(f, l)} | Beyond(l, p) :: Value(f, l) == Value(e, l)
  }

  /** Once around the adder's loop. */
  ghost predicate Rounded(e: Env, f: Env, p: Spots, k: Word) {
    var (x, y, acc) := (Value(e, p.x), Value(e, p.y), Value(e, p.acc));
    && Value(f, p.x) == Xor(x, y) && Value(f, p.y) == Carries(x, y)
    && Value(f, p.acc) == (if Top(Both(x, y)) then Either(acc, k) else acc)
    && OnlyAt(e, f, p)
  }

  lemma RoundMade(layer: Layer, zero: nat, e: Env, f: Env, p: Spots, k: Word)
    requires Fit(layer, zero, p) && OnlyAt(e, f, p) && Value(f, p.acc) == Value(e, p.acc)
    requires Value(f, p.x) == Xor(Value(e, p.x), Value(e, p.y)) && Value(f, p.y) == Both(Value(e, p.x), Value(e, p.y))
    ensures var u := Assign(f, p.y, Twice(Value(f, p.y)));
      var v := if Top(Value(f, p.y)) then Assign(u, p.acc, Either(Value(u, p.acc), k)) else u;
      var zero := Both(Value(v, p.y), Value(v, p.y));
      var w := Assign(v, p.y, zero);
      Rounded(e, w, p, k) && zero == Value(w, p.y)
  {
    hide Value, Assign, Place, Both, Either, Xor, Twice, Top;
    Laws();
    Idempotent(Twice(Value(f, p.y)));
  }

  /** What the loop keeps, from `e` to `f` in `rounds` rounds. */
  ghost predicate Adding(e: Env, f: Env, p: Spots, rounds: nat) {
    var (a, b, x, y) := (Value(e, p.x), Value(e, p.y), Value(f, p.x), Value(f, p.y));
    && rounds <= 16 && Settled(y, rounds) && Adds(x, y, a, b) && Carried(Value(f, p.acc), x, y, a, b)
    && OnlyAt(e, f, p)
  }

  lemma AddingBegins(e: Env, p: Spots)
    requires !Top(Value(e, p.acc))
    ensures Adding(e, e, p, 0)
  {
    hide Value, Settled, Adds, Overflows, Top;
    SettledAtLast(Value(e, p.y));
    Begun(Value(e, p.x), Value(e, p.y));
  }

  lemma AddingGoesOn(e: Env, f: Env, g: Env, p: Spots, k: Word, rounds: nat)
    requires Top(k) && Adding(e, f, p, rounds) && Rounded(f, g, p, k) && rounds < 16
    ensures Adding(e, g, p, rounds + 1) && (rounds == 15 ==> Value(g, p.y) == 0)
  {
    hide Value, Settled, Adds, Carried, Top, Xor, Carries, Both, Either;
    var x, y := Value(f, p.x), Value(f, p.y);
    RoundSettles(x, y, rounds);
    RoundAdds(x, y, Value(f, p.acc), k, Value(e, p.x), Value(e, p.y));
    SettledAtLast(Value(g, p.y));
  }

  lemma AddingEnds(e: Env, f: Env, p: Spots, rounds: nat)
    requires Adding(e, f, p, rounds) && Value(f, p.y) == 0
    ensures Value(f, p.x) == Plus(Value(e, p.x), Value(e, p.y)) && OnlyAt(e, f, p)
    ensures Top(Not(Value(f, p.acc))) == !Overflows(Value(e, p.x), Value(e, p.y))
  {
    hide Value, Settled, Adds, Top, Overflows, Plus, OnlyAt, Not;
    Ended(Value(f, p.x), Value(f, p.y), Value(e, p.x), Value(e, p.y));
    Flip(Value(f, p.acc));
  }

  /** What is done to the accumulator afterwards. */
  lemma AccumulatorGone(layer: Layer, zero: nat, e: Env, f: Env, p: Spots)
    requires Fit(layer, zero, p) && OnlyAt(e, f, p)
    ensures var u := Assign(f, p.acc, Not(Value(f, p.acc)));
      var w := Assign(u, p.acc, Twice(Value(u, p.acc)));
      && Value(u, p.acc) == Not(Value(f, p.acc)) && Value(w, p.x) == Value(f, p.x) && OnlyAt(e, w, p)
  {
    hide Value, Assign, Place, Not, Twice;
    Laws();
  }

  // ---------------------------------------------------------------- a program at work

  const R0: nat := 0
  const R1: nat := 1
  const R2: nat := 2
  const R3: nat := 3
  const R4: nat := 4
  const R5: nat := 5
  const R6: nat := 6
  const R7: nat := 7
  const R8: nat := 8
  const R9: nat := 9
  const R10: nat := 10
  const R11: nat := 11
  const R12: nat := 12
  const R13: nat := 13
  const R14: nat := 14
  const R15: nat := 15

  class Program {
    const m: array<bv8>
    const r: array<Word>
    const layer: Layer
    const zero: nat  // the register that is always zero
    var c0: bool
    var c1: bool
    var z0: bool
    var z1: bool
    ghost var env: Env         // what registers and cells hold
    ghost var rest: seq<bv8>   // the memory outside the cells

    ghost predicate Valid()
      reads this`env, this`rest, m, r
      ensures Valid() ==> |rest| == SIZE
    {
      && m.Length == SIZE && r.Length == 16 && (m as object) != r && zero < 16 && r[zero] == 0
      && rest == Clear(layer, m[..]) && Linked(layer, env, m[..], r[..])
    }

    lemma RestIs()
      requires Valid()
      ensures rest == Clear(layer, m[..])
    {
    }

    /** The registers start with whatever is in them, but for one. */
    constructor (m: array<bv8>, layer: Layer, regs: seq<Word>, zero: nat)
      requires m.Length == SIZE && |regs| == 16 && zero < 16 && regs[zero] == 0
      ensures Valid() && this.m == m && this.layer == layer && this.zero == zero && fresh(r)
      ensures rest == Clear(layer, m[..])
    {
      this.m := m;
      this.layer := layer;
      this.zero := zero;
      r := new Word[16](i requires 0 <= i < 16 => regs[i]);
      c0, c1, z0, z1 := false, false, false, false;
      env := Env(map l: nat | l < SIZE && Place(layer, l) :: Actual(layer, m[..], regs, l));
      rest := Clear(layer, m[..]);
      new;
      Linking(layer, env, m[..], regs);
      assert r[..] == regs;
    }

    method Read(l: nat) returns (v: Word)
      requires Valid() && Place(layer, l)
      ensures v == Value(env, l)
    {
      hide WordAt, Xor, Value, Linked, Clear, IsCell, CellOf;
      LinkedAt(layer, env, m[..], r[..], l);
      if l < 16 {
        v := r[l];
      } else {
        CellsAreWords(layer, l);
        match CellOf(layer, l)
        case Plain =>
          v := WordAt(m[..], l);
        case Masked(key) =>
          ZeroWord(r[zero]);
          var mask := Obf.ComputeObf(l as Word, r[zero] as nat, key);
          Obf.CalcObfIsMask(l as Word, r[zero] as nat, key);
          v := Xor(WordAt(m[..], l + r[zero] as nat), mask);
      }
    }

    method Write(l: nat, v: Word)
      requires Valid() && Usable(layer, zero, l)
      modifies m, r, this`env
      ensures Valid() && env == Assign(old(env), l, v)
    {
      hide Xor, Value, Assign, Linked, Clear, IsCell, CellOf, Put;
      if l < 16 {
        RegisterStore(layer, env, m[..], r[..], l, v);
        r[l] := v;
      } else {
        CellsAreWords(layer, l);
        var w, a := v, l;
        if CellOf(layer, l).Masked? {
          ZeroWord(r[zero]);
          var mask := Obf.ComputeObf(l as Word, r[zero] as nat, CellOf(layer, l).key);
          Obf.CalcObfIsMask(l as Word, r[zero] as nat, CellOf(layer, l).key);
          w, a := Xor(mask, v), l + r[zero] as nat;
        }
        CellStore(layer, env, m[..], r[..], l, v, w);
        OwnStore(layer, m[..], l, w);
        Sw(m, a, w);
      }
      env := Assign(env, l, v);
    }

    /** rw and sw outside the cells. */
    method Load(a: nat) returns (v: Word)
      requires Valid() && a + 1 < 0xc000
      ensures v == WordAt(rest, a)
    {
      hide WordAt, Clear, Linked;
      OtherLoad(layer, m[..], a);
      v := WordAt(m[..], a);
    }

    method Store(a: nat, v: Word)
      requires Valid() && a + 1 < 0xc000
      modifies m, this`rest
      ensures Valid() && rest == Put(old(rest), a, v)
    {
      hide WordAt, Put, Clear, Value, MaskAt, Xor, IsCell, CellOf;
      OtherStore(layer, m[..], a, v);
      StaysLinked(layer, env, m[..], r[..], a, v);
      Sw(m, a, v);
      rest := Clear(layer, m[..]);
    }

    /** rwo(a, r, key) for another register. */
    method LoadMasked(a: nat, reg: nat, key: Word) returns (v: Word)
      requires Valid() && a + reg + 1 < 0xc000
      ensures v == Xor(WordAt(rest, a + reg), Mask(a as Word, reg, key))
    {
      hide WordAt, Clear, Xor, Linked;
      OtherLoad(layer, m[..], a + reg);
      var mask := Obf.ComputeObf(a as Word, reg, key);
      Obf.CalcObfIsMask(a as Word, reg, key);
      v := Xor(WordAt(m[..], a + reg), mask);
    }

    // -------------------------------------------------------------- statements

    method Step(s: Stmt)
      requires Valid() && Legal(layer, zero, s)
      modifies m, r, this`env
      ensures Valid() && env == Exec(old(env), s)
    {
      hide Valid, Value, Assign, Place, Both, Either, Not, Shifted;
      if s.Skip? {
        return;
      }
      UsableIsPlace(layer, zero, s.l);
      match s
      case Skip =>
      case Set(l, w) =>
        Write(l, w);
      case Mov(l, k) =>
        var v := Read(k);
        Write(l, v);
      case And(l, k) =>
        var v := Read(l);
        var w := Read(k);
        Write(l, Both(v, w));
      case AndWith(l, w) =>
        var v := Read(l);
        Write(l, Both(v, w));
      case Or(l, k) =>
        var v := Read(l);
        var w := Read(k);
        Write(l, Either(v, w));
      case OrWith(l, w) =>
        var v := Read(l);
        Write(l, Either(v, w));
      case Neg(l) =>
        var v := Read(l);
        Write(l, Not(v));
      case Shift(l, right, n) =>
        var v := Read(l);
        Write(l, Shifted(v, right, n));
    }

    /** Up to twelve statements, one after the other. */
    method Do(a: Stmt, b: Stmt := Skip, c: Stmt := Skip, d: Stmt := Skip, e: Stmt := Skip, f: Stmt := Skip,
              g: Stmt := Skip, h: Stmt := Skip, i: Stmt := Skip, j: Stmt := Skip, k: Stmt := Skip, l: Stmt := Skip)
      requires Valid() && AllLegal(layer, zero, a, b, c, d, e, f, g, h, i, j, k, l)
      modifies m, r, this`env
      ensures Valid()
      ensures env ==
        Exec(Exec(Exec(Exec(Exec(Exec(Exec(Exec(Exec(Exec(Exec(Exec(
          old(env), a), b), c), d), e), f), g), h), i), j), k), l)
    {
      hide Valid, Legal, Exec;
      Step(a);
      Step(b);
      Step(c);
      Step(d);
      Step(e);
      Step(f);
      Step(g);
      Step(h);
      Step(i);
      Step(j);
      Step(k);
      Step(l);
    }

    // -------------------------------------------------------------- flags

    predicate Carry(bank: nat)
      reads this`c0, this`c1
    {
      if bank == 0 then c0 else c1
    }

    predicate Zero(bank: nat)
      reads this`z0, this`z1
    {
      if bank == 0 then z0 else z1
    }

    /** A shift to the left by one that sets the flags of a bank. */
    method ShiftOut(bank: nat, l: nat)
      requires Valid() && Usable(layer, zero, l) && bank < 2
      modifies m, r, this`env, this`c0, this`c1, this`z0, this`z1
      ensures Valid() && env == old(Assign(env, l, Twice(Value(env, l))))
      ensures Carry(bank) == old(Top(Value(env, l))) && Carry(1 - bank) == old(Carry(1 - bank))
      ensures Zero(1 - bank) == old(Zero(1 - bank))
    {
      hide Valid, Value, Assign, Usable, Place, Top, Twice;
      UsableIsPlace(layer, zero, l);
      var v := Read(l);
      Write(l, Twice(v));
      if bank == 0 {
        c0, z0 := Top(v), Twice(v) == 0;
      } else {
        c1, z1 := Top(v), Twice(v) == 0;
      }
    }

    /** and of a place with itself, for the zero flag. */
    method Test(bank: nat, l: nat)
      requires Valid() && Usable(layer, zero, l) && bank < 2
      modifies m, r, this`env, this`z0, this`z1
      ensures Valid() && env == old(Assign(env, l, Both(Value(env, l), Value(env, l))))
      ensures Zero(bank) == old(Both(Value(env, l), Value(env, l)) == 0) && Zero(1 - bank) == old(Zero(1 - bank))
    {
      hide Valid, Value, Assign, Usable, Place, Both;
      UsableIsPlace(layer, zero, l);
      var v := Read(l);
      Write(l, Both(v, v));
      if bank == 0 {
        z0 := Both(v, v) == 0;
      } else {
        z1 := Both(v, v) == 0;
      }
    }

    // -------------------------------------------------------------- exclusive or

    method OrAndNand(p: Spots)
      requires Valid() && Fit(layer, zero, p)
      modifies m, r, this`env
      ensures Valid() && Spelled(old(env), env, p)
    {
      hide Valid, Value, Assign, Exec, Legal, Place, Both, Either, Not, Xor, Shifted;
      Laws();
      OrAndNandIsXor(Value(env, p.x), Value(env, p.y));
      Do(Mov(p.a, p.x), Or(p.a, p.y), Mov(p.b, p.x), And(p.b, p.y), Neg(p.b), And(p.a, p.b), Mov(p.out, p.a));
    }

    method NandAndNotNor(p: Spots)
      requires Valid() && Fit(layer, zero, p)
      modifies m, r, this`env
      ensures Valid() && Spelled(old(env), env, p)
    {
      hide Valid, Value, Assign, Exec, Legal, Place, Both, Either, Not, Xor, Shifted;
      Laws();
      NandAndNotNorIsXor(Value(env, p.x), Value(env, p.y));
      Do(Mov(p.a, p.x), And(p.a, p.y), Neg(p.a), Mov(p.b, p.x), Or(p.b, p.y), Neg(p.b), Neg(p.b),
         And(p.a, p.b), Mov(p.out, p.a));
    }

    method NotOfOrs(p: Spots)
      requires Valid() && Fit(layer, zero, p)
      modifies m, r, this`env
      ensures Valid() && Spelled(old(env), env, p)
    {
      hide Valid, Value, Assign, Exec, Legal, Place, Both, Either, Not, Xor, Shifted;
      Laws();
      NotOfOrsIsXor(Value(env, p.x), Value(env, p.y));
      Do(Mov(p.a, p.x), Neg(p.a), Or(p.a, p.y), Mov(p.b, p.x), Mov(p.c, p.y), Neg(p.c), Or(p.b, p.c),
         And(p.a, p.b), Neg(p.a), Mov(p.out, p.a));
    }

    method AndNotMoved(p: Spots)
      requires Valid() && Fit(layer, zero, p)
      modifies m, r, this`env
      ensures Valid() && Spelled(old(env), env, p)
    {
      hide Valid, Value, Assign, Exec, Legal, Place, Both, Either, Not, Xor, Shifted;
      Laws();
      AndNotMovedIsXor(Value(env, p.x), Value(env, p.y));
      Do(Mov(p.a, p.x), Mov(p.b, p.y), Neg(p.b), And(p.a, p.b), Mov(p.b, p.a), Mov(p.c, p.x), Mov(p.d, p.y),
         Neg(p.d), Or(p.c, p.d), Neg(p.c), Or(p.b, p.c), Mov(p.out, p.b));
    }

    method NorOrAnd(p: Spots)
      requires Valid() && Fit(layer, zero, p)
      modifies m, r, this`env
      ensures Valid() && Spelled(old(env), env, p)
    {
      hide Valid, Value, Assign, Exec, Legal, Place, Both, Either, Not, Xor, Shifted;
      Laws();
      NorOrAndIsXor(Value(env, p.x), Value(env, p.y));
      Do(Mov(p.a, p.x), Neg(p.a), Or(p.a, p.y), Neg(p.a), Mov(p.b, p.x), Neg(p.b), And(p.b, p.y), Or(p.a, p.b),
         Mov(p.out, p.a));
    }

    method NandAndOr(p: Spots)
      requires Valid() && Fit(layer, zero, p)
      modifies m, r, this`env
      ensures Valid() && Spelled(old(env), env, p)
    {
      hide Valid, Value, Assign, Exec, Legal, Place, Both, Either, Not, Xor, Shifted;
      Laws();
      NandAndOrIsXor(Value(env, p.x), Value(env, p.y));
      Do(Mov(p.a, p.x), And(p.a, p.y), Neg(p.a), Mov(p.b, p.x), Or(p.b, p.y), And(p.a, p.b), Mov(p.out, p.a));
    }

    method AndsOfNots(p: Spots)
      requires Valid() && Fit(layer, zero, p)
      modifies m, r, this`env
      ensures Valid() && Spelled(old(env), env, p)
    {
      hide Valid, Value, Assign, Exec, Legal, Place, Both, Either, Not, Xor, Shifted;
      Laws();
      AndsOfNotsIsXor(Value(env, p.x), Value(env, p.y));
      Do(Mov(p.a, p.x), Neg(p.a), And(p.a, p.y), Mov(p.b, p.x), Mov(p.c, p.y), Neg(p.c), And(p.b, p.c),
         Or(p.a, p.b), Mov(p.out, p.a));
    }

    method AndOrNor(p: Spots)
      requires Valid() && Fit(layer, zero, p)
      modifies m, r, this`env
      ensures Valid() && Spelled(old(env), env, p)
    {
      hide Valid, Value, Assign, Exec, Legal, Place, Both, Either, Not, Xor, Shifted;
      Laws();
      AndOrNorIsXor(Value(env, p.x), Value(env, p.y));
      Do(Mov(p.a, p.x), Neg(p.a), And(p.a, p.y), Mov(p.b, p.x), Neg(p.b), Or(p.b, p.y), Neg(p.b), Or(p.a, p.b),
         Mov(p.out, p.a));
    }

    method NorThenAnd(p: Spots)
      requires Valid() && Fit(layer, zero, p)
      modifies m, r, this`env
      ensures Valid() && Spelled(old(env), env, p)
    {
      hide Valid, Value, Assign, Exec, Legal, Place, Both, Either, Not, Xor, Shifted;
      Laws();
      NorThenAndIsXor(Value(env, p.x), Value(env, p.y));
      Do(Mov(p.a, p.x), Mov(p.b, p.y), Neg(p.b), Or(p.a, p.b), Neg(p.a), Mov(p.c, p.x), Mov(p.d, p.y),
         Neg(p.d), And(p.c, p.d), Or(p.a, p.c), Mov(p.out, p.a));
    }

    method AndNorCopied(p: Spots)
      requires Valid() && Fit(layer, zero, p)
      modifies m, r, this`env
      ensures Valid() && Spelled(old(env), env, p)
    {
      hide Valid, Value, Assign, Exec, Legal, Place, Both, Either, Not, Xor, Shifted;
      Laws();
      AndNotMovedIsXor(Value(env, p.x), Value(env, p.y));
      Do(Mov(p.a, p.x), Mov(p.b, p.y), Neg(p.b), And(p.a, p.b), Mov(p.c, p.x), Mov(p.d, p.y), Neg(p.d),
         Or(p.c, p.d), Mov(p.d, p.c), Neg(p.d), Or(p.a, p.d), Mov(p.out, p.a));
    }

    method TwoAnds(p: Spots)
      requires Valid() && Fit(layer, zero, p)
      modifies m, r, this`env
      ensures Valid() && Spelled(old(env), env, p)
    {
      hide Valid, Value, Assign, Exec, Legal, Place, Both, Either, Not, Xor, Shifted;
      Laws();
      TwoAndsIsXor(Value(env, p.x), Value(env, p.y));
      Do(Mov(p.a, p.x), Mov(p.b, p.y), Neg(p.b), And(p.a, p.b), Mov(p.c, p.x), Neg(p.c), And(p.c, p.y),
         Or(p.a, p.c), Mov(p.out, p.a));
    }

    method NotOfOrsSwapped(p: Spots)
      requires Valid() && Fit(layer, zero, p)
      modifies m, r, this`env
      ensures Valid() && Spelled(old(env), env, p)
    {
      hide Valid, Value, Assign, Exec, Legal, Place, Both, Either, Not, Xor, Shifted;
      Laws();
      NotOfOrsSwappedIsXor(Value(env, p.x), Value(env, p.y));
      Do(Mov(p.a, p.x), Mov(p.b, p.y), Neg(p.b), Or(p.a, p.b), Mov(p.c, p.x), Neg(p.c), Or(p.c, p.y),
         And(p.a, p.c), Neg(p.a), Mov(p.out, p.a));
    }

    method AndNor(p: Spots)
      requires Valid() && Fit(layer, zero, p)
      modifies m, r, this`env
      ensures Valid() && Spelled(old(env), env, p)
    {
      hide Valid, Value, Assign, Exec, Legal, Place, Both, Either, Not, Xor, Shifted;
      Laws();
      AndNotMovedIsXor(Value(env, p.x), Value(env, p.y));
      Do(Mov(p.a, p.x), Mov(p.b, p.y), Neg(p.b), And(p.a, p.b), Mov(p.c, p.x), Mov(p.d, p.y), Neg(p.d),
         Or(p.c, p.d), Neg(p.c), Or(p.a, p.c), Mov(p.out, p.a));
    }

    method Spell(form: Form, p: Spots)
      requires Valid() && Fit(layer, zero, p)
      modifies m, r, this`env
      ensures Valid() && Spelled(old(env), env, p)
    {
      hide *;
      match form
      case OrAndNand => OrAndNand(p);
      case NandAndNotNor => NandAndNotNor(p);
      case NotOfOrs => NotOfOrs(p);
      case AndNotMoved => AndNotMoved(p);
      case NorOrAnd => NorOrAnd(p);
      case NandAndOr => NandAndOr(p);
      case AndsOfNots => AndsOfNots(p);
      case AndOrNor => AndOrNor(p);
      case NorThenAnd => NorThenAnd(p);
      case AndNorCopied => AndNorCopied(p);
      case TwoAnds => TwoAnds(p);
      case NotOfOrsSwapped => NotOfOrsSwapped(p);
      case AndNor => AndNor(p);
    }

    // -------------------------------------------------------------- the adder

    /** The exclusive or in the first place, the common bits in the second. */
    method Exchange(form: Form, p: Spots)
      requires Valid() && Fit(layer, zero, p)
      modifies m, r, this`env
      ensures Valid() && OnlyAt(old(env), env, p)
      ensures Value(env, p.x) == Xor(old(Value(env, p.x)), old(Value(env, p.y)))
      ensures Value(env, p.y) == Both(old(Value(env, p.x)), old(Value(env, p.y)))
      ensures Value(env, p.acc) == old(Value(env, p.acc))
    {
      hide Valid, Value, Assign, Exec, Legal, Place, Both, Xor;
      Laws();
      Spell(form, p);
      Do(And(p.x, p.y), Mov(p.y, p.x), Mov(p.x, p.out));
    }

    /** Once around the loop: the exclusive or, the carries, and the accumulator. */
    method Round(bank: nat, form: Form, p: Spots, k: Word)
      requires Valid() && Fit(layer, zero, p) && bank < 2
      modifies m, r, this`env, this`c0, this`c1, this`z0, this`z1
      ensures Valid() && Rounded(old(env), env, p, k) && Zero(bank) == (Value(env, p.y) == 0)
      ensures Carry(1 - bank) == old(Carry(1 - bank)) && Zero(1 - bank) == old(Zero(1 - bank))
    {
      hide Valid, Value, Assign, Exec, Legal, Place, Both, Either, Xor, Twice, Top, OnlyAt, Rounded;
      Laws();
      ghost var e := env;
      Exchange(form, p);
      ghost var f := env;
      ShiftOut(bank, p.y);
      if Carry(bank) {
        Step(OrWith(p.acc, k));
      }
      Test(bank, p.y);
      RoundMade(layer, zero, e, f, p, k);
    }

    /** The adder: the sum of two places, modulo 2^16, in the first of them, and a
        carry flag that says whether it fits.  It ends within sixteen rounds.  A lost
        carry is remembered in the accumulator; the last neg and shift move its top
        bit into the flag. */
    method Add(bank: nat, form: Form, p: Spots, k: Word)
      requires Valid() && Fit(layer, zero, p) && bank < 2 && Top(k) && !Top(Value(env, p.acc))
      modifies m, r, this`env, this`c0, this`c1, this`z0, this`z1
      ensures Valid() && OnlyAt(old(env), env, p)
      ensures Value(env, p.x) == Plus(old(Value(env, p.x)), old(Value(env, p.y)))
      ensures Carry(bank) == !Overflows(old(Value(env, p.x)), old(Value(env, p.y)))
      ensures Carry(1 - bank) == old(Carry(1 - bank)) && Zero(1 - bank) == old(Zero(1 - bank))
    {
      hide Valid, Value, Assign, Exec, Legal, Place, Not, Twice, Top, Plus, Overflows, OnlyAt, Adding, Rounded;
      Laws();
      ghost var rounds := 0;
      var more := true;
      AddingBegins(env, p);
      while more
        invariant Valid() && Adding(old(env), env, p, rounds)
        invariant more ==> rounds < 16
        invariant !more ==> Value(env, p.y) == 0
        invariant Carry(1 - bank) == old(Carry(1 - bank)) && Zero(1 - bank) == old(Zero(1 - bank))
        decreases 16 - rounds
      {
        ghost var e := env;
        Round(bank, form, p, k);
        AddingGoesOn(old(env), e, env, p, k, rounds);
        rounds := rounds + 1;
        more := !Zero(bank);
      }
      ghost var e := env;
      Step(Neg(p.acc));
      ShiftOut(bank, p.acc);
      AddingEnds(old(env), e, p, rounds);
      AccumulatorGone(layer, zero, old(env), e, p);
    }

    method Take(x: Source) returns (v: Word)
      requires Valid() && (x.Of? ==> Place(layer, x.l))
      ensures v == From(env, x)
    {
      hide Valid, Value, Place;
      match x
      case Lit(w) =>
        v := w;
      case Of(l) =>
        v := Read(l);
    }

    /** The adder with what comes before it: the accumulator and the two numbers
        are set. */
    method Sum(bank: nat, form: Form, p: Spots, init: Word, k: Word, x: Source, y: Source)
      requires Valid() && Fit(layer, zero, p) && bank < 2 && Top(k) && !Top(init)
      requires Readable(layer, x, p) && Readable(layer, y, p)
      modifies m, r, this`env, this`c0, this`c1, this`z0, this`z1
      ensures Valid() && OnlyAt(old(env), env, p)
      ensures Value(env, p.x) == old(Plus(From(env, x), From(env, y)))
      ensures Carry(bank) == !old(Overflows(From(env, x), From(env, y)))
      ensures Carry(1 - bank) == old(Carry(1 - bank)) && Zero(1 - bank) == old(Zero(1 - bank))
    {
      hide Valid, Value, Assign, Exec, Place, Top, Plus, Overflows;
      Laws();
      Write(p.acc, init);
      var v := Take(x);
      Write(p.x, v);
      v := Take(y);
      Write(p.y, v);
      Add(bank, form, p, k);
    }
  }
}
