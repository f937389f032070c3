/** The differential attack on the first round (reverse.py,
    find_candidates_for_subkey): two middle bits of one selection function's
    input are flipped, and the left half is changed so that the right key bits
    hide the difference. */
module FirstRound {
  import opened Powers
  import opened Binary
  import opened DesTables
  import opened Des
  import opened Deciphering

  /** R0 ^ R0P: the two middle bits of box `si`. */
  function Delta(si: nat): (d: Bits)
    ensures |d| == 32
  {
    seq(32, p => p == 4 * si + 1 || p == 4 * si + 2)
  }

  /** A number's bits, the lowest first, as K[index:nindex] = i leaves them. */
  function BitsOf(i: nat, n: nat): (x: Bits)
    ensures |x| == n
  {
    if n == 0 then [] else [i % 2 == 1] + BitsOf(i / 2, n - 1)
  }

  function SixBits(i: nat): (x: Bits)
    ensures |x| == 6
  {
    BitsOf(i, 6)
  }

  /** A key that is 0 but for a guess at the six bits of box `si`. */
  function Guess(si: nat, x: Bits): (k: Bits)
    requires si < 8 && |x| == 6
    ensures |k| == 48 && Six(k, si) == x
  {
    seq(48, p requires 0 <= p < 48 => if 6 * si <= p < 6 * si + 6 then x[p - 6 * si] else false)
  }

  function Start(x: Bits): (h: Halves)
    requires |x| == 64
    ensures Fits(h)
  {
    Split(Pick(x, IpTable()))
  }

  /** F(R0, K) ^ F(R0P, K). */
  function Change(r: Bits, si: nat, k: Bits): (d: Bits)
    requires |r| == 32 && |k| == 48
    ensures |d| == 32
  {
    Xor(F(r, k), F(Xor(r, Delta(si)), k))
  }

  /** XP, for the key `k`. */
  function Crafted(x: Bits, si: nat, k: Bits): (xp: Bits)
    requires |x| == 64 && |k| == 48
    ensures |xp| == 64
  {
    var h := Start(x);
    Pick(Join(Halves(Xor(h.l, Change(h.r, si, k)), Xor(h.r, Delta(si)))), IpInvTable())
  }

  // ---------------------------------------------------------------- one box at a time

  /** What the expansion makes of the difference: the middle bits of one box. */
  function Middle(): (m: Bits)
    ensures |m| == 6
  {
    [false, false, true, true, false, false]
  }

  lemma ExpandedDelta(n: nat, j: nat, si: nat)
    requires n < 8 && si < 8 && j < 6
    ensures E(6 * n + j) < 32 && (Delta(si)[E(6 * n + j)] <==> n == si && (j == 2 || j == 3))
  {
    hide E;
    EAt(n, j);
  }

  /** Four neighbours and the one on either side. */
  lemma EAt(n: nat, j: nat)
    requires n < 8 && j < 6
    ensures E(6 * n + j) == if n == 0 && j == 0 then 31 else if n == 7 && j == 5 then 0 else 4 * n + j - 1
  {
    hide E;
    EIs(6 * n + j);
    assert (6 * n + j) / 6 == n && (6 * n + j) % 6 == j;
  }

  /** The input of a box. */
  function Input(r: Bits, sk: Bits, n: nat): (x: Bits)
    requires |r| == 32 && |sk| == 48 && n < 8
    ensures |x| == 6
  {
    Six(Xor(Pick(r, ETable()), sk), n)
  }

  lemma InputAt(r: Bits, sk: Bits, n: nat, j: nat)
    requires |r| == 32 && |sk| == 48 && n < 8 && j < 6
    ensures E(6 * n + j) < 32 && Input(r, sk, n)[j] == (r[E(6 * n + j)] != sk[6 * n + j])
  {
    hide E;
    EIs(6 * n + j);
  }

  lemma InputChanges(r: Bits, sk: Bits, n: nat, si: nat)
    requires |r| == 32 && |sk| == 48 && n < 8 && si < 8
    ensures Input(Xor(r, Delta(si)), sk, n)
         == if n == si then Xor(Input(r, sk, n), Middle()) else Input(r, sk, n)
  {
    hide E, Input, Delta;
    var a, b := Input(Xor(r, Delta(si)), sk, n), Input(r, sk, n);
    forall j | 0 <= j < 6
      ensures a[j] == (b[j] != (n == si && (j == 2 || j == 3)))
    {
      ExpandedDelta(n, j, si);
      InputAt(r, sk, n, j);
      InputAt(Xor(r, Delta(si)), sk, n, j);
    }
    if n == si {
      assert a == Xor(b, Middle());
    } else {
      assert a == b;
    }
  }

  /** A box's output in the whole of F's. */
  lemma {:induction false} SelectedAt(s: Bits, m: nat, n: nat)
    requires |s| == 48 && n < m <= 8
    ensures Selected(s, m)[4 * n .. 4 * n + 4] == Select(n, Six(s, n))
  {
    hide Select;
    var front, last := Selected(s, m - 1), Select(m - 1, Six(s, m - 1));
    assert Selected(s, m) == front + last;
    if n < m - 1 {
      SelectedAt(s, m - 1, n);
      assert (front + last)[4 * n .. 4 * n + 4] == front[4 * n .. 4 * n + 4];
    }
  }

  /** What a box gives for both inputs, XORed. */
  function BoxChange(si: nat, x: Bits): (d: Bits)
    requires si < 8 && |x| == 6
    ensures |d| == 4
  {
    Xor(Select(si, x), Select(si, Xor(x, Middle())))
  }

  /** Before _P: the difference is confined to the outputs of box `si`. */
  function Spread(si: nat, d: Bits): (z: Bits)
    requires si < 8 && |d| == 4
    ensures |z| == 32
  {
    seq(32, p requires 0 <= p < 32 => if 4 * si <= p < 4 * si + 4 then d[p - 4 * si] else false)
  }

  function Expanded(r: Bits, sk: Bits): (s: Bits)
    requires |r| == 32 && |sk| == 48
    ensures |s| == 48
  {
    Xor(Pick(r, ETable()), sk)
  }

  lemma SelectedChange(r: Bits, sk: Bits, si: nat)
    requires |r| == 32 && |sk| == 48 && si < 8
    ensures Xor(Selected(Expanded(r, sk), 8), Selected(Expanded(Xor(r, Delta(si)), sk), 8))
         == Spread(si, BoxChange(si, Input(r, sk, si)))
  {
    hide Selected, Select, Delta, Input, Expanded, Six, Middle;
    var a, b := Selected(Expanded(r, sk), 8), Selected(Expanded(Xor(r, Delta(si)), sk), 8);
    var d := BoxChange(si, Input(r, sk, si));
    forall p | 0 <= p < 32
      ensures Xor(a, b)[p] == Spread(si, d)[p]
    {
      SelectedChangeAt(r, sk, si, p / 4);
      var n := p / 4;
      assert a[p] == a[4 * n .. 4 * n + 4][p % 4] && b[p] == b[4 * n .. 4 * n + 4][p % 4];
    }
  }

  lemma SelectedChangeAt(r: Bits, sk: Bits, si: nat, n: nat)
    requires |r| == 32 && |sk| == 48 && si < 8 && n < 8
    ensures var a, b := Selected(Expanded(r, sk), 8), Selected(Expanded(Xor(r, Delta(si)), sk), 8);
      if n == si
      then Xor(a[4 * n .. 4 * n + 4], b[4 * n .. 4 * n + 4]) == BoxChange(si, Input(r, sk, si))
      else a[4 * n .. 4 * n + 4] == b[4 * n .. 4 * n + 4]
  {
    hide Selected, Select, Delta, Middle, Xor, Pick;
    SelectedAt(Expanded(r, sk), 8, n);
    SelectedAt(Expanded(Xor(r, Delta(si)), sk), 8, n);
    InputChanges(r, sk, n, si);
  }

  /** The change is that of one box, moved by _P. */
  lemma ChangeIs(r: Bits, si: nat, sk: Bits)
    requires |r| == 32 && |sk| == 48 && si < 8
    ensures Change(r, si, sk) == Pick(Spread(si, BoxChange(si, Input(r, sk, si))), PTable())
  {
    hide Selected, Delta, Input, Pick, Spread, BoxChange, PTable, Xor;
    SelectedChange(r, sk, si);
    PickXor(Selected(Expanded(r, sk), 8), Selected(Expanded(Xor(r, Delta(si)), sk), 8), PTable());
  }

  lemma PickXor(a: Bits, b: Bits, t: seq<nat>)
    requires |a| == |b| && Indexes(t, |a|)
    ensures Pick(Xor(a, b), t) == Xor(Pick(a, t), Pick(b, t))
  {
    assert forall i | 0 <= i < |t| :: Pick(Xor(a, b), t)[i] == Xor(Pick(a, t), Pick(b, t))[i];
  }

  // ---------------------------------------------------------------- _P loses nothing

  function PInverse(i: nat): nat
    requires i < 32
  {
    (match i / 8
     case 0 => [8, 16, 22, 30, 12, 27, 1, 17]
     case 1 => [23, 15, 29, 5, 25, 19, 9, 0]
     case 2 => [7, 13, 24, 2, 3, 28, 10, 18]
     case _ => [31, 11, 21, 6, 4, 26, 14, 20])[i % 8]
  }

  lemma POfInverse(i: nat)
    requires i < 32
    ensures PInverse(i) < 32 && P(PInverse(i)) == i
  {
  }

  lemma PickPIsInjective(a: Bits, b: Bits)
    requires |a| == |b| == 32 && Pick(a, PTable()) == Pick(b, PTable())
    ensures a == b
  {
    hide P, PInverse;
    forall i | 0 <= i < 32
      ensures a[i] == b[i]
    {
      POfInverse(i);
      assert Pick(a, PTable())[PInverse(i)] == a[i] && Pick(b, PTable())[PInverse(i)] == b[i];
    }
  }

  lemma SpreadIsInjective(si: nat, a: Bits, b: Bits)
    requires si < 8 && |a| == |b| == 4 && Spread(si, a) == Spread(si, b)
    ensures a == b
  {
    forall j | 0 <= j < 4
      ensures a[j] == b[j]
    {
      assert Spread(si, a)[4 * si + j] == a[j] && Spread(si, b)[4 * si + j] == b[j];
    }
  }

  /** Two keys give one change exactly when the box gives one difference. */
  lemma SameChange(r: Bits, si: nat, k: Bits, sk: Bits)
    requires |r| == 32 && |k| == |sk| == 48 && si < 8
    ensures Change(r, si, k) == Change(r, si, sk)
       <==> BoxChange(si, Input(r, k, si)) == BoxChange(si, Input(r, sk, si))
  {
    hide Change, BoxChange, Input, Spread, Pick, PTable;
    ChangeIs(r, si, k);
    ChangeIs(r, si, sk);
    var a, b := BoxChange(si, Input(r, k, si)), BoxChange(si, Input(r, sk, si));
    if Change(r, si, k) == Change(r, si, sk) {
      PickPIsInjective(Spread(si, a), Spread(si, b));
      SpreadIsInjective(si, a, b);
    }
  }

  // ---------------------------------------------------------------- the crafted block

  lemma StartOfCrafted(x: Bits, si: nat, k: Bits)
    requires |x| == 64 && |k| == 48
    ensures Start(Crafted(x, si, k)) == var h := Start(x); Halves(Xor(h.l, Change(h.r, si, k)), Xor(h.r, Delta(si)))
  {
    hide Change, Pick, Delta, Xor, IpTable, IpInvTable;
    var h := Start(x);
    var g := Halves(Xor(h.l, Change(h.r, si, k)), Xor(h.r, Delta(si)));
    FinalThenInitial(Join(g));
    assert Split(Join(g)) == g;
  }

  lemma XorCancels(l: Bits, a: Bits, b: Bits, d: Bits)
    requires |l| == |a| == |b| == |d|
    ensures Xor(Xor(l, d), b) == Xor(l, a) <==> d == Xor(a, b)
  {
    var left, right := Xor(Xor(l, d), b), Xor(l, a);
    if left == right {
      forall i | 0 <= i < |d|
        ensures d[i] == Xor(a, b)[i]
      {
        assert left[i] == right[i];
      }
    }
  }

  /** After the first round with any key `sk`: the left half always differs in the
      two bits, and the right half is the same exactly when the guess and the key
      make the box give one difference. */
  lemma AfterOneRound(x: Bits, si: nat, k: Bits, sk: Bits)
    requires |x| == 64 && |k| == |sk| == 48 && si < 8
    ensures var (a, b) := (Round(Start(x), sk), Round(Start(Crafted(x, si, k)), sk));
      && b.l == Xor(a.l, Delta(si))
      && (b.r == a.r <==> BoxChange(si, Input(Start(x).r, k, si)) == BoxChange(si, Input(Start(x).r, sk, si)))
  {
    hide Start, Crafted, F, Delta, Xor, BoxChange, Input;
    StartOfCrafted(x, si, k);
    var h := Start(x);
    SameChange(h.r, si, k, sk);
    XorCancels(h.l, F(h.r, sk), F(Xor(h.r, Delta(si)), sk), Change(h.r, si, k));
  }

  /** The attack is sound: when the guess is the six key bits of the box, the right
      half does not change at all. */
  lemma RightGuessHides(x: Bits, si: nat, i: nat, sk: Bits)
    requires |x| == 64 && |sk| == 48 && si < 8 && Six(sk, si) == SixBits(i)
    ensures var (a, b) := (Round(Start(x), sk), Round(Start(Crafted(x, si, Guess(si, SixBits(i)))), sk));
      && b.r == a.r
      && forall p | 0 <= p < 32 :: b.l[p] != a.l[p] <==> p == 4 * si + 1 || p == 4 * si + 2
  {
    hide Start, Crafted, F, BoxChange, SixBits, BitsOf, Guess, ETable, Round;
    var k := Guess(si, SixBits(i));
    AfterOneRound(x, si, k, sk);
    SameInput(Start(x).r, k, sk, si);
  }

  lemma SameInput(r: Bits, k: Bits, sk: Bits, n: nat)
    requires |r| == 32 && |k| == |sk| == 48 && n < 8 && Six(k, n) == Six(sk, n)
    ensures Input(r, k, n) == Input(r, sk, n)
  {
    hide ETable, Pick;
    var u := Pick(r, ETable());
    assert Six(Xor(u, k), n) == Xor(Six(u, n), Six(k, n));
    assert Six(Xor(u, sk), n) == Xor(Six(u, n), Six(sk, n));
  }

  lemma {:induction false} BitsOfValue(x: Bits)
    ensures BitsOf(Value(x), |x|) == x
  {
    if x != [] {
      BitsOfValue(x[1..]);
      var rest := Value(x[1..]);
      assert Value(x) / 2 == rest && (Value(x) % 2 == 1 <==> x[0]);
      assert x == [x[0]] + x[1..];
    }
  }

  /** Every six bits are a guess that is made. */
  lemma EveryGuessIsMade(x: Bits)
    requires |x| == 6
    ensures exists i: nat | i < 64 :: SixBits(i) == x
  {
    BitsOfValue(x);
    assert Pow2(3) == 8 && Pow2(6) == 64;
    assert SixBits(Value(x)) == x;
  }

  // ---------------------------------------------------------------- the search

  /** In how many of the first `n` bytes two states differ. */
  function Differing(y: Bits, yp: Bits, n: nat): (count: nat)
    requires |y| == |yp| == 96 && n <= 12
  {
    if n == 0 then 0
    else Differing(y, yp, n - 1) + if y[8 * n - 8 .. 8 * n] != yp[8 * n - 8 .. 8 * n] then 1 else 0
  }

  /** The positions of the bytes in which two states differ. */
  function DifferingBytes(y: Bits, yp: Bits, n: nat): set<nat>
    requires |y| == |yp| == 96 && n <= 12
  {
    set j: nat | j < n && exists p :: 8 * j <= p < 8 * j + 8 && y[p] != yp[p]
  }

  lemma SameByte(y: Bits, yp: Bits, j: nat)
    requires |y| == |yp| == 96 && j < 12
    ensures y[8 * j .. 8 * j + 8] != yp[8 * j .. 8 * j + 8] <==> exists p :: 8 * j <= p < 8 * j + 8 && y[p] != yp[p]
  {
    var a, b := y[8 * j .. 8 * j + 8], yp[8 * j .. 8 * j + 8];
    if a != b {
      var k :| 0 <= k < 8 && a[k] != b[k];
      assert y[8 * j + k] != yp[8 * j + k];
    }
    if p :| 8 * j <= p < 8 * j + 8 && y[p] != yp[p] {
      assert a[p - 8 * j] != b[p - 8 * j];
    }
  }

  /** The count is the number of such positions. */
  lemma {:induction false} DifferingIs(y: Bits, yp: Bits, n: nat)
    requires |y| == |yp| == 96 && n <= 12
    ensures Differing(y, yp, n) == |DifferingBytes(y, yp, n)|
  {
    if n > 0 {
      DifferingIs(y, yp, n - 1);
      SameByte(y, yp, n - 1);
      var before := DifferingBytes(y, yp, n - 1);
      assert DifferingBytes(y, yp, n) ==
        if exists p :: 8 * (n - 1) <= p < 8 * (n - 1) + 8 && y[p] != yp[p] then before + {n - 1} else before;
    }
  }

  predicate IsCandidate(first: Bits -> Bits, x: Bits, si: nat, i: nat)
    requires |x| == 64 && si < 8
    requires forall m: Bits :: |first(m)| == 96
  {
    Differing(first(x), first(Crafted(x, si, Guess(si, SixBits(i)))), 12) <= 2
  }

  /** A guess is kept exactly if its block differs in no three bytes. */
  lemma CandidateIs(first: Bits -> Bits, x: Bits, si: nat, i: nat)
    requires |x| == 64 && si < 8
    requires forall m: Bits :: |first(m)| == 96
    ensures var xp := Crafted(x, si, Guess(si, SixBits(i)));
      IsCandidate(first, x, si, i) <==> |DifferingBytes(first(x), first(xp), 12)| < 3
  {
    hide Differing, DifferingBytes, Crafted, Guess, SixBits;
    DifferingIs(first(x), first(Crafted(x, si, Guess(si, SixBits(i)))), 12);
  }

  /** Two blocks that one round with `sk` leaves alike but for the two bits. */
  predicate NearlyAlike(x: Bits, xp: Bits, si: nat, sk: Bits)
    requires |x| == |xp| == 64 && |sk| == 48
  {
    var a, b := Round(Start(x), sk), Round(Start(xp), sk);
    b.r == a.r && forall p | 0 <= p < 32 :: b.l[p] != a.l[p] <==> p == 4 * si + 1 || p == 4 * si + 2
  }

  /** A white box that hides the first round of `sk`, and that shows two bits of L1
      in no more than two bytes, keeps the true six key bits among the candidates. */
  lemma TrueBitsAreACandidate(first: Bits -> Bits, x: Bits, si: nat, sk: Bits)
    requires |x| == 64 && |sk| == 48 && si < 8
    requires forall m: Bits :: |first(m)| == 96
    requires forall xp: Bits | |xp| == 64 && NearlyAlike(x, xp, si, sk) :: Differing(first(x), first(xp), 12) <= 2
    ensures exists i: nat | i < 64 :: SixBits(i) == Six(sk, si) && IsCandidate(first, x, si, i)
  {
    hide Start, Crafted, Round, SixBits, Guess, Differing;
    EveryGuessIsMade(Six(sk, si));
    var i: nat :| i < 64 && SixBits(i) == Six(sk, si);
    RightGuessHides(x, si, i, sk);
    assert NearlyAlike(x, Crafted(x, si, Guess(si, SixBits(i))), si, sk);
  }

  /** find_candidates_for_subkey, for any first round `first` of a white box. */
  method FindCandidates(first: Bits -> Bits, x: Bits, si: nat) returns (candidates: seq<nat>)
    requires |x| == 64 && si < 8
    requires forall m: Bits :: |first(m)| == 96
    ensures forall i: nat :: i in candidates <==> i < 64 && IsCandidate(first, x, si, i)
    ensures forall a, b | 0 <= a < b < |candidates| :: candidates[a] < candidates[b]
  {
    hide F, ETable, IpTable, IpInvTable, Delta, Differing;
    var blk := Pick(x, IpTable());
    var l0, r0 := blk[..32], blk[32..];
    var r0p := Xor(r0, Delta(si));
    candidates := [];
    for i := 0 to 64
      invariant forall j: nat :: j in candidates <==> j < i && IsCandidate(first, x, si, j)
      invariant forall a, b | 0 <= a < b < |candidates| :: candidates[a] < candidates[b]
      invariant forall a | 0 <= a < |candidates| :: candidates[a] < i
    {
      var k := Guess(si, SixBits(i));
      var l0p := Xor(l0, Xor(F(r0, k), F(r0p, k)));
      var xp := Pick(l0p + r0p, IpInvTable());
      var count := CountDiffering(first(x), first(xp));
      assert count == Differing(first(x), first(Crafted(x, si, k)), 12);
      if count <= 2 {
        candidates := candidates + [i];
      }
    }
  }

  method CountDiffering(y: Bits, yp: Bits) returns (count: nat)
    requires |y| == |yp| == 96
    ensures count == Differing(y, yp, 12)
  {
    count := 0;
    var r := 0;
    for j := 0 to 12
      invariant r == 8 * j && count == Differing(y, yp, j)
    {
      var nr := r + 8;
      if y[r..nr] != yp[r..nr] {
        count := count + 1;
      }
      r := r + 8;
    }
  }
}
