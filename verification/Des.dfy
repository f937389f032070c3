/** DES and the differential attack on its first round (reverse.py).  The class
    Bits is a list of booleans, bit 0 first (FIPS PUB 46-3: "Enciphering",
    "Deciphering", "The Cipher Function f"). */
module Des {
  import opened Binary
  import opened DesTables

  type Bits = seq<bool>

  // ---------------------------------------------------------------- lists of bits

  predicate Indexes(t: seq<nat>, n: nat) {
    forall i | 0 <= i < |t| :: t[i] < n
  }

  /** s[table] */
  function Pick(s: Bits, t: seq<nat>): (r: Bits)
    requires Indexes(t, |s|)
    ensures |r| == |t|
  {
    seq(|t|, i requires 0 <= i < |t| => s[t[i]])
  }

  function IpTable(): (t: seq<nat>)
    ensures |t| == 64 && Indexes(t, 64)
  {
    var t := seq(64, i requires 0 <= i < 64 => Ip(i));
    assert Indexes(t, 64) by {
      forall i | 0 <= i < 64 ensures t[i] < 64 {
        InvOfIp(i);
      }
    }
    t
  }

  function IpInvTable(): (t: seq<nat>)
    ensures |t| == 64 && Indexes(t, 64)
  {
    var t := seq(64, i requires 0 <= i < 64 => IpInv(i));
    assert Indexes(t, 64) by {
      forall i | 0 <= i < 64 ensures t[i] < 64 {
        IpOfInv(i);
      }
    }
    t
  }

  function Pc1Table(): (t: seq<nat>)
    ensures |t| == 56 && Indexes(t, 64)
  {
    var t := seq(56, i requires 0 <= i < 56 => Pc1(i));
    assert Indexes(t, 64) by {
      forall i | 0 <= i < 56 ensures t[i] < 64 {
        Pc1Is(i);
      }
    }
    t
  }

  function Pc2Table(): (t: seq<nat>)
    ensures |t| == 48 && Indexes(t, 56)
  {
    var t := seq(48, i requires 0 <= i < 48 => Pc2(i));
    assert Indexes(t, 56) by {
      forall i | 0 <= i < 48 ensures t[i] < 56 {
        Pc2Is(i);
      }
    }
    t
  }

  function ETable(): (t: seq<nat>)
    ensures |t| == 48 && Indexes(t, 32)
  {
    var t := seq(48, i requires 0 <= i < 48 => E(i));
    assert Indexes(t, 32) by {
      forall i | 0 <= i < 48 ensures t[i] < 32 {
        EIs(i);
      }
    }
    t
  }

  function PTable(): (t: seq<nat>)
    ensures |t| == 32 && Indexes(t, 32)
  {
    var t := seq(32, i requires 0 <= i < 32 => P(i));
    assert Indexes(t, 32) by {
      forall i | 0 <= i < 32 ensures t[i] < 32 {
        PIs(i);
      }
    }
    t
  }

  // ---------------------------------------------------------------- the key schedule

  function Shift(r: nat): (n: nat)
    ensures 1 <= n <= 2
  {
    if r == 0 || r == 1 || r == 8 || r == 15 then 1 else 2
  }

  /** The sum of the first `n` shifts. */
  function Shifts(n: nat): nat {
    if n == 0 then 0 else Shifts(n - 1) + Shift(n - 1)
  }

  /** One place in rounds 1, 2, 9 and 16, two in the others; 28 in all, so the last
      round's key is made of the unrotated halves. */
  lemma {:induction false} ShiftsAre(n: nat)
    requires n <= 16
    ensures Shifts(n) == if n <= 1 then n else if n <= 8 then 2 * n - 2 else if n <= 15 then 2 * n - 3 else 28
    ensures Shifts(n) <= 28
  {
    if n > 0 {
      ShiftsAre(n - 1);
    }
  }

  /** (C >> s) | (C << (28 - s)): bit `i` of the result is bit `i + s`. */
  function Rotate(c: Bits, s: nat): (r: Bits)
    requires s <= |c|
    ensures |r| == |c|
  {
    c[s..] + c[..s]
  }

  /** _subkey: the key of round `r`, from the 56 bits that _PC1 leaves. */
  function Subkey(k: Bits, r: nat): (sk: Bits)
    requires |k| == 56 && r < 16
    ensures |sk| == 48
  {
    ShiftsAre(r + 1);
    Pick(Rotate(k[..28], Shifts(r + 1)) + Rotate(k[28..], Shifts(r + 1)), Pc2Table())
  }

  // ---------------------------------------------------------------- the cipher function

  /** A number's four bits, the highest first. */
  function FourBits(v: bv4): (r: Bits)
    ensures |r| == 4
  {
    [v & 8 != 0, v & 4 != 0, v & 2 != 0, v & 1 != 0]
  }

  /** x[(5, 0)] and x[(4, 3, 2, 1)], the lowest bit first. */
  function Row(x: Bits): bv2
    requires |x| == 6
  {
    (if x[5] then 1 else 0) | (if x[0] then 2 else 0)
  }

  function Column(x: Bits): bv4
    requires |x| == 6
  {
    (if x[4] then 1 else 0) | (if x[3] then 2 else 0) | (if x[2] then 4 else 0) | (if x[1] then 8 else 0)
  }

  /** One selection function: the outer bits give the row. */
  function Select(n: nat, x: Bits): (r: Bits)
    requires n < 8 && |x| == 6
    ensures |r| == 4
  {
    FourBits(Box(n, Row(x), Column(x)))
  }

  function Six(s: Bits, n: nat): (x: Bits)
    requires |s| == 48 && n < 8
    ensures |x| == 6
  {
    s[6 * n .. 6 * n + 6]
  }

  /** The first `n` selection functions side by side. */
  function Selected(s: Bits, n: nat): (r: Bits)
    requires |s| == 48 && n <= 8
    ensures |r| == 4 * n
  {
    if n == 0 then [] else Selected(s, n - 1) + Select(n - 1, Six(s, n - 1))
  }

  /** _F_with_subkey. */
  function F(r: Bits, sk: Bits): (f: Bits)
    requires |r| == 32 && |sk| == 48
    ensures |f| == 32
  {
    Pick(Selected(Xor(Pick(r, ETable()), sk), 8), PTable())
  }

  /** Z is filled four bits at a time. */
  method ComputeF(r: Bits, sk: Bits) returns (f: Bits)
    requires |r| == 32 && |sk| == 48
    ensures f == F(r, sk)
  {
    hide ETable, PTable, Select;
    var s := Xor(Pick(r, ETable()), sk);
    var z := Zeros(32);
    for n := 0 to 8
      invariant |z| == 32 && z[..4 * n] == Selected(s, n)
    {
      var out := Select(n, Six(s, n));
      z := z[..4 * n] + out + z[4 * n + 4..];
      assert z[..4 * (n + 1)] == Selected(s, n) + out;
    }
    assert z[..32] == z;
    f := Pick(z, PTable());
  }

  function Zeros(n: nat): (r: Bits)
    ensures |r| == n
  {
    seq(n, i => false)
  }

  // ---------------------------------------------------------------- the rounds

  datatype Halves = Halves(l: Bits, r: Bits)

  predicate Fits(h: Halves) {
    |h.l| == 32 && |h.r| == 32
  }

  function Round(h: Halves, sk: Bits): (h': Halves)
    requires Fits(h) && |sk| == 48
    ensures Fits(h')
  {
    Halves(h.r, Xor(h.l, F(h.r, sk)))
  }

  predicate Keys(ks: seq<Bits>) {
    forall i | 0 <= i < |ks| :: |ks[i]| == 48
  }

  function Rounds(h: Halves, ks: seq<Bits>): (h': Halves)
    requires Fits(h) && Keys(ks)
    ensures Fits(h')
    decreases |ks|
  {
    if ks == [] then h else Round(Rounds(h, ks[..|ks| - 1]), ks[|ks| - 1])
  }

  function Swap(h: Halves): Halves {
    Halves(h.r, h.l)
  }

  function Split(m: Bits): (h: Halves)
    requires |m| == 64
    ensures Fits(h)
  {
    Halves(m[..32], m[32..])
  }

  function Join(h: Halves): (m: Bits)
    requires Fits(h)
    ensures |m| == 64
  {
    h.l + h.r
  }

  /** The first `n` round keys. */
  function Schedule(k: Bits, n: nat): (ks: seq<Bits>)
    requires |k| == 56 && n <= 16
    ensures |ks| == n && Keys(ks)
  {
    if n == 0 then [] else Schedule(k, n - 1) + [Subkey(k, n - 1)]
  }

  function Crypt(ks: seq<Bits>, m: Bits): (c: Bits)
    requires |m| == 64 && Keys(ks)
    ensures |c| == 64
  {
    Pick(Join(Swap(Rounds(Split(Pick(m, IpTable())), ks))), IpInvTable())
  }

  function Encrypt(key: Bits, m: Bits): (c: Bits)
    requires |key| == |m| == 64
    ensures |c| == 64
  {
    Crypt(Schedule(Pick(key, Pc1Table()), 16), m)
  }

  /** The same rounds with the keys in reverse order. */
  function Decrypt(key: Bits, c: Bits): (m: Bits)
    requires |key| == |c| == 64
    ensures |m| == 64
  {
    Crypt(Reverse(Schedule(Pick(key, Pc1Table()), 16)), c)
  }

  function Reverse(ks: seq<Bits>): (r: seq<Bits>)
    ensures |r| == |ks|
    ensures Keys(ks) ==> Keys(r)
  {
    if ks == [] then [] else [ks[|ks| - 1]] + Reverse(ks[..|ks| - 1])
  }

  /** _enc. */
  method ComputeEncrypt(key: Bits, m: Bits) returns (c: Bits)
    requires |key| == |m| == 64
    ensures c == Encrypt(key, m)
  {
    hide F, IpTable, IpInvTable, Pc1Table, Subkey, Pick, Xor;
    var k := Pick(key, Pc1Table());
    var blk := Pick(m, IpTable());
    var l, r := blk[..32], blk[32..];
    for n := 0 to 16
      invariant Halves(l, r) == Rounds(Split(blk), Schedule(k, n)) && |l| == |r| == 32
    {
      ScheduleStep(k, n, Split(blk));
      var fout := ComputeF(r, Subkey(k, n));
      l := Xor(l, fout);
      l, r := r, l;
    }
    l, r := r, l;
    c := Pick(l + r, IpInvTable());
  }

  lemma ScheduleStep(k: Bits, n: nat, h: Halves)
    requires |k| == 56 && n < 16 && Fits(h)
    ensures Rounds(h, Schedule(k, n + 1)) == Round(Rounds(h, Schedule(k, n)), Subkey(k, n))
  {
    hide Round, Subkey;
    var ks := Schedule(k, n + 1);
    assert ks[..n] == Schedule(k, n) && ks[n] == Subkey(k, n);
  }
}
