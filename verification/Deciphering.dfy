/** What one round promises, carried over all sixteen: the cipher is a bijection
    (FIPS PUB 46-3, "Deciphering"), and it commutes with complement. */
module Deciphering {
  import opened Binary
  import opened DesTables
  import opened Des

  // ---------------------------------------------------------------- the two permutations

  lemma InitialThenFinal(m: Bits)
    requires |m| == 64
    ensures Pick(Pick(m, IpTable()), IpInvTable()) == m
  {
    hide Ip, IpInv;
    forall i | 0 <= i < 64
      ensures Pick(Pick(m, IpTable()), IpInvTable())[i] == m[i]
    {
      IpOfInv(i);
    }
  }

  lemma FinalThenInitial(m: Bits)
    requires |m| == 64
    ensures Pick(Pick(m, IpInvTable()), IpTable()) == m
  {
    hide Ip, IpInv;
    forall i | 0 <= i < 64
      ensures Pick(Pick(m, IpInvTable()), IpTable())[i] == m[i]
    {
      InvOfIp(i);
    }
  }

  // ---------------------------------------------------------------- undoing the rounds

  /** A round undoes itself between two swaps. */
  lemma RoundUndoes(h: Halves, sk: Bits)
    requires Fits(h) && |sk| == 48
    ensures Round(Swap(Round(h, sk)), sk) == Swap(h)
  {
    hide F;
    var f := F(h.r, sk);
    assert Xor(Xor(h.l, f), f) == h.l;
  }

  lemma {:induction false} RoundsFirst(h: Halves, k: Bits, ks: seq<Bits>)
    requires Fits(h) && |k| == 48 && Keys(ks)
    ensures Rounds(h, [k] + ks) == Rounds(Round(h, k), ks)
    decreases |ks|
  {
    hide Round;
    if ks == [] {
      assert ([k] + ks)[..0] == [];
      assert Rounds(h, ([k] + ks)[..0]) == h;
    } else {
      var front := ks[..|ks| - 1];
      RoundsFirst(h, k, front);
      assert ([k] + ks)[..|ks|] == [k] + front;
    }
  }

  lemma {:induction false} RoundsUndo(h: Halves, ks: seq<Bits>)
    requires Fits(h) && Keys(ks)
    ensures Rounds(Swap(Rounds(h, ks)), Reverse(ks)) == Swap(h)
    decreases |ks|
  {
    if ks != [] {
      hide Round;
      var front, k := ks[..|ks| - 1], ks[|ks| - 1];
      var g := Rounds(h, front);
      RoundsFirst(Swap(Round(g, k)), k, Reverse(front));
      RoundUndoes(g, k);
      RoundsUndo(h, front);
    }
  }

  lemma {:induction false} ReverseTwice(ks: seq<Bits>)
    ensures Reverse(Reverse(ks)) == ks
  {
    if ks != [] {
      var front, k := ks[..|ks| - 1], ks[|ks| - 1];
      ReverseTwice(front);
      ReverseFirst(k, Reverse(front));
    }
  }

  lemma {:induction false} ReverseFirst(k: Bits, ks: seq<Bits>)
    ensures Reverse([k] + ks) == Reverse(ks) + [k]
    decreases |ks|
  {
    var all := [k] + ks;
    if ks == [] {
      assert all[..0] == [] && all[0] == k;
    } else {
      assert all[..|ks|] == [k] + ks[..|ks| - 1];
      ReverseFirst(k, ks[..|ks| - 1]);
    }
  }

  lemma {:induction false} CryptUndoes(ks: seq<Bits>, m: Bits)
    requires |m| == 64 && Keys(ks)
    ensures Crypt(Reverse(ks), Crypt(ks, m)) == m
  {
    hide Rounds, Pick, IpTable, IpInvTable, Reverse;
    var h := Split(Pick(m, IpTable()));
    var out := Swap(Rounds(h, ks));
    FinalThenInitial(Join(out));
    assert Split(Join(out)) == out;
    RoundsUndo(h, ks);
    assert Swap(Swap(h)) == h && Join(h) == Pick(m, IpTable());
    InitialThenFinal(m);
  }

  /** Deciphering: the same rounds with the keys reversed give the block back,
      whichever of the two is done first. */
  lemma DecryptUndoesEncrypt(key: Bits, m: Bits)
    requires |key| == |m| == 64
    ensures Decrypt(key, Encrypt(key, m)) == m
    ensures Encrypt(key, Decrypt(key, m)) == m
  {
    hide Crypt, Schedule, Pick, Reverse;
    var ks := Schedule(Pick(key, Pc1Table()), 16);
    CryptUndoes(ks, m);
    CryptUndoes(Reverse(ks), m);
    ReverseTwice(ks);
  }

  /** Under one key, two blocks encrypt alike only if they are one block, and every
      block is the encryption of one. */
  lemma EncryptIsABijection(key: Bits, m: Bits, m': Bits, c: Bits)
    requires |key| == |m| == |m'| == |c| == 64
    ensures Encrypt(key, m) == Encrypt(key, m') ==> m == m'
    ensures exists p: Bits :: |p| == 64 && Encrypt(key, p) == c
  {
    hide Encrypt, Decrypt;
    DecryptUndoesEncrypt(key, m);
    DecryptUndoesEncrypt(key, m');
    DecryptUndoesEncrypt(key, c);
  }

  // ---------------------------------------------------------------- complement

  lemma PickNot(s: Bits, t: seq<nat>)
    requires Indexes(t, |s|)
    ensures Pick(Not(s), t) == Not(Pick(s, t))
  {
    assert forall i | 0 <= i < |t| :: Pick(Not(s), t)[i] == Not(Pick(s, t))[i];
  }

  lemma XorNots(a: Bits, b: Bits)
    requires |a| == |b|
    ensures Xor(Not(a), Not(b)) == Xor(a, b)
    ensures Xor(Not(a), b) == Not(Xor(a, b))
  {
    assert forall i | 0 <= i < |a| :: Xor(Not(a), Not(b))[i] == Xor(a, b)[i];
    assert forall i | 0 <= i < |a| :: Xor(Not(a), b)[i] == Not(Xor(a, b))[i];
  }

  lemma NotSplits(a: Bits, b: Bits)
    ensures Not(a + b) == Not(a) + Not(b)
  {
    assert forall i | 0 <= i < |a + b| :: Not(a + b)[i] == (Not(a) + Not(b))[i];
  }

  /** The cipher function does not see a complement of both its inputs. */
  lemma FOfNots(r: Bits, sk: Bits)
    requires |r| == 32 && |sk| == 48
    ensures F(Not(r), Not(sk)) == F(r, sk)
  {
    hide Selected, Pick, Not, Xor, ETable, PTable;
    PickNot(r, ETable());
    XorNots(Pick(r, ETable()), sk);
  }

  function NotBoth(h: Halves): Halves {
    Halves(Not(h.l), Not(h.r))
  }

  lemma RoundOfNots(h: Halves, sk: Bits)
    requires Fits(h) && |sk| == 48
    ensures Round(NotBoth(h), Not(sk)) == NotBoth(Round(h, sk))
  {
    hide F, Not, Xor;
    FOfNots(h.r, sk);
    XorNots(h.l, F(h.r, sk));
  }

  function NotAll(ks: seq<Bits>): (r: seq<Bits>)
    ensures |r| == |ks|
    ensures Keys(ks) ==> Keys(r)
  {
    seq(|ks|, i requires 0 <= i < |ks| => Not(ks[i]))
  }

  lemma {:induction false} RoundsOfNots(h: Halves, ks: seq<Bits>)
    requires Fits(h) && Keys(ks)
    ensures Rounds(NotBoth(h), NotAll(ks)) == NotBoth(Rounds(h, ks))
    decreases |ks|
  {
    hide Round, Not, NotBoth, Rounds, Fits;
    NotsFit(h);
    if ks == [] {
      assert NotAll(ks) == [];
      NoRounds(h);
      NoRounds(NotBoth(h));
    } else {
      var front, k := ks[..|ks| - 1], ks[|ks| - 1];
      RoundsOfNots(h, front);
      assert NotAll(ks)[..|front|] == NotAll(front);
      LastRound(h, ks);
      LastRound(NotBoth(h), NotAll(ks));
      RoundOfNots(Rounds(h, front), k);
    }
  }

  lemma {:induction false} NoRounds(h: Halves)
    requires Fits(h)
    ensures Rounds(h, []) == h
  {
  }

  lemma {:induction false} LastRound(h: Halves, ks: seq<Bits>)
    requires Fits(h) && Keys(ks) && ks != []
    ensures Rounds(h, ks) == Round(Rounds(h, ks[..|ks| - 1]), ks[|ks| - 1])
  {
    hide Round;
  }

  lemma NotsFit(h: Halves)
    requires Fits(h)
    ensures Fits(NotBoth(h))
  {
  }

  /** Rotation and _PC2 only move bits. */
  lemma SubkeyOfNot(k: Bits, r: nat)
    requires |k| == 56 && r < 16
    ensures Subkey(Not(k), r) == Not(Subkey(k, r))
  {
    hide Pick, Pc2Table;
    ShiftsAre(r + 1);
    var s := Shifts(r + 1);
    RotateNot(k[..28], s);
    RotateNot(k[28..], s);
    assert Not(k)[..28] == Not(k[..28]) && Not(k)[28..] == Not(k[28..]);
    NotSplits(Rotate(k[..28], s), Rotate(k[28..], s));
    PickNot(Rotate(k[..28], s) + Rotate(k[28..], s), Pc2Table());
  }

  lemma RotateNot(c: Bits, s: nat)
    requires s <= |c|
    ensures Rotate(Not(c), s) == Not(Rotate(c, s))
  {
    NotSplits(c[s..], c[..s]);
    assert Not(c)[s..] == Not(c[s..]) && Not(c)[..s] == Not(c[..s]);
  }

  lemma {:induction false} ScheduleOfNot(k: Bits, n: nat)
    requires |k| == 56 && n <= 16
    ensures Schedule(Not(k), n) == NotAll(Schedule(k, n))
  {
    if n == 0 {
      assert NotAll(Schedule(k, 0)) == [];
    } else {
      hide Subkey, Not;
      ScheduleOfNot(k, n - 1);
      SubkeyOfNot(k, n - 1);
      assert NotAll(Schedule(k, n - 1) + [Subkey(k, n - 1)])
          == NotAll(Schedule(k, n - 1)) + [Not(Subkey(k, n - 1))];
    }
  }

  lemma CryptOfNots(ks: seq<Bits>, m: Bits)
    requires |m| == 64 && Keys(ks)
    ensures Crypt(NotAll(ks), Not(m)) == Not(Crypt(ks, m))
  {
    hide Rounds, Pick, NotAll, IpTable, IpInvTable;
    PickNot(m, IpTable());
    var p := Pick(m, IpTable());
    assert Not(p)[..32] == Not(p[..32]) && Not(p)[32..] == Not(p[32..]);
    RoundsOfNots(Split(p), ks);
    var h := Rounds(Split(p), ks);
    NotSplits(h.r, h.l);
    PickNot(h.r + h.l, IpInvTable());
  }

  /** Complementing the key and the block complements the cipher text. */
  lemma EncryptOfNots(key: Bits, m: Bits)
    requires |key| == |m| == 64
    ensures Encrypt(Not(key), Not(m)) == Not(Encrypt(key, m))
  {
    hide Crypt, Schedule, Pick, Not, NotAll, Pc1Table;
    PickNot(key, Pc1Table());
    var k := Pick(key, Pc1Table());
    ScheduleOfNot(k, 16);
    CryptOfNots(Schedule(k, 16), m);
  }
}
