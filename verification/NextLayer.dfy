/** How the client decrypts the next layer with what the one before has left in
    its memory (client.c, vicpwn_check). */
module NextLayer {
  import opened Words
  import opened Programs
  import opened Ram
  import Layer2

  // ---------------------------------------------------------------- after layer 0

  function Xor(x: bv32, y: bv32): bv32 {
    x ^ y
  }

  /** Every word is XORed with the decrypted word before it, the first with the key. */
  function Chained(orig: seq<bv32>, key: bv32): (next: seq<bv32>)
    ensures |next| == |orig|
  {
    if orig == [] then []
    else
      var front := Chained(orig[..|orig| - 1], key);
      front + [Xor(orig[|orig| - 1], Before(front, key, |front|))]
  }

  /** The word that the `l`th is XORed with. */
  function Before(next: seq<bv32>, key: bv32, l: nat): bv32
    requires l <= |next|
  {
    if l == 0 then key else next[l - 1]
  }

  method Chain(orig: seq<bv32>, key: bv32, next: array<bv32>)
    requires next.Length == |orig| > 0
    modifies next
    ensures next[..] == Chained(orig, key)
  {
    hide Chained, Xor;
    ChainedNext(orig, key, 0);
    next[0] := Xor(orig[0], key);
    for l := 1 to |orig|
      invariant next[..l] == Chained(orig[..l], key)
    {
      ChainedNext(orig, key, l);
      next[l] := Xor(orig[l], next[l - 1]);
      assert next[..l + 1] == next[..l] + [next[l]];
    }
    assert orig[..|orig|] == orig && next[..|orig|] == next[..];
  }

  lemma {:induction false} ChainedNext(orig: seq<bv32>, key: bv32, l: nat)
    requires l < |orig|
    ensures var front := Chained(orig[..l], key);
      Chained(orig[..l + 1], key) == front + [Xor(orig[l], Before(front, key, l))]
    ensures l == 0 ==> Chained(orig[..l], key) == []
  {
    assert orig[..l + 1][..l] == orig[..l];
  }

  lemma {:induction false} ChainedFront(orig: seq<bv32>, key: bv32, l: nat)
    requires l <= |orig|
    ensures Chained(orig, key)[..l] == Chained(orig[..l], key)
  {
    if l == |orig| {
      assert orig[..l] == orig;
    } else {
      var front := orig[..|orig| - 1];
      ChainedFront(front, key, l);
      assert front[..l] == orig[..l];
    }
  }

  lemma {:induction false} ChainedAt(orig: seq<bv32>, key: bv32, l: nat)
    requires l < |orig|
    ensures var next := Chained(orig, key); next[l] == Xor(orig[l], Before(next, key, l))
  {
    hide Chained, Xor;
    ChainedFront(orig, key, l + 1);
    ChainedFront(orig, key, l);
    ChainedNext(orig, key, l);
    var next := Chained(orig, key);
    assert next[l] == next[..l + 1][l];
    assert l > 0 ==> next[l - 1] == next[..l][l - 1];
  }

  lemma XorUndoes(x: bv32, y: bv32)
    ensures Xor(Xor(x, y), y) == x
  {
  }

  lemma XorSwaps(x: bv32, y: bv32)
    ensures Xor(x, y) == Xor(y, x)
  {
  }

  lemma XorRegroups(x: bv32, y: bv32, z: bv32)
    ensures Xor(Xor(x, y), z) == Xor(x, Xor(y, z))
  {
  }

  lemma XorShared(x: bv32, y: bv32, z: bv32)
    ensures Xor(Xor(x, y), Xor(x, z)) == Xor(y, z)
  {
    hide Xor;
    XorSwaps(x, y);
    XorRegroups(Xor(y, x), x, z);
    XorUndoes(y, x);
  }

  /** Each encrypted word is the exclusive or of two neighbours, and with a wrong
      key every word is off by the same difference. */
  lemma {:induction false} ChainedIs(orig: seq<bv32>, key: bv32, key': bv32, l: nat)
    requires l < |orig|
    ensures var next := Chained(orig, key);
      && orig[l] == next[l] ^ Before(next, key, l)
      && next[l] ^ Chained(orig, key')[l] == key ^ key'
  {
    ChainedAlike(orig, key, key', l);
    var next := Chained(orig, key);
    XorIs(next[l], Before(next, key, l));
    XorIs(next[l], Chained(orig, key')[l]);
    XorIs(key, key');
    hide Chained, Xor;
  }

  lemma XorIs(x: bv32, y: bv32)
    ensures Xor(x, y) == x ^ y
  {
  }

  lemma {:induction false} ChainedAlike(orig: seq<bv32>, key: bv32, key': bv32, l: nat)
    requires l < |orig|
    ensures var next := Chained(orig, key);
      && orig[l] == Xor(next[l], Before(next, key, l))
      && Xor(next[l], Chained(orig, key')[l]) == Xor(key, key')
  {
    hide Chained, Xor;
    ChainedAt(orig, key, l);
    ChainedAt(orig, key', l);
    var before, before' := Before(Chained(orig, key), key, l), Before(Chained(orig, key'), key', l);
    XorUndoes(orig[l], before);
    XorShared(orig[l], before, before');
    if l > 0 {
      ChainedAlike(orig, key, key', l - 1);
    }
  }

  // ---------------------------------------------------------------- after layer 1

  datatype Rc4 = Rc4(s: seq<Byte>, i: Byte, j: Byte)

  predicate Full(c: Rc4) {
    |c.s| == 0x100
  }

  function Stir(c: Rc4): (c': Rc4)
    requires Full(c)
    ensures Full(c')
  {
    var i := Sum(c.i, 1);
    var j := Sum(c.j, c.s[i]);
    Rc4(c.s[i := c.s[j]][j := c.s[i]], i, j)
  }

  /** Addition of bytes. */
  function Sum(a: int, b: int): Byte {
    (a + b) % 0x100
  }

  function Output(c: Rc4): Byte
    requires Full(c)
  {
    c.s[Sum(c.s[c.i], c.s[c.j])]
  }

  function After(c: Rc4, n: nat): (c': Rc4)
    requires Full(c)
    ensures Full(c')
  {
    if n == 0 then c else Stir(After(c, n - 1))
  }

  function Start(s: seq<Byte>): Rc4 {
    Rc4(s, 0, 0)
  }

  /** The keystream, which depends on the table alone. */
  function Key(s: seq<Byte>, l: nat): bv8
    requires |s| == 0x100
  {
    Output(After(Start(s), l + 1)) as bv8
  }

  function Decrypted(s: seq<Byte>, orig: seq<bv8>): (next: seq<bv8>)
    requires |s| == 0x100
    ensures |next| == |orig|
  {
    seq(|orig|, l requires 0 <= l < |orig| => orig[l] ^ Key(s, l))
  }

  /** A table with two places exchanged. */
  function Exchanged(s: seq<Byte>, i: nat, j: nat): (t: seq<Byte>)
    requires i < |s| && j < |s|
    ensures |t| == |s|
  {
    seq(|s|, k requires 0 <= k < |s| => if k == i then s[j] else if k == j then s[i] else s[k])
  }

  /** The walk through the table, seen backwards: the last round added to `j` the entry
      that is now at `j`, and exchanged it with the one at `i`; nothing else happened. */
  lemma StirUndone(c: Rc4)
    requires Full(c)
    ensures var c' := Stir(c);
      && c.i as int == (c'.i as int - 1) % 0x100 && c.j as int == (c'.j as int - c'.s[c'.j] as int) % 0x100
      && c.s == Exchanged(c'.s, c'.i, c'.j)
  {
    var c' := Stir(c);
    var i, j := c'.i, c'.j;
    Stepped(c.i, 1);
    Stepped(c.j, c.s[i]);
    hide Sum;
    assert c'.s[j] == c.s[i] && c'.s[i] == c.s[j];
    assert |Exchanged(c'.s, i, j)| == |c.s|;
    assert forall k | 0 <= k < |c.s| :: Exchanged(c'.s, i, j)[k] == c.s[k];
  }

  lemma Stepped(a: Byte, b: Byte)
    ensures (Sum(a, b) as int - b as int) % 0x100 == a as int
  {
  }

  /** The entries met in the first `n` rounds, added up. */
  function MetSoFar(c: Rc4, n: nat): nat
    requires Full(c)
  {
    if n == 0 then 0
    else
      var last := After(c, n);
      MetSoFar(c, n - 1) + last.s[last.j]
  }

  /** After `n` rounds `i` has moved by `n` places, and `j` by the sum of the entries
      met, modulo 256. */
  lemma {:induction false} PlacesAfter(c: Rc4, n: nat)
    requires Full(c)
    ensures After(c, n).i as int == (c.i + n) % 0x100
    ensures After(c, n).j as int == (c.j + MetSoFar(c, n)) % 0x100
  {
    hide Stir;
    if n > 0 {
      PlacesAfter(c, n - 1);
      OnceMore(c, n - 1);
      StirUndone(After(c, n - 1));
      var (last, entry) := (After(c, n), After(c, n).s[After(c, n).j]);
      Added(last.i, 1, After(c, n - 1).i, c.i + (n - 1));
      Added(last.j, entry, After(c, n - 1).j, c.j + MetSoFar(c, n - 1));
    }
  }

  lemma Added(a: Byte, b: Byte, before: Byte, sum: nat)
    requires before as int == (a as int - b as int) % 0x100 && before as int == sum % 0x100
    ensures a as int == (sum + b) % 0x100
  {
  }

  /** The output is the entry at the sum of the two that were exchanged, as they were
      before the exchange. */
  lemma OutputOfExchanged(c: Rc4)
    requires Full(c)
    ensures var c' := Stir(c);
      Output(c') == c'.s[(c.s[c'.i] as int + c.s[c'.j] as int) % 0x100]
  {
    StirUndone(c);
    hide Stir;
  }

  /** The table is shuffled: an exchange keeps what is in it. */
  lemma Exchange(s: seq<Byte>, i: nat, j: nat)
    requires i < |s| && j < |s|
    ensures multiset(s[i := s[j]][j := s[i]]) == multiset(s)
  {
  }

  predicate Shuffled(s: seq<Byte>, t: seq<Byte>) {
    multiset(s) == multiset(t)
  }

  lemma StirShuffles(c: Rc4, t: seq<Byte>)
    requires Full(c) && Shuffled(c.s, t)
    ensures Shuffled(Stir(c).s, t)
  {
    hide Sum;
    var i := Sum(c.i, 1);
    Exchange(c.s, i, Sum(c.j, c.s[i]));
  }

  lemma {:induction false} KeepsTable(c: Rc4, n: nat)
    requires Full(c)
    ensures Shuffled(After(c, n).s, c.s)
  {
    hide Stir, Shuffled, After;
    if n == 0 {
      NotYet(c);
    } else {
      KeepsTable(c, n - 1);
      OnceMore(c, n - 1);
      StirShuffles(After(c, n - 1), c.s);
    }
  }

  lemma {:induction false} NotYet(c: Rc4)
    requires Full(c)
    ensures Shuffled(After(c, 0).s, c.s)
  {
  }

  lemma {:induction false} OnceMore(c: Rc4, n: nat)
    requires Full(c)
    ensures After(c, n + 1) == Stir(After(c, n))
  {
    hide Stir;
  }

  /** The loop works on the table in place. */
  method Decrypt(s: array<Byte>, orig: seq<bv8>, next: array<bv8>)
    requires s.Length == 0x100 && next.Length == |orig| && (s as object) != next
    modifies s, next
    ensures next[..] == Decrypted(old(s[..]), orig)
    ensures s[..] == After(Start(old(s[..])), |orig|).s && Shuffled(s[..], old(s[..]))
  {
    hide Sum, Output, Shuffled;
    ghost var was := s[..];
    var i: Byte, j: Byte := 0, 0;
    for l := 0 to |orig|
      invariant Rc4(s[..], i, j) == After(Start(was), l)
      invariant forall m | 0 <= m < l :: next[m] == orig[m] ^ Key(was, m)
    {
      i := Sum(i, 1);
      j := Sum(j, s[i]);
      var k := s[i];
      s[i] := s[j];
      s[j] := k;
      assert Rc4(s[..], i, j) == After(Start(was), l + 1);
      OutputIs(s[..], i, j);
      next[l] := orig[l] ^ (s[Sum(s[i], s[j])] as bv8);
    }
    KeepsTable(Start(was), |orig|);
  }

  lemma OutputIs(s: seq<Byte>, i: Byte, j: Byte)
    requires |s| == 0x100
    ensures Output(Rc4(s, i, j)) == s[Sum(s[i], s[j])]
  {
  }

  /** Encryption is the same as decryption: twice with one table restores. */
  lemma DecryptedTwice(s: seq<Byte>, orig: seq<bv8>)
    requires |s| == 0x100
    ensures Decrypted(s, Decrypted(s, orig)) == orig
  {
    hide Key;
    forall l | 0 <= l < |orig|
      ensures Decrypted(s, Decrypted(s, orig))[l] == orig[l]
    {
      XorTwice(orig[l], Key(s, l));
    }
  }

  lemma XorTwice(x: bv8, k: bv8)
    ensures (x ^ k) ^ k == x
  {
  }

  // ---------------------------------------------------------------- layer 1's verdict

  /** S[254] == 0xff && S[255] == 0xff, with the table read from `addr + 16`. */
  predicate BadKey(ram: seq<bv8>, addr: nat)
    requires addr + 16 + 0x100 <= |ram|
  {
    ram[addr + 16 + 254] == 0xff && ram[addr + 16 + 255] == 0xff
  }

  /** What the client looks for is what the program leaves: from a memory `s`, it
      refuses the key exactly when the program does. */
  lemma ClientSeesVerdict(s: seq<bv8>, t: seq<bv8>)
    requires |s| == |t| == SIZE && Clear(Two, t) == Layer2.Result(Clear(Two, s))
    ensures BadKey(t, Layer2.KEY) <==> !Layer2.Accepts(Clear(Two, s))
  {
    hide Layer2.Result, Layer2.Accepts, WordAt, BadKey, Clear;
    LastWord(Clear(Two, s));
    OtherLoad(Two, t, Layer2.LAST);
    BadKeyIs(t);
  }

  lemma LastWord(s: seq<bv8>)
    requires |s| == SIZE
    ensures WordAt(Layer2.Result(s), Layer2.LAST) == if Layer2.Accepts(s) then Layer2.CHECK else 0xffff
  {
    hide Layer2.Result, Layer2.Accepts, Layer2.Second, WordAt, Layer2.Combined, Layer2.KeysClosed, Layer2.FirstWords;
    Layer2.ResultIs(s);
    assert Layer2.LAST == Layer2.BLOCK + 2 + 4 * 63;
  }

  lemma BadKeyIs(t: seq<bv8>)
    requires |t| == SIZE
    ensures BadKey(t, Layer2.KEY) <==> WordAt(t, Layer2.LAST) == 0xffff
  {
    assert Layer2.KEY + 16 + 254 == Layer2.LAST;
    BothBytes(t[Layer2.LAST], t[Layer2.LAST + 1]);
  }

  lemma BothBytes(lo: bv8, hi: bv8)
    ensures (lo as bv16) | ((hi as bv16) << 8) == 0xffff <==> lo == 0xff && hi == 0xff
  {
  }
}
