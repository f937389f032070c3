/** What one round of the adder loop keeps (bflayer1.c, bflayer2.c, bflayer3.c): the
    sum, and in an accumulator the carry that leaves the word. */
module Adder {
  import opened Words

  function Both(x: Word, y: Word): Word {
    x & y
  }

  function Either(x: Word, y: Word): Word {
    x | y
  }

  function Not(x: Word): Word {
    !x
  }

  function Twice(v: Word): Word {
    v << 1
  }

  function Xor(x: Word, y: Word): Word {
    x ^ y
  }

  function Plus(x: Word, y: Word): Word {
    x + y
  }

  lemma Regroup(x: Word, y: Word, z: Word)
    ensures Xor(Xor(x, y), z) == Xor(x, Xor(y, z))
  {
  }

  predicate Top(v: Word) {
    v >> 15 == 1
  }

  /** Whether the sum of two words does not fit in a word: in 18 bits it reaches 2^16. */
  predicate Overflows(x: Word, y: Word) {
    (x as bv18) + (y as bv18) >= 0x10000
  }

  // ---------------------------------------------------------------- one round

  function Carries(x: Word, y: Word): Word {
    Twice(Both(x, y))
  }

  lemma SumOfBits(x: Word, y: Word)
    ensures (x ^ y) + ((x & y) << 1) == x + y
  {
  }

  lemma RoundBits(x: Word, y: Word)
    ensures Xor(x, y) == x ^ y && Carries(x, y) == (x & y) << 1
  {
  }

  lemma RoundKeepsSum(x: Word, y: Word)
    ensures Plus(Xor(x, y), Carries(x, y)) == Plus(x, y)
  {
    hide Xor, Carries;
    RoundBits(x, y);
    SumOfBits(x, y);
  }

  lemma CarryOut(x: Word, y: Word)
    ensures Overflows(x, y) == ((x & y) >> 15 == 1 || Overflows(x ^ y, (x & y) << 1))
    ensures !((x & y) >> 15 == 1 && Overflows(x ^ y, (x & y) << 1))
  {
  }

  /** A round loses the carry at the top of x & y, or leaves it to the next ones. */
  lemma RoundKeepsCarry(x: Word, y: Word)
    ensures Overflows(x, y) == (Top(Both(x, y)) || Overflows(Xor(x, y), Carries(x, y)))
    ensures !(Top(Both(x, y)) && Overflows(Xor(x, y), Carries(x, y)))
  {
    hide Overflows;
    CarryOut(x, y);
  }

  /** The lowest `n` bits. */
  function Ones(n: nat): Word {
    if n == 0 then 0 else (Ones(n - 1) << 1) | 1
  }

  /** After `n` rounds nothing is left to carry into the lowest `n` bits. */
  predicate Settled(y: Word, n: nat) {
    y & Ones(n) == 0
  }

  lemma RoundSettles(x: Word, y: Word, n: nat)
    requires Settled(y, n)
    ensures Settled(Carries(x, y), n + 1)
  {
    hide Ones;
    NextOnes(n);
    CarriesShift(x, y, Ones(n));
  }

  lemma CarriesShift(x: Word, y: Word, low: Word)
    requires y & low == 0
    ensures ((x & y) << 1) & ((low << 1) | 1) == 0
  {
  }

  lemma NextOnes(n: nat)
    ensures Ones(n + 1) == (Ones(n) << 1) | 1
  {
  }

  lemma SettledAtLast(y: Word)
    ensures Settled(y, 0) && (Settled(y, 16) ==> y == 0)
  {
    AllOnes();
    hide Ones;
    NoneOf(y);
  }

  lemma NoneOf(y: Word)
    ensures y & 0xffff == y && y & 0 == 0
  {
  }

  lemma AllOnes()
    ensures Ones(16) == 0xffff && Ones(0) == 0
  {
    assert Ones(4) == 0xf;
    assert Ones(8) == 0xff;
    assert Ones(12) == 0xfff;
  }

  // ---------------------------------------------------------------- the loop

  lemma Absorb(acc: Word, k: Word)
    requires Top(k)
    ensures Top(Either(acc, k))
  {
  }

  lemma Flip(acc: Word)
    ensures Top(Not(acc)) == !Top(acc)
  {
  }

  lemma NoCarries(a: Word)
    ensures Plus(a, 0) == a && !Overflows(a, 0)
  {
  }

  predicate Adds(x: Word, y: Word, a: Word, b: Word) {
    Plus(x, y) == Plus(a, b)
  }

  lemma Begun(a: Word, b: Word)
    ensures Adds(a, b, a, b)
  {
  }

  /** Every carry lost so far is in the accumulator, and there is one at most. */
  predicate Carried(acc: Word, x: Word, y: Word, a: Word, b: Word) {
    Overflows(a, b) == (Top(acc) || Overflows(x, y)) && !(Top(acc) && Overflows(x, y))
  }

  /** A round keeps the sum and the carry. */
  lemma RoundAdds(x: Word, y: Word, acc: Word, k: Word, a: Word, b: Word)
    requires Adds(x, y, a, b) && Carried(acc, x, y, a, b) && Top(k)
    ensures Adds(Xor(x, y), Carries(x, y), a, b)
    ensures Carried(if Top(Both(x, y)) then Either(acc, k) else acc, Xor(x, y), Carries(x, y), a, b)
  {
    hide Overflows, Top, Carries, Xor, Plus, Both, Either;
    RoundKeepsSum(x, y);
    RoundKeepsCarry(x, y);
    Absorb(acc, k);
  }

  lemma Ended(x: Word, y: Word, a: Word, b: Word)
    requires Adds(x, y, a, b) && y == 0
    ensures x == Plus(a, b) && !Overflows(x, y)
  {
    hide Overflows, Plus;
    NoCarries(x);
  }
}
