/** Addition by exclusive or and shifted carries, at any word width: numbers are
    lists of bits, least significant first (the adder and the comparison macro of
    bflayer1.c and bflayer2.c, without the sixteen). */
module Binary {
  import opened Powers

  function Bit(b: bool): nat {
    if b then 1 else 0
  }

  function Value(s: seq<bool>): (v: nat)
    ensures v < Pow2(|s|)
  {
    if s == [] then 0 else Bit(s[0]) + 2 * Value(s[1..])
  }

  function Xor(x: seq<bool>, y: seq<bool>): (r: seq<bool>)
    requires |x| == |y|
    ensures |r| == |x|
  {
    seq(|x|, i requires 0 <= i < |x| => x[i] != y[i])
  }

  function And(x: seq<bool>, y: seq<bool>): (r: seq<bool>)
    requires |x| == |y|
    ensures |r| == |x|
  {
    seq(|x|, i requires 0 <= i < |x| => x[i] && y[i])
  }

  /** A shift to the left by one: the top bit is lost. */
  function Up(s: seq<bool>): (r: seq<bool>)
    requires s != []
    ensures |r| == |s|
  {
    [false] + s[..|s| - 1]
  }

  function Top(s: seq<bool>): bool
    requires s != []
  {
    s[|s| - 1]
  }

  function Or(x: seq<bool>, y: seq<bool>): (r: seq<bool>)
    requires |x| == |y|
    ensures |r| == |x|
  {
    seq(|x|, i requires 0 <= i < |x| => x[i] || y[i])
  }

  function Not(b: seq<bool>): (r: seq<bool>)
    ensures |r| == |b|
  {
    seq(|b|, i requires 0 <= i < |b| => !b[i])
  }

  // ---------------------------------------------------------------- one round

  /** The sum is the exclusive or plus twice the common bits. */
  lemma {:induction false} SumSplits(x: seq<bool>, y: seq<bool>)
    requires |x| == |y|
    ensures Value(x) + Value(y) == Value(Xor(x, y)) + 2 * Value(And(x, y))
  {
    if x != [] {
      SumSplits(x[1..], y[1..]);
      assert Xor(x, y)[1..] == Xor(x[1..], y[1..]);
      assert And(x, y)[1..] == And(x[1..], y[1..]);
    }
  }

  /** Doubling keeps everything but the top bit. */
  lemma {:induction false} UpDoubles(s: seq<bool>)
    requires s != []
    ensures 2 * Value(s) == Value(Up(s)) + Bit(Top(s)) * Pow2(|s|)
  {
    var n := |s|;
    assert Up(s)[1..] == s[..n - 1];
    assert Value(Up(s)) == 2 * Value(s[..n - 1]);
    TopBit(s);
  }

  lemma {:induction false} TopBit(s: seq<bool>)
    requires s != []
    ensures Value(s) == Value(s[..|s| - 1]) + Bit(Top(s)) * Pow2(|s| - 1)
  {
    var n := |s|;
    if n == 1 {
      assert s[1..] == [] && s[..0] == [];
    } else {
      TopBit(s[1..]);
      assert s[1..][..n - 2] == s[..n - 1][1..];
    }
  }

  /** A round keeps the sum, up to a carry lost at the top. */
  lemma {:induction false} RoundKeeps(x: seq<bool>, y: seq<bool>)
    requires |x| == |y| > 0
    ensures Value(x) + Value(y) ==
      Value(Xor(x, y)) + Value(Up(And(x, y))) + Bit(Top(And(x, y))) * Pow2(|x|)
  {
    hide Value, Xor, And, Up, Top, Pow2;
    SumSplits(x, y);
    UpDoubles(And(x, y));
  }

  /** The lowest `n` bits are zero. */
  predicate Clear(s: seq<bool>, n: nat) {
    forall i | 0 <= i < n && i < |s| :: !s[i]
  }

  lemma RoundClears(x: seq<bool>, y: seq<bool>, n: nat)
    requires |x| == |y| > 0 && Clear(y, n)
    ensures Clear(Up(And(x, y)), n + 1)
  {
  }

  lemma {:induction false} ClearIsZero(s: seq<bool>, n: nat)
    requires Clear(s, n) && n >= |s|
    ensures Value(s) == 0 && s == Zero(|s|)
  {
    if s != [] {
      ClearIsZero(s[1..], n);
    }
  }

  function Zero(n: nat): (s: seq<bool>)
    ensures |s| == n
  {
    seq(n, i => false)
  }

  lemma {:induction false} ZeroValue(n: nat)
    ensures Value(Zero(n)) == 0
  {
    if n > 0 {
      ZeroValue(n - 1);
      assert Zero(n)[1..] == Zero(n - 1);
    }
  }

  // ---------------------------------------------------------------- the loop

  /** The adder at any width: it ends within as many rounds as there are bits, with
      the sum modulo the width.  A lost carry, of which there is at most one, is
      remembered in the top bit of an accumulator; `neg` and a shift then make a
      flag of it that says whether the sum fits. */
  method Add(a: seq<bool>, b: seq<bool>, init: seq<bool>, k: seq<bool>) returns (sum: seq<bool>, fits: bool, rounds: nat)
    requires |a| == |b| == |init| == |k| > 0 && !Top(init) && Top(k)
    ensures |sum| == |a| && 1 <= rounds <= |a|
    ensures Value(sum) == (Value(a) + Value(b)) % Pow2(|a|)
    ensures fits <==> Value(a) + Value(b) < Pow2(|a|)
  {
    hide *;
    var x, y, acc := a, b, init;
    var w := |a|;
    var zero := false;
    rounds := 0;
    Starts(b);
    while !zero
      invariant |x| == |y| == |acc| == w && rounds <= w && Clear(y, rounds) && (zero ==> rounds > 0)
      invariant rounds > 0 ==> zero == (y == Zero(w))
      invariant Value(a) + Value(b) == Value(x) + Value(y) + Bit(Top(acc)) * Pow2(w)
      decreases w - rounds
    {
      Continues(y, rounds);
      RoundKeeps(x, y);
      RoundClears(x, y, rounds);
      LostOnce(a, b, x, y, Top(acc), w);
      Absorbs(acc, k);
      acc := if Top(And(x, y)) then Or(acc, k) else acc;
      x, y := Xor(x, y), Up(And(x, y));
      zero := y == Zero(w);
      rounds := rounds + 1;
    }
    ZeroValue(w);
    sum := x;
    Ends(a, b, x, Top(acc), w);
    Flips(acc);
    fits := Top(Not(acc));
  }

  lemma Absorbs(acc: seq<bool>, k: seq<bool>)
    requires |acc| == |k| > 0 && Top(k)
    ensures Top(Or(acc, k))
  {
  }

  lemma Flips(acc: seq<bool>)
    requires acc != []
    ensures Top(Not(acc)) == !Top(acc)
  {
  }

  lemma Starts(b: seq<bool>)
    ensures Clear(b, 0) && Bit(false) == 0
  {
  }

  lemma Continues(y: seq<bool>, rounds: nat)
    requires Clear(y, rounds) && (rounds > 0 ==> y != Zero(|y|)) && rounds <= |y| && |y| > 0
    ensures rounds < |y|
  {
    if rounds == |y| {
      ClearIsZero(y, rounds);
    }
  }

  lemma {:induction false} LostOnce(a: seq<bool>, b: seq<bool>, x: seq<bool>, y: seq<bool>, lost: bool, w: nat)
    requires |a| == |b| == |x| == |y| == w && w > 0
    requires Value(a) + Value(b) == Value(x) + Value(y) + Bit(lost) * Pow2(w)
    requires Value(x) + Value(y) ==
      Value(Xor(x, y)) + Value(Up(And(x, y))) + Bit(Top(And(x, y))) * Pow2(w)
    ensures !(lost && Top(And(x, y)))
    ensures Bit(lost || Top(And(x, y))) == Bit(lost) + Bit(Top(And(x, y)))
  {
    hide Xor, And, Up, Top;
    assert Value(a) < Pow2(w) && Value(b) < Pow2(w);
  }

  lemma {:induction false} Ends(a: seq<bool>, b: seq<bool>, x: seq<bool>, lost: bool, w: nat)
    requires |a| == |b| == |x| == w && Value(a) + Value(b) == Value(x) + Bit(lost) * Pow2(w)
    ensures Value(x) == (Value(a) + Value(b)) % Pow2(w)
    ensures lost <==> Value(a) + Value(b) >= Pow2(w)
  {
    hide Value, Pow2;
    if lost {
      Wrapped(Value(a) + Value(b), Value(x), Pow2(w));
    } else {
      Small(Value(x), Pow2(w));
    }
  }

  lemma Small(r: nat, d: nat)
    requires r < d
    ensures r % d == r
  {
  }

  lemma Wrapped(s: nat, r: nat, d: nat)
    requires r < d && s == r + d
    ensures s % d == r
  {
  }

  // ---------------------------------------------------------------- comparison

  /** The complement of `b` plus one, as `neg` and the adder make it. */
  predicate IsNegative(n: seq<bool>, b: seq<bool>) {
    |n| == |b| && Value(n) == (Pow2(|b|) - Value(b)) % Pow2(|b|)
  }

  lemma {:induction false} NotValue(b: seq<bool>)
    ensures Value(b) + Value(Not(b)) == Pow2(|b|) - 1
  {
    if b != [] {
      NotValue(b[1..]);
      assert Not(b)[1..] == Not(b[1..]);
    }
  }

  function One(n: nat): (s: seq<bool>)
    requires n > 0
    ensures |s| == n && Value(s) == 1
  {
    ZeroValue(n - 1);
    assert ([true] + Zero(n - 1))[1..] == Zero(n - 1);
    [true] + Zero(n - 1)
  }

  /** Unsigned comparison: `a` plus the negative of `b` keeps its carry exactly if
      a < b, or if b is zero, which the macro gets wrong; it is zero exactly if
      they are equal. */
  method Compare(a: seq<bool>, b: seq<bool>, init: seq<bool>, k: seq<bool>) returns (below: bool, equal: bool)
    requires |a| == |b| == |init| == |k| > 0 && !Top(init) && Top(k)
    ensures below <==> Value(a) < Value(b) || Value(b) == 0
    ensures equal <==> Value(a) == Value(b)
  {
    hide *;
    NotValue(b);
    var n, fits, rounds := Add(One(|b|), Not(b), init, k);
    Negated(n, b);
    var rest;
    rest, fits, rounds := Add(a, n, init, k);
    Differs(Value(a), Value(b), Pow2(|b|), Value(n));
    ZeroIff(rest);
    below := fits;
    equal := rest == Zero(|rest|);
  }

  lemma {:induction false} Negated(n: seq<bool>, b: seq<bool>)
    requires |n| == |b| > 0 && Value(n) == (Value(One(|b|)) + Value(Not(b))) % Pow2(|b|)
    ensures IsNegative(n, b) && Value(b) < Pow2(|b|) && Value(n) == (Pow2(|b|) - Value(b)) % Pow2(|b|)
  {
    hide Not, One, Value, Pow2;
    NotValue(b);
    assert Value(One(|b|)) + Value(Not(b)) == Pow2(|b|) - Value(b);
  }

  lemma Differs(a: nat, b: nat, d: nat, n: nat)
    requires b < d && a < d && n == (d - b) % d
    ensures a + n >= d <==> a >= b && b != 0
    ensures (a + n) % d == 0 <==> a == b
  {
    if b == 0 {
      Wrapped(d, 0, d);
      Small(a, d);
    } else if a >= b {
      Small(d - b, d);
      Wrapped(a + n, a - b, d);
    } else {
      Small(d - b, d);
      Small(a + n, d);
    }
  }

  lemma {:induction false} ZeroIff(s: seq<bool>)
    ensures Value(s) == 0 <==> s == Zero(|s|)
  {
    if s != [] {
      ZeroIff(s[1..]);
      assert Zero(|s|)[1..] == Zero(|s| - 1);
      if Value(s) == 0 {
        assert s == [s[0]] + s[1..];
      }
    }
  }
}
