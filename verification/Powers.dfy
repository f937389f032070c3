/** Powers of two, and division with a remainder. */
module Powers {

  function Pow2(n: nat): (r: nat)
    ensures r > 0
  {
    if n == 0 then 1 else 2 * Pow2(n - 1)
  }

  lemma {:induction false} SmallPowers(n: nat)
    requires n <= 8
    ensures Pow2(n) == [1, 2, 4, 8, 16, 32, 64, 128, 256][n]
  {
    if n > 0 {
      SmallPowers(n - 1);
    }
  }

  lemma {:induction false} PowersGrow(m: nat, n: nat)
    requires m <= n
    ensures Pow2(m) <= Pow2(n)
  {
    if m < n {
      PowersGrow(m, n - 1);
    }
  }

  lemma Euclid(q: int, d: nat)
    requires d > 0
    ensures q == d * (q / d) + q % d && 0 <= q % d < d
  {
  }

  lemma Quotient(q: nat, d: nat)
    requires d > 0
    ensures q / d >= 0
  {
  }

  lemma Halve(b: nat, d: nat)
    requires d > 0
    ensures b / (2 * d) == (b / d) / 2
  {
    var q, r := b / d, b % d;
    var h, o := q / 2, q % 2;
    Euclid(b, d);
    assert o == 0 || o == 1;
    assert d * q == 2 * d * h + d * o;
    DivMod(b, 2 * d, h, d * o + r);
  }

  lemma Peel(q: int, d: nat)
    requires d > 0
    ensures q % (2 * d) == 2 * ((q / 2) % d) + q % 2
  {
    var h := q / 2;
    var k, r := h / d, h % d;
    Euclid(h, d);
    assert q == (2 * d) * k + (2 * r + q % 2);
    DivMod(q, 2 * d, k, 2 * r + q % 2);
  }

  lemma DivMod(q: int, d: nat, k: int, r: nat)
    requires d > 0 && q == d * k + r && r < d
    ensures q % d == r && q / d == k
  {
    Euclid(q, d);
    var k', r' := q / d, q % d;
    assert d * (k - k') == d * k - d * k' == r' - r;
    NoSmallMultiple(d, k - k', r' - r);
  }

  lemma NoSmallMultiple(d: int, x: int, y: int)
    requires d > 0 && d * x == y && -d < y < d
    ensures x == 0 && y == 0
  {
    if x != 0 {
      FarFromZero(d, x);
    }
  }

  lemma FarFromZero(d: int, x: int)
    requires d > 0 && x != 0
    ensures d * x >= d || d * x <= -d
  {
    if x > 0 {
      assert d * x >= d;
    } else {
      assert d * x <= -d;
    }
  }
}
