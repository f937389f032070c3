/** The instruction stream as bits: byte by byte, most significant bit first. */
module Bitstream {
  import opened Powers
  import opened Words

  /** Shifts and masks, on numbers. */
  function Shl(v: nat, k: nat): nat {
    v * Pow2(k)
  }

  function Shr(v: nat, k: nat): nat {
    Quotient(v, Pow2(k));
    v / Pow2(k)
  }

  function Keep(v: nat, k: nat): nat {
    v % Pow2(k)
  }

  /** Bit `k` of a byte, counted from its most significant end. */
  function ByteBit(b: int, k: nat): (r: nat)
    requires 0 <= b && k < 8
    ensures r < 2
  {
    (b / Pow2(7 - k)) % 2
  }

  /** Bit `p` of the memory; past its end there are only zeros. */
  function BitAt(mem: seq<Byte>, p: nat): (r: nat)
    ensures r < 2
  {
    if p / 8 < |mem| then ByteBit(mem[p / 8], p % 8) else 0
  }

  /** The `n` bits from position `p` on as a number, first bit highest. */
  function Bits(mem: seq<Byte>, p: nat, n: nat): (r: nat)
    ensures r < Pow2(n)
  {
    if n == 0 then 0 else 2 * Bits(mem, p, n - 1) + BitAt(mem, p + n - 1)
  }

  /** The bytes that read_nbits looks up for a field: one, two or three.  A
      field that ends with its second byte makes it look one byte further. */
  function BitTouches(p: nat, n: nat): (t: seq<nat>)
    ensures forall i | 0 <= i < |t| :: p / 8 <= t[i] <= (p + n) / 8
  {
    var left := 8 - p % 8;
    if n <= left then [p / 8]
    else if n - left >= 8 then [p / 8, p / 8 + 1, p / 8 + 2]
    else [p / 8, p / 8 + 1]
  }

  function Sum(widths: seq<nat>): nat {
    if widths == [] then 0 else widths[0] + Sum(widths[1..])
  }

  /** The look-ups for several fields read one after the other. */
  function FieldTouches(p: nat, widths: seq<nat>): (t: seq<nat>)
    ensures forall i | 0 <= i < |t| :: p / 8 <= t[i] <= (p + Sum(widths)) / 8
    decreases |widths|
  {
    if widths == [] then [] else BitTouches(p, widths[0]) + FieldTouches(p + widths[0], widths[1..])
  }

  // ---------------------------------------------------------------- windows of bytes

  /** A field that lies in one byte is that byte shifted and masked. */
  lemma {:induction false} BitsOfByte(mem: seq<Byte>, k: nat, off: nat, n: nat)
    requires k < |mem| && off + n <= 8
    ensures Bits(mem, 8 * k + off, n) == (mem[k] / Pow2(8 - off - n)) % Pow2(n)
  {
    if n > 0 {
      BitsOfByte(mem, k, off, n - 1);
      OneMore(mem, 8 * k + off, n - 1);
      LastBit(mem, k, off, n);
    } else {
      assert Pow2(0) == 1;
    }
  }

  lemma LastBit(mem: seq<Byte>, k: nat, off: nat, n: nat)
    requires k < |mem| && 0 < n && off + n <= 8
    ensures (mem[k] / Pow2(8 - off - n)) % Pow2(n) ==
      2 * ((mem[k] / Pow2(8 - off - (n - 1))) % Pow2(n - 1)) + BitAt(mem, 8 * k + (off + n - 1))
  {
    var e := 8 - off - n;
    BitOfByte(mem, k, off + n - 1);
    assert 7 - (off + n - 1) == e && 8 - off - (n - 1) == e + 1;
    HalveAndPeel(mem[k], e, n);
  }

  lemma HalveAndPeel(b: nat, e: nat, n: nat)
    requires n > 0
    ensures (b / Pow2(e)) % Pow2(n) == 2 * ((b / Pow2(e + 1)) % Pow2(n - 1)) + (b / Pow2(e)) % 2
  {
    Halve(b, Pow2(e));
    Peel(b / Pow2(e), Pow2(n - 1));
  }

  lemma BitOfByte(mem: seq<Byte>, k: nat, off: nat)
    requires k < |mem| && off < 8
    ensures BitAt(mem, 8 * k + off) == (mem[k] / Pow2(7 - off)) % 2
  {
    assert (8 * k + off) / 8 == k && (8 * k + off) % 8 == off;
  }

  /** A field may be read in two pieces. */
  lemma {:induction false} BitsSplit(mem: seq<Byte>, p: nat, m: nat, n: nat)
    ensures Bits(mem, p, m + n) == Bits(mem, p, m) * Pow2(n) + Bits(mem, p + m, n)
  {
    hide BitAt;
    if n > 0 {
      BitsSplit(mem, p, m, n - 1);
      OneMore(mem, p, m + n - 1);
      OneMore(mem, p + m, n - 1);
      Append(Bits(mem, p, m + n - 1), Bits(mem, p, m), Pow2(n - 1), Bits(mem, p + m, n - 1),
             BitAt(mem, p + m + n - 1));
    }
  }

  lemma OneMore(mem: seq<Byte>, p: nat, n: nat)
    ensures Bits(mem, p, n + 1) == 2 * Bits(mem, p, n) + BitAt(mem, p + n)
  {
  }

  lemma Append(x: nat, a: nat, d: nat, y: nat, b: nat)
    requires x == a * d + y
    ensures 2 * x + b == a * (2 * d) + (2 * y + b)
  {
  }

  // ---------------------------------------------------------------- what read_nbits computes

  lemma FieldInByte(mem: seq<Byte>, p: nat, n: nat)
    requires n <= 8 - p % 8 && p / 8 < |mem|
    ensures Bits(mem, p, n) == (mem[p / 8] / Pow2(8 - p % 8 - n)) % Pow2(n)
  {
    BitsOfByte(mem, p / 8, p % 8, n);
  }

  /** The rest of the current byte. */
  lemma {:induction false} FirstPart(mem: seq<Byte>, p: nat)
    requires p / 8 < |mem|
    ensures Bits(mem, p, 8 - p % 8) == mem[p / 8] % Pow2(8 - p % 8)
  {
    hide Bits;
    assert Pow2(0) == 1;
    hide Pow2;
    FieldInByte(mem, p, 8 - p % 8);
  }

  /** The next `n` bits, from the start of a byte on. */
  lemma NextPart(mem: seq<Byte>, p: nat, n: nat)
    requires p % 8 == 0 && n <= 8 && p / 8 < |mem|
    ensures Bits(mem, p, n) == (mem[p / 8] / Pow2(8 - n)) % Pow2(n)
    ensures n == 8 ==> Bits(mem, p, n) == mem[p / 8]
  {
    FieldInByte(mem, p, n);
    if n == 8 {
      assert Pow2(0) == 1;
      SmallPowers(8);
    }
  }

  lemma {:induction false} FieldInTwo(mem: seq<Byte>, p: nat, n: nat)
    requires var left := 8 - p % 8; left < n <= left + 8
    requires p / 8 + 1 < |mem|
    ensures var left := 8 - p % 8;
      Bits(mem, p, n) == (mem[p / 8] % Pow2(left)) * Pow2(n - left)
        + (mem[p / 8 + 1] / Pow2(8 - (n - left))) % Pow2(n - left)
  {
    hide Pow2, Bits;
    var left := 8 - p % 8;
    assert (p + left) % 8 == 0 && (p + left) / 8 == p / 8 + 1;
    BitsSplit(mem, p, left, n - left);
    FirstPart(mem, p);
    NextPart(mem, p + left, n - left);
  }

  lemma FieldInThree(mem: seq<Byte>, p: nat, n: nat)
    requires var left := 8 - p % 8; left + 8 <= n <= left + 16
    requires p / 8 + 2 < |mem|
    ensures var left := 8 - p % 8;
      var m := n - left - 8;
      && (mem[p / 8] % Pow2(left)) * 0x100 + mem[p / 8 + 1] == Bits(mem, p, left + 8)
      && Bits(mem, p, n) == Bits(mem, p, left + 8) * Pow2(m) + (mem[p / 8 + 2] / Pow2(8 - m)) % Pow2(m)
  {
    hide Pow2, Bits;
    var left := 8 - p % 8;
    var m := n - left - 8;
    NextTwo(p);
    TwoParts(mem, p);
    BitsSplit(mem, p, left + 8, m);
    NextPart(mem, p + left + 8, m);
  }

  lemma NextTwo(p: nat)
    ensures var q := p + (8 - p % 8) + 8; q % 8 == 0 && q / 8 == p / 8 + 2
  {
  }

  /** The rest of the current byte and the whole next one. */
  lemma {:induction false} TwoParts(mem: seq<Byte>, p: nat)
    requires p / 8 + 1 < |mem|
    ensures Bits(mem, p, 8 - p % 8 + 8) == (mem[p / 8] % Pow2(8 - p % 8)) * 0x100 + mem[p / 8 + 1]
  {
    var left := 8 - p % 8;
    NextByte(p, left);
    SmallPowers(8);
    hide Pow2, Bits;
    BitsSplit(mem, p, left, 8);
    FirstPart(mem, p);
    NextPart(mem, p + left, 8);
  }

  lemma NextByte(p: nat, n: nat)
    requires n == 8 - p % 8
    ensures (p + n) % 8 == 0 && (p + n) / 8 == p / 8 + 1
  {
  }

  /** A field of at most 16 bits is a 16-bit number. */
  lemma {:induction false} FieldFits(mem: seq<Byte>, p: nat, n: nat)
    requires n <= 16
    ensures Bits(mem, p, n) < 0x1_0000
  {
    PowersGrow(n, 16);
    assert Pow2(8) == 256 by { SmallPowers(8); }
    assert Pow2(12) == 4096;
  }
}
