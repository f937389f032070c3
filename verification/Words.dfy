/** The machine's data sizes.  Words are bit-vectors, because the virtual machine
    computes on their bits; bytes, addresses, tags and ages are integers, because
    the server only stores them and does arithmetic on them. */
module Words {

  type Byte = b: int | 0 <= b < 0x100
  type Word = bv16
  type Addr = a: int | 0 <= a < 0x1_0000

  function Lo(w: Word): Byte {
    LowByteFits(w);
    (w & 0xff) as int
  }

  function Hi(w: Word): Byte {
    LowByteFits(w >> 8);
    ((w >> 8) & 0xff) as int
  }

  lemma LowByteFits(w: Word)
    ensures (w & 0xff) as int < 0x100
  {
    var low := w & 0xff;
    assert low < 0x100;
  }

  /** The little-endian word made of two bytes. */
  function Join(lo: Byte, hi: Byte): Word {
    (lo + 0x100 * hi) as Word
  }

  /** A tag or an address cut into the two bytes that carry it over USB. */
  function AddrBytes(a: Addr): (s: seq<Byte>)
    ensures |s| == 2 && BytesAddr(s[0], s[1]) == a
  {
    [a % 0x100, a / 0x100]
  }

  function BytesAddr(lo: Byte, hi: Byte): Addr {
    lo + 0x100 * hi
  }
}
