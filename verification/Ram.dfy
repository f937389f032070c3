/** Sixty-four kilobytes of bytes, and the words in them (the macros rw and sw of
    the decompiled programs). */
module Ram {
  import opened Words

  const SIZE := 0x1_0000

  function WordAt(s: seq<bv8>, a: nat): Word
    requires a + 1 < |s|
  {
    (s[a] as bv16) | ((s[a + 1] as bv16) << 8)
  }

  function Low(v: Word): bv8 {
    (v & 0xff) as bv8
  }

  function High(v: Word): bv8 {
    ((v >> 8) & 0xff) as bv8
  }

  function Put(s: seq<bv8>, a: nat, v: Word): (r: seq<bv8>)
    requires a + 1 < |s|
    ensures |r| == |s|
  {
    s[a := Low(v)][a + 1 := High(v)]
  }

  lemma Halves(v: Word)
    ensures (Low(v) as bv16) | ((High(v) as bv16) << 8) == v
  {
  }

  /** A word that was stored is read back; words elsewhere stay. */
  lemma PutThenRead(s: seq<bv8>, a: nat, v: Word, b: nat)
    requires a + 1 < |s| && b + 1 < |s| && (b == a || b + 1 < a || a + 1 < b)
    ensures WordAt(Put(s, a, v), b) == if b == a then v else WordAt(s, b)
  {
    hide Low, High, WordAt;
    var t := Put(s, a, v);
    if b == a {
      WordOf(t, a, Low(v), High(v));
      Halves(v);
    } else {
      WordOf(t, b, s[b], s[b + 1]);
      WordOf(s, b, s[b], s[b + 1]);
    }
  }

  lemma WordOf(s: seq<bv8>, a: nat, lo: bv8, hi: bv8)
    requires a + 1 < |s| && s[a] == lo && s[a + 1] == hi
    ensures WordAt(s, a) == (lo as bv16) | ((hi as bv16) << 8)
  {
  }

  method Sw(m: array<bv8>, a: nat, v: Word)
    requires a + 1 < m.Length
    modifies m
    ensures m[..] == Put(old(m[..]), a, v)
  {
    hide Low, High;
    m[a] := Low(v);
    m[a + 1] := High(v);
  }
}
