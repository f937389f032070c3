/** Taking the first round key back to the key bits it was made from (reverse.py). */
module KeySchedule {
  import opened Options
  import opened DesTables
  import opened Des

  /** What a round key says about the 56 bits: nothing about the dropped ones. */
  function BitFrom(sk: Bits, i: nat): (b: Option<bool>)
    requires |sk| == 48 && i < 56
  {
    Pc2PlaceIs(i);
    if Dropped(i) then None else Some(sk[Pc2Place(i)])
  }

  function Pc2Inverse(sk: Bits): (r: seq<Option<bool>>)
    requires |sk| == 48
    ensures |r| == 56
  {
    seq(56, i requires 0 <= i < 56 => BitFrom(sk, i))
  }

  /** Where `x` is among the first `n` entries of the table. */
  predicate PlacedBefore(x: nat, n: nat)
    requires n <= 48
  {
    exists p | 0 <= p < n :: Pc2(p) == x
  }

  predicate Holds(entry: Option<nat>, x: nat, n: nat)
    requires n <= 48
  {
    match entry
    case Some(p) => p < n && Pc2(p) == x
    case None => !PlacedBefore(x, n)
  }

  /** One more entry of the reverse table. */
  lemma HoldsNext(entry: Option<nat>, x: nat, n: nat)
    requires n < 48 && Holds(entry, x, n)
    ensures Holds(if Pc2(n) == x then Some(n) else entry, x, n + 1)
  {
    hide Pc2;
  }

  /** The finished reverse table is the place each bit went to. */
  lemma ReverseEntry(entry: Option<nat>, x: nat)
    requires x < 56 && Holds(entry, x, 48)
    ensures entry == if Dropped(x) then None else Some(Pc2Place(x))
  {
    hide Pc2, Pc2Place, Dropped;
    Pc2PlaceIs(x);
    match entry
    case Some(p) =>
      Pc2Is(p);
      OnePlace(p, Pc2Place(x));
    case None =>
      if !Dropped(x) {
        Placed(x);
      }
  }

  lemma Placed(x: nat)
    requires x < 56 && !Dropped(x)
    ensures PlacedBefore(x, 48)
  {
    hide Pc2, Pc2Place, Dropped;
    Pc2PlaceIs(x);
    assert Pc2(Pc2Place(x)) == x;
  }

  /** No bit is taken twice. */
  lemma OnePlace(p: nat, q: nat)
    requires p < 48 && q < 48 && Pc2(p) == Pc2(q)
    ensures p == q
  {
    hide Pc2, Pc2Place;
    PlaceOfPc2(p);
    PlaceOfPc2(q);
  }

  lemma PlaceOfPc2(p: nat)
    requires p < 48
    ensures Pc2(p) < 56 && Pc2Place(Pc2(p)) == p
  {
    hide Pc2, Pc2Place;
    if p < 24 {
      PlaceOfLow(p);
    } else {
      PlaceOfHigh(p);
    }
  }

  lemma PlaceOfLow(p: nat)
    requires p < 24
    ensures Pc2(p) < 56 && Pc2Place(Pc2(p)) == p
  {
  }

  lemma PlaceOfHigh(p: nat)
    requires 24 <= p < 48
    ensures Pc2(p) < 56 && Pc2Place(Pc2(p)) == p
  {
  }

  /** _PC2inv: two passes, one to turn the table round and one to read the key
      through it. */
  method ComputePc2Inverse(sk: Bits) returns (ret: seq<Option<bool>>)
    requires |sk| == 48
    ensures ret == Pc2Inverse(sk)
  {
    hide Pc2, Pc2Place, Dropped, Holds, PlacedBefore;
    var rtable: seq<Option<nat>> := seq(56, i => None);
    forall x | 0 <= x < 56
      ensures Holds(rtable[x], x, 0)
    {
      NothingPlaced(x);
    }
    for position := 0 to 48
      invariant |rtable| == 56
      invariant forall x | 0 <= x < 56 :: Holds(rtable[x], x, position)
    {
      Pc2Is(position);
      ghost var before := rtable;
      rtable := rtable[Pc2(position) := Some(position)];
      forall x | 0 <= x < 56
        ensures Holds(rtable[x], x, position + 1)
      {
        HoldsNext(before[x], x, position);
      }
    }
    ret := [];
    for x := 0 to 56
      invariant ret == Pc2Inverse(sk)[..x]
    {
      ReverseEntry(rtable[x], x);
      Pc2PlaceIs(x);
      ret := ret + [if rtable[x] == None then None else Some(sk[rtable[x].value])];
    }
  }

  lemma NothingPlaced(x: nat)
    ensures Holds(None, x, 0)
  {
  }

  /** reverse_subkey: each half turned back by one place. */
  function ReverseSubkey(sk: Bits): (r: seq<Option<bool>>)
    requires |sk| == 48
    ensures |r| == 56
  {
    var ret := Pc2Inverse(sk);
    [ret[27]] + ret[..27] + [ret[55]] + ret[28..55]
  }

  method ComputeReverseSubkey(sk: Bits) returns (r: seq<Option<bool>>)
    requires |sk| == 48
    ensures r == ReverseSubkey(sk)
  {
    hide Pc2Inverse;
    var ret := ComputePc2Inverse(sk);
    var c, d := ret[0..28], ret[28..56];
    c := [c[27]] + c[0..27];
    d := [d[27]] + d[0..27];
    r := c + d;
  }

  /** The bits of a key that the first round never uses. */
  predicate Unused(i: nat) {
    i == 9 || i == 18 || i == 22 || i == 25 || i == 35 || i == 38 || i == 43 || i == 54
  }

  /** Going back from the first round key gives every key bit it depends on, with
      its value, and leaves exactly eight open. */
  lemma ReverseSubkeyIs(k: Bits, i: nat)
    requires |k| == 56 && i < 56
    ensures ReverseSubkey(Subkey(k, 0))[i] == if Unused(i) then None else Some(k[i])
  {
    hide Pc2Inverse, Subkey;
    var j := Back(i);
    assert ReverseSubkey(Subkey(k, 0))[i] == Pc2Inverse(Subkey(k, 0))[j];
    BitOfSubkey(k, j);
  }

  /** Where the first rotation takes bit `i` of the 56. */
  function Back(i: nat): (j: nat)
    requires i < 56
    ensures j < 56
  {
    if i == 0 then 27 else if i == 28 then 55 else i - 1
  }

  lemma BitOfSubkey(k: Bits, j: nat)
    requires |k| == 56 && j < 56
    ensures Pc2Inverse(Subkey(k, 0))[j]
         == if Dropped(j) then None else Some(k[if j == 27 then 0 else if j == 55 then 28 else j + 1])
  {
    hide Pc2, Pc2Place, Dropped;
    ShiftsAre(1);
    Pc2PlaceIs(j);
    var cd := Rotate(k[..28], 1) + Rotate(k[28..], 1);
    if !Dropped(j) {
      assert Subkey(k, 0)[Pc2Place(j)] == cd[j];
    }
  }

  /** So two keys share a first round key exactly when they agree off the eight. */
  lemma SubkeyDetermines(k: Bits, k': Bits)
    requires |k| == |k'| == 56
    ensures Subkey(k, 0) == Subkey(k', 0) <==> forall i | 0 <= i < 56 :: Unused(i) || k[i] == k'[i]
  {
    hide Subkey, Unused, ReverseSubkey;
    if Subkey(k, 0) == Subkey(k', 0) {
      forall i | 0 <= i < 56
        ensures Unused(i) || k[i] == k'[i]
      {
        ReverseSubkeyIs(k, i);
        ReverseSubkeyIs(k', i);
      }
    }
    if forall i | 0 <= i < 56 :: Unused(i) || k[i] == k'[i] {
      forall p | 0 <= p < 48
        ensures Subkey(k, 0)[p] == Subkey(k', 0)[p]
      {
        SubkeyBit(k, p);
        SubkeyBit(k', p);
      }
    }
  }

  /** The first round key's bits come from the key bits in use. */
  lemma SubkeyBit(k: Bits, p: nat)
    requires |k| == 56 && p < 48
    ensures var j := Pc2(p); var i := if j == 27 then 0 else if j == 55 then 28 else j + 1;
      i < 56 && !Unused(i) && Subkey(k, 0)[p] == k[i]
  {
    hide Pc2;
    ShiftsAre(1);
    Pc2Is(p);
  }
}
