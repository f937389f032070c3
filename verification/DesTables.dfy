/** The tables of DES, as the white-box solver writes them (reverse.py), counted
    from 0 (FIPS PUB 46-3, Appendix 1). */
module DesTables {

  /** _PC1. */
  function Pc1(i: nat): nat
    requires i < 56
  {
    (match i / 8
     case 0 => [56, 48, 40, 32, 24, 16, 8, 0]
     case 1 => [57, 49, 41, 33, 25, 17, 9, 1]
     case 2 => [58, 50, 42, 34, 26, 18, 10, 2]
     case 3 => [59, 51, 43, 35, 62, 54, 46, 38]
     case 4 => [30, 22, 14, 6, 61, 53, 45, 37]
     case 5 => [29, 21, 13, 5, 60, 52, 44, 36]
     case _ => [28, 20, 12, 4, 27, 19, 11, 3])[i % 8]
  }

  /** _PC2. */
  function Pc2(i: nat): nat
    requires i < 48
  {
    (match i / 8
     case 0 => [13, 16, 10, 23, 0, 4, 2, 27]
     case 1 => [14, 5, 20, 9, 22, 18, 11, 3]
     case 2 => [25, 7, 15, 6, 26, 19, 12, 1]
     case 3 => [40, 51, 30, 36, 46, 54, 29, 39]
     case 4 => [50, 44, 32, 47, 43, 48, 38, 55]
     case _ => [33, 52, 45, 41, 49, 35, 28, 31])[i % 8]
  }

  /** _IP. */
  function Ip(i: nat): nat
    requires i < 64
  {
    (match i / 8
     case 0 => [57, 49, 41, 33, 25, 17, 9, 1]
     case 1 => [59, 51, 43, 35, 27, 19, 11, 3]
     case 2 => [61, 53, 45, 37, 29, 21, 13, 5]
     case 3 => [63, 55, 47, 39, 31, 23, 15, 7]
     case 4 => [56, 48, 40, 32, 24, 16, 8, 0]
     case 5 => [58, 50, 42, 34, 26, 18, 10, 2]
     case 6 => [60, 52, 44, 36, 28, 20, 12, 4]
     case _ => [62, 54, 46, 38, 30, 22, 14, 6])[i % 8]
  }

  /** _IPinv. */
  function IpInv(i: nat): nat
    requires i < 64
  {
    (match i / 8
     case 0 => [39, 7, 47, 15, 55, 23, 63, 31]
     case 1 => [38, 6, 46, 14, 54, 22, 62, 30]
     case 2 => [37, 5, 45, 13, 53, 21, 61, 29]
     case 3 => [36, 4, 44, 12, 52, 20, 60, 28]
     case 4 => [35, 3, 43, 11, 51, 19, 59, 27]
     case 5 => [34, 2, 42, 10, 50, 18, 58, 26]
     case 6 => [33, 1, 41, 9, 49, 17, 57, 25]
     case _ => [32, 0, 40, 8, 48, 16, 56, 24])[i % 8]
  }

  /** _E. */
  function E(i: nat): nat
    requires i < 48
  {
    (match i / 6
     case 0 => [31, 0, 1, 2, 3, 4]
     case 1 => [3, 4, 5, 6, 7, 8]
     case 2 => [7, 8, 9, 10, 11, 12]
     case 3 => [11, 12, 13, 14, 15, 16]
     case 4 => [15, 16, 17, 18, 19, 20]
     case 5 => [19, 20, 21, 22, 23, 24]
     case 6 => [23, 24, 25, 26, 27, 28]
     case _ => [27, 28, 29, 30, 31, 0])[i % 6]
  }

  /** _P. */
  function P(i: nat): nat
    requires i < 32
  {
    (match i / 8
     case 0 => [15, 6, 19, 20, 28, 11, 27, 16]
     case 1 => [0, 14, 22, 25, 4, 17, 30, 9]
     case 2 => [1, 7, 23, 13, 31, 26, 2, 8]
     case _ => [18, 12, 29, 5, 21, 10, 3, 24])[i % 8]
  }

  // ---------------------------------------------------------------- the selection functions

  /** Entry `col` of a row of sixteen hexadecimal digits. */
  function Digit(row: bv64, col: bv4): bv4 {
    ((row >> (60 - 4 * (col as bv64))) & 0xf) as bv4
  }

  /** boxes[n], by row and column. */
  function Box(n: nat, row: bv2, col: bv4): bv4
    requires n < 8
  {
    Digit(Rows(n, row), col)
  }

  function Rows(n: nat, row: bv2): bv64
    requires n < 8
  {
    match n
    case 0 => S0(row)
    case 1 => S1(row)
    case 2 => S2(row)
    case 3 => S3(row)
    case 4 => S4(row)
    case 5 => S5(row)
    case 6 => S6(row)
    case _ => S7(row)
  }

  function S0(row: bv2): bv64 {
    match row
    case 0 => 0xe4d12fb83a6c5907
    case 1 => 0x0f74e2d1a6cb9538
    case 2 => 0x41e8d62bfc973a50
    case _ => 0xfc8249175b3ea06d
  }

  function S1(row: bv2): bv64 {
    match row
    case 0 => 0xf18e6b34972dc05a
    case 1 => 0x3d47f28ec01a69b5
    case 2 => 0x0e7ba4d158c6932f
    case _ => 0xd8a13f42b67c05e9
  }

  function S2(row: bv2): bv64 {
    match row
    case 0 => 0xa09e63f51dc7b428
    case 1 => 0xd709346a285ecbf1
    case 2 => 0xd6498f30b12c5ae7
    case _ => 0x1ad069874fe3b52c
  }

  function S3(row: bv2): bv64 {
    match row
    case 0 => 0x7de3069a1285bc4f
    case 1 => 0xd8b56f03472c1ae9
    case 2 => 0xa690cb7df13e5284
    case _ => 0x3f06a1d8945bc72e
  }

  function S4(row: bv2): bv64 {
    match row
    case 0 => 0x2c417ab6853fd0e9
    case 1 => 0xeb2c47d150fa3986
    case 2 => 0x421bad78f9c5630e
    case _ => 0xb8c71e2d6f09a453
  }

  function S5(row: bv2): bv64 {
    match row
    case 0 => 0xc1af92680d34e75b
    case 1 => 0xaf427c9561de0b38
    case 2 => 0x9ef528c3704a1db6
    case _ => 0x432c95fabe17608d
  }

  function S6(row: bv2): bv64 {
    match row
    case 0 => 0x4b2ef08d3c975a61
    case 1 => 0xd0b7491ae35c2f86
    case 2 => 0x14bdc37eaf680592
    case _ => 0x6bd814a7950fe23c
  }

  function S7(row: bv2): bv64 {
    match row
    case 0 => 0xd2846fb1a93e50c7
    case 1 => 0x1fd8a374c56b0e92
    case 2 => 0x7b419ce206adf358
    case _ => 0x21e74a8dfc90356b
  }

  /** Where _PC2 takes a bit to; 48 for the eight bits it drops. */
  function Pc2Place(i: nat): nat
    requires i < 56
  {
    (match i / 8
     case 0 => [4, 23, 6, 15, 5, 9, 19, 17]
     case 1 => [48, 11, 2, 14, 22, 0, 8, 18]
     case 2 => [1, 48, 13, 21, 10, 48, 12, 3]
     case 3 => [48, 16, 20, 7, 46, 30, 26, 47]
     case 4 => [34, 40, 48, 45, 27, 48, 38, 31]
     case 5 => [24, 43, 48, 36, 33, 42, 28, 35]
     case _ => [37, 44, 32, 25, 41, 48, 29, 39])[i % 8]
  }

  // ---------------------------------------------------------------- what holds of them

  /** The initial permutation and its inverse, by row and column. */
  lemma IpIs(i: nat)
    requires i < 64
    ensures var (r, c) := (i / 8, i % 8);
      Ip(i) == (if r < 4 then 57 + 2 * r else 48 + 2 * r) - 8 * c
  {
  }

  lemma IpInvIs(i: nat)
    requires i < 64
    ensures var (r, c) := (i / 8, i % 8);
      IpInv(i) == (if c % 2 == 0 then 39 + 4 * c else 3 + 4 * c) - r
  {
  }

  lemma IpOfInv(i: nat)
    requires i < 64
    ensures IpInv(i) < 64 && Ip(IpInv(i)) == i
  {
    hide Ip, IpInv;
    IpInvIs(i);
    var (r, c) := (i / 8, i % 8);
    ByEight(IpInv(i), if c % 2 == 0 then 4 + c / 2 else c / 2, 7 - r);
    IpIs(IpInv(i));
  }

  lemma InvOfIp(i: nat)
    requires i < 64
    ensures Ip(i) < 64 && IpInv(Ip(i)) == i
  {
    hide Ip, IpInv;
    IpIs(i);
    var (r, c) := (i / 8, i % 8);
    ByEight(Ip(i), 7 - c, if r < 4 then 2 * r + 1 else 2 * r - 8);
    IpInvIs(Ip(i));
  }

  lemma ByEight(v: int, q: nat, r: nat)
    requires v == 8 * q + r && r < 8
    ensures v / 8 == q && v % 8 == r
  {
  }

  /** The expansion repeats the neighbours of every four bits. */
  lemma EIs(i: nat)
    requires i < 48
    ensures E(i) == (4 * (i / 6) + i % 6 + 31) % 32
  {
  }

  lemma PIs(i: nat)
    requires i < 32
    ensures P(i) < 32
  {
  }

  /** _PC1 takes the columns of the key from below, the first three and half of the
      fourth into one half, and from the seventh back into the other. */
  lemma Pc1Is(i: nat)
    requires i < 56
    ensures Pc1(i) ==
      if i < 28 then 56 - 8 * (i % 8) + i / 8
      else if i < 52 then 62 - 8 * ((i - 28) % 8) - (i - 28) / 8
      else 27 - 8 * (i - 52)
  {
  }

  lemma Pc2Is(i: nat)
    requires i < 48
    ensures Pc2(i) < 56 && !Dropped(Pc2(i))
  {
  }

  /** The bits that _PC2 drops. */
  predicate Dropped(i: nat) {
    i == 8 || i == 17 || i == 21 || i == 24 || i == 34 || i == 37 || i == 42 || i == 53
  }

  lemma Pc2PlaceIs(i: nat)
    requires i < 56
    ensures if Dropped(i) then Pc2Place(i) == 48 else Pc2Place(i) < 48 && Pc2(Pc2Place(i)) == i
  {
    hide Pc2Place, Pc2, Dropped;
    if i < 28 {
      Pc2PlaceLow(i);
    } else {
      Pc2PlaceHigh(i);
    }
  }

  lemma Pc2PlaceLow(i: nat)
    requires i < 28
    ensures if Dropped(i) then Pc2Place(i) == 48 else Pc2Place(i) < 48 && Pc2(Pc2Place(i)) == i
  {
  }

  lemma Pc2PlaceHigh(i: nat)
    requires 28 <= i < 56
    ensures if Dropped(i) then Pc2Place(i) == 48 else Pc2Place(i) < 48 && Pc2(Pc2Place(i)) == i
  {
  }
}
