/** The bits of a byte string: bit 0 is the most significant bit of the first byte. */
module Bits {
  /** The byte with the single bit `i` set, counted from the least significant one. */
  function Mask(i: nat): bv8
    requires i < 8
  {
    match i
    case 0 => 0x01
    case 1 => 0x02
    case 2 => 0x04
    case 3 => 0x08
    case 4 => 0x10
    case 5 => 0x20
    case 6 => 0x40
    case _ => 0x80
  }

  predicate Bit8(b: bv8, i: nat)
    requires i < 8
  {
    b & Mask(i) != 0
  }

  function PutBit(b: bv8, i: nat, v: bool): bv8
    requires i < 8
  {
    (b & !Mask(i)) | (if v then Mask(i) else 0)
  }

  /** Different bits do not meet. */
  lemma Apart(i: nat, j: nat)
    requires i < 8 && j < 8 && i != j
    ensures Mask(i) & Mask(j) == 0
  {}

  lemma PutSame(b: bv8, m: bv8)
    requires m != 0
    ensures ((b & !m) | m) & m != 0 && ((b & !m) | 0) & m == 0
  {}

  lemma PutApart(b: bv8, m: bv8, n: bv8)
    requires m & n == 0
    ensures ((b & !m) | m) & n == b & n && ((b & !m) | 0) & n == b & n
  {}

  lemma PutBitIs(b: bv8, i: nat, v: bool, j: nat)
    requires i < 8 && j < 8
    ensures Bit8(PutBit(b, i, v), j) <==> if i == j then v else Bit8(b, j)
  {
    if i == j {
      assert Mask(i) != 0;
      PutSame(b, Mask(i));
    } else {
      Apart(i, j);
      PutApart(b, Mask(i), Mask(j));
    }
    hide Mask;
  }

  /** Bit `k` of a byte string. */
  predicate BitAt(p: seq<bv8>, k: nat)
    requires k < 8 * |p|
  {
    Bit8(p[k / 8], 7 - k % 8)
  }

  /** The string is followed by zeros. */
  predicate PaddedBit(p: seq<bv8>, k: nat) { k < 8 * |p| && BitAt(p, k) }

  lemma SetBitAt(p: seq<bv8>, k: nat, v: bool)
    requires k < 8 * |p|
    ensures var q := p[k / 8 := PutBit(p[k / 8], 7 - k % 8, v)];
            forall j :: 0 <= j < 8 * |p| ==> BitAt(q, j) == if j == k then v else BitAt(p, j)
  {
    var q := p[k / 8 := PutBit(p[k / 8], 7 - k % 8, v)];
    forall j | 0 <= j < 8 * |p| ensures BitAt(q, j) == if j == k then v else BitAt(p, j) {
      if j / 8 == k / 8 { PutBitIs(p[k / 8], 7 - k % 8, v, 7 - j % 8); }
      hide Bit8, PutBit;
    }
  }
}
