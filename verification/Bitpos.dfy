/** redisBitpos: bytes and words that cannot hold the bit are skipped, and one word is scanned. */
module Bitpos {
  import opened Bits

  // ------------------------------------------------------------------
  // Words of eight bytes, the first byte highest
  // ------------------------------------------------------------------

  function Append(word: bv64, b: bv8): bv64 { (word << 8) | (b as bv64) }

  function Pack(b0: bv8, b1: bv8, b2: bv8, b3: bv8, b4: bv8, b5: bv8, b6: bv8, b7: bv8): bv64 {
    ((b0 as bv64) << 56) | ((b1 as bv64) << 48) | ((b2 as bv64) << 40) | ((b3 as bv64) << 32) |
    ((b4 as bv64) << 24) | ((b5 as bv64) << 16) | ((b6 as bv64) << 8) | (b7 as bv64)
  }

  function PackSeq(bs: seq<bv8>): bv64
    requires |bs| == 8
  {
    Pack(bs[0], bs[1], bs[2], bs[3], bs[4], bs[5], bs[6], bs[7])
  }

  function Built(bs: seq<bv8>): bv64 { if bs == [] then 0 else Append(Built(bs[..|bs| - 1]), bs[|bs| - 1]) }

  lemma RawBuild(b0: bv8, b1: bv8, b2: bv8, b3: bv8, b4: bv8, b5: bv8, b6: bv8, b7: bv8)
    ensures Append(Append(Append(Append(Append(Append(Append(Append(0, b0), b1), b2), b3), b4), b5), b6), b7)
         == Pack(b0, b1, b2, b3, b4, b5, b6, b7)
  {}

  lemma BuiltNext(bs: seq<bv8>, n: nat)
    requires n < |bs|
    ensures Built(bs[..n + 1]) == Append(Built(bs[..n]), bs[n])
  {
    assert bs[..n + 1][..n] == bs[..n];
  }

  lemma BuiltIs(bs: seq<bv8>)
    requires |bs| == 8
    ensures Built(bs) == PackSeq(bs)
  {
    RawBuild(bs[0], bs[1], bs[2], bs[3], bs[4], bs[5], bs[6], bs[7]);
    assert Built(bs[..0]) == 0 && bs[..8] == bs;
    hide Append, Pack, Built;
    BuiltNext(bs, 0); BuiltNext(bs, 1); BuiltNext(bs, 2); BuiltNext(bs, 3);
    BuiltNext(bs, 4); BuiltNext(bs, 5); BuiltNext(bs, 6); BuiltNext(bs, 7);
  }

  lemma RawZeros(b0: bv8, b1: bv8, b2: bv8, b3: bv8, b4: bv8, b5: bv8, b6: bv8, b7: bv8)
    ensures Pack(b0, b1, b2, b3, b4, b5, b6, b7) == 0 <==>
              b0 == 0 && b1 == 0 && b2 == 0 && b3 == 0 && b4 == 0 && b5 == 0 && b6 == 0 && b7 == 0
  {}

  lemma RawOnes(b0: bv8, b1: bv8, b2: bv8, b3: bv8, b4: bv8, b5: bv8, b6: bv8, b7: bv8)
    ensures Pack(b0, b1, b2, b3, b4, b5, b6, b7) == 0xFFFF_FFFF_FFFF_FFFF <==>
              && b0 == 0xFF && b1 == 0xFF && b2 == 0xFF && b3 == 0xFF
              && b4 == 0xFF && b5 == 0xFF && b6 == 0xFF && b7 == 0xFF
  {}

  lemma RawSkip(b0: bv8, b1: bv8, b2: bv8, b3: bv8, b4: bv8, b5: bv8, b6: bv8, b7: bv8)
    ensures Pack(b0, b1, b2, b3, b4, b5, b6, b7) == 0 <==>
              b0 == 0 && b1 == 0 && b2 == 0 && b3 == 0 && b4 == 0 && b5 == 0 && b6 == 0 && b7 == 0
    ensures Pack(b0, b1, b2, b3, b4, b5, b6, b7) == 0xFFFF_FFFF_FFFF_FFFF <==>
              && b0 == 0xFF && b1 == 0xFF && b2 == 0xFF && b3 == 0xFF
              && b4 == 0xFF && b5 == 0xFF && b6 == 0xFF && b7 == 0xFF
  {
    RawZeros(b0, b1, b2, b3, b4, b5, b6, b7);
    RawOnes(b0, b1, b2, b3, b4, b5, b6, b7);
    hide Pack;
  }

  // ------------------------------------------------------------------
  // The moving bit
  // ------------------------------------------------------------------

  /** The byte `m` at position `q` of a word. */
  function Up(q: nat, m: bv8): bv64
    requires q < 8
  {
    match q
    case 0 => (m as bv64) << 56
    case 1 => (m as bv64) << 48
    case 2 => (m as bv64) << 40
    case 3 => (m as bv64) << 32
    case 4 => (m as bv64) << 24
    case 5 => (m as bv64) << 16
    case 6 => (m as bv64) << 8
    case _ => m as bv64
  }

  function And(x: bv64, y: bv64): bv64 { x & y }

  function And8(b: bv8, m: bv8): bv8 { b & m }

  function Half(x: bv64): bv64 { x >> 1 }

  predicate Zero(x: bv64) { x == 0 }

  /** All bits but the highest, inverted. */
  function Highest(): bv64 { !(0xFFFF_FFFF_FFFF_FFFF >> 1) }

  lemma UpZero(q: nat, m: bv8)
    requires q < 8
    ensures Up(q, m) == 0 <==> m == 0
  {}

  /** A byte at position `q` meets only byte `q` of the word. */
  lemma Meet(q: nat, m: bv8, bs: seq<bv8>)
    requires q < 8 && |bs| == 8
    ensures And(Up(q, m), PackSeq(bs)) == Up(q, And8(bs[q], m))
  {
    var a, b, c, d, e, f, g, h := bs[0], bs[1], bs[2], bs[3], bs[4], bs[5], bs[6], bs[7];
    hide And, And8, Up, Pack;
    match q
    case 0 => Meet0(m, a, b, c, d, e, f, g, h);
    case 1 => Meet1(m, a, b, c, d, e, f, g, h);
    case 2 => Meet2(m, a, b, c, d, e, f, g, h);
    case 3 => Meet3(m, a, b, c, d, e, f, g, h);
    case 4 => Meet4(m, a, b, c, d, e, f, g, h);
    case 5 => Meet5(m, a, b, c, d, e, f, g, h);
    case 6 => Meet6(m, a, b, c, d, e, f, g, h);
    case _ => Meet7(m, a, b, c, d, e, f, g, h);
  }

  lemma Meet0(m: bv8, a: bv8, b: bv8, c: bv8, d: bv8, e: bv8, f: bv8, g: bv8, h: bv8)
    ensures And(Up(0, m), Pack(a, b, c, d, e, f, g, h)) == Up(0, And8(a, m))
  {}

  lemma Meet1(m: bv8, a: bv8, b: bv8, c: bv8, d: bv8, e: bv8, f: bv8, g: bv8, h: bv8)
    ensures And(Up(1, m), Pack(a, b, c, d, e, f, g, h)) == Up(1, And8(b, m))
  {}

  lemma Meet2(m: bv8, a: bv8, b: bv8, c: bv8, d: bv8, e: bv8, f: bv8, g: bv8, h: bv8)
    ensures And(Up(2, m), Pack(a, b, c, d, e, f, g, h)) == Up(2, And8(c, m))
  {}

  lemma Meet3(m: bv8, a: bv8, b: bv8, c: bv8, d: bv8, e: bv8, f: bv8, g: bv8, h: bv8)
    ensures And(Up(3, m), Pack(a, b, c, d, e, f, g, h)) == Up(3, And8(d, m))
  {}

  lemma Meet4(m: bv8, a: bv8, b: bv8, c: bv8, d: bv8, e: bv8, f: bv8, g: bv8, h: bv8)
    ensures And(Up(4, m), Pack(a, b, c, d, e, f, g, h)) == Up(4, And8(e, m))
  {}

  lemma Meet5(m: bv8, a: bv8, b: bv8, c: bv8, d: bv8, e: bv8, f: bv8, g: bv8, h: bv8)
    ensures And(Up(5, m), Pack(a, b, c, d, e, f, g, h)) == Up(5, And8(f, m))
  {}

  lemma Meet6(m: bv8, a: bv8, b: bv8, c: bv8, d: bv8, e: bv8, f: bv8, g: bv8, h: bv8)
    ensures And(Up(6, m), Pack(a, b, c, d, e, f, g, h)) == Up(6, And8(g, m))
  {}

  lemma Meet7(m: bv8, a: bv8, b: bv8, c: bv8, d: bv8, e: bv8, f: bv8, g: bv8, h: bv8)
    ensures And(Up(7, m), Pack(a, b, c, d, e, f, g, h)) == Up(7, And8(h, m))
  {}

  lemma UpHalf(q: nat, m: bv8)
    requires q < 8 && m & 1 == 0
    ensures Half(Up(q, m)) == Up(q, m >> 1)
  {}

  lemma UpCross(q: nat)
    requires q < 7
    ensures Half(Up(q, 1)) == Up(q + 1, 0x80)
  {}

  /** The word with only bit `j` set, counted from the highest. */
  function One(j: nat): bv64
    requires j <= 64
  {
    if j == 64 then 0 else Up(j / 8, Mask(7 - j % 8))
  }

  lemma MaskHalf(i: nat)
    requires 0 < i < 8
    ensures Mask(i) & 1 == 0 && Mask(i) >> 1 == Mask(i - 1)
  {}

  lemma OneNext(j: nat)
    requires j < 64
    ensures Half(One(j)) == One(j + 1)
  {
    var q, i := j / 8, 7 - j % 8;
    if i > 0 {
      MaskHalf(i);
      UpHalf(q, Mask(i));
      assert (j + 1) / 8 == q && 7 - (j + 1) % 8 == i - 1;
    } else if q < 7 {
      UpCross(q);
      assert (j + 1) / 8 == q + 1 && (j + 1) % 8 == 0;
    }
  }

  lemma OneZero(j: nat)
    requires j <= 64
    ensures Zero(One(j)) <==> j == 64
  {
    if j < 64 { UpZero(j / 8, Mask(7 - j % 8)); }
  }

  /** Testing bit `j` of the word. */
  lemma TestBit(bs: seq<bv8>, j: nat)
    requires |bs| == 8 && j < 64
    ensures !Zero(And(One(j), PackSeq(bs))) <==> BitAt(bs, j)
  {
    hide Up, And, PackSeq, Mask, Bit8, Zero;
    TestAt(bs, j / 8, 7 - j % 8);
  }

  lemma TestAt(bs: seq<bv8>, q: nat, i: nat)
    requires |bs| == 8 && q < 8 && i < 8
    ensures !Zero(And(Up(q, Mask(i)), PackSeq(bs))) <==> Bit8(bs[q], i)
  {
    hide *;
    Meet(q, Mask(i), bs);
    UpIsZero(q, And8(bs[q], Mask(i)));
    TestByte(bs[q], i);
  }

  lemma UpIsZero(q: nat, m: bv8)
    requires q < 8
    ensures Zero(Up(q, m)) <==> m == 0
  {
    UpZero(q, m);
    hide Up;
  }

  lemma TestByte(b: bv8, i: nat)
    requires i < 8
    ensures And8(b, Mask(i)) != 0 <==> Bit8(b, i)
  {}

  // ------------------------------------------------------------------
  // The search
  // ------------------------------------------------------------------

  /** The byte that cannot hold the bit. */
  function Skip8(bit: bool): bv8 { if bit then 0 else 0xFF }

  function Skip64(bit: bool): bv64 { if bit then 0 else 0xFFFF_FFFF_FFFF_FFFF }

  /** The bytes before `c` do not hold the bit. */
  ghost predicate Skipped(s: seq<bv8>, c: nat, bit: bool)
    requires c <= |s|
  {
    forall k :: 0 <= k < c ==> s[k] == Skip8(bit)
  }

  lemma NotInByte(bit: bool, i: nat)
    requires i < 8
    ensures Bit8(Skip8(bit), i) != bit
  {}

  lemma NotBefore(s: seq<bv8>, c: nat, bit: bool)
    requires c <= |s| && Skipped(s, c, bit)
    ensures forall k :: 0 <= k < 8 * c ==> PaddedBit(s, k) != bit
  {
    forall k | 0 <= k < 8 * c ensures PaddedBit(s, k) != bit {
      NotInByte(bit, 7 - k % 8);
      hide Bit8, Skip8;
    }
  }

  /** A byte that may hold the bit does hold it. */
  lemma InByte(b: bv8, bit: bool) returns (i: nat)
    requires b != Skip8(bit)
    ensures i < 8 && Bit8(b, i) == bit
  {
    if Bit8(b, 0) == bit { return 0; }
    if Bit8(b, 1) == bit { return 1; }
    if Bit8(b, 2) == bit { return 2; }
    if Bit8(b, 3) == bit { return 3; }
    if Bit8(b, 4) == bit { return 4; }
    if Bit8(b, 5) == bit { return 5; }
    if Bit8(b, 6) == bit { return 6; }
    return 7;
  }

  /** The word at eight bytes, on a machine of either byte order. */
  function Load(s: seq<bv8>, i: nat, little: bool): bv64
    requires i + 8 <= |s|
  {
    if little then Pack(s[i + 7], s[i + 6], s[i + 5], s[i + 4], s[i + 3], s[i + 2], s[i + 1], s[i])
    else Pack(s[i], s[i + 1], s[i + 2], s[i + 3], s[i + 4], s[i + 5], s[i + 6], s[i + 7])
  }

  lemma SkipWord(s: seq<bv8>, i: nat, little: bool, bit: bool)
    requires i + 8 <= |s|
    ensures Load(s, i, little) == Skip64(bit) <==> forall k :: i <= k < i + 8 ==> s[k] == Skip8(bit)
  {
    RawSkip(s[i], s[i + 1], s[i + 2], s[i + 3], s[i + 4], s[i + 5], s[i + 6], s[i + 7]);
    RawSkip(s[i + 7], s[i + 6], s[i + 5], s[i + 4], s[i + 3], s[i + 2], s[i + 1], s[i]);
    hide Pack;
  }

  /** Eight bytes from `c` on, with zeros beyond the end. */
  ghost function Eight(s: seq<bv8>, c: nat): (bs: seq<bv8>)
    ensures |bs| == 8
  {
    seq(8, j requires 0 <= j < 8 => if c + j < |s| then s[c + j] else 0)
  }

  lemma EightBits(s: seq<bv8>, c: nat, k: nat)
    requires k < 64
    ensures BitAt(Eight(s, c), k) == PaddedBit(s, 8 * c + k)
  {
    assert (8 * c + k) / 8 == c + k / 8 && (8 * c + k) % 8 == k % 8;
    NotInByte(true, 7 - k % 8);
    hide Bit8;
  }

  lemma EightAt(s: seq<bv8>, c: nat, j: nat)
    requires j < 8
    ensures Eight(s, c)[j] == if c + j < |s| then s[c + j] else 0
  {}

  /** The loop that loads the last word. */
  method LoadLast(s: seq<bv8>, from: nat) returns (word: bv64)
    requires from <= |s|
    ensures word == PackSeq(Eight(s, from))
  {
    hide *;
    word := 0;
    var c := from;
    ghost var bs := Eight(s, from);
    BuiltNone(bs);
    BuiltIs(bs);
    assert bs[..8] == bs;
    for j := 0 to 8
      invariant c == (if from + j <= |s| then from + j else |s|) && word == Built(bs[..j])
    {
      BuiltNext(bs, j);
      EightAt(s, from, j);
      if c < |s| {
        word := Append(word, s[c]);
        c := c + 1;
      } else {
        word := Append(word, 0);
      }
    }
  }

  lemma BuiltNone(bs: seq<bv8>)
    ensures Built(bs[..0]) == 0
  {}

  /** Bit `j` is the first of the word that equals `bit`. */
  ghost predicate FirstIn(bs: seq<bv8>, bit: bool, j: nat)
    requires |bs| == 8
  {
    j < 64 && BitAt(bs, j) == bit && NoneBelow(bs, bit, j)
  }

  ghost predicate NoneBelow(bs: seq<bv8>, bit: bool, j: nat)
    requires |bs| == 8 && j <= 64
  {
    forall k :: 0 <= k < j ==> BitAt(bs, k) != bit
  }

  /** The scan of the last word, which holds the bit: the panic after the loop is not reached. */
  method ScanWord(ghost bs: seq<bv8>, word: bv64, bit: bool) returns (j: nat)
    requires |bs| == 8 && word == PackSeq(bs) && exists q :: 0 <= q < 8 && bs[q] != Skip8(bit)
    ensures FirstIn(bs, bit, j)
  {
    Somewhere(bs, bit);
    ghost var last: nat :| last < 64 && BitAt(bs, last) == bit;
    FirstOne();
    hide *;
    var one := Highest();
    j := 0;
    assert NoneBelow(bs, bit, 0) by { NoneYet(bs, bit); }
    while !Zero(one)
      invariant j <= last && one == One(j) && NoneBelow(bs, bit, j)
      decreases 64 - j
    {
      TestBit(bs, j);
      if !Zero(And(one, word)) == bit {
        Found(bs, bit, j);
        return;
      }
      OneNext(j);
      OneMore(bs, bit, j, last);
      j := j + 1;
      one := Half(one);
    }
    OneZero(j);
    assert false;
  }

  lemma NoneYet(bs: seq<bv8>, bit: bool)
    requires |bs| == 8
    ensures NoneBelow(bs, bit, 0)
  {}

  lemma Found(bs: seq<bv8>, bit: bool, j: nat)
    requires |bs| == 8 && j < 64 && BitAt(bs, j) == bit && NoneBelow(bs, bit, j)
    ensures FirstIn(bs, bit, j)
  {}

  lemma OneMore(bs: seq<bv8>, bit: bool, j: nat, last: nat)
    requires |bs| == 8 && j <= last < 64 && BitAt(bs, j) != bit && NoneBelow(bs, bit, j) && BitAt(bs, last) == bit
    ensures NoneBelow(bs, bit, j + 1) && j + 1 <= last
  {
    hide BitAt;
  }

  lemma FirstOne()
    ensures One(0) == Highest()
  {}

  lemma Somewhere(bs: seq<bv8>, bit: bool)
    requires |bs| == 8 && exists q :: 0 <= q < 8 && bs[q] != Skip8(bit)
    ensures exists k :: 0 <= k < 64 && BitAt(bs, k) == bit
  {
    var q :| 0 <= q < 8 && bs[q] != Skip8(bit);
    var i := InByte(bs[q], bit);
    var k := 8 * q + 7 - i;
    assert k / 8 == q && 7 - k % 8 == i;
    assert BitAt(bs, k) == bit;
  }

  predicate Aligned(address: nat) { address % 8 == 0 }

  /** The two loops that skip bytes and words: they stop near the end, or where the next eight bytes hold the bit. */
  method SkipAhead(s: seq<bv8>, address: nat, bit: bool, little: bool) returns (c: nat)
    ensures c <= |s| && Skipped(s, c, bit)
    ensures c + 8 <= |s| ==> exists q :: c <= q < c + 8 && s[q] != Skip8(bit)
  {
    hide Aligned, Load, Skip8, Skip64;
    c := 0;
    while !Aligned(address + c) && c < |s|
      invariant c <= |s| && Skipped(s, c, bit)
    {
      if s[c] != Skip8(bit) { return; }
      c := c + 1;
    }
    while |s| - c >= 8
      invariant c <= |s| && Skipped(s, c, bit)
    {
      SkipWord(s, c, little, bit);
      if Load(s, c, little) != Skip64(bit) { return; }
      c := c + 8;
    }
  }

  /** The last word decides: without a one there is none, and otherwise it holds the bit. */
  lemma LastWord(s: seq<bv8>, c: nat, bit: bool)
    requires c <= |s| && Skipped(s, c, bit)
    requires c + 8 <= |s| ==> exists q :: c <= q < c + 8 && s[q] != Skip8(bit)
    ensures bit && Zero(PackSeq(Eight(s, c))) ==> Skipped(s, |s|, bit)
    ensures !(bit && Zero(PackSeq(Eight(s, c)))) ==> exists q :: 0 <= q < 8 && Eight(s, c)[q] != Skip8(bit)
  {
    var bs := Eight(s, c);
    AllZero(bs);
    hide PackSeq;
    if bit && Zero(PackSeq(bs)) {
      forall k | c <= k < |s| ensures s[k] == Skip8(bit) {
        if k < c + 8 { assert s[k] == bs[k - c]; }
      }
    } else if c + 8 <= |s| {
      var q :| c <= q < c + 8 && s[q] != Skip8(bit);
      assert bs[q - c] != Skip8(bit);
    } else if !bit {
      assert bs[7] != Skip8(bit);
    }
  }

  lemma AllZero(bs: seq<bv8>)
    requires |bs| == 8
    ensures Zero(PackSeq(bs)) <==> forall q :: 0 <= q < 8 ==> bs[q] == 0
  {
    RawSkip(bs[0], bs[1], bs[2], bs[3], bs[4], bs[5], bs[6], bs[7]);
    hide Pack;
  }

  /** From the last word to the whole string. */
  lemma Position(s: seq<bv8>, c: nat, bit: bool, j: nat)
    requires c <= |s| && Skipped(s, c, bit) && FirstIn(Eight(s, c), bit, j)
    ensures PaddedBit(s, 8 * c + j) == bit && forall k :: 0 <= k < 8 * c + j ==> PaddedBit(s, k) != bit
  {
    NotBefore(s, c, bit);
    EightBits(s, c, j);
    hide BitAt, PaddedBit, Eight;
    forall k | 8 * c <= k < 8 * c + j ensures PaddedBit(s, k) != bit {
      assert BitAt(Eight(s, c), k - 8 * c) != bit;
      EightBits(s, c, k - 8 * c);
    }
  }

  lemma BeyondEnd(s: seq<bv8>)
    ensures !PaddedBit(s, 8 * |s|)
  {}

  /** redisBitpos, on a string at any address and a machine of either byte order: the first place of the string,
      padded with zeros, that has the bit; -1 only when a one is sought and there is none. */
  method RedisBitpos(s: seq<bv8>, address: nat, bit: bool, little: bool) returns (pos: int)
    ensures pos >= 0 ==> PaddedBit(s, pos) == bit && forall k :: 0 <= k < pos ==> PaddedBit(s, k) != bit
    ensures pos < 0 ==> pos == -1 && bit && forall k :: 0 <= k < 8 * |s| ==> !PaddedBit(s, k)
    ensures !bit && (forall k :: 0 <= k < 8 * |s| ==> PaddedBit(s, k)) ==> pos == 8 * |s|
  {
    hide *;
    var c := SkipAhead(s, address, bit, little);
    var word := LoadLast(s, c);
    LastWord(s, c, bit);
    if bit && Zero(word) {
      NotBefore(s, |s|, bit);
      return -1;
    }
    var j := ScanWord(Eight(s, c), word, bit);
    Position(s, c, bit, j);
    BeyondEnd(s);
    return 8 * c + j;
  }
}
