/** redisPopcount: seven words at a time are counted side by side in the bytes of one word. */
module Popcount {
  import opened Bits

  // ------------------------------------------------------------------
  // What is counted
  // ------------------------------------------------------------------

  function One(b: bv8, i: nat): nat
    requires i < 8
  {
    if Bit8(b, i) then 1 else 0
  }

  /** The table bitsinbyte: the ones of a byte. */
  function BitsInByte(b: bv8): nat {
    One(b, 0) + One(b, 1) + One(b, 2) + One(b, 3) + One(b, 4) + One(b, 5) + One(b, 6) + One(b, 7)
  }

  function Ones(s: seq<bv8>): nat { if s == [] then 0 else Ones(s[..|s| - 1]) + BitsInByte(s[|s| - 1]) }

  /** The same, bit by bit. */
  ghost function OnesBelow(s: seq<bv8>, k: nat): nat
    requires k <= 8 * |s|
  {
    if k == 0 then 0 else OnesBelow(s, k - 1) + (if BitAt(s, k - 1) then 1 else 0)
  }

  lemma EightBits(s: seq<bv8>, n: nat, k: nat)
    requires n < |s| && k == 8 * n
    ensures OnesBelow(s, k + 8) == OnesBelow(s, k) + BitsInByte(s[n])
  {
    hide OnesBelow, One;
    NextBit(s, n, 0, k); NextBit(s, n, 1, k + 1); NextBit(s, n, 2, k + 2); NextBit(s, n, 3, k + 3);
    NextBit(s, n, 4, k + 4); NextBit(s, n, 5, k + 5); NextBit(s, n, 6, k + 6); NextBit(s, n, 7, k + 7);
  }

  lemma NextBit(s: seq<bv8>, n: nat, i: nat, k: nat)
    requires n < |s| && i < 8 && k == 8 * n + i
    ensures OnesBelow(s, k + 1) == OnesBelow(s, k) + One(s[n], 7 - i)
  {
    BitIs(s, n, i);
    hide BitAt, Bit8;
  }

  lemma BitIs(s: seq<bv8>, n: nat, i: nat)
    requires n < |s| && i < 8
    ensures BitAt(s, 8 * n + i) == Bit8(s[n], 7 - i)
  {
    hide Bit8;
  }

  lemma {:induction false} OnesAreBits(s: seq<bv8>, n: nat)
    requires n <= |s|
    ensures Ones(s[..n]) == OnesBelow(s, 8 * n)
  {
    hide BitsInByte, BitAt;
    if n > 0 {
      OnesAreBits(s, n - 1);
      EightBits(s, n - 1, 8 * (n - 1));
      assert s[..n][..n - 1] == s[..n - 1];
    }
  }

  lemma {:induction false} OnesConcat(a: seq<bv8>, b: seq<bv8>)
    ensures Ones(a + b) == Ones(a) + Ones(b)
  {
    hide BitsInByte;
    if b == [] {
      assert a + b == a;
    } else {
      assert (a + b)[..|a + b| - 1] == a + b[..|b| - 1];
      OnesConcat(a, b[..|b| - 1]);
    }
  }

  // ------------------------------------------------------------------
  // Words
  // ------------------------------------------------------------------

  function Pack(a: bv8, b: bv8, c: bv8, d: bv8): bv32 {
    ((a as bv32) << 24) | ((b as bv32) << 16) | ((c as bv32) << 8) | (d as bv32)
  }

  /** The word at four bytes, on a machine of either byte order. */
  function Load(s: seq<bv8>, i: nat, little: bool): bv32
    requires i + 4 <= |s|
  {
    if little then Pack(s[i + 3], s[i + 2], s[i + 1], s[i]) else Pack(s[i], s[i + 1], s[i + 2], s[i + 3])
  }

  /** Pairs of bits, then groups of four, then bytes are replaced by the number of their ones. */
  function Pairs(x: bv32): bv32 { x - ((x >> 1) & 0x55555555) }

  function Fours(x: bv32): bv32 { (x & 0x33333333) + ((x >> 2) & 0x33333333) }

  function Bytes(x: bv32): bv32 { (x + (x >> 4)) & 0x0F0F0F0F }

  function Count(x: bv32): bv32 { Bytes(Fours(Pairs(x))) }

  /** The same within one byte. */
  function Pairs8(x: bv8): bv8 { x - ((x >> 1) & 0x55) }

  function Fours8(x: bv8): bv8 { (x & 0x33) + ((x >> 2) & 0x33) }

  function Byte8(x: bv8): bv8 { (x + (x >> 4)) & 0x0F }

  function Count8(x: bv8): bv8 { Byte8(Fours8(Pairs8(x))) }

  lemma PairsApart(a: bv8, b: bv8, c: bv8, d: bv8)
    ensures Pairs(Pack(a, b, c, d)) == Pack(Pairs8(a), Pairs8(b), Pairs8(c), Pairs8(d))
  {}

  lemma FoursApart(a: bv8, b: bv8, c: bv8, d: bv8)
    ensures Fours(Pack(a, b, c, d)) == Pack(Fours8(a), Fours8(b), Fours8(c), Fours8(d))
  {}

  /** Both halves of the byte are at most 4. */
  ghost predicate Halves(a: bv8) { a & 0x0F <= 4 && a >> 4 <= 4 }

  lemma BytesApart(a: bv8, b: bv8, c: bv8, d: bv8)
    requires Halves(a) && Halves(b) && Halves(c) && Halves(d)
    ensures Bytes(Pack(a, b, c, d)) == Pack(Byte8(a), Byte8(b), Byte8(c), Byte8(d))
  {}

  lemma FoursSmall(a: bv8)
    ensures Halves(Fours8(Pairs8(a))) && Count8(a) <= 8
  {}

  /** The bytes of a word are counted independently. */
  lemma CountApart(a: bv8, b: bv8, c: bv8, d: bv8)
    ensures Count(Pack(a, b, c, d)) == Pack(Count8(a), Count8(b), Count8(c), Count8(d))
  {
    PairsApart(a, b, c, d);
    FoursApart(Pairs8(a), Pairs8(b), Pairs8(c), Pairs8(d));
    FoursSmall(a); FoursSmall(b); FoursSmall(c); FoursSmall(d);
    BytesApart(Fours8(Pairs8(a)), Fours8(Pairs8(b)), Fours8(Pairs8(c)), Fours8(Pairs8(d)));
    hide *;
  }

  // ------------------------------------------------------------------
  // Arithmetic of words
  // ------------------------------------------------------------------

  function Num(t: bv8): nat { t as int }

  function NumOf(x: bv32): nat { x as int }

  function Plus(a: bv8, b: bv8): bv8 { a + b }

  function PlusWord(x: bv32, y: bv32): bv32 { x + y }

  /** The multiplication and the shift at the end of the loop body. */
  function TopByte(x: bv32): bv32 { (x * 0x01010101) >> 24 }

  function Sum(a: bv8, b: bv8, c: bv8, d: bv8): bv8 { Plus(Plus(Plus(a, b), c), d) }

  predicate AtMost(a: bv8, n: bv8) { a <= n }

  /** Counts of up to seven words do not run over the bytes they are kept in. */
  lemma PackAdd(a: bv8, b: bv8, c: bv8, d: bv8, e: bv8, f: bv8, g: bv8, h: bv8)
    requires AtMost(a, 48) && AtMost(b, 48) && AtMost(c, 48) && AtMost(d, 48)
    requires AtMost(e, 8) && AtMost(f, 8) && AtMost(g, 8) && AtMost(h, 8)
    ensures PlusWord(Pack(a, b, c, d), Pack(e, f, g, h)) == Pack(Plus(a, e), Plus(b, f), Plus(c, g), Plus(d, h))
  {}

  function Up(x: bv32, n: bv8): bv32 { if n == 1 then x << 8 else if n == 2 then x << 16 else x << 24 }

  function Down(x: bv32): bv32 { x >> 24 }

  lemma Times(x: bv32, y: bv32)
    requires y == x + (x << 8) + (x << 16) + (x << 24)
    ensures (x * 0x01010101) >> 24 == y >> 24
  {}

  lemma UpIs(x: bv32)
    ensures Up(x, 1) == x << 8 && Up(x, 2) == x << 16 && Up(x, 3) == x << 24
  {}

  lemma TwoTerms(x: bv32)
    ensures PlusWord(x, x << 8) == x + (x << 8)
  {}

  lemma ThreeTerms(x: bv32)
    ensures PlusWord(x + (x << 8), x << 16) == x + (x << 8) + (x << 16)
  {}

  lemma FourTerms(x: bv32)
    ensures PlusWord(x + (x << 8) + (x << 16), x << 24) == x + (x << 8) + (x << 16) + (x << 24)
  {}

  lemma SumIs(x: bv32)
    ensures PlusWord(PlusWord(PlusWord(x, Up(x, 1)), Up(x, 2)), Up(x, 3)) == x + (x << 8) + (x << 16) + (x << 24)
  {
    hide *;
    UpIs(x);
    TwoTerms(x);
    ThreeTerms(x);
    FourTerms(x);
  }

  lemma TopIs(x: bv32, y: bv32)
    requires (x * 0x01010101) >> 24 == y >> 24
    ensures TopByte(x) == Down(y)
  {}

  lemma TopByteIs(x: bv32)
    ensures TopByte(x) == Down(PlusWord(PlusWord(PlusWord(x, Up(x, 1)), Up(x, 2)), Up(x, 3)))
  {
    hide *;
    var y := PlusWord(PlusWord(PlusWord(x, Up(x, 1)), Up(x, 2)), Up(x, 3));
    SumIs(x);
    Times(x, y);
    TopIs(x, y);
  }

  lemma Shifted(a: bv8, b: bv8, c: bv8, d: bv8)
    ensures Up(Pack(a, b, c, d), 1) == Pack(b, c, d, 0)
    ensures Up(Pack(a, b, c, d), 2) == Pack(c, d, 0, 0)
    ensures Up(Pack(a, b, c, d), 3) == Pack(d, 0, 0, 0)
    ensures Down(Pack(a, b, c, d)) == a as bv32
  {}

  lemma AddWide(a: bv8, b: bv8, c: bv8, d: bv8, e: bv8, f: bv8, g: bv8, h: bv8)
    requires AtMost(b, 168) && AtMost(c, 168) && AtMost(d, 168) && AtMost(f, 56) && AtMost(g, 56) && AtMost(h, 56)
    ensures PlusWord(Pack(a, b, c, d), Pack(e, f, g, h)) == Pack(Plus(a, e), Plus(b, f), Plus(c, g), Plus(d, h))
  {}

  lemma AtMostTwo(a: bv8, b: bv8, c: bv8)
    requires AtMost(a, 56) && AtMost(b, 56) && AtMost(c, 56)
    ensures AtMost(a, 168) && AtMost(Plus(a, b), 168) && AtMost(Plus(Plus(a, b), c), 168) && AtMost(0, 56)
    ensures Plus(a, 0) == a && Plus(Plus(a, b), 0) == Plus(a, b)
  {}

  /** The multiplication adds the four bytes into the highest one: at most 224, so nothing is lost. */
  lemma PackSum(a: bv8, b: bv8, c: bv8, d: bv8)
    requires AtMost(a, 56) && AtMost(b, 56) && AtMost(c, 56) && AtMost(d, 56)
    ensures TopByte(Pack(a, b, c, d)) == Sum(a, b, c, d) as bv32
  {
    hide Pack, Plus, PlusWord, Up, Down, AtMost, TopByte;
    TopByteIs(Pack(a, b, c, d));
    Shifted(a, b, c, d);
    AtMostTwo(a, b, c); AtMostTwo(b, c, d); AtMostTwo(c, d, a); AtMostTwo(d, a, b);
    AddWide(a, b, c, d, b, c, d, 0);
    AddWide(Plus(a, b), Plus(b, c), Plus(c, d), d, c, d, 0, 0);
    AddWide(Plus(Plus(a, b), c), Plus(Plus(b, c), d), Plus(c, d), d, d, 0, 0, 0);
    var x, y, z := Plus(Plus(Plus(b, c), d), 0), Plus(Plus(c, d), 0), Plus(d, 0);
    Shifted(Sum(a, b, c, d), x, y, z);
  }

  lemma SumEither(a: bv8, b: bv8, c: bv8, d: bv8)
    ensures Sum(a, b, c, d) == Sum(d, c, b, a)
  {
    hide Plus;
    Commute(a, b);
    Assoc(b, a, c); Commute(a, c); Assoc(b, c, a); Commute(b, c);
    Assoc(Plus(c, b), a, d); Commute(a, d);
    Assoc(Plus(c, b), d, a); Commute(Plus(c, b), d); Assoc(d, c, b);
  }

  lemma Assoc(a: bv8, b: bv8, c: bv8)
    ensures Plus(Plus(a, b), c) == Plus(a, Plus(b, c))
  {
    PlusLeft(a, b, c);
    PlusRight(a, b, c);
    hide Plus;
  }

  lemma PlusLeft(a: bv8, b: bv8, c: bv8)
    ensures Plus(Plus(a, b), c) == a + b + c
  {
    calc {
      Plus(Plus(a, b), c);
      Plus(a + b, c);
      a + b + c;
    }
  }

  lemma PlusRight(a: bv8, b: bv8, c: bv8)
    ensures Plus(a, Plus(b, c)) == a + (b + c)
  {
    calc {
      Plus(a, Plus(b, c));
      Plus(a, b + c);
      a + (b + c);
    }
  }

  lemma Commute(a: bv8, b: bv8)
    ensures Plus(a, b) == Plus(b, a)
  {}

  lemma Medial(a: bv8, b: bv8, e: bv8, f: bv8)
    ensures Plus(Plus(a, e), Plus(b, f)) == Plus(Plus(a, b), Plus(e, f))
  {
    hide Plus;
    Assoc(a, e, Plus(b, f));
    Assoc(e, b, f);
    Commute(e, b);
    Assoc(b, e, f);
    Assoc(a, b, Plus(e, f));
  }

  lemma Extend(t: bv8)
    ensures NumOf(t as bv32) == Num(t)
  {}

  lemma AddSmall(a: bv8, b: bv8)
    requires a <= 216 && b <= 8
    ensures (a + b) as int == a as int + b as int
  {}

  lemma Bound(t: bv8)
    ensures t as int <= 216 ==> t <= 216
  {}

  lemma PlusNum(a: bv8, b: bv8)
    requires Num(a) <= 216 && AtMost(b, 8)
    ensures Num(Plus(a, b)) == Num(a) + Num(b)
  {
    Bound(a);
    AddSmall(a, b);
  }

  lemma PlusAtMost(a: bv8, c: bv8, n: bv8)
    requires n <= 48 && AtMost(a, n) && AtMost(c, 8)
    ensures AtMost(Plus(a, c), n + 8)
  {}

  lemma Shuffle(a: bv8, b: bv8, c: bv8, d: bv8, e: bv8, f: bv8, g: bv8, h: bv8)
    ensures Sum(Plus(a, e), Plus(b, f), Plus(c, g), Plus(d, h)) == Plus(Plus(Plus(Plus(Sum(a, b, c, d), e), f), g), h)
  {
    hide Plus;
    var t := Sum(a, b, c, d);
    Medial(a, b, e, f);
    Medial(Plus(a, b), c, Plus(e, f), g);
    Medial(Plus(Plus(a, b), c), d, Plus(Plus(e, f), g), h);
    Assoc(t, Plus(Plus(e, f), g), h);
    Assoc(t, Plus(e, f), g);
    Assoc(t, e, f);
  }

  lemma AddFour(t: bv8, e: bv8, f: bv8, g: bv8, h: bv8)
    requires Num(t) <= 192 && AtMost(e, 8) && AtMost(f, 8) && AtMost(g, 8) && AtMost(h, 8)
    requires Num(e) <= 8 && Num(f) <= 8 && Num(g) <= 8 && Num(h) <= 8
    ensures Num(Plus(Plus(Plus(Plus(t, e), f), g), h)) == Num(t) + Num(e) + Num(f) + Num(g) + Num(h)
  {
    hide *;
    PlusNum(t, e);
    PlusNum(Plus(t, e), f);
    PlusNum(Plus(Plus(t, e), f), g);
    PlusNum(Plus(Plus(Plus(t, e), f), g), h);
  }

  // ------------------------------------------------------------------
  // The count of a byte
  // ------------------------------------------------------------------

  function Low(b: bv8, i: nat): bv8
    requires i < 8
  {
    if Bit8(b, i) then 1 else 0
  }

  lemma LowIs(b: bv8, i: nat)
    requires i < 8
    ensures Num(Low(b, i)) == One(b, i) && AtMost(Low(b, i), 8)
  {
    hide Bit8;
  }

  /** Adds the bits from `i` to `i + 3`. */
  lemma FourBits(b: bv8, i: nat, c: bv8)
    requires i <= 4 && Num(c) <= 4
    ensures Num(Plus(Plus(Plus(Plus(c, Low(b, i)), Low(b, i + 1)), Low(b, i + 2)), Low(b, i + 3)))
         == Num(c) + One(b, i) + One(b, i + 1) + One(b, i + 2) + One(b, i + 3)
  {
    hide One, Low, Plus, Num, AtMost;
    LowIs(b, i); LowIs(b, i + 1); LowIs(b, i + 2); LowIs(b, i + 3);
    OneSmall(b, i); OneSmall(b, i + 1); OneSmall(b, i + 2); OneSmall(b, i + 3);
    AddFour(c, Low(b, i), Low(b, i + 1), Low(b, i + 2), Low(b, i + 3));
  }

  /** The count within a byte is what the table says. */
  lemma CountIsTable(b: bv8)
    ensures Num(Count8(b)) == BitsInByte(b)
  {
    hide One, Low, Plus, Num, AtMost, Count8;
    var c := Plus(Plus(Plus(Plus(0, Low(b, 0)), Low(b, 1)), Low(b, 2)), Low(b, 3));
    Zero();
    FourBits(b, 0, 0);
    OneSmall(b, 0); OneSmall(b, 1); OneSmall(b, 2); OneSmall(b, 3);
    FourBits(b, 4, c);
    CountIsPlus(b);
  }

  lemma Zero()
    ensures Num(0) == 0
  {}

  lemma CountIsPlus(b: bv8)
    ensures Count8(b) == Plus(Plus(Plus(Plus(Plus(Plus(Plus(Plus(0, Low(b, 0)), Low(b, 1)), Low(b, 2)), Low(b, 3)),
                                             Low(b, 4)), Low(b, 5)), Low(b, 6)), Low(b, 7))
  {
    LowBits(b);
    CountBits(b);
    hide Count8, Low;
  }

  lemma LowBits(b: bv8)
    ensures Low(b, 0) == b & 1 && Low(b, 1) == (b >> 1) & 1 && Low(b, 2) == (b >> 2) & 1 && Low(b, 3) == (b >> 3) & 1
    ensures Low(b, 4) == (b >> 4) & 1 && Low(b, 5) == (b >> 5) & 1
    ensures Low(b, 6) == (b >> 6) & 1 && Low(b, 7) == (b >> 7) & 1
  {}

  lemma CountBits(b: bv8)
    ensures Count8(b) == Plus(Plus(Plus(Plus(Plus(Plus(Plus(Plus(0, b & 1), (b >> 1) & 1), (b >> 2) & 1), (b >> 3) & 1),
                                             (b >> 4) & 1), (b >> 5) & 1), (b >> 6) & 1), (b >> 7) & 1)
  {}

  lemma OneSmall(b: bv8, i: nat)
    requires i < 8
    ensures One(b, i) <= 1
  {}

  lemma CountSmall(b: bv8)
    ensures AtMost(Count8(b), 8) && Num(Count8(b)) == BitsInByte(b) <= 8
  {
    FoursSmall(b);
    CountIsTable(b);
    OneSmall(b, 0); OneSmall(b, 1); OneSmall(b, 2); OneSmall(b, 3);
    OneSmall(b, 4); OneSmall(b, 5); OneSmall(b, 6); OneSmall(b, 7);
    hide One, Num, Count8;
  }

  // ------------------------------------------------------------------
  // Seven words
  // ------------------------------------------------------------------

  /** The count of byte `k` of the first `w` words, kept in one byte. */
  function Column(s: seq<bv8>, i: nat, w: nat, k: nat): bv8
    requires k < 4 && i + 4 * w <= |s|
  {
    if w == 0 then 0 else Plus(Column(s, i, w - 1, k), Count8(s[i + 4 * (w - 1) + k]))
  }

  function Words(s: seq<bv8>, i: nat, w: nat, little: bool): bv32
    requires i + 4 * w <= |s|
  {
    if w == 0 then 0 else PlusWord(Words(s, i, w - 1, little), Count(Load(s, i + 4 * (w - 1), little)))
  }

  function Eight(w: nat): bv8 {
    match w case 0 => 0 case 1 => 8 case 2 => 16 case 3 => 24 case 4 => 32 case 5 => 40 case 6 => 48 case _ => 56
  }

  lemma {:induction false} ColumnBound(s: seq<bv8>, i: nat, w: nat, k: nat)
    requires k < 4 && w <= 7 && i + 4 * w <= |s|
    ensures AtMost(Column(s, i, w, k), Eight(w))
  {
    if w > 0 {
      ColumnBound(s, i, w - 1, k);
      CountSmall(s[i + 4 * (w - 1) + k]);
      hide Count8, Plus, AtMost;
      PlusAtMost(Column(s, i, w - 1, k), Count8(s[i + 4 * (w - 1) + k]), Eight(w - 1));
    }
  }

  lemma Below48(s: seq<bv8>, i: nat, w: nat)
    requires w <= 6 && i + 4 * w <= |s|
    ensures forall k :: 0 <= k < 4 ==> AtMost(Column(s, i, w, k), 48)
  {
    forall k | 0 <= k < 4 ensures AtMost(Column(s, i, w, k), 48) { ColumnBound(s, i, w, k); }
  }

  ghost function Columns(s: seq<bv8>, i: nat, w: nat, little: bool): bv32
    requires i + 4 * w <= |s|
  {
    if little then Pack(Column(s, i, w, 3), Column(s, i, w, 2), Column(s, i, w, 1), Column(s, i, w, 0))
    else Pack(Column(s, i, w, 0), Column(s, i, w, 1), Column(s, i, w, 2), Column(s, i, w, 3))
  }

  lemma NoColumns(s: seq<bv8>, i: nat, little: bool)
    requires i <= |s|
    ensures Columns(s, i, 0, little) == 0
  {}

  /** The sum of up to seven counted words is the four columns side by side. */
  lemma {:induction false} WordsAreColumns(s: seq<bv8>, i: nat, w: nat, little: bool)
    requires w <= 7 && i + 4 * w <= |s|
    ensures Words(s, i, w, little) == Columns(s, i, w, little)
  {
    hide Pack, Count8, Count, Plus, PlusWord, AtMost;
    if w == 0 {
      NoColumns(s, i, little);
    } else {
      var j := i + 4 * (w - 1);
      WordsAreColumns(s, i, w - 1, little);
      Below48(s, i, w - 1);
      CountSmall(s[j]); CountSmall(s[j + 1]); CountSmall(s[j + 2]); CountSmall(s[j + 3]);
      if little {
        CountApart(s[j + 3], s[j + 2], s[j + 1], s[j]);
        PackAdd(Column(s, i, w - 1, 3), Column(s, i, w - 1, 2), Column(s, i, w - 1, 1), Column(s, i, w - 1, 0),
                Count8(s[j + 3]), Count8(s[j + 2]), Count8(s[j + 1]), Count8(s[j]));
      } else {
        CountApart(s[j], s[j + 1], s[j + 2], s[j + 3]);
        PackAdd(Column(s, i, w - 1, 0), Column(s, i, w - 1, 1), Column(s, i, w - 1, 2), Column(s, i, w - 1, 3),
                Count8(s[j]), Count8(s[j + 1]), Count8(s[j + 2]), Count8(s[j + 3]));
      }
    }
  }

  function Total(s: seq<bv8>, i: nat, w: nat): bv8
    requires i + 4 * w <= |s|
  {
    Sum(Column(s, i, w, 0), Column(s, i, w, 1), Column(s, i, w, 2), Column(s, i, w, 3))
  }

  lemma TotalNone(s: seq<bv8>, i: nat)
    requires i <= |s|
    ensures Num(Total(s, i, 0)) == 0
  {}

  lemma {:induction false} TotalIsOnes(s: seq<bv8>, i: nat, w: nat)
    requires w <= 7 && i + 4 * w <= |s|
    ensures Num(Total(s, i, w)) == Ones(s[i..i + 4 * w]) <= 32 * w
  {
    hide Count8, Plus, Sum, AtMost, Num, BitsInByte;
    if w == 0 {
      assert s[i..i] == [];
      TotalNone(s, i);
    } else {
      var j := i + 4 * (w - 1);
      TotalIsOnes(s, i, w - 1);
      var e, f, g, h := Count8(s[j]), Count8(s[j + 1]), Count8(s[j + 2]), Count8(s[j + 3]);
      CountSmall(s[j]); CountSmall(s[j + 1]); CountSmall(s[j + 2]); CountSmall(s[j + 3]);
      OnesOfFour(s, i, j);
      Shuffle(Column(s, i, w - 1, 0), Column(s, i, w - 1, 1), Column(s, i, w - 1, 2), Column(s, i, w - 1, 3),
              e, f, g, h);
      AddFour(Total(s, i, w - 1), e, f, g, h);
    }
  }

  lemma OnesOfFour(s: seq<bv8>, i: nat, j: nat)
    requires i <= j && j + 4 <= |s|
    ensures Ones(s[i..j + 4])
         == Ones(s[i..j]) + BitsInByte(s[j]) + BitsInByte(s[j + 1]) + BitsInByte(s[j + 2]) + BitsInByte(s[j + 3])
  {
    hide BitsInByte;
    NextByte(s, i, j); NextByte(s, i, j + 1); NextByte(s, i, j + 2); NextByte(s, i, j + 3);
  }

  lemma NextByte(s: seq<bv8>, i: nat, j: nat)
    requires i <= j < |s|
    ensures Ones(s[i..j + 1]) == Ones(s[i..j]) + BitsInByte(s[j])
  {
    hide BitsInByte;
    assert s[i..j + 1][..j - i] == s[i..j];
  }

  /** The expression of the loop body is the number of ones of its 28 bytes. */
  lemma SevenWords(s: seq<bv8>, i: nat, little: bool)
    requires i + 28 <= |s|
    ensures NumOf(TopByte(Words(s, i, 7, little))) == Ones(s[i..i + 28])
  {
    hide Pack, Plus, Sum, AtMost, Num, NumOf, TopByte, Words, Column;
    WordsAreColumns(s, i, 7, little);
    ColumnBound(s, i, 7, 0); ColumnBound(s, i, 7, 1); ColumnBound(s, i, 7, 2); ColumnBound(s, i, 7, 3);
    var a, b, c, d := Column(s, i, 7, 0), Column(s, i, 7, 1), Column(s, i, 7, 2), Column(s, i, 7, 3);
    PackSum(a, b, c, d);
    PackSum(d, c, b, a);
    SumEither(a, b, c, d);
    TotalIsOnes(s, i, 7);
    Extend(Total(s, i, 7));
  }

  lemma WordsNext(s: seq<bv8>, i: nat, w: nat, little: bool)
    requires i + 4 * w + 4 <= |s|
    ensures Words(s, i, w + 1, little) == PlusWord(Words(s, i, w, little), Count(Load(s, i + 4 * w, little)))
  {}

  lemma FirstWord(s: seq<bv8>, i: nat, little: bool)
    requires i + 4 <= |s|
    ensures Words(s, i, 1, little) == Count(Load(s, i, little))
  {
    NoWord(Count(Load(s, i, little)));
    hide PlusWord, Count, Load;
  }

  lemma NoWord(x: bv32)
    ensures PlusWord(0, x) == x
  {}

  /** One turn of the loop over 28 bytes. */
  method CountSeven(s: seq<bv8>, i: nat, little: bool) returns (n: nat)
    requires i + 28 <= |s|
    ensures n == Ones(s[i..i + 28])
  {
    hide Count, PlusWord, TopByte, NumOf, Load, Words;
    FirstWord(s, i, little);
    WordsNext(s, i, 1, little); WordsNext(s, i, 2, little); WordsNext(s, i, 3, little);
    WordsNext(s, i, 4, little); WordsNext(s, i, 5, little); WordsNext(s, i, 6, little);
    SevenWords(s, i, little);
    var aux1 := Count(Load(s, i, little));
    var aux2 := Count(Load(s, i + 4, little));
    var aux3 := Count(Load(s, i + 8, little));
    var aux4 := Count(Load(s, i + 12, little));
    var aux5 := Count(Load(s, i + 16, little));
    var aux6 := Count(Load(s, i + 20, little));
    var aux7 := Count(Load(s, i + 24, little));
    var sum := PlusWord(PlusWord(PlusWord(PlusWord(PlusWord(PlusWord(aux1, aux2), aux3), aux4), aux5), aux6), aux7);
    n := NumOf(TopByte(sum));
  }

  lemma NextPrefix(s: seq<bv8>, p: nat)
    requires p < |s|
    ensures Ones(s[..p + 1]) == Ones(s[..p]) + BitsInByte(s[p])
  {
    hide BitsInByte;
    assert s[..p + 1][..p] == s[..p];
  }

  lemma NextBlock(s: seq<bv8>, p: nat)
    requires p + 28 <= |s|
    ensures Ones(s[..p + 28]) == Ones(s[..p]) + Ones(s[p..p + 28])
  {
    assert s[..p + 28] == s[..p] + s[p..p + 28];
    OnesConcat(s[..p], s[p..p + 28]);
  }

  predicate Aligned(address: nat) { address % 4 == 0 }

  /** The loop over single bytes, up to `end` or the first aligned address. */
  method CountBytes(s: seq<bv8>, from: nat, end: nat, address: nat, toWord: bool) returns (p: nat, bits: nat)
    requires from <= end <= |s|
    ensures from <= p <= end && bits + Ones(s[..from]) == Ones(s[..p])
    ensures p == end || (toWord && Aligned(address + p))
  {
    hide BitsInByte, Ones, Aligned;
    p, bits := from, 0;
    while p < end && !(toWord && Aligned(address + p))
      invariant from <= p <= end && bits + Ones(s[..from]) == Ones(s[..p])
    {
      NextPrefix(s, p);
      bits := bits + BitsInByte(s[p]);
      p := p + 1;
    }
  }

  /** redisPopcount, on a string at any address and a machine of either byte order. */
  method RedisPopcount(s: seq<bv8>, address: nat, little: bool) returns (bits: nat)
    ensures bits == Ones(s) == OnesBelow(s, 8 * |s|)
  {
    OnesAreBits(s, |s|);
    assert s[..0] == [] && s[..|s|] == s && Ones([]) == 0;
    hide *;
    var p;
    p, bits := CountBytes(s, 0, |s|, address, true);
    while |s| - p >= 28
      invariant p <= |s| && bits == Ones(s[..p])
    {
      var n := CountSeven(s, p, little);
      NextBlock(s, p);
      bits := bits + n;
      p := p + 28;
    }
    var end, rest := CountBytes(s, p, |s|, address, false);
    bits := bits + rest;
  }
}
