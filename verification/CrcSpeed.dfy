/** The slice-by-8 tables and loops of crcspeed.c, on either byte order. */
module CrcSpeed {
  import opened CrcBits

  // ------------------------------------------------------------------
  // Byte steps, iterated
  // ------------------------------------------------------------------

  /** `n` byte steps with no further data. */
  function Steps(x: bv64, n: nat): bv64
    decreases n
  {
    if n == 0 then x else Steps(Lsb8(x), n - 1)
  }

  lemma {:induction false} StepsLinear(a: bv64, b: bv64, n: nat)
    ensures Steps(Xor(a, b), n) == Xor(Steps(a, n), Steps(b, n))
    decreases n
  {
    if n > 0 {
      Linear8(a, b);
      StepsLinear(Lsb8(a), Lsb8(b), n - 1);
    }
  }

  lemma {:induction false} StepLast(x: bv64, n: nat)
    ensures Steps(x, n + 1) == Lsb8(Steps(x, n))
    decreases n
  {
    if n > 0 {
      StepLast(Lsb8(x), n - 1);
    }
  }

  lemma ByteSplit(x: bv64)
    ensures x == Xor(x & 0xff, (x >> 8) << 8)
  {}

  function Up8(y: bv64): bv64 { y << 8 }

  /** A byte step only moves the high bytes down. */
  lemma HighBytes(y: bv64)
    requires y & 0xff00000000000000 == 0
    ensures Lsb8(Up8(y)) == y
  {}

  lemma HighPart(x: bv64)
    ensures Lsb8((x >> 8) << 8) == x >> 8
  {}

  /** The table recurrence: a byte step is a lookup on the low byte and a shift. */
  lemma ByteStep(x: bv64)
    ensures Lsb8(x) == Xor(Lsb8(x & 0xff), x >> 8)
  {
    ByteSplit(x);
    Linear8(x & 0xff, (x >> 8) << 8);
    HighPart(x);
  }

  // ------------------------------------------------------------------
  // Eight bytes at once
  // ------------------------------------------------------------------

  /** The value of the first bytes of memory read as a little-endian word. */
  function LoadLittle(s: seq<bv8>): bv64 {
    if s == [] then 0 else Xor(s[0] as bv64, Up8(LoadLittle(s[1..])))
  }

  function NextMask(m: bv64): bv64 { (m << 8) | 0xff }

  /** The bits that `n` bytes can occupy. */
  function LowBytes(n: nat): bv64 {
    if n == 0 then 0 else NextMask(LowBytes(n - 1))
  }

  predicate Fits(y: bv64, m: bv64) { y & !m == 0 }

  lemma FitsNext(b: bv8, y: bv64, m: bv64)
    requires Fits(y, m)
    ensures Fits(Xor(b as bv64, Up8(y)), NextMask(m))
  {}

  lemma {:induction false} LoadFits(s: seq<bv8>)
    ensures Fits(LoadLittle(s), LowBytes(|s|))
  {
    if s != [] {
      LoadFits(s[1..]);
      FitsNext(s[0], LoadLittle(s[1..]), LowBytes(|s| - 1));
    }
  }

  lemma SevenBytes(n: nat)
    requires n <= 7
    ensures LowBytes(n) & 0xff00000000000000 == 0
  {
    assert LowBytes(1) == 0xff;
    assert LowBytes(2) == 0xffff;
    assert LowBytes(3) == 0xffffff;
    assert LowBytes(4) == 0xffffffff;
    assert LowBytes(5) == 0xffffffffff;
    assert LowBytes(6) == 0xffffffffffff;
    assert LowBytes(7) == 0xffffffffffffff;
  }

  lemma FitsBelow(y: bv64, m: bv64)
    requires Fits(y, m) && m & 0xff00000000000000 == 0
    ensures Lsb8(Up8(y)) == y
  {
    HighBytes(y);
  }

  lemma SevenBytesMoveDown(s: seq<bv8>, y: bv64)
    requires |s| <= 7 && y == LoadLittle(s)
    ensures Lsb8(Up8(y)) == y
  {
    var m := LowBytes(|s|);
    assert Fits(y, m) by { LoadFits(s); }
    assert m & 0xff00000000000000 == 0 by { SevenBytes(|s|); }
    FitsBelow(y, m);
  }

  lemma FirstByte(c: bv64, s: seq<bv8>)
    requires s != []
    ensures LsbBytes(c, s) == LsbBytes(Lsb8(Xor(c, s[0] as bv64)), s[1..])
  {
    assert s == s[..1] + s[1..];
    Pieces(c, s[..1], s[1..]);
    assert s[..1][..0] == [];
    assert LsbBytes(c, s[..1]) == Lsb8(Xor(c, s[0] as bv64));
  }

  lemma AbsorbByte(c: bv64, b: bv64, y: bv64)
    requires Lsb8(Up8(y)) == y
    ensures Lsb8(Xor(c, Xor(b, Up8(y)))) == Xor(Lsb8(Xor(c, b)), y)
  {
    XorAssoc(c, b, Up8(y));
    Linear8(Xor(c, b), Up8(y));
  }

  lemma FoldStep(c: bv64, b: bv64, y: bv64, n: nat)
    requires Lsb8(Up8(y)) == y
    ensures Steps(Xor(Lsb8(Xor(c, b)), y), n) == Steps(Xor(c, Xor(b, Up8(y))), n + 1)
  {
    AbsorbByte(c, b, y);
  }

  /** Up to eight bytes may be folded into the register first and stepped over afterwards. */
  lemma {:induction false} FoldWord(c: bv64, s: seq<bv8>, w: bv64)
    requires |s| <= 8 && w == LoadLittle(s)
    ensures LsbBytes(c, s) == Steps(Xor(c, w), |s|)
    decreases |s|
  {
    if s == [] {
      XorUnit(c);
    } else {
      var b, y := s[0] as bv64, LoadLittle(s[1..]);
      FirstByte(c, s);
      FoldWord(Lsb8(Xor(c, b)), s[1..], y);
      SevenBytesMoveDown(s[1..], y);
      FoldStep(c, b, y, |s| - 1);
    }
  }

  /** The sum of the table entries selected by the low `n` bytes of `x`. */
  function Slices(x: bv64, n: nat): bv64
    decreases n
  {
    if n == 0 then x else Xor(Steps(x & 0xff, n), Slices(x >> 8, n - 1))
  }

  lemma {:induction false} StepsAreSlices(x: bv64, n: nat)
    ensures Steps(x, n) == Slices(x, n)
    decreases n
  {
    if n > 0 {
      ByteSplit(x);
      StepsLinear(x & 0xff, (x >> 8) << 8, n);
      HighPart(x);
      StepsAreSlices(x >> 8, n - 1);
    }
  }

  /** The entry of table `k` for byte `b` of the word, as the loops index it. */
  function Entry(k: nat, b: bv64): bv64 { Steps(b & 0xff, k + 1) }

  lemma ShiftByBytes(x: bv64)
    ensures (x >> 8) >> 8 == x >> 16 && (x >> 16) >> 8 == x >> 24 && (x >> 24) >> 8 == x >> 32
    ensures (x >> 32) >> 8 == x >> 40 && (x >> 40) >> 8 == x >> 48 && (x >> 48) >> 8 == x >> 56
    ensures (x >> 56) >> 8 == 0
  {}

  lemma EightSlices(x: bv64)
    ensures Slices(x, 8)
         == Xor(Entry(7, x), Xor(Entry(6, x >> 8), Xor(Entry(5, x >> 16), Xor(Entry(4, x >> 24),
            Xor(Entry(3, x >> 32), Xor(Entry(2, x >> 40), Xor(Entry(1, x >> 48), Entry(0, x >> 56))))))))
  {
    hide Lsb8, Xor;
    ShiftByBytes(x);
    assert Slices(x >> 56, 1) == Entry(0, x >> 56) by { XorUnit(Entry(0, x >> 56)); }
    assert Slices(x >> 48, 2) == Xor(Entry(1, x >> 48), Slices(x >> 56, 1));
    assert Slices(x >> 40, 3) == Xor(Entry(2, x >> 40), Slices(x >> 48, 2));
    assert Slices(x >> 32, 4) == Xor(Entry(3, x >> 32), Slices(x >> 40, 3));
    assert Slices(x >> 24, 5) == Xor(Entry(4, x >> 24), Slices(x >> 32, 4));
    assert Slices(x >> 16, 6) == Xor(Entry(5, x >> 16), Slices(x >> 24, 5));
    assert Slices(x >> 8, 7) == Xor(Entry(6, x >> 8), Slices(x >> 16, 6));
  }

  lemma SumOfEight(a: bv64, b: bv64, c: bv64, d: bv64, e: bv64, f: bv64, g: bv64, h: bv64)
    ensures Xor(Xor(Xor(Xor(Xor(Xor(Xor(a, b), c), d), e), f), g), h)
         == Xor(a, Xor(b, Xor(c, Xor(d, Xor(e, Xor(f, Xor(g, h)))))))
  {
    XorAssoc(Xor(Xor(Xor(Xor(Xor(a, b), c), d), e), f), g, h);
    XorAssoc(Xor(Xor(Xor(Xor(a, b), c), d), e), f, Xor(g, h));
    XorAssoc(Xor(Xor(Xor(a, b), c), d), e, Xor(f, Xor(g, h)));
    XorAssoc(Xor(Xor(a, b), c), d, Xor(e, Xor(f, Xor(g, h))));
    XorAssoc(Xor(a, b), c, Xor(d, Xor(e, Xor(f, Xor(g, h)))));
    XorAssoc(a, b, Xor(c, Xor(d, Xor(e, Xor(f, Xor(g, h))))));
  }

  // ------------------------------------------------------------------
  // The bit-by-bit functions of crc64.c
  // ------------------------------------------------------------------

  method CrcReflect(value: bv64) returns (ret: bv64)
    ensures ret == Reflect(value)
  {
    var data := value;
    ret := data & 1;
    assert PushBit(0, value) == ret;
    for i := 1 to 64
      invariant ReflectLoop(0, value, 64) == ReflectLoop(ret, data >> 1, 64 - i)
    {
      data := data >> 1;
      ret := PushBit(ret, data);
    }
    ReflectLoopReverses(value);
  }

  /** The mask of the inner loop when `n` rounds are left. */
  function MaskAt(n: nat): bv8
    requires n <= 8
  {
    match n
    case 8 => 0x01 case 7 => 0x02 case 6 => 0x04 case 5 => 0x08
    case 4 => 0x10 case 3 => 0x20 case 2 => 0x40 case 1 => 0x80 case _ => 0
  }

  /** The bits of `c` not yet consumed when `n` rounds are left. */
  function RestAt(c: bv8, n: nat): bv64
    requires n <= 8
  {
    var w := c as bv64;
    match n
    case 8 => w case 7 => w >> 1 case 6 => w >> 2 case 5 => w >> 3
    case 4 => w >> 4 case 3 => w >> 5 case 2 => w >> 6 case 1 => w >> 7 case _ => 0
  }

  lemma MaskMoves(n: nat)
    requires 0 < n <= 8
    ensures MaskAt(n) << 1 == MaskAt(n - 1) && MaskAt(n) != 0
  {}

  lemma MaskSelects(c: bv8, n: nat)
    requires 0 < n <= 8
    ensures (c & MaskAt(n) != 0) <==> RestAt(c, n) & 1 != 0
    ensures RestAt(c, n) >> 1 == RestAt(c, n - 1)
  {}

  lemma RoundsStep(crc: bv64, c: bv8, n: nat)
    requires 0 < n <= 8
    ensures MsbRounds(crc, RestAt(c, n), n)
         == MsbRounds(MsbStep(crc, c & MaskAt(n) != 0), RestAt(c, n - 1), n - 1)
  {
    MaskSelects(c, n);
  }

  /** The eight rounds for one byte. */
  method BitwiseByte(crc0: bv64, c: bv8) returns (crc: bv64)
    ensures crc == MsbRounds(crc0, c as bv64, 8)
  {
    crc := crc0;
    var i: bv8 := 1;
    ghost var n: nat := 8;
    assert RestAt(c, n) == c as bv64;
    while i != 0
      invariant n <= 8 && i == MaskAt(n)
      invariant MsbRounds(crc0, RestAt(c, 8), 8) == MsbRounds(crc, RestAt(c, n), n)
      decreases n
    {
      MaskMoves(n);
      RoundsStep(crc, c, n);
      crc := MsbStep(crc, c & i != 0);
      i := i << 1;
      n := n - 1;
    }
    assert n == 0 by { if n > 0 { MaskMoves(n); } }
  }

  lemma FirstReference(crc: bv64, data: seq<bv8>)
    ensures MsbBytes(crc, data[..0]) == crc
  {}

  lemma NextReference(crc: bv64, data: seq<bv8>, i: nat, before: bv64, after: bv64)
    requires i < |data| && before == MsbBytes(crc, data[..i]) && after == MsbRounds(before, data[i] as bv64, 8)
    ensures after == MsbBytes(crc, data[..i + 1])
  {
    hide MsbRounds;
    assert data[..i + 1][..i] == data[..i];
  }

  /** `_crc64`: the reference, reflecting its register on the way out. */
  method Crc64Bitwise(crc0: bv64, data: seq<bv8>) returns (r: bv64)
    ensures r == Reflect(MsbBytes(crc0, data))
  {
    hide *;
    var crc := crc0;
    FirstReference(crc0, data);
    for offset := 0 to |data|
      invariant crc == MsbBytes(crc0, data[..offset])
    {
      ghost var before := crc;
      crc := BitwiseByte(crc, data[offset]);
      NextReference(crc0, data, offset, before, crc);
    }
    assert data[..|data|] == data;
    r := CrcReflect(crc);
  }

  // ------------------------------------------------------------------
  // Tables
  // ------------------------------------------------------------------

  /** The byte with value `n`. */
  function ByteOf(n: nat): bv8
    requires n < 256
  {
    n as bv8
  }

  function Word(n: nat): bv64
    requires n < 256
  {
    ByteOf(n) as bv64
  }

  function LowByte(x: bv64): bv8 { (x & 0xff) as bv8 }

  function ByteValue(b: bv8): (n: nat)
    ensures n < 256
  {
    b as int
  }

  /** The table index the loops compute from a register. */
  function Index(x: bv64): (n: nat)
    ensures n < 256
  {
    ByteValue(LowByte(x))
  }

  lemma ByteRoundTrip(b: bv8)
    ensures (b as int) as bv8 == b
  {}

  lemma ByteOfByteValue(b: bv8)
    ensures ByteOf(ByteValue(b)) == b
  {
    calc { ByteOf(ByteValue(b)); (b as int) as bv8; { ByteRoundTrip(b); } b; }
  }

  lemma LowByteWord(x: bv64)
    ensures LowByte(x) as bv64 == x & 0xff
  {}

  lemma IndexWord(x: bv64)
    ensures Word(Index(x)) == x & 0xff
  {
    hide ByteOf, ByteValue, LowByte;
    ByteOfByteValue(LowByte(x));
    LowByteWord(x);
  }

  ghost predicate Shaped(table: array2<bv64>) {
    table.Length0 == 8 && table.Length1 == 256
  }

  /** Row `k` holds, for every byte, the register `k + 1` byte steps later. */
  ghost predicate LittleTable(table: array2<bv64>)
    requires Shaped(table)
    reads table
  {
    forall k, n :: 0 <= k < 8 && 0 <= n < 256 ==> table[k, n] == Steps(Word(n), k + 1)
  }

  ghost predicate FirstRow(table: array2<bv64>)
    requires Shaped(table)
    reads table
  {
    forall n :: 0 <= n < 256 ==> table[0, n] == Steps(Word(n), 1)
  }

  lemma SingleByte(n: nat)
    requires n < 256
    ensures Reflect(MsbBytes(0, [ByteOf(n)])) == Steps(Word(n), 1)
  {
    var s := [ByteOf(n)];
    ReferenceIsReflected(0, s);
    ReflectConstants();
    XorUnit(Word(n));
    assert s[..0] == [];
    assert LsbBytes(0, s) == Lsb8(Xor(0, Word(n)));
    StepLast(Word(n), 0);
  }

  lemma TableStep(entry: bv64, crc: bv64)
    requires entry == Steps(Word(Index(crc)), 1)
    ensures Lsb8(crc) == Xor(entry, crc >> 8)
  {
    IndexWord(crc);
    ByteStep(crc);
    StepLast(crc & 0xff, 0);
  }

  /** crcspeed64little_init with `_crc64` as the generator. */
  method LittleInit(table: array2<bv64>)
    requires Shaped(table)
    modifies table
    ensures LittleTable(table)
  {
    hide Steps, Word, ByteOf;
    for n := 0 to 256
      invariant forall m :: 0 <= m < n ==> table[0, m] == Steps(Word(m), 1)
    {
      var crc := Crc64Bitwise(0, [ByteOf(n)]);
      SingleByte(n);
      table[0, n] := crc;
    }
    for n := 0 to 256
      invariant FirstRow(table)
      invariant forall k, m :: 0 <= k < 8 && 0 <= m < n ==> table[k, m] == Steps(Word(m), k + 1)
    {
      FillColumn(table, n);
    }
  }

  /** The inner loop of the table generator: rows 1 to 7 of one column. */
  method FillColumn(table: array2<bv64>, n: nat)
    requires Shaped(table) && FirstRow(table) && n < 256
    modifies table
    ensures FirstRow(table)
    ensures forall k :: 0 <= k < 8 ==> table[k, n] == Steps(Word(n), k + 1)
    ensures forall k, m :: 0 <= k < 8 && 0 <= m < 256 && m != n ==> table[k, m] == old(table[k, m])
  {
    hide Steps, Word, Index, Lsb8, Xor;
    var crc := table[0, n];
    for k := 1 to 8
      invariant FirstRow(table)
      invariant crc == Steps(Word(n), k)
      invariant forall i :: 0 <= i < k ==> table[i, n] == Steps(Word(n), i + 1)
      invariant forall i, m :: 0 <= i < 8 && 0 <= m < 256 && m != n ==> table[i, m] == old(table[i, m])
    {
      TableStep(table[0, Index(crc)], crc);
      StepLast(Word(n), k);
      crc := Xor(table[0, Index(crc)], crc >> 8);
      table[k, n] := crc;
    }
  }

  // ------------------------------------------------------------------
  // The lookup loops, little endian
  // ------------------------------------------------------------------

  lemma Lookup(table: array2<bv64>, k: nat, x: bv64)
    requires Shaped(table) && LittleTable(table) && k < 8
    ensures table[k, Index(x)] == Entry(k, x)
  {
    hide Steps, Word, Index;
    IndexWord(x);
  }

  /** A step of the byte loops. */
  lemma ByteLookup(crc: bv64, b: bv8, entry: bv64)
    requires entry == Entry(0, Xor(crc, b as bv64))
    ensures Lsb8(Xor(crc, b as bv64)) == Xor(entry, crc >> 8)
  {
    var x := Xor(crc, b as bv64);
    ByteStep(x);
    StepLast(x & 0xff, 0);
    DataStaysLow(crc, b);
  }

  lemma DataStaysLow(crc: bv64, b: bv8)
    ensures Xor(crc, b as bv64) >> 8 == crc >> 8
  {}

  /** A step of the word loop: eight lookups take the register over eight bytes. */
  lemma WordLookup(crc: bv64, s: seq<bv8>, x: bv64)
    requires |s| == 8 && x == Xor(crc, LoadLittle(s))
    ensures LsbBytes(crc, s)
         == Xor(Xor(Xor(Xor(Xor(Xor(Xor(Entry(7, x), Entry(6, x >> 8)), Entry(5, x >> 16)), Entry(4, x >> 24)),
            Entry(3, x >> 32)), Entry(2, x >> 40)), Entry(1, x >> 48)), Entry(0, x >> 56))
  {
    hide Steps, Slices, Entry, Xor;
    FoldWord(crc, s, LoadLittle(s));
    StepsAreSlices(x, 8);
    EightSlices(x);
    SumOfEight(Entry(7, x), Entry(6, x >> 8), Entry(5, x >> 16), Entry(4, x >> 24),
               Entry(3, x >> 32), Entry(2, x >> 40), Entry(1, x >> 48), Entry(0, x >> 56));
  }

  lemma NoBytes(crc: bv64, buf: seq<bv8>)
    ensures LsbBytes(crc, buf[..0]) == crc
  {}

  lemma NextByte(crc0: bv64, buf: seq<bv8>, next: nat)
    requires next < |buf|
    ensures LsbBytes(crc0, buf[..next + 1]) == Lsb8(Xor(LsbBytes(crc0, buf[..next]), buf[next] as bv64))
  {
    hide Lsb8, Xor;
    assert buf[..next + 1][..next] == buf[..next];
  }

  lemma NextWord(crc0: bv64, buf: seq<bv8>, next: nat)
    requires next + 8 <= |buf|
    ensures LsbBytes(crc0, buf[..next + 8]) == LsbBytes(LsbBytes(crc0, buf[..next]), buf[next..next + 8])
  {
    assert buf[..next + 8] == buf[..next] + buf[next..next + 8];
    Pieces(crc0, buf[..next], buf[next..next + 8]);
  }

  /** crcspeed64little on a buffer whose first byte lies at address `address`. */
  method Little(table: array2<bv64>, crc0: bv64, buf: seq<bv8>, address: nat) returns (crc: bv64)
    requires Shaped(table) && LittleTable(table)
    ensures crc == LsbBytes(crc0, buf)
  {
    hide Lsb8, Xor, Index, LittleTable, LoadLittle, Entry, LsbBytes;
    NoBytes(crc0, buf);
    crc := crc0;
    var next: nat, len: nat := 0, |buf|;
    while len != 0 && (address + next) % 8 != 0
      invariant next + len == |buf| && crc == LsbBytes(crc0, buf[..next])
    {
      crc := LittleByte(table, crc, buf[next]);
      NextByte(crc0, buf, next);
      next, len := next + 1, len - 1;
    }
    while len >= 8
      invariant next + len == |buf| && crc == LsbBytes(crc0, buf[..next])
    {
      crc := LittleWord(table, crc, buf[next..next + 8]);
      NextWord(crc0, buf, next);
      next, len := next + 8, len - 8;
    }
    while len != 0
      invariant next + len == |buf| && crc == LsbBytes(crc0, buf[..next])
    {
      crc := LittleByte(table, crc, buf[next]);
      NextByte(crc0, buf, next);
      next, len := next + 1, len - 1;
    }
    assert buf[..next] == buf;
  }

  /** The body of the word loop. */
  method LittleWord(table: array2<bv64>, crc: bv64, s: seq<bv8>) returns (r: bv64)
    requires Shaped(table) && LittleTable(table) && |s| == 8
    ensures r == LsbBytes(crc, s)
  {
    hide Lsb8, Xor, Index, LittleTable, LoadLittle, Entry;
    var x := Xor(crc, LoadLittle(s));
    WordLookup(crc, s, x);
    Lookup(table, 7, x); Lookup(table, 6, x >> 8); Lookup(table, 5, x >> 16); Lookup(table, 4, x >> 24);
    Lookup(table, 3, x >> 32); Lookup(table, 2, x >> 40); Lookup(table, 1, x >> 48); Lookup(table, 0, x >> 56);
    r := Xor(Xor(Xor(Xor(Xor(Xor(Xor(table[7, Index(x)], table[6, Index(x >> 8)]), table[5, Index(x >> 16)]),
         table[4, Index(x >> 24)]), table[3, Index(x >> 32)]), table[2, Index(x >> 40)]),
         table[1, Index(x >> 48)]), table[0, Index(x >> 56)]);
  }

  /** The statement shared by the first and the last loop. */
  method LittleByte(table: array2<bv64>, crc: bv64, b: bv8) returns (r: bv64)
    requires Shaped(table) && LittleTable(table)
    ensures r == Lsb8(Xor(crc, b as bv64))
  {
    hide Lsb8, Xor, Index, LittleTable, Entry;
    var x := Xor(crc, b as bv64);
    Lookup(table, 0, x);
    ByteLookup(crc, b, Entry(0, x));
    r := Xor(table[0, Index(x)], crc >> 8);
  }

  // ------------------------------------------------------------------
  // Big endian
  // ------------------------------------------------------------------

  lemma RawRev8Xor(a: bv64, b: bv64)
    ensures Rev8(a ^ b) == Rev8(a) ^ Rev8(b)
  {}

  lemma Rev8Xor(a: bv64, b: bv64)
    ensures Rev8(Xor(a, b)) == Xor(Rev8(a), Rev8(b))
  {
    RawRev8Xor(a, b);
    hide Rev8;
  }

  /** Reversing the bytes twice gives the word back. */
  lemma Rev8Involution(a: bv64)
    ensures Rev8(Rev8(a)) == a
  {}

  lemma Rev8Shift(a: bv64)
    ensures Rev8(a >> 8) == Rev8(a) << 8
  {}

  predicate SameLow(x: bv64, y: bv64) { x & 0xff == y & 0xff }

  /** Every entry of the little-endian table, byte-reversed. */
  ghost predicate BigTable(table: array2<bv64>)
    requires Shaped(table)
    reads table
  {
    forall k, n :: 0 <= k < 8 && 0 <= n < 256 ==> table[k, n] == Rev8(Steps(Word(n), k + 1))
  }

  /** crcspeed64big_init. */
  method BigInit(table: array2<bv64>)
    requires Shaped(table)
    modifies table
    ensures BigTable(table)
  {
    hide Rev8, Steps, Word;
    LittleInit(table);
    for k := 0 to 8
      invariant forall i, m :: 0 <= i < k && 0 <= m < 256 ==> table[i, m] == Rev8(Steps(Word(m), i + 1))
      invariant forall i, m :: k <= i < 8 && 0 <= m < 256 ==> table[i, m] == Steps(Word(m), i + 1)
    {
      for n := 0 to 256
        invariant forall i, m :: 0 <= i < k && 0 <= m < 256 ==> table[i, m] == Rev8(Steps(Word(m), i + 1))
        invariant forall i, m :: k < i < 8 && 0 <= m < 256 ==> table[i, m] == Steps(Word(m), i + 1)
        invariant forall m :: 0 <= m < n ==> table[k, m] == Rev8(Steps(Word(m), k + 1))
        invariant forall m :: n <= m < 256 ==> table[k, m] == Steps(Word(m), k + 1)
      {
        table[k, n] := Rev8(table[k, n]);
      }
    }
  }

  lemma BigLookup(table: array2<bv64>, k: nat, x: bv64, y: bv64)
    requires Shaped(table) && BigTable(table) && k < 8 && SameLow(x, y)
    ensures table[k, Index(x)] == Rev8(Entry(k, y))
  {
    hide Steps, Word, Index, Rev8;
    IndexWord(x);
  }

  // One lookup of the word loop: byte `j` of the reversed word is byte `7 - j` of the word.

  lemma BigLookup0(table: array2<bv64>, x: bv64)
    requires Shaped(table) && BigTable(table)
    ensures table[0, Index(Rev8(x))] == Rev8(Entry(0, x >> 56))
  {
    assert SameLow(Rev8(x), x >> 56);
    hide *;
    BigLookup(table, 0, Rev8(x), x >> 56);
  }

  lemma BigLookup1(table: array2<bv64>, x: bv64)
    requires Shaped(table) && BigTable(table)
    ensures table[1, Index(Rev8(x) >> 8)] == Rev8(Entry(1, x >> 48))
  {
    assert SameLow(Rev8(x) >> 8, x >> 48);
    hide *;
    BigLookup(table, 1, Rev8(x) >> 8, x >> 48);
  }

  lemma BigLookup2(table: array2<bv64>, x: bv64)
    requires Shaped(table) && BigTable(table)
    ensures table[2, Index(Rev8(x) >> 16)] == Rev8(Entry(2, x >> 40))
  {
    assert SameLow(Rev8(x) >> 16, x >> 40);
    hide *;
    BigLookup(table, 2, Rev8(x) >> 16, x >> 40);
  }

  lemma BigLookup3(table: array2<bv64>, x: bv64)
    requires Shaped(table) && BigTable(table)
    ensures table[3, Index(Rev8(x) >> 24)] == Rev8(Entry(3, x >> 32))
  {
    assert SameLow(Rev8(x) >> 24, x >> 32);
    hide *;
    BigLookup(table, 3, Rev8(x) >> 24, x >> 32);
  }

  lemma BigLookup4(table: array2<bv64>, x: bv64)
    requires Shaped(table) && BigTable(table)
    ensures table[4, Index(Rev8(x) >> 32)] == Rev8(Entry(4, x >> 24))
  {
    assert SameLow(Rev8(x) >> 32, x >> 24);
    hide *;
    BigLookup(table, 4, Rev8(x) >> 32, x >> 24);
  }

  lemma BigLookup5(table: array2<bv64>, x: bv64)
    requires Shaped(table) && BigTable(table)
    ensures table[5, Index(Rev8(x) >> 40)] == Rev8(Entry(5, x >> 16))
  {
    assert SameLow(Rev8(x) >> 40, x >> 16);
    hide *;
    BigLookup(table, 5, Rev8(x) >> 40, x >> 16);
  }

  lemma BigLookup6(table: array2<bv64>, x: bv64)
    requires Shaped(table) && BigTable(table)
    ensures table[6, Index(Rev8(x) >> 48)] == Rev8(Entry(6, x >> 8))
  {
    assert SameLow(Rev8(x) >> 48, x >> 8);
    hide *;
    BigLookup(table, 6, Rev8(x) >> 48, x >> 8);
  }

  lemma BigLookup7(table: array2<bv64>, x: bv64)
    requires Shaped(table) && BigTable(table)
    ensures table[7, Index(Rev8(x) >> 56)] == Rev8(Entry(7, x))
  {
    assert SameLow(Rev8(x) >> 56, x);
    hide *;
    BigLookup(table, 7, Rev8(x) >> 56, x);
  }

  lemma Rev8Sum(a: bv64, b: bv64, c: bv64, d: bv64, e: bv64, f: bv64, g: bv64, h: bv64)
    ensures Rev8(Xor(a, Xor(b, Xor(c, Xor(d, Xor(e, Xor(f, Xor(g, h))))))))
         == Xor(Xor(Xor(Xor(Xor(Xor(Xor(Rev8(h), Rev8(g)), Rev8(f)), Rev8(e)), Rev8(d)), Rev8(c)), Rev8(b)), Rev8(a))
  {
    hide Rev8, Xor;
    Rev8Xor(g, h); XorComm(Rev8(g), Rev8(h));
    Rev8Xor(f, Xor(g, h)); XorComm(Rev8(f), Rev8(Xor(g, h)));
    Rev8Xor(e, Xor(f, Xor(g, h))); XorComm(Rev8(e), Rev8(Xor(f, Xor(g, h))));
    Rev8Xor(d, Xor(e, Xor(f, Xor(g, h)))); XorComm(Rev8(d), Rev8(Xor(e, Xor(f, Xor(g, h)))));
    Rev8Xor(c, Xor(d, Xor(e, Xor(f, Xor(g, h))))); XorComm(Rev8(c), Rev8(Xor(d, Xor(e, Xor(f, Xor(g, h))))));
    Rev8Xor(b, Xor(c, Xor(d, Xor(e, Xor(f, Xor(g, h))))));
    XorComm(Rev8(b), Rev8(Xor(c, Xor(d, Xor(e, Xor(f, Xor(g, h)))))));
    Rev8Xor(a, Xor(b, Xor(c, Xor(d, Xor(e, Xor(f, Xor(g, h)))))));
    XorComm(Rev8(a), Rev8(Xor(b, Xor(c, Xor(d, Xor(e, Xor(f, Xor(g, h))))))));
  }

  /** The word step seen through byte reversal. */
  lemma BigWordLookup(c: bv64, s: seq<bv8>, x: bv64)
    requires |s| == 8 && x == Xor(c, LoadLittle(s))
    ensures Rev8(LsbBytes(c, s))
         == Xor(Xor(Xor(Xor(Xor(Xor(Xor(Rev8(Entry(0, x >> 56)), Rev8(Entry(1, x >> 48))), Rev8(Entry(2, x >> 40))),
            Rev8(Entry(3, x >> 32))), Rev8(Entry(4, x >> 24))), Rev8(Entry(5, x >> 16))), Rev8(Entry(6, x >> 8))),
            Rev8(Entry(7, x)))
  {
    hide Rev8, Xor, Entry, Steps, Slices;
    FoldWord(c, s, LoadLittle(s));
    StepsAreSlices(x, 8);
    EightSlices(x);
    Rev8Sum(Entry(7, x), Entry(6, x >> 8), Entry(5, x >> 16), Entry(4, x >> 24),
            Entry(3, x >> 32), Entry(2, x >> 40), Entry(1, x >> 48), Entry(0, x >> 56));
  }

  /** The statement shared by the first and the last loop of crcspeed64big. */
  method BigByte(table: array2<bv64>, crc: bv64, ghost c: bv64, b: bv8) returns (r: bv64)
    requires Shaped(table) && BigTable(table)
    requires crc == Rev8(c)
    ensures r == Rev8(Lsb8(Xor(c, b as bv64)))
  {
    hide Lsb8, Rev8, Xor, Index, BigTable, Entry, SameLow;
    ghost var x := Xor(c, b as bv64);
    TopByte(c, b);
    BigLookup(table, 0, Xor(crc >> 56, b as bv64), x);
    ByteLookup(c, b, Entry(0, x));
    Rev8Xor(Entry(0, x), c >> 8);
    Rev8Shift(c);
    r := Xor(table[0, Index(Xor(crc >> 56, b as bv64))], crc << 8);
  }

  lemma TopByte(c: bv64, b: bv8)
    ensures SameLow(Xor(Rev8(c) >> 56, b as bv64), Xor(c, b as bv64))
  {
    calc {
      Xor(Rev8(c) >> 56, b as bv64) & 0xff;
      ((Rev8(c) >> 56) ^ (b as bv64)) & 0xff;
      { assert Rev8(c) >> 56 == c & 0xff; }
      ((c & 0xff) ^ (b as bv64)) & 0xff;
      (c ^ (b as bv64)) & 0xff;
      Xor(c, b as bv64) & 0xff;
    }
  }

  /** crcspeed64big: the register is kept byte-reversed and memory words are read most significant byte first. */
  method Big(table: array2<bv64>, crc0: bv64, buf: seq<bv8>, address: nat) returns (r: bv64)
    requires Shaped(table) && BigTable(table)
    ensures r == LsbBytes(crc0, buf)
  {
    hide Lsb8, Xor, Index, BigTable, LoadLittle, Entry, Rev8, LsbBytes;
    NoBytes(crc0, buf);
    var crc := Rev8(crc0);
    var next: nat, len: nat := 0, |buf|;
    while len != 0 && (address + next) % 8 != 0
      invariant next + len == |buf| && crc == Rev8(LsbBytes(crc0, buf[..next]))
    {
      crc := BigByte(table, crc, LsbBytes(crc0, buf[..next]), buf[next]);
      NextByte(crc0, buf, next);
      next, len := next + 1, len - 1;
    }
    while len >= 8
      invariant next + len == |buf| && crc == Rev8(LsbBytes(crc0, buf[..next]))
    {
      crc := BigWord(table, crc, LsbBytes(crc0, buf[..next]), buf[next..next + 8]);
      NextWord(crc0, buf, next);
      next, len := next + 8, len - 8;
    }
    while len != 0
      invariant next + len == |buf| && crc == Rev8(LsbBytes(crc0, buf[..next]))
    {
      crc := BigByte(table, crc, LsbBytes(crc0, buf[..next]), buf[next]);
      NextByte(crc0, buf, next);
      next, len := next + 1, len - 1;
    }
    assert buf[..next] == buf;
    r := Rev8(crc);
    Rev8Involution(LsbBytes(crc0, buf));
  }

  /** The eight lookups of the word loop of crcspeed64big. */
  function BigSum(table: array2<bv64>, y: bv64): bv64
    requires Shaped(table)
    reads table
  {
    Xor(Xor(Xor(Xor(Xor(Xor(Xor(table[0, Index(y)], table[1, Index(y >> 8)]), table[2, Index(y >> 16)]),
    table[3, Index(y >> 24)]), table[4, Index(y >> 32)]), table[5, Index(y >> 40)]),
    table[6, Index(y >> 48)]), table[7, Index(y >> 56)])
  }

  lemma BigSumStep(table: array2<bv64>, c: bv64, s: seq<bv8>, x: bv64)
    requires Shaped(table) && BigTable(table) && |s| == 8 && x == Xor(c, LoadLittle(s))
    ensures BigSum(table, Rev8(x)) == Rev8(LsbBytes(c, s))
  {
    hide Lsb8, Xor, Index, BigTable, LoadLittle, Entry, Rev8;
    BigWordLookup(c, s, x);
    BigLookup0(table, x); BigLookup1(table, x); BigLookup2(table, x); BigLookup3(table, x);
    BigLookup4(table, x); BigLookup5(table, x); BigLookup6(table, x); BigLookup7(table, x);
  }

  /** The body of the word loop of crcspeed64big. */
  method BigWord(table: array2<bv64>, crc: bv64, ghost c: bv64, s: seq<bv8>) returns (r: bv64)
    requires Shaped(table) && BigTable(table) && |s| == 8
    requires crc == Rev8(c)
    ensures r == Rev8(LsbBytes(c, s))
  {
    hide Lsb8, Xor, BigTable, LoadLittle, Rev8, BigSum;
    Rev8Xor(c, LoadLittle(s));
    BigSumStep(table, c, s, Xor(c, LoadLittle(s)));
    r := BigSum(table, Xor(crc, Rev8(LoadLittle(s))));
  }

  // ------------------------------------------------------------------
  // crc64_init and crc64
  // ------------------------------------------------------------------

  /** The table crc64_init leaves behind on either architecture. */
  ghost predicate NativeTable(table: array2<bv64>, littleEndian: bool)
    requires Shaped(table)
    reads table
  {
    if littleEndian then LittleTable(table) else BigTable(table)
  }

  method Crc64Init(table: array2<bv64>, littleEndian: bool)
    requires Shaped(table)
    modifies table
    ensures NativeTable(table, littleEndian)
  {
    if littleEndian { LittleInit(table); } else { BigInit(table); }
  }

  /** crc64: on either byte order and for every buffer address the result is
      the reference's, when both start from zero. */
  method Crc64(table: array2<bv64>, littleEndian: bool, crc: bv64, s: seq<bv8>, address: nat) returns (r: bv64)
    requires Shaped(table) && NativeTable(table, littleEndian)
    ensures r == LsbBytes(crc, s)
    ensures crc == 0 ==> r == Reflect(MsbBytes(0, s))
    ensures r == Reflect(MsbBytes(Reflect(crc), s))
  {
    hide Reflect, LsbBytes, MsbBytes, LittleTable, BigTable;
    if littleEndian { r := Little(table, crc, s, address); } else { r := Big(table, crc, s, address); }
    ReferenceIsReflected(Reflect(crc), s);
    ReflectInvolution(crc);
    ReflectConstants();
  }
}
