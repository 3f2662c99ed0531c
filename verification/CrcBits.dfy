/** CRC-64 as computed by crc64.c and crcspeed.c: a bit-by-bit reference and a
    table-driven form that consumes eight bytes per iteration.

    Machine words are bit vectors of the width the source uses, so every shift,
    mask and wrap-around is the source's own. */
module CrcBits {

  const POLY: bv64 := 0xad93d23594c935a9
  const REFLECTED_POLY: bv64 := 0x95ac9329ac4bc9b5
  const MSB: bv64 := 0x8000000000000000

  // Exclusive or, named so that its laws are equations between calls.

  function Xor(a: bv64, b: bv64): bv64 { a ^ b }

  lemma XorComm(a: bv64, b: bv64)
    ensures Xor(a, b) == Xor(b, a)
  {}

  lemma XorAssoc(a: bv64, b: bv64, c: bv64)
    ensures Xor(Xor(a, b), c) == Xor(a, Xor(b, c))
  {
    calc { Xor(Xor(a, b), c); Xor(a ^ b, c); (a ^ b) ^ c; a ^ (b ^ c); Xor(a, b ^ c); Xor(a, Xor(b, c)); }
  }

  lemma XorUnit(a: bv64)
    ensures Xor(a, a) == 0 && Xor(a, 0) == a && Xor(0, a) == a
  {}

  lemma XorSwap(a: bv64, b: bv64, p: bv64, q: bv64)
    ensures Xor(Xor(a, b), Xor(p, q)) == Xor(Xor(a, p), Xor(b, q))
  {
    calc {
      Xor(Xor(a, b), Xor(p, q));
      { XorAssoc(a, b, Xor(p, q)); XorAssoc(b, p, q); XorComm(b, p); XorAssoc(p, b, q); }
      Xor(a, Xor(p, Xor(b, q)));
      { XorAssoc(a, p, Xor(b, q)); }
      Xor(Xor(a, p), Xor(b, q));
    }
  }

  lemma XorShift1(a: bv64, b: bv64)
    ensures Xor(a, b) >> 1 == Xor(a >> 1, b >> 1)
  {
    calc { Xor(a, b) >> 1; (a ^ b) >> 1; (a >> 1) ^ (b >> 1); Xor(a >> 1, b >> 1); }
  }

  lemma XorOdd(a: bv64, b: bv64)
    ensures (Xor(a, b) & 1 != 0) <==> ((a & 1 != 0) != (b & 1 != 0))
  {}

  // ------------------------------------------------------------------
  // The bit-by-bit algorithm: most significant bit first
  // ------------------------------------------------------------------

  function PolyIf(b: bool): bv64 { if b then POLY else 0 }

  /** One round of the inner loop of `_crc64` with data bit `d`. */
  function MsbStep(crc: bv64, d: bool): bv64 {
    Xor(crc << 1, PolyIf(((crc & MSB) != 0) != d))
  }

  /** `n` rounds, taking data bits from `t`, least significant first. */
  function MsbRounds(crc: bv64, t: bv64, n: nat): bv64
    decreases n
  {
    if n == 0 then crc else MsbRounds(MsbStep(crc, t & 1 != 0), t >> 1, n - 1)
  }

  /** All bytes of `s`, in order. */
  function MsbBytes(crc: bv64, s: seq<bv8>): bv64 {
    if s == [] then crc
    else MsbRounds(MsbBytes(crc, s[..|s|-1]), s[|s|-1] as bv64, 8)
  }

  // ------------------------------------------------------------------
  // Bit reflection
  // ------------------------------------------------------------------

  /** One round of the loop of `crc_reflect`. */
  function PushBit(ret: bv64, data: bv64): bv64 { (ret << 1) | (data & 1) }

  function ReflectLoop(ret: bv64, data: bv64, n: nat): bv64
    decreases n
  {
    if n == 0 then ret else ReflectLoop(PushBit(ret, data), data >> 1, n - 1)
  }

  /** Reverse the eight bytes of a word (the portable branch of rev8). */
  function Rev8(x: bv64): bv64 {
    var a := ((x >> 8) & 0x00ff00ff00ff00ff) | ((x & 0x00ff00ff00ff00ff) << 8);
    var b := ((a >> 16) & 0x0000ffff0000ffff) | ((a & 0x0000ffff0000ffff) << 16);
    (b >> 32) | (b << 32)
  }

  /** Reverse the 64 bits of a word. */
  function Reflect(x: bv64): bv64 {
    var a := ((x >> 1) & 0x5555555555555555) | ((x & 0x5555555555555555) << 1);
    var b := ((a >> 2) & 0x3333333333333333) | ((a & 0x3333333333333333) << 2);
    var c := ((b >> 4) & 0x0f0f0f0f0f0f0f0f) | ((b & 0x0f0f0f0f0f0f0f0f) << 4);
    Rev8(c)
  }

  // The reflection loop, two, four, ..., sixty-four rounds at a time.

  function Push2(ret: bv64, data: bv64): bv64 { (ret << 2) | (Reflect(data) >> 62) }
  function Push4(ret: bv64, data: bv64): bv64 { (ret << 4) | (Reflect(data) >> 60) }
  function Push8(ret: bv64, data: bv64): bv64 { (ret << 8) | (Reflect(data) >> 56) }
  function Push16(ret: bv64, data: bv64): bv64 { (ret << 16) | (Reflect(data) >> 48) }
  function Push32(ret: bv64, data: bv64): bv64 { (ret << 32) | (Reflect(data) >> 32) }

  lemma PushTwice(r: bv64, d: bv64)
    ensures PushBit(PushBit(r, d), d >> 1) == Push2(r, d)
  {}

  lemma PushTwice2(r: bv64, d: bv64)
    ensures Push2(Push2(r, d), d >> 2) == Push4(r, d)
  {}

  lemma PushTwice4(r: bv64, d: bv64)
    ensures Push4(Push4(r, d), d >> 4) == Push8(r, d)
  {}

  lemma PushTwice8(r: bv64, d: bv64)
    ensures Push8(Push8(r, d), d >> 8) == Push16(r, d)
  {}

  lemma PushTwice16(r: bv64, d: bv64)
    ensures Push16(Push16(r, d), d >> 16) == Push32(r, d)
  {}

  lemma PushTwice32(d: bv64)
    ensures Push32(Push32(0, d), d >> 32) == Reflect(d)
  {}

  lemma ShiftTwice(d: bv64)
    ensures (d >> 1) >> 1 == d >> 2 && (d >> 2) >> 2 == d >> 4 && (d >> 4) >> 4 == d >> 8
    ensures (d >> 8) >> 8 == d >> 16 && (d >> 16) >> 16 == d >> 32
  {}

  lemma Loop2(r: bv64, d: bv64, n: nat)
    requires n >= 2
    ensures ReflectLoop(r, d, n) == ReflectLoop(Push2(r, d), d >> 2, n - 2)
  {
    PushTwice(r, d); ShiftTwice(d);
    assert ReflectLoop(PushBit(r, d), d >> 1, n - 1)
        == ReflectLoop(PushBit(PushBit(r, d), d >> 1), (d >> 1) >> 1, n - 2);
  }

  lemma Loop4(r: bv64, d: bv64, n: nat)
    requires n >= 4
    ensures ReflectLoop(r, d, n) == ReflectLoop(Push4(r, d), d >> 4, n - 4)
  {
    Loop2(r, d, n); Loop2(Push2(r, d), d >> 2, n - 2);
    PushTwice2(r, d); ShiftTwice(d);
  }

  lemma Loop8(r: bv64, d: bv64, n: nat)
    requires n >= 8
    ensures ReflectLoop(r, d, n) == ReflectLoop(Push8(r, d), d >> 8, n - 8)
  {
    Loop4(r, d, n); Loop4(Push4(r, d), d >> 4, n - 4);
    PushTwice4(r, d); ShiftTwice(d);
  }

  lemma Loop16(r: bv64, d: bv64, n: nat)
    requires n >= 16
    ensures ReflectLoop(r, d, n) == ReflectLoop(Push16(r, d), d >> 16, n - 16)
  {
    Loop8(r, d, n); Loop8(Push8(r, d), d >> 8, n - 8);
    PushTwice8(r, d); ShiftTwice(d);
  }

  lemma Loop32(r: bv64, d: bv64, n: nat)
    requires n >= 32
    ensures ReflectLoop(r, d, n) == ReflectLoop(Push32(r, d), d >> 32, n - 32)
  {
    Loop16(r, d, n); Loop16(Push16(r, d), d >> 16, n - 16);
    PushTwice16(r, d); ShiftTwice(d);
  }

  /** Sixty-four rounds of the loop reverse the word. */
  lemma ReflectLoopReverses(d: bv64)
    ensures ReflectLoop(0, d, 64) == Reflect(d)
  {
    Loop32(0, d, 64); Loop32(Push32(0, d), d >> 32, 32);
    PushTwice32(d);
  }

  lemma RawReflectXor(a: bv64, b: bv64)
    ensures Reflect(a ^ b) == Reflect(a) ^ Reflect(b)
  {}

  lemma ReflectXor(a: bv64, b: bv64)
    ensures Reflect(Xor(a, b)) == Xor(Reflect(a), Reflect(b))
  {
    hide Reflect;
    RawReflectXor(a, b);
  }

  lemma ReflectShift(a: bv64)
    ensures Reflect(a << 1) == Reflect(a) >> 1
  {}

  lemma ReflectTop(a: bv64)
    ensures (a & MSB != 0) <==> (Reflect(a) & 1 != 0)
  {}

  lemma ReflectConstants()
    ensures Reflect(POLY) == REFLECTED_POLY && Reflect(0) == 0
  {}

  /** Reflection undoes itself. */
  lemma ReflectInvolution(a: bv64)
    ensures Reflect(Reflect(a)) == a
  {}

  // ------------------------------------------------------------------
  // The reflected algorithm: least significant bit first
  // ------------------------------------------------------------------

  function ReflectedIf(b: bool): bv64 { if b then REFLECTED_POLY else 0 }

  function Lsb1(r: bv64): bv64 { Xor(r >> 1, ReflectedIf(r & 1 != 0)) }
  function Lsb2(r: bv64): bv64 { Lsb1(Lsb1(r)) }
  function Lsb4(r: bv64): bv64 { Lsb2(Lsb2(r)) }
  function Lsb8(r: bv64): bv64 { Lsb4(Lsb4(r)) }

  lemma ReflectedIfXor(a: bool, b: bool)
    ensures ReflectedIf(a != b) == Xor(ReflectedIf(a), ReflectedIf(b))
  {
    XorUnit(REFLECTED_POLY); XorUnit(0);
  }

  lemma Linear1(a: bv64, b: bv64)
    ensures Lsb1(Xor(a, b)) == Xor(Lsb1(a), Lsb1(b))
  {
    XorShift1(a, b); XorOdd(a, b);
    ReflectedIfXor(a & 1 != 0, b & 1 != 0);
    XorSwap(a >> 1, b >> 1, ReflectedIf(a & 1 != 0), ReflectedIf(b & 1 != 0));
  }

  lemma Linear2(a: bv64, b: bv64)
    ensures Lsb2(Xor(a, b)) == Xor(Lsb2(a), Lsb2(b))
  {
    Linear1(a, b); Linear1(Lsb1(a), Lsb1(b));
  }

  lemma Linear4(a: bv64, b: bv64)
    ensures Lsb4(Xor(a, b)) == Xor(Lsb4(a), Lsb4(b))
  {
    Linear2(a, b); Linear2(Lsb2(a), Lsb2(b));
  }

  /** One byte step is linear over exclusive or. */
  lemma Linear8(a: bv64, b: bv64)
    ensures Lsb8(Xor(a, b)) == Xor(Lsb8(a), Lsb8(b))
  {
    Linear4(a, b); Linear4(Lsb4(a), Lsb4(b));
  }

  // ------------------------------------------------------------------
  // The reference and the reflected algorithm agree
  // ------------------------------------------------------------------

  function BitWord(d: bool): bv64 { if d then 1 else 0 }

  lemma ReflectPolyIf(b: bool)
    ensures Reflect(PolyIf(b)) == ReflectedIf(b)
  {
    ReflectConstants();
  }

  lemma ReflectMsbStep(c: bv64, d: bool)
    ensures Reflect(MsbStep(c, d)) == Xor(Reflect(c) >> 1, ReflectedIf((Reflect(c) & 1 != 0) != d))
  {
    var m := (c & MSB) != 0;
    ReflectTop(c);
    calc {
      Reflect(MsbStep(c, d));
      Reflect(Xor(c << 1, PolyIf(m != d)));
      { ReflectXor(c << 1, PolyIf(m != d)); }
      Xor(Reflect(c << 1), Reflect(PolyIf(m != d)));
      { ReflectShift(c); ReflectPolyIf(m != d); }
      Xor(Reflect(c) >> 1, ReflectedIf(m != d));
    }
  }

  lemma DataBit(r: bv64, d: bool)
    ensures Xor(r, BitWord(d)) >> 1 == r >> 1
    ensures (Xor(r, BitWord(d)) & 1 != 0) <==> ((r & 1 != 0) != d)
  {}

  lemma LsbWithData(r: bv64, d: bool)
    ensures Lsb1(Xor(r, BitWord(d))) == Xor(r >> 1, ReflectedIf((r & 1 != 0) != d))
  {
    DataBit(r, d);
    hide Xor, ReflectedIf, BitWord;
  }

  /** Reflection carries one round of the reference to one reflected round. */
  lemma ReflectStep(c: bv64, d: bool)
    ensures Reflect(MsbStep(c, d)) == Lsb1(Xor(Reflect(c), BitWord(d)))
  {
    ReflectMsbStep(c, d); LsbWithData(Reflect(c), d);
  }

  function Shift(t: bv64, n: nat): bv64
    decreases n
  {
    if n == 0 then t else Shift(t >> 1, n - 1)
  }

  function LsbTimes(r: bv64, n: nat): bv64
    decreases n
  {
    if n == 0 then r else LsbTimes(Lsb1(r), n - 1)
  }

  /** Splitting a word into its low bit and the rest, seen through one round. */
  lemma AbsorbBit(r: bv64, t: bv64)
    ensures Xor(Lsb1(Xor(r, BitWord(t & 1 != 0))), t >> 1) == Lsb1(Xor(r, t))
  {
    var low := BitWord(t & 1 != 0);
    var high := (t >> 1) << 1;
    LowBitSplit(t);
    calc {
      Lsb1(Xor(r, t));
      Lsb1(Xor(r, Xor(low, high)));
      { XorAssoc(r, low, high); }
      Lsb1(Xor(Xor(r, low), high));
      { Linear1(Xor(r, low), high); }
      Xor(Lsb1(Xor(r, low)), Lsb1(high));
      Xor(Lsb1(Xor(r, low)), t >> 1);
    }
  }

  lemma LowBitSplit(t: bv64)
    ensures t == Xor(BitWord(t & 1 != 0), (t >> 1) << 1)
    ensures Lsb1((t >> 1) << 1) == t >> 1
  {}

  /** `n` rounds of the reference on data `t` are `n` reflected rounds on `t` folded into the register. */
  lemma {:induction false} ReflectRounds(c: bv64, t: bv64, n: nat)
    ensures Xor(Reflect(MsbRounds(c, t, n)), Shift(t, n)) == LsbTimes(Xor(Reflect(c), t), n)
    decreases n
  {
    if n > 0 {
      var d := t & 1 != 0;
      var c' := MsbStep(c, d);
      ReflectRounds(c', t >> 1, n - 1);
      ReflectStep(c, d);
      AbsorbBit(Reflect(c), t);
    }
  }

  lemma EightTimes(r: bv64)
    ensures LsbTimes(r, 8) == Lsb8(r)
  {
    var r1 := Lsb1(r); var r2 := Lsb1(r1); var r3 := Lsb1(r2); var r4 := Lsb1(r3);
    var r5 := Lsb1(r4); var r6 := Lsb1(r5); var r7 := Lsb1(r6);
    assert LsbTimes(r, 8) == LsbTimes(r2, 6) == LsbTimes(r4, 4) == LsbTimes(r6, 2) == Lsb1(r7);
    assert Lsb4(r) == r4;
  }

  lemma ByteExhausted(b: bv8)
    ensures Shift(b as bv64, 8) == 0
  {
    var t := b as bv64;
    ShiftTwice(t);
    ShiftTwice(t >> 2);
    ShiftTwice(t >> 4);
    assert (t >> 2) >> 2 == t >> 4;
    assert Shift(t, 8) == Shift(t >> 2, 6);
    assert Shift(t >> 2, 6) == Shift(t >> 4, 4);
    assert Shift(t >> 4, 4) == Shift((t >> 4) >> 2, 2) == ((t >> 4) >> 2) >> 2;
    assert ((t >> 4) >> 2) >> 2 == 0;
  }

  /** One byte of the reference, reflected, is one reflected byte step. */
  lemma ReflectByte(c: bv64, b: bv8)
    ensures Reflect(MsbRounds(c, b as bv64, 8)) == Lsb8(Xor(Reflect(c), b as bv64))
  {
    var t := b as bv64;
    ReflectRounds(c, t, 8);
    ByteExhausted(b);
    XorUnit(Reflect(MsbRounds(c, t, 8)));
    EightTimes(Xor(Reflect(c), t));
  }

  /** The reflected register after absorbing all bytes of `s`. */
  function LsbBytes(crc: bv64, s: seq<bv8>): bv64 {
    if s == [] then crc
    else Lsb8(Xor(LsbBytes(crc, s[..|s|-1]), s[|s|-1] as bv64))
  }

  /** The bit-by-bit reference and the reflected form compute the same value. */
  lemma {:induction false} ReferenceIsReflected(c: bv64, s: seq<bv8>)
    ensures Reflect(MsbBytes(c, s)) == LsbBytes(Reflect(c), s)
  {
    if s != [] {
      ReferenceIsReflected(c, s[..|s|-1]);
      ReflectByte(MsbBytes(c, s[..|s|-1]), s[|s|-1]);
    }
  }

  /** Feeding a string in two pieces is feeding the whole. */
  lemma {:induction false} Pieces(c: bv64, s: seq<bv8>, t: seq<bv8>)
    ensures LsbBytes(c, s + t) == LsbBytes(LsbBytes(c, s), t)
  {
    if t == [] {
      assert s + t == s;
    } else {
      var m := |t| - 1;
      assert (s + t)[..|s + t| - 1] == s + t[..m] && (s + t)[|s + t| - 1] == t[m];
      Pieces(c, s, t[..m]);
    }
  }

  // ------------------------------------------------------------------
  // The check value
  // ------------------------------------------------------------------

  /** The string 123456789. */
  const CHECK: seq<bv8> := [0x31, 0x32, 0x33, 0x34, 0x35, 0x36, 0x37, 0x38, 0x39]

  /** One byte more of it. */
  lemma CheckMore(k: nat, before: bv64, c: bv8, after: bv64)
    requires k < |CHECK| && CHECK[k] == c
    requires LsbBytes(0, CHECK[..k]) == before && Lsb8(Xor(before, c as bv64)) == after
    ensures LsbBytes(0, CHECK[..k + 1]) == after
  {
    hide Lsb8, Xor;
    assert CHECK[..k + 1][..k] == CHECK[..k] && CHECK[..k + 1][k] == c;
  }

  lemma Check1()
    ensures Lsb8(Xor(0x0000000000000000, (0x31 as bv8) as bv64)) == 0xfdc17184a9f739fa
  {}

  lemma Check2()
    ensures Lsb8(Xor(0xfdc17184a9f739fa, (0x32 as bv8) as bv64)) == 0xe10364513a98ed96
  {}

  lemma Check3()
    ensures Lsb8(Xor(0xe10364513a98ed96, (0x33 as bv8) as bv64)) == 0xd5bcfb814479b1ac
  {}

  lemma Check4()
    ensures Lsb8(Xor(0xd5bcfb814479b1ac, (0x34 as bv8) as bv64)) == 0x43593c5dcda521f0
  {}

  lemma Check5()
    ensures Lsb8(Xor(0x43593c5dcda521f0, (0x35 as bv8) as bv64)) == 0xf0758513239c7e0d
  {}

  lemma Check6()
    ensures Lsb8(Xor(0xf0758513239c7e0d, (0x36 as bv8) as bv64)) == 0xa3a90925b2ab4903
  {}

  lemma Check7()
    ensures Lsb8(Xor(0xa3a90925b2ab4903, (0x37 as bv8) as bv64)) == 0x47824d362431ad45
  {}

  lemma Check8()
    ensures Lsb8(Xor(0x47824d362431ad45, (0x38 as bv8) as bv64)) == 0x49ec20b315e86dc2
  {}

  lemma Check9()
    ensures Lsb8(Xor(0x49ec20b315e86dc2, (0x39 as bv8) as bv64)) == 0xe9c6d914c4b8d9ca
  {}

  /** The value that crc64Test prints for the string 123456789. */
  lemma CheckValue()
    ensures Reflect(MsbBytes(0, CHECK)) == 0xe9c6d914c4b8d9ca
  {
    hide Reflect, MsbBytes, LsbBytes, Lsb8, Xor;
    ReferenceIsReflected(0, CHECK);
    ReflectConstants();
    CheckNone();
    Check1();
    CheckMore(0, 0x0000000000000000, 0x31, 0xfdc17184a9f739fa);
    Check2();
    CheckMore(1, 0xfdc17184a9f739fa, 0x32, 0xe10364513a98ed96);
    Check3();
    CheckMore(2, 0xe10364513a98ed96, 0x33, 0xd5bcfb814479b1ac);
    Check4();
    CheckMore(3, 0xd5bcfb814479b1ac, 0x34, 0x43593c5dcda521f0);
    Check5();
    CheckMore(4, 0x43593c5dcda521f0, 0x35, 0xf0758513239c7e0d);
    Check6();
    CheckMore(5, 0xf0758513239c7e0d, 0x36, 0xa3a90925b2ab4903);
    Check7();
    CheckMore(6, 0xa3a90925b2ab4903, 0x37, 0x47824d362431ad45);
    Check8();
    CheckMore(7, 0x47824d362431ad45, 0x38, 0x49ec20b315e86dc2);
    Check9();
    CheckMore(8, 0x49ec20b315e86dc2, 0x39, 0xe9c6d914c4b8d9ca);
    assert CHECK[..9] == CHECK;
  }

  lemma CheckNone()
    ensures LsbBytes(0, CHECK[..0]) == 0
  {}
}
