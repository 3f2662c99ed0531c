/** BITFIELD: integers of any width at any bit offset of a string. Words of the program are integers here, and where it
    wraps around modulo 2^64 this is written out. */
module BitField {
  import opened Common
  import opened Bits

  /** The integer that bits stand for, the most significant one first. */
  function Value(bs: seq<bool>): nat {
    if bs == [] then 0 else 2 * Value(bs[..|bs| - 1]) + (if bs[|bs| - 1] then 1 else 0)
  }

  /** The `w` lowest bits of `n`, the most significant one first. */
  ghost function BitsOf(n: nat, w: nat): (bs: seq<bool>)
    ensures |bs| == w
  {
    if w == 0 then [] else BitsOf(n / 2, w - 1) + [n % 2 == 1]
  }

  lemma {:induction false} ValueBound(bs: seq<bool>)
    ensures Value(bs) < Pow2(|bs|)
  {
    if bs != [] { ValueBound(bs[..|bs| - 1]); }
  }

  lemma HalfMod(n: nat, p: nat)
    requires p > 0
    ensures 2 * ((n / 2) % p) + n % 2 == n % (2 * p)
  {
    var q, r := (n / 2) / p, (n / 2) % p;
    assert n / 2 == q * p + r;
    ModIs(n, 2 * p, q, 2 * r + n % 2);
  }

  lemma ModIs(n: int, p: int, q: int, r: int)
    requires p > 0 && n == q * p + r && 0 <= r < p
    ensures n % p == r
  {
    var d := n / p - q;
    assert n == (n / p) * p + n % p;
    assert d * p == r - n % p by { assert (n / p) * p - q * p == d * p; }
    MulBound(d, p);
  }

  lemma DivMod(v: int, p: int)
    requires p > 0
    ensures v == (v / p) * p + v % p && 0 <= v % p < p
  {}

  lemma Distribute(a: int, b: int, p: int)
    ensures (a + b) * p == a * p + b * p && (0 - a) * p == 0 - a * p
  {}

  lemma Regroup(a: int, b: int, p: int)
    ensures a * (b * p) == (a * b) * p
  {}

  lemma MulBound(d: int, p: int)
    requires p > 0
    ensures d >= 1 ==> d * p >= p
    ensures d <= -1 ==> d * p <= -p
  {}

  /** Reading back what was written gives the value, cut to the width. */
  lemma {:induction false} ValueOfBits(n: nat, w: nat)
    ensures Value(BitsOf(n, w)) == n % Pow2(w)
  {
    if w > 0 {
      var bs := BitsOf(n, w);
      ValueOfBits(n / 2, w - 1);
      assert bs[..w - 1] == BitsOf(n / 2, w - 1);
      HalfMod(n, Pow2(w - 1));
    }
  }

  /** And writing what was read changes nothing. */
  lemma {:induction false} BitsOfValue(bs: seq<bool>)
    ensures BitsOf(Value(bs), |bs|) == bs
  {
    if bs != [] { BitsOfValue(bs[..|bs| - 1]); }
  }

  /** How the program takes bit `i` of a word. */
  predicate WordBit(n: nat, i: nat) { (n / Pow2(i)) % 2 == 1 }

  lemma DivDiv(n: nat, p: nat)
    requires p > 0
    ensures n / (2 * p) == (n / 2) / p
  {
    var q, r := (n / 2) / p, (n / 2) % p;
    assert n / 2 == q * p + r;
    assert n == q * (2 * p) + (2 * r + n % 2);
    assert 0 <= 2 * r + n % 2 < 2 * p;
    DivIs(n, 2 * p, q, 2 * r + n % 2);
  }

  lemma DivIs(n: int, p: int, q: int, r: int)
    requires p > 0 && n == q * p + r && 0 <= r < p
    ensures n / p == q
  {
    ModIs(n, p, q, r);
    assert (n / p) * p == q * p;
  }

  lemma {:induction false} BitsOfAt(n: nat, w: nat, j: nat)
    requires j < w
    ensures BitsOf(n, w)[j] == WordBit(n, w - 1 - j)
  {
    if j < w - 1 {
      BitsOfAt(n / 2, w - 1, j);
      DivDiv(n, Pow2(w - 2 - j));
    }
  }

  // ------------------------------------------------------------------
  // Reading and writing
  // ------------------------------------------------------------------

  /** The bits of a field; it may reach beyond the string, which is padded with zeros. */
  ghost function FieldBits(p: seq<bv8>, offset: nat, w: nat): (bs: seq<bool>)
    ensures |bs| == w && forall j :: 0 <= j < w ==> bs[j] == PaddedBit(p, offset + j)
  {
    seq(w, j requires 0 <= j < w => PaddedBit(p, offset + j))
  }

  /** setUnsignedBitfield: the field takes the lowest bits of the value, and no other bit changes. */
  method SetUnsigned(p: array<bv8>, offset: nat, w: nat, value: nat)
    requires offset + w <= 8 * p.Length
    modifies p
    ensures FieldBits(p[..], offset, w) == BitsOf(value, w)
    ensures forall k :: 0 <= k < 8 * p.Length && !(offset <= k < offset + w) ==> BitAt(p[..], k) == BitAt(old(p[..]), k)
  {
    hide WordBit, BitsOf, BitAt, PutBit;
    ghost var before := p[..];
    for j := 0 to w
      invariant forall k :: 0 <= k < 8 * p.Length ==>
                  BitAt(p[..], k) == if offset <= k < offset + j then BitsOf(value, w)[k - offset] else BitAt(before, k)
    {
      var k := offset + j;
      BitsOfAt(value, w, j);
      SetBitAt(p[..], k, WordBit(value, w - 1 - j));
      ghost var now := p[..];
      p[k / 8] := PutBit(p[k / 8], 7 - k % 8, WordBit(value, w - 1 - j));
      assert p[..] == now[k / 8 := PutBit(now[k / 8], 7 - k % 8, WordBit(value, w - 1 - j))];
    }
    assert FieldBits(p[..], offset, w) == BitsOf(value, w);
  }

  /** getUnsignedBitfield. */
  method GetUnsigned(p: array<bv8>, offset: nat, w: nat) returns (value: nat)
    requires offset + w <= 8 * p.Length
    ensures value == Value(FieldBits(p[..], offset, w)) < Pow2(w)
  {
    hide *;
    value := 0;
    ghost var bs := FieldBits(p[..], offset, w);
    ValueWhole(bs);
    for j := 0 to w
      invariant value == Value(bs[..j])
    {
      var k := offset + j;
      var bit := Bit8(p[k / 8], 7 - k % 8);
      FieldBitIs(p[..], offset, w, j);
      ValueNext(bs, j);
      value := 2 * value + (if bit then 1 else 0);
    }
  }

  lemma ValueWhole(bs: seq<bool>)
    ensures Value(bs[..0]) == 0 && Value(bs[..|bs|]) == Value(bs) < Pow2(|bs|)
  {
    assert bs[..0] == [] && bs[..|bs|] == bs;
    ValueBound(bs);
  }

  lemma ValueNext(bs: seq<bool>, j: nat)
    requires j < |bs|
    ensures Value(bs[..j + 1]) == 2 * Value(bs[..j]) + (if bs[j] then 1 else 0)
  {
    assert bs[..j + 1][..j] == bs[..j];
  }

  lemma FieldBitIs(p: seq<bv8>, offset: nat, w: nat, j: nat)
    requires offset + w <= 8 * |p| && j < w
    ensures FieldBits(p, offset, w)[j] == Bit8(p[(offset + j) / 8], 7 - (offset + j) % 8)
  {
    hide Bit8;
  }

  /** Two's complement of the given width. */
  function Signed(v: nat, w: nat): int
    requires w > 0
  {
    if v >= Pow2(w - 1) then v - Pow2(w) else v
  }

  /** A signed value as a word of 64 bits. */
  function Word(v: int): (n: nat) { v % Pow2(64) }

  /** setSignedBitfield. */
  method SetSigned(p: array<bv8>, offset: nat, w: nat, value: int)
    requires offset + w <= 8 * p.Length
    modifies p
    ensures FieldBits(p[..], offset, w) == BitsOf(Word(value), w)
    ensures forall k :: 0 <= k < 8 * p.Length && !(offset <= k < offset + w) ==> BitAt(p[..], k) == BitAt(old(p[..]), k)
  {
    SetUnsigned(p, offset, w, Word(value));
  }

  function Max(sign: bool, w: nat): int
    requires w > 0
  {
    if sign then Pow2(w - 1) - 1 else Pow2(w) - 1
  }

  function Min(sign: bool, w: nat): int
    requires w > 0
  {
    if sign then 0 - Pow2(w - 1) else 0
  }

  predicate InRange(sign: bool, w: nat, v: int)
    requires w > 0
  {
    Min(sign, w) <= v <= Max(sign, w)
  }

  /** getSignedBitfield. */
  method GetSigned(p: array<bv8>, offset: nat, w: nat) returns (value: int)
    requires 0 < w <= 64 && offset + w <= 8 * p.Length
    ensures value == Signed(Value(FieldBits(p[..], offset, w)), w)
    ensures InRange(true, w, value)
  {
    hide Pow2;
    var u := GetUnsigned(p, offset, w);
    PowNext(w - 1);
    if w == 64 {
      return if u >= Pow2(63) then u - Pow2(64) else u;
    }
    value := u;
    TopBit(u, w);
    if WordBit(u, w - 1) { value := u - Pow2(w); }
  }

  lemma PowNext(n: nat)
    ensures Pow2(n + 1) == 2 * Pow2(n)
  {}

  /** The sign bit of a field. */
  lemma TopBit(u: nat, w: nat)
    requires w > 0 && u < Pow2(w)
    ensures WordBit(u, w - 1) <==> u >= Pow2(w - 1)
  {
    var p := Pow2(w - 1);
    if u >= p { DivIs(u, p, 1, u - p); } else { DivIs(u, p, 0, u); }
  }

  // ------------------------------------------------------------------
  // Overflow
  // ------------------------------------------------------------------

  datatype Overflow = Wrap | Sat | Fail

  /** The value of the range that is congruent to `v` modulo 2^w. */
  ghost function Wrapped(sign: bool, w: nat, v: int): int
    requires w > 0
  {
    var n := v % Pow2(w);
    if sign then Signed(n, w) else n
  }

  /** It is in range, differs by a multiple of 2^w, and there is no other. */
  lemma WrappedIs(sign: bool, w: nat, v: int, x: int, k: int)
    requires w > 0 && InRange(sign, w, x) && x == v + k * Pow2(w)
    ensures x == Wrapped(sign, w, v)
  {
    var p := Pow2(w);
    PowNext(w - 1);
    hide Pow2;
    if x >= 0 {
      assert v == (0 - k) * p + x;
      ModIs(v, p, 0 - k, x);
    } else {
      assert v == (0 - k - 1) * p + (x + p) by { assert (0 - k - 1) * p == (0 - k) * p - p; }
      ModIs(v, p, 0 - k - 1, x + p);
    }
  }

  lemma WrappedInRange(sign: bool, w: nat, v: int)
    requires w > 0
    ensures InRange(sign, w, Wrapped(sign, w, v))
    ensures exists k: int :: Wrapped(sign, w, v) == v + k * Pow2(w)
  {
    var p, q := Pow2(w), v / Pow2(w);
    PowNext(w - 1);
    DivMod(v, p);
    Distribute(q, 0, p);
    Distribute(0 - q, -1, p);
    hide Pow2;
    assert Wrapped(sign, w, v) == v + (0 - q) * p || Wrapped(sign, w, v) == v + (0 - q + -1) * p;
  }

  /** What an operation that leaves the range gives. */
  ghost function Limited(sign: bool, w: nat, v: int, mode: Overflow): int
    requires w > 0
  {
    if InRange(sign, w, v) then v
    else if mode == Wrap then Wrapped(sign, w, v)
    else if v > Max(sign, w) then Max(sign, w)
    else Min(sign, w)
  }

  const INT64: int := 0x8000_0000_0000_0000

  lemma PowersAre()
    ensures Pow2(63) == INT64 && Pow2(64) == 2 * INT64
  {
    assert Pow2(8) == 256;
    assert Pow2(16) == 256 * Pow2(8);
    assert Pow2(24) == 256 * Pow2(16);
    assert Pow2(32) == 256 * Pow2(24);
    assert Pow2(40) == 256 * Pow2(32);
    assert Pow2(48) == 256 * Pow2(40);
    assert Pow2(56) == 256 * Pow2(48);
    assert Pow2(63) == 128 * Pow2(56);
  }

  lemma {:induction false} PowGrows(a: nat, b: nat)
    requires a <= b
    ensures Pow2(a) <= Pow2(b)
    decreases b
  {
    if a < b { PowGrows(a, b - 1); }
  }

  lemma {:induction false} PowDivides(a: nat, b: nat) returns (q: nat)
    requires a <= b
    ensures Pow2(b) == q * Pow2(a)
    decreases b
  {
    if a == b {
      q := 1;
    } else {
      q := PowDivides(a, b - 1);
      q := 2 * q;
    }
  }

  /** Cutting to 64 bits first does no harm. */
  lemma ModMod(v: int, w: nat)
    requires w <= 64
    ensures Word(v) % Pow2(w) == v % Pow2(w)
  {
    var q := PowDivides(w, 64);
    DivMod(v, Pow2(64));
    DivMod(Word(v), Pow2(w));
    Nested(v, Pow2(w), q, v / Pow2(64), Word(v), Word(v) / Pow2(w), Word(v) % Pow2(w));
  }

  lemma Nested(v: int, p: int, q: int, k: int, n: int, m: int, r: int)
    requires p > 0 && v == k * (q * p) + n && n == m * p + r && 0 <= r < p
    ensures v == (k * q + m) * p + r && v % p == r && v / p == k * q + m
  {
    Regroup(k, q, p);
    Distribute(k * q, m, p);
    ModIs(v, p, k * q + m, r);
    DivIs(v, p, k * q + m, r);
  }

  predicate FitsInt64(v: int) { -INT64 <= v < INT64 }

  /** The difference of two 64-bit integers as an int64_t: it wraps around. */
  function Minus64(a: int, b: int): int {
    var d := a - b;
    if d >= INT64 then d - 2 * INT64 else if d < -INT64 then d + 2 * INT64 else d
  }

  /** checkUnsignedBitfieldOverflow: 0, 1 or -1, and the value to use instead. A wrapped result is reported as 1 even
      when it came from below. */
  method CheckUnsigned(value: nat, incr: int, w: nat, mode: Overflow) returns (overflow: int, limit: int)
    requires 0 < w < 64 && value < 2 * INT64 && FitsInt64(incr)
    ensures overflow == 0 <==> InRange(false, w, value) && InRange(false, w, value + incr)
    ensures overflow != 0 && mode == Wrap ==> limit == Wrapped(false, w, value + incr)
    ensures overflow != 0 && mode == Sat && (InRange(false, w, value) || incr == 0) ==>
              limit == Limited(false, w, value + incr, mode)
    ensures overflow == -1 ==> mode != Wrap && value + incr < 0
    ensures overflow == 1 ==> mode == Wrap || value > Max(false, w) || value + incr > Max(false, w)
  {
    limit := 0;
    var max := Pow2(w) - 1;
    PowersAre();
    PowGrows(w, 63);
    hide Pow2;
    var maxincr, minincr := Minus64(max, value), Minus64(0, value);
    if value > max || (incr > 0 && incr > maxincr) {
      overflow := 1;
      if mode == Sat { limit := max; }
    } else if incr < 0 && incr < minincr {
      overflow := -1;
      if mode == Sat { limit := 0; }
    } else {
      return 0, 0;
    }
    if mode == Wrap {
      ModMod(value + incr, w);
      limit := Word(value + incr) % Pow2(w);
      overflow := 1;
    }
  }

  /** maxincr and minincr leave int64_t exactly for 64-bit fields and values of the wrong sign; there the checks do
      not look at them. */
  lemma IncrementsFit(value: int, w: nat)
    requires 0 < w <= 64 && InRange(true, w, value)
    ensures FitsInt64(Max(true, w) - value) <==> w != 64 || value >= 0
    ensures FitsInt64(Min(true, w) - value) <==> w != 64 || value <= 0
  {
    PowersAre();
    if w < 64 {
      PowGrows(w, 63);
      PowNext(w - 1);
    }
    hide Pow2;
  }

  /** Does saturation work for `v`? The difference to the maximum must not leave int64_t. */
  predicate Clamps(w: nat, v: int)
    requires w > 0
  {
    FitsInt64(Max(true, w) - v)
  }

  /** checkSignedBitfieldOverflow. A value that BITFIELD SET wants to store may itself be out of range; one so far below
      that maxincr wraps around is taken for one above. */
  method CheckSigned(value: int, incr: int, w: nat, mode: Overflow) returns (overflow: int, limit: int)
    requires 0 < w <= 64 && FitsInt64(value) && FitsInt64(incr)
    ensures overflow == 0 <==> InRange(true, w, value) && InRange(true, w, value + incr)
    ensures overflow != 0 && mode == Wrap ==> limit == Wrapped(true, w, value + incr)
    ensures overflow != 0 && mode == Sat && InRange(true, w, value) ==> limit == Limited(true, w, value + incr, mode)
    ensures overflow != 0 && mode == Sat && incr == 0 ==>
              limit == if Clamps(w, value) then Limited(true, w, value, mode) else Max(true, w)
    ensures overflow == -1 ==> mode != Wrap && (value < Min(true, w) || value + incr < Min(true, w))
    ensures overflow == 1 ==> mode == Wrap || value > Max(true, w) || value + incr > Max(true, w) || !Clamps(w, value)
  {
    limit := 0;
    PowersAre();
    if InRange(true, w, value) { IncrementsFit(value, w); }
    PowGrows(w - 1, 63);
    hide Pow2;
    var max := Pow2(w - 1) - 1;
    var min := 0 - max - 1;
    var maxincr, minincr := Minus64(max, value), Minus64(min, value);
    assert InRange(true, w, value) && (w != 64 || value >= 0) ==> maxincr == max - value;
    assert InRange(true, w, value) && (w != 64 || value < 0) ==> minincr == min - value;
    if value > max || (w != 64 && incr > maxincr) || (value >= 0 && incr > 0 && incr > maxincr) {
      overflow := 1;
      if mode == Sat { limit := max; }
    } else if value < min || (w != 64 && incr < minincr) || (value < 0 && incr < 0 && incr < minincr) {
      overflow := -1;
      if mode == Sat { limit := min; }
    } else {
      return 0, 0;
    }
    if mode == Wrap {
      limit := WrapSigned(value + incr, w);
      overflow := 1;
    }
  }

  /** The label handle_wrap: the sign bit is spread over the higher bits, or they are cleared. */
  method WrapSigned(v: int, w: nat) returns (limit: int)
    requires 0 < w <= 64
    ensures limit == Wrapped(true, w, v)
  {
    var c := Word(v);
    ModMod(v, w);
    var low := c % Pow2(w);
    TopBit(low, w);
    SameTop(c, w);
    hide Pow2;
    if w < 64 {
      if WordBit(c, w - 1) { return low - Pow2(w); } else { return low; }
    }
    return if c >= Pow2(63) then c - Pow2(64) else c;
  }

  lemma SameTop(c: nat, w: nat)
    requires w > 0
    ensures WordBit(c, w - 1) == WordBit(c % Pow2(w), w - 1)
  {
    var p, low := Pow2(w - 1), c % Pow2(w);
    PowNext(w - 1);
    DivMod(c, 2 * p);
    DivMod(low, p);
    Nested(c, p, 2, c / (2 * p), low, low / p, low % p);
    Parity(c / (2 * p), low / p);
    hide Pow2;
  }

  lemma Parity(a: int, b: int)
    ensures (a * 2 + b) % 2 == b % 2
  {}

  // ------------------------------------------------------------------
  // The operations of BITFIELD
  // ------------------------------------------------------------------

  /** The integer at a field. */
  ghost function Field(p: seq<bv8>, sign: bool, offset: nat, w: nat): int
    requires w > 0
  {
    var v := Value(FieldBits(p, offset, w));
    if sign then Signed(v, w) else v
  }

  /** Outside the field nothing differs. */
  ghost predicate SameOutside(a: seq<bv8>, b: seq<bv8>, offset: nat, w: nat) {
    |a| == |b| && forall k :: 0 <= k < 8 * |a| && !(offset <= k < offset + w) ==> BitAt(a, k) == BitAt(b, k)
  }

  /** A value of the range is read back as itself. */
  lemma StoredIsRead(p: seq<bv8>, sign: bool, offset: nat, w: nat, x: int)
    requires 0 < w <= 64 && InRange(sign, w, x) && FieldBits(p, offset, w) == BitsOf(Word(x), w)
    ensures Field(p, sign, offset, w) == x
  {
    ValueOfBits(Word(x), w);
    ModMod(x, w);
    WrappedIs(sign, w, x, x, 0);
  }

  lemma LimitedInRange(sign: bool, w: nat, v: int, mode: Overflow)
    requires w > 0
    ensures InRange(sign, w, Limited(sign, w, v, mode))
  {
    WrappedInRange(sign, w, v);
  }

  lemma WordOf(x: nat)
    requires x < Pow2(64)
    ensures Word(x) == x
  {
    ModIs(x, Pow2(64), 0, x);
  }

  lemma RangeFits(sign: bool, w: nat, v: int)
    requires 0 < w <= 64 && (!sign ==> w < 64) && InRange(sign, w, v)
    ensures FitsInt64(v)
  {
    PowersAre();
    PowGrows(if sign then w - 1 else w, 63);
    hide Pow2;
  }

  /** BITFIELD INCRBY: the reply is the true sum, or what the overflow mode makes of it; it is what the field then
      holds, and no other bit changes. With FAIL nothing is written when the sum does not fit. */
  method IncrBy(p: array<bv8>, sign: bool, offset: nat, w: nat, incr: int, mode: Overflow) returns (reply: Option<int>)
    requires 0 < w <= 64 && (!sign ==> w < 64) && offset + w <= 8 * p.Length && -INT64 <= incr < INT64
    modifies p
    ensures var sum := Field(old(p[..]), sign, offset, w) + incr;
            && (reply.None? <==> mode == Fail && !InRange(sign, w, sum))
            && (reply.None? ==> p[..] == old(p[..]))
            && (reply.Some? ==> reply.value == Limited(sign, w, sum, mode) == Field(p[..], sign, offset, w))
    ensures SameOutside(p[..], old(p[..]), offset, w)
  {
    hide FieldBits, BitAt, BitsOf, Value, Pow2, Wrapped;
    var overflow: int, newval: int;
    if sign {
      var oldval := GetSigned(p, offset, w);
      newval := oldval + incr;
      RangeFits(sign, w, oldval);
      var wrapped;
      overflow, wrapped := CheckSigned(oldval, incr, w, mode);
      if overflow != 0 { newval := wrapped; }
      if overflow != 0 && mode == Fail { return None; }
      LimitedInRange(sign, w, oldval + incr, mode);
      SetSigned(p, offset, w, newval);
    } else {
      var oldval := GetUnsigned(p, offset, w);
      newval := oldval + incr;
      RangeFits(sign, w, oldval);
      var wrapped;
      overflow, wrapped := CheckUnsigned(oldval, incr, w, mode);
      if overflow != 0 { newval := wrapped; }
      if overflow != 0 && mode == Fail { return None; }
      LimitedInRange(sign, w, oldval + incr, mode);
      PowGrows(w, 64);
      WordOf(newval);
      SetUnsigned(p, offset, w, newval);
    }
    StoredIsRead(p[..], sign, offset, w, newval);
    return Some(newval);
  }

  /** What BITFIELD SET stores for `x`. Saturation fails for a negative number and an unsigned field, and for a number
      so far below a signed one that the difference leaves int64_t: both become the maximum. */
  ghost function Stored(sign: bool, w: nat, x: int, mode: Overflow): int
    requires w > 0
  {
    var right := InRange(sign, w, x) || (if sign then Clamps(w, x) else x >= 0);
    if mode == Sat && !right then Max(sign, w) else Limited(sign, w, x, mode)
  }

  /** Saturation stores the nearest number of the range exactly when the test above is met. */
  lemma StoredIff(sign: bool, w: nat, x: int)
    requires 0 < w <= 64 && (!sign ==> w < 64) && FitsInt64(x)
    ensures Stored(sign, w, x, Sat) == Limited(sign, w, x, Sat)
            <==> InRange(sign, w, x) || (if sign then Clamps(w, x) else x >= 0)
  {
    PowGrows(w - 1, 63);
    PowersAre();
    hide Pow2;
  }

  /** The least number of int64_t, stored in an 8-bit field, becomes the greatest of the field. */
  lemma LeastBecomesGreatest()
    ensures Stored(true, 8, -INT64, Sat) == 127 && Limited(true, 8, -INT64, Sat) == -128
    ensures Stored(false, 8, -1, Sat) == 255 && Limited(false, 8, -1, Sat) == 0
  {
    assert Pow2(7) == 128 && Pow2(8) == 256;
  }

  /** BITFIELD SET: the reply is the number that was there; with FAIL nothing is written when `x` does not fit. */
  method SetField(p: array<bv8>, sign: bool, offset: nat, w: nat, x: int, mode: Overflow) returns (reply: Option<int>)
    requires 0 < w <= 64 && (!sign ==> w < 64) && offset + w <= 8 * p.Length && FitsInt64(x)
    modifies p
    ensures reply.None? <==> mode == Fail && !InRange(sign, w, x)
    ensures reply.None? ==> p[..] == old(p[..])
    ensures reply.Some? ==> reply.value == Field(old(p[..]), sign, offset, w)
                            && Field(p[..], sign, offset, w) == Stored(sign, w, x, mode)
    ensures SameOutside(p[..], old(p[..]), offset, w)
  {
    hide FieldBits, BitAt, BitsOf, Value, Pow2, Wrapped;
    var overflow: int, newval: int, oldval: int;
    if sign {
      oldval := GetSigned(p, offset, w);
      newval := x;
      var wrapped;
      overflow, wrapped := CheckSigned(newval, 0, w, mode);
      if overflow != 0 { newval := wrapped; }
      if overflow != 0 && mode == Fail { return None; }
      LimitedInRange(sign, w, x, mode);
      MaxInRange(sign, w);
      SetSigned(p, offset, w, newval);
    } else {
      oldval := GetUnsigned(p, offset, w);
      CastOf(x, w);
      newval := Word(x);
      var wrapped;
      overflow, wrapped := CheckUnsigned(newval, 0, w, mode);
      if overflow != 0 { newval := wrapped; }
      if overflow != 0 && mode == Fail { return None; }
      LimitedInRange(sign, w, x, mode);
      MaxInRange(sign, w);
      PowGrows(w, 64);
      WordOf(newval);
      SetUnsigned(p, offset, w, newval);
    }
    StoredIsRead(p[..], sign, offset, w, newval);
    return Some(oldval);
  }

  lemma MaxInRange(sign: bool, w: nat)
    requires w > 0
    ensures InRange(sign, w, Max(sign, w))
  {}

  /** A number as uint64_t: a negative one is out of the range of every shorter field. */
  lemma CastOf(x: int, w: nat)
    requires 0 < w < 64 && FitsInt64(x)
    ensures 0 <= Word(x) < 2 * INT64 && (x >= 0 ==> Word(x) == x) && (x < 0 ==> Word(x) > Max(false, w))
    ensures Wrapped(false, w, Word(x)) == Wrapped(false, w, x)
  {
    PowersAre();
    PowGrows(w, 63);
    ModMod(x, w);
    ModIs(x, Pow2(64), if x >= 0 then 0 else -1, if x >= 0 then x else x + 2 * INT64);
    hide Pow2;
  }

  /** Up to nine bytes of the string, padded with zeros. */
  method Window(src: seq<bv8>, byte: nat) returns (buf: array<bv8>)
    ensures fresh(buf) && buf.Length == 9
    ensures forall k :: 0 <= k < 9 ==> buf[k] == if k + byte < |src| then src[k + byte] else 0
  {
    buf := new bv8[9](_ => 0);
    var i := 0;
    while i < 9 && i + byte < |src|
      invariant 0 <= i <= 9 && (i + byte <= |src| || i == 0)
      invariant forall k :: 0 <= k < 9 ==> buf[k] == if k < i then src[k + byte] else 0
    {
      buf[i] := src[i + byte];
      i := i + 1;
    }
  }

  /** BITFIELD GET, through a zeroed buffer of nine bytes: right wherever the field lies, even beyond the string. */
  method GetField(src: seq<bv8>, sign: bool, offset: nat, w: nat) returns (value: int)
    requires 0 < w <= 64
    ensures value == Field(src, sign, offset, w)
  {
    var byte := offset / 8;
    var buf := Window(src, byte);
    SameField(buf[..], src, offset, w);
    hide FieldBits, Value;
    if sign {
      value := GetSigned(buf, offset - byte * 8, w);
    } else {
      value := GetUnsigned(buf, offset - byte * 8, w);
    }
  }

  /** Nine bytes from the first byte of the field on hold the whole field. */
  lemma SameField(buf: seq<bv8>, src: seq<bv8>, offset: nat, w: nat)
    requires |buf| == 9 && w <= 64
    requires forall k :: 0 <= k < 9 ==> buf[k] == if k + offset / 8 < |src| then src[k + offset / 8] else 0
    ensures FieldBits(buf, offset % 8, w) == FieldBits(src, offset, w)
  {
    forall j | 0 <= j < w ensures FieldBits(buf, offset % 8, w)[j] == FieldBits(src, offset, w)[j] {
      var k := offset % 8 + j;
      assert (offset + j) / 8 == offset / 8 + k / 8 && (offset + j) % 8 == k % 8;
      hide Mask;
    }
    assert FieldBits(buf, offset % 8, w) == FieldBits(src, offset, w);
  }
}
