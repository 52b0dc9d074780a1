/** The base-128 varint reader of protocol/header.go. */
module Varint {
  import opened Bytes

  function Pow2(n: nat): (p: nat)
    ensures p > 0
  {
    if n == 0 then 1 else 2 * Pow2(n - 1)
  }

  const TWO64: int := 0x1_0000_0000_0000_0000

  // ------------------------------------------- Go's operators on unsigned integers

  /** `x | y` */
  function BitOr(x: nat, y: nat): nat
    decreases x + y
  {
    if x == 0 && y == 0 then 0
    else (if x % 2 == 1 || y % 2 == 1 then 1 else 0) + 2 * BitOr(x / 2, y / 2)
  }

  /** `x & y` */
  function BitAnd(x: nat, y: nat): nat {
    if x == 0 || y == 0 then 0
    else (if x % 2 == 1 && y % 2 == 1 then 1 else 0) + 2 * BitAnd(x / 2, y / 2)
  }

  /** `x << s` on uint64 */
  function ShiftLeft(x: uint64, s: nat): uint64 {
    x * Pow2(s) % TWO64
  }

  /** The quotient and remainder are the only ones. */
  lemma DivModUnique(x: int, d: int, q: int, r: int)
    requires x == q * d + r && 0 <= r < d
    ensures x / d == q && x % d == r
  {
    MulMonotone(x / d - q, d);
  }

  lemma MulMonotone(k: int, d: int)
    requires d > 0
    ensures k >= 1 ==> k * d >= d
    ensures k <= -1 ==> k * d <= -d
  {}

  lemma ModDouble(x: nat, m: nat)
    requires m > 0
    ensures x % (2 * m) == 2 * ((x / 2) % m) + x % 2
  {
    var q, r := (x / 2) / m, (x / 2) % m;
    assert q * (2 * m) == 2 * (q * m);
    DivModUnique(x, 2 * m, q, 2 * r + x % 2);
  }

  lemma AndDouble(x: nat, m: nat)
    requires m > 0
    ensures BitAnd(x, 2 * m - 1) == x % 2 + 2 * BitAnd(x / 2, m - 1)
  {
    assert (2 * m - 1) / 2 == m - 1 && (2 * m - 1) % 2 == 1;
  }

  lemma {:induction false} AndMask(x: nat, k: nat)
    ensures BitAnd(x, Pow2(k) - 1) == x % Pow2(k)
  {
    if k > 0 {
      var m := Pow2(k - 1);
      AndMask(x / 2, k - 1);
      ModDouble(x, m);
      AndDouble(x, m);
      assert Pow2(k) == 2 * m;
    }
  }

  /** `b & 0x7f` */
  lemma LowSeven(b: byte)
    ensures BitAnd(b, 0x7f) == b % 0x80
  {
    AndMask(b, 7);
    Pow7();
  }

  lemma Pow7()
    ensures Pow2(7) == 0x80
  {
    assert Pow2(4) == 0x10;
  }

  /** Or-ing in bits above all those of `x` is addition. */
  lemma {:induction false} OrDisjoint(x: nat, y: nat, s: nat)
    requires x < Pow2(s)
    ensures BitOr(x, y * Pow2(s)) == x + y * Pow2(s)
  {
    if s == 0 {
      OrZero(y);
      assert x == 0 && y * Pow2(s) == y;
    } else {
      var h := y * Pow2(s - 1);
      assert y * Pow2(s) == 2 * h;
      OrDisjoint(x / 2, y, s - 1);
    }
  }

  lemma {:induction false} OrZero(y: nat)
    ensures BitOr(0, y) == y
  {
    if y > 0 { OrZero(y / 2); }
  }

  lemma {:induction false} Pow2Adds(a: nat, b: nat)
    ensures Pow2(a + b) == Pow2(a) * Pow2(b)
  {
    if a > 0 { Pow2Adds(a - 1, b); }
  }

  // ------------------------------------------------------------ What a varint means

  /** The number whose base-128 digits are the low seven bits of each byte, least
      significant first. */
  function Digits(bs: Bytes): nat {
    if bs == [] then 0 else bs[0] % 0x80 + 0x80 * Digits(bs[1..])
  }

  /** The position of the first byte without a continuation bit, or the length. */
  function Stop(buf: Bytes): (k: nat)
    ensures k <= |buf|
  {
    if buf == [] || buf[0] < 0x80 then 0 else 1 + Stop(buf[1..])
  }

  lemma {:induction false} StopIff(buf: Bytes, k: nat)
    requires k <= |buf|
    ensures Stop(buf) == k <==> (k < |buf| ==> buf[k] < 0x80) && forall j | 0 <= j < k :: buf[j] >= 0x80
  {
    if k > 0 {
      StopIff(buf[1..], k - 1);
      if buf[0] >= 0x80 && Stop(buf[1..]) == k - 1 {
        forall j | 0 < j < k ensures buf[j] >= 0x80 { assert buf[j] == buf[1..][j - 1]; }
      }
    }
  }

  datatype VarintResult = Value(value: uint64, consumed: nat) | Overflow | Truncated

  function Uvarint(buf: Bytes): (r: VarintResult)
    ensures r.Value? ==> 1 <= r.consumed <= |buf| && r.consumed <= 10
  {
    var k := Stop(buf);
    if k < |buf| && k < 10 then Value(Digits(buf[..k + 1]) % TWO64, k + 1)
    else if |buf| > 10 then Overflow
    else Truncated
  }

  lemma {:induction false} DigitsBound(bs: Bytes)
    ensures Digits(bs) < Pow2(7 * |bs|)
  {
    if bs != [] {
      DigitsBound(bs[1..]);
      Pow2Adds(7, 7 * |bs[1..]|);
      Pow7();
    }
  }

  lemma {:induction false} DigitsSnoc(bs: Bytes, b: byte)
    ensures Digits(bs + [b]) == Digits(bs) + b % 0x80 * Pow2(7 * |bs|)
  {
    if bs == [] {
      assert bs + [b] == [b];
      assert [b][1..] == [];
    } else {
      DigitsSnoc(bs[1..], b);
      assert (bs + [b])[1..] == bs[1..] + [b];
      Pow2Adds(7, 7 * |bs[1..]|);
      Pow7();
      Regroup(0x80, b % 0x80, Pow2(7 * |bs[1..]|));
    }
  }

  lemma Regroup(a: int, b: int, c: int)
    ensures a * (b * c) == b * (a * c)
  {}

  /** Shifting `m` left by `s` in `s + t` bits keeps the low `t` bits of `m`. */
  lemma ShiftKeepsLow(m: nat, low: nat, top: nat, all: nat)
    requires low > 0 && top > 0 && all == low * top
    ensures m * low % all == m % top * low
    ensures m % top * low + low <= all
    ensures m * low == m / top * all + m % top * low
  {
    var q, r := m / top, m % top;
    assert m * low == q * all + r * low by {
      assert m == q * top + r;
      assert (q * top + r) * low == q * top * low + r * low;
      Regroup(q, top, low);
      Regroup(top, q, low);
    }
    MulMonotone(top - r, low);
    assert top * low - r * low == (top - r) * low;
    MulNonNegative(r, low);
    DivModUnique(m * low, all, q, r * low);
  }

  lemma MulNonNegative(a: nat, b: nat)
    ensures a * b >= 0
  {}

  /** One accumulation step, `x | uint64(m) << s`, on the digits read so far. */
  lemma Accumulate(bs: Bytes, b: byte)
    requires |bs| < 10
    ensures BitOr(Digits(bs), ShiftLeft(b % 0x80, 7 * |bs|)) == Digits(bs + [b]) % TWO64
  {
    hide BitOr, Pow2, Digits;
    var s, m := 7 * |bs|, b % 0x80;
    DigitsBound(bs);
    DigitsSnoc(bs, b);
    Pow2Adds(s, 64 - s);
    Pow64();
    SmallPow(s);
    ShiftKeepsLow(m, Pow2(s), Pow2(64 - s), TWO64);
    var r := m % Pow2(64 - s);
    OrDisjoint(Digits(bs), r, s);
    DivModUnique(Digits(bs + [b]), TWO64, m / Pow2(64 - s), Digits(bs) + r * Pow2(s));
  }

  lemma Pow64()
    ensures Pow2(64) == TWO64
  {
    assert Pow2(8) == 0x100;
    hide Pow2;
    Pow2Adds(8, 8);
    Pow2Adds(16, 16);
    Pow2Adds(32, 32);
  }

  lemma DigitsFit(bs: Bytes)
    requires |bs| < 10
    ensures Digits(bs) % TWO64 == Digits(bs)
  {
    DigitsBound(bs);
    SmallPow(7 * |bs|);
  }

  /** The step at index i, as the reader takes it. */
  lemma ReadStep(buf: Bytes, i: nat)
    requires i < |buf| && i < 10
    ensures BitAnd(buf[i], 0x7f) == buf[i] % 0x80
    ensures BitOr(Digits(buf[..i]), ShiftLeft(buf[i] % 0x80, 7 * i)) == Digits(buf[..i + 1]) % TWO64
    ensures i < 9 ==> Digits(buf[..i + 1]) % TWO64 == Digits(buf[..i + 1])
  {
    hide BitOr, BitAnd, ShiftLeft, Digits;
    var bs, b := buf[..i], buf[i];
    LowSeven(b);
    Accumulate(bs, b);
    assert buf[..i + 1] == bs + [b];
    if i < 9 {
      DigitsFit(buf[..i + 1]);
    }
  }

  /** The reader: at most ten bytes, accumulated with or and shift, give the digits
      of the varint modulo 2^64. */
  method ReadUvarint(buf: Bytes) returns (r: VarintResult)
    ensures r == Uvarint(buf)
  {
    hide BitOr, BitAnd, ShiftLeft, Stop;
    var x: nat := 0;
    var s: nat := 0;
    for i := 0 to |buf|
      invariant s == 7 * i && i <= 10
      invariant i < 10 ==> x == Digits(buf[..i])
      invariant forall j | 0 <= j < i :: buf[j] >= 0x80
    {
      if i >= 10 {
        StopIff(buf, Stop(buf));
        return Overflow;
      }
      var b := buf[i];
      ReadStep(buf, i);
      if b < 0x80 {
        StopIff(buf, i);
        return Value(BitOr(x, ShiftLeft(b, s)), i + 1);
      }
      x := BitOr(x, ShiftLeft(BitAnd(b, 0x7f), s));
      s := s + 7;
    }
    StopIff(buf, Stop(buf));
    return Truncated;
  }

  lemma {:induction false} Pow2Grows(a: nat, b: nat)
    requires a < b
    ensures Pow2(a) < Pow2(b)
  {
    if a + 1 < b { Pow2Grows(a, b - 1); }
  }

  lemma SmallPow(n: nat)
    requires n < 64
    ensures Pow2(n) < TWO64
  {
    hide Pow2;
    Pow2Grows(n, 64);
    Pow64();
  }

  // -------------------------------------------------------------- The encoding

  /** The canonical encoding of an unsigned number. */
  function EncodeUvarint(v: nat): (b: Bytes)
    ensures b != []
  {
    if v < 0x80 then [v] else [0x80 + v % 0x80] + EncodeUvarint(v / 0x80)
  }

  lemma {:induction false} EncodingShape(v: nat, k: nat, rest: Bytes)
    requires v < Pow2(7 * k) && k > 0
    ensures |EncodeUvarint(v)| <= k
    ensures Digits(EncodeUvarint(v)) == v
    ensures Stop(EncodeUvarint(v) + rest) == |EncodeUvarint(v)| - 1
  {
    var e := EncodeUvarint(v) + rest;
    if v < 0x80 {
      assert e[0] == v;
    } else {
      Pow7();
      Pow2Adds(7, 7 * (k - 1));
      EncodingShape(v / 0x80, k - 1, rest);
      assert EncodeUvarint(v)[1..] == EncodeUvarint(v / 0x80);
      assert e[1..] == EncodeUvarint(v / 0x80) + rest;
    }
  }

  lemma EncodeZero()
    ensures EncodeUvarint(0) == [0]
  {}

  lemma {:induction false} EncodedLength(v: nat, k: nat)
    requires v >= Pow2(7 * k)
    ensures |EncodeUvarint(v)| > k
  {
    if k > 0 {
      Pow7();
      Pow2Adds(7, 7 * (k - 1));
      EncodedLength(v / 0x80, k - 1);
    }
  }

  /** A uint64 with its top bit set takes ten bytes. */
  lemma TopBitTakesTen(v: uint64)
    requires v >= 0x8000_0000_0000_0000
    ensures |EncodeUvarint(v)| == 10
  {
    hide Pow2, EncodeUvarint;
    assert Pow2(64) == 2 * Pow2(63) by { Pow2Step(63); }
    Pow64();
    EncodedLength(v, 9);
    UvarintRoundTrip(v, []);
  }

  lemma Pow2Step(n: nat)
    ensures Pow2(n + 1) == 2 * Pow2(n)
  {}

  /** The reader inverts the encoding of every uint64, whatever follows it. */
  lemma UvarintRoundTrip(v: uint64, rest: Bytes)
    ensures Uvarint(EncodeUvarint(v) + rest) == Value(v, |EncodeUvarint(v)|)
    ensures |EncodeUvarint(v)| <= 10
  {
    Pow64();
    Pow2Adds(64, 6);
    assert Pow2(6) == 0x40;
    EncodingShape(v, 10, rest);
    var e := EncodeUvarint(v);
    assert (e + rest)[..|e|] == e;
  }

  /** A varint that is read depends on its own bytes only. */
  lemma UvarintLocal(buf: Bytes, other: Bytes)
    requires Uvarint(buf).Value?
    requires Uvarint(buf).consumed <= |other|
    requires buf[..Uvarint(buf).consumed] == other[..Uvarint(buf).consumed]
    ensures Uvarint(other) == Uvarint(buf)
  {
    var k := Stop(buf);
    StopIff(buf, k);
    forall j | 0 <= j <= k ensures other[j] == buf[j] {
      assert buf[..k + 1][j] == other[..k + 1][j];
    }
    StopIff(other, k);
  }
}
