/**
 * Fixed-width C integers as subsets of int, and the C operators whose
 * meaning differs from Dafny's: wrap-around on unsigned arithmetic,
 * two's-complement reinterpretation on signed conversion, and division
 * that truncates toward zero.
 */
module CInt {
  type u8 = x: int | 0 <= x < 0x100
  type u16 = x: int | 0 <= x < 0x1_0000
  type u32 = x: int | 0 <= x < 0x1_0000_0000
  type i8 = x: int | -0x80 <= x < 0x80
  type i16 = x: int | -0x8000 <= x < 0x8000
  type i32 = x: int | -0x8000_0000 <= x < 0x8000_0000

  /** A C float or double, carried as its raw IEEE-754 bit pattern read
   *  as an unsigned integer; the model never computes with one. */
  type F32 = x: int | 0 <= x < 0x1_0000_0000
  type F64 = x: int | 0 <= x < 0x1_0000_0000_0000_0000

  const UINT_MAX: u32 := 0xFFFF_FFFF
  const INT32_MIN: i32 := -0x8000_0000

  /** Conversion of any integer to uint8_t (reduction modulo 2^8). */
  function U8(x: int): (r: u8)
    ensures 0 <= x < 0x100 ==> r == x
  {
    x % 0x100
  }

  /** Conversion of any integer to uint16_t (reduction modulo 2^16). */
  function U16(x: int): (r: u16)
    ensures 0 <= x < 0x1_0000 ==> r == x
  {
    x % 0x1_0000
  }

  /** Conversion of any integer to uint32_t (reduction modulo 2^32). */
  function U32(x: int): (r: u32)
    ensures 0 <= x < 0x1_0000_0000 ==> r == x
  {
    x % 0x1_0000_0000
  }

  /** Two's-complement reinterpretation of an integer as int32_t. */
  function I32(x: int): (r: i32)
    ensures INT32_MIN <= x < 0x8000_0000 ==> r == x
    ensures 0x8000_0000 <= x < 0x1_0000_0000 ==> r == x - 0x1_0000_0000
  {
    var u := U32(x);
    if u < 0x8000_0000 then u else u - 0x1_0000_0000
  }

  /** Two's-complement reinterpretation of an integer as int16_t. */
  function I16(x: int): (r: i16)
    ensures -0x8000 <= x < 0x8000 ==> r == x
    ensures 0x8000 <= x < 0x1_0000 ==> r == x - 0x1_0000
  {
    var u := U16(x);
    if u < 0x8000 then u else u - 0x1_0000
  }

  /** Two's-complement reinterpretation of an integer as int8_t. */
  function I8(x: int): (r: i8)
    ensures -0x80 <= x < 0x80 ==> r == x
    ensures 0x80 <= x < 0x100 ==> r == x - 0x100
  {
    var u := U8(x);
    if u < 0x80 then u else u - 0x100
  }

  function Abs(x: int): (r: nat)
    ensures r == x || r == -x
  {
    if x < 0 then -x else x
  }

  /** C's `/`, which truncates toward zero (Dafny's `/` is Euclidean). */
  function CDiv(n: int, d: int): (q: int)
    requires d != 0
    ensures d > 0 ==> Abs(q) == Abs(n) / d
    ensures d < 0 ==> Abs(q) == Abs(n) / -d
    ensures (n >= 0) == (d > 0) ==> q >= 0
    ensures (n >= 0) != (d > 0) ==> q <= 0
  {
    var q := Abs(n) / Abs(d);
    assert q >= 0 by { DivNonNegative(Abs(n), Abs(d)); }
    if (n < 0) == (d < 0) then q else -q
  }

  lemma DivNonNegative(n: nat, d: nat)
    requires d > 0
    ensures n / d >= 0
  {
  }

  /** Bit `i` of an unsigned value. */
  function Bit(x: nat, i: nat): (b: bool)
  {
    (x / Pow2(i)) % 2 == 1
  }

  function Pow2(i: nat): (r: nat)
    ensures r >= 1
  {
    if i == 0 then 1 else 2 * Pow2(i - 1)
  }

  /** 2^(a+b) = 2^a * 2^b. */
  lemma {:induction false} Pow2Add(a: nat, b: nat)
    ensures Pow2(a + b) == Pow2(a) * Pow2(b)
  {
    if a > 0 {
      Pow2Add(a - 1, b);
      assert Pow2(a + b) == 2 * Pow2(a - 1 + b);
    }
  }

  lemma Pow2Of32()
    ensures Pow2(32) == 0x1_0000_0000
  {
    assert Pow2(2) == 4;
    Pow2Add(2, 2);
    Pow2Add(4, 4);
    Pow2Add(8, 8);
    Pow2Add(16, 16);
  }

  /** Bit 0 of b + 2w is b, and bit j + 1 is bit j of w. */
  lemma BitOfDouble(b: nat, w: nat, j: nat)
    requires b <= 1
    ensures Bit(b + 2 * w, 0) == (b == 1)
    ensures Bit(b + 2 * w, j + 1) == Bit(w, j)
  {
    var p := Pow2(j);
    assert Pow2(j + 1) == 2 * p;
    DivModUnique(w, p, w / p, w % p);
    DivModUnique(b + 2 * w, 2 * p, w / p, b + 2 * (w % p));
  }

  function BoolToInt(b: bool): (r: nat)
    ensures r <= 1 && (r == 1 <==> b)
  {
    if b then 1 else 0
  }

  /** 8-bit little-endian bytes of a 32-bit word, lowest first. */
  function LeBytes32(w: u32): (bs: seq<u8>)
    ensures |bs| == 4
    ensures LeWord32(bs) == w
  {
    var q1 := w / 0x100;
    var q2 := q1 / 0x100;
    [w % 0x100, q1 % 0x100, q2 % 0x100, q2 / 0x100]
  }

  /** The 32-bit word whose little-endian bytes are bs[0..4]. */
  function LeWord32(bs: seq<u8>): (w: u32)
    requires |bs| >= 4
  {
    bs[0] + 0x100 * (bs[1] as int) + 0x1_0000 * (bs[2] as int) + 0x100_0000 * (bs[3] as int)
  }

  lemma {:induction false} LeWord32Bytes(bs: seq<u8>)
    requires |bs| == 4
    ensures LeBytes32(LeWord32(bs)) == bs
  {
    var w := LeWord32(bs);
    var b0, b1, b2, b3: int := bs[0], bs[1], bs[2], bs[3];
    DivModUnique(w, 0x100, b1 + 0x100 * b2 + 0x1_0000 * b3, b0);
    DivModUnique(b1 + 0x100 * b2 + 0x1_0000 * b3, 0x100, b2 + 0x100 * b3, b1);
    DivModUnique(b2 + 0x100 * b3, 0x100, b3, b2);
    DivModUnique(b3, 0x100, 0, b3);
  }

  /** Euclidean division is determined by quotient and remainder. */
  lemma DivModUnique(n: int, d: int, q: int, r: int)
    requires d > 0 && 0 <= r < d && n == q * d + r
    ensures n / d == q && n % d == r
  {
    var q0, r0 := n / d, n % d;
    assert (q - q0) * d == r0 - r;
    if q > q0 {
      MulAtLeast(q - q0, d);
    } else if q < q0 {
      MulAtLeast(q0 - q, d);
    }
  }

  lemma MulAtLeast(k: int, d: int)
    requires k >= 1 && d > 0
    ensures k * d >= d
  {
    assert k * d == (k - 1) * d + d;
    assert (k - 1) * d >= 0;
  }

  /** (a mod m + b) mod m = (a + b) mod m. */
  lemma ModAddBoth(a: int, b: int, m: int)
    requires m > 0
    ensures (a % m + b) % m == (a + b) % m
  {
    var q := a / m;
    assert a == q * m + a % m;
    ModShift(a % m + b, q, m);
  }

  /** Adding a multiple of m does not change a residue. */
  lemma ModShift(a: int, k: int, m: int)
    requires m > 0
    ensures (a + k * m) % m == a % m
  {
    DivModUnique(a + k * m, m, a / m + k, a % m);
  }

  /** The difference of two uint32_t values read as int32_t, added back in
   *  uint32_t, recovers the second value: wrapping position arithmetic
   *  needs no more than 32 bits of difference. */
  lemma WrapDiff(a: u32, b: u32)
    ensures U32(a + I32(b - a)) == b
  {
    var d := b - a;
    if d >= 0x8000_0000 {
      assert I32(d) == d - 0x1_0000_0000;
      DivModUnique(b - 0x1_0000_0000, 0x1_0000_0000, -1, b);
    } else if d < 0 {
      DivModUnique(d, 0x1_0000_0000, -1, d + 0x1_0000_0000);
      if d + 0x1_0000_0000 < 0x8000_0000 {
        assert I32(d) == d + 0x1_0000_0000;
        DivModUnique(b + 0x1_0000_0000, 0x1_0000_0000, 1, b);
      } else {
        assert I32(d) == d;
      }
    }
  }

  /** Reading a value as int32_t keeps it modulo 2^32, so adding it in
   *  uint32_t adds the value itself. */
  lemma I32Congruent(a: int, x: int)
    ensures U32(I32(x)) == U32(x)
    ensures U32(a + I32(x)) == U32(a + x)
  {
    var u: int := U32(x);
    if u >= 0x8000_0000 {
      DivModUnique(u - 0x1_0000_0000, 0x1_0000_0000, -1, u);
    }
    ModAddBoth(I32(x), a, 0x1_0000_0000);
    ModAddBoth(x, a, 0x1_0000_0000);
  }

  /** The uint32_t whose bit j is bits[j]. */
  function BitsWord(bits: seq<bool>): (w: nat)
    requires |bits| <= 32
    ensures w < Pow2(|bits|)
    ensures forall j :: 0 <= j < |bits| ==> Bit(w, j) == bits[j]
    decreases |bits|
  {
    if |bits| == 0 then 0
    else
      var rest := BitsWord(bits[1..]);
      var w := BoolToInt(bits[0]) + 2 * rest;
      assert forall j :: 0 <= j < |bits| ==> Bit(w, j) == bits[j] by {
        forall j | 0 <= j < |bits|
          ensures Bit(w, j) == bits[j]
        {
          BitOfDouble(BoolToInt(bits[0]), rest, if j == 0 then 0 else j - 1);
        }
      }
      w
  }

  /** The word of bank `bank` of a pin table: bit j is pin 32 * bank + j. */
  function BankWord(bits: seq<bool>, bank: nat): (w: u32)
    requires (bank + 1) * 32 <= |bits|
    ensures forall j :: 0 <= j < 32 ==> Bit(w, j) == bits[bank * 32 + j]
  {
    Pow2Of32();
    BitsWord(bits[bank * 32..(bank + 1) * 32])
  }
}
