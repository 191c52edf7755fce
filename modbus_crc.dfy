/**
 * The MODBUS RTU CRC of src/rp2040/modbus.c: CRC-16 with the reflected
 * polynomial 0xA001 and initial value 0xFFFF, as in section 6.2.2 of the
 * MODBUS over Serial Line Specification and Implementation Guide V1.02.
 * The firmware precomputes one table entry per byte value and then runs
 * the table-driven form, one lookup per byte; the model proves that this
 * equals the bit-by-bit definition. A frame carries its CRC low byte first
 * (section 2.5.1.2 of the same guide).
 */
module ModbusCrc {
  /** A byte on the MODBUS line. */
  type byte = bv8

  /** The byte whose value is x, for an x that fits in one: C's (uint8_t)x.
   *  It is built bit by bit, which keeps the solver off its costly
   *  integer-to-bit-vector conversion. */
  function B(x: nat): byte
    requires x < 256
  {
    if x == 0 then 0 else (B(x / 2) << 1) | (if x % 2 == 1 then 1 else 0)
  }

  /** A byte as an integer. */
  function N(b: byte): (n: nat)
    ensures n < 256
  {
    b as nat
  }

  /** A byte taken from an integer below 256 reads back as that integer. */
  lemma {:induction false} ByteBack(x: nat)
    requires x < 256
    ensures N(B(x)) == x
  {
    if x > 0 {
      ByteBack(x / 2);
      Double(B(x / 2));
    }
  }

  /** Shifting a byte below 128 left doubles it, and setting the freed low
   *  bit adds one. */
  lemma Double(b: byte)
    requires N(b) < 128
    ensures N(b << 1) == 2 * N(b) && N((b << 1) | 1) == 2 * N(b) + 1 && N((b << 1) | 0) == 2 * N(b)
  {
  }

  /** One bit step of the CRC, written with a mask that is all ones when
   *  the low bit is 1 (CrcShiftMeans states it as a case split). */
  function CrcShift(c: bv16): bv16
  {
    (c >> 1) ^ ((0 - (c & 1)) & 0xA001)
  }

  /** The bit step shifts right, and xors 0xA001 exactly when the bit
   *  shifted out was 1. */
  lemma CrcShiftMeans(c: bv16)
    ensures c & 1 == 1 ==> CrcShift(c) == (c >> 1) ^ 0xA001
    ensures c & 1 == 0 ==> CrcShift(c) == c >> 1
  {
  }

  /** n bit steps. */
  function Shifts(c: bv16, n: nat): bv16
  {
    if n == 0 then c else CrcShift(Shifts(c, n - 1))
  }

  /** The branch-free bit step precompute_crc16 writes (modbus.c:26): the
   *  mask ((~crc & 1) - 1) is all ones exactly when the low bit is 1. */
  function TableRound(c: bv16): (r: bv16)
    ensures r == CrcShift(c)
  {
    (c >> 1) ^ (((!c & 1) - 1) & 0xA001)
  }

  /** The table entry for a byte value: the value after eight bit steps. */
  function TableEntry(v: byte): bv16
  {
    Shifts(v as bv16, 8)
  }

  /** The CRC of a byte string, bit by bit: start at 0xFFFF, and for each
   *  byte xor it into the low half and take eight bit steps. */
  function Crc(bs: seq<byte>): bv16
  {
    if bs == [] then 0xFFFF else Shifts(Crc(bs[..|bs| - 1]) ^ (bs[|bs| - 1] as bv16), 8)
  }

  /** The CRC's low and high bytes. */
  function Lo(c: bv16): byte
  {
    (c & 0xFF) as byte
  }

  function Hi(c: bv16): byte
  {
    (c >> 8) as byte
  }

  /** Two bytes read low byte first, as the receive routines compute
   *  lo + 256 * hi (the sum cannot exceed 0xFFFF). */
  function Word(lo: byte, hi: byte): bv16
  {
    (lo as bv16) | ((hi as bv16) << 8)
  }

  /** A frame as modbus_transmit sends it: the bytes, then the CRC low
   *  byte, then the high byte. */
  function WithCrc(m: seq<byte>): (f: seq<byte>)
  {
    m + [Lo(Crc(m)), Hi(Crc(m))]
  }

  /** The check every receive routine applies to a reply of len bytes: the
   *  CRC of all but the last two bytes equals those two bytes read low
   *  byte first. */
  predicate CrcMatches(cmd: seq<byte>, len: nat)
    requires 2 <= len <= |cmd|
  {
    Crc(cmd[..len - 2]) == Word(cmd[len - 2], cmd[len - 1])
  }

  /** The bit step is linear over xor. */
  lemma ShiftXor(a: bv16, b: bv16)
    ensures CrcShift(a ^ b) == CrcShift(a) ^ CrcShift(b)
  {
  }

  /** n bit steps are linear over xor. */
  lemma {:induction false} ShiftsXor(a: bv16, b: bv16, n: nat)
    ensures Shifts(a ^ b, n) == Shifts(a, n) ^ Shifts(b, n)
  {
    if n > 0 {
      ShiftsXor(a, b, n - 1);
      ShiftXor(Shifts(a, n - 1), Shifts(b, n - 1));
    }
  }

  /** A bit step of an even word is a plain shift. */
  lemma ShiftEven(x: bv16)
    requires x & 1 == 0
    ensures CrcShift(x) == x >> 1
  {
  }

  /** A word whose low byte is zero comes out of eight bit steps shifted
   *  right by eight: no 1 bit is shifted out. */
  lemma Shift8OfHigh(c: bv16)
    ensures Shifts(c & 0xFF00, 8) == c >> 8
  {
    var x0 := c & 0xFF00;
    var x1 := x0 >> 1;
    var x2 := x1 >> 1;
    var x3 := x2 >> 1;
    var x4 := x3 >> 1;
    var x5 := x4 >> 1;
    var x6 := x5 >> 1;
    var x7 := x6 >> 1;
    assert x0 & 1 == 0 && x1 & 1 == 0 && x2 & 1 == 0 && x3 & 1 == 0;
    assert x4 & 1 == 0 && x5 & 1 == 0 && x6 & 1 == 0 && x7 & 1 == 0;
    assert x7 >> 1 == c >> 8;
    ShiftEven(x0); assert Shifts(x0, 1) == x1;
    ShiftEven(x1); assert Shifts(x0, 2) == x2;
    ShiftEven(x2); assert Shifts(x0, 3) == x3;
    ShiftEven(x3); assert Shifts(x0, 4) == x4;
    ShiftEven(x4); assert Shifts(x0, 5) == x5;
    ShiftEven(x5); assert Shifts(x0, 6) == x6;
    ShiftEven(x6); assert Shifts(x0, 7) == x7;
    ShiftEven(x7); assert Shifts(x0, 8) == x7 >> 1;
  }

  /**
   * The step of the table-driven loop (modbus.c:35-36): eight bit steps of
   * c equal c shifted right by eight, xored with the table entry of c's low
   * byte.
   */
  lemma TableDriven(c: bv16)
    ensures Shifts(c, 8) == (c >> 8) ^ TableEntry((c & 0xFF) as byte)
  {
    var lo := c & 0xFF;
    var hi := c & 0xFF00;
    assert c == hi ^ lo;
    ShiftsXor(hi, lo, 8);
    Shift8OfHigh(c);
    assert (lo as byte) as bv16 == lo;
  }

  /** The low and high bytes of a CRC recompose it, and only they do. */
  lemma LoHi(c: bv16, lo: byte, hi: byte)
    ensures Word(Lo(c), Hi(c)) == c
    ensures Word(lo, hi) == c ==> lo == Lo(c) && hi == Hi(c)
  {
  }

  /** A frame built by modbus_transmit passes the receive check. */
  lemma WithCrcMatches(m: seq<byte>)
    ensures |WithCrc(m)| == |m| + 2
    ensures CrcMatches(WithCrc(m), |m| + 2)
  {
    var f := WithCrc(m);
    assert f[..|m|] == m;
    LoHi(Crc(m), 0, 0);
  }

  /** A reply whose CRC bytes differ from the CRC of its body fails the
   *  check. */
  lemma CorruptedCrcFails(m: seq<byte>, lo: byte, hi: byte)
    requires lo != Lo(Crc(m)) || hi != Hi(Crc(m))
    ensures !CrcMatches(m + [lo, hi], |m| + 2)
  {
    var f := m + [lo, hi];
    assert f[..|m|] == m;
    LoHi(Crc(m), lo, hi);
  }

  /** The inner loop of precompute_crc16 (modbus.c:24-27): eight branch-free
   *  bit steps of one byte value. */
  method TableValue(value: byte) returns (crc16: bv16)
    ensures crc16 == TableEntry(value)
  {
    crc16 := value as bv16;
    var j := 0;
    while j < 8
      invariant 0 <= j <= 8
      invariant crc16 == Shifts(value as bv16, j)
    {
      crc16 := TableRound(crc16);
      j := j + 1;
    }
  }

  /** precompute_crc16 (modbus.c:22-30): fills the 256-entry table. */
  method PrecomputeCrc16(table: array<bv16>)
    requires table.Length == 256
    modifies table
    ensures TableOk(table)
  {
    var value := 0;
    while value < 256
      invariant 0 <= value <= 256
      invariant forall b: byte :: (b as int) < value ==> table[b as int] == TableEntry(b)
    {
      var crc16 := TableValue(value as byte);
      table[value] := crc16;
      value := value + 1;
    }
  }

  ghost predicate TableOk(table: array<bv16>)
    reads table
  {
    table.Length == 256 && forall b: byte :: table[b as int] == TableEntry(b)
  }

  /** One byte of the CRC, bitwise. */
  lemma CrcSnoc(bs: seq<byte>, b: byte)
    ensures Crc(bs + [b]) == Shifts(Crc(bs) ^ (b as bv16), 8)
  {
    assert (bs + [b])[..|bs|] == bs;
  }

  /** One table lookup takes the eight bit steps of a byte. */
  lemma TableLookup(table: array<bv16>, c: bv16)
    requires TableOk(table)
    ensures (c >> 8) ^ table[((c & 0xFF) as byte) as int] == Shifts(c, 8)
  {
    var b := (c & 0xFF) as byte;
    assert table[b as int] == TableEntry(b);
    TableDriven(c);
  }

  /** modbus_crc16 (modbus.c:32-39): the table-driven CRC of data[..size]
   *  equals the bitwise CRC. */
  method ModbusCrc16(table: array<bv16>, data: array<byte>, size: nat) returns (crc16: bv16)
    requires TableOk(table) && size <= data.Length && size < 256
    ensures crc16 == Crc(data[..size])
  {
    crc16 := 0xFFFF;
    var i := 0;
    while i < size
      invariant i <= size
      invariant crc16 == Crc(data[..i])
    {
      assert data[..i + 1] == data[..i] + [data[i]];
      CrcSnoc(data[..i], data[i]);
      crc16 := crc16 ^ (data[i] as bv16);
      TableLookup(table, crc16);
      crc16 := (crc16 >> 8) ^ table[((crc16 & 0xFF) as byte) as int];
      i := i + 1;
    }
    assert data[..size] == data[..i];
  }
}
