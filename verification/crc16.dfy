/**
 * The CRC-16 of Modbus RTU (Modbus over Serial Line V1.02, section 6.2.2):
 * reflected polynomial 0xA001, initial register 0xFFFF, one table lookup per
 * byte. `calcCrc` and `crcTable` in jkcmd.c.
 */
module Crc16 {

  // crcTable, in the source's order, split into sixteen rows of sixteen
  // entries so that each row can be checked on its own.
  const CrcRow0: seq<bv16> := [
    0x0000, 0xC0C1, 0xC181, 0x0140, 0xC301, 0x03C0, 0x0280, 0xC241,
    0xC601, 0x06C0, 0x0780, 0xC741, 0x0500, 0xC5C1, 0xC481, 0x0440
  ]
  const CrcRow1: seq<bv16> := [
    0xCC01, 0x0CC0, 0x0D80, 0xCD41, 0x0F00, 0xCFC1, 0xCE81, 0x0E40,
    0x0A00, 0xCAC1, 0xCB81, 0x0B40, 0xC901, 0x09C0, 0x0880, 0xC841
  ]
  const CrcRow2: seq<bv16> := [
    0xD801, 0x18C0, 0x1980, 0xD941, 0x1B00, 0xDBC1, 0xDA81, 0x1A40,
    0x1E00, 0xDEC1, 0xDF81, 0x1F40, 0xDD01, 0x1DC0, 0x1C80, 0xDC41
  ]
  const CrcRow3: seq<bv16> := [
    0x1400, 0xD4C1, 0xD581, 0x1540, 0xD701, 0x17C0, 0x1680, 0xD641,
    0xD201, 0x12C0, 0x1380, 0xD341, 0x1100, 0xD1C1, 0xD081, 0x1040
  ]
  const CrcRow4: seq<bv16> := [
    0xF001, 0x30C0, 0x3180, 0xF141, 0x3300, 0xF3C1, 0xF281, 0x3240,
    0x3600, 0xF6C1, 0xF781, 0x3740, 0xF501, 0x35C0, 0x3480, 0xF441
  ]
  const CrcRow5: seq<bv16> := [
    0x3C00, 0xFCC1, 0xFD81, 0x3D40, 0xFF01, 0x3FC0, 0x3E80, 0xFE41,
    0xFA01, 0x3AC0, 0x3B80, 0xFB41, 0x3900, 0xF9C1, 0xF881, 0x3840
  ]
  const CrcRow6: seq<bv16> := [
    0x2800, 0xE8C1, 0xE981, 0x2940, 0xEB01, 0x2BC0, 0x2A80, 0xEA41,
    0xEE01, 0x2EC0, 0x2F80, 0xEF41, 0x2D00, 0xEDC1, 0xEC81, 0x2C40
  ]
  const CrcRow7: seq<bv16> := [
    0xE401, 0x24C0, 0x2580, 0xE541, 0x2700, 0xE7C1, 0xE681, 0x2640,
    0x2200, 0xE2C1, 0xE381, 0x2340, 0xE101, 0x21C0, 0x2080, 0xE041
  ]
  const CrcRow8: seq<bv16> := [
    0xA001, 0x60C0, 0x6180, 0xA141, 0x6300, 0xA3C1, 0xA281, 0x6240,
    0x6600, 0xA6C1, 0xA781, 0x6740, 0xA501, 0x65C0, 0x6480, 0xA441
  ]
  const CrcRow9: seq<bv16> := [
    0x6C00, 0xACC1, 0xAD81, 0x6D40, 0xAF01, 0x6FC0, 0x6E80, 0xAE41,
    0xAA01, 0x6AC0, 0x6B80, 0xAB41, 0x6900, 0xA9C1, 0xA881, 0x6840
  ]
  const CrcRowA: seq<bv16> := [
    0x7800, 0xB8C1, 0xB981, 0x7940, 0xBB01, 0x7BC0, 0x7A80, 0xBA41,
    0xBE01, 0x7EC0, 0x7F80, 0xBF41, 0x7D00, 0xBDC1, 0xBC81, 0x7C40
  ]
  const CrcRowB: seq<bv16> := [
    0xB401, 0x74C0, 0x7580, 0xB541, 0x7700, 0xB7C1, 0xB681, 0x7640,
    0x7200, 0xB2C1, 0xB381, 0x7340, 0xB101, 0x71C0, 0x7080, 0xB041
  ]
  const CrcRowC: seq<bv16> := [
    0x5000, 0x90C1, 0x9181, 0x5140, 0x9301, 0x53C0, 0x5280, 0x9241,
    0x9601, 0x56C0, 0x5780, 0x9741, 0x5500, 0x95C1, 0x9481, 0x5440
  ]
  const CrcRowD: seq<bv16> := [
    0x9C01, 0x5CC0, 0x5D80, 0x9D41, 0x5F00, 0x9FC1, 0x9E81, 0x5E40,
    0x5A00, 0x9AC1, 0x9B81, 0x5B40, 0x9901, 0x59C0, 0x5880, 0x9841
  ]
  const CrcRowE: seq<bv16> := [
    0x8801, 0x48C0, 0x4980, 0x8941, 0x4B00, 0x8BC1, 0x8A81, 0x4A40,
    0x4E00, 0x8EC1, 0x8F81, 0x4F40, 0x8D01, 0x4DC0, 0x4C80, 0x8C41
  ]
  const CrcRowF: seq<bv16> := [
    0x4400, 0x84C1, 0x8581, 0x4540, 0x8701, 0x47C0, 0x4680, 0x8641,
    0x8201, 0x42C0, 0x4380, 0x8341, 0x4100, 0x81C1, 0x8081, 0x4040
  ]

  const CrcTable: seq<bv16> :=
    (((CrcRow0 + CrcRow1) + (CrcRow2 + CrcRow3)) + ((CrcRow4 + CrcRow5) + (CrcRow6 + CrcRow7))) +
    (((CrcRow8 + CrcRow9) + (CrcRowA + CrcRowB)) + ((CrcRowC + CrcRowD) + (CrcRowE + CrcRowF)))

  /** Reflected generator polynomial x^16 + x^15 + x^2 + 1. */
  const Poly: bv16 := 0xA001
  /** Value of the register before the first byte. */
  const CrcInit: bv16 := 0xFFFF

  /** One bit of the bitwise algorithm: shift right, and fold the polynomial in when a 1 falls out. */
  function ShiftBit(c: bv16): bv16 {
    (c >> 1) ^ (Poly & (0 - (c & 1)))
  }

  /** `n` bit steps of the bitwise algorithm. */
  function Shifts(c: bv16, n: nat): bv16
    decreases n
  {
    if n == 0 then c else Shifts(ShiftBit(c), n - 1)
  }

  /** The eight bit steps that shift one byte out of the register. */
  function ShiftByte(c: bv16): bv16 {
    Shifts(c, 8)
  }

  /** Reference (bitwise) update: XOR the byte into the low byte of the register, then shift it out. */
  function BitwiseUpdate(crc: bv16, b: bv8): bv16 {
    ShiftByte(crc ^ b as bv16)
  }

  /**
   * The uint8_t `tmp` of calcCrc: the XOR of the register and the data byte,
   * truncated to 8 bits, is the low byte of the register XOR the data byte.
   */
  function TableIndex(crc: bv16, b: bv8): (k: bv8)
    ensures k == CrcLow(crc) ^ b
  {
    ((crc ^ b as bv16) & 0xFF) as bv8
  }

  /**
   * Table-driven update, one iteration of the loop in calcCrc: it does the
   * work of the eight bitwise steps.
   */
  function TableUpdate(crc: bv16, b: bv8): (r: bv16)
    ensures r == BitwiseUpdate(crc, b)
  {
    TableStepIsBitwise(crc, b);
    (crc >> 8) ^ CrcTable[TableIndex(crc, b) as int]
  }

  /** The CRC register after feeding `s` to a register holding `crc` (the bitwise reference). */
  function CrcFrom(crc: bv16, s: seq<bv8>): bv16
    decreases |s|
  {
    if s == [] then crc else CrcFrom(BitwiseUpdate(crc, s[0]), s[1..])
  }

  /** The Modbus RTU CRC of a byte string. */
  function Crc(s: seq<bv8>): bv16 {
    CrcFrom(CrcInit, s)
  }

  /** Low byte of a CRC: the byte sent first on the line. */
  function CrcLow(crc: bv16): bv8 {
    (crc & 0xFF) as bv8
  }

  /** High byte of a CRC: the byte sent second on the line. */
  function CrcHigh(crc: bv16): bv8 {
    (crc >> 8) as bv8
  }


  /** Row 0 of crcTable, entry by entry, is the bitwise algorithm over 0x00..0x0F. */
  lemma CrcRow0Values()
    ensures CrcRow0 ==
      [ShiftByte(0x00), ShiftByte(0x01), ShiftByte(0x02), ShiftByte(0x03),
       ShiftByte(0x04), ShiftByte(0x05), ShiftByte(0x06), ShiftByte(0x07),
       ShiftByte(0x08), ShiftByte(0x09), ShiftByte(0x0A), ShiftByte(0x0B),
       ShiftByte(0x0C), ShiftByte(0x0D), ShiftByte(0x0E), ShiftByte(0x0F)]
  {
  }

  lemma {:induction false} CrcRow0Entries(k: bv8)
    requires k >> 4 == 0x0
    ensures CrcRow0[(k & 0xF) as int] == ShiftByte(k as bv16)
  {
    CrcRow0Values();
  }

  lemma {:induction false} CrcRow0IsBitwise(k: bv8)
    requires k >> 4 == 0x0
    ensures CrcTable[k as int] == ShiftByte(k as bv16)
  {
    assert CrcTable[k as int] == CrcRow0[(k & 0xF) as int];
    CrcRow0Entries(k);
  }

  /** Row 1 of crcTable, entry by entry, is the bitwise algorithm over 0x10..0x1F. */
  lemma CrcRow1Values()
    ensures CrcRow1 ==
      [ShiftByte(0x10), ShiftByte(0x11), ShiftByte(0x12), ShiftByte(0x13),
       ShiftByte(0x14), ShiftByte(0x15), ShiftByte(0x16), ShiftByte(0x17),
       ShiftByte(0x18), ShiftByte(0x19), ShiftByte(0x1A), ShiftByte(0x1B),
       ShiftByte(0x1C), ShiftByte(0x1D), ShiftByte(0x1E), ShiftByte(0x1F)]
  {
  }

  lemma {:induction false} CrcRow1Entries(k: bv8)
    requires k >> 4 == 0x1
    ensures CrcRow1[(k & 0xF) as int] == ShiftByte(k as bv16)
  {
    CrcRow1Values();
  }

  lemma {:induction false} CrcRow1IsBitwise(k: bv8)
    requires k >> 4 == 0x1
    ensures CrcTable[k as int] == ShiftByte(k as bv16)
  {
    assert CrcTable[k as int] == CrcRow1[(k & 0xF) as int];
    CrcRow1Entries(k);
  }

  /** Row 2 of crcTable, entry by entry, is the bitwise algorithm over 0x20..0x2F. */
  lemma CrcRow2Values()
    ensures CrcRow2 ==
      [ShiftByte(0x20), ShiftByte(0x21), ShiftByte(0x22), ShiftByte(0x23),
       ShiftByte(0x24), ShiftByte(0x25), ShiftByte(0x26), ShiftByte(0x27),
       ShiftByte(0x28), ShiftByte(0x29), ShiftByte(0x2A), ShiftByte(0x2B),
       ShiftByte(0x2C), ShiftByte(0x2D), ShiftByte(0x2E), ShiftByte(0x2F)]
  {
  }

  lemma {:induction false} CrcRow2Entries(k: bv8)
    requires k >> 4 == 0x2
    ensures CrcRow2[(k & 0xF) as int] == ShiftByte(k as bv16)
  {
    CrcRow2Values();
  }

  lemma {:induction false} CrcRow2IsBitwise(k: bv8)
    requires k >> 4 == 0x2
    ensures CrcTable[k as int] == ShiftByte(k as bv16)
  {
    assert CrcTable[k as int] == CrcRow2[(k & 0xF) as int];
    CrcRow2Entries(k);
  }

  /** Row 3 of crcTable, entry by entry, is the bitwise algorithm over 0x30..0x3F. */
  lemma CrcRow3Values()
    ensures CrcRow3 ==
      [ShiftByte(0x30), ShiftByte(0x31), ShiftByte(0x32), ShiftByte(0x33),
       ShiftByte(0x34), ShiftByte(0x35), ShiftByte(0x36), ShiftByte(0x37),
       ShiftByte(0x38), ShiftByte(0x39), ShiftByte(0x3A), ShiftByte(0x3B),
       ShiftByte(0x3C), ShiftByte(0x3D), ShiftByte(0x3E), ShiftByte(0x3F)]
  {
  }

  lemma {:induction false} CrcRow3Entries(k: bv8)
    requires k >> 4 == 0x3
    ensures CrcRow3[(k & 0xF) as int] == ShiftByte(k as bv16)
  {
    CrcRow3Values();
  }

  lemma {:induction false} CrcRow3IsBitwise(k: bv8)
    requires k >> 4 == 0x3
    ensures CrcTable[k as int] == ShiftByte(k as bv16)
  {
    assert CrcTable[k as int] == CrcRow3[(k & 0xF) as int];
    CrcRow3Entries(k);
  }

  /** Row 4 of crcTable, entry by entry, is the bitwise algorithm over 0x40..0x4F. */
  lemma CrcRow4Values()
    ensures CrcRow4 ==
      [ShiftByte(0x40), ShiftByte(0x41), ShiftByte(0x42), ShiftByte(0x43),
       ShiftByte(0x44), ShiftByte(0x45), ShiftByte(0x46), ShiftByte(0x47),
       ShiftByte(0x48), ShiftByte(0x49), ShiftByte(0x4A), ShiftByte(0x4B),
       ShiftByte(0x4C), ShiftByte(0x4D), ShiftByte(0x4E), ShiftByte(0x4F)]
  {
  }

  lemma {:induction false} CrcRow4Entries(k: bv8)
    requires k >> 4 == 0x4
    ensures CrcRow4[(k & 0xF) as int] == ShiftByte(k as bv16)
  {
    CrcRow4Values();
  }

  lemma {:induction false} CrcRow4IsBitwise(k: bv8)
    requires k >> 4 == 0x4
    ensures CrcTable[k as int] == ShiftByte(k as bv16)
  {
    assert CrcTable[k as int] == CrcRow4[(k & 0xF) as int];
    CrcRow4Entries(k);
  }

  /** Row 5 of crcTable, entry by entry, is the bitwise algorithm over 0x50..0x5F. */
  lemma CrcRow5Values()
    ensures CrcRow5 ==
      [ShiftByte(0x50), ShiftByte(0x51), ShiftByte(0x52), ShiftByte(0x53),
       ShiftByte(0x54), ShiftByte(0x55), ShiftByte(0x56), ShiftByte(0x57),
       ShiftByte(0x58), ShiftByte(0x59), ShiftByte(0x5A), ShiftByte(0x5B),
       ShiftByte(0x5C), ShiftByte(0x5D), ShiftByte(0x5E), ShiftByte(0x5F)]
  {
  }

  lemma {:induction false} CrcRow5Entries(k: bv8)
    requires k >> 4 == 0x5
    ensures CrcRow5[(k & 0xF) as int] == ShiftByte(k as bv16)
  {
    CrcRow5Values();
  }

  lemma {:induction false} CrcRow5IsBitwise(k: bv8)
    requires k >> 4 == 0x5
    ensures CrcTable[k as int] == ShiftByte(k as bv16)
  {
    assert CrcTable[k as int] == CrcRow5[(k & 0xF) as int];
    CrcRow5Entries(k);
  }

  /** Row 6 of crcTable, entry by entry, is the bitwise algorithm over 0x60..0x6F. */
  lemma CrcRow6Values()
    ensures CrcRow6 ==
      [ShiftByte(0x60), ShiftByte(0x61), ShiftByte(0x62), ShiftByte(0x63),
       ShiftByte(0x64), ShiftByte(0x65), ShiftByte(0x66), ShiftByte(0x67),
       ShiftByte(0x68), ShiftByte(0x69), ShiftByte(0x6A), ShiftByte(0x6B),
       ShiftByte(0x6C), ShiftByte(0x6D), ShiftByte(0x6E), ShiftByte(0x6F)]
  {
  }

  lemma {:induction false} CrcRow6Entries(k: bv8)
    requires k >> 4 == 0x6
    ensures CrcRow6[(k & 0xF) as int] == ShiftByte(k as bv16)
  {
    CrcRow6Values();
  }

  lemma {:induction false} CrcRow6IsBitwise(k: bv8)
    requires k >> 4 == 0x6
    ensures CrcTable[k as int] == ShiftByte(k as bv16)
  {
    assert CrcTable[k as int] == CrcRow6[(k & 0xF) as int];
    CrcRow6Entries(k);
  }

  /** Row 7 of crcTable, entry by entry, is the bitwise algorithm over 0x70..0x7F. */
  lemma CrcRow7Values()
    ensures CrcRow7 ==
      [ShiftByte(0x70), ShiftByte(0x71), ShiftByte(0x72), ShiftByte(0x73),
       ShiftByte(0x74), ShiftByte(0x75), ShiftByte(0x76), ShiftByte(0x77),
       ShiftByte(0x78), ShiftByte(0x79), ShiftByte(0x7A), ShiftByte(0x7B),
       ShiftByte(0x7C), ShiftByte(0x7D), ShiftByte(0x7E), ShiftByte(0x7F)]
  {
  }

  lemma {:induction false} CrcRow7Entries(k: bv8)
    requires k >> 4 == 0x7
    ensures CrcRow7[(k & 0xF) as int] == ShiftByte(k as bv16)
  {
    CrcRow7Values();
  }

  lemma {:induction false} CrcRow7IsBitwise(k: bv8)
    requires k >> 4 == 0x7
    ensures CrcTable[k as int] == ShiftByte(k as bv16)
  {
    assert CrcTable[k as int] == CrcRow7[(k & 0xF) as int];
    CrcRow7Entries(k);
  }

  /** Row 8 of crcTable, entry by entry, is the bitwise algorithm over 0x80..0x8F. */
  lemma CrcRow8Values()
    ensures CrcRow8 ==
      [ShiftByte(0x80), ShiftByte(0x81), ShiftByte(0x82), ShiftByte(0x83),
       ShiftByte(0x84), ShiftByte(0x85), ShiftByte(0x86), ShiftByte(0x87),
       ShiftByte(0x88), ShiftByte(0x89), ShiftByte(0x8A), ShiftByte(0x8B),
       ShiftByte(0x8C), ShiftByte(0x8D), ShiftByte(0x8E), ShiftByte(0x8F)]
  {
  }

  lemma {:induction false} CrcRow8Entries(k: bv8)
    requires k >> 4 == 0x8
    ensures CrcRow8[(k & 0xF) as int] == ShiftByte(k as bv16)
  {
    CrcRow8Values();
  }

  lemma {:induction false} CrcRow8IsBitwise(k: bv8)
    requires k >> 4 == 0x8
    ensures CrcTable[k as int] == ShiftByte(k as bv16)
  {
    assert CrcTable[k as int] == CrcRow8[(k & 0xF) as int];
    CrcRow8Entries(k);
  }

  /** Row 9 of crcTable, entry by entry, is the bitwise algorithm over 0x90..0x9F. */
  lemma CrcRow9Values()
    ensures CrcRow9 ==
      [ShiftByte(0x90), ShiftByte(0x91), ShiftByte(0x92), ShiftByte(0x93),
       ShiftByte(0x94), ShiftByte(0x95), ShiftByte(0x96), ShiftByte(0x97),
       ShiftByte(0x98), ShiftByte(0x99), ShiftByte(0x9A), ShiftByte(0x9B),
       ShiftByte(0x9C), ShiftByte(0x9D), ShiftByte(0x9E), ShiftByte(0x9F)]
  {
  }

  lemma {:induction false} CrcRow9Entries(k: bv8)
    requires k >> 4 == 0x9
    ensures CrcRow9[(k & 0xF) as int] == ShiftByte(k as bv16)
  {
    CrcRow9Values();
  }

  lemma {:induction false} CrcRow9IsBitwise(k: bv8)
    requires k >> 4 == 0x9
    ensures CrcTable[k as int] == ShiftByte(k as bv16)
  {
    assert CrcTable[k as int] == CrcRow9[(k & 0xF) as int];
    CrcRow9Entries(k);
  }

  /** Row A of crcTable, entry by entry, is the bitwise algorithm over 0xA0..0xAF. */
  lemma CrcRowAValues()
    ensures CrcRowA ==
      [ShiftByte(0xA0), ShiftByte(0xA1), ShiftByte(0xA2), ShiftByte(0xA3),
       ShiftByte(0xA4), ShiftByte(0xA5), ShiftByte(0xA6), ShiftByte(0xA7),
       ShiftByte(0xA8), ShiftByte(0xA9), ShiftByte(0xAA), ShiftByte(0xAB),
       ShiftByte(0xAC), ShiftByte(0xAD), ShiftByte(0xAE), ShiftByte(0xAF)]
  {
  }

  lemma {:induction false} CrcRowAEntries(k: bv8)
    requires k >> 4 == 0xA
    ensures CrcRowA[(k & 0xF) as int] == ShiftByte(k as bv16)
  {
    CrcRowAValues();
  }

  lemma {:induction false} CrcRowAIsBitwise(k: bv8)
    requires k >> 4 == 0xA
    ensures CrcTable[k as int] == ShiftByte(k as bv16)
  {
    assert CrcTable[k as int] == CrcRowA[(k & 0xF) as int];
    CrcRowAEntries(k);
  }

  /** Row B of crcTable, entry by entry, is the bitwise algorithm over 0xB0..0xBF. */
  lemma CrcRowBValues()
    ensures CrcRowB ==
      [ShiftByte(0xB0), ShiftByte(0xB1), ShiftByte(0xB2), ShiftByte(0xB3),
       ShiftByte(0xB4), ShiftByte(0xB5), ShiftByte(0xB6), ShiftByte(0xB7),
       ShiftByte(0xB8), ShiftByte(0xB9), ShiftByte(0xBA), ShiftByte(0xBB),
       ShiftByte(0xBC), ShiftByte(0xBD), ShiftByte(0xBE), ShiftByte(0xBF)]
  {
  }

  lemma {:induction false} CrcRowBEntries(k: bv8)
    requires k >> 4 == 0xB
    ensures CrcRowB[(k & 0xF) as int] == ShiftByte(k as bv16)
  {
    CrcRowBValues();
  }

  lemma {:induction false} CrcRowBIsBitwise(k: bv8)
    requires k >> 4 == 0xB
    ensures CrcTable[k as int] == ShiftByte(k as bv16)
  {
    assert CrcTable[k as int] == CrcRowB[(k & 0xF) as int];
    CrcRowBEntries(k);
  }

  /** Row C of crcTable, entry by entry, is the bitwise algorithm over 0xC0..0xCF. */
  lemma CrcRowCValues()
    ensures CrcRowC ==
      [ShiftByte(0xC0), ShiftByte(0xC1), ShiftByte(0xC2), ShiftByte(0xC3),
       ShiftByte(0xC4), ShiftByte(0xC5), ShiftByte(0xC6), ShiftByte(0xC7),
       ShiftByte(0xC8), ShiftByte(0xC9), ShiftByte(0xCA), ShiftByte(0xCB),
       ShiftByte(0xCC), ShiftByte(0xCD), ShiftByte(0xCE), ShiftByte(0xCF)]
  {
  }

  lemma {:induction false} CrcRowCEntries(k: bv8)
    requires k >> 4 == 0xC
    ensures CrcRowC[(k & 0xF) as int] == ShiftByte(k as bv16)
  {
    CrcRowCValues();
  }

  lemma {:induction false} CrcRowCIsBitwise(k: bv8)
    requires k >> 4 == 0xC
    ensures CrcTable[k as int] == ShiftByte(k as bv16)
  {
    assert CrcTable[k as int] == CrcRowC[(k & 0xF) as int];
    CrcRowCEntries(k);
  }

  /** Row D of crcTable, entry by entry, is the bitwise algorithm over 0xD0..0xDF. */
  lemma CrcRowDValues()
    ensures CrcRowD ==
      [ShiftByte(0xD0), ShiftByte(0xD1), ShiftByte(0xD2), ShiftByte(0xD3),
       ShiftByte(0xD4), ShiftByte(0xD5), ShiftByte(0xD6), ShiftByte(0xD7),
       ShiftByte(0xD8), ShiftByte(0xD9), ShiftByte(0xDA), ShiftByte(0xDB),
       ShiftByte(0xDC), ShiftByte(0xDD), ShiftByte(0xDE), ShiftByte(0xDF)]
  {
  }

  lemma {:induction false} CrcRowDEntries(k: bv8)
    requires k >> 4 == 0xD
    ensures CrcRowD[(k & 0xF) as int] == ShiftByte(k as bv16)
  {
    CrcRowDValues();
  }

  lemma {:induction false} CrcRowDIsBitwise(k: bv8)
    requires k >> 4 == 0xD
    ensures CrcTable[k as int] == ShiftByte(k as bv16)
  {
    assert CrcTable[k as int] == CrcRowD[(k & 0xF) as int];
    CrcRowDEntries(k);
  }

  /** Row E of crcTable, entry by entry, is the bitwise algorithm over 0xE0..0xEF. */
  lemma CrcRowEValues()
    ensures CrcRowE ==
      [ShiftByte(0xE0), ShiftByte(0xE1), ShiftByte(0xE2), ShiftByte(0xE3),
       ShiftByte(0xE4), ShiftByte(0xE5), ShiftByte(0xE6), ShiftByte(0xE7),
       ShiftByte(0xE8), ShiftByte(0xE9), ShiftByte(0xEA), ShiftByte(0xEB),
       ShiftByte(0xEC), ShiftByte(0xED), ShiftByte(0xEE), ShiftByte(0xEF)]
  {
  }

  lemma {:induction false} CrcRowEEntries(k: bv8)
    requires k >> 4 == 0xE
    ensures CrcRowE[(k & 0xF) as int] == ShiftByte(k as bv16)
  {
    CrcRowEValues();
  }

  lemma {:induction false} CrcRowEIsBitwise(k: bv8)
    requires k >> 4 == 0xE
    ensures CrcTable[k as int] == ShiftByte(k as bv16)
  {
    assert CrcTable[k as int] == CrcRowE[(k & 0xF) as int];
    CrcRowEEntries(k);
  }

  /** Row F of crcTable, entry by entry, is the bitwise algorithm over 0xF0..0xFF. */
  lemma CrcRowFValues()
    ensures CrcRowF ==
      [ShiftByte(0xF0), ShiftByte(0xF1), ShiftByte(0xF2), ShiftByte(0xF3),
       ShiftByte(0xF4), ShiftByte(0xF5), ShiftByte(0xF6), ShiftByte(0xF7),
       ShiftByte(0xF8), ShiftByte(0xF9), ShiftByte(0xFA), ShiftByte(0xFB),
       ShiftByte(0xFC), ShiftByte(0xFD), ShiftByte(0xFE), ShiftByte(0xFF)]
  {
  }

  lemma {:induction false} CrcRowFEntries(k: bv8)
    requires k >> 4 == 0xF
    ensures CrcRowF[(k & 0xF) as int] == ShiftByte(k as bv16)
  {
    CrcRowFValues();
  }

  lemma {:induction false} CrcRowFIsBitwise(k: bv8)
    requires k >> 4 == 0xF
    ensures CrcTable[k as int] == ShiftByte(k as bv16)
  {
    assert CrcTable[k as int] == CrcRowF[(k & 0xF) as int];
    CrcRowFEntries(k);
  }

  /** Every entry of crcTable is the bitwise algorithm run over its own index. */
  lemma {:induction false} TableIsBitwise(k: bv8)
    ensures CrcTable[k as int] == ShiftByte(k as bv16)
  {
    if k >> 4 == 0x0 { CrcRow0IsBitwise(k); }
    else if k >> 4 == 0x1 { CrcRow1IsBitwise(k); }
    else if k >> 4 == 0x2 { CrcRow2IsBitwise(k); }
    else if k >> 4 == 0x3 { CrcRow3IsBitwise(k); }
    else if k >> 4 == 0x4 { CrcRow4IsBitwise(k); }
    else if k >> 4 == 0x5 { CrcRow5IsBitwise(k); }
    else if k >> 4 == 0x6 { CrcRow6IsBitwise(k); }
    else if k >> 4 == 0x7 { CrcRow7IsBitwise(k); }
    else if k >> 4 == 0x8 { CrcRow8IsBitwise(k); }
    else if k >> 4 == 0x9 { CrcRow9IsBitwise(k); }
    else if k >> 4 == 0xA { CrcRowAIsBitwise(k); }
    else if k >> 4 == 0xB { CrcRowBIsBitwise(k); }
    else if k >> 4 == 0xC { CrcRowCIsBitwise(k); }
    else if k >> 4 == 0xD { CrcRowDIsBitwise(k); }
    else if k >> 4 == 0xE { CrcRowEIsBitwise(k); }
    else { CrcRowFIsBitwise(k); }
  }

  /** A bit step is linear over XOR. */
  lemma ShiftBitLinear(a: bv16, b: bv16)
    ensures ShiftBit(a ^ b) == ShiftBit(a) ^ ShiftBit(b)
  {
  }

  /** n bit steps over a ^ b are the steps over a XOR the steps over b. */
  predicate LinearAt(a: bv16, b: bv16, n: nat) {
    Shifts(a ^ b, n) == Shifts(a, n) ^ Shifts(b, n)
  }

  /** One more bit step in front keeps linearity, because the first step is linear. */
  lemma ShiftsLinearStep(a: bv16, b: bv16, n: nat)
    ensures n > 0 && Shifts(ShiftBit(a) ^ ShiftBit(b), n - 1) == Shifts(ShiftBit(a), n - 1) ^ Shifts(ShiftBit(b), n - 1)
        ==> Shifts(a ^ b, n) == Shifts(a, n) ^ Shifts(b, n)
  {
    ShiftBitLinear(a, b);
  }

  /** The step above, stated with LinearAt. */
  lemma LinearAtStep(a: bv16, b: bv16, n: nat)
    ensures n > 0 && LinearAt(ShiftBit(a), ShiftBit(b), n - 1) ==> LinearAt(a, b, n)
  {
    ShiftsLinearStep(a, b, n);
  }

  /** So is any number of bit steps, by induction on n. */
  lemma {:induction false} ShiftsLinear(a: bv16, b: bv16, n: nat)
    ensures LinearAt(a, b, n)
    decreases n
  {
    if n > 0 {
      ShiftsLinear(ShiftBit(a), ShiftBit(b), n - 1);
      LinearAtStep(a, b, n);
    }
  }

  /** Shifting out a zero low byte only moves the high byte down. */
  lemma ShiftByteHigh(x: bv16)
    ensures Shifts(x & 0xFF00, 8) == x >> 8
  {
    var c := x & 0xFF00;
    var c1 := ShiftBit(c);
    var c2 := ShiftBit(c1);
    var c3 := ShiftBit(c2);
    var c4 := ShiftBit(c3);
    var c5 := ShiftBit(c4);
    var c6 := ShiftBit(c5);
    var c7 := ShiftBit(c6);
    assert Shifts(c, 8) == Shifts(c1, 7) == Shifts(c2, 6) == Shifts(c3, 5) == Shifts(c4, 4);
    assert Shifts(c4, 4) == Shifts(c5, 3) == Shifts(c6, 2) == Shifts(c7, 1) == ShiftBit(c7);
  }

  /** By linearity, n bit steps over hi ^ lo are the steps over hi (known to give h) XOR the steps over lo. */
  lemma ShiftsSplit(x: bv16, hi: bv16, lo: bv16, h: bv16, n: nat)
    requires x == hi ^ lo && Shifts(hi, n) == h
    ensures Shifts(x, n) == h ^ Shifts(lo, n)
  {
    var l := Shifts(lo, n);
    ShiftsLinear(hi, lo, n);
    assert LinearAt(hi, lo, n);
  }

  lemma XorByteParts(crc: bv16, b: bv8, x: bv16, hi: bv16, lo: bv16)
    requires x == crc ^ b as bv16 && hi == x & 0xFF00 && lo == x & 0xFF
    ensures x == hi ^ lo
  {
  }

  lemma BitwiseSplitSteps(crc: bv16, b: bv8, x: bv16, hi: bv16, lo: bv16, n: nat)
    requires x == crc ^ b as bv16 && hi == x & 0xFF00 && lo == x & 0xFF
    requires Shifts(hi, n) == crc >> 8
    ensures Shifts(x, n) == (crc >> 8) ^ Shifts(lo, n)
  {
    XorByteParts(crc, b, x, hi, lo);
    ShiftsSplit(x, hi, lo, crc >> 8, n);
  }

  /** The data byte only touches the low byte, so the high byte of the register comes down unchanged. */
  lemma HighByteDown(crc: bv16, b: bv8, x: bv16, hi: bv16)
    requires x == crc ^ b as bv16 && hi == x & 0xFF00
    ensures Shifts(hi, 8) == crc >> 8
  {
    ShiftByteHigh(x);
    assert x >> 8 == crc >> 8;
  }

  lemma BitwiseSplitEight(crc: bv16, b: bv8, x: bv16, hi: bv16, lo: bv16)
    requires x == crc ^ b as bv16 && hi == x & 0xFF00 && lo == x & 0xFF
    ensures Shifts(x, 8) == (crc >> 8) ^ Shifts(lo, 8)
  {
    HighByteDown(crc, b, x, hi);
    BitwiseSplitSteps(crc, b, x, hi, lo, 8);
  }

  /** The bitwise byte step is the shifted-down high byte XOR the eight steps over the low byte alone. */
  lemma BitwiseSplit(crc: bv16, b: bv8, lo: bv16)
    requires lo == (crc ^ b as bv16) & 0xFF
    ensures BitwiseUpdate(crc, b) == (crc >> 8) ^ ShiftByte(lo)
  {
    var x := crc ^ b as bv16;
    BitwiseSplitEight(crc, b, x, x & 0xFF00, lo);
    BitwiseUpdateIsSteps(crc, b, x, lo);
  }

  lemma BitwiseUpdateIsSteps(crc: bv16, b: bv8, x: bv16, lo: bv16)
    requires x == crc ^ b as bv16 && Shifts(x, 8) == (crc >> 8) ^ Shifts(lo, 8)
    ensures BitwiseUpdate(crc, b) == (crc >> 8) ^ ShiftByte(lo)
  {
  }


  /** One table lookup does the work of eight bitwise steps (the loop body of calcCrc). */
  lemma TableStepIsBitwise(crc: bv16, b: bv8)
    ensures (crc >> 8) ^ CrcTable[TableIndex(crc, b) as int] == BitwiseUpdate(crc, b)
  {
    var k := TableIndex(crc, b);
    var lo := (crc ^ b as bv16) & 0xFF;
    TableIsBitwise(k);
    assert CrcTable[k as int] == ShiftByte(lo);
    BitwiseSplit(crc, b, lo);
  }

  /** Feeding `a` then `b` is feeding `a + b`: the CRC can be continued from an intermediate value. */
  lemma {:induction false} CrcFromAppend(crc: bv16, a: seq<bv8>, b: seq<bv8>)
    ensures CrcFrom(crc, a + b) == CrcFrom(CrcFrom(crc, a), b)
    decreases |a|
  {
    if a != [] {
      assert (a + b)[0] == a[0];
      assert (a + b)[1..] == a[1..] + b;
      var c := BitwiseUpdate(crc, a[0]);
      CrcFromAppend(c, a[1..], b);
      assert CrcFrom(crc, a + b) == CrcFrom(c, a[1..] + b);
      assert CrcFrom(crc, a) == CrcFrom(c, a[1..]);
    } else {
      assert a + b == b;
    }
  }

  /** The CRC of the empty string is the initial register value. */
  lemma CrcEmpty()
    ensures Crc([]) == 0xFFFF
  {
  }

  /** The standard check value of CRC-16/MODBUS: the ASCII string "123456789" gives 0x4B37. */
  lemma CrcCheckValue()
    ensures Crc([0x31, 0x32, 0x33, 0x34, 0x35, 0x36, 0x37, 0x38, 0x39]) == 0x4B37
  {
    // the register after each byte
    assert BitwiseUpdate(0xFFFF, 0x31) == 0x947E;
    assert BitwiseUpdate(0x947E, 0x32) == 0xF595;
    assert BitwiseUpdate(0xF595, 0x33) == 0x7A75;
    assert BitwiseUpdate(0x7A75, 0x34) == 0x30BA;
    assert BitwiseUpdate(0x30BA, 0x35) == 0xA471;
    assert BitwiseUpdate(0xA471, 0x36) == 0x32E4;
    assert BitwiseUpdate(0x32E4, 0x37) == 0x9D73;
    assert BitwiseUpdate(0x9D73, 0x38) == 0x37DD;
    assert BitwiseUpdate(0x37DD, 0x39) == 0x4B37;
    var s: seq<bv8> := [0x31, 0x32, 0x33, 0x34, 0x35, 0x36, 0x37, 0x38, 0x39];
    assert CrcFrom(0xFFFF, s) == CrcFrom(0x947E, s[1..]) == CrcFrom(0xF595, s[2..]) == CrcFrom(0x7A75, s[3..]);
    assert CrcFrom(0x7A75, s[3..]) == CrcFrom(0x30BA, s[4..]) == CrcFrom(0xA471, s[5..]) == CrcFrom(0x32E4, s[6..]);
    assert CrcFrom(0x32E4, s[6..]) == CrcFrom(0x9D73, s[7..]) == CrcFrom(0x37DD, s[8..]) == CrcFrom(0x4B37, s[9..]);
  }

  /**
   * A CRC appended low byte first drives the register to zero: running the
   * same CRC over a whole frame, checksum included, gives 0.
   */
  lemma {:induction false} CrcResidue(m: seq<bv8>)
    ensures Crc(m + [CrcLow(Crc(m)), CrcHigh(Crc(m))]) == 0
  {
    var c := Crc(m);
    var lo, hi := CrcLow(c), CrcHigh(c);
    CrcFromAppend(CrcInit, m, [lo, hi]);
    LowByteStep(c);
    HighByteStep(c);
    assert CrcFrom(c, [lo, hi]) == CrcFrom(BitwiseUpdate(c, lo), [hi]);
    assert CrcFrom(c >> 8, [hi]) == CrcFrom(BitwiseUpdate(c >> 8, hi), []);
  }

  /** Feeding a register its own low byte leaves only the high byte, moved down. */
  lemma LowByteStep(c: bv16)
    ensures BitwiseUpdate(c, CrcLow(c)) == c >> 8
  {
    var x := c ^ CrcLow(c) as bv16;
    LowByteCancels(c, x);
    ShiftByteHigh(c);
  }

  lemma LowByteCancels(c: bv16, x: bv16)
    requires x == c ^ CrcLow(c) as bv16
    ensures x == c & 0xFF00
  {
  }

  /** Feeding the moved-down high byte then clears the register. */
  lemma HighByteStep(c: bv16)
    ensures BitwiseUpdate(c >> 8, CrcHigh(c)) == 0
  {
    var x := (c >> 8) ^ CrcHigh(c) as bv16;
    HighByteCancels(c, x);
    assert ShiftByte(0) == 0;
  }

  lemma HighByteCancels(c: bv16, x: bv16)
    requires x == (c >> 8) ^ CrcHigh(c) as bv16
    ensures x == 0
  {
  }

  /** calcCrc (jkcmd.c:376-388): the table-driven loop over data[0..len). */
  method CalcCrc(data: array<bv8>, len: nat) returns (crc: bv16)
    requires len <= data.Length
    ensures crc == Crc(data[..len])
  {
    crc := CrcInit;
    for i := 0 to len
      invariant crc == Crc(data[..i])
    {
      CrcFromAppend(CrcInit, data[..i], [data[i]]);
      assert data[..i + 1] == data[..i] + [data[i]];
      crc := TableUpdate(crc, data[i]);
    }
  }
}
