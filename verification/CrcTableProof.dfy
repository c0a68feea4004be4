/** The tables against their polynomials: CRC-16/XMODEM with 0x1021, most significant bit first, and the
    reflected CRC-64 with 0x95ac9329ac4bc9b5, least significant bit first. */
module CrcTableProof {
  import opened CrcTables

  /** One bit: shift left, and take the polynomial if a one falls out. */
  function Crc16Step(x: bv16): bv16 { if x & 0x8000 != 0 then (x << 1) ^ 0x1021 else x << 1 }

  function Crc16Bits(x: bv16): bv16 {
    Crc16Step(Crc16Step(Crc16Step(Crc16Step(Crc16Step(Crc16Step(Crc16Step(Crc16Step(x))))))))
  }

  /** One bit: shift right, and take the reflected polynomial if a one falls out. */
  function Crc64Step(x: bv64): bv64 { if x & 1 != 0 then (x >> 1) ^ 0x95ac9329ac4bc9b5 else x >> 1 }

  function Crc64Bits(x: bv64): bv64 {
    Crc64Step(Crc64Step(Crc64Step(Crc64Step(Crc64Step(Crc64Step(Crc64Step(Crc64Step(x))))))))
  }

  lemma Crc16Part0(i: bv8)
    requires i <= 63
    ensures Crc16Table(i) == Crc16Bits((i as bv16) << 8)
  {}

  lemma Crc16Part1(i: bv8)
    requires 64 <= i <= 127
    ensures Crc16Table(i) == Crc16Bits((i as bv16) << 8)
  {}

  lemma Crc16Part2(i: bv8)
    requires 128 <= i <= 191
    ensures Crc16Table(i) == Crc16Bits((i as bv16) << 8)
  {}

  lemma Crc16Part3(i: bv8)
    requires 192 <= i <= 255
    ensures Crc16Table(i) == Crc16Bits((i as bv16) << 8)
  {}

  /** Every entry of the table is what eight single-bit steps make of its index. */
  lemma Crc16TableRight(i: bv8)
    ensures Crc16Table(i) == Crc16Bits((i as bv16) << 8)
  {
    hide Crc16Bits, Crc16Table;
    if i <= 63 { Crc16Part0(i); }
    else if i <= 127 { Crc16Part1(i); }
    else if i <= 191 { Crc16Part2(i); }
    else { Crc16Part3(i); }
  }

  lemma Crc64Part0(i: bv8)
    requires i <= 31
    ensures Crc64Table(i) == Crc64Bits(i as bv64)
  {}

  lemma Crc64Part1(i: bv8)
    requires 32 <= i <= 47
    ensures Crc64Table(i) == Crc64Bits(i as bv64)
  {}

  lemma Crc64Part2(i: bv8)
    requires 48 <= i <= 63
    ensures Crc64Table(i) == Crc64Bits(i as bv64)
  {}

  lemma Crc64Part3(i: bv8)
    requires 64 <= i <= 127
    ensures Crc64Table(i) == Crc64Bits(i as bv64)
  {}

  lemma Crc64Part4(i: bv8)
    requires 128 <= i <= 191
    ensures Crc64Table(i) == Crc64Bits(i as bv64)
  {}

  lemma Crc64Part5(i: bv8)
    requires 192 <= i <= 255
    ensures Crc64Table(i) == Crc64Bits(i as bv64)
  {}

  /** Every entry of the table is what eight single-bit steps make of its index. */
  lemma Crc64TableRight(i: bv8)
    ensures Crc64Table(i) == Crc64Bits(i as bv64)
  {
    hide Crc64Bits, Crc64Table;
    if i <= 31 { Crc64Part0(i); }
    else if i <= 47 { Crc64Part1(i); }
    else if i <= 63 { Crc64Part2(i); }
    else if i <= 127 { Crc64Part3(i); }
    else if i <= 191 { Crc64Part4(i); }
    else { Crc64Part5(i); }
  }
}
