/** The checksums: `CalcCRC64`, `digest.Update` and `Crc16` of `internal/utils`, and the dumps that
    `createValueDump` of `internal/rdb/rdb.go` puts a checksum behind. */
module Crc {
  import opened CrcTables
  import opened CrcTableProof

  type Data = seq<bv8>

  // ----- operators on words, by name -----

  function Xor8(a: bv8, b: bv8): bv8 { a ^ b }
  function Xor16(a: bv16, b: bv16): bv16 { a ^ b }
  function Xor64(a: bv64, b: bv64): bv64 { a ^ b }

  /** The lowest byte, the rest moved down, and a byte as a word. */
  function Low(x: bv64): bv8 { (x & 0xff) as bv8 }
  function Down(x: bv64): bv64 { x >> 8 }
  function Widen(b: bv8): bv64 { b as bv64 }

  /** The program's index into the 16-bit table, the word moved up, and a byte at the top of a word. */
  function Index16(crc: bv16, b: bv8): bv8 { (((crc >> 8) ^ (b as bv16)) & 0x00FF) as bv8 }
  function Up(x: bv16): bv16 { x << 8 }
  function Top(b: bv8): bv16 { (b as bv16) << 8 }

  // ----- bit by bit -----

  function Bitwise64(crc: bv64, p: Data): bv64
    decreases |p|
  {
    if p == [] then crc else Crc64Bits(Xor64(Bitwise64(crc, p[..|p| - 1]), Widen(p[|p| - 1])))
  }

  function Bitwise16(crc: bv16, p: Data): bv16
    decreases |p|
  {
    if p == [] then crc else Crc16Bits(Xor16(Bitwise16(crc, p[..|p| - 1]), Top(p[|p| - 1])))
  }

  // ----- a table look-up is eight steps -----

  predicate Out64(x: bv64) { x & 1 != 0 }
  function Shift64(x: bv64): bv64 { x >> 1 }
  const POLY64: bv64 := 0x95ac9329ac4bc9b5

  lemma Step64Is(x: bv64)
    ensures Crc64Step(x) == if Out64(x) then Xor64(Shift64(x), POLY64) else Shift64(x)
  {}

  lemma Shift64Xor(a: bv64, b: bv64)
    ensures Shift64(Xor64(a, b)) == Xor64(Shift64(a), Shift64(b))
  {}

  lemma Out64Xor(a: bv64, b: bv64)
    ensures Out64(Xor64(a, b)) <==> Out64(a) != Out64(b)
  {}

  lemma Xor64Moves(a: bv64, b: bv64, p: bv64)
    ensures Xor64(Xor64(a, p), b) == Xor64(Xor64(a, b), p) && Xor64(a, Xor64(b, p)) == Xor64(Xor64(a, b), p)
    ensures Xor64(Xor64(a, p), Xor64(b, p)) == Xor64(a, b)
  {}

  /** A step is linear. */
  lemma Step64Xor(a: bv64, b: bv64)
    ensures Crc64Step(Xor64(a, b)) == Xor64(Crc64Step(a), Crc64Step(b))
  {
    hide Crc64Step, Xor64, Out64, Shift64;
    Step64Is(a);
    Step64Is(b);
    Step64Is(Xor64(a, b));
    Shift64Xor(a, b);
    Out64Xor(a, b);
    Xor64Moves(Shift64(a), Shift64(b), POLY64);
  }

  lemma Bits64Xor(a: bv64, b: bv64)
    ensures Crc64Bits(Xor64(a, b)) == Xor64(Crc64Bits(a), Crc64Bits(b))
  {
    hide Crc64Step, Xor64;
    var a1, b1 := Crc64Step(a), Crc64Step(b);
    var a2, b2 := Crc64Step(a1), Crc64Step(b1);
    var a3, b3 := Crc64Step(a2), Crc64Step(b2);
    var a4, b4 := Crc64Step(a3), Crc64Step(b3);
    var a5, b5 := Crc64Step(a4), Crc64Step(b4);
    var a6, b6 := Crc64Step(a5), Crc64Step(b5);
    var a7, b7 := Crc64Step(a6), Crc64Step(b6);
    Step64Xor(a, b);
    Step64Xor(a1, b1);
    Step64Xor(a2, b2);
    Step64Xor(a3, b3);
    Step64Xor(a4, b4);
    Step64Xor(a5, b5);
    Step64Xor(a6, b6);
    Step64Xor(a7, b7);
  }

  predicate Out16(x: bv16) { x & 0x8000 != 0 }
  function Shift16(x: bv16): bv16 { x << 1 }
  const POLY16: bv16 := 0x1021

  lemma Step16Is(x: bv16)
    ensures Crc16Step(x) == if Out16(x) then Xor16(Shift16(x), POLY16) else Shift16(x)
  {}

  lemma Shift16Xor(a: bv16, b: bv16)
    ensures Shift16(Xor16(a, b)) == Xor16(Shift16(a), Shift16(b))
  {}

  lemma Out16Xor(a: bv16, b: bv16)
    ensures Out16(Xor16(a, b)) <==> Out16(a) != Out16(b)
  {}

  lemma Xor16Moves(a: bv16, b: bv16, p: bv16)
    ensures Xor16(Xor16(a, p), b) == Xor16(Xor16(a, b), p) && Xor16(a, Xor16(b, p)) == Xor16(Xor16(a, b), p)
    ensures Xor16(Xor16(a, p), Xor16(b, p)) == Xor16(a, b)
  {}

  /** A step is linear. */
  lemma Step16Xor(a: bv16, b: bv16)
    ensures Crc16Step(Xor16(a, b)) == Xor16(Crc16Step(a), Crc16Step(b))
  {
    hide Crc16Step, Xor16, Out16, Shift16;
    Step16Is(a);
    Step16Is(b);
    Step16Is(Xor16(a, b));
    Shift16Xor(a, b);
    Out16Xor(a, b);
    Xor16Moves(Shift16(a), Shift16(b), POLY16);
  }

  lemma Bits16Xor(a: bv16, b: bv16)
    ensures Crc16Bits(Xor16(a, b)) == Xor16(Crc16Bits(a), Crc16Bits(b))
  {
    hide Crc16Step, Xor16;
    var a1, b1 := Crc16Step(a), Crc16Step(b);
    var a2, b2 := Crc16Step(a1), Crc16Step(b1);
    var a3, b3 := Crc16Step(a2), Crc16Step(b2);
    var a4, b4 := Crc16Step(a3), Crc16Step(b3);
    var a5, b5 := Crc16Step(a4), Crc16Step(b4);
    var a6, b6 := Crc16Step(a5), Crc16Step(b5);
    var a7, b7 := Crc16Step(a6), Crc16Step(b6);
    Step16Xor(a, b);
    Step16Xor(a1, b1);
    Step16Xor(a2, b2);
    Step16Xor(a3, b3);
    Step16Xor(a4, b4);
    Step16Xor(a5, b5);
    Step16Xor(a6, b6);
    Step16Xor(a7, b7);
  }

  /** The word without its lowest byte, and without its highest. */
  function High(x: bv64): bv64 { x & 0xffff_ffff_ffff_ff00 }
  function Bottom(x: bv16): bv16 { x & 0xff }

  lemma HighShift(x: bv64)
    ensures Crc64Bits(High(x)) == Down(x)
  {}

  lemma BottomShift(x: bv16)
    ensures Crc16Bits(Bottom(x)) == Up(x)
  {}

  lemma Halves64(crc: bv64, b: bv8)
    ensures Xor64(crc, Widen(b)) == Xor64(Widen(Xor8(Low(crc), b)), High(crc))
  {}

  lemma Split16(crc: bv16, y: bv16)
    requires y & 0xff00 == 0
    ensures crc ^ (y << 8) == ((((crc >> 8) ^ y) & 0x00FF) << 8) ^ (crc & 0xff)
  {}

  lemma Halves16(crc: bv16, b: bv8)
    ensures Xor16(crc, Top(b)) == Xor16(Top(Index16(crc, b)), Bottom(crc))
  {
    var y := b as bv16;
    Split16(crc, y);
    assert (Index16(crc, b) as bv16) == ((crc >> 8) ^ y) & 0x00FF;
  }

  lemma Entry64(i: bv8)
    ensures Crc64Table(i) == Crc64Bits(Widen(i))
  {
    hide Crc64Table, Crc64Bits;
    Crc64TableRight(i);
  }

  lemma Entry16(i: bv8)
    ensures Crc16Table(i) == Crc16Bits(Top(i))
  {
    hide Crc16Table, Crc16Bits;
    Crc16TableRight(i);
  }

  lemma Lookup64(crc: bv64, b: bv8)
    ensures Xor64(Crc64Table(Xor8(Low(crc), b)), Down(crc)) == Crc64Bits(Xor64(crc, Widen(b)))
  {
    hide Crc64Table, Crc64Bits, Low, Xor64, Xor8, Widen, Down, High;
    Halves64(crc, b);
    Bits64Xor(Widen(Xor8(Low(crc), b)), High(crc));
    HighShift(crc);
    Entry64(Xor8(Low(crc), b));
  }

  lemma Xor16Commutes(a: bv16, b: bv16)
    ensures Xor16(a, b) == Xor16(b, a)
  {}

  lemma Lookup16(crc: bv16, b: bv8)
    ensures Xor16(Up(crc), Crc16Table(Index16(crc, b))) == Crc16Bits(Xor16(crc, Top(b)))
  {
    hide Crc16Table, Crc16Bits, Index16, Xor16, Top, Up, Bottom;
    Halves16(crc, b);
    Bits16Xor(Top(Index16(crc, b)), Bottom(crc));
    BottomShift(crc);
    Entry16(Index16(crc, b));
    Xor16Commutes(Up(crc), Crc16Table(Index16(crc, b)));
  }

  // ----- the loops -----

  /** The table loop computes the checksum that the polynomial defines. */
  method CalcCRC64(p: Data) returns (crc: bv64)
    ensures crc == Bitwise64(0, p)
  {
    hide Crc64Table, Crc64Bits, Low, Xor64, Xor8, Widen, Down;
    crc := 0;
    for i := 0 to |p|
      invariant crc == Bitwise64(0, p[..i])
    {
      Lookup64(crc, p[i]);
      assert p[..i + 1][..i] == p[..i];
      crc := Xor64(Crc64Table(Xor8(Low(crc), p[i])), Down(crc));
    }
    assert p[..|p|] == p;
  }

  method Crc16(p: Data) returns (crc: bv16)
    ensures crc == Bitwise16(0, p)
  {
    hide Crc16Table, Crc16Bits, Index16, Xor16, Top, Up;
    crc := 0;
    for i := 0 to |p|
      invariant crc == Bitwise16(0, p[..i])
    {
      Lookup16(crc, p[i]);
      assert p[..i + 1][..i] == p[..i];
      crc := Xor16(Up(crc), Crc16Table(Index16(crc, p[i])));
    }
    assert p[..|p|] == p;
  }

  class Digest {
    var crc: bv64

    constructor ()
      ensures crc == 0
    {
      crc := 0;
    }

    method Update(p: Data)
      modifies this
      ensures crc == Bitwise64(old(crc), p)
    {
      hide Crc64Table, Crc64Bits, Low, Xor64, Xor8, Widen, Down;
      for i := 0 to |p|
        invariant crc == Bitwise64(old(crc), p[..i])
      {
        Lookup64(crc, p[i]);
        assert p[..i + 1][..i] == p[..i];
        crc := Xor64(Crc64Table(Xor8(Low(crc), p[i])), Down(crc));
      }
      assert p[..|p|] == p;
    }
  }

  /** Updating in pieces gives the checksum of the whole. */
  lemma {:induction false} InPieces(crc: bv64, a: Data, b: Data)
    ensures Bitwise64(crc, a + b) == Bitwise64(Bitwise64(crc, a), b)
    decreases |b|
  {
    hide Crc64Bits, Xor64, Widen;
    if b == [] {
      assert a + b == a;
    } else {
      assert (a + b)[..|a + b| - 1] == a + b[..|b| - 1];
      InPieces(crc, a, b[..|b| - 1]);
    }
  }

  // ----- dumps -----

  /** The `n` lowest bytes, least significant first. */
  function LowBytes(x: bv64, n: nat): (s: Data)
    ensures |s| == n
    decreases n
  {
    if n == 0 then [] else [Low(x)] + LowBytes(Down(x), n - 1)
  }

  /** A value with its type in front and version and checksum behind. */
  function Dump(typeByte: bv8, val: Data): Data {
    var body := [typeByte] + val + [6, 0];
    body + LowBytes(Bitwise64(0, body), 8)
  }

  /** The buffer that dumps are built in, one after the other. */
  class Dumper {
    var dumpBuffer: Data

    constructor () { dumpBuffer := []; }

    method CreateValueDump(typeByte: bv8, val: Data) returns (dump: Data)
      modifies this
      ensures dump == Dump(typeByte, val)
    {
      hide Bitwise64, LowBytes;
      dumpBuffer := [];
      dumpBuffer := dumpBuffer + [typeByte];
      dumpBuffer := dumpBuffer + val;
      dumpBuffer := dumpBuffer + [6, 0];
      assert dumpBuffer == [typeByte] + val + [6, 0];
      var sum64 := CalcCRC64(dumpBuffer);
      dumpBuffer := dumpBuffer + LowBytes(sum64, 8);
      dump := dumpBuffer;
    }
  }

  /** Feeding a checksum its own lowest byte moves it down by one. */
  lemma OwnByte(x: bv64)
    ensures Crc64Bits(Xor64(x, Widen(Low(x)))) == Down(x)
  {
    hide Crc64Bits;
    assert Xor64(x, Widen(Low(x))) == High(x);
    HighShift(x);
  }

  lemma OneByte(crc: bv64, p: Data, b: bv8)
    ensures Bitwise64(crc, [b] + p) == Bitwise64(Crc64Bits(Xor64(crc, Widen(b))), p)
  {
    hide Crc64Bits, Xor64, Widen;
    InPieces(crc, [b], p);
    assert [b][..0] == [];
  }

  ghost function DownBy(x: bv64, n: nat): bv64
    decreases n
  {
    if n == 0 then x else DownBy(Down(x), n - 1)
  }

  /** Feeding a checksum its own bytes takes them off. */
  lemma {:induction false} OwnBytes(x: bv64, n: nat)
    ensures Bitwise64(x, LowBytes(x, n)) == DownBy(x, n)
    decreases n
  {
    hide Crc64Bits, Low, Xor64, Widen, Down;
    if n > 0 {
      OneByte(x, LowBytes(Down(x), n - 1), Low(x));
      OwnByte(x);
      OwnBytes(Down(x), n - 1);
    }
  }

  lemma AllDown(x: bv64)
    ensures DownBy(x, 8) == 0
  {
    var y := Down(Down(Down(Down(x))));
    assert Down(Down(Down(Down(y)))) == 0;
    assert DownBy(x, 8) == DownBy(y, 4);
  }

  /** The checksum over a whole dump is zero, and the dump splits back into its type and value the way the
      scan reader cuts it. */
  lemma DumpChecks(typeByte: bv8, val: Data)
    ensures var d := Dump(typeByte, val); Bitwise64(0, d) == 0 && d[0] == typeByte && d[1..|d| - 10] == val
  {
    hide Bitwise64, LowBytes, DownBy;
    var body := [typeByte] + val + [6, 0];
    InPieces(0, body, LowBytes(Bitwise64(0, body), 8));
    OwnBytes(Bitwise64(0, body), 8);
    AllDown(Bitwise64(0, body));
  }
}
