/** Ziplists: `internal/rdb/structure/ziplist.go`. */
module Ziplist {
  import opened Basics
  import opened RdbStrings

  // ----- the reader -----

  function ReadContent(s: Bytes): (r: Parsed<Bytes>)
    ensures r.Ok? ==> |r.rest| < |s|
  {
    match ReadByte(s)
    case Panic => Panic
    case Ok(b, rest) =>
      if b / 64 == 0 then ReadBytes(rest, b)
      else if b / 64 == 1 then
        match ReadByte(rest)
        case Panic => Panic
        case Ok(next, rest) => ReadBytes(rest, (b % 64) * 256 + next)
      else if b / 64 == 2 then
        match ReadBytes(rest, 4)
        case Panic => Panic
        case Ok(len, rest) => ReadBytes(rest, FromBigEndian(len))
      else if b == 0xFE then Numeral(ReadInt(rest, 1))
      else if b == 0xC0 then Numeral(ReadInt(rest, 2))
      else if b == 0xF0 then Numeral(ReadInt24(rest))
      else if b == 0xD0 then Numeral(ReadInt(rest, 4))
      else if b == 0xE0 then Numeral(ReadInt(rest, 8))
      else if b / 16 == 15 && 1 <= b % 16 <= 13 then Ok(FormatInt(b % 16 - 1), rest)
      else Panic
  }

  /** An entry whose first byte has been taken: that byte is the length of the entry before, or says
      that four more bytes hold it. */
  function ReadZlEntry(first: int, s: Bytes): (r: Parsed<Bytes>)
    ensures r.Ok? ==> |r.rest| < |s|
  {
    match if first == 0xFE then ReadBytes(s, 4) else Ok([], s)
    case Panic => Panic
    case Ok(_, rest) => ReadContent(rest)
  }

  /** A counted ziplist: `n` entries. */
  function ReadCounted(s: Bytes, n: nat): Parsed<seq<Bytes>>
    decreases n
  {
    if n == 0 then Ok([], s)
    else
      match ReadByte(s)
      case Panic => Panic
      case Ok(first, rest) =>
        match ReadZlEntry(first, rest)
        case Panic => Panic
        case Ok(e, rest) => Following([e], ReadCounted(rest, n - 1))
  }

  /** A ziplist whose count did not fit: entries up to a first byte 0xFE. */
  function ReadUncounted(s: Bytes): Parsed<seq<Bytes>>
    decreases |s|
  {
    match ReadByte(s)
    case Panic => Panic
    case Ok(first, rest) =>
      if first == 0xFE then Ok([], rest)
      else
        match ReadZlEntry(first, rest)
        case Panic => Panic
        case Ok(e, rest) => Following([e], ReadUncounted(rest))
  }

  function ReadZlBody(s: Bytes, size: nat): Parsed<seq<Bytes>> {
    if size == 65535 then ReadUncounted(s)
    else
      match ReadCounted(s, size)
      case Panic => Panic
      case Ok(es, rest) =>
        match ReadByte(rest)
        case Panic => Panic
        case Ok(last, rest) => if last != 0xFF then Panic else Ok(es, rest)
  }

  function ReadZlPayload(blob: Bytes): Parsed<seq<Bytes>> {
    match ReadUint(blob, 4)
    case Panic => Panic
    case Ok(_, rest) =>
      match ReadUint(rest, 4)
      case Panic => Panic
      case Ok(_, rest) =>
        match ReadUint(rest, 2)
        case Panic => Panic
        case Ok(size, rest) => ReadZlBody(rest, size)
  }

  function ReadZipList(s: Bytes): Parsed<seq<Bytes>> {
    match ReadString(s)
    case Panic => Panic
    case Ok(blob, rest) =>
      match ReadZlPayload(blob)
      case Panic => Panic
      case Ok(es, _) => Ok(es, rest)
  }

  /** The two loops of the program, behind the header. */
  method ReadZlLoop(s: Bytes, size: nat) returns (r: Parsed<seq<Bytes>>)
    ensures r == ReadZlBody(s, size)
  {
    hide ReadZlEntry;
    var elements: seq<Bytes> := [];
    if size == 65535 {
      FollowingNothing([], ReadUncounted(s));
      var b := ReadByte(s);
      if b.Panic? { return Panic; }
      var first, rest := b.value, b.rest;
      ghost var ahead := s;
      while first != 0xFE
        invariant ReadByte(ahead) == Ok(first, rest)
        invariant ReadUncounted(s) == Following(elements, ReadUncounted(ahead))
        decreases |rest|
      {
        var ele := ReadZlEntry(first, rest);
        if ele.Panic? { return Panic; }
        FollowingOneMore(elements, ele.value, ReadUncounted(ele.rest));
        elements, ahead := elements + [ele.value], ele.rest;
        b := ReadByte(ele.rest);
        if b.Panic? { return Panic; }
        first, rest := b.value, b.rest;
      }
      assert elements + [] == elements;
      return Ok(elements, rest);
    }
    var rest := s;
    FollowingNothing([], ReadCounted(s, size));
    for i := 0 to size
      invariant ReadCounted(s, size) == Following(elements, ReadCounted(rest, size - i))
    {
      var b := ReadByte(rest);
      if b.Panic? { return Panic; }
      var ele := ReadZlEntry(b.value, b.rest);
      if ele.Panic? { return Panic; }
      FollowingOneMore(elements, ele.value, ReadCounted(ele.rest, size - i - 1));
      elements, rest := elements + [ele.value], ele.rest;
    }
    assert elements + [] == elements;
    var last := ReadByte(rest);
    if last.Panic? || last.value != 0xFF { return Panic; }
    return Ok(elements, last.rest);
  }

  // ----- the format -----

  /** What an entry holds, by the encoding chosen for it. */
  datatype Content =
    | Z6(bytes: Bytes)
    | Z14(bytes: Bytes)
    | Z32(bytes: Bytes)
    | Wide(width: nat, v: int)
    | Three(v: int)
    | Immediate(v: int)

  /** An entry says how long the entry before it is, in one byte or, if it must or if the writer left
      room for it, in five. */
  datatype Entry = Entry(prev: nat, long: bool, content: Content)

  ghost predicate ValidContent(c: Content) {
    match c
    case Z6(bytes) => |bytes| < 64
    case Z14(bytes) => |bytes| < 16384
    case Z32(bytes) => |bytes| < 0x1_0000_0000
    case Wide(width, v) => (width == 1 || width == 2 || width == 4 || width == 8) && Fits(v, Pow256(width))
    case Three(v) => Fits(v, 0x100_0000)
    case Immediate(v) => 0 <= v <= 12
  }

  ghost predicate ValidEntry(e: Entry) {
    ValidContent(e.content) && e.prev < 0x1_0000_0000 && (e.prev >= 254 ==> e.long)
  }

  ghost function ContentText(c: Content): Bytes {
    match c
    case Z6(bytes) => bytes
    case Z14(bytes) => bytes
    case Z32(bytes) => bytes
    case Wide(_, v) => FormatInt(v)
    case Three(v) => FormatInt(v)
    case Immediate(v) => FormatInt(v)
  }

  ghost function WideCode(width: nat): byte {
    if width == 1 then 0xFE else if width == 2 then 0xC0 else if width == 4 then 0xD0 else 0xE0
  }

  ghost function EncodeContent(c: Content): Bytes
    requires ValidContent(c)
  {
    match c
    case Z6(bytes) => [|bytes|] + bytes
    case Z14(bytes) => [0x40 + |bytes| / 256, |bytes| % 256] + bytes
    case Z32(bytes) => [0x80] + BigEndian(|bytes|, 4) + bytes
    case Wide(width, v) => [WideCode(width)] + LittleEndian(Unsigned(v, Pow256(width)), width)
    case Three(v) => [0xF0] + LittleEndian(Unsigned(v, 0x100_0000), 3)
    case Immediate(v) => [0xF1 + v]
  }

  ghost function EncodeEntry(e: Entry): (s: Bytes)
    requires ValidEntry(e)
    ensures s != [] && (s[0] == 0xFE <==> e.long)
  {
    (if e.long then [0xFE] + LittleEndian(e.prev, 4) else [e.prev]) + EncodeContent(e.content)
  }

  ghost predicate ValidEntries(es: seq<Entry>) {
    forall i :: 0 <= i < |es| ==> ValidEntry(es[i])
  }

  ghost function EncodeEntries(es: seq<Entry>): Bytes
    requires ValidEntries(es)
    decreases |es|
  {
    if es == [] then [] else EncodeEntry(es[0]) + EncodeEntries(es[1..])
  }

  ghost function Texts(es: seq<Entry>): (ts: seq<Bytes>)
    ensures |ts| == |es| && forall i :: 0 <= i < |es| ==> ts[i] == ContentText(es[i].content)
  {
    seq(|es|, i requires 0 <= i < |es| => ContentText(es[i].content))
  }

  ghost predicate Encodable(es: seq<Entry>, tail: nat) {
    ValidEntries(es) && 11 + |EncodeEntries(es)| < 0x1_0000_0000 && tail < 0x1_0000_0000
  }

  /** A whole ziplist: size in bytes, position of the last entry, count (65535 if it does not fit),
      entries, end byte. */
  ghost function EncodeZipList(es: seq<Entry>, tail: nat): Bytes
    requires Encodable(es, tail)
  {
    LittleEndian(11 + |EncodeEntries(es)|, 4) + LittleEndian(tail, 4) + LittleEndian(Min(|es|, 65535), 2)
      + EncodeEntries(es) + [0xFF]
  }

  // ----- the reader inverts the format -----

  lemma ReadZ14(c: Content, t: Bytes)
    requires ValidContent(c) && c.Z14?
    ensures ReadContent(EncodeContent(c) + t) == Ok(ContentText(c), t)
  {
    hide ReadBytes, ReadInt, ReadInt24, Numeral;
    var n := |c.bytes|;
    var s := EncodeContent(c) + t;
    assert s == [0x40 + n / 256, n % 256] + (c.bytes + t);
    var b: int := s[0];
    assert s[1..][1..] == c.bytes + t;
    assert b / 64 == 1 && b % 64 == n / 256;
    ReadsItsBytes(c.bytes, t);
  }

  lemma ReadText(c: Content, t: Bytes)
    requires ValidContent(c) && (c.Z6? || c.Z14? || c.Z32?)
    ensures ReadContent(EncodeContent(c) + t) == Ok(ContentText(c), t)
  {
    hide BigEndian, FromBigEndian, ReadBytes, ReadInt, ReadInt24, Pow256, Numeral;
    var n := |c.bytes|;
    if c.Z14? {
      ReadZ14(c, t);
    } else if c.Z6? {
      assert (EncodeContent(c) + t)[1..] == c.bytes + t;
      ReadsItsBytes(c.bytes, t);
    } else {
      Powers();
      assert (EncodeContent(c) + t)[1..] == BigEndian(n, 4) + (c.bytes + t);
      BigEndianRead(n, 4, c.bytes + t);
      ReadsItsBytes(c.bytes, t);
    }
  }

  lemma ReadNumber(c: Content, t: Bytes)
    requires ValidContent(c) && (c.Wide? || c.Three? || c.Immediate?)
    ensures ReadContent(EncodeContent(c) + t) == Ok(ContentText(c), t)
  {
    hide LittleEndian, FromLittleEndian, ReadBytes, ReadInt, ReadInt24, Pow256, FormatInt;
    var s := EncodeContent(c) + t;
    match c
    case Wide(width, v) =>
      assert s[1..] == LittleEndian(Unsigned(v, Pow256(width)), width) + t;
      ReadIntInverts(v, width, t);
    case Three(v) =>
      assert s[1..] == LittleEndian(Unsigned(v, 0x100_0000), 3) + t;
      ReadInt24Inverts(v, t);
    case Immediate(v) =>
      assert s[1..] == t;
  }

  /** One entry, in any encoding, with any length of the entry before. */
  lemma ReadEntryInverts(e: Entry, t: Bytes)
    requires ValidEntry(e)
    ensures var s := EncodeEntry(e) + t; ReadZlEntry(s[0], s[1..]) == Ok(ContentText(e.content), t)
  {
    hide ReadContent, EncodeContent, ContentText, LittleEndian, ValidContent;
    var s := EncodeEntry(e) + t;
    var body := EncodeContent(e.content) + t;
    if e.content.Wide? || e.content.Three? || e.content.Immediate? { ReadNumber(e.content, t); }
        else { ReadText(e.content, t); }
    if e.long {
      assert s[1..] == LittleEndian(e.prev, 4) + body;
      ReadsItsBytes(LittleEndian(e.prev, 4), body);
    } else {
      assert s[1..] == body;
    }
  }

  lemma {:induction false} ReadCountedInverts(es: seq<Entry>, t: Bytes)
    requires ValidEntries(es)
    ensures ReadCounted(EncodeEntries(es) + t, |es|) == Ok(Texts(es), t)
    decreases |es|
  {
    hide ReadZlEntry, EncodeEntry;
    if es != [] {
      assert EncodeEntries(es) + t == EncodeEntry(es[0]) + (EncodeEntries(es[1..]) + t);
      ReadEntryInverts(es[0], EncodeEntries(es[1..]) + t);
      ReadCountedInverts(es[1..], t);
      assert [ContentText(es[0].content)] + Texts(es[1..]) == Texts(es);
    }
  }

  /** How many entries stand before the first with a five-byte field. */
  ghost function BeforeLong(es: seq<Entry>): (k: nat)
    ensures k <= |es| && (forall i :: 0 <= i < k ==> !es[i].long) && (k < |es| ==> es[k].long)
    decreases |es|
  {
    if es == [] || es[0].long then 0 else 1 + BeforeLong(es[1..])
  }

  /** Without a count the reader stops at the first five-byte field as if the list ended there, and runs
      off the end if there is none. */
  lemma {:induction false} ReadUncountedStops(es: seq<Entry>)
    requires ValidEntries(es)
    ensures var r := ReadUncounted(EncodeEntries(es) + [0xFF]);
      if BeforeLong(es) < |es| then r.Ok? && r.value == Texts(es)[..BeforeLong(es)] else r.Panic?
    decreases |es|
  {
    hide ReadZlEntry, EncodeEntry;
    var s := EncodeEntries(es) + [0xFF];
    if es == [] {
      assert s == [0xFF];
      NothingAfterEnd();
    } else {
      var t := EncodeEntries(es[1..]) + [0xFF];
      assert s == EncodeEntry(es[0]) + t;
      if !es[0].long {
        ReadEntryInverts(es[0], t);
        ReadUncountedStops(es[1..]);
        if BeforeLong(es) < |es| {
          assert [ContentText(es[0].content)] + Texts(es[1..])[..BeforeLong(es[1..])] == Texts(es)[..BeforeLong(es)];
        }
      }
    }
  }

  lemma NothingAfterEnd()
    ensures ReadZlEntry(0xFF, []).Panic?
  {}

  lemma ZlAfterHeader(es: seq<Entry>, tail: nat)
    requires Encodable(es, tail)
    ensures ReadZlPayload(EncodeZipList(es, tail)) == ReadZlBody(EncodeEntries(es) + [0xFF], Min(|es|, 65535))
  {
    hide LittleEndian, EncodeEntries, ReadZlBody, ReadUint, Pow256;
    Powers();
    var total, count := 11 + |EncodeEntries(es)|, Min(|es|, 65535);
    var body := EncodeEntries(es) + [0xFF];
    assert EncodeZipList(es, tail) ==
        LittleEndian(total, 4) + (LittleEndian(tail, 4) + (LittleEndian(count, 2) + body));
    ReadUintInverts(total, 4, LittleEndian(tail, 4) + (LittleEndian(count, 2) + body));
    ReadUintInverts(tail, 4, LittleEndian(count, 2) + body);
    ReadUintInverts(count, 2, body);
  }

  /** A ziplist is read back as the texts of its entries if its count fits in the count field; one with
      more entries is cut off before the first five-byte field, or panics if there is none. */
  lemma ReadZlPayloadExactly(es: seq<Entry>, tail: nat)
    requires Encodable(es, tail)
    ensures var r := ReadZlPayload(EncodeZipList(es, tail));
      if |es| < 65535 then r == Ok(Texts(es), [])
      else if BeforeLong(es) < |es| then r.Ok? && r.value == Texts(es)[..BeforeLong(es)]
      else r.Panic?
  {
    hide ReadCounted, ReadUncounted, ReadZlPayload, EncodeZipList, EncodeEntry, EncodeEntries;
    ZlAfterHeader(es, tail);
    if |es| < 65535 { ReadCountedInverts(es, [0xFF]); } else { ReadUncountedStops(es); }
  }

  /** All entries come back exactly if there are fewer than 65535. */
  lemma ZipListReadBackIff(es: seq<Entry>, tail: nat)
    requires Encodable(es, tail)
    ensures var r := ReadZlPayload(EncodeZipList(es, tail)); (r.Ok? && r.value == Texts(es)) <==> |es| < 65535
  {
    hide ReadZlPayload, EncodeZipList, EncodeEntries;
    ReadZlPayloadExactly(es, tail);
  }

  /** A ziplist stored in any form of an RDB string is read back, and nothing behind it is touched. */
  lemma ReadZipListInverts(f: StringForm, es: seq<Entry>, tail: nat, t: Bytes)
    requires Encodable(es, tail) && |es| < 65535 && ValidString(f) && Text(f) == EncodeZipList(es, tail)
    ensures ReadZipList(EncodeString(f) + t) == Ok(Texts(es), t)
  {
    hide ReadString, EncodeString, ReadZlPayload, EncodeZipList, EncodeEntries, ValidString, Text;
    ReadStringInverts(f, t);
    ReadZlPayloadExactly(es, tail);
  }
}
