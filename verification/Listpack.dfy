/** Listpacks: `internal/rdb/structure/listpack.go`. */
module Listpack {
  import opened Basics
  import opened RdbStrings

  // ----- the reader -----

  /** Bytes of the back length that follows an entry of `len` bytes. */
  function BackSize(len: nat): (n: nat)
    ensures 1 <= n <= 5
  {
    if len <= 127 then 1 else if len < 16383 then 2 else if len < 2097151 then 3 else if len < 268435455 then 4 else 5
  }

  /** Skip the back length of an entry of `len` bytes and deliver its value. */
  function SkipBack(value: Bytes, rest: Bytes, len: nat): Parsed<Bytes> {
    match ReadBytes(rest, BackSize(len))
    case Panic => Panic
    case Ok(_, rest) => Ok(value, rest)
  }

  /** A string entry: `used` bytes of header came before. */
  function ReadLpString(rest: Bytes, len: nat, used: nat): Parsed<Bytes> {
    match ReadBytes(rest, len)
    case Panic => Panic
    case Ok(value, rest) => SkipBack(value, rest, used + len)
  }

  /** An integer entry of `n` bytes, with the conversion to two's complement the program spells out. */
  function ReadLpInt(rest: Bytes, n: nat): Parsed<Bytes> {
    match ReadUint(rest, n)
    case Panic => Panic
    case Ok(u, rest) => SkipBack(FormatInt(FromTwos(u, Pow256(n))), rest, 1 + n)
  }

  /** `negstart` is half of the range, `negmax` its top value. */
  function FromTwos(u: nat, range: nat): int {
    if u >= range / 2 then -((range - 1) - u) - 1 else u
  }

  function ReadEntry(s: Bytes): Parsed<Bytes> {
    match ReadByte(s)
    case Panic => Panic
    case Ok(b, rest) =>
      if b / 128 == 0 then SkipBack(FormatInt(b), rest, 1)
      else if b / 64 == 2 then ReadLpString(rest, b % 64, 1)
      else if b / 32 == 6 then
        match ReadByte(rest)
        case Panic => Panic
        case Ok(low, rest) => SkipBack(FormatInt(FromTwos((b % 32) * 256 + low, 8192)), rest, 2)
      else if b == 0xF1 then ReadLpInt(rest, 2)
      else if b == 0xF2 then ReadLpInt(rest, 3)
      else if b == 0xF3 then ReadLpInt(rest, 4)
      else if b == 0xF4 then ReadLpInt(rest, 8)
      else if b / 16 == 14 then
        match ReadByte(rest)
        case Panic => Panic
        case Ok(low, rest) => ReadLpString(rest, (b % 16) * 256 + low, 2)
      else if b == 0xF0 then
        match ReadUint(rest, 4)
        case Panic => Panic
        case Ok(len, rest) => ReadLpString(rest, len, 5)
      else Panic
  }

  function ReadEntries(s: Bytes, n: nat): Parsed<seq<Bytes>>
    decreases n
  {
    if n == 0 then Ok([], s)
    else
      match ReadEntry(s)
      case Panic => Panic
      case Ok(e, rest) =>
        Following([e], ReadEntries(rest, n - 1))
  }

  /** The payload of a listpack: two header fields, the announced number of entries, an end byte. */
  function ReadPayload(blob: Bytes): Parsed<seq<Bytes>> {
    match ReadUint(blob, 4)
    case Panic => Panic
    case Ok(_, rest) =>
      match ReadUint(rest, 2)
      case Panic => Panic
      case Ok(size, rest) =>
        match ReadEntries(rest, size)
        case Panic => Panic
        case Ok(es, rest) =>
          match ReadByte(rest)
          case Panic => Panic
          case Ok(last, rest) => if last != 0xFF then Panic else Ok(es, rest)
  }

  /** The loop over the entries, appending one at a time. */
  method ReadLoop(blob: Bytes, size: nat) returns (r: Parsed<seq<Bytes>>)
    ensures r == ReadEntries(blob, size)
  {
    var elements: seq<Bytes> := [];
    var rest := blob;
    FollowingNothing([], ReadEntries(blob, size));
    for i := 0 to size
      invariant ReadEntries(blob, size) == Following(elements, ReadEntries(rest, size - i))
    {
      var ele := ReadEntry(rest);
      if ele.Panic? { return Panic; }
      FollowingOneMore(elements, ele.value, ReadEntries(ele.rest, size - i - 1));
      elements, rest := elements + [ele.value], ele.rest;
    }
    assert elements + [] == elements;
    return Ok(elements, rest);
  }

  function ReadListpack(s: Bytes): Parsed<seq<Bytes>> {
    match ReadString(s)
    case Panic => Panic
    case Ok(blob, rest) =>
      match ReadPayload(blob)
      case Panic => Panic
      case Ok(es, _) => Ok(es, rest)
  }

  // ----- the format -----

  datatype Elem =
    | U7(n: nat)
    | I13(v: int)
    | Wide(width: nat, v: int)
    | S6(bytes: Bytes)
    | S12(bytes: Bytes)
    | S32(bytes: Bytes)

  ghost predicate ValidElem(e: Elem) {
    match e
    case U7(n) => n < 128
    case I13(v) => Fits(v, 8192)
    case Wide(width, v) => (width == 2 || width == 3 || width == 4 || width == 8) && Fits(v, Pow256(width))
    case S6(bytes) => |bytes| < 64
    case S12(bytes) => |bytes| < 4096
    case S32(bytes) => |bytes| < 0x1_0000_0000
  }

  ghost function ElemText(e: Elem): Bytes {
    match e
    case U7(n) => FormatInt(n)
    case I13(v) => FormatInt(v)
    case Wide(_, v) => FormatInt(v)
    case S6(bytes) => bytes
    case S12(bytes) => bytes
    case S32(bytes) => bytes
  }

  /** The entry without its back length. */
  ghost function Body(e: Elem): Bytes
    requires ValidElem(e)
  {
    match e
    case U7(n) => [n]
    case I13(v) => [0xC0 + Unsigned(v, 8192) / 256, Unsigned(v, 8192) % 256]
    case Wide(width, v) => [if width == 8 then 0xF4 else 0xEF + width] + LittleEndian(Unsigned(v, Pow256(width)), width)
    case S6(bytes) => [0x80 + |bytes|] + bytes
    case S12(bytes) => [0xE0 + |bytes| / 256, |bytes| % 256] + bytes
    case S32(bytes) => [0xF0] + LittleEndian(|bytes|, 4) + bytes
  }

  function Pow128(n: nat): nat { if n == 0 then 1 else 128 * Pow128(n - 1) }

  /** Whether the format writes a back length in `n` groups of seven bits: one group is filled up, of more the
      largest value is not used. */
  ghost predicate InGroups(len: nat, n: nat) { if n <= 1 then len < Pow128(1) else len < Pow128(n) - 1 }

  /** The format takes the fewest groups, and at most five. */
  ghost function Groups(len: nat, n: nat): (k: nat)
    requires 1 <= n <= 5
    ensures n <= k <= 5 && (k == 5 || InGroups(len, k)) && forall i :: n <= i < k ==> !InGroups(len, i)
    decreases 5 - n
  {
    if n == 5 || InGroups(len, n) then n else Groups(len, n + 1)
  }

  /** A back length: groups of seven bits, most significant first, all but the first marked. */
  ghost function Back(len: nat, n: nat): (b: Bytes)
    requires n > 0
    ensures |b| == n
    decreases n
  {
    if n == 1 then [len % 128] else Back(len / 128, n - 1) + [128 + len % 128]
  }

  /** The length that a back length stands for. */
  function FromBack(b: Bytes): nat
    decreases |b|
  {
    if b == [] then 0 else
      var last: int := b[|b| - 1];
      128 * FromBack(b[..|b| - 1]) + last % 128
  }

  lemma {:induction false} BackInverts(len: nat, n: nat)
    requires n > 0 && len < Pow128(n)
    ensures FromBack(Back(len, n)) == len
    decreases n
  {
    if n == 1 {
      assert Back(len, 1)[..0] == [];
    } else {
      BackInverts(len / 128, n - 1);
      assert Back(len, n)[..n - 1] == Back(len / 128, n - 1);
    }
  }

  lemma PowersOf128()
    ensures Pow128(1) == 128 && Pow128(2) == 16384 && Pow128(3) == 2097152 && Pow128(4) == 268435456
    ensures Pow128(5) == 34359738368
  {
    assert Pow128(3) == 128 * Pow128(2) && Pow128(4) == 128 * Pow128(3) && Pow128(5) == 128 * Pow128(4);
  }

  /** The reader skips as many bytes as the format writes, and for any length up to that of the largest entry
      these bytes stand for the length. */
  lemma BackLengthAgrees(len: nat)
    ensures BackSize(len) == Groups(len, 1)
    ensures len < 34359738368 ==> FromBack(Back(len, BackSize(len))) == len
  {
    hide Pow128, Back, FromBack;
    PowersOf128();
    var k := Groups(len, 1);
    assert k > 1 ==> !InGroups(len, 1);
    assert k > 2 ==> !InGroups(len, 2);
    assert k > 3 ==> !InGroups(len, 3);
    assert k > 4 ==> !InGroups(len, 4);
    if len < 34359738368 { BackInverts(len, BackSize(len)); }
  }

  ghost function EncodeElem(e: Elem): Bytes
    requires ValidElem(e)
  {
    Body(e) + Back(|Body(e)|, Groups(|Body(e)|, 1))
  }

  ghost predicate ValidElems(es: seq<Elem>) {
    forall i :: 0 <= i < |es| ==> ValidElem(es[i])
  }

  ghost function EncodeElems(es: seq<Elem>): Bytes
    requires ValidElems(es)
    decreases |es|
  {
    if es == [] then [] else EncodeElem(es[0]) + EncodeElems(es[1..])
  }

  ghost function Texts(es: seq<Elem>): (ts: seq<Bytes>)
    ensures |ts| == |es| && forall i :: 0 <= i < |es| ==> ts[i] == ElemText(es[i])
  {
    seq(|es|, i requires 0 <= i < |es| => ElemText(es[i]))
  }

  /** A whole listpack; a count that does not fit in 16 bits is written as 65535. */
  ghost function EncodeListpack(es: seq<Elem>): Bytes
    requires ValidElems(es) && 7 + |EncodeElems(es)| < 0x1_0000_0000
  {
    LittleEndian(7 + |EncodeElems(es)|, 4) + LittleEndian(Min(|es|, 65535), 2) + EncodeElems(es) + [0xFF]
  }

  // ----- the reader inverts the format -----

  lemma SkipsBack(value: Bytes, len: nat, t: Bytes)
    ensures SkipBack(value, Back(len, Groups(len, 1)) + t, len) == Ok(value, t)
  {
    hide Back, Groups, BackSize;
    BackLengthAgrees(len);
    ReadsItsBytes(Back(len, Groups(len, 1)), t);
  }

  lemma ReadsLpString(bytes: Bytes, used: nat, t: Bytes)
    ensures ReadLpString(bytes + (Back(used + |bytes|, Groups(used + |bytes|, 1)) + t), |bytes|, used) == Ok(bytes, t)
  {
    ReadsItsBytes(bytes, Back(used + |bytes|, Groups(used + |bytes|, 1)) + t);
    SkipsBack(bytes, used + |bytes|, t);
  }

  lemma TwosInverts(v: int, range: nat)
    requires range % 2 == 0 && Fits(v, range)
    ensures FromTwos(Unsigned(v, range), range) == v
  {}

  lemma ReadWide(e: Elem, t: Bytes)
    requires ValidElem(e) && e.Wide?
    ensures ReadEntry(EncodeElem(e) + t) == Ok(ElemText(e), t)
  {
    hide Pow256, LittleEndian, FromLittleEndian, Back, Groups, FormatInt, ReadUint, SkipBack;
    var m := Pow256(e.width);
    var u := Unsigned(e.v, m);
    var back := Back(1 + e.width, Groups(1 + e.width, 1));
    var s := EncodeElem(e) + t;
    assert s[1..] == LittleEndian(u, e.width) + (back + t);
    Even(e.width);
    ReadUintInverts(u, e.width, back + t);
    SkipsBack(ElemText(e), 1 + e.width, t);
  }

  lemma Even(n: nat)
    requires n > 0
    ensures Pow256(n) % 2 == 0 && Pow256(n) > 0
  {
    var k := Pow256(n - 1);
    assert Pow256(n) == 2 * (128 * k);
    Positive(n);
  }

  lemma {:induction false} Positive(n: nat)
    ensures Pow256(n) > 0
  {
    if n > 0 { Positive(n - 1); }
  }

  lemma ReadS32(e: Elem, t: Bytes)
    requires ValidElem(e) && e.S32?
    ensures ReadEntry(EncodeElem(e) + t) == Ok(ElemText(e), t)
  {
    hide Pow256, LittleEndian, FromLittleEndian, Back, Groups, ReadUint, ReadLpString;
    Powers();
    var n := |e.bytes|;
    var tail := e.bytes + (Back(5 + n, Groups(5 + n, 1)) + t);
    var s := EncodeElem(e) + t;
    assert s[1..] == LittleEndian(n, 4) + tail;
    ReadUintInverts(n, 4, tail);
    ReadsLpString(e.bytes, 5, t);
  }

  lemma ReadSmallInt(e: Elem, t: Bytes)
    requires ValidElem(e) && (e.U7? || e.I13?)
    ensures ReadEntry(EncodeElem(e) + t) == Ok(ElemText(e), t)
  {
    hide Back, Groups, FormatInt, ReadUint, ReadLpString, ReadLpInt, SkipBack;
    var back := Back(|Body(e)|, Groups(|Body(e)|, 1));
    var s := EncodeElem(e) + t;
    if e.U7? {
      assert s[1..] == back + t;
      SkipsBack(ElemText(e), 1, t);
    } else {
      TwosInverts(e.v, 8192);
      assert s[1..][1..] == back + t;
      SkipsBack(ElemText(e), 2, t);
    }
  }

  lemma ReadS6(e: Elem, t: Bytes)
    requires ValidElem(e) && e.S6?
    ensures ReadEntry(EncodeElem(e) + t) == Ok(ElemText(e), t)
  {
    hide Back, Groups, FormatInt, ReadUint, ReadLpString, ReadLpInt, SkipBack;
    var back := Back(|Body(e)|, Groups(|Body(e)|, 1));
    var s := EncodeElem(e) + t;
    assert s[1..] == e.bytes + (back + t);
    ReadsLpString(e.bytes, 1, t);
  }

  lemma ReadS12(e: Elem, t: Bytes)
    requires ValidElem(e) && e.S12?
    ensures ReadEntry(EncodeElem(e) + t) == Ok(ElemText(e), t)
  {
    hide Back, Groups, FormatInt, ReadUint, ReadLpString, ReadLpInt, SkipBack;
    var n := |e.bytes|;
    var back := Back(2 + n, Groups(2 + n, 1));
    var s := EncodeElem(e) + t;
    assert s == [0xE0 + n / 256, n % 256] + (e.bytes + (back + t));
    var b: int := s[0];
    assert s[1..][1..] == e.bytes + (back + t);
    assert b % 16 == n / 256 && b / 16 == 14;
    ReadsLpString(e.bytes, 2, t);
  }

  /** One entry in any of its encodings. */
  lemma ReadEntryInverts(e: Elem, t: Bytes)
    requires ValidElem(e)
    ensures ReadEntry(EncodeElem(e) + t) == Ok(ElemText(e), t)
  {
    hide ReadEntry, EncodeElem, ElemText;
    match e
    case U7(_) => ReadSmallInt(e, t);
    case I13(_) => ReadSmallInt(e, t);
    case S6(_) => ReadS6(e, t);
    case S12(_) => ReadS12(e, t);
    case Wide(_, _) => ReadWide(e, t);
    case S32(_) => ReadS32(e, t);
  }

  /** Reading `n` of the encoded entries gives the first `n` texts and leaves the rest. */
  lemma {:induction false} ReadEntriesInverts(es: seq<Elem>, n: nat, t: Bytes)
    requires ValidElems(es) && n <= |es|
    ensures ReadEntries(EncodeElems(es) + t, n) == Ok(Texts(es)[..n], EncodeElems(es[n..]) + t)
    decreases n
  {
    hide ReadEntry, EncodeElem, ValidElem, ElemText;
    if n == 0 {
      assert es[0..] == es && Texts(es)[..0] == [];
    } else {
      var tail := EncodeElems(es[1..]) + t;
      assert EncodeElems(es) + t == EncodeElem(es[0]) + tail;
      ReadEntryInverts(es[0], tail);
      ReadEntriesInverts(es[1..], n - 1, t);
      assert es[1..][n - 1..] == es[n..];
      assert [ElemText(es[0])] + Texts(es[1..])[..n - 1] == Texts(es)[..n];
    }
  }

  /** No entry begins with the end byte. */
  lemma EntryIsNotEnd(e: Elem)
    requires ValidElem(e)
    ensures EncodeElem(e) != [] && EncodeElem(e)[0] != 0xFF
  {
    hide LittleEndian, Back, Groups;
    assert EncodeElem(e)[0] == Body(e)[0];
  }

  lemma PayloadAfterHeader(es: seq<Elem>)
    requires ValidElems(es) && 7 + |EncodeElems(es)| < 0x1_0000_0000
    ensures ReadPayload(EncodeListpack(es)) ==
      match ReadEntries(EncodeElems(es) + [0xFF], Min(|es|, 65535))
      case Panic => Panic
      case Ok(ts, rest) => match ReadByte(rest) case Panic => Panic case Ok(last,
          rest) => if last != 0xFF then Panic else Ok(ts, rest)
  {
    hide LittleEndian, EncodeElems, ReadEntries, ReadUint, Pow256;
    Powers();
    var total, count := 7 + |EncodeElems(es)|, Min(|es|, 65535);
    var tail := EncodeElems(es) + [0xFF];
    assert EncodeListpack(es) == LittleEndian(total, 4) + (LittleEndian(count, 2) + tail);
    ReadUintInverts(total, 4, LittleEndian(count, 2) + tail);
    ReadUintInverts(count, 2, tail);
  }

  /** The count field holds no more than 65535 and is taken at its word: a listpack is read back as
      the texts of its elements exactly if it has at most 65535 of them; a longer one panics. */
  lemma ReadPayloadExactly(es: seq<Elem>)
    requires ValidElems(es) && 7 + |EncodeElems(es)| < 0x1_0000_0000
    ensures |es| <= 65535 ==> ReadPayload(EncodeListpack(es)) == Ok(Texts(es), [])
    ensures |es| > 65535 ==> ReadPayload(EncodeListpack(es)).Panic?
  {
    hide ReadEntries, ReadPayload, EncodeListpack, EncodeElem;
    PayloadAfterHeader(es);
    var n := Min(|es|, 65535);
    ReadEntriesInverts(es, n, [0xFF]);
    if n == |es| {
      assert es[n..] == [] && Texts(es)[..n] == Texts(es);
      assert EncodeElems(es[n..]) + [0xFF] == [0xFF];
    } else {
      EntryIsNotEnd(es[n]);
      assert es[n..][0] == es[n];
      assert (EncodeElems(es[n..]) + [0xFF])[0] == EncodeElem(es[n])[0];
    }
  }

  /** A listpack stored in any form of an RDB string is read back, and nothing behind it is touched. */
  lemma ReadListpackInverts(f: StringForm, es: seq<Elem>, t: Bytes)
    requires ValidElems(es) && 7 + |EncodeElems(es)| < 0x1_0000_0000 && |es| <= 65535
    requires ValidString(f) && Text(f) == EncodeListpack(es)
    ensures ReadListpack(EncodeString(f) + t) == Ok(Texts(es), t)
  {
    hide ReadString, EncodeString, ReadPayload, EncodeListpack, EncodeElems, ValidString, Text;
    ReadStringInverts(f, t);
    ReadPayloadExactly(es);
  }
}
