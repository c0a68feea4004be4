/** Lengths, integers and strings of the RDB format: `internal/rdb/structure/length.go`, `int.go`,
    `byte.go` and `string.go`.  A reader is a function from the bytes ahead to a value and the bytes
    left over; every panic of the program is `Panic`. */
module RdbStrings {
  import opened Basics
  import opened Lzf

  datatype Parsed<T> = Panic | Ok(value: T, rest: Bytes)

  function ReadBytes(s: Bytes, n: nat): Parsed<Bytes> {
    if |s| < n then Panic else Ok(s[..n], s[n..])
  }

  function ReadByte(s: Bytes): Parsed<int> {
    if s == [] then Panic else Ok(s[0], s[1..])
  }

  function ReadUint(s: Bytes, n: nat): Parsed<nat> {
    match ReadBytes(s, n)
    case Panic => Panic
    case Ok(b, rest) => Ok(FromLittleEndian(b), rest)
  }

  function ReadInt(s: Bytes, n: nat): Parsed<int> {
    match ReadUint(s, n)
    case Panic => Panic
    case Ok(u, rest) => Ok(Signed(u, Pow256(n)), rest)
  }

  /** Go's `>>` on a signed value. */
  function ShiftRight8(v: int): int {
    if v >= 0 then v / 256 else -((-v + 255) / 256)
  }

  /** The 24-bit reader widens with a zero byte below and shifts back down. */
  function ReadInt24(s: Bytes): Parsed<int> {
    match ReadBytes(s, 3)
    case Panic => Panic
    case Ok(b, rest) => Ok(ShiftRight8(Signed(FromLittleEndian([0] + b), 0x1_0000_0000)), rest)
  }

  lemma ReadsItsBytes(b: Bytes, t: Bytes)
    ensures ReadBytes(b + t, |b|) == Ok(b, t)
  {}

  lemma ReadUintInverts(v: nat, n: nat, t: Bytes)
    requires v < Pow256(n)
    ensures ReadUint(LittleEndian(v, n) + t, n) == Ok(v, t)
  {
    LittleEndianInverts(v, n);
    ReadsItsBytes(LittleEndian(v, n), t);
  }

  lemma ReadIntInverts(v: int, n: nat, t: Bytes)
    requires n > 0 && Fits(v, Pow256(n))
    ensures ReadInt(LittleEndian(Unsigned(v, Pow256(n)), n) + t, n) == Ok(v, t)
  {
    SignedInverts(v, Pow256(n));
    ReadUintInverts(Unsigned(v, Pow256(n)), n, t);
  }

  /** Widening and shifting gives the 24-bit two's-complement value. */
  lemma ReadInt24Inverts(v: int, t: Bytes)
    requires Fits(v, 0x100_0000)
    ensures ReadInt24(LittleEndian(Unsigned(v, 0x100_0000), 3) + t) == Ok(v, t)
  {
    Powers();
    var u := Unsigned(v, 0x100_0000);
    var b := LittleEndian(u, 3);
    ReadsItsBytes(b, t);
    LittleEndianInverts(u, 3);
    assert ([0] + b)[1..] == b;
  }

  // ----- lengths -----

  /** The value of a length prefix and whether it announces a special encoding instead. */
  function ReadEncodedLength(s: Bytes): Parsed<(nat, bool)> {
    match ReadByte(s)
    case Panic => Panic
    case Ok(b, rest) =>
      if b / 64 == 0 then Ok((b % 64, false), rest)
      else if b / 64 == 1 then
        match ReadByte(rest)
        case Panic => Panic
        case Ok(next, rest) => Ok(((b % 64) * 256 + next, false), rest)
      else if b / 64 == 3 then Ok((b % 64, true), rest)
      else if b == 0x80 then
        match ReadBytes(rest, 4)
        case Panic => Panic
        case Ok(v, rest) => Ok((FromBigEndian(v), false), rest)
      else if b == 0x81 then
        match ReadBytes(rest, 8)
        case Panic => Panic
        case Ok(v, rest) => Ok((FromBigEndian(v), false), rest)
      else Panic
  }

  function ReadLength(s: Bytes): Parsed<nat> {
    match ReadEncodedLength(s)
    case Panic => Panic
    case Ok((n, special), rest) => if special then Panic else Ok(n, rest)
  }

  /** The four ways to write a length; the format lets a writer use any that is wide enough. */
  datatype LengthForm = Six | Fourteen | ThirtyTwo | SixtyFour

  predicate FitsForm(f: LengthForm, n: nat) {
    match f
    case Six => n < 64
    case Fourteen => n < 16384
    case ThirtyTwo => n < 0x1_0000_0000
    case SixtyFour => n < 0x1_0000_0000_0000_0000
  }

  function EncodeLength(f: LengthForm, n: nat): Bytes
    requires FitsForm(f, n)
  {
    match f
    case Six => [n]
    case Fourteen => [64 + n / 256, n % 256]
    case ThirtyTwo => [0x80] + BigEndian(n, 4)
    case SixtyFour => [0x81] + BigEndian(n, 8)
  }

  lemma BigEndianRead(n: nat, width: nat, t: Bytes)
    requires n < Pow256(width)
    ensures ReadBytes(BigEndian(n, width) + t, width) == Ok(BigEndian(n, width), t)
    ensures FromBigEndian(BigEndian(n, width)) == n
  {
    ReadsItsBytes(BigEndian(n, width), t);
    BigEndianInverts(n, width);
  }

  lemma SpecialPrefix(k: nat, t: Bytes)
    requires k < 64
    ensures ReadEncodedLength([0xC0 + k] + t) == Ok((k, true), t)
  {}

  /** Every form of a length is read back, and nothing behind it is touched. */
  lemma ReadLengthInverts(f: LengthForm, n: nat, t: Bytes)
    requires FitsForm(f, n)
    ensures ReadEncodedLength(EncodeLength(f, n) + t) == Ok((n, false), t)
    ensures ReadLength(EncodeLength(f, n) + t) == Ok(n, t)
  {
    hide Pow256, BigEndian, FromBigEndian;
    Powers();
    var s := EncodeLength(f, n) + t;
    match f
    case Six => assert s[1..] == t;
    case Fourteen => assert s[1..][1..] == t;
    case ThirtyTwo =>
      assert s[0] == 0x80 && s[1..] == BigEndian(n, 4) + t;
      BigEndianRead(n, 4, t);
    case SixtyFour =>
      assert s[0] == 0x81 && s[1..] == BigEndian(n, 8) + t;
      BigEndianRead(n, 8, t);
  }

  /** What `lzfDecompress` returns for a declared length. */
  function Decompressed(s: Bytes, outLen: nat): Option<Bytes> {
    match Decode(s, [])
    case None => None
    case Some(all) => if |all| == outLen then Some(all) else None
  }

  // ----- strings -----

  function Numeral(r: Parsed<int>): Parsed<Bytes> {
    match r
    case Panic => Panic
    case Ok(v, rest) => Ok(FormatInt(v), rest)
  }

  function ReadString(s: Bytes): Parsed<Bytes> {
    match ReadEncodedLength(s)
    case Panic => Panic
    case Ok((n, special), rest) =>
      if !special then ReadBytes(rest, n)
      else if n == 0 then Numeral(ReadInt(rest, 1))
      else if n == 1 then Numeral(ReadInt(rest, 2))
      else if n == 2 then Numeral(ReadInt(rest, 4))
      else if n == 3 then ReadCompressed(rest)
      else Panic
  }

  function ReadCompressed(s: Bytes): Parsed<Bytes> {
    match ReadLength(s)
    case Panic => Panic
    case Ok(inLen, rest) =>
      match ReadLength(rest)
      case Panic => Panic
      case Ok(outLen, rest) =>
        match ReadBytes(rest, inLen)
        case Panic => Panic
        case Ok(packed, rest) =>
          match Decompressed(packed, outLen)
          case None => Panic
          case Some(text) => Ok(text, rest)
  }

  /** The ways the format writes a string: as it is, as a small integer, or compressed. */
  datatype StringForm =
    | Plain(form: LengthForm, bytes: Bytes)
    | Small(width: nat, v: int)
    | Compressed(inForm: LengthForm, outForm: LengthForm, tokens: seq<Token>)

  ghost predicate ValidString(f: StringForm) {
    match f
    case Plain(form, bytes) => FitsForm(form, |bytes|)
    case Small(width, v) => (width == 1 || width == 2 || width == 4) && Fits(v, Pow256(width))
    case Compressed(inForm, outForm, tokens) =>
      ValidTokens(0, tokens) && FitsForm(inForm, |Encode(0, tokens)|) && FitsForm(outForm, |Expand([], tokens)|)
  }

  /** The string meant. */
  ghost function Text(f: StringForm): Bytes
    requires ValidString(f)
  {
    match f
    case Plain(_, bytes) => bytes
    case Small(_, v) => FormatInt(v)
    case Compressed(_, _, tokens) => Expand([], tokens)
  }

  ghost function EncodeString(f: StringForm): Bytes
    requires ValidString(f)
  {
    match f
    case Plain(form, bytes) => EncodeLength(form, |bytes|) + bytes
    case Small(width, v) => [0xC0 + (if width == 4 then 2 else width - 1)]
        + LittleEndian(Unsigned(v, Pow256(width)), width)
    case Compressed(inForm, outForm, tokens) =>
      [0xC3] + EncodeLength(inForm, |Encode(0, tokens)|) + EncodeLength(outForm, |Expand([], tokens)|)
          + Encode(0, tokens)
  }

  lemma ReadCompressedInverts(f: StringForm, t: Bytes)
    requires ValidString(f) && f.Compressed?
    ensures ReadString(EncodeString(f) + t) == Ok(Text(f), t)
  {
    hide EncodeLength, ReadEncodedLength, ReadLength, Expand, Encode, Decode, ReadBytes;
    var packed, text := Encode(0, f.tokens), Expand([], f.tokens);
    var a, b := EncodeLength(f.inForm, |packed|), EncodeLength(f.outForm, |text|);
    var s := EncodeString(f) + t;
    assert s == [0xC0 + 3] + (a + (b + (packed + t)));
    SpecialPrefix(3, a + (b + (packed + t)));
    ReadLengthInverts(f.inForm, |packed|, b + (packed + t));
    ReadLengthInverts(f.outForm, |text|, packed + t);
    ReadsItsBytes(packed, t);
    DecodeInvertsEncode([], f.tokens);
  }

  /** Every form of a string is read back as the string meant, and nothing behind it is touched. */
  lemma ReadStringInverts(f: StringForm, t: Bytes)
    requires ValidString(f)
    ensures ReadString(EncodeString(f) + t) == Ok(Text(f), t)
  {
    hide EncodeLength, ReadEncodedLength, Expand, Encode, ReadBytes, Pow256, LittleEndian, ReadInt, ReadCompressed;
    var s := EncodeString(f) + t;
    match f
    case Plain(form, bytes) =>
      assert s == EncodeLength(form, |bytes|) + (bytes + t);
      ReadLengthInverts(form, |bytes|, bytes + t);
      ReadsItsBytes(bytes, t);
    case Small(width, v) =>
      var k := if width == 4 then 2 else width - 1;
      assert s == [0xC0 + k] + (LittleEndian(Unsigned(v, Pow256(width)), width) + t);
      SpecialPrefix(k, LittleEndian(Unsigned(v, Pow256(width)), width) + t);
      ReadIntInverts(v, width, t);
    case Compressed(_, _, _) => ReadCompressedInverts(f, t);
  }

  // ----- lists of elements -----

  /** The elements read so far and what the remaining reads bring. */
  function Following(xs: seq<Bytes>, r: Parsed<seq<Bytes>>): Parsed<seq<Bytes>> {
    match r
    case Panic => Panic
    case Ok(ys, rest) => Ok(xs + ys, rest)
  }

  lemma FollowingNothing(xs: seq<Bytes>, r: Parsed<seq<Bytes>>)
    requires xs == []
    ensures Following(xs, r) == r
  {
    if r.Ok? { assert xs + r.value == r.value; }
  }

  lemma FollowingOneMore(xs: seq<Bytes>, x: Bytes, r: Parsed<seq<Bytes>>)
    ensures Following(xs, Following([x], r)) == Following(xs + [x], r)
  {
    if r.Ok? { assert xs + ([x] + r.value) == (xs + [x]) + r.value; }
  }
}
