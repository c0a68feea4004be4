/** The Redis serialization protocol: `internal/client/proto/reader.go` and `writer.go`.  The readers are
    functions from the bytes ahead to what is read and the bytes left over. */
module Resp {
  import opened Basics

  const CR: byte := 13
  const LF: byte := 10
  const CRLF: Bytes := [CR, LF]

  const STATUS: byte := 43     // +
  const ERROR: byte := 45      // -
  const STRING: byte := 36     // $
  const INT: byte := 58        // :
  const NIL: byte := 95        // _
  const FLOAT: byte := 44      // ,
  const BOOL: byte := 35       // #
  const BLOBERROR: byte := 33  // !
  const VERBATIM: byte := 61   // =
  const BIGINT: byte := 40     // (
  const ARRAY: byte := 42      // *
  const MAP: byte := 37        // %
  const SET: byte := 126       // ~
  const ATTR: byte := 124      // |
  const PUSH: byte := 62       // >
  const COLON: byte := 58

  /** What a read delivers.  The program reports a nil and an error reply of the server as errors, which
      its arrays and maps store like values; a map keeps its pairs in order of arrival here. */
  datatype Value =
    | Str(bytes: Bytes)
    | Num(v: int)
    | Flt(text: Bytes)
    | Bool(b: bool)
    | Big(v: int)
    | Nil
    | Err(message: Bytes)
    | List(items: seq<Value>)
    | Dict(pairs: seq<(Value, Value)>)

  predicate IsError(v: Value) { v.Nil? || v.Err? }

  datatype Reading<T> = Broken | Got(value: T, rest: Bytes)

  // ----- lines and lengths -----

  /** Position of the first line feed; the length if there is none. */
  function LineEnd(s: Bytes): (i: nat)
    ensures i <= |s| && (i < |s| ==> s[i] == LF) && forall j :: 0 <= j < i ==> s[j] != LF
    decreases |s|
  {
    if s == [] || s[0] == LF then 0 else 1 + LineEnd(s[1..])
  }

  /** A line of at least one byte in front of carriage return and line feed. */
  function ReadLine(s: Bytes): (r: Reading<Bytes>)
    ensures r.Got? ==> r.value != [] && |r.rest| < |s|
  {
    var i := LineEnd(s);
    if i == |s| || i + 1 <= 2 || s[i - 1] != CR then Broken else Got(s[..i - 1], s[i + 1..])
  }

  datatype Length = BadLen | NilLen | Len(n: nat)

  function ReplyLen(line: Bytes): Length
    requires line != []
  {
    match ParseInt(line[1..])
    case None => BadLen
    case Some(n) => if n < -1 then BadLen else if n == -1 then NilLen else Len(n)
  }

  predicate IsNilReply(line: Bytes) {
    |line| == 3 && (line[0] == STRING || line[0] == ARRAY) && line[1] == MINUS && line[2] == 49
  }

  /** The body announced by a line: `n` bytes and two more. */
  function ReadBulk(line: Bytes, s: Bytes): (r: Reading<Value>)
    requires line != []
    ensures r.Got? ==> |r.rest| <= |s| && (r.value.Nil? || r.value.Str?)
  {
    match ReplyLen(line)
    case BadLen => Broken
    case NilLen => Got(Nil, s)
    case Len(n) => if |s| < n + 2 then Broken else Got(Str(s[..n]), s[n + 2..])
  }

  // ----- discarding -----

  predicate OneLiner(kind: byte) {
    kind == STATUS || kind == ERROR || kind == INT || kind == NIL || kind == FLOAT || kind == BOOL || kind == BIGINT
  }

  predicate IsBulk(kind: byte) { kind == BLOBERROR || kind == STRING || kind == VERBATIM }

  predicate IsSlice(kind: byte) { kind == ARRAY || kind == SET || kind == PUSH }

  function DiscardNext(s: Bytes): (r: Option<Bytes>)
    ensures r.Some? ==> |r.value| < |s|
    decreases |s|, 0, 0
  {
    match ReadLine(s)
    case Broken => None
    case Got(line, rest) => Discard(line, rest)
  }

  /** A nil length counts as zero, so a nil string still has its two trailing bytes taken. */
  function Discard(line: Bytes, s: Bytes): (r: Option<Bytes>)
    requires line != []
    ensures r.Some? ==> |r.value| <= |s|
    decreases |s|, 2, 0
  {
    if OneLiner(line[0]) then Some(s)
    else if ReplyLen(line).BadLen? then None
    else
      var n := if ReplyLen(line).NilLen? then 0 else ReplyLen(line).n;
      if IsBulk(line[0]) then (if |s| < n + 2 then None else Some(s[n + 2..]))
      else if IsSlice(line[0]) then DiscardMany(s, n)
      else if line[0] == MAP || line[0] == ATTR then DiscardMany(s, 2 * n)
      else None
  }

  function DiscardMany(s: Bytes, n: nat): (r: Option<Bytes>)
    ensures r.Some? ==> |r.value| <= |s|
    decreases |s|, 1, n
  {
    if n == 0 then Some(s)
    else
      match DiscardNext(s)
      case None => None
      case Some(rest) => DiscardMany(rest, n - 1)
  }

  // ----- reading -----

  function ReadReply(s: Bytes): (r: Reading<Value>)
    ensures r.Got? ==> |r.rest| < |s|
    decreases |s|, 0, 0
  {
    match ReadLine(s)
    case Broken => Broken
    case Got(line, rest) =>
      if line[0] == ERROR then Got(Err(line[1..]), rest)
      else if line[0] == NIL then Got(Nil, rest)
      else if line[0] == BLOBERROR then
        match ReadBulk(line, rest)
        case Broken => Broken
        case Got(v, rest) => Got(if v.Str? then Err(v.bytes) else v, rest)
      else if line[0] == ATTR then
        match Discard(line, rest)
        case None => Broken
        case Some(rest) => ReadReply(rest)
      else if IsNilReply(line) then Got(Nil, rest)
      else ReadBody(line, rest)
  }

  /** A decimal number of any size. */
  function ParseBig(s: Bytes): Option<int> {
    var signed := s != [] && (s[0] == MINUS || s[0] == PLUS);
    var digits := if signed then s[1..] else s;
    if digits == [] || !Numeric(digits) then None
    else if signed && s[0] == MINUS then Some(0 - DigitsValue(digits)) else Some(DigitsValue(digits))
  }

  /** What fits on the line itself. */
  function ReadScalar(line: Bytes, s: Bytes): (r: Reading<Value>)
    requires line != []
    ensures r.Got? ==> r.rest == s && !IsError(r.value)
  {
    var text := line[1..];
    if line[0] == STATUS then Got(Str(text), s)
    else if line[0] == INT then (match ParseInt(text) case None => Broken case Some(v) => Got(Num(v), s))
    else if line[0] == FLOAT then Got(Flt(text), s)
    else if line[0] ==
        BOOL then (if text == [116] then Got(Bool(true), s) else if text == [102] then Got(Bool(false), s) else Broken)
    else if line[0] == BIGINT then (match ParseBig(text) case None => Broken case Some(v) => Got(Big(v), s))
    else Broken
  }

  /** A string with a three-letter format and a colon in front. */
  function Verbatim(r: Reading<Value>): Reading<Value> {
    match r
    case Broken => Broken
    case Got(v, rest) =>
      if v.Str? then (if |v.bytes| < 4 || v.bytes[3] != COLON then Broken else Got(Str(v.bytes[4..]), rest)) else r
  }

  function ReadBody(line: Bytes, s: Bytes): (r: Reading<Value>)
    requires line != []
    ensures r.Got? ==> |r.rest| <= |s|
    decreases |s|, 3, 0
  {
    if line[0] == STRING then ReadBulk(line, s)
    else if line[0] == VERBATIM then Verbatim(ReadBulk(line, s))
    else if IsSlice(line[0]) || line[0] == MAP then
      match ReplyLen(line)
      case BadLen => Broken
      case NilLen => Got(Nil, s)
      case Len(n) =>
        if line[0] == MAP then ReadPairs([], s, n)
        else
          match ReadItems(s, n)
          case Broken => Broken
          case Got(items, rest) => Got(List(items), rest)
    else ReadScalar(line, s)
  }

  function ReadItems(s: Bytes, n: nat): (r: Reading<seq<Value>>)
    ensures r.Got? ==> |r.rest| <= |s|
    decreases |s|, 1, n
  {
    if n == 0 then Got([], s)
    else
      match ReadReply(s)
      case Broken => Broken
      case Got(v, rest) =>
        match ReadItems(rest, n - 1)
        case Broken => Broken
        case Got(vs, rest) => Got([v] + vs, rest)
  }

  /** A key that is an error ends the map with that error; a key that cannot be hashed is a panic. */
  function ReadPairs(have: seq<(Value, Value)>, s: Bytes, n: nat): (r: Reading<Value>)
    ensures r.Got? ==> |r.rest| <= |s|
    decreases |s|, 1, n
  {
    if n == 0 then Got(Dict(have), s)
    else
      match ReadReply(s)
      case Broken => Broken
      case Got(k, rest) =>
        if IsError(k) then Got(k, rest)
        else
          match ReadReply(rest)
          case Broken => Broken
          case Got(v, rest) => if k.List? || k.Dict? then Broken else ReadPairs(have + [(k, v)], rest, n - 1)
  }

  // ----- the protocol -----

  /** A reply as the server writes it. */
  datatype Reply =
    | Line(kind: byte, text: Bytes)
    | Bulk(kind: byte, bytes: Bytes)
    | NullBulk(kind: byte)
    | NullOf(kind: byte)
    | Slice(kind: byte, items: seq<Reply>)
    | Map(items: seq<Reply>)
    | Attributed(attributes: seq<Reply>, of: Reply)

  const HUGE := 0x7FFF_FFFF_FFFF_FFFF

  /** Neither attributes nor a null string anywhere. */
  ghost predicate Plain(r: Reply) {
    match r
    case NullBulk(_) => false
    case Slice(_, items) => forall i :: 0 <= i < |items| ==> Plain(items[i])
    case Map(items) => forall i :: 0 <= i < |items| ==> Plain(items[i])
    case Attributed(_, _) => false
    case _ => true
  }

  ghost predicate ValidLine(kind: byte, text: Bytes) {
    OneLiner(kind) && LF !in text
    && (kind == INT ==> ParseInt(text).Some?)
    && (kind == BIGINT ==> ParseBig(text).Some?)
    && (kind == BOOL ==> text == [116] || text == [102])
    && (kind == NIL ==> text == [])
  }

  ghost predicate ValidBulk(kind: byte, bytes: Bytes) {
    IsBulk(kind) && |bytes| < HUGE && (kind == VERBATIM ==> |bytes| >= 4 && bytes[3] == COLON)
  }

  /** What a map can be indexed with. */
  ghost predicate IsKey(r: Reply) {
    (r.Line? && r.kind != ERROR && r.kind != NIL) || (r.Bulk? && r.kind != BLOBERROR) || (r.Attributed? && IsKey(r.of))
  }

  /** What the protocol allows. */
  ghost predicate Valid(r: Reply) {
    match r
    case Line(kind, text) => ValidLine(kind, text)
    case Bulk(kind, bytes) => ValidBulk(kind, bytes)
    case NullBulk(kind) => IsBulk(kind)
    case NullOf(kind) => IsSlice(kind) || kind == MAP
    case Slice(kind, items) => IsSlice(kind) && |items| < HUGE && forall i :: 0 <= i < |items| ==> Valid(items[i])
    case Map(items) => |items| < HUGE && |items| % 2 == 0 && forall i :: 0 <= i < |items| ==> Valid(items[i])
    case Attributed(attributes, of) =>
      |attributes| < HUGE && |attributes| % 2 == 0 && Valid(of) && forall i :: 0 <= i < |attributes| ==>
          Valid(attributes[i])
  }

  ghost predicate ValidAll(items: seq<Reply>) { forall i :: 0 <= i < |items| ==> Valid(items[i]) }

  ghost predicate AllPlain(items: seq<Reply>) { forall i :: 0 <= i < |items| ==> Plain(items[i]) }

  ghost predicate AllKeys(items: seq<Reply>) { forall i :: 0 <= i < |items| && i % 2 == 0 ==> IsKey(items[i]) }

  /** What the reader can cope with, at every level: plain attributes, and map keys that can be indexed with. */
  ghost predicate Readable(r: Reply) {
    match r
    case Slice(_, items) => forall i :: 0 <= i < |items| ==> Readable(items[i])
    case Map(items) => AllKeys(items) && forall i :: 0 <= i < |items| ==> Readable(items[i])
    case Attributed(attributes, of) => AllPlain(attributes) && Readable(of)
    case _ => true
  }

  function Header(kind: byte, n: nat): Bytes { [kind] + Digits(n) + CRLF }

  ghost function EncodeReply(r: Reply): Bytes
    decreases r
  {
    match r
    case Line(kind, text) => [kind] + text + CRLF
    case Bulk(kind, bytes) => Header(kind, |bytes|) + bytes + CRLF
    case NullBulk(kind) => [kind, MINUS, 49] + CRLF
    case NullOf(kind) => [kind, MINUS, 49] + CRLF
    case Slice(kind, items) => Header(kind, |items|) + EncodeAll(items)
    case Map(items) => Header(MAP, |items| / 2) + EncodeAll(items)
    case Attributed(attributes, of) => Header(ATTR, |attributes| / 2) + EncodeAll(attributes) + EncodeReply(of)
  }

  ghost function EncodeAll(items: seq<Reply>): Bytes
    decreases items
  {
    if items == [] then [] else EncodeReply(items[0]) + EncodeAll(items[1..])
  }

  /** The value a reply stands for. */
  ghost function Meaning(r: Reply): Value
    requires Valid(r)
    decreases r
  {
    match r
    case Line(kind, text) =>
      if kind == STATUS then Str(text)
      else if kind == ERROR then Err(text)
      else if kind == INT then Num(ParseInt(text).value)
      else if kind == NIL then Nil
      else if kind == FLOAT then Flt(text)
      else if kind == BOOL then Bool(text == [116])
      else Big(ParseBig(text).value)
    case Bulk(kind, bytes) => if kind == BLOBERROR then Err(bytes)
        else Str(if kind == VERBATIM then bytes[4..] else bytes)
    case NullBulk(_) => Nil
    case NullOf(_) => Nil
    case Slice(_, items) => List(MeaningAll(items))
    case Map(items) => Dict(PairUp(MeaningAll(items)))
    case Attributed(_, of) => Meaning(of)
  }

  ghost function MeaningAll(items: seq<Reply>): (vs: seq<Value>)
    requires ValidAll(items)
    ensures |vs| == |items|
    decreases items
  {
    if items == [] then [] else [Meaning(items[0])] + MeaningAll(items[1..])
  }

  ghost function PairUp(vs: seq<Value>): seq<(Value, Value)>
    requires |vs| % 2 == 0
    decreases |vs|
  {
    if vs == [] then [] else [(vs[0], vs[1])] + PairUp(vs[2..])
  }
}
