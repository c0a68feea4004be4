/** Turning an encoded list, set or hash into commands: `internal/rdb/types/list.go`, `set.go`, `hash.go`. */
module Rewrite {
  import opened Basics
  import opened RdbStrings
  import opened RewriteTarget
  import Listpack
  import Ziplist
  import Intset

  /** The commands sent and what is left to read; nothing is left after a panic. */
  datatype Out = Out(sent: seq<Cmd>, left: Option<Bytes>)

  function Emit(cmds: seq<Cmd>, r: Out): Out {
    Out(cmds + r.sent, r.left)
  }

  lemma EmitMore(xs: seq<Cmd>, cmds: seq<Cmd>, r: Out)
    ensures Emit(xs, Emit(cmds, r)) == Emit(xs + cmds, r)
  {
    assert xs + (cmds + r.sent) == (xs + cmds) + r.sent;
  }

  /** A container read whole, then sent element by element. */
  function Sending(kind: Kind, key: Bytes, r: Parsed<seq<Bytes>>): Out {
    match r
    case Panic => Out([], None)
    case Ok(es, rest) => Out(SendAll(kind, key, es), Some(rest))
  }

  /** A count converted to `int`: one that turns negative makes the loop not run at all. */
  function Count(n: nat): nat { if n < 0x8000_0000_0000_0000 then n else 0 }

  // ----- lists and sets -----

  function ReadPlain(kind: Kind, key: Bytes, s: Bytes, n: nat): Out
    decreases n
  {
    if n == 0 then Out([], Some(s))
    else
      match ReadString(s)
      case Panic => Out([], None)
      case Ok(e, rest) => Emit([One(kind, key, e)], ReadPlain(kind, key, rest, n - 1))
  }

  function ReadQuick(key: Bytes, s: Bytes, n: nat): Out
    decreases n
  {
    if n == 0 then Out([], Some(s))
    else
      match Ziplist.ReadZipList(s)
      case Panic => Out([], None)
      case Ok(es, rest) => Emit(SendAll(OfList, key, es), ReadQuick(key, rest, n - 1))
  }

  const PLAIN := 1
  const PACKED := 2

  /** A node of a second-version quicklist: one large string or a listpack. */
  function ReadNode(s: Bytes): Parsed<seq<Bytes>> {
    match ReadLength(s)
    case Panic => Panic
    case Ok(container, rest) =>
      if container == PLAIN then
        match ReadString(rest)
        case Panic => Panic
        case Ok(e, rest) => Ok([e], rest)
      else if container == PACKED then Listpack.ReadListpack(rest)
      else Panic
  }

  function ReadQuick2(key: Bytes, s: Bytes, n: nat): Out
    decreases n
  {
    if n == 0 then Out([], Some(s))
    else
      match ReadNode(s)
      case Panic => Out([], None)
      case Ok(es, rest) => Emit(SendAll(OfList, key, es), ReadQuick2(key, rest, n - 1))
  }

  function RewriteList(typeByte: int, key: Bytes, s: Bytes): Out {
    Emit([Del(key)],
      if typeByte == 10 then Sending(OfList, key, Ziplist.ReadZipList(s))
      else if typeByte == 1 || typeByte == 14 || typeByte == 18 then
        match ReadLength(s)
        case Panic => Out([], None)
        case Ok(n, rest) =>
          if typeByte == 1 then ReadPlain(OfList, key, rest, Count(n))
          else if typeByte == 14 then ReadQuick(key, rest, Count(n))
          else ReadQuick2(key, rest, Count(n))
      else Out([], None))
  }

  function RewriteSet(typeByte: int, key: Bytes, s: Bytes): Out {
    Emit([Del(key)],
      if typeByte == 2 then
        match ReadLength(s)
        case Panic => Out([], None)
        case Ok(n, rest) => ReadPlain(OfSet, key, rest, Count(n))
      else if typeByte == 11 then Sending(OfSet, key, Intset.ReadIntset(s))
      else if typeByte == 20 then Sending(OfSet, key, Listpack.ReadListpack(s))
      else Out([], None))
  }

  // ----- hashes -----

  /** How a field lies in the stream: without expiry; field, value and expiry in eight bytes; or expiry
      first as a length, either absolute or counted from one below a minimum. */
  datatype Layout = NoExpiry | ExpiryLast | ExpiryFirst(absolute: bool, min: int)

  function ReadPair(s: Bytes): Parsed<(Bytes, Bytes)> {
    match ReadString(s)
    case Panic => Panic
    case Ok(field, rest) =>
      match ReadString(rest)
      case Panic => Panic
      case Ok(e, rest) => Ok((field, e), rest)
  }

  function ReadField(layout: Layout, s: Bytes): Parsed<FieldAt> {
    match layout
    case NoExpiry => (match ReadPair(s) case Panic => Panic case Ok((field, e), rest) => Ok(FieldAt(field, e, 0), rest))
    case ExpiryLast =>
      (match ReadPair(s)
       case Panic => Panic
       case Ok((field, e), rest) =>
         match ReadUint(rest, 8)
         case Panic => Panic
         case Ok(at, rest) => Ok(FieldAt(field, e, Wrap(at)), rest))
    case ExpiryFirst(absolute, min) =>
      (match ReadLength(s)
       case Panic => Panic
       case Ok(n, rest) =>
         match ReadPair(rest)
         case Panic => Panic
         case Ok((field, e), rest) => Ok(FieldAt(field, e, ExpiryAt(absolute, min, Wrap(n))), rest))
  }

  function ExpiryAt(absolute: bool, min: int, at: int): int {
    if absolute || at == 0 then at else Wrap(Wrap(at + min) - 1)
  }

  function ReadFields(layout: Layout, key: Bytes, s: Bytes, n: nat): Out
    decreases n
  {
    if n == 0 then Out([], Some(s))
    else
      match ReadField(layout, s)
      case Panic => Out([], None)
      case Ok(f, rest) => Emit(SendField(key, f), ReadFields(layout, key, rest, n - 1))
  }

  /** Fields and values in turn; an odd one out makes the index run off the end. */
  function SendPairs(key: Bytes, list: seq<Bytes>, rest: Bytes): Out
    decreases |list|
  {
    if list == [] then Out([], Some(rest))
    else if |list| == 1 then Out([], None)
    else Emit([HSet(key, list[0], list[1])], SendPairs(key, list[2..], rest))
  }

  /** Fields, values and expiries in turn. */
  function SendTriples(key: Bytes, list: seq<Bytes>, rest: Bytes): Out
    decreases |list|
  {
    if list == [] then Out([], Some(rest))
    else if |list| < 3 then Out([], None)
    else
      match ParseInt(list[2])
      case None => Out([], None)
      case Some(at) => Emit(SendField(key, FieldAt(list[0], list[1], at)), SendTriples(key, list[3..], rest))
  }

  function SendingHash(key: Bytes, width: nat, r: Parsed<seq<Bytes>>): Out {
    match r
    case Panic => Out([], None)
    case Ok(list, rest) => if width == 2 then SendPairs(key, list, rest) else SendTriples(key, list, rest)
  }

  function ReadCountedFields(layout: Layout, key: Bytes, s: Bytes): Out {
    match ReadLength(s)
    case Panic => Out([], None)
    case Ok(n, rest) => ReadFields(layout, key, rest, Count(n))
  }

  function RewriteHash(typeByte: int, valkey: bool, key: Bytes, s: Bytes): Out {
    Emit([Del(key)],
      if typeByte == 4 then ReadCountedFields(NoExpiry, key, s)
      else if typeByte == 13 then SendingHash(key, 2, Ziplist.ReadZipList(s))
      else if typeByte == 16 then SendingHash(key, 2, Listpack.ReadListpack(s))
      else if typeByte == 22 then ReadCountedFields(if valkey then ExpiryLast else ExpiryFirst(true, 0), key, s)
      else if typeByte == 23 then SendingHash(key, 3, Listpack.ReadListpack(s))
      else if typeByte == 24 || typeByte == 25 then
        match ReadUint(s, 8)
        case Panic => Out([], None)
        case Ok(min, rest) =>
          if typeByte == 24 then ReadCountedFields(ExpiryFirst(false, Wrap(min)), key, rest)
          else SendingHash(key, 3, Listpack.ReadListpack(rest))
      else Out([], None))
  }
}
