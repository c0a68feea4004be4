/** The nodes of a stream: the loops over listpacks and their entries in `internal/rdb/types/stream.go`. */
module StreamNode {
  import opened Basics
  import opened RdbStrings
  import Listpack

  /** An XADD: the entry identifier, then fields and values in turn. */
  datatype XAdd = XAdd(id: Bytes, args: seq<Bytes>)

  /** The commands sent, and the elements or bytes left; nothing is left after a panic. */
  datatype Run<T> = Run(sent: seq<XAdd>, left: Option<T>)

  function Onto<T>(sent: seq<XAdd>, r: Run<T>): Run<T> { Run(sent + r.sent, r.left) }

  lemma OntoOnto<T>(a: seq<XAdd>, b: seq<XAdd>, r: Run<T>)
    ensures Onto(a, Onto(b, r)) == Onto(a + b, r)
  {
    assert a + (b + r.sent) == (a + b) + r.sent;
  }

  /** The identifier that entries are counted from, and the fields they may share. */
  datatype Master = Master(ms: int, sq: int, fields: seq<Bytes>)

  function Id(ms: int, sq: int): Bytes { FormatInt(ms) + [MINUS] + FormatInt(sq) }

  /** Shared fields with the values of an entry. */
  function Zip(fields: seq<Bytes>, values: seq<Bytes>): seq<Bytes>
    requires |fields| == |values|
    decreases |fields|
  {
    if fields == [] then [] else [fields[0], values[0]] + Zip(fields[1..], values[1..])
  }

  datatype One = One(deleted: bool, add: XAdd, rest: seq<Bytes>)

  /** The fields and values of an entry, with what follows them. */
  function ReadArgs(m: Master, same: bool, s: seq<Bytes>): Option<(seq<Bytes>, seq<Bytes>)> {
    if same then
      if |s| < |m.fields| then None else Some((Zip(m.fields, s[..|m.fields|]), s[|m.fields|..]))
    else if s == [] then None
    else
      match ParseInt(s[0])
      case None => None
      case Some(num) =>
        var n := Wrap(num * 2);
        if n < 0 || 1 + n > |s| then None else Some((s[1..1 + n], s[1 + n..]))
  }

  function ReadOne(m: Master, s: seq<Bytes>): (r: Option<One>)
    ensures r.Some? ==> |r.value.rest| < |s|
  {
    if |s| < 3 || ParseInt(s[0]).None? || ParseInt(s[1]).None? || ParseInt(s[2]).None? then None
    else
      var flags := ParseInt(s[0]).value;
      var id := Id(Wrap(ParseInt(s[1]).value + m.ms), Wrap(ParseInt(s[2]).value + m.sq));
      match ReadArgs(m, flags / 2 % 2 == 1, s[3..])
      case None => None
      case Some((args, rest)) =>
        if rest == [] then None else Some(One(flags % 2 == 1, XAdd(id, args), rest[1..]))
  }

  function ReadEntries(m: Master, s: seq<Bytes>, count: int, deleted: int): Run<seq<Bytes>>
    decreases |s|
  {
    if count == 0 && deleted == 0 then Run([], Some(s))
    else
      match ReadOne(m, s)
      case None => Run([], None)
      case Some(One(gone, add, rest)) =>
        if gone then ReadEntries(m, rest, count, Wrap(deleted - 1))
        else Onto([add], ReadEntries(m, rest, Wrap(count - 1), deleted))
  }

  const ZEROTEXT: Bytes := [ZERO]

  /** A node: the master entry, then the entries. */
  function ReadNode(ms: int, sq: int, s: seq<Bytes>): Run<seq<Bytes>> {
    if |s| < 3 || ParseInt(s[0]).None? || ParseInt(s[1]).None? || ParseInt(s[2]).None? then Run([], None)
    else
      var n := ParseInt(s[2]).value;
      if n < 0 || 3 + n >= |s| || s[3 + n] != ZEROTEXT then Run([], None)
      else ReadEntries(Master(ms, sq, s[3..3 + n]), s[4 + n..], ParseInt(s[0]).value, ParseInt(s[1]).value)
  }

  /** A node from the stream of bytes: the master identifier in sixteen bytes, then a listpack. */
  function ReadNodeBytes(s: Bytes): Run<Bytes> {
    match ReadString(s)
    case Panic => Run([], None)
    case Ok(key, rest) =>
      if |key| < 16 then Run([], None)
      else
        match Listpack.ReadListpack(rest)
        case Panic => Run([], None)
        case Ok(elements, rest) =>
          var r := ReadNode(Wrap(FromBigEndian(key[..8])), Wrap(FromBigEndian(key[8..16])), elements);
          Run(r.sent, if r.left.None? then None else Some(rest))
  }

  function ReadNodes(s: Bytes, n: nat): Run<Bytes>
    decreases n
  {
    if n == 0 then Run([], Some(s))
    else
      var r := ReadNodeBytes(s);
      if r.left.None? then r else Onto(r.sent, ReadNodes(r.left.value, n - 1))
  }

  // ----- the loops -----

  /** The loop over the entries of one node, by an index into its elements. */
  method EntryLoop(m: Master, elements: seq<Bytes>, start: nat, count0: int,
      deleted0: int) returns (sent: seq<XAdd>, end: Option<nat>)
    requires start <= |elements|
    ensures end.Some? ==> end.value <= |elements|
    ensures ReadEntries(m, elements[start..], count0, deleted0) ==
        Run(sent, if end.None? then None else Some(elements[end.value..]))
  {
    hide ReadOne;
    var inx, count, deleted := start, count0, deleted0;
    sent := [];
    ghost var all := ReadEntries(m, elements[start..], count0, deleted0);
    assert Onto([], all) == all;
    while count != 0 || deleted != 0
      invariant inx <= |elements|
      invariant all == Onto(sent, ReadEntries(m, elements[inx..], count, deleted))
      decreases |elements| - inx
    {
      assert sent + [] == sent;
      var one, next := EntryStep(m, elements, inx);
      if one.None? { return sent, None; }
      inx := next;
      if one.value.deleted {
        deleted := Wrap(deleted - 1);
      } else {
        count := Wrap(count - 1);
        OntoOnto(sent, [one.value.add], ReadEntries(m, elements[inx..], count, deleted));
        sent := sent + [one.value.add];
      }
    }
    assert sent + [] == sent;
    end := Some(inx);
  }

  method EntryStep(m: Master, elements: seq<Bytes>, start: nat) returns (one: Option<One>, next: nat)
    requires start <= |elements|
    ensures one == ReadOne(m, elements[start..])
    ensures one.Some? ==> start < next <= |elements| && one.value.rest == elements[next..]
  {
    hide ParseInt, Id, Wrap;
    var inx := start;
    ghost var s := elements[start..];
    if inx + 3 > |elements| { return None, inx; }
    var flags, entryMs, entrySeq := ParseInt(elements[inx]), ParseInt(elements[inx + 1]), ParseInt(elements[inx + 2]);
    if flags.None? || entryMs.None? || entrySeq.None? { return None, inx; }
    inx := inx + 3;
    var same := flags.value / 2 % 2 == 1;
    var args: seq<Bytes>;
    assert s[3..] == elements[inx..];
    if same {
      if inx + |m.fields| > |elements| { return None, inx; }
      args := ZipLoop(m.fields, elements, inx);
      assert elements[inx..][..|m.fields|] == elements[inx..inx + |m.fields|];
      assert elements[inx..][|m.fields|..] == elements[inx + |m.fields|..];
      inx := inx + |m.fields|;
    } else {
      if inx >= |elements| { return None, inx; }
      var num := ParseInt(elements[inx]);
      if num.None? { return None, inx; }
      var n := Wrap(num.value * 2);
      if n < 0 || inx + 1 + n > |elements| { return None, inx; }
      args := elements[inx + 1..inx + 1 + n];
      assert elements[inx..][1..1 + n] == args && elements[inx..][1 + n..] == elements[inx + 1 + n..];
      inx := inx + 1 + n;
    }
    assert ReadArgs(m, same, s[3..]) == Some((args, elements[inx..]));
    if inx >= |elements| { return None, inx; }
    assert elements[inx..][1..] == elements[inx + 1..];
    next := inx + 1;
    one := Some(One(flags.value % 2 ==
        1, XAdd(Id(Wrap(entryMs.value + m.ms), Wrap(entrySeq.value + m.sq)), args), elements[next..]));
  }

  method ZipLoop(fields: seq<Bytes>, elements: seq<Bytes>, inx: nat) returns (args: seq<Bytes>)
    requires inx + |fields| <= |elements|
    ensures args == Zip(fields, elements[inx..inx + |fields|])
  {
    var n := |fields|;
    args := [];
    assert fields[0..] == fields;
    for j := 0 to n
      invariant args + Zip(fields[j..], elements[inx + j..inx + n]) == Zip(fields, elements[inx..inx + n])
    {
      var f, v := fields[j..], elements[inx + j..inx + n];
      assert f[0] == fields[j] && f[1..] == fields[j + 1..] && v[0] == elements[inx + j] && v[1..] ==
          elements[inx + j + 1..inx + n];
      assert args + ([f[0], v[0]] + Zip(f[1..], v[1..])) == (args + [f[0], v[0]]) + Zip(f[1..], v[1..]);
      args := args + [fields[j], elements[inx + j]];
    }
    assert args + [] == args;
  }
}
