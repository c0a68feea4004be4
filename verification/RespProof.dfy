/** Reading and discarding invert the protocol: `internal/client/proto/reader.go`. */
module RespProof {
  import opened Basics
  import opened Resp

  lemma {:induction false} LineEndAt(line: Bytes, t: Bytes)
    requires LF !in line
    ensures LineEnd(line + [LF] + t) == |line|
    decreases |line|
  {
    var s := line + [LF] + t;
    if line != [] {
      assert s[0] == line[0] && s[1..] == line[1..] + [LF] + t;
      LineEndAt(line[1..], t);
    }
  }

  lemma LineRead(line: Bytes, t: Bytes)
    requires line != [] && LF !in line
    ensures ReadLine(line + CRLF + t) == Got(line, t)
  {
    var s := line + CRLF + t;
    assert s == (line + [CR]) + [LF] + t;
    LineEndAt(line + [CR], t);
    assert s[..|line|] == line && s[|line| + 2..] == t;
  }

  lemma HeaderRead(kind: byte, n: nat, t: Bytes)
    requires n <= HUGE && kind != LF
    ensures ReadLine(Header(kind, n) + t) == Got([kind] + Digits(n), t)
    ensures ReplyLen([kind] + Digits(n)) == Len(n) && !IsNilReply([kind] + Digits(n))
  {
    hide ReadLine, ParseInt;
    var line := [kind] + Digits(n);
    assert Header(kind, n) + t == line + CRLF + t;
    forall i | 0 <= i < |line|
      ensures line[i] != LF
    {
      if i > 0 { assert IsDigit(Digits(n)[i - 1]); }
    }
    LineRead(line, t);
    ParseFormatted(n);
    assert line[1..] == Digits(n);
    assert IsDigit(Digits(n)[0]);
  }

  lemma NullRead(kind: byte, t: Bytes)
    requires kind != LF
    ensures ReadLine([kind, MINUS, 49] + CRLF + t) == Got([kind, MINUS, 49], t)
    ensures ReplyLen([kind, MINUS, 49]) == NilLen
  {
    hide ReadLine, ParseInt;
    LineRead([kind, MINUS, 49], t);
    assert Digits(1) == [49];
    ParseFormatted(-1);
    assert [kind, MINUS, 49][1..] == FormatInt(-1);
  }

  // ----- discarding -----

  /** The bulk body and its two trailing bytes. */
  lemma BulkRead(kind: byte, bytes: Bytes, t: Bytes)
    requires IsBulk(kind) && |bytes| < HUGE
    ensures ReadBulk([kind] + Digits(|bytes|), bytes + CRLF + t) == Got(Str(bytes), t)
    ensures Discard([kind] + Digits(|bytes|), bytes + CRLF + t) == Some(t)
  {
    hide ParseInt, Digits, IsNilReply;
    HeaderRead(kind, |bytes|, []);
    var s := bytes + CRLF + t;
    assert s[..|bytes|] == bytes && s[|bytes| + 2..] == t;
    assert ([kind] + Digits(|bytes|))[0] == kind;
  }

  /** A plain reply is discarded to the byte. */
  lemma {:induction false} DiscardInverts(r: Reply, t: Bytes)
    requires Valid(r) && Plain(r)
    ensures DiscardNext(EncodeReply(r) + t) == Some(t)
    decreases r
  {
    hide ReadLine, ReplyLen, Digits, Header, IsNilReply, ReadBulk, ParseInt, ParseBig, DiscardMany, EncodeAll;
    match r
    case Line(kind, text) =>
      assert EncodeReply(r) + t == [kind] + text + CRLF + t;
      LineRead([kind] + text, t);
    case Bulk(kind, bytes) =>
      assert EncodeReply(r) + t == Header(kind, |bytes|) + (bytes + CRLF + t);
      HeaderRead(kind, |bytes|, bytes + CRLF + t);
      BulkRead(kind, bytes, t);
    case NullOf(kind) =>
      NullRead(kind, t);
      NothingToDiscard(t);
    case Slice(kind, items) =>
      assert EncodeReply(r) + t == Header(kind, |items|) + (EncodeAll(items) + t);
      HeaderRead(kind, |items|, EncodeAll(items) + t);
      DiscardAllInverts(items, t);
    case Map(items) =>
      assert EncodeReply(r) + t == Header(MAP, |items| / 2) + (EncodeAll(items) + t);
      HeaderRead(MAP, |items| / 2, EncodeAll(items) + t);
      DiscardAllInverts(items, t);
  }

  lemma NothingToDiscard(t: Bytes)
    ensures DiscardMany(t, 0) == Some(t)
  {}

  lemma {:induction false} DiscardAllInverts(items: seq<Reply>, t: Bytes)
    requires forall i :: 0 <= i < |items| ==> Valid(items[i]) && Plain(items[i])
    ensures DiscardMany(EncodeAll(items) + t, |items|) == Some(t)
    decreases items
  {
    hide DiscardNext, EncodeReply, Valid, Plain;
    if items == [] {
      assert [] + t == t;
    } else {
      assert EncodeAll(items) + t == EncodeReply(items[0]) + (EncodeAll(items[1..]) + t);
      DiscardInverts(items[0], EncodeAll(items[1..]) + t);
      DiscardAllInverts(items[1..], t);
    }
  }

  // ----- reading -----

  lemma ReadLineInverts(r: Reply, t: Bytes)
    requires Valid(r) && r.Line?
    ensures ReadReply(EncodeReply(r) + t) == Got(Meaning(r), t)
  {
    hide ReadLine, ParseInt, ParseBig;
    var line := [r.kind] + r.text;
    assert EncodeReply(r) + t == line + CRLF + t;
    LineRead(line, t);
    assert line[1..] == r.text;
  }

  lemma ReadBulkInverts(r: Reply, t: Bytes)
    requires Valid(r) && r.Bulk?
    ensures ReadReply(EncodeReply(r) + t) == Got(Meaning(r), t)
  {
    hide ReadLine, ReadBulk, Header, Digits, IsNilReply, ReplyLen, ParseInt;
    var body := r.bytes + CRLF + t;
    assert EncodeReply(r) + t == Header(r.kind, |r.bytes|) + body;
    HeaderRead(r.kind, |r.bytes|, body);
    BulkRead(r.kind, r.bytes, t);
  }

  lemma ReadNullInverts(r: Reply, t: Bytes)
    requires Valid(r) && (r.NullBulk? || r.NullOf?)
    ensures ReadReply(EncodeReply(r) + t) == Got(Meaning(r), t)
  {
    hide ReadLine, ReplyLen, ParseInt;
    NullRead(r.kind, t);
  }

  /** Every reply of the protocol whose attributes are plain and whose map keys can be indexed with, at every
      level, is read back as what it means, and nothing behind it is touched. */
  lemma {:induction false} ReadReplyInverts(r: Reply, t: Bytes)
    requires Valid(r) && Readable(r)
    ensures ReadReply(EncodeReply(r) + t) == Got(Meaning(r), t)
    decreases r
  {
    hide ReadLine, ReadBulk, Header, Digits, IsNilReply, ReplyLen, ParseInt, ParseBig, EncodeAll, ReadItems,
      ReadPairs, DiscardMany, MeaningAll, PairUp,
      Verbatim, ReadScalar;
    match r
    case Line(_, _) => ReadLineInverts(r, t);
    case Bulk(_, _) => ReadBulkInverts(r, t);
    case NullBulk(_) => ReadNullInverts(r, t);
    case NullOf(_) => ReadNullInverts(r, t);
    case Slice(kind, items) =>
      assert EncodeReply(r) + t == Header(kind, |items|) + (EncodeAll(items) + t);
      HeaderRead(kind, |items|, EncodeAll(items) + t);
      ReadItemsInverts(items, t);
    case Map(items) =>
      assert EncodeReply(r) + t == Header(MAP, |items| / 2) + (EncodeAll(items) + t);
      HeaderRead(MAP, |items| / 2, EncodeAll(items) + t);
      ReadPairsExactly([], items, t);
      assert [] + PairUp(MeaningAll(items)) == PairUp(MeaningAll(items));
    case Attributed(attributes, of) =>
      var tail := EncodeReply(of) + t;
      assert EncodeReply(r) + t == Header(ATTR, |attributes| / 2) + (EncodeAll(attributes) + tail);
      HeaderRead(ATTR, |attributes| / 2, EncodeAll(attributes) + tail);
      DiscardAllInverts(attributes, tail);
      ReadReplyInverts(of, t);
  }

  lemma {:induction false} ReadItemsInverts(items: seq<Reply>, t: Bytes)
    requires forall i :: 0 <= i < |items| ==> Valid(items[i]) && Readable(items[i])
    ensures ReadItems(EncodeAll(items) + t, |items|) == Got(MeaningAll(items), t)
    decreases items
  {
    hide ReadReply, EncodeReply, Valid, Readable, Meaning;
    if items == [] {
      assert [] + t == t;
    } else {
      assert EncodeAll(items) + t == EncodeReply(items[0]) + (EncodeAll(items[1..]) + t);
      ReadReplyInverts(items[0], EncodeAll(items[1..]) + t);
      ReadItemsInverts(items[1..], t);
    }
  }

  /** A key can be indexed with exactly if it means neither an error nor a list or map. */
  lemma {:induction false} KeyMeaning(r: Reply)
    requires Valid(r)
    ensures IsKey(r) <==> var k := Meaning(r); !IsError(k) && !k.List? && !k.Dict?
    decreases r
  {
    hide ParseInt, ParseBig, MeaningAll, PairUp;
    if r.Attributed? { KeyMeaning(r.of); }
  }

  lemma KeysFront(items: seq<Reply>)
    requires |items| >= 2
    ensures AllKeys(items) <==> IsKey(items[0]) && AllKeys(items[2..])
  {
    hide IsKey;
    var rest := items[2..];
    forall i | 0 <= i < |rest| && i % 2 == 0 && AllKeys(items)
      ensures IsKey(rest[i])
    {
      assert rest[i] == items[i + 2];
    }
    forall i | 0 <= i < |items| && i % 2 == 0 && IsKey(items[0]) && AllKeys(rest)
      ensures IsKey(items[i])
    {
      if i > 0 { assert items[i] == rest[i - 2]; }
    }
  }

  lemma EncodeFront(items: seq<Reply>)
    requires |items| >= 2
    ensures EncodeAll(items) == EncodeReply(items[0]) + (EncodeReply(items[1]) + EncodeAll(items[2..]))
  {
    hide EncodeReply;
    var tail := items[1..];
    assert tail[0] == items[1] && tail[1..] == items[2..];
  }

  lemma PairUpFront(vs: seq<Value>, a: Value, b: Value, rest: seq<Value>)
    requires |rest| % 2 == 0 && vs == [a, b] + rest
    ensures PairUp(vs) == [(a, b)] + PairUp(rest)
  {
    assert vs[2..] == rest;
  }

  lemma MeaningFront(items: seq<Reply>)
    requires items != [] && ValidAll(items)
    ensures Valid(items[0]) && ValidAll(items[1..]) && MeaningAll(items) == [Meaning(items[0])] + MeaningAll(items[1..])
  {
    hide Valid, Meaning;
  }

  lemma PairsFront(items: seq<Reply>)
    requires |items| >= 2 && |items| % 2 == 0 && ValidAll(items)
    ensures Valid(items[0]) && Valid(items[1]) && ValidAll(items[2..])
    ensures PairUp(MeaningAll(items)) == [(Meaning(items[0]), Meaning(items[1]))] + PairUp(MeaningAll(items[2..]))
  {
    hide Valid, ValidAll, Meaning, MeaningAll, PairUp;
    var tail := items[1..];
    assert tail[0] == items[1] && tail[1..] == items[2..];
    MeaningFront(items);
    MeaningFront(tail);
    PairUpFront(MeaningAll(items), Meaning(items[0]), Meaning(items[1]), MeaningAll(items[2..]));
  }

  /** Pairs are read exactly if all keys can be indexed with. */
  lemma {:induction false} ReadPairsExactly(have: seq<(Value, Value)>, items: seq<Reply>, t: Bytes)
    requires |items| % 2 == 0 && forall i :: 0 <= i < |items| ==> Valid(items[i]) && Readable(items[i])
    ensures var r := ReadPairs(have, EncodeAll(items) + t, |items| / 2);
      if AllKeys(items) then r == Got(Dict(have + PairUp(MeaningAll(items))), t) else r.Broken? || !r.value.Dict?
    decreases items
  {
    hide ReadReply, EncodeReply, Valid, Readable, Meaning, IsKey, AllKeys;
    if items == [] {
      assert [] + t == t && have + [] == have;
      NoKeys(items);
    } else {
      var tail := EncodeAll(items[2..]) + t;
      EncodeFront(items);
      PairsFront(items);
      KeysFront(items);
      assert EncodeAll(items) + t == EncodeReply(items[0]) + (EncodeReply(items[1]) + tail);
      ReadReplyInverts(items[0], EncodeReply(items[1]) + tail);
      ReadReplyInverts(items[1], tail);
      KeyMeaning(items[0]);
      var pair := (Meaning(items[0]), Meaning(items[1]));
      ReadPairsExactly(have + [pair], items[2..], t);
      assert (have + [pair]) + PairUp(MeaningAll(items[2..])) == have + PairUp(MeaningAll(items));
    }
  }

  lemma NoKeys(items: seq<Reply>)
    requires items == []
    ensures AllKeys(items)
  {}

  /** Discarding a plain reply takes exactly the bytes that reading it takes. */
  lemma DiscardAgreesWithRead(r: Reply, t: Bytes)
    requires Valid(r) && Plain(r) && Readable(r)
    ensures ReadReply(EncodeReply(r) + t).Got?
    ensures DiscardNext(EncodeReply(r) + t) == Some(ReadReply(EncodeReply(r) + t).rest)
  {
    hide ReadReply, DiscardNext, EncodeReply, Valid, Plain, Readable, Meaning;
    DiscardInverts(r, t);
    ReadReplyInverts(r, t);
  }
}
