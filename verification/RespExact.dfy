/** Exactly when replies are discarded whole and read as what they mean: `Discard`, `ReadLine` and `readMap` of
    `internal/client/proto/reader.go`.  Discarding takes two bytes too many for a null string and stops short
    behind attributes; reading discards the attributes in front of a reply. */
module RespExact {
  import opened Basics
  import opened Resp
  import opened RespProof

  /** A null string loses two bytes too many: the reply after it is damaged. */
  lemma NullStringDiscard(kind: byte, t: Bytes)
    requires IsBulk(kind)
    ensures DiscardNext(EncodeReply(NullBulk(kind)) + t) == if |t| < 2 then None else Some(t[2..])
  {
    hide ReadLine, ReplyLen, ParseInt;
    NullRead(kind, t);
  }

  /** Attributes in front of a reply are discarded item by item. */
  lemma AttributesFirst(r: Reply, t: Bytes)
    requires Valid(r) && r.Attributed?
    ensures var left := DiscardMany(EncodeAll(r.attributes) + (EncodeReply(r.of) + t), |r.attributes|);
      && DiscardNext(EncodeReply(r) + t) == left
      && ReadReply(EncodeReply(r) + t) == match left case None => Broken case Some(rest) => ReadReply(rest)
  {
    hide ReadLine, ReplyLen, Digits, Header, IsNilReply, ParseInt, DiscardMany, EncodeAll, ReadBody, ReadBulk;
    var tail := EncodeReply(r.of) + t;
    assert EncodeReply(r) + t == Header(ATTR, |r.attributes| / 2) + (EncodeAll(r.attributes) + tail);
    HeaderRead(ATTR, |r.attributes| / 2, EncodeAll(r.attributes) + tail);
  }

  /** Plain attributes are discarded without the reply they belong to. */
  lemma AttributesDiscard(r: Reply, t: Bytes)
    requires Valid(r) && r.Attributed? && AllPlain(r.attributes)
    ensures DiscardNext(EncodeReply(r) + t) == Some(EncodeReply(r.of) + t)
  {
    hide DiscardNext, EncodeReply, EncodeAll, DiscardMany, ReadReply;
    AttributesFirst(r, t);
    DiscardAllInverts(r.attributes, EncodeReply(r.of) + t);
  }

  // ----- where discarding ends -----

  /** Behind the reply, two bytes into what follows, or in front of a reply that belongs to it. */
  datatype Ending = Whole | Short | Before(x: Reply)

  /** Only the very last part of the reply is not plain, so that the damage shows. */
  ghost predicate Exposed(r: Reply)
    decreases r
  {
    match r
    case Slice(_, items) => ExposedAll(items)
    case Map(items) => ExposedAll(items)
    case Attributed(attributes, _) => AllPlain(attributes)
    case _ => true
  }

  ghost predicate ExposedAll(items: seq<Reply>)
    decreases items
  {
    items == [] || if |items| == 1 then Exposed(items[0]) else Plain(items[0]) && ExposedAll(items[1..])
  }

  ghost function EndingOf(r: Reply): Ending
    decreases r
  {
    match r
    case NullBulk(_) => Short
    case Slice(_, items) => EndingOfAll(items)
    case Map(items) => EndingOfAll(items)
    case Attributed(_, of) => Before(of)
    case _ => Whole
  }

  ghost function EndingOfAll(items: seq<Reply>): Ending
    decreases items
  {
    if items == [] then Whole else if |items| == 1 then EndingOf(items[0]) else EndingOfAll(items[1..])
  }

  ghost function Left(e: Ending, t: Bytes): Option<Bytes> {
    match e
    case Whole => Some(t)
    case Short => if |t| < 2 then None else Some(t[2..])
    case Before(x) => Some(EncodeReply(x) + t)
  }

  /** What discarding an exposed reply leaves. */
  lemma {:induction false} ExactDiscard(r: Reply, t: Bytes)
    requires Valid(r) && Exposed(r)
    ensures DiscardNext(EncodeReply(r) + t) == Left(EndingOf(r), t)
    decreases r
  {
    hide ReadLine, ReplyLen, Digits, Header, IsNilReply, ReadBulk, ParseInt, ParseBig, DiscardMany, EncodeAll,
      ReadReply;
    match r
    case Line(_, _) => DiscardInverts(r, t);
    case Bulk(_, _) => DiscardInverts(r, t);
    case NullOf(_) => DiscardInverts(r, t);
    case NullBulk(kind) => NullStringDiscard(kind, t);
    case Attributed(_, _) => AttributesDiscard(r, t);
    case Slice(kind, items) =>
      assert EncodeReply(r) + t == Header(kind, |items|) + (EncodeAll(items) + t);
      HeaderRead(kind, |items|, EncodeAll(items) + t);
      ExactDiscardAll(items, t);
    case Map(items) =>
      assert EncodeReply(r) + t == Header(MAP, |items| / 2) + (EncodeAll(items) + t);
      HeaderRead(MAP, |items| / 2, EncodeAll(items) + t);
      ExactDiscardAll(items, t);
  }

  lemma {:induction false} ExactDiscardAll(items: seq<Reply>, t: Bytes)
    requires ValidAll(items) && ExposedAll(items)
    ensures DiscardMany(EncodeAll(items) + t, |items|) == Left(EndingOfAll(items), t)
    decreases items
  {
    hide DiscardNext, EncodeReply, Valid, Plain, Exposed, EndingOf, Left;
    if items == [] {
      assert [] + t == t;
      LeavesAll(t);
    } else {
      var tail := EncodeAll(items[1..]) + t;
      assert EncodeAll(items) + t == EncodeReply(items[0]) + tail;
      if |items| == 1 {
        assert items[1..] == [] && [] + t == t;
        ExactDiscard(items[0], t);
        NothingMore(DiscardNext(EncodeReply(items[0]) + t));
      } else {
        DiscardInverts(items[0], tail);
        ExactDiscardAll(items[1..], t);
      }
    }
  }

  lemma LeavesAll(t: Bytes)
    ensures Left(Whole, t) == Some(t)
  {}

  lemma NothingMore(r: Option<Bytes>)
    ensures r.Some? ==> DiscardMany(r.value, 0) == r
  {}

  /** The end is the end of the reply exactly for plain replies. */
  lemma {:induction false} WholeIffPlain(r: Reply)
    requires Exposed(r)
    ensures EndingOf(r).Whole? <==> Plain(r)
    decreases r
  {
    if r.Slice? || r.Map? { WholeIffAllPlain(r.items); }
  }

  lemma {:induction false} WholeIffAllPlain(items: seq<Reply>)
    requires ExposedAll(items)
    ensures EndingOfAll(items).Whole? <==> AllPlain(items)
    decreases items
  {
    hide Plain, Exposed, EndingOf;
    if |items| == 1 {
      WholeIffPlain(items[0]);
    } else if items != [] {
      WholeIffAllPlain(items[1..]);
      AllPlainFront(items);
    }
  }

  lemma AllPlainFront(items: seq<Reply>)
    requires items != []
    ensures AllPlain(items) <==> Plain(items[0]) && AllPlain(items[1..])
  {
    hide Plain;
    var rest := items[1..];
    assert forall i :: 0 < i < |items| ==> items[i] == rest[i - 1];
    assert forall i :: 0 <= i < |rest| ==> rest[i] == items[i + 1];
  }

  lemma {:induction false} NeverShort(r: Reply)
    requires Valid(r)
    ensures |EncodeReply(r)| > 2
    decreases r
  {
    hide Digits, EncodeAll, ParseInt, ParseBig;
    if r.Attributed? { NeverShort(r.of); }
  }

  /** What follows the trailing attributes is a reply of the protocol too. */
  lemma {:induction false} BeforeIsValid(r: Reply)
    requires Valid(r)
    ensures EndingOf(r).Before? ==> Valid(EndingOf(r).x)
    decreases r
  {
    if r.Slice? || r.Map? { BeforeAllIsValid(r.items); }
  }

  lemma {:induction false} BeforeAllIsValid(items: seq<Reply>)
    requires ValidAll(items)
    ensures EndingOfAll(items).Before? ==> Valid(EndingOfAll(items).x)
    decreases items
  {
    hide Valid, EndingOf;
    if |items| == 1 {
      BeforeIsValid(items[0]);
    } else if items != [] {
      BeforeAllIsValid(items[1..]);
    }
  }

  /** An exposed reply is discarded whole exactly if it is plain. */
  lemma DiscardsWholeIffPlain(r: Reply)
    requires Valid(r) && Exposed(r)
    ensures (forall t :: DiscardNext(EncodeReply(r) + t) == Some(t)) <==> Plain(r)
  {
    hide DiscardNext, EncodeReply, Valid, Plain, Exposed, EndingOf;
    WholeIffPlain(r);
    BeforeIsValid(r);
    if Plain(r) {
      forall t
        ensures DiscardNext(EncodeReply(r) + t) == Some(t)
      {
        DiscardInverts(r, t);
      }
    } else {
      ExactDiscard(r, []);
      if EndingOf(r).Before? { NeverShort(EndingOf(r).x); }
      assert DiscardNext(EncodeReply(r) + []) != Some([]);
    }
  }

  lemma EncodeTwo(a: Reply, b: Reply)
    ensures EncodeAll([a, b]) == EncodeReply(a) + EncodeReply(b)
  {
    hide EncodeReply;
    assert [a, b][1..] == [b];
    assert EncodeAll([b]) == EncodeReply(b) + [];
  }

  /** A null string and a line that has another line inside. */
  const HIDING := [NullBulk(STRING), Line(STATUS, [97, INT, 49])]

  lemma HidingItems(t: Bytes)
    ensures ValidAll(HIDING) && !AllPlain(HIDING) && DiscardMany(EncodeAll(HIDING) + t, 2) == Some(t)
  {
    hide ReadLine, ReplyLen, Digits, Header, ParseInt, EncodeAll;
    var none, line := NullBulk(STRING), Line(STATUS, [97, INT, 49]);
    assert !Plain(HIDING[0]);
    var hidden := [INT, 49] + CRLF + t;
    EncodeTwo(none, line);
    assert EncodeAll(HIDING) + t == EncodeReply(none) + (EncodeReply(line) + t);
    NullStringDiscard(STRING, EncodeReply(line) + t);
    assert (EncodeReply(line) + t)[2..] == hidden;
    LineRead([INT, 49], t);
    assert DiscardNext(hidden) == Some(t);
    NothingToDiscard(t);
    assert DiscardMany(hidden, 1) == Some(t);
  }

  /** Damage in the middle can go unnoticed: in an array, and in attributes, which are then read right, the two
      bytes too many leave another whole line. */
  lemma DamageCanHide(t: Bytes)
    ensures var r := Slice(ARRAY, HIDING); Valid(r) && !Plain(r) && DiscardNext(EncodeReply(r) + t) == Some(t)
    ensures var r := Attributed(HIDING, Line(STATUS, [97]));
      Valid(r) && !Readable(r) && ReadReply(EncodeReply(r) + t) == Got(Meaning(r), t)
  {
    hide ReadLine, ReplyLen, Digits, Header, ParseInt, EncodeAll, DiscardMany, ReadBody, ReadBulk, IsNilReply;
    HidingItems(t);
    var r := Slice(ARRAY, HIDING);
    assert EncodeReply(r) + t == Header(ARRAY, 2) + (EncodeAll(HIDING) + t);
    HeaderRead(ARRAY, 2, EncodeAll(HIDING) + t);
    var of := Line(STATUS, [97]);
    HidingItems(EncodeReply(of) + t);
    AttributesFirst(Attributed(HIDING, of), t);
    ReadReplyInverts(of, t);
  }

  // ----- reading what is two bytes short -----

  /** A line that begins with a digit is no reply. */
  lemma DigitLine(line: Bytes, t: Bytes)
    requires line != [] && LF !in line && IsDigit(line[0])
    ensures ReadReply(line + CRLF + t).Broken?
  {
    hide ReadLine, ReplyLen, ParseInt, ParseBig;
    LineRead(line, t);
  }

  lemma EmptyLine(t: Bytes)
    ensures ReadReply(CRLF + t).Broken? && ReadReply([LF] + t).Broken?
  {
    hide ReadBody, ReadBulk, Discard;
    var s := CRLF + t;
    assert s[1..] == [LF] + t && LineEnd(s) == 1 && LineEnd([LF] + t) == 0;
  }

  /** The digits of a number, behind its sign if it has one. */
  function Bare(s: Bytes): Bytes {
    if s != [] && (s[0] == MINUS || s[0] == PLUS) then s[1..] else s
  }

  lemma BareIsNumeric(s: Bytes)
    requires ParseInt(s).Some? || ParseBig(s).Some?
    ensures Numeric(Bare(s))
  {
    hide Numeric, DigitsValue;
  }

  lemma DigitsAfterFirst(s: Bytes)
    requires ParseInt(s).Some? || ParseBig(s).Some?
    ensures forall i :: 1 <= i < |s| ==> IsDigit(s[i])
  {
    hide ParseInt, ParseBig;
    BareIsNumeric(s);
    var digits := Bare(s);
    forall i | 1 <= i < |s|
      ensures IsDigit(s[i])
    {
      if |digits| < |s| { assert s[i] == digits[i - 1]; } else { assert s[i] == digits[i]; }
    }
  }

  /** A value that came from a line alone. */
  ghost predicate LineValue(line: Bytes, v: Value)
    requires line != []
  {
    v == Nil || v == Err(line[1..]) || v == Str(line[1..]) || v == Flt(line[1..]) || v.Num? || v.Bool? || v.Big?
        || v.List? || v.Dict?
  }

  /** A read that uses nothing behind its line gives what is on the line, or an empty collection. */
  lemma OnlyTheLine(line: Bytes, t: Bytes)
    requires line != [] && LF !in line
    ensures var r := ReadReply(line + CRLF + t); r.Got? && r.rest == t ==> LineValue(line, r.value)
  {
    hide ReadLine, ReplyLen, ParseInt, ParseBig, DiscardMany, ReadItems;
    LineRead(line, t);
    if IsSlice(line[0]) || line[0] == MAP { CollectionOrError(line, t); }
  }

  lemma CollectionOrError(line: Bytes, t: Bytes)
    requires line != [] && (IsSlice(line[0]) || line[0] == MAP)
    ensures var r := ReadBody(line, t); r.Got? && r.rest == t ==> r.value.Nil? || r.value.List? || r.value.Dict?
  {
    hide ReadItems, ReplyLen, ReadPairs;
    if line[0] == MAP && ReplyLen(line).Len? { PairsOrLess([], t, ReplyLen(line).n); }
  }

  /** A map is either complete or has used up a key. */
  lemma {:induction false} PairsOrLess(have: seq<(Value, Value)>, s: Bytes, n: nat)
    ensures var r := ReadPairs(have, s, n); r.Got? ==> r.value.Dict? || |r.rest| < |s|
    decreases |s|
  {
    hide ReadReply;
    if n > 0 {
      var k := ReadReply(s);
      if k.Got? && !IsError(k.value) {
        var v := ReadReply(k.rest);
        if v.Got? { PairsOrLess(have + [(k.value, v.value)], v.rest, n - 1); }
      }
    }
  }

  lemma ShortLine(r: Reply, t: Bytes)
    requires Valid(r) && r.Line?
    ensures ReadReply(EncodeReply(r)[2..] + t) != Got(Meaning(r), t)
  {
    hide ReadReply, ParseInt, ParseBig, LineValue;
    var text := r.text;
    var s := EncodeReply(r)[2..] + t;
    EmptyLine(t);
    if text == [] {
      assert s == [LF] + t;
    } else if |text| == 1 {
      assert s == CRLF + t;
    } else {
      var line := text[1..];
      assert s == line + CRLF + t;
      if r.kind == INT || r.kind == BIGINT {
        DigitsAfterFirst(text);
        DigitLine(line, t);
      } else {
        OnlyTheLine(line, t);
        Shorter(r, line);
      }
    }
  }

  lemma Shorter(r: Reply, line: Bytes)
    requires Valid(r) && r.Line? && |r.text| > 1 && line == r.text[1..] && r.kind != INT && r.kind != BIGINT
    ensures !LineValue(line, Meaning(r))
  {
    hide ParseInt, ParseBig;
    assert |line[1..]| < |r.text|;
  }

  lemma ShortHeader(kind: byte, n: nat, t: Bytes)
    ensures ReadReply(Header(kind, n)[2..] + t).Broken?
  {
    hide ReadReply, Digits;
    var d := Digits(n);
    var s := Header(kind, n)[2..] + t;
    EmptyLine(t);
    if |d| == 1 {
      assert s == CRLF + t;
    } else {
      assert s == d[1..] + CRLF + t;
      assert IsDigit(d[1]);
      forall i | 0 <= i < |d[1..]|
        ensures d[1..][i] != LF
      {
        assert IsDigit(d[i + 1]);
      }
      DigitLine(d[1..], t);
    }
  }

  /** No reply can do without its first two bytes. */
  lemma NeverRightWhenShort(r: Reply, t: Bytes)
    requires Valid(r)
    ensures ReadReply(EncodeReply(r)[2..] + t) != Got(Meaning(r), t)
  {
    hide ReadReply, Header, Meaning, EncodeAll, ParseInt, ParseBig, Digits;
    match r
    case Line(_, _) => ShortLine(r, t);
    case NullBulk(kind) =>
      assert EncodeReply(r)[2..] + t == [49] + CRLF + t;
      DigitLine([49], t);
    case NullOf(kind) =>
      assert EncodeReply(r)[2..] + t == [49] + CRLF + t;
      DigitLine([49], t);
    case Bulk(kind, bytes) => ShortFront(r, kind, |bytes|, bytes + CRLF, t);
    case Slice(kind, items) => ShortFront(r, kind, |items|, EncodeAll(items), t);
    case Map(items) => ShortFront(r, MAP, |items| / 2, EncodeAll(items), t);
    case Attributed(attributes, of) => ShortFront(r, ATTR, |attributes| / 2, EncodeAll(attributes)
        + EncodeReply(of), t);
  }

  lemma ShortFront(r: Reply, kind: byte, n: nat, rest: Bytes, t: Bytes)
    requires EncodeReply(r) == Header(kind, n) + rest
    ensures ReadReply(EncodeReply(r)[2..] + t).Broken?
  {
    hide ReadReply, EncodeReply;
    assert EncodeReply(r)[2..] + t == Header(kind, n)[2..] + (rest + t);
    ShortHeader(kind, n, rest + t);
  }

  // ----- reading attributed replies and maps -----

  /** Attributes whose damage shows, in front of a readable reply: the reply is read as what it means exactly if
      the attributes are plain, whatever follows. */
  lemma ReadsAttributedIff(r: Reply, t: Bytes)
    requires Valid(r) && r.Attributed? && ExposedAll(r.attributes) && Readable(r.of)
    requires EndingOfAll(r.attributes).Before? ==> Readable(EndingOfAll(r.attributes).x)
    ensures ReadReply(EncodeReply(r) + t) == Got(Meaning(r), t) <==> AllPlain(r.attributes)
  {
    hide ReadReply, EncodeReply, EncodeAll, DiscardMany, Plain, Exposed, ExposedAll, EndingOf, EndingOfAll, Readable;
    var tail, e := EncodeReply(r.of) + t, EndingOfAll(r.attributes);
    AttributesFirst(r, t);
    ExactDiscardAll(r.attributes, tail);
    WholeIffAllPlain(r.attributes);
    BeforeAllIsValid(r.attributes);
    NeverShort(r.of);
    match e
    case Whole => ReadReplyInverts(r.of, t);
    case Short =>
      assert tail[2..] == EncodeReply(r.of)[2..] + t;
      NeverRightWhenShort(r.of, t);
    case Before(x) =>
      ReadReplyInverts(x, tail);
      assert |tail| > |t|;
  }

  /** A map of readable items is read as what it means exactly if its keys can be indexed with. */
  lemma ReadsMapIff(r: Reply, t: Bytes)
    requires Valid(r) && r.Map? && forall i :: 0 <= i < |r.items| ==> Readable(r.items[i])
    ensures ReadReply(EncodeReply(r) + t) == Got(Meaning(r), t) <==> AllKeys(r.items)
  {
    hide ReadLine, ReadBulk, Header, Digits, IsNilReply, ReplyLen, ParseInt, ParseBig, EncodeAll, ReadPairs,
      DiscardMany, MeaningAll, PairUp,
      Verbatim, ReadScalar, AllKeys;
    assert EncodeReply(r) + t == Header(MAP, |r.items| / 2) + (EncodeAll(r.items) + t);
    HeaderRead(MAP, |r.items| / 2, EncodeAll(r.items) + t);
    ReadPairsExactly([], r.items, t);
    assert [] + PairUp(MeaningAll(r.items)) == PairUp(MeaningAll(r.items));
  }

  /** A legal reply that is silently read as another: a null string among its attributes takes its first two
      bytes. */
  lemma NullAttributeReadsAnother(t: Bytes)
    ensures var of := Line(STATUS, [120, STATUS, 111, 107]);
        var r := Attributed([Bulk(STRING, [107]), NullBulk(STRING)], of);
      Valid(r) && ReadReply(EncodeReply(r) + t) == Got(Str([111, 107]), t) && Meaning(r) == Str([120, STATUS, 111, 107])
  {
    hide ReadReply, EncodeAll, DiscardMany, EndingOfAll, ParseInt;
    var of := Line(STATUS, [120, STATUS, 111, 107]);
    var items := [Bulk(STRING, [107]), NullBulk(STRING)];
    var tail := EncodeReply(of) + t;
    AttributesFirst(Attributed(items, of), t);
    KeyAndNull(items);
    ExactDiscardAll(items, tail);
    var short := Line(STATUS, [111, 107]);
    assert tail[2..] == EncodeReply(short) + t;
    ReadReplyInverts(short, t);
  }

  lemma KeyAndNull(items: seq<Reply>)
    requires items == [Bulk(STRING, [107]), NullBulk(STRING)]
    ensures ValidAll(items) && ExposedAll(items) && EndingOfAll(items) == Short
  {
    assert items[1..] == [NullBulk(STRING)];
    assert EndingOfAll(items[1..]) == EndingOf(NullBulk(STRING));
  }

  /** A map that begins with a null key is read as a nil, and the rest of it is left over. */
  lemma NullKeyEndsTheMap(v: Reply, t: Bytes)
    requires Valid(v) && Readable(v)
    ensures var r := Map([NullOf(ARRAY), v]);
      Valid(r) && ReadReply(EncodeReply(r) + t) == Got(Nil, EncodeReply(v) + t) != Got(Meaning(r), t)
  {
    hide ReadReply, ParseInt, Readable, Valid, Meaning, EncodeReply, EncodeAll;
    NullKeyBody(v, t);
  }

  lemma NullKeyBody(v: Reply, t: Bytes)
    requires Valid(v)
    ensures var r := Map([NullOf(ARRAY), v]);
      Valid(r) && Meaning(r).Dict? && ReadReply(EncodeReply(r) + t) == Got(Nil, EncodeReply(v) + t)
  {
    hide ReadLine, ReadBulk, Header, Digits, IsNilReply, ReplyLen, ParseInt, ParseBig, EncodeAll, DiscardMany,
      MeaningAll, PairUp, Verbatim, ReadScalar,
      ReadItems;
    var none := NullOf(ARRAY);
    var r := Map([none, v]);
    var tail := EncodeReply(v) + t;
    EncodeTwo(none, v);
    assert EncodeReply(r) + t == Header(MAP, 1) + (EncodeReply(none) + tail);
    HeaderRead(MAP, 1, EncodeReply(none) + tail);
    ReadReplyInverts(none, tail);
    assert ReadPairs([], EncodeReply(none) + tail, 1) == Got(Nil, tail);
  }
}
