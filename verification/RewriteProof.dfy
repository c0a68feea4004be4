/** A rewritten value rebuilds the value: for every encoding of a list, a set or a hash, the commands sent
    leave exactly that value on a target, whatever the target held before. */
module RewriteProof {
  import opened Basics
  import opened RdbStrings
  import opened RewriteTarget
  import opened Rewrite
  import Listpack
  import Ziplist
  import Intset

  const MANY := 0x8000_0000_0000_0000

  // ----- encodings of lists and sets -----

  /** A listpack, a ziplist or an intset inside an RDB string. */
  datatype Packed =
    | InListpack(blob: StringForm, lp: seq<Listpack.Elem>)
    | InZiplist(blob: StringForm, zl: seq<Ziplist.Entry>, tail: nat)
    | InIntset(blob: StringForm, width: nat, vs: seq<int>)

  ghost predicate ValidPacked(p: Packed) {
    ValidString(p.blob) &&
    match p
    case InListpack(f, es) =>
      Listpack.ValidElems(es) && 7 + |Listpack.EncodeElems(es)| < 0x1_0000_0000 && |es| <= 65535 && Text(f) ==
          Listpack.EncodeListpack(es)
    case InZiplist(f, es, tail) =>
      Ziplist.Encodable(es, tail) && |es| < 65535 && Text(f) == Ziplist.EncodeZipList(es, tail)
    case InIntset(f, width, vs) => Intset.ValidMembers(width, vs) && Text(f) == Intset.EncodeIntset(width, vs)
  }

  ghost function Elements(p: Packed): seq<Bytes> {
    match p
    case InListpack(_, es) => Listpack.Texts(es)
    case InZiplist(_, es, _) => Ziplist.Texts(es)
    case InIntset(_, _, vs) => Intset.Numerals(vs)
  }

  function ReadPacked(p: Packed, s: Bytes): Parsed<seq<Bytes>> {
    if p.InListpack? then Listpack.ReadListpack(s) else if p.InZiplist? then Ziplist.ReadZipList(s)
        else Intset.ReadIntset(s)
  }

  lemma ReadPackedInverts(p: Packed, t: Bytes)
    requires ValidPacked(p)
    ensures ReadPacked(p, EncodeString(p.blob) + t) == Ok(Elements(p), t)
  {
    hide EncodeString, Listpack.ReadListpack, Ziplist.ReadZipList, Intset.ReadIntset, Listpack.EncodeListpack,
      Ziplist.EncodeZipList,
      Intset.EncodeIntset, ValidString, Text;
    match p
    case InListpack(f, es) => Listpack.ReadListpackInverts(f, es, t);
    case InZiplist(f, es, tail) => Ziplist.ReadZipListInverts(f, es, tail, t);
    case InIntset(f, width, vs) => Intset.ReadIntsetInverts(f, width, vs, t);
  }

  /** A node of a quicklist; the first version of the format has packed nodes only and no container. */
  datatype Node =
    | NoContainer(packed: Packed)
    | PlainNode(container: LengthForm, f: StringForm)
    | PackedNode(container: LengthForm, packed: Packed)

  ghost predicate ValidNode(n: Node) {
    match n
    case NoContainer(p) => p.InZiplist? && ValidPacked(p)
    case PlainNode(_, f) => ValidString(f)
    case PackedNode(_, p) => p.InListpack? && ValidPacked(p)
  }

  ghost function NodeElements(n: Node): seq<Bytes>
    requires ValidNode(n)
  {
    match n
    case NoContainer(p) => Elements(p)
    case PlainNode(_, f) => [Text(f)]
    case PackedNode(_, p) => Elements(p)
  }

  ghost function EncodeNode(n: Node): Bytes
    requires ValidNode(n)
  {
    match n
    case NoContainer(p) => EncodeString(p.blob)
    case PlainNode(c, f) => EncodeLength(c, PLAIN) + EncodeString(f)
    case PackedNode(c, p) => EncodeLength(c, PACKED) + EncodeString(p.blob)
  }

  /** The nodes of one quicklist are of one version. */
  ghost predicate ValidNodes(ns: seq<Node>, second: bool) {
    forall i :: 0 <= i < |ns| ==> ValidNode(ns[i]) && (second <==> !ns[i].NoContainer?)
  }

  ghost function EncodeNodes(ns: seq<Node>, second: bool): Bytes
    requires ValidNodes(ns, second)
    decreases |ns|
  {
    if ns == [] then [] else EncodeNode(ns[0]) + EncodeNodes(ns[1..], second)
  }

  ghost function NodesElements(ns: seq<Node>, second: bool): seq<Bytes>
    requires ValidNodes(ns, second)
    decreases |ns|
  {
    if ns == [] then [] else NodeElements(ns[0]) + NodesElements(ns[1..], second)
  }

  ghost predicate ValidStrings(fs: seq<StringForm>) {
    forall i :: 0 <= i < |fs| ==> ValidString(fs[i])
  }

  ghost function EncodeStrings(fs: seq<StringForm>): Bytes
    requires ValidStrings(fs)
    decreases |fs|
  {
    if fs == [] then [] else EncodeString(fs[0]) + EncodeStrings(fs[1..])
  }

  ghost function StringTexts(fs: seq<StringForm>): seq<Bytes>
    requires ValidStrings(fs)
  {
    seq(|fs|, i requires 0 <= i < |fs| => Text(fs[i]))
  }

  /** Every encoding of a list or set that is implemented. */
  datatype Encoding =
    | Strings(count: LengthForm, strings: seq<StringForm>)
    | Quicklist(count: LengthForm, second: bool, nodes: seq<Node>)
    | Whole(packed: Packed)

  ghost predicate ValidEncoding(kind: Kind, e: Encoding) {
    match e
    case Strings(count, strings) => FitsForm(count, |strings|) && |strings| < MANY && ValidStrings(strings)
    case Quicklist(count, second, nodes) =>
      kind.OfList? && FitsForm(count, |nodes|) && |nodes| < MANY && ValidNodes(nodes, second)
    case Whole(p) => ValidPacked(p) && (kind.OfList? <==> p.InZiplist?)
  }

  /** The type byte that announces the encoding. */
  function TypeByte(kind: Kind, e: Encoding): int {
    if kind.OfList? then
      match e
      case Strings(_, _) => 1
      case Quicklist(_, second, _) => if second then 18 else 14
      case Whole(_) => 10
    else if e.Strings? then 2
    else if e.Whole? && e.packed.InIntset? then 11
    else 20
  }

  ghost function EncodeValue(kind: Kind, e: Encoding): Bytes
    requires ValidEncoding(kind, e)
  {
    match e
    case Strings(count, strings) => EncodeLength(count, |strings|) + EncodeStrings(strings)
    case Quicklist(count, second, nodes) => EncodeLength(count, |nodes|) + EncodeNodes(nodes, second)
    case Whole(p) => EncodeString(p.blob)
  }

  /** The elements encoded, in order. */
  ghost function ValueElements(kind: Kind, e: Encoding): seq<Bytes>
    requires ValidEncoding(kind, e)
  {
    match e
    case Strings(_, strings) => StringTexts(strings)
    case Quicklist(_, second, nodes) => NodesElements(nodes, second)
    case Whole(p) => Elements(p)
  }

  function RewriteKind(kind: Kind, typeByte: int, key: Bytes, s: Bytes): Out {
    if kind.OfList? then RewriteList(typeByte, key, s) else RewriteSet(typeByte, key, s)
  }

  // ----- the loops send the elements -----

  lemma {:induction false} StringsSent(kind: Kind, key: Bytes, fs: seq<StringForm>, t: Bytes)
    requires ValidStrings(fs)
    ensures ReadPlain(kind, key, EncodeStrings(fs) + t, |fs|) == Out(SendAll(kind, key, StringTexts(fs)), Some(t))
    decreases |fs|
  {
    hide ReadString, EncodeString, ValidString, Text, One;
    if fs == [] {
      assert [] + t == t && SendAll(kind, key, StringTexts(fs)) == [];
    } else {
      assert EncodeStrings(fs) + t == EncodeString(fs[0]) + (EncodeStrings(fs[1..]) + t);
      ReadStringInverts(fs[0], EncodeStrings(fs[1..]) + t);
      StringsSent(kind, key, fs[1..], t);
      assert [One(kind, key, Text(fs[0]))] + SendAll(kind, key, StringTexts(fs[1..])) ==
          SendAll(kind, key, StringTexts(fs));
    }
  }

  lemma SendAllAppend(kind: Kind, key: Bytes, a: seq<Bytes>, b: seq<Bytes>)
    ensures SendAll(kind, key, a) + SendAll(kind, key, b) == SendAll(kind, key, a + b)
  {}

  lemma NodeRead(n: Node, t: Bytes)
    requires ValidNode(n) && !n.NoContainer?
    ensures ReadNode(EncodeNode(n) + t) == Ok(NodeElements(n), t)
  {
    hide ReadString, EncodeString, ReadLength, EncodeLength, ValidString, Text, Elements, Listpack.ReadListpack,
      ValidPacked;
    if n.PlainNode? {
      assert EncodeNode(n) + t == EncodeLength(n.container, PLAIN) + (EncodeString(n.f) + t);
      ReadLengthInverts(n.container, PLAIN, EncodeString(n.f) + t);
      ReadStringInverts(n.f, t);
    } else {
      PackedIsString(n.packed);
      assert EncodeNode(n) + t == EncodeLength(n.container, PACKED) + (EncodeString(n.packed.blob) + t);
      ReadLengthInverts(n.container, PACKED, EncodeString(n.packed.blob) + t);
      ReadPackedInverts(n.packed, t);
    }
  }

  lemma PackedIsString(p: Packed)
    requires ValidPacked(p)
    ensures ValidString(p.blob)
  {}

  lemma {:induction false} NodesSent(key: Bytes, ns: seq<Node>, second: bool, t: Bytes)
    requires ValidNodes(ns, second)
    ensures (if second then ReadQuick2(key, EncodeNodes(ns, second) + t, |ns|)
        else ReadQuick(key, EncodeNodes(ns, second) + t, |ns|))
      == Out(SendAll(OfList, key, NodesElements(ns, second)), Some(t))
    decreases |ns|
  {
    hide ReadNode, EncodeNode, NodeElements, ValidPacked, Ziplist.ReadZipList, SendAll;
    if ns == [] {
      assert [] + t == t && SendAll(OfList, key, []) == [];
    } else {
      var rest := EncodeNodes(ns[1..], second) + t;
      assert EncodeNodes(ns, second) + t == EncodeNode(ns[0]) + rest;
      if second { NodeRead(ns[0], rest); } else { FirstNodeRead(ns[0], rest); }
      NodesSent(key, ns[1..], second, t);
      SendAllAppend(OfList, key, NodeElements(ns[0]), NodesElements(ns[1..], second));
    }
  }

  lemma FirstNodeRead(n: Node, t: Bytes)
    requires ValidNode(n) && n.NoContainer?
    ensures Ziplist.ReadZipList(EncodeNode(n) + t) == Ok(NodeElements(n), t)
  {
    hide Elements, ValidPacked, EncodeString, Ziplist.ReadZipList;
    PackedIsString(n.packed);
    ReadPackedInverts(n.packed, t);
  }

  /** The commands are a deletion and the elements in order, and reading stops where the value ends. */
  lemma RewriteSends(kind: Kind, e: Encoding, key: Bytes, t: Bytes)
    requires ValidEncoding(kind, e)
    ensures RewriteKind(kind, TypeByte(kind, e), key, EncodeValue(kind, e) + t) ==
      Out([Del(key)] + SendAll(kind, key, ValueElements(kind, e)), Some(t))
  {
    hide ReadPlain, ReadQuick, ReadQuick2, ReadLength, EncodeLength, EncodeString, EncodeStrings, EncodeNodes,
      StringTexts, NodesElements,
      Elements, SendAll, ValidPacked, ValidNodes, ValidStrings, Listpack.ReadListpack, Ziplist.ReadZipList,
          Intset.ReadIntset;
    match e
    case Strings(count, fs) =>
      assert EncodeValue(kind, e) + t == EncodeLength(count, |fs|) + (EncodeStrings(fs) + t);
      ReadLengthInverts(count, |fs|, EncodeStrings(fs) + t);
      StringsSent(kind, key, fs, t);
    case Quicklist(count, second, ns) =>
      assert EncodeValue(kind, e) + t == EncodeLength(count, |ns|) + (EncodeNodes(ns, second) + t);
      ReadLengthInverts(count, |ns|, EncodeNodes(ns, second) + t);
      NodesSent(key, ns, second, t);
    case Whole(p) =>
      PackedIsString(p);
      ReadPackedInverts(p, t);
  }

  /** Rewriting a list or a set preserves it: from any database, the commands leave at the key exactly the
      encoded list, in order, or the encoded set, and every other key as it was. */
  lemma RewritePreservesCollection(kind: Kind, e: Encoding, key: Bytes, t: Bytes, db: Db)
    requires ValidEncoding(kind, e)
    ensures var r := RewriteKind(kind, TypeByte(kind, e), key, EncodeValue(kind, e) + t);
      r.left == Some(t) && RunAll(db, r.sent) == Some(Stored(db, key, Collection(kind, ValueElements(kind, e))))
  {
    hide RewriteKind, ValueElements, EncodeValue, SendAll, RunAll, Stored, ValidEncoding;
    RewriteSends(kind, e, key, t);
    DelAndSendAll(db, kind, key, ValueElements(kind, e));
  }

  // ----- encodings of hashes -----

  /** A field written on its own: both strings, and the form of its expiry where that is a length. */
  datatype FieldForm = FieldForm(field: StringForm, e: StringForm, at: int, form: LengthForm)

  /** The number that stands for an expiry. */
  ghost function Stamp(layout: Layout, at: int): int {
    if !layout.ExpiryFirst? || at == 0 || layout.absolute then at else at - layout.min + 1
  }

  ghost predicate ValidField(layout: Layout, f: FieldForm) {
    ValidString(f.field) && ValidString(f.e) && Int64(f.at) &&
    match layout
    case NoExpiry => f.at == 0
    case ExpiryLast => true
    case ExpiryFirst(absolute, min) =>
      0 <= Stamp(layout, f.at) && FitsForm(f.form, Stamp(layout, f.at)) && (f.at != 0 ==> Stamp(layout, f.at) > 0)
  }

  ghost function EncodeField(layout: Layout, f: FieldForm): Bytes
    requires ValidField(layout, f)
  {
    match layout
    case NoExpiry => EncodeString(f.field) + EncodeString(f.e)
    case ExpiryLast => EncodeString(f.field) + EncodeString(f.e) + LittleEndian(f.at % 0x1_0000_0000_0000_0000, 8)
    case ExpiryFirst(_, _) => EncodeLength(f.form, Stamp(layout, f.at)) + EncodeString(f.field) + EncodeString(f.e)
  }

  ghost function FieldMeant(layout: Layout, f: FieldForm): FieldAt
    requires ValidField(layout, f)
  {
    FieldAt(Text(f.field), Text(f.e), f.at)
  }

  ghost predicate ValidFields(layout: Layout, fs: seq<FieldForm>) {
    forall i :: 0 <= i < |fs| ==> ValidField(layout, fs[i])
  }

  ghost function EncodeFields(layout: Layout, fs: seq<FieldForm>): Bytes
    requires ValidFields(layout, fs)
    decreases |fs|
  {
    if fs == [] then [] else EncodeField(layout, fs[0]) + EncodeFields(layout, fs[1..])
  }

  ghost function FieldsMeant(layout: Layout, fs: seq<FieldForm>): (ms: seq<FieldAt>)
    requires ValidFields(layout, fs)
    ensures |ms| == |fs| && forall i :: 0 <= i < |fs| ==> ms[i] == FieldMeant(layout, fs[i])
  {
    seq(|fs|, i requires 0 <= i < |fs| => FieldMeant(layout, fs[i]))
  }

  /** The elements a packed hash is made of. */
  function Flatten(width: nat, ms: seq<FieldAt>): seq<Bytes>
    decreases |ms|
  {
    if ms == [] then []
    else [ms[0].field, ms[0].e] + (if width == 3 then [FormatInt(ms[0].at)] else []) + Flatten(width, ms[1..])
  }

  datatype HashEncoding =
    | OneByOne(count: LengthForm, layout: Layout, fields: seq<FieldForm>)
    | PackedHash(packed: Packed, width: nat, min: Option<int>, meant: seq<FieldAt>)

  ghost predicate ValidHash(h: HashEncoding) {
    match h
    case OneByOne(count, layout, fs) =>
      FitsForm(count, |fs|) && |fs| < MANY && ValidFields(layout, fs)
      && (layout.ExpiryFirst? ==> Int64(layout.min) && (layout.absolute ==> layout.min == 0))
    case PackedHash(p, width, min, ms) =>
      ValidPacked(p) && !p.InIntset? && Elements(p) == Flatten(width, ms) && Expiries(ms)
      && (if width == 2 then min.None? && forall i :: 0 <= i < |ms| ==> ms[i].at == 0
          else width == 3 && p.InListpack? && (min.Some? ==> Int64(min.value)))
  }

  /** The type byte, and whether it is to be read as Valkey means it. */
  function HashType(h: HashEncoding): (int, bool) {
    match h
    case OneByOne(_, layout, _) =>
      (match layout
       case NoExpiry => (4, false)
       case ExpiryLast => (22, true)
       case ExpiryFirst(absolute, _) => if absolute then (22, false) else (24, false))
    case PackedHash(p, width, min, _) =>
      if width == 2 then (if p.InZiplist? then 13 else 16, false) else (if min.None? then 23 else 25, false)
  }

  ghost function EncodeMin(min: Option<int>): Bytes
    requires min.Some? ==> Int64(min.value)
  {
    if min.None? then [] else LittleEndian(min.value % 0x1_0000_0000_0000_0000, 8)
  }

  /** The minimum, where the layout has one, stands in front. */
  ghost function HashMin(h: HashEncoding): Option<int> {
    match h
    case OneByOne(_, layout, _) => if layout.ExpiryFirst? && !layout.absolute then Some(layout.min) else None
    case PackedHash(_, _, min, _) => min
  }

  ghost function EncodeHash(h: HashEncoding): Bytes
    requires ValidHash(h)
  {
    EncodeMin(HashMin(h)) +
    match h
    case OneByOne(count, layout, fs) => EncodeLength(count, |fs|) + EncodeFields(layout, fs)
    case PackedHash(p, _, _, _) => EncodeString(p.blob)
  }

  ghost function HashMeant(h: HashEncoding): seq<FieldAt>
    requires ValidHash(h)
  {
    match h
    case OneByOne(_, layout, fs) => FieldsMeant(layout, fs)
    case PackedHash(_, _, _, ms) => ms
  }

  // ----- the loops send the fields -----

  lemma WrapInverts(v: int)
    requires Int64(v)
    ensures Wrap(v % 0x1_0000_0000_0000_0000) == v && 0 <= v % 0x1_0000_0000_0000_0000
  {}

  /** Undoing the subtraction of the minimum in 64-bit arithmetic gives the expiry back. */
  lemma ExpiryRecovered(layout: Layout, at: int)
    requires layout.ExpiryFirst? && Int64(at) && Int64(layout.min)
    requires 0 <= Stamp(layout, at) < 0x1_0000_0000_0000_0000 && (at != 0 ==> Stamp(layout, at) > 0)
    ensures ExpiryAt(layout.absolute, layout.min, Wrap(Stamp(layout, at))) == at
  {
    hide Wrap;
    var n := Stamp(layout, at);
    var k := WrapByTurns(n);
    WrapInside(at);
    if layout.absolute || at == 0 {
      WrapInside(n);
    } else {
      assert Wrap(n) != 0;
      var j := WrapByTurns(Wrap(n) + layout.min);
      WrapTurns(at, k + j);
    }
  }

  lemma PairRead(field: StringForm, e: StringForm, t: Bytes)
    requires ValidString(field) && ValidString(e)
    ensures ReadPair(EncodeString(field) + (EncodeString(e) + t)) == Ok((Text(field), Text(e)), t)
  {
    hide ReadString, EncodeString, ValidString, Text;
    ReadStringInverts(field, EncodeString(e) + t);
    ReadStringInverts(e, t);
  }

  lemma StampRead(at: int, t: Bytes)
    requires Int64(at)
    ensures var r := ReadUint(LittleEndian(at % 0x1_0000_0000_0000_0000, 8) + t, 8);
        r.Ok? && Wrap(r.value) == at && r.rest == t
  {
    hide Pow256, LittleEndian, ReadUint, Wrap;
    Powers();
    WrapInverts(at);
    ReadUintInverts(at % 0x1_0000_0000_0000_0000, 8, t);
  }

  lemma FieldRead(layout: Layout, f: FieldForm, t: Bytes)
    requires ValidField(layout, f) && (layout.ExpiryFirst? ==> Int64(layout.min))
    ensures ReadField(layout, EncodeField(layout, f) + t) == Ok(FieldMeant(layout, f), t)
  {
    hide ReadPair, EncodeString, ValidString, Text, ReadLength, EncodeLength, LittleEndian, ReadUint, Wrap, Stamp,
      ExpiryAt;
    var pair := EncodeString(f.field) + (EncodeString(f.e) + t);
    match layout
    case NoExpiry =>
      assert EncodeField(layout, f) + t == pair;
      PairRead(f.field, f.e, t);
    case ExpiryLast =>
      var last := LittleEndian(f.at % 0x1_0000_0000_0000_0000, 8) + t;
      assert EncodeField(layout, f) + t == EncodeString(f.field) + (EncodeString(f.e) + last);
      PairRead(f.field, f.e, last);
      StampRead(f.at, t);
    case ExpiryFirst(_, _) =>
      assert EncodeField(layout, f) + t == EncodeLength(f.form, Stamp(layout, f.at)) + pair;
      ReadLengthInverts(f.form, Stamp(layout, f.at), pair);
      PairRead(f.field, f.e, t);
      ExpiryRecovered(layout, f.at);
  }

  lemma {:induction false} FieldsSent(layout: Layout, key: Bytes, fs: seq<FieldForm>, t: Bytes)
    requires ValidFields(layout, fs) && (layout.ExpiryFirst? ==> Int64(layout.min))
    ensures ReadFields(layout, key, EncodeFields(layout, fs) + t, |fs|) ==
        Out(SendFields(key, FieldsMeant(layout, fs)), Some(t))
    decreases |fs|
  {
    hide ReadField, EncodeField, ValidField, FieldMeant, SendField;
    if fs == [] {
      assert [] + t == t;
    } else {
      assert EncodeFields(layout, fs) + t == EncodeField(layout, fs[0]) + (EncodeFields(layout, fs[1..]) + t);
      FieldRead(layout, fs[0], EncodeFields(layout, fs[1..]) + t);
      FieldsSent(layout, key, fs[1..], t);
      assert FieldsMeant(layout, fs)[1..] == FieldsMeant(layout, fs[1..]);
    }
  }

  lemma {:induction false} PairsSent(key: Bytes, ms: seq<FieldAt>, t: Bytes)
    requires forall i :: 0 <= i < |ms| ==> ms[i].at == 0
    ensures SendPairs(key, Flatten(2, ms), t) == Out(SendFields(key, ms), Some(t))
    decreases |ms|
  {
    if ms != [] {
      assert Flatten(2, ms)[2..] == Flatten(2, ms[1..]);
      PairsSent(key, ms[1..], t);
      assert SendField(key, ms[0]) == [HSet(key, ms[0].field, ms[0].e)];
    }
  }

  lemma {:induction false} TriplesSent(key: Bytes, ms: seq<FieldAt>, t: Bytes)
    requires Expiries(ms)
    ensures SendTriples(key, Flatten(3, ms), t) == Out(SendFields(key, ms), Some(t))
    decreases |ms|
  {
    hide ParseInt, FormatInt, SendField;
    if ms != [] {
      assert Flatten(3, ms)[3..] == Flatten(3, ms[1..]);
      ParseFormatted(ms[0].at);
      TriplesSent(key, ms[1..], t);
    }
  }

  /** An element without its partner makes the loop panic, after the whole pairs have been sent. */
  lemma {:induction false} OddOneOut(key: Bytes, list: seq<Bytes>, t: Bytes)
    ensures SendPairs(key, list, t).left.Some? <==> |list| % 2 == 0
    ensures |SendPairs(key, list, t).sent| == |list| / 2
    decreases |list|
  {
    if |list| > 1 { OddOneOut(key, list[2..], t); }
  }

  /** Every third element is a number. */
  ghost predicate ThirdsParse(list: seq<Bytes>) {
    forall i :: 0 <= i < |list| && i % 3 == 2 ==> ParseInt(list[i]).Some?
  }

  lemma ThirdsFront(list: seq<Bytes>)
    requires |list| >= 3
    ensures ThirdsParse(list) <==> ParseInt(list[2]).Some? && ThirdsParse(list[3..])
  {
    hide ParseInt;
    var rest := list[3..];
    if ThirdsParse(list) {
      forall i | 0 <= i < |rest| && i % 3 == 2
        ensures ParseInt(rest[i]).Some?
      {
        assert rest[i] == list[i + 3];
      }
    }
    if ParseInt(list[2]).Some? && ThirdsParse(rest) {
      forall i | 0 <= i < |list| && i % 3 == 2
        ensures ParseInt(list[i]).Some?
      {
        if i >= 3 { assert list[i] == rest[i - 3]; }
      }
    }
  }

  /** The same for triples: the list is sent whole exactly if its length is a multiple of three and every third
      element is a number. */
  lemma {:induction false} TriplesWholeIff(key: Bytes, list: seq<Bytes>, t: Bytes)
    ensures SendTriples(key, list, t).left.Some? <==> |list| % 3 == 0 && ThirdsParse(list)
    decreases |list|
  {
    hide ParseInt, SendField, ThirdsParse;
    if |list| >= 3 {
      TriplesWholeIff(key, list[3..], t);
      ThirdsFront(list);
    } else {
      NoThirds(list);
    }
  }

  lemma NoThirds(list: seq<Bytes>)
    requires |list| < 3
    ensures list == [] ==> ThirdsParse(list)
  {}

  lemma CountedFieldsSent(layout: Layout, count: LengthForm, key: Bytes, fs: seq<FieldForm>, t: Bytes)
    requires FitsForm(count, |fs|) && |fs| < MANY && ValidFields(layout, fs)
    requires (layout.ExpiryFirst? ==> Int64(layout.min))
    ensures ReadCountedFields(layout, key, EncodeLength(count, |fs|) + EncodeFields(layout, fs) + t) ==
      Out(SendFields(key, FieldsMeant(layout, fs)), Some(t))
  {
    hide ReadFields, EncodeFields, ReadLength, EncodeLength, FieldsMeant, SendFields, ValidFields;
    assert EncodeLength(count, |fs|) + EncodeFields(layout, fs) + t ==
        EncodeLength(count, |fs|) + (EncodeFields(layout, fs) + t);
    ReadLengthInverts(count, |fs|, EncodeFields(layout, fs) + t);
    FieldsSent(layout, key, fs, t);
  }

  lemma PackedHashSent(h: HashEncoding, key: Bytes, t: Bytes)
    requires ValidHash(h) && h.PackedHash?
    ensures SendingHash(key, h.width, ReadPacked(h.packed, EncodeString(h.packed.blob) + t)) ==
        Out(SendFields(key, h.meant), Some(t))
  {
    hide ValidPacked, ReadPacked, SendPairs, SendTriples, SendFields, Elements, EncodeString;
    PackedIsString(h.packed);
    ReadPackedInverts(h.packed, t);
    if h.width == 2 { PairsSent(key, h.meant, t); } else { TriplesSent(key, h.meant, t); }
  }

  /** The commands are a deletion and the fields in order, and reading stops where the value ends. */
  lemma RewriteHashSends(h: HashEncoding, key: Bytes, t: Bytes)
    requires ValidHash(h)
    ensures RewriteHash(HashType(h).0, HashType(h).1, key, EncodeHash(h) + t) ==
        Out([Del(key)] + SendFields(key, HashMeant(h)), Some(t))
  {
    hide ReadCountedFields, SendingHash, EncodeFields, FieldsMeant, EncodeLength, EncodeString, ReadUint,
      LittleEndian, Wrap, SendFields,
      ValidPacked, ValidFields, Elements, Flatten, Listpack.ReadListpack, Ziplist.ReadZipList;
    if h.OneByOne? {
      var body := EncodeLength(h.count, |h.fields|) + EncodeFields(h.layout, h.fields);
      CountedFieldsSent(h.layout, h.count, key, h.fields, t);
      if HashMin(h).Some? {
        assert EncodeHash(h) + t == EncodeMin(HashMin(h)) + (body + t);
        StampRead(h.layout.min, body + t);
      } else {
        assert EncodeHash(h) + t == body + t;
      }
    } else {
      PackedIsString(h.packed);
      var body := EncodeString(h.packed.blob);
      PackedHashSent(h, key, t);
      if h.min.Some? {
        assert EncodeHash(h) + t == EncodeMin(h.min) + (body + t);
        StampRead(h.min.value, body + t);
      } else {
        assert EncodeHash(h) + t == body + t;
      }
    }
  }

  lemma MeantExpiries(h: HashEncoding)
    requires ValidHash(h)
    ensures Expiries(HashMeant(h))
  {}

  /** Rewriting a hash preserves it: from any database, the commands leave at the key exactly the encoded
      fields with their absolute expiries, and every other key as it was. */
  lemma RewritePreservesHash(e: HashEncoding, key: Bytes, t: Bytes, db: Db)
    requires ValidHash(e)
    ensures var r := RewriteHash(HashType(e).0, HashType(e).1, key, EncodeHash(e) + t);
      r.left == Some(t) && exists h :: IsHash(h, HashMeant(e)) && RunAll(db, r.sent) == Some(Stored(db, key, HashV(h)))
  {
    hide RewriteHash, EncodeHash, HashMeant, SendFields, RunAll, Stored, ValidHash, IsHash, Expiries;
    RewriteHashSends(e, key, t);
    MeantExpiries(e);
    DelAndSendFields(db, key, HashMeant(e));
  }
}
