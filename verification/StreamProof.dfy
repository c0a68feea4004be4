/** Reading the nodes of a stream sends its live entries, in order, each with its own identifier and fields. */
module StreamProof {
  import opened Basics
  import opened RdbStrings
  import opened StreamNode
  import Listpack

  const TWO64 := 0x1_0000_0000_0000_0000
  const TWO63 := 0x8000_0000_0000_0000

  /** An entry as the stream holds it; `same` says that it has the fields of the master entry. */
  datatype Entry = Entry(deleted: bool, same: bool, ms: nat, sq: nat, fields: seq<Bytes>, values: seq<Bytes>,
      lpCount: Bytes)

  datatype Node = Node(ms: nat, sq: nat, fields: seq<Bytes>, entries: seq<Entry>)

  ghost predicate ValidEntry(n: Node, e: Entry) {
    e.ms < TWO64 && e.sq < TWO64 && |e.fields| == |e.values| < TWO63 / 2 && (e.same ==> e.fields == n.fields)
  }

  ghost predicate ValidEntries(n: Node, es: seq<Entry>) {
    forall i :: 0 <= i < |es| ==> ValidEntry(n, es[i])
  }

  ghost predicate ValidNode(n: Node) {
    n.ms < TWO64 && n.sq < TWO64 && |n.fields| < TWO63 && |n.entries| < TWO63 && ValidEntries(n, n.entries)
  }

  /** A difference of identifiers as a listpack holds it. */
  ghost function Delta(x: nat, base: nat): Bytes { FormatInt(Wrap(x - base)) }

  ghost function Flags(e: Entry): int { (if e.deleted then 1 else 0) + (if e.same then 2 else 0) }

  ghost function ArgElements(n: Node, e: Entry): seq<Bytes>
    requires ValidEntry(n, e)
  {
    if e.same then e.values else [FormatInt(|e.fields|)] + Zip(e.fields, e.values)
  }

  ghost function EntryElements(n: Node, e: Entry): seq<Bytes>
    requires ValidEntry(n, e)
  {
    [FormatInt(Flags(e)), Delta(e.ms, n.ms), Delta(e.sq, n.sq)] + ArgElements(n, e) + [e.lpCount]
  }

  ghost function EntriesElements(n: Node, es: seq<Entry>): seq<Bytes>
    requires ValidEntries(n, es)
    decreases |es|
  {
    if es == [] then [] else EntryElements(n, es[0]) + EntriesElements(n, es[1..])
  }

  /** How many entries are deleted, or are not. */
  ghost function Number(es: seq<Entry>, deleted: bool): (k: nat)
    ensures k <= |es|
    decreases |es|
  {
    if es == [] then 0 else (if es[0].deleted == deleted then 1 else 0) + Number(es[1..], deleted)
  }

  ghost function NodeElements(n: Node): seq<Bytes>
    requires ValidNode(n)
  {
    [FormatInt(Number(n.entries, false)), FormatInt(Number(n.entries, true)), FormatInt(|n.fields|)] + n.fields
        + [ZEROTEXT]
      + EntriesElements(n, n.entries)
  }

  /** The command for an entry. */
  ghost function Added(e: Entry): XAdd
    requires |e.fields| == |e.values|
  {
    XAdd(Id(Wrap(e.ms), Wrap(e.sq)), Zip(e.fields, e.values))
  }

  ghost function Live(n: Node, es: seq<Entry>): seq<XAdd>
    requires ValidEntries(n, es)
    decreases |es|
  {
    if es == [] then [] else (if es[0].deleted then [] else [Added(es[0])]) + Live(n, es[1..])
  }

  lemma WrapSum(x: nat, base: nat)
    ensures Wrap(Wrap(x - base) + Wrap(base)) == Wrap(x) && Int64(Wrap(x - base))
  {
    hide Wrap;
    var j := WrapByTurns(x - base);
    var k := WrapByTurns(base);
    WrapTurns(x, j + k);
  }

  lemma DeltaRead(x: nat, base: nat)
    ensures ParseInt(Delta(x, base)).Some? && Wrap(ParseInt(Delta(x, base)).value + Wrap(base)) == Wrap(x)
  {
    hide ParseInt, FormatInt, Wrap;
    WrapSum(x, base);
    ParseFormatted(Wrap(x - base));
  }

  lemma {:induction false} ZipLength(fields: seq<Bytes>, values: seq<Bytes>)
    requires |fields| == |values|
    ensures |Zip(fields, values)| == 2 * |fields|
    decreases |fields|
  {
    if fields != [] { ZipLength(fields[1..], values[1..]); }
  }

  lemma ArgsRead(n: Node, e: Entry, t: seq<Bytes>)
    requires ValidEntry(n, e)
    ensures ReadArgs(Master(Wrap(n.ms), Wrap(n.sq), n.fields), e.same, ArgElements(n, e) + t) ==
        Some((Zip(e.fields, e.values), t))
  {
    hide ParseInt, FormatInt, Zip;
    var s := ArgElements(n, e) + t;
    if e.same {
      assert s[..|n.fields|] == e.values && s[|n.fields|..] == t;
    } else {
      var k := 2 * |e.fields|;
      ZipLength(e.fields, e.values);
      ParseFormatted(|e.fields|);
      assert Wrap(|e.fields| * 2) == k;
      assert s[1..1 + k] == Zip(e.fields, e.values) && s[1 + k..] == t;
    }
  }

  lemma OneRead(n: Node, e: Entry, t: seq<Bytes>)
    requires ValidEntry(n, e)
    ensures ReadOne(Master(Wrap(n.ms), Wrap(n.sq), n.fields), EntryElements(n, e) + t) ==
        Some(One(e.deleted, Added(e), t))
  {
    hide ParseInt, FormatInt, Zip, Wrap, Id, ReadArgs, ArgElements, Delta;
    var s := EntryElements(n, e) + t;
    var rest := [e.lpCount] + t;
    assert s[3..] == ArgElements(n, e) + rest;
    ParseFormatted(Flags(e));
    DeltaRead(e.ms, n.ms);
    DeltaRead(e.sq, n.sq);
    ArgsRead(n, e, rest);
    assert rest[1..] == t;
  }

  /** The loop ends after the last entry, having sent the live ones. */
  lemma {:induction false} EntriesRead(n: Node, es: seq<Entry>, t: seq<Bytes>)
    requires ValidEntries(n, es) && |es| < TWO63
    ensures ReadEntries(Master(Wrap(n.ms), Wrap(n.sq), n.fields), EntriesElements(n, es) + t, Number(es, false),
        Number(es, true)) ==
      Run(Live(n, es), Some(t))
    decreases |es|
  {
    hide ReadOne, EntryElements, Added, ValidEntry, Wrap;
    if es == [] {
      assert [] + t == t;
    } else {
      var tail := EntriesElements(n, es[1..]) + t;
      assert EntriesElements(n, es) + t == EntryElements(n, es[0]) + tail;
      OneRead(n, es[0], tail);
      EntriesRead(n, es[1..], t);
      WrapInside(Number(es[1..], es[0].deleted));
    }
  }

  lemma NodeRead(n: Node)
    requires ValidNode(n)
    ensures ReadNode(Wrap(n.ms), Wrap(n.sq), NodeElements(n)) == Run(Live(n, n.entries), Some([]))
  {
    hide ParseInt, FormatInt, Wrap, ReadEntries, EntriesElements, Live, Number;
    var live, dead, k := Number(n.entries, false), Number(n.entries, true), |n.fields|;
    var s := NodeElements(n);
    ParseFormatted(live);
    ParseFormatted(dead);
    ParseFormatted(k);
    assert s[3..3 + k] == n.fields && s[3 + k] == ZEROTEXT && s[4 + k..] == EntriesElements(n, n.entries);
    EntriesRead(n, n.entries, []);
    assert EntriesElements(n, n.entries) + [] == EntriesElements(n, n.entries);
  }

  // ----- from bytes -----

  /** A node with the strings its identifier and its listpack are stored as. */
  datatype Stored = Stored(node: Node, key: StringForm, blob: StringForm, lp: seq<Listpack.Elem>)

  ghost predicate ValidStored(n: Stored) {
    ValidNode(n.node) && ValidString(n.key) && ValidString(n.blob)
    && Listpack.ValidElems(n.lp) && 7 + |Listpack.EncodeElems(n.lp)| < 0x1_0000_0000 && |n.lp| <= 65535
    && Text(n.key) == BigEndian(n.node.ms, 8) + BigEndian(n.node.sq, 8)
    && Text(n.blob) == Listpack.EncodeListpack(n.lp)
    && Listpack.Texts(n.lp) == NodeElements(n.node)
  }

  ghost predicate ValidNodes(ns: seq<Stored>) {
    forall i :: 0 <= i < |ns| ==> ValidStored(ns[i])
  }

  ghost function EncodeNode(n: Stored): Bytes
    requires ValidStored(n)
  {
    EncodeString(n.key) + EncodeString(n.blob)
  }

  ghost function EncodeNodes(ns: seq<Stored>): Bytes
    requires ValidNodes(ns)
    decreases |ns|
  {
    if ns == [] then [] else EncodeNode(ns[0]) + EncodeNodes(ns[1..])
  }

  ghost function LiveOf(n: Stored): seq<XAdd>
    requires ValidStored(n)
  {
    Live(n.node, n.node.entries)
  }

  ghost function AllLive(ns: seq<Stored>): seq<XAdd>
    requires ValidNodes(ns)
    decreases |ns|
  {
    if ns == [] then [] else LiveOf(ns[0]) + AllLive(ns[1..])
  }

  lemma KeyRead(ms: nat, sq: nat)
    requires ms < TWO64 && sq < TWO64
    ensures var key := BigEndian(ms, 8) + BigEndian(sq, 8);
        FromBigEndian(key[..8]) == ms && FromBigEndian(key[8..16]) == sq
  {
    hide BigEndian, FromBigEndian, Pow256;
    Powers();
    var key := BigEndian(ms, 8) + BigEndian(sq, 8);
    assert key[..8] == BigEndian(ms, 8) && key[8..16] == BigEndian(sq, 8);
    BigEndianInverts(ms, 8);
    BigEndianInverts(sq, 8);
  }

  lemma NodeBytesRead(n: Stored, t: Bytes)
    requires ValidStored(n)
    ensures ReadNodeBytes(EncodeNode(n) + t) == Run(LiveOf(n), Some(t))
  {
    hide ReadString, EncodeString, ValidString, Text, Listpack.ReadListpack, Listpack.EncodeListpack,
      Listpack.EncodeElems, BigEndian, FromBigEndian,
      ReadNode, NodeElements, Wrap, Live, ValidNode;
    assert EncodeNode(n) + t == EncodeString(n.key) + (EncodeString(n.blob) + t);
    ReadStringInverts(n.key, EncodeString(n.blob) + t);
    Listpack.ReadListpackInverts(n.blob, n.lp, t);
    NodeBounds(n.node);
    KeyRead(n.node.ms, n.node.sq);
    NodeRead(n.node);
  }

  lemma NodeBounds(n: Node)
    requires ValidNode(n)
    ensures n.ms < TWO64 && n.sq < TWO64
  {}

  /** Any nodes, of any live and deleted entries, with or without shared fields: what is sent is the live
      entries of all nodes in order, and reading stops where the last node ends. */
  lemma {:induction false} NodesSendLiveEntries(ns: seq<Stored>, t: Bytes)
    requires ValidNodes(ns)
    ensures ReadNodes(EncodeNodes(ns) + t, |ns|) == Run(AllLive(ns), Some(t))
    decreases |ns|
  {
    hide ReadNodeBytes, EncodeNode, LiveOf, ValidStored;
    if ns == [] {
      assert [] + t == t;
    } else {
      assert EncodeNodes(ns) + t == EncodeNode(ns[0]) + (EncodeNodes(ns[1..]) + t);
      NodeBytesRead(ns[0], EncodeNodes(ns[1..]) + t);
      NodesSendLiveEntries(ns[1..], t);
    }
  }

  /** Identifiers go through signed numbers, so the one sent is the one stored exactly if both of its parts
      are below 2^63. */
  lemma IdIsExact(ms: nat, sq: nat)
    requires ms < TWO64 && sq < TWO64
    ensures Id(Wrap(ms), Wrap(sq)) == Digits(ms) + [MINUS] + Digits(sq) <==> ms < TWO63 && sq < TWO63
  {
    hide Wrap, Digits;
    WrapHigh(ms);
    WrapHigh(sq);
    var sent, stored := Id(Wrap(ms), Wrap(sq)), Digits(ms) + [MINUS] + Digits(sq);
    if ms >= TWO63 {
      assert sent[0] == MINUS;
      assert IsDigit(Digits(ms)[0]) && stored[0] == Digits(ms)[0];
    } else if sq >= TWO63 {
      var i := |Digits(ms)| + 1;
      assert sent[i] == MINUS;
      assert IsDigit(Digits(sq)[0]) && stored[i] == Digits(sq)[0];
    }
  }

  lemma WrapHigh(x: nat)
    requires x < TWO64
    ensures if x < TWO63 then Wrap(x) == x else Wrap(x) < 0
  {}
}
