/** A well-formed file is sent key by key, each key with its own database, its own expiry and exactly the
    bytes of its own value. */
module RdbLoaderProof {
  import opened Basics
  import opened RdbStrings
  import opened RewriteTarget
  import opened Rewrite
  import opened RewriteProof
  import opened RdbLoader

  /** A number in any form that is wide enough. */
  datatype Len = Len(form: LengthForm, n: nat)

  predicate FitsLen(l: Len) { FitsForm(l.form, l.n) }

  function EncodeLen(l: Len): Bytes
    requires FitsLen(l)
  {
    EncodeLength(l.form, l.n)
  }

  /** What may stand before a key, in any order and as often as it likes. */
  datatype Note =
    | SlotInfo(a: Len, b: Len, c: Len)
    | Function2(library: StringForm)
    | Idle(l: Len)
    | Freq(count: byte)
    | AuxField(key: StringForm, value: StringForm)
    | ResizeDb(a: Len, b: Len)
    | SelectDb(l: Len)
    | ExpireMs(at: nat)
    | ExpireSeconds(at: nat)

  datatype ValueForm = OfString(text: StringForm) | OfCollection(kind: Kind, encoding: Encoding)
      | OfHash(hash: HashEncoding)

  /** A key with the notes before it. */
  datatype Record = Record(notes: seq<Note>, key: StringForm, value: ValueForm)

  ghost predicate ValidNote(n: Note) {
    match n
    case SlotInfo(a, b, c) => FitsLen(a) && FitsLen(b) && FitsLen(c)
    case Function2(library) => ValidString(library)
    case Idle(l) => FitsLen(l)
    case Freq(_) => true
    case AuxField(key, value) =>
      ValidString(key) && ValidString(value) && (Text(key) == REPLSTREAMDB ==> ParseInt(Text(value)).Some?)
    case ResizeDb(a, b) => FitsLen(a) && FitsLen(b)
    case SelectDb(l) => FitsLen(l)
    case ExpireMs(at) => at < 0x1_0000_0000_0000_0000
    case ExpireSeconds(at) => at < 0x1_0000_0000
  }

  ghost predicate ValidNotes(ns: seq<Note>) { forall i :: 0 <= i < |ns| ==> ValidNote(ns[i]) }

  ghost predicate ValidValue(cfg: Settings, v: ValueForm) {
    match v
    case OfString(text) => ValidString(text)
    case OfCollection(kind, e) => ValidEncoding(kind, e)
    case OfHash(h) => ValidHash(h) && (ValueType(v) == 22 ==> HashType(h).1 == cfg.valkey)
  }

  function ValueType(v: ValueForm): int {
    match v
    case OfString(_) => 0
    case OfCollection(kind, e) => TypeByte(kind, e)
    case OfHash(h) => HashType(h).0
  }

  ghost function EncodeNote(n: Note): Bytes
    requires ValidNote(n)
  {
    match n
    case SlotInfo(a, b, c) => [244] + EncodeLen(a) + EncodeLen(b) + EncodeLen(c)
    case Function2(library) => [245] + EncodeString(library)
    case Idle(l) => [248] + EncodeLen(l)
    case Freq(n) => [249, n]
    case AuxField(key, value) => [250] + EncodeString(key) + EncodeString(value)
    case ResizeDb(a, b) => [251] + EncodeLen(a) + EncodeLen(b)
    case SelectDb(l) => [254] + EncodeLen(l)
    case ExpireMs(at) => [252] + LittleEndian(at, 8)
    case ExpireSeconds(at) => [253] + LittleEndian(at, 4)
  }

  ghost function EncodeNotes(ns: seq<Note>): Bytes
    requires ValidNotes(ns)
    decreases |ns|
  {
    if ns == [] then [] else EncodeNote(ns[0]) + EncodeNotes(ns[1..])
  }

  ghost function EncodeAny(cfg: Settings, v: ValueForm): Bytes
    requires ValidValue(cfg, v)
  {
    match v
    case OfString(text) => EncodeString(text)
    case OfCollection(kind, e) => EncodeValue(kind, e)
    case OfHash(h) => EncodeHash(h)
  }

  /** The commands that rebuild a value. */
  ghost function ValueCommands(cfg: Settings, key: Bytes, v: ValueForm): seq<Cmd>
    requires ValidValue(cfg, v)
  {
    match v
    case OfString(text) => [Set(key, Text(text))]
    case OfCollection(kind, e) => [Del(key)] + SendAll(kind, key, ValueElements(kind, e))
    case OfHash(h) => [Del(key)] + SendFields(key, HashMeant(h))
  }

  // ----- one value -----

  lemma TypesApart(cfg: Settings, v: ValueForm)
    requires ValidValue(cfg, v)
    ensures 0 <= ValueType(v) < 26
    ensures v.OfCollection? && v.kind.OfList? ==> ValueType(v) in {1, 10, 14, 18}
    ensures v.OfCollection? && v.kind.OfSet? ==> ValueType(v) in {2, 11, 20}
    ensures v.OfHash? ==> ValueType(v) in {4, 9, 13, 16, 22, 23, 24, 25}
  {}

  /** The flavour of the file matters for one type only. */
  lemma FlavourMatters(h: HashEncoding, valkey: bool, key: Bytes, s: Bytes)
    requires HashType(h).0 == 22 ==> HashType(h).1 == valkey
    ensures RewriteHash(HashType(h).0, valkey, key, s) == RewriteHash(HashType(h).0, HashType(h).1, key, s)
  {}

  /** The value is read to its last byte, and no further. */
  lemma ValueRead(cfg: Settings, v: ValueForm, key: Bytes, t: Bytes)
    requires ValidValue(cfg, v)
    ensures ReadValue(ValueType(v), cfg.valkey, key, EncodeAny(cfg, v) + t) == Out(ValueCommands(cfg, key, v), Some(t))
    ensures Captured(EncodeAny(cfg, v) + t, t) == EncodeAny(cfg, v)
  {
    hide ReadString, EncodeString, Text, RewriteList, RewriteSet, RewriteHash, EncodeValue, EncodeHash, SendAll,
      SendFields, HashMeant, ValueElements,
      ValidEncoding, ValidHash, HashType, TypeByte, ValidString;
    var s := EncodeAny(cfg, v) + t;
    assert s[..|s| - |t|] == EncodeAny(cfg, v);
    TypesApart(cfg, v);
    match v
    case OfString(text) => ReadStringInverts(text, t);
    case OfCollection(kind, e) => RewriteSends(kind, e, key, t);
    case OfHash(h) =>
      RewriteHashSends(h, key, t);
      FlavourMatters(h, cfg.valkey, key, s);
  }

  // ----- the opcodes -----

  /** What a note sends, and what it changes. */
  ghost function NoteSends(n: Note): seq<Entry>
    requires ValidNote(n)
  {
    match n
    case Function2(library) => [FunctionLoad(Text(library))]
    case AuxField(key, value) => if Text(key) == LUA then [ScriptLoad(Text(value))] else []
    case _ => []
  }

  ghost predicate IsExpiry(n: Note) { n.ExpireMs? || n.ExpireSeconds? }

  /** Time left of an expiry. */
  ghost function Left(n: Note, now: int): int
    requires IsExpiry(n)
  {
    if n.ExpireMs? then Remaining(Wrap(n.at), now) else Remaining(n.at * 1000, now)
  }

  ghost function AfterNote(f: Fields, n: Note, now: int): Fields
    requires ValidNote(n)
  {
    match n
    case AuxField(key, value) => if Text(key) == REPLSTREAMDB then f.(replDb := ParseInt(Text(value)).value) else f
    case SelectDb(l) => f.(nowDb := Wrap(l.n))
    case ExpireMs(_) => f.(expireMs := Left(n, now))
    case ExpireSeconds(_) => f.(expireMs := Left(n, now))
    case _ => f
  }

  lemma Skips(l: Len, k: nat, t: Bytes)
    requires FitsLen(l) && k > 0
    ensures SkipLengths(EncodeLen(l) + t, k) == SkipLengths(t, k - 1)
  {
    hide ReadLength, EncodeLength;
    ReadLengthInverts(l.form, l.n, t);
  }

  lemma LuaIsNotRepl()
    ensures LUA != REPLSTREAMDB
  {
    assert |LUA| != |REPLSTREAMDB|;
  }

  /** An opcode is followed by what it reads: the effect of a note, behind its first byte. */
  ghost predicate Reads(cfg: Settings, now: int, f: Fields, n: Note, t: Bytes)
    requires ValidNote(n)
  {
    var s := EncodeNote(n) + t;
    s != [] && s[0] != 255 && Execute(cfg, now, f, s[0], s[1..]) == More(NoteSends(n), AfterNote(f, n, now), t)
  }

  lemma Joined(op: byte, a: Bytes, b: Bytes, c: Bytes, t: Bytes)
    ensures var s := [op] + a + b + c + t; s[0] == op && s[1..] == a + (b + (c + t))
  {
    assert [op] + a + b + c + t == [op] + (a + (b + (c + t)));
  }

  lemma SlotNote(cfg: Settings, now: int, f: Fields, n: Note, t: Bytes)
    requires ValidNote(n) && n.SlotInfo?
    ensures Reads(cfg, now, f, n, t)
  {
    hide ReadString, EncodeString, ReadLength, EncodeLen, SkipLengths, KeyValue, Aux, Left;
    var a, b, c := EncodeLen(n.a), EncodeLen(n.b), EncodeLen(n.c);
    Joined(244, a, b, c, t);
    Skips(n.a, 3, b + (c + t));
    Skips(n.b, 2, c + t);
    Skips(n.c, 1, t);
    NoLengths(t);
  }

  lemma ResizeNote(cfg: Settings, now: int, f: Fields, n: Note, t: Bytes)
    requires ValidNote(n) && n.ResizeDb?
    ensures Reads(cfg, now, f, n, t)
  {
    hide ReadString, EncodeString, ReadLength, EncodeLen, SkipLengths, KeyValue, Aux, Left;
    var a, b := EncodeLen(n.a), EncodeLen(n.b);
    Joined(251, a, b, [], t);
    assert [251] + a + b + [] + t == EncodeNote(n) + t && [] + t == t;
    Skips(n.a, 2, b + t);
    Skips(n.b, 1, t);
    NoLengths(t);
  }

  lemma FunctionNote(cfg: Settings, now: int, f: Fields, n: Note, t: Bytes)
    requires ValidNote(n) && n.Function2?
    ensures Reads(cfg, now, f, n, t)
  {
    hide ReadString, EncodeString, Text, ReadLength, ValidString, SkipLengths, KeyValue, Aux;
    assert (EncodeNote(n) + t)[1..] == EncodeString(n.library) + t;
    ReadStringInverts(n.library, t);
  }

  lemma AuxRead(f: Fields, n: Note, now: int, t: Bytes)
    requires ValidNote(n) && n.AuxField?
    ensures Aux(f, EncodeString(n.key) + (EncodeString(n.value) + t)) == More(NoteSends(n), AfterNote(f, n, now), t)
  {
    hide ReadString, EncodeString, Text, ValidString, ReadPair, ParseInt;
    PairRead(n.key, n.value, t);
    LuaIsNotRepl();
  }

  lemma AuxNote(cfg: Settings, now: int, f: Fields, n: Note, t: Bytes)
    requires ValidNote(n) && n.AuxField?
    ensures Reads(cfg, now, f, n, t)
  {
    hide ReadString, EncodeString, ReadLength, ValidString, Text, ParseInt, SkipLengths, KeyValue, Aux, NoteSends,
      AfterNote;
    Joined(250, EncodeString(n.key), EncodeString(n.value), [], t);
    assert [250] + EncodeString(n.key) + EncodeString(n.value) + [] + t == EncodeNote(n) + t && [] + t == t;
    AuxRead(f, n, now, t);
  }

  lemma NumberNote(cfg: Settings, now: int, f: Fields, n: Note, t: Bytes)
    requires ValidNote(n) && (n.Idle? || n.Freq? || n.SelectDb?)
    ensures Reads(cfg, now, f, n, t)
  {
    hide ReadString, ReadLength, EncodeLength, Wrap, SkipLengths, KeyValue, Aux, Left;
    var s := EncodeNote(n) + t;
    if n.Freq? {
      assert s[1..][1..] == t;
    } else {
      assert s[1..] == EncodeLen(n.l) + t;
      ReadLengthInverts(n.l.form, n.l.n, t);
    }
  }

  lemma ExpiryNote(cfg: Settings, now: int, f: Fields, n: Note, t: Bytes)
    requires ValidNote(n) && IsExpiry(n)
    ensures Reads(cfg, now, f, n, t)
  {
    hide LittleEndian, ReadUint, Pow256, Wrap, Remaining, KeyValue, SkipLengths, Aux;
    Powers();
    var s := EncodeNote(n) + t;
    var width := if n.ExpireMs? then 8 else 4;
    assert s[1..] == LittleEndian(n.at, width) + t;
    ReadUintInverts(n.at, width, t);
  }

  lemma NoteRead(cfg: Settings, now: int, f: Fields, n: Note, t: Bytes)
    requires ValidNote(n)
    ensures Reads(cfg, now, f, n, t)
  {
    hide Reads, ValidNote;
    match n
    case SlotInfo(_, _, _) => SlotNote(cfg, now, f, n, t);
    case ResizeDb(_, _) => ResizeNote(cfg, now, f, n, t);
    case Function2(_) => FunctionNote(cfg, now, f, n, t);
    case AuxField(_, _) => AuxNote(cfg, now, f, n, t);
    case Idle(_) => NumberNote(cfg, now, f, n, t);
    case Freq(_) => NumberNote(cfg, now, f, n, t);
    case SelectDb(_) => NumberNote(cfg, now, f, n, t);
    case ExpireMs(_) => ExpiryNote(cfg, now, f, n, t);
    case ExpireSeconds(_) => ExpiryNote(cfg, now, f, n, t);
  }

  lemma NoLengths(t: Bytes)
    ensures SkipLengths(t, 0) == Some(t)
  {}

  lemma KeyRead(cfg: Settings, now: int, f: Fields, key: StringForm, v: ValueForm, t: Bytes)
    requires ValidString(key) && ValidValue(cfg, v)
    ensures Execute(cfg, now, f, ValueType(v), EncodeString(key) + (EncodeAny(cfg, v) + t)) ==
      More(Entries(cfg, f, Text(key), ValueType(v), EncodeAny(cfg, v), ValueCommands(cfg, Text(key), v)),
          f.(expireMs := 0), t)
  {
    hide ReadString, EncodeString, Text, ReadValue, EncodeAny, ValueCommands, Entries, Captured, ValueType,
      ValidValue, ValidString;
    ReadStringInverts(key, EncodeAny(cfg, v) + t);
    ValueRead(cfg, v, Text(key), t);
    TypesApart(cfg, v);
  }

  // ----- the file -----

  ghost function NotesSend(ns: seq<Note>): seq<Entry>
    requires ValidNotes(ns)
    decreases |ns|
  {
    if ns == [] then [] else NoteSends(ns[0]) + NotesSend(ns[1..])
  }

  ghost function AfterNotes(f: Fields, ns: seq<Note>, clock: seq<int>): Fields
    requires ValidNotes(ns) && |ns| <= |clock|
    decreases |ns|
  {
    if ns == [] then f else AfterNotes(AfterNote(f, ns[0], clock[0]), ns[1..], clock[1..])
  }

  /** The number of the last expiry among the notes. */
  ghost function LastExpiry(ns: seq<Note>): (j: Option<nat>)
    ensures j.None? ==> forall i :: 0 <= i < |ns| ==> !IsExpiry(ns[i])
    ensures j.Some? ==> j.value < |ns| && IsExpiry(ns[j.value]) && forall i :: j.value < i < |ns| ==> !IsExpiry(ns[i])
    decreases |ns|
  {
    if ns == [] then None
    else if IsExpiry(ns[|ns| - 1]) then Some(|ns| - 1)
    else LastExpiry(ns[..|ns| - 1])
  }

  /** The time to live that the notes before a key give it: what the last expiry among them leaves at its own
      time, none without one. */
  ghost function Ttl(ns: seq<Note>, clock: seq<int>): int
    requires |ns| <= |clock|
  {
    match LastExpiry(ns)
    case None => 0
    case Some(j) => Left(ns[j], clock[j])
  }

  lemma LastExpiryFront(ns: seq<Note>)
    requires ns != []
    ensures LastExpiry(ns) ==
      match LastExpiry(ns[1..])
      case Some(j) => Some(j + 1)
      case None => if IsExpiry(ns[0]) then Some(0) else None
  {
    hide IsExpiry;
    var rest := ns[1..];
    assert forall i :: 0 < i < |ns| ==> ns[i] == rest[i - 1];
    var a, b := LastExpiry(ns), LastExpiry(rest);
    if b.Some? { assert ns[b.value + 1] == rest[b.value]; }
    if a.Some? && a.value > 0 { assert rest[a.value - 1] == ns[a.value]; }
  }

  /** After the notes the time to live is that of the last expiry, or what it was without one. */
  lemma {:induction false} TtlAfterNotes(f: Fields, ns: seq<Note>, clock: seq<int>)
    requires ValidNotes(ns) && |ns| <= |clock|
    ensures AfterNotes(f, ns, clock).expireMs == if LastExpiry(ns).None? then f.expireMs else Ttl(ns, clock)
    decreases |ns|
  {
    hide ValidNote, Left, LastExpiry, Text, ParseInt, Wrap;
    if ns == [] {
      NoExpiries(ns);
    } else {
      LastExpiryFront(ns);
      TtlAfterNotes(AfterNote(f, ns[0], clock[0]), ns[1..], clock[1..]);
      var b := LastExpiry(ns[1..]);
      if b.Some? { assert ns[1..][b.value] == ns[b.value + 1] && clock[1..][b.value] == clock[b.value + 1]; }
    }
  }

  lemma NoExpiries(ns: seq<Note>)
    requires ns == []
    ensures LastExpiry(ns).None?
  {}

  /** One turn of the loop. */
  lemma ParseStep(cfg: Settings, clock: seq<int>, f: Fields, s: Bytes, e: Effect)
    requires clock != [] && s != [] && s[0] != 255 && e.More? && Execute(cfg, clock[0], f, s[0], s[1..]) == e
    ensures Parse(cfg, clock, f, s) == After(e.sent, Parse(cfg, clock[1..], e.fields, e.rest))
  {
    hide Execute;
  }

  lemma {:induction false} NotesRead(cfg: Settings, clock: seq<int>, f: Fields, ns: seq<Note>, t: Bytes)
    requires ValidNotes(ns) && |ns| <= |clock|
    ensures Parse(cfg, clock, f, EncodeNotes(ns) + t) ==
      After(NotesSend(ns), Parse(cfg, clock[|ns|..], AfterNotes(f, ns, clock), t))
    decreases |ns|
  {
    hide Execute, Parse, NoteSends, AfterNote, EncodeNote, ValidNote;
    if ns == [] {
      assert [] + t == t && clock[0..] == clock;
      assert After([], Parse(cfg, clock, f, t)) == Parse(cfg, clock, f, t);
    } else {
      var s, tail := EncodeNotes(ns) + t, EncodeNotes(ns[1..]) + t;
      var g := AfterNote(f, ns[0], clock[0]);
      assert s == EncodeNote(ns[0]) + tail;
      NoteRead(cfg, clock[0], f, ns[0], tail);
      ParseStep(cfg, clock, f, s, More(NoteSends(ns[0]), g, tail));
      NotesRead(cfg, clock[1..], g, ns[1..], t);
      assert clock[1..][|ns| - 1..] == clock[|ns|..];
      AfterMore(NoteSends(ns[0]), NotesSend(ns[1..]), Parse(cfg, clock[|ns|..], AfterNotes(f, ns, clock), t));
    }
  }

  ghost predicate ValidRecord(cfg: Settings, r: Record) {
    ValidNotes(r.notes) && ValidString(r.key) && ValidValue(cfg, r.value)
  }

  ghost predicate ValidRecords(cfg: Settings, rs: seq<Record>) { forall i :: 0 <= i < |rs| ==> ValidRecord(cfg, rs[i]) }

  /** The type byte, the key and the value. */
  ghost function EncodeKeyed(cfg: Settings, r: Record): Bytes
    requires ValidRecord(cfg, r)
  {
    TypesApart(cfg, r.value);
    [ValueType(r.value)] + EncodeString(r.key) + EncodeAny(cfg, r.value)
  }

  ghost function EncodeRecord(cfg: Settings, r: Record): Bytes
    requires ValidRecord(cfg, r)
  {
    EncodeNotes(r.notes) + EncodeKeyed(cfg, r)
  }

  ghost function EncodeRecords(cfg: Settings, rs: seq<Record>): Bytes
    requires ValidRecords(cfg, rs)
    decreases |rs|
  {
    if rs == [] then [] else EncodeRecord(cfg, rs[0]) + EncodeRecords(cfg, rs[1..])
  }

  /** How many opcodes a record has. */
  function Opcodes(r: Record): nat { |r.notes| + 1 }

  function AllOpcodes(rs: seq<Record>): nat
    decreases |rs|
  {
    if rs == [] then 0 else Opcodes(rs[0]) + AllOpcodes(rs[1..])
  }

  /** What a record calls for, from its own notes and its own value; `f` tells the database before it and `clock`
      the time at each of its opcodes. */
  ghost function RecordSends(cfg: Settings, clock: seq<int>, f: Fields, r: Record): seq<Entry>
    requires ValidRecord(cfg, r) && Opcodes(r) <= |clock|
  {
    var g := AfterNotes(f, r.notes, clock).(expireMs := Ttl(r.notes, clock));
    NotesSend(r.notes) + KeySends(cfg, g, r)
  }

  ghost function KeySends(cfg: Settings, g: Fields, r: Record): seq<Entry>
    requires ValidRecord(cfg, r)
  {
    var key := Text(r.key);
    Entries(cfg, g, key, ValueType(r.value), EncodeAny(cfg, r.value), ValueCommands(cfg, key, r.value))
  }

  /** The fields behind a record: the expiry is used up. */
  ghost function AfterRecord(cfg: Settings, clock: seq<int>, f: Fields, r: Record): Fields
    requires ValidRecord(cfg, r) && Opcodes(r) <= |clock|
  {
    AfterNotes(f, r.notes, clock).(expireMs := 0)
  }

  ghost function RecordsSend(cfg: Settings, clock: seq<int>, f: Fields, rs: seq<Record>): seq<Entry>
    requires ValidRecords(cfg, rs) && AllOpcodes(rs) <= |clock|
    decreases |rs|
  {
    if rs == [] then []
    else
      RecordSends(cfg, clock, f, rs[0])
        + RecordsSend(cfg, clock[Opcodes(rs[0])..], AfterRecord(cfg, clock, f, rs[0]), rs[1..])
  }

  ghost function AfterRecords(cfg: Settings, clock: seq<int>, f: Fields, rs: seq<Record>): Fields
    requires ValidRecords(cfg, rs) && AllOpcodes(rs) <= |clock|
    decreases |rs|
  {
    if rs == [] then f else AfterRecords(cfg, clock[Opcodes(rs[0])..], AfterRecord(cfg, clock, f, rs[0]), rs[1..])
  }

  lemma KeyedRead(cfg: Settings, clock: seq<int>, f: Fields, r: Record, t: Bytes)
    requires ValidRecord(cfg, r) && clock != []
    ensures Parse(cfg, clock, f, EncodeKeyed(cfg, r) + t) ==
      After(KeySends(cfg, f, r), Parse(cfg, clock[1..], f.(expireMs := 0), t))
  {
    hide Execute, Parse, After, Entries, EncodeAny, ValueCommands, EncodeString, Text, ValueType, ValidValue,
      ValidString, ValidNotes;
    TypesApart(cfg, r.value);
    var s := EncodeKeyed(cfg, r) + t;
    assert s[1..] == EncodeString(r.key) + (EncodeAny(cfg, r.value) + t);
    KeyRead(cfg, clock[0], f, r.key, r.value, t);
    ParseStep(cfg, clock, f, s, Execute(cfg, clock[0], f, s[0], s[1..]));
  }

  lemma RecordRead(cfg: Settings, clock: seq<int>, f: Fields, r: Record, t: Bytes)
    requires ValidRecord(cfg, r) && Opcodes(r) <= |clock| && f.expireMs == 0
    ensures Parse(cfg, clock, f, EncodeRecord(cfg, r) + t) ==
      After(RecordSends(cfg, clock, f, r), Parse(cfg, clock[Opcodes(r)..], AfterRecord(cfg, clock, f, r), t))
  {
    hide Parse, KeySends, ValidValue, ValidString, EncodeKeyed, EncodeNotes, ValidNotes, NotesSend, AfterNotes, Left;
    var keyed := EncodeKeyed(cfg, r) + t;
    var k := |r.notes|;
    assert EncodeRecord(cfg, r) + t == EncodeNotes(r.notes) + keyed;
    NotesRead(cfg, clock, f, r.notes, keyed);
    var g := AfterNotes(f, r.notes, clock);
    TtlAfterNotes(f, r.notes, clock);
    KeyedRead(cfg, clock[k..], g, r, t);
    assert clock[k..][1..] == clock[Opcodes(r)..];
    AfterMore(NotesSend(r.notes), KeySends(cfg, g, r), Parse(cfg, clock[Opcodes(r)..], g.(expireMs := 0), t));
  }

  /** A whole file: every key is sent in its place, in the database chosen last before it, with the time that the
      last expiry since the key before leaves it and none other's, and with exactly the bytes of its own value;
      loading ends at the end-of-file opcode and touches nothing behind it. */
  lemma {:induction false} FileIsSentKeyByKey(
      cfg: Settings, clock: seq<int>, f: Fields, rs: seq<Record>, notes: seq<Note>, t: Bytes)
    requires ValidRecords(cfg, rs) && ValidNotes(notes) && f.expireMs == 0
    requires AllOpcodes(rs) + |notes| < |clock|
    ensures Parse(cfg, clock, f, EncodeRecords(cfg, rs) + (EncodeNotes(notes) + ([255] + t))) ==
      Load(RecordsSend(cfg, clock, f, rs) + NotesSend(notes),
           Eof(AfterNotes(AfterRecords(cfg, clock, f, rs), notes, clock[AllOpcodes(rs)..]), t))
    decreases |rs|
  {
    hide Execute, Parse, RecordSends, AfterRecord, EncodeRecord, EncodeNotes, ValidRecord, ValidNotes, NotesSend,
      AfterNotes;
    var tail := EncodeNotes(notes) + ([255] + t);
    if rs == [] {
      assert [] + tail == tail && clock[0..] == clock;
      NotesRead(cfg, clock, f, notes, [255] + t);
      EofRead(cfg, clock[|notes|..], AfterNotes(f, notes, clock), t);
      assert NotesSend(notes) + [] == [] + NotesSend(notes);
    } else {
      var k, rest := Opcodes(rs[0]), EncodeRecords(cfg, rs[1..]) + tail;
      var g := AfterRecord(cfg, clock, f, rs[0]);
      assert EncodeRecords(cfg, rs) + tail == EncodeRecord(cfg, rs[0]) + rest;
      RecordRead(cfg, clock, f, rs[0], rest);
      ExpiryUsedUp(cfg, clock, f, rs[0]);
      FileIsSentKeyByKey(cfg, clock[k..], g, rs[1..], notes, t);
      assert clock[k..][AllOpcodes(rs[1..])..] == clock[AllOpcodes(rs)..];
      var a, b := RecordSends(cfg, clock, f, rs[0]), RecordsSend(cfg, clock[k..], g, rs[1..]);
      assert a + (b + NotesSend(notes)) == (a + b) + NotesSend(notes);
    }
  }

  lemma ExpiryUsedUp(cfg: Settings, clock: seq<int>, f: Fields, r: Record)
    requires ValidRecord(cfg, r) && Opcodes(r) <= |clock|
    ensures AfterRecord(cfg, clock, f, r).expireMs == 0
  {}

  lemma EofRead(cfg: Settings, clock: seq<int>, f: Fields, t: Bytes)
    requires clock != []
    ensures Parse(cfg, clock, f, [255] + t) == Load([], Eof(f, t))
  {
    assert ([255] + t)[1..] == t;
  }

  /** The instant of an expiry, in milliseconds. */
  ghost function Instant(n: Note): int
    requires IsExpiry(n)
  {
    if n.ExpireMs? then n.at else n.at * 1000
  }

  lemma ZeroExactlyNow(n: Note, now: int)
    requires ValidNote(n) && IsExpiry(n) && 0 <= now && Int64(now)
    ensures Left(n, now) >= 0 && (Left(n, now) == 0 <==> Instant(n) == now)
  {
    hide Wrap;
    var at := if n.ExpireMs? then Wrap(n.at) else n.at * 1000;
    var j := WrapByTurns(n.at);
    var k := WrapByTurns(at - now);
    WrapInside(0);
    if Instant(n) == now { WrapInside(n.at * (if n.ExpireMs? then 1 else 1000)); }
  }

  /** What is sent for a key with an expiry, in either form: the RESTORE carries the time left, or the commands
      end in a PEXPIRE of it, except in the very millisecond of the expiry.  Then, and only then, the RESTORE
      carries zero and there is no PEXPIRE, and the key will never expire on the target. */
  lemma ExpiringNowIsKept(cfg: Settings, clock: seq<int>, f: Fields, r: Record)
    requires ValidRecord(cfg, r) && Opcodes(r) <= |clock| && LastExpiry(r.notes).Some?
    requires var now := clock[LastExpiry(r.notes).value]; 0 <= now && Int64(now)
    ensures var j := LastExpiry(r.notes).value; var sent := RecordSends(cfg, clock, f, r);
      && sent != [] && var last := sent[|sent| - 1]; var isNow := Instant(r.notes[j]) == clock[j];
      && (|EncodeAny(cfg, r.value)| + 11 <= cfg.maxBulk ==>
            last.Restore? && last.key == Text(r.key) && last.pttl >= 0 && (last.pttl == 0 <==> isNow))
      && (|EncodeAny(cfg, r.value)| + 11 > cfg.maxBulk ==> (last.PExpire? <==> !isNow))
  {
    hide EncodeAny, ValueCommands, Text, ValueType, ValidValue, ValidString, NotesSend, AfterNotes, Left, LastExpiry;
    var j := LastExpiry(r.notes).value;
    ZeroExactlyNow(r.notes[j], clock[j]);
    SomeCommands(cfg, Text(r.key), r.value);
  }

  lemma SomeCommands(cfg: Settings, key: Bytes, v: ValueForm)
    requires ValidValue(cfg, v)
    ensures ValueCommands(cfg, key, v) != []
  {}
}
