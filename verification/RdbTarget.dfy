/** What a whole file does to a target: the entries that the loader sends, run on a server with many databases,
    leave exactly the values of the file at its keys. */
module RdbTarget {
  import opened Basics
  import opened RdbStrings
  import opened RewriteTarget
  import opened Rewrite
  import opened RewriteProof
  import opened RdbLoader
  import opened RdbLoaderProof

  /** The databases of a server by number, and the time to live of the keys that have one. */
  datatype Server = Server(dbs: map<int, Db>, ttls: map<(int, Bytes), int>)

  function DbAt(s: Server, n: int): Db { if n in s.dbs then s.dbs[n] else map[] }

  function WithDb(s: Server, n: int, db: Db): Server { s.(dbs := s.dbs[n := db]) }

  /** The value at a key, with its time to live; zero if it has none. */
  function Put(s: Server, n: int, key: Bytes, v: Value, ttl: int): Server {
    Server(s.dbs[n := DbAt(s, n)[key := v]], if ttl == 0 then s.ttls - {(n, key)} else s.ttls[(n, key) := ttl])
  }

  /** What a dump of a type and a value stands for, if it is one: what its bytes, read to the last, build from
      nothing. */
  function Decoded(valkey: bool, typeByte: int, value: Bytes): Option<Value> {
    var out := ReadValue(typeByte, valkey, [], value);
    if out.left != Some([]) then None
    else
      match RunAll(map[], out.sent)
      case None => None
      case Some(db) => if [] in db then Some(db[[]]) else None
  }

  /** `None` when the server refuses. */
  function Exec(valkey: bool, s: Server, e: Entry): Option<Server> {
    match e
    case Restore(n, key, pttl, typeByte, value, replace) =>
      if key in DbAt(s, n) && !replace then None
      else (match Decoded(valkey, typeByte, value) case None => None case Some(v) => Some(Put(s, n, key, v, pttl)))
    case Command(n, cmd) =>
      (match Apply(DbAt(s, n), cmd)
       case None => None
       case Some(db) =>
         var next := WithDb(s, n, db);
         Some(if cmd.Del? || cmd.Set? then next.(ttls := s.ttls - {(n, cmd.key)}) else next))
    case Delete(n, key) => Some(Server(s.dbs[n := DbAt(s, n) - {key}], s.ttls - {(n, key)}))
    case PExpire(n, key, ms) => Some(if key in DbAt(s, n) then s.(ttls := s.ttls[(n, key) := ms]) else s)
    case FunctionLoad(_) => Some(s)
    case ScriptLoad(_) => Some(s)
  }

  function ExecAll(valkey: bool, s: Server, es: seq<Entry>): Option<Server>
    decreases |es|
  {
    if es == [] then Some(s)
    else
      match Exec(valkey, s, es[0])
      case None => None
      case Some(next) => ExecAll(valkey, next, es[1..])
  }

  lemma {:induction false} ExecAppend(valkey: bool, s: Server, a: seq<Entry>, b: seq<Entry>)
    ensures ExecAll(valkey, s, a + b) ==
      match ExecAll(valkey, s, a) { case None => None case Some(next) => ExecAll(valkey, next, b) }
    decreases |a|
  {
    hide Exec;
    if a == [] {
      assert a + b == b;
    } else {
      assert (a + b)[0] == a[0] && (a + b)[1..] == a[1..] + b;
      match Exec(valkey, s, a[0])
      case None =>
      case Some(next) => ExecAppend(valkey, next, a[1..], b);
    }
  }

  // ----- one value -----

  ghost function ValueMeant(cfg: Settings, v: ValueForm): Value
    requires ValidValue(cfg, v)
  {
    match v
    case OfString(text) => StringV(Text(text))
    case OfCollection(kind, e) => Collection(kind, ValueElements(kind, e))
    case OfHash(h) => HashV(Fold(map[], HashMeant(h)))
  }

  /** The commands of a value build it from any content of a database. */
  lemma CommandsBuild(cfg: Settings, db: Db, key: Bytes, v: ValueForm)
    requires ValidValue(cfg, v)
    ensures RunAll(db, ValueCommands(cfg, key, v)) == Some(Stored(db, key, ValueMeant(cfg, v)))
  {
    hide ValidEncoding, ValidHash, ValidString, Text, ValueElements, HashMeant, HashType, TypeByte, SendAll,
      SendFields, Fold, Collection, Stored, Apply;
    match v
    case OfString(text) => SetOne(db, key, Text(text));
    case OfCollection(kind, e) => DelAndSendAll(db, kind, key, ValueElements(kind, e));
    case OfHash(h) =>
      MeantExpiries(h);
      FieldsBuild(db, key, HashMeant(h));
  }

  lemma SetOne(db: Db, key: Bytes, text: Bytes)
    ensures RunAll(db, [Set(key, text)]) == Some(Stored(db, key, StringV(text)))
  {
    assert [Set(key, text)][1..] == [];
    assert RunAll(db[key := StringV(text)], []) == Some(db[key := StringV(text)]);
  }

  lemma FieldsBuild(db: Db, key: Bytes, fs: seq<FieldAt>)
    requires Expiries(fs)
    ensures RunAll(db, [Del(key)] + SendFields(key, fs)) == Some(Stored(db, key, HashV(Fold(map[], fs))))
  {
    hide SendFields, Fold;
    SendFieldsBuilds(db, key, map[], fs);
    assert ([Del(key)] + SendFields(key, fs))[1..] == SendFields(key, fs);
    assert Stored(db, key, HashV(map[])) == db - {key};
  }

  /** A value that is not an empty collection, which no file holds. */
  ghost predicate Holds(cfg: Settings, v: ValueForm)
    requires ValidValue(cfg, v)
  {
    !Empty(ValueMeant(cfg, v))
  }

  /** The captured bytes are a dump of the value. */
  lemma DumpMeans(cfg: Settings, v: ValueForm)
    requires ValidValue(cfg, v) && Holds(cfg, v)
    ensures Decoded(cfg.valkey, ValueType(v), EncodeAny(cfg, v)) == Some(ValueMeant(cfg, v))
  {
    hide ReadValue, EncodeAny, ValueCommands, ValueMeant, RunAll, ValueType, ValidValue;
    ValueRead(cfg, v, [], []);
    assert EncodeAny(cfg, v) + [] == EncodeAny(cfg, v);
    CommandsBuild(cfg, map[], [], v);
  }

  // ----- commands in one database -----

  ghost predicate AllOf(key: Bytes, cmds: seq<Cmd>) { forall i :: 0 <= i < |cmds| ==> cmds[i].key == key }

  /** Commands on one key, behind one that deletes it, do to the server what they do to its database. */
  lemma {:induction false} CommandsRun(valkey: bool, s: Server, n: int, key: Bytes, cmds: seq<Cmd>)
    requires AllOf(key, cmds) && RunAll(DbAt(s, n), cmds).Some? && (n, key) !in s.ttls && cmds != []
    ensures ExecAll(valkey, s, Commands(n, cmds)) == Some(WithDb(s, n, RunAll(DbAt(s, n), cmds).value))
    decreases |cmds|
  {
    hide Apply;
    var es := Commands(n, cmds);
    var next := WithDb(s, n, Apply(DbAt(s, n), cmds[0]).value);
    assert s.ttls - {(n, key)} == s.ttls;
    assert Exec(valkey, s, es[0]) == Some(next);
    assert es[1..] == Commands(n, cmds[1..]);
    assert DbAt(next, n) == Apply(DbAt(s, n), cmds[0]).value;
    if |cmds| == 1 {
      assert cmds[1..] == [];
      assert ExecAll(valkey, next, []) == Some(next);
    } else {
      CommandsRun(valkey, next, n, key, cmds[1..]);
      var last := RunAll(DbAt(next, n), cmds[1..]).value;
      assert WithDb(next, n, last) == WithDb(s, n, last);
    }
  }

  lemma CommandsOfOne(cfg: Settings, key: Bytes, v: ValueForm)
    requires ValidValue(cfg, v)
    ensures AllOf(key, ValueCommands(cfg, key, v)) && ValueCommands(cfg, key, v) != []
    ensures var first := ValueCommands(cfg, key, v)[0]; first.Del? || first.Set?
  {
    hide ValidEncoding, ValidHash, ValidString, Text, ValueElements, HashMeant, HashType, TypeByte;
    if v.OfHash? { FieldsOfOne(key, HashMeant(v.hash)); }
  }

  lemma {:induction false} FieldsOfOne(key: Bytes, fs: seq<FieldAt>)
    ensures AllOf(key, SendFields(key, fs))
    decreases |fs|
  {
    hide FormatInt;
    if fs != [] { FieldsOfOne(key, fs[1..]); }
  }

  /** The first command takes the old time to live away. */
  lemma FirstClears(valkey: bool, s: Server, n: int, key: Bytes, cmds: seq<Cmd>)
    requires cmds != [] && AllOf(key, cmds) && (cmds[0].Del? || cmds[0].Set?)
    ensures ExecAll(valkey, s, Commands(n, cmds)) == ExecAll(valkey, s.(ttls := s.ttls - {(n, key)}), Commands(n, cmds))
  {
    var s' := s.(ttls := s.ttls - {(n, key)});
    var es := Commands(n, cmds);
    assert es[0] == Command(n, cmds[0]) && cmds[0].key == key;
    assert s'.ttls - {(n, key)} == s.ttls - {(n, key)};
    assert Exec(valkey, s, es[0]) == Exec(valkey, s', es[0]);
  }

  /** A value sent by commands arrives like one that is put there. */
  lemma CommandsPut(cfg: Settings, s: Server, n: int, key: Bytes, v: ValueForm)
    requires ValidValue(cfg, v) && Holds(cfg, v)
    ensures ExecAll(cfg.valkey, s, Commands(n, ValueCommands(cfg, key, v))) ==
        Some(Put(s, n, key, ValueMeant(cfg, v), 0))
  {
    hide ExecAll, ValueCommands, ValueMeant, ValidValue, RunAll, AllOf;
    var cmds, clear := ValueCommands(cfg, key, v), s.(ttls := s.ttls - {(n, key)});
    CommandsOfOne(cfg, key, v);
    FirstClears(cfg.valkey, s, n, key, cmds);
    CommandsBuild(cfg, DbAt(clear, n), key, v);
    CommandsRun(cfg.valkey, clear, n, key, cmds);
  }

  // ----- one key -----

  /** The entries of a key put its value there, with its time to live: by RESTORE, or by commands if the value is
      too large.  Only a RESTORE without replacement asks for the key to be absent. */
  lemma KeyPut(cfg: Settings, s: Server, g: Fields, r: Record)
    requires ValidRecord(cfg, r) && Holds(cfg, r.value) && g.expireMs >= 0
    requires cfg.replace || Text(r.key) !in DbAt(s, g.nowDb)
    ensures ExecAll(cfg.valkey, s, KeySends(cfg, g, r)) ==
      Some(Put(s, g.nowDb, Text(r.key), ValueMeant(cfg, r.value), g.expireMs))
  {
    hide ValueCommands, ValueMeant, ValidValue, EncodeAny, ValueType, Text, ValidNotes, ValidString, Decoded, ExecAll,
      Commands, Holds;
    var key, v, n := Text(r.key), ValueMeant(cfg, r.value), g.nowDb;
    if |EncodeAny(cfg, r.value)| + 11 > cfg.maxBulk {
      var pre := if cfg.replace then [Delete(n, key)] else [];
      var cmds := Commands(n, ValueCommands(cfg, key, r.value));
      var post := if g.expireMs != 0 then [PExpire(n, key, g.expireMs)] else [];
      assert KeySends(cfg, g, r) == pre + cmds + post;
      ExecAppend(cfg.valkey, s, pre + cmds, post);
      ExecAppend(cfg.valkey, s, pre, cmds);
      Prelude(cfg, s, n, key, pre);
      var t := ExecAll(cfg.valkey, s, pre).value;
      CommandsPut(cfg, t, n, key, r.value);
      PutOver(s, t, n, key, v);
      Postlude(cfg, s, n, key, v, g.expireMs, post);
    } else {
      DumpMeans(cfg, r.value);
      One(cfg.valkey, s, KeySends(cfg, g, r)[0]);
    }
  }

  lemma One(valkey: bool, s: Server, e: Entry)
    ensures ExecAll(valkey, s, [e]) == Exec(valkey, s, e)
  {
    hide Exec;
    assert [e][1..] == [];
    if Exec(valkey, s, e).Some? { assert ExecAll(valkey, Exec(valkey, s, e).value, []) == Exec(valkey, s, e); }
  }

  /** The server as it was, or without the key. */
  ghost predicate SameBut(s: Server, t: Server, n: int, key: Bytes) {
    t == s || t == Server(s.dbs[n := DbAt(s, n) - {key}], s.ttls - {(n, key)})
  }

  lemma Prelude(cfg: Settings, s: Server, n: int, key: Bytes, pre: seq<Entry>)
    requires pre == [] || pre == [Delete(n, key)]
    ensures var t := ExecAll(cfg.valkey, s, pre); t.Some? && SameBut(s, t.value, n, key)
  {
    if pre != [] { One(cfg.valkey, s, Delete(n, key)); }
  }

  lemma PutOver(s: Server, t: Server, n: int, key: Bytes, v: Value)
    requires SameBut(s, t, n, key)
    ensures Put(t, n, key, v, 0) == Put(s, n, key, v, 0)
  {
    assert (DbAt(s, n) - {key})[key := v] == DbAt(s, n)[key := v];
    assert s.ttls - {(n, key)} - {(n, key)} == s.ttls - {(n, key)};
    if t != s {
      assert s.dbs[n := DbAt(s, n) - {key}][n := DbAt(s, n)[key := v]] == s.dbs[n := DbAt(s, n)[key := v]];
    }
  }

  lemma Postlude(cfg: Settings, s: Server, n: int, key: Bytes, v: Value, ttl: int, post: seq<Entry>)
    requires post == if ttl != 0 then [PExpire(n, key, ttl)] else []
    ensures ExecAll(cfg.valkey, Put(s, n, key, v, 0), post) == Some(Put(s, n, key, v, ttl))
  {
    if ttl != 0 {
      One(cfg.valkey, Put(s, n, key, v, 0), PExpire(n, key, ttl));
      assert (s.ttls - {(n, key)})[(n, key) := ttl] == s.ttls[(n, key) := ttl];
    }
  }

  // ----- the file -----

  lemma {:induction false} NotesRun(valkey: bool, s: Server, ns: seq<Note>)
    requires ValidNotes(ns)
    ensures ExecAll(valkey, s, NotesSend(ns)) == Some(s)
    decreases |ns|
  {
    hide ValidNote, Text;
    if ns != [] {
      ExecAppend(valkey, s, NoteSends(ns[0]), NotesSend(ns[1..]));
      if NoteSends(ns[0]) != [] { One(valkey, s, NoteSends(ns[0])[0]); }
      NotesRun(valkey, s, ns[1..]);
    }
  }

  /** A key of the file: its database, its name, its value and its time to live. */
  datatype Placed = Placed(db: int, key: Bytes, v: Value, ttl: int)

  ghost predicate HoldsAll(cfg: Settings, rs: seq<Record>)
    requires ValidRecords(cfg, rs)
  {
    forall i :: 0 <= i < |rs| ==> Holds(cfg, rs[i].value)
  }

  ghost function PlaceOf(cfg: Settings, clock: seq<int>, f: Fields, r: Record): Placed
    requires ValidRecord(cfg, r) && Opcodes(r) <= |clock|
  {
    Placed(AfterNotes(f, r.notes, clock).nowDb, Text(r.key), ValueMeant(cfg, r.value), Ttl(r.notes, clock))
  }

  /** What the file says, key by key. */
  ghost function Places(cfg: Settings, clock: seq<int>, f: Fields, rs: seq<Record>): (ps: seq<Placed>)
    requires ValidRecords(cfg, rs) && AllOpcodes(rs) <= |clock|
    ensures |ps| == |rs|
    decreases |rs|
  {
    if rs == [] then []
    else
      var more := Places(cfg, clock[Opcodes(rs[0])..], AfterRecord(cfg, clock, f, rs[0]), rs[1..]);
      [PlaceOf(cfg, clock, f, rs[0])] + more
  }

  ghost function PutAll(s: Server, ps: seq<Placed>): Server
    decreases |ps|
  {
    if ps == [] then s else PutAll(Put(s, ps[0].db, ps[0].key, ps[0].v, ps[0].ttl), ps[1..])
  }

  ghost predicate DistinctKeys(ps: seq<Placed>) {
    forall i, j :: 0 <= i < j < |ps| ==> (ps[i].db, ps[i].key) != (ps[j].db, ps[j].key)
  }

  ghost predicate Absent(s: Server, ps: seq<Placed>) {
    forall i :: 0 <= i < |ps| ==> ps[i].key !in DbAt(s, ps[i].db)
  }

  /** A time left is never negative. */
  lemma TtlIsNeverNegative(ns: seq<Note>, clock: seq<int>)
    requires |ns| <= |clock|
    ensures Ttl(ns, clock) >= 0
  {
    hide Wrap;
  }

  lemma RecordPut(cfg: Settings, clock: seq<int>, f: Fields, r: Record, s: Server)
    requires ValidRecord(cfg, r) && Holds(cfg, r.value) && Opcodes(r) <= |clock|
    requires var p := PlaceOf(cfg, clock, f, r); cfg.replace || p.key !in DbAt(s, p.db)
    ensures var p := PlaceOf(cfg, clock, f, r);
      ExecAll(cfg.valkey, s, RecordSends(cfg, clock, f, r)) == Some(Put(s, p.db, p.key, p.v, p.ttl))
  {
    hide ExecAll, KeySends, NotesSend, AfterNotes, Ttl, ValueMeant, Text, ValidValue, Holds;
    var g := AfterNotes(f, r.notes, clock).(expireMs := Ttl(r.notes, clock));
    NotesRun(cfg.valkey, s, r.notes);
    ExecAppend(cfg.valkey, s, NotesSend(r.notes), KeySends(cfg, g, r));
    TtlIsNeverNegative(r.notes, clock);
    KeyPut(cfg, s, g, r);
  }

  lemma StillAbsent(s: Server, ps: seq<Placed>)
    requires ps != [] && DistinctKeys(ps) && Absent(s, ps)
    ensures Absent(Put(s, ps[0].db, ps[0].key, ps[0].v, ps[0].ttl), ps[1..])
  {
    var p, t := ps[0], Put(s, ps[0].db, ps[0].key, ps[0].v, ps[0].ttl);
    forall i | 0 <= i < |ps[1..]|
      ensures ps[1..][i].key !in DbAt(t, ps[1..][i].db)
    {
      assert ps[1..][i] == ps[i + 1];
      assert (p.db, p.key) != (ps[i + 1].db, ps[i + 1].key);
      assert ps[i + 1].key !in DbAt(s, ps[i + 1].db);
    }
  }

  /** What the file sends puts its keys one after the other. */
  lemma {:induction false} FilePuts(cfg: Settings, clock: seq<int>, f: Fields, rs: seq<Record>, s: Server)
    requires ValidRecords(cfg, rs) && HoldsAll(cfg, rs) && AllOpcodes(rs) <= |clock|
    requires var ps := Places(cfg, clock, f, rs); DistinctKeys(ps) && (cfg.replace || Absent(s, ps))
    ensures ExecAll(cfg.valkey, s, RecordsSend(cfg, clock, f, rs)) == Some(PutAll(s, Places(cfg, clock, f, rs)))
    decreases |rs|
  {
    hide RecordSends, AfterRecord, PlaceOf, ValidRecord, Holds, Put, Absent;
    if rs != [] {
      var ps, p := Places(cfg, clock, f, rs), PlaceOf(cfg, clock, f, rs[0]);
      var clock', f' := clock[Opcodes(rs[0])..], AfterRecord(cfg, clock, f, rs[0]);
      var more := Places(cfg, clock', f', rs[1..]);
      assert ps[0] == p && ps[1..] == more;
      var t := Put(s, p.db, p.key, p.v, p.ttl);
      if !cfg.replace {
        FirstAbsent(s, ps);
        StillAbsent(s, ps);
      }
      RecordPut(cfg, clock, f, rs[0], s);
      ExecAppend(cfg.valkey, s, RecordSends(cfg, clock, f, rs[0]), RecordsSend(cfg, clock', f', rs[1..]));
      FewerDistinct(ps);
      FilePuts(cfg, clock', f', rs[1..], t);
    }
  }

  lemma FirstAbsent(s: Server, ps: seq<Placed>)
    requires ps != [] && Absent(s, ps)
    ensures ps[0].key !in DbAt(s, ps[0].db)
  {}

  lemma FewerDistinct(ps: seq<Placed>)
    requires ps != [] && DistinctKeys(ps)
    ensures DistinctKeys(ps[1..])
  {
    forall i, j | 0 <= i < j < |ps[1..]|
      ensures (ps[1..][i].db, ps[1..][i].key) != (ps[1..][j].db, ps[1..][j].key)
    {
      assert ps[1..][i] == ps[i + 1] && ps[1..][j] == ps[j + 1];
    }
  }

  /** The value and the time to live at a key. */
  function At(s: Server, n: int, key: Bytes): (Option<Value>, int) {
    (if key in DbAt(s, n) then Some(DbAt(s, n)[key]) else None, if (n, key) in s.ttls then s.ttls[(n, key)] else 0)
  }

  lemma PutAt(s: Server, p: Placed, n: int, key: Bytes)
    ensures At(Put(s, p.db, p.key, p.v, p.ttl), n, key) ==
      if (n, key) == (p.db, p.key) then (Some(p.v), p.ttl) else At(s, n, key)
  {}

  /** Keys that are not mentioned stay as they are, and each mentioned one, once, becomes what it is said to be. */
  lemma {:induction false} PutAllAt(s: Server, ps: seq<Placed>, n: int, key: Bytes)
    requires DistinctKeys(ps)
    ensures forall i :: 0 <= i < |ps| && (n, key) == (ps[i].db, ps[i].key) ==>
        At(PutAll(s, ps), n, key) == (Some(ps[i].v), ps[i].ttl)
    ensures (forall i :: 0 <= i < |ps| ==> (n, key) != (ps[i].db, ps[i].key)) ==>
        At(PutAll(s, ps), n, key) == At(s, n, key)
    decreases |ps|
  {
    hide Put, At;
    if ps != [] {
      var t := Put(s, ps[0].db, ps[0].key, ps[0].v, ps[0].ttl);
      FewerDistinct(ps);
      PutAllAt(t, ps[1..], n, key);
      PutAt(s, ps[0], n, key);
      assert forall i :: 0 < i < |ps| ==> ps[i] == ps[1..][i - 1];
      assert forall i :: 0 <= i < |ps[1..]| ==> ps[1..][i] == ps[i + 1];
      if (n, key) == (ps[0].db, ps[0].key) {
        forall i | 0 <= i < |ps[1..]|
          ensures (n, key) != (ps[1..][i].db, ps[1..][i].key)
        {
          assert (ps[0].db, ps[0].key) != (ps[i + 1].db, ps[i + 1].key);
        }
      }
    }
  }

  /** A whole file on any target: if its keys are distinct in their databases, and existing keys are replaced or
      there are none of them, then running what the loader sends leaves at every key of the file exactly its
      value and its time to live, and every other key as it was. */
  lemma FileIsRestored(
      cfg: Settings, clock: seq<int>, f: Fields, rs: seq<Record>, notes: seq<Note>, t: Bytes, s: Server)
    requires ValidRecords(cfg, rs) && HoldsAll(cfg, rs) && ValidNotes(notes) && f.expireMs == 0
    requires AllOpcodes(rs) + |notes| < |clock|
    requires var ps := Places(cfg, clock, f, rs); DistinctKeys(ps) && (cfg.replace || Absent(s, ps))
    ensures var ps := Places(cfg, clock, f, rs);
      var file := EncodeRecords(cfg, rs) + (EncodeNotes(notes) + ([255] + t));
      var r := ExecAll(cfg.valkey, s, Parse(cfg, clock, f, file).sent);
      && r.Some?
      && (forall i :: 0 <= i < |ps| ==> At(r.value, ps[i].db, ps[i].key) == (Some(ps[i].v), ps[i].ttl))
      && forall n, key :: (forall i :: 0 <= i < |ps| ==> (n, key) != (ps[i].db, ps[i].key)) ==>
          At(r.value, n, key) == At(s, n, key)
  {
    hide Parse, RecordsSend, NotesSend, EncodeRecords, EncodeNotes, ValidRecord, ValidNotes, AfterNotes, AfterRecords,
      ExecAll, PutAll, At, Places,
      AllOpcodes, Absent;
    var ps := Places(cfg, clock, f, rs);
    FileIsSentKeyByKey(cfg, clock, f, rs, notes, t);
    FilePuts(cfg, clock, f, rs, s);
    var last := PutAll(s, ps);
    ExecAppend(cfg.valkey, s, RecordsSend(cfg, clock, f, rs), NotesSend(notes));
    NotesRun(cfg.valkey, last, notes);
    forall n, key
      ensures forall i :: 0 <= i < |ps| && (n, key) == (ps[i].db, ps[i].key) ==>
          At(last, n, key) == (Some(ps[i].v), ps[i].ttl)
      ensures (forall i :: 0 <= i < |ps| ==> (n, key) != (ps[i].db, ps[i].key)) ==> At(last, n, key) == At(s, n, key)
    {
      PutAllAt(s, ps, n, key);
    }
  }
}
