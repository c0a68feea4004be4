/** The commands a rewritten value is turned into, and what a Redis target does with them. */
module RewriteTarget {
  import opened Basics

  datatype Cmd =
    | Del(key: Bytes)
    | Set(key: Bytes, e: Bytes)
    | RPush(key: Bytes, e: Bytes)
    | SAdd(key: Bytes, e: Bytes)
    | HSet(key: Bytes, field: Bytes, e: Bytes)
    | HPExpireAt(key: Bytes, at: Bytes, field: Bytes)

  datatype Field = Field(e: Bytes, at: Option<int>)

  datatype Value =
    | StringV(text: Bytes)
    | ListV(list: seq<Bytes>)
    | SetV(members: set<Bytes>)
    | HashV(fields: map<Bytes, Field>)
    | Other

  type Db = map<Bytes, Value>

  predicate Empty(v: Value) {
    match v
    case ListV(list) => list == []
    case SetV(members) => members == {}
    case HashV(fields) => fields == map[]
    case StringV(_) => false
    case Other => false
  }

  /** A database that differs from `db` in having `v` at `key`; an empty collection is no key at all. */
  function Stored(db: Db, key: Bytes, v: Value): Db {
    if Empty(v) then db - {key} else db[key := v]
  }

  /** `None` when the target refuses the command. */
  function Apply(db: Db, c: Cmd): Option<Db> {
    match c
    case Del(key) => Some(db - {key})
    case Set(key, e) => Some(db[key := StringV(e)])
    case RPush(key, e) =>
      if key !in db then Some(db[key := ListV([e])])
      else if db[key].ListV? then Some(db[key := ListV(db[key].list + [e])])
      else None
    case SAdd(key, e) =>
      if key !in db then Some(db[key := SetV({e})])
      else if db[key].SetV? then Some(db[key := SetV(db[key].members + {e})])
      else None
    case HSet(key, field, e) =>
      if key !in db then Some(db[key := HashV(map[field := Field(e, None)])])
      else if db[key].HashV? then Some(db[key := HashV(db[key].fields[field := Field(e, None)])])
      else None
    case HPExpireAt(key, at, field) =>
      match ParseInt(at)
      case None => None
      case Some(t) =>
        if key !in db then Some(db)
        else if !db[key].HashV? then None
        else if field !in db[key].fields then Some(db)
        else Some(db[key := HashV(db[key].fields[field := Field(db[key].fields[field].e, Some(t))])])
  }

  function RunAll(db: Db, cmds: seq<Cmd>): Option<Db>
    decreases |cmds|
  {
    if cmds == [] then Some(db)
    else
      match Apply(db, cmds[0])
      case None => None
      case Some(next) => RunAll(next, cmds[1..])
  }

  lemma {:induction false} RunAppend(db: Db, a: seq<Cmd>, b: seq<Cmd>)
    ensures RunAll(db, a + b) == match RunAll(db, a) { case None => None case Some(next) => RunAll(next, b) }
    decreases |a|
  {
    hide Apply;
    if a == [] {
      assert a + b == b;
    } else {
      assert (a + b)[0] == a[0] && (a + b)[1..] == a[1..] + b;
      match Apply(db, a[0])
      case None =>
      case Some(next) => RunAppend(next, a[1..], b);
    }
  }

  // ----- lists and sets -----

  datatype Kind = OfList | OfSet

  function One(kind: Kind, key: Bytes, e: Bytes): Cmd {
    if kind.OfList? then RPush(key, e) else SAdd(key, e)
  }

  function SendAll(kind: Kind, key: Bytes, es: seq<Bytes>): (cmds: seq<Cmd>)
    ensures |cmds| == |es| && forall i :: 0 <= i < |es| ==> cmds[i] == One(kind, key, es[i])
  {
    seq(|es|, i requires 0 <= i < |es| => One(kind, key, es[i]))
  }

  function Members(es: seq<Bytes>): set<Bytes> { set e | e in es }

  function Collection(kind: Kind, es: seq<Bytes>): Value {
    if kind.OfList? then ListV(es) else SetV(Members(es))
  }

  lemma OneMore(db: Db, kind: Kind, key: Bytes, es: seq<Bytes>, e: Bytes)
    ensures Apply(Stored(db, key, Collection(kind, es)), One(kind, key, e)) ==
        Some(Stored(db, key, Collection(kind, es + [e])))
  {
    assert Members(es + [e]) == Members(es) + {e};
    assert e in Members(es + [e]);
    var v := Collection(kind, es + [e]);
    if es != [] {
      assert es[0] in Members(es);
      assert db[key := Collection(kind, es)][key := v] == db[key := v];
    } else {
      assert Members(es) == {};
      assert kind.OfSet? ==> Members(es + [e]) == {e};
      assert kind.OfList? ==> es + [e] == [e];
      assert (db - {key})[key := v] == db[key := v];
    }
  }

  lemma {:induction false} SendAllBuilds(db: Db, kind: Kind, key: Bytes, have: seq<Bytes>, es: seq<Bytes>)
    ensures RunAll(Stored(db, key, Collection(kind, have)), SendAll(kind, key, es)) ==
        Some(Stored(db, key, Collection(kind, have + es)))
    decreases |es|
  {
    hide Apply, Stored, Collection;
    if es == [] {
      assert have + es == have;
    } else {
      OneMore(db, kind, key, have, es[0]);
      assert SendAll(kind, key, es)[1..] == SendAll(kind, key, es[1..]);
      SendAllBuilds(db, kind, key, have + [es[0]], es[1..]);
      assert (have + [es[0]]) + es[1..] == have + es;
    }
  }

  /** Whatever was at the key, in whatever type: afterwards the key holds exactly the collection, and
      every other key is as it was. */
  lemma DelAndSendAll(db: Db, kind: Kind, key: Bytes, es: seq<Bytes>)
    ensures RunAll(db, [Del(key)] + SendAll(kind, key, es)) == Some(Stored(db, key, Collection(kind, es)))
  {
    var cmds := [Del(key)] + SendAll(kind, key, es);
    assert cmds[1..] == SendAll(kind, key, es);
    assert Members([]) == {};
    assert Stored(db, key, Collection(kind, [])) == db - {key};
    SendAllBuilds(db, kind, key, [], es);
    assert [] + es == es;
  }

  // ----- hashes -----

  /** A field of a hash; `at` is zero if it does not expire, else the time it does. */
  datatype FieldAt = FieldAt(field: Bytes, e: Bytes, at: int)

  function Expire(key: Bytes, field: Bytes, at: int): seq<Cmd> {
    if at == 0 then [] else [HPExpireAt(key, FormatInt(at), field)]
  }

  function SendField(key: Bytes, f: FieldAt): seq<Cmd> {
    [HSet(key, f.field, f.e)] + Expire(key, f.field, f.at)
  }

  function SendFields(key: Bytes, fs: seq<FieldAt>): seq<Cmd>
    decreases |fs|
  {
    if fs == [] then [] else SendField(key, fs[0]) + SendFields(key, fs[1..])
  }

  ghost function Meant(f: FieldAt): Field {
    Field(f.e, if f.at == 0 then None else Some(f.at))
  }

  ghost function Fold(h: map<Bytes, Field>, fs: seq<FieldAt>): map<Bytes, Field>
    decreases |fs|
  {
    if fs == [] then h else Fold(h[fs[0].field := Meant(fs[0])], fs[1..])
  }

  ghost function Names(fs: seq<FieldAt>): set<Bytes> { set i | 0 <= i < |fs| :: fs[i].field }

  /** No later mention of the field. */
  ghost predicate Last(fs: seq<FieldAt>, i: nat)
    requires i < |fs|
  {
    fs[i].field !in Names(fs[i + 1..])
  }

  /** The hash with exactly the listed fields, the last mention of a field being the one that holds. */
  ghost predicate IsHash(h: map<Bytes, Field>, fs: seq<FieldAt>) {
    h.Keys == Names(fs) && forall i :: 0 <= i < |fs| && Last(fs, i) ==>
        fs[i].field in h && h[fs[i].field] == Meant(fs[i])
  }

  lemma NamesFront(fs: seq<FieldAt>)
    requires fs != []
    ensures Names(fs) == {fs[0].field} + Names(fs[1..])
  {
    forall k | k in Names(fs)
      ensures k in {fs[0].field} + Names(fs[1..])
    {
      var i :| 0 <= i < |fs| && fs[i].field == k;
      if i > 0 { assert fs[1..][i - 1].field == k; }
    }
  }

  lemma {:induction false} FoldKeys(h: map<Bytes, Field>, fs: seq<FieldAt>)
    ensures Fold(h, fs).Keys == h.Keys + Names(fs)
    ensures forall k :: k in h && k !in Names(fs) ==> Fold(h, fs)[k] == h[k]
    decreases |fs|
  {
    if fs != [] {
      NamesFront(fs);
      FoldKeys(h[fs[0].field := Meant(fs[0])], fs[1..]);
    }
  }

  lemma {:induction false} FoldValue(h: map<Bytes, Field>, fs: seq<FieldAt>, i: nat)
    requires i < |fs| && Last(fs, i)
    ensures fs[i].field in Fold(h, fs) && Fold(h, fs)[fs[i].field] == Meant(fs[i])
    decreases |fs|
  {
    var next := h[fs[0].field := Meant(fs[0])];
    if i == 0 {
      FoldKeys(next, fs[1..]);
    } else {
      assert fs[1..][i..] == fs[i + 1..];
      FoldValue(next, fs[1..], i - 1);
    }
  }

  lemma FoldIsHash(fs: seq<FieldAt>)
    ensures IsHash(Fold(map[], fs), fs)
  {
    hide Fold, Names, Last, Meant;
    FoldKeys(map[], fs);
    forall i: nat | i < |fs| && Last(fs, i)
      ensures fs[i].field in Fold(map[], fs) && Fold(map[], fs)[fs[i].field] == Meant(fs[i])
    {
      FoldValue(map[], fs, i);
    }
  }

  ghost predicate Expiries(fs: seq<FieldAt>) {
    forall i :: 0 <= i < |fs| ==> Int64(fs[i].at)
  }

  lemma HSetOne(db: Db, key: Bytes, h: map<Bytes, Field>, f: FieldAt)
    ensures Apply(Stored(db, key, HashV(h)), HSet(key, f.field, f.e)) ==
      Some(Stored(db, key, HashV(h[f.field := Field(f.e, None)])))
  {
    var was, v := Stored(db, key, HashV(h)), HashV(h[f.field := Field(f.e, None)]);
    assert f.field in v.fields;
    assert was[key := v] == db[key := v];
  }

  lemma ExpireOne(db: Db, key: Bytes, h: map<Bytes, Field>, f: FieldAt)
    requires Int64(f.at)
    ensures Apply(Stored(db, key, HashV(h[f.field := Field(f.e, None)])), HPExpireAt(key, FormatInt(f.at), f.field)) ==
      Some(Stored(db, key, HashV(h[f.field := Field(f.e, Some(f.at))])))
  {
    hide ParseInt, FormatInt;
    ParseFormatted(f.at);
    var a, b := h[f.field := Field(f.e, None)], h[f.field := Field(f.e, Some(f.at))];
    assert f.field in a && f.field in b;
    assert a[f.field := Field(f.e, Some(f.at))] == b;
    assert db[key := HashV(a)][key := HashV(b)] == db[key := HashV(b)];
  }

  lemma FieldRuns(db: Db, key: Bytes, h: map<Bytes, Field>, f: FieldAt)
    requires Int64(f.at)
    ensures RunAll(Stored(db, key, HashV(h)), SendField(key, f)) == Some(Stored(db, key, HashV(h[f.field := Meant(f)])))
  {
    hide Apply, Stored, FormatInt;
    HSetOne(db, key, h, f);
    var next := Stored(db, key, HashV(h[f.field := Field(f.e, None)]));
    assert SendField(key, f)[1..] == Expire(key, f.field, f.at);
    if f.at != 0 {
      ExpireOne(db, key, h, f);
      assert RunAll(Stored(db, key, HashV(h[f.field := Meant(f)])), []) ==
          Some(Stored(db, key, HashV(h[f.field := Meant(f)])));
      assert Expire(key, f.field, f.at)[1..] == [];
    }
  }

  lemma {:induction false} SendFieldsBuilds(db: Db, key: Bytes, h: map<Bytes, Field>, fs: seq<FieldAt>)
    requires Expiries(fs)
    ensures RunAll(Stored(db, key, HashV(h)), SendFields(key, fs)) == Some(Stored(db, key, HashV(Fold(h, fs))))
    decreases |fs|
  {
    hide Apply, Stored, SendField, Meant;
    if fs != [] {
      FieldRuns(db, key, h, fs[0]);
      RunAppend(Stored(db, key, HashV(h)), SendField(key, fs[0]), SendFields(key, fs[1..]));
      SendFieldsBuilds(db, key, h[fs[0].field := Meant(fs[0])], fs[1..]);
    }
  }

  /** Whatever was at the key: afterwards it holds exactly the hash, each field with its absolute expiry,
      and every other key is as it was. */
  lemma DelAndSendFields(db: Db, key: Bytes, fs: seq<FieldAt>)
    requires Expiries(fs)
    ensures exists h :: IsHash(h, fs) && RunAll(db, [Del(key)] + SendFields(key, fs)) == Some(Stored(db, key, HashV(h)))
  {
    var h := Fold(map[], fs);
    FoldIsHash(fs);
    SendFieldsBuilds(db, key, map[], fs);
    assert ([Del(key)] + SendFields(key, fs))[1..] == SendFields(key, fs);
    assert Stored(db, key, HashV(map[])) == db - {key};
  }
}
