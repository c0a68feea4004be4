/** `dump` and `restore` of `internal/reader/scan_standalone_reader.go`: two loops over one connection. */
module ScanPipeline {
  import opened Basics
  import opened UniqueQueue

  datatype Request = Select(db: int) | Dump(key: Bytes) | Pttl(key: Bytes) | Type(key: Bytes)

  datatype Answer = OkAnswer | NilAnswer | ErrorAnswer | Number(v: int) | Text(bytes: Bytes)

  /** What is sent for one key, when the connection is at `now`. */
  function RequestsFor(now: int, item: DbKey, types: bool): seq<Request> {
    (if now != item.db then [Select(item.db)] else []) + [Dump(item.key), Pttl(item.key)]
        + (if types then [Type(item.key)] else [])
  }

  /** The database of the connection after the keys up to `n`. */
  function DbBefore(items: seq<DbKey>, n: nat): int
    requires n <= |items|
  {
    if n == 0 then 0 else items[n - 1].db
  }

  function Requests(items: seq<DbKey>, types: bool, n: nat): seq<Request>
    requires n <= |items|
    decreases n
  {
    if n == 0 then [] else Requests(items, types, n - 1) + RequestsFor(DbBefore(items, n - 1), items[n - 1], types)
  }

  method DumpLoop(items: seq<DbKey>, types: bool) returns (wire: seq<Request>)
    ensures wire == Requests(items, types, |items|)
  {
    wire := [];
    var nowDbId := 0;
    for n := 0 to |items|
      invariant wire == Requests(items, types, n) && nowDbId == DbBefore(items, n)
    {
      var item := items[n];
      ghost var before, now := wire, nowDbId;
      if nowDbId != item.db {
        wire := wire + [Select(item.db)];
        nowDbId := item.db;
      }
      wire := wire + [Dump(item.key)];
      wire := wire + [Pttl(item.key)];
      if types { wire := wire + [Type(item.key)]; }
      assert wire == before + RequestsFor(now, item, types);
    }
  }

  // ----- what runs where -----

  /** The database each request runs in, on a server that starts in database 0. */
  ghost function RunsIn(wire: seq<Request>, k: nat): int
    requires k <= |wire|
    decreases k
  {
    if k == 0 then 0 else if wire[k - 1].Select? then wire[k - 1].db else RunsIn(wire, k - 1)
  }

  /** Where the requests of key `n` begin, and where its DUMP is. */
  ghost function First(items: seq<DbKey>, types: bool, n: nat): nat
    requires n <= |items|
  {
    |Requests(items, types, n)|
  }

  ghost function DumpAt(items: seq<DbKey>, types: bool, n: nat): nat
    requires n < |items|
  {
    First(items, types, n) + if DbBefore(items, n) != items[n].db then 1 else 0
  }

  lemma {:induction false} RequestsGrow(items: seq<DbKey>, types: bool, n: nat, m: nat)
    requires n <= m <= |items|
    ensures First(items, types, n) <= First(items, types, m)
    ensures Requests(items, types, m)[..First(items, types, n)] == Requests(items, types, n)
    decreases m - n
  {
    if n < m { RequestsGrow(items, types, n, m - 1); }
  }

  lemma {:induction false} RunsInPrefix(wire: seq<Request>, more: seq<Request>, k: nat)
    requires k <= |wire|
    ensures RunsIn(wire + more, k) == RunsIn(wire, k)
    decreases k
  {
    if k > 0 { RunsInPrefix(wire, more, k - 1); }
  }

  /** After the requests of the first `n` keys the connection is where the sending loop believes. */
  lemma {:induction false} RunsInOwn(items: seq<DbKey>, types: bool, n: nat)
    requires n <= |items|
    ensures RunsIn(Requests(items, types, n), First(items, types, n)) == DbBefore(items, n)
    decreases n
  {
    if n > 0 {
      var before, own := Requests(items, types, n - 1), RequestsFor(DbBefore(items, n - 1), items[n - 1], types);
      RunsInOwn(items, types, n - 1);
      RunsInPrefix(before, own, |before|);
      RunsThrough(before, own, DbBefore(items, n - 1), items[n - 1], types);
    }
  }

  lemma RunsThrough(before: seq<Request>, own: seq<Request>, now: int, item: DbKey, types: bool)
    requires own == RequestsFor(now, item, types) && RunsIn(before + own, |before|) == now
    ensures var at := |before| + if now != item.db then 1 else 0;
      RunsIn(before + own, at) == item.db && RunsIn(before + own, at + 1) == item.db
          && RunsIn(before + own, at + 2) == item.db
    ensures RunsIn(before + own, |before + own|) == item.db
  {
    var wire := before + own;
    var at := |before| + if now != item.db then 1 else 0;
    assert now != item.db ==> wire[|before|] == own[0] && own[0] == Select(item.db);
    assert wire[at] == Dump(item.key) && wire[at + 1] == Pttl(item.key);
    if types { assert wire[at + 2] == Type(item.key); }
  }

  /** The wire around the requests of one key. */
  lemma Around(items: seq<DbKey>, types: bool, n: nat) returns (more: seq<Request>)
    requires n < |items|
    ensures Requests(items, types, |items|) == Requests(items, types, n + 1) + more
    ensures Requests(items, types, n + 1) ==
        Requests(items, types, n) + RequestsFor(DbBefore(items, n), items[n], types)
  {
    RequestsGrow(items, types, n + 1, |items|);
    more := Requests(items, types, |items|)[First(items, types, n + 1)..];
  }

  lemma StandsTogether(items: seq<DbKey>, types: bool, n: nat)
    requires n < |items|
    ensures var wire, at := Requests(items, types, |items|), DumpAt(items, types, n);
      at + (if types then 3 else 2) == First(items, types, n + 1) <= |wire|
      && wire[at] == Dump(items[n].key) && wire[at + 1] == Pttl(items[n].key)
      && (types ==> wire[at + 2] == Type(items[n].key))
  {
    hide Requests;
    var more := Around(items, types, n);
    var before, own := Requests(items, types, n), RequestsFor(DbBefore(items, n), items[n], types);
    var wire, k := before + own + more, DumpAt(items, types, n) - |before|;
    assert wire[|before| + k] == own[k] && wire[|before| + k + 1] == own[k + 1];
    if types { assert wire[|before| + k + 2] == own[k + 2]; }
  }

  /** Every key is dumped in its own database: its requests stand together on the wire, and the server runs
      them there, whatever came before. */
  lemma DumpedInOwnDatabase(items: seq<DbKey>, types: bool, n: nat)
    requires n < |items|
    ensures var wire, at := Requests(items, types, |items|), DumpAt(items, types, n);
      at + (if types then 3 else 2) == First(items, types, n + 1) <= |wire|
      && wire[at] == Dump(items[n].key) && wire[at + 1] == Pttl(items[n].key)
      && (types ==> wire[at + 2] == Type(items[n].key))
      && RunsIn(wire, at) == items[n].db && RunsIn(wire, at + 1) == items[n].db && RunsIn(wire, at + 2) == items[n].db
  {
    hide RunsIn, Requests, RequestsFor;
    StandsTogether(items, types, n);
    var more := Around(items, types, n);
    var before, own := Requests(items, types, n), RequestsFor(DbBefore(items, n), items[n], types);
    RunsInOwn(items, types, n);
    RunsInPrefix(before, own, |before|);
    RunsThrough(before, own, DbBefore(items, n), items[n], types);
    var at := DumpAt(items, types, n);
    RunsInPrefix(before + own, more, at);
    RunsInPrefix(before + own, more, at + 1);
    RunsInPrefix(before + own, more, at + 2);
  }

  // ----- what is read -----

  /** The answers taken for one key; a missing type is an empty text. */
  datatype Reading = Reading(item: DbKey, dump: Answer, pttl: Answer, kind: Answer)

  /** The restoring loop stops at a failed SELECT. */
  method RestoreLoop(items: seq<DbKey>, types: bool, answers: seq<Answer>) returns (readings: seq<Reading>, ok: bool)
    requires |answers| == |Requests(items, types, |items|)|
    ensures ok <==> forall k :: 0 <= k < |answers| && Requests(items, types, |items|)[k].Select? ==>
        answers[k].OkAnswer?
    ensures ok ==> |readings| == |items|
    ensures |readings| <= |items| && forall n :: 0 <= n < |readings| ==> Own(readings[n], items, types, answers, n)
  {
    hide Requests;
    readings := [];
    var nowDbId := 0;
    var read := 0;
    NoRequests(items, types);
    for n := 0 to |items|
      invariant read == First(items, types, n) && nowDbId == DbBefore(items, n) && |readings| == n
      invariant forall k :: 0 <= k < |answers| && k < read && Requests(items, types, |items|)[k].Select? ==>
          answers[k].OkAnswer?
      invariant forall m :: 0 <= m < n ==> Own(readings[m], items, types, answers, m)
    {
      var item := items[n];
      DumpedInOwnDatabase(items, types, n);
      OnlySelect(items, types, n);
      ghost var wire := Requests(items, types, |items|);
      if nowDbId != item.db {
        assert wire[read] == Select(item.db);
        if !answers[read].OkAnswer? { return readings, false; }
        read := read + 1;
        nowDbId := item.db;
      }
      var dump := answers[read];
      var pttl := answers[read + 1];
      read := read + 2;
      var kind := Text([]);
      if types {
        kind := answers[read];
        read := read + 1;
      }
      readings := readings + [Reading(item, dump, pttl, kind)];
    }
    ok := true;
  }

  /** The reading of key `n` is made of the answers to the requests for that key. */
  ghost predicate Own(r: Reading, items: seq<DbKey>, types: bool, answers: seq<Answer>, n: nat)
    requires |answers| == |Requests(items, types, |items|)|
  {
    n < |items| && r.item == items[n]
    && var at := DumpAt(items, types, n);
      at + (if types then 3 else 2) <= |answers| && r.dump == answers[at] && r.pttl == answers[at + 1]
          && (types ==> r.kind == answers[at + 2])
  }

  lemma NoRequests(items: seq<DbKey>, types: bool)
    ensures First(items, types, 0) == 0
  {}

  lemma OnlySelect(items: seq<DbKey>, types: bool, n: nat)
    requires n < |items|
    ensures var wire, first, at := Requests(items, types, |items|), First(items, types, n), DumpAt(items, types, n);
      at < |wire| && (at > first ==> wire[first] == Select(items[n].db))
  {
    var before, own := Requests(items, types, n), RequestsFor(DbBefore(items, n), items[n], types);
    RequestsGrow(items, types, n + 1, |items|);
    assert Requests(items, types, |items|)[..|before + own|] == before + own;
    assert (before + own)[|before|] == own[0];
  }
}
