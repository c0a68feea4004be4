/** The opcode loop of `internal/rdb/rdb.go`: from the bytes of an RDB file to entries.  Strings, lists, sets
    and hashes are the values of this model. */
module RdbLoader {
  import opened Basics
  import opened RdbStrings
  import opened RewriteTarget
  import opened Rewrite

  /** The largest bulk string the target takes, whether existing keys are replaced, and whose format it is. */
  datatype Settings = Settings(maxBulk: nat, replace: bool, valkey: bool)

  datatype Entry =
    | Restore(db: int, key: Bytes, pttl: int, typeByte: int, value: Bytes, replace: bool)
    | Command(db: int, cmd: Cmd)
    | Delete(db: int, key: Bytes)
    | PExpire(db: int, key: Bytes, ms: int)
    | FunctionLoad(library: Bytes)
    | ScriptLoad(script: Bytes)

  /** The fields that opcodes change. */
  datatype Fields = Fields(nowDb: int, expireMs: int, replDb: int)

  /** How loading ends: at the end-of-file opcode, with the fields and the bytes left; by cancellation; or in
      a panic. */
  datatype End = Eof(fields: Fields, rest: Bytes) | Cancelled | Crashed

  datatype Load = Load(sent: seq<Entry>, end: End)

  function After(sent: seq<Entry>, r: Load): Load { Load(sent + r.sent, r.end) }

  function ReadValue(typeByte: int, valkey: bool, key: Bytes, s: Bytes): Out {
    if typeByte == 0 then
      match ReadString(s)
      case Panic => Out([], None)
      case Ok(text, rest) => Out([Set(key, text)], Some(rest))
    else if typeByte in {1, 10, 14, 18} then RewriteList(typeByte, key, s)
    else if typeByte in {2, 11, 20} then RewriteSet(typeByte, key, s)
    else if typeByte in {4, 9, 13, 16, 22, 23, 24, 25} then RewriteHash(typeByte, valkey, key, s)
    else Out([], None)
  }

  function Commands(db: int, cmds: seq<Cmd>): (es: seq<Entry>)
    ensures |es| == |cmds| && forall i :: 0 <= i < |cmds| ==> es[i] == Command(db, cmds[i])
  {
    seq(|cmds|, i requires 0 <= i < |cmds| => Command(db, cmds[i]))
  }

  /** A key and its value: one RESTORE of the bytes captured, or the commands if those are too many. */
  function Entries(cfg: Settings, f: Fields, key: Bytes, typeByte: int, value: Bytes, cmds: seq<Cmd>): seq<Entry> {
    if 1 + |value| + 2 + 8 > cfg.maxBulk then
      (if cfg.replace then [Delete(f.nowDb, key)] else []) + Commands(f.nowDb, cmds)
        + (if f.expireMs != 0 then [PExpire(f.nowDb, key, f.expireMs)] else [])
    else [Restore(f.nowDb, key, if f.expireMs > 0 then f.expireMs else 0, typeByte, value, cfg.replace)]
  }

  /** Time left of an absolute expiry; one that has passed leaves a millisecond. */
  function Remaining(at: int, now: int): int { if Wrap(at - now) < 0 then 1 else Wrap(at - now) }

  const REPLSTREAMDB: Bytes := [114, 101, 112, 108, 45, 115, 116, 114, 101, 97, 109, 45, 100, 98]
  const LUA: Bytes := [108, 117, 97]

  /** Two or three lengths that are read and dropped. */
  function SkipLengths(s: Bytes, n: nat): Option<Bytes>
    decreases n
  {
    if n == 0 then Some(s)
    else match ReadLength(s) case Panic => None case Ok(_, rest) => SkipLengths(rest, n - 1)
  }

  datatype Effect = Crash | More(sent: seq<Entry>, fields: Fields, rest: Bytes)

  /** What an opcode other than the end of the file does; `now` is the clock. */
  function Execute(cfg: Settings, now: int, f: Fields, b: int, s: Bytes): Effect {
    if b == 244 then (match SkipLengths(s, 3) case None => Crash case Some(rest) => More([], f, rest))
    else if b ==
        245 then (match ReadString(s) case Panic => Crash case Ok(lib, rest) => More([FunctionLoad(lib)], f, rest))
    else if b == 246 || b == 247 then Crash
    else if b == 248 then (match ReadLength(s) case Panic => Crash case Ok(_, rest) => More([], f, rest))
    else if b == 249 then (match ReadByte(s) case Panic => Crash case Ok(_, rest) => More([], f, rest))
    else if b == 250 then Aux(f, s)
    else if b == 251 then (match SkipLengths(s, 2) case None => Crash case Some(rest) => More([], f, rest))
    else if b == 252 then
      (match ReadUint(s, 8) case Panic => Crash case Ok(at, rest) => More([],
          f.(expireMs := Remaining(Wrap(at), now)), rest))
    else if b == 253 then
      (match ReadUint(s, 4) case Panic => Crash case Ok(at, rest) => More([],
          f.(expireMs := Remaining(at * 1000, now)), rest))
    else if b ==
        254 then (match ReadLength(s) case Panic => Crash case Ok(n, rest) => More([], f.(nowDb := Wrap(n)), rest))
    else KeyValue(cfg, f, b, s)
  }

  function Aux(f: Fields, s: Bytes): Effect {
    match ReadPair(s)
    case Panic => Crash
    case Ok((key, value), rest) =>
      if key == REPLSTREAMDB then
        (match ParseInt(value) case None => Crash case Some(db) => More([], f.(replDb := db), rest))
      else if key == LUA then More([ScriptLoad(value)], f, rest)
      else More([], f, rest)
  }

  function KeyValue(cfg: Settings, f: Fields, typeByte: int, s: Bytes): Effect {
    match ReadString(s)
    case Panic => Crash
    case Ok(key, rest) =>
      var out := ReadValue(typeByte, cfg.valkey, key, rest);
      if out.left.None? then Crash
      else
        More(Entries(cfg, f, key, typeByte, Captured(rest, out.left.value), out.sent), f.(expireMs := 0),
            out.left.value)
  }

  /** What the tee has seen when reading has come to `left`. */
  function Captured(s: Bytes, left: Bytes): Bytes {
    if |left| <= |s| then s[..|s| - |left|] else []
  }

  /** The loop; `clock` holds the time at each opcode up to the one after which the context is cancelled. */
  function Parse(cfg: Settings, clock: seq<int>, f: Fields, s: Bytes): Load
    decreases |clock|
  {
    if clock == [] then Load([], Cancelled)
    else
      match ReadByte(s)
      case Panic => Load([], Crashed)
      case Ok(b, rest) =>
        if b == 255 then Load([], Eof(f, rest))
        else
          match Execute(cfg, clock[0], f, b, rest)
          case Crash => Load([], Crashed)
          case More(sent, next, rest) => After(sent, Parse(cfg, clock[1..], next, rest))
  }

  lemma AfterMore(a: seq<Entry>, b: seq<Entry>, r: Load)
    ensures After(a, After(b, r)) == After(a + b, r)
  {
    assert a + (b + r.sent) == (a + b) + r.sent;
  }

  class Loader {
    var fields: Fields
    var rd: Bytes
    var ch: seq<Entry>

    constructor (rd: Bytes)
      ensures fields == Fields(0, 0, 0) && this.rd == rd && ch == []
    {
      fields, this.rd, ch := Fields(0, 0, 0), rd, [];
    }

    method ParseRdbEntry(cfg: Settings, clock: seq<int>) returns (end: End)
      modifies this
      ensures ch == old(ch) + Parse(cfg, clock, old(fields), old(rd)).sent
      ensures end == Parse(cfg, clock, old(fields), old(rd)).end
      ensures end.Eof? ==> end.fields == fields && end.rest == rd
    {
      hide Execute;
      ghost var all := Parse(cfg, clock, fields, rd);
      ghost var sent: seq<Entry> := [];
      assert After([], all) == all && clock[0..] == clock;
      for i := 0 to |clock|
        invariant ch == old(ch) + sent && all == After(sent, Parse(cfg, clock[i..], fields, rd))
      {
        var b := ReadByte(rd);
        assert sent + [] == sent;
        if b.Panic? { return Crashed; }
        rd := b.rest;
        if b.value == 255 { return Eof(fields, rd); }
        var e := Execute(cfg, clock[i], fields, b.value, rd);
        if e.Crash? { return Crashed; }
        AfterMore(sent, e.sent, Parse(cfg, clock[i + 1..], e.fields, e.rest));
        assert clock[i..][1..] == clock[i + 1..];
        fields, rd, ch := e.fields, e.rest, ch + e.sent;
        sent := sent + e.sent;
      }
      assert sent + [] == sent;
      end := Cancelled;
    }
  }

  /** A cancelled load has sent a prefix of what an uncancelled one sends. */
  lemma {:induction false} CancelSendsPrefix(cfg: Settings, clock: seq<int>, more: seq<int>, f: Fields, s: Bytes)
    ensures Parse(cfg, clock, f, s).sent <= Parse(cfg, clock + more, f, s).sent
    decreases |clock|
  {
    hide Execute;
    if clock != [] {
      var r := ReadByte(s);
      assert (clock + more)[0] == clock[0] && (clock + more)[1..] == clock[1..] + more;
      if r.Ok? && r.value != 255 {
        var e := Execute(cfg, clock[0], f, r.value, r.rest);
        if e.More? { CancelSendsPrefix(cfg, clock[1..], more, e.fields, e.rest); }
      }
    }
  }
}
