/** `sendAOF` of `internal/reader/sync_standalone_reader.go`: from the replication stream to entries with offsets. */
module SendAof {
  import opened Basics
  import opened Resp
  import opened Commands
  import opened RespReader

  datatype Event =
    | Progress(offset: int)
    | Send(argv: Argv, db: int, offset: int)

  function Lower(b: byte): byte { if 65 <= b <= 90 then b + 32 else b }

  /** `strings.EqualFold` against a name in small ASCII letters.  Besides the capital letters, the long s
      (U+017F) folds to s and the Kelvin sign (U+212A) to k. */
  predicate EqualFold(a: Bytes, name: Bytes)
    decreases |name|
  {
    if name == [] then a == []
    else
      || (a != [] && Lower(a[0]) == name[0] && EqualFold(a[1..], name[1..]))
      || (name[0] == 115 && |a| >= 2 && a[..2] == [0xC5, 0xBF] && EqualFold(a[2..], name[1..]))
      || (name[0] == 107 && |a| >= 3 && a[..3] == [0xE2, 0x84, 0xAA] && EqualFold(a[3..], name[1..]))
  }

  const SELECT: Bytes := [115, 101, 108, 101, 99, 116]
  const PING: Bytes := [112, 105, 110, 103]
  const REPLCONF: Bytes := [114, 101, 112, 108, 99, 111, 110, 102]
  const OPINFO: Bytes := [111, 112, 105, 110, 102, 111]
  const ARS: Bytes := [97, 114, 115]
  const MULTI: Bytes := [109, 117, 108, 116, 105]
  const EXEC: Bytes := [101, 120, 101, 99]
  const PUBLISH: Bytes := [112, 117, 98, 108, 105, 115, 104]
  const HELLO: Bytes := [95, 95, 115, 101, 110, 116, 105, 110, 101, 108, 95, 95, 58, 104, 101, 108, 108, 111]

  /** What becomes of a command: a panic, a new database number, a report of progress alone, or an entry. */
  datatype Handling = Panics | Selects(db: int) | Skips | Passes(argv: Argv)

  function Handle(argv: Argv): Handling {
    if argv == [] then Panics
    else if EqualFold(argv[0], SELECT) then
      if |argv| < 2 then Panics else match ParseInt(argv[1]) case None => Panics case Some(db) => Selects(db)
    else if EqualFold(argv[0], PING) || EqualFold(argv[0], REPLCONF) || EqualFold(argv[0], OPINFO) then Skips
    else if !EqualFold(argv[0], ARS) then Pass(argv)
    else if |argv| < 2 then Panics
    else Pass(argv[2..])
  }

  function Pass(argv: Argv): Handling {
    if argv == [] then Panics
    else if EqualFold(argv[0], MULTI) || EqualFold(argv[0], EXEC) then Skips
    else if !EqualFold(argv[0], PUBLISH) then Passes(argv)
    else if |argv| < 2 then Panics
    else if EqualFold(argv[1], HELLO) then Skips
    else Passes(argv)
  }

  /** `client.ArrayString`: anything but an array of strings is a panic. */
  function ArrayString(v: Value): Option<Argv> {
    if v.List? && forall i :: 0 <= i < |v.items| ==> v.items[i].Str? then
      Some(seq(|v.items|, i requires 0 <= i < |v.items| => v.items[i].bytes))
    else None
  }

  /** What the context does in one round of the loop: whether it is found done at the head, and whether the
      select in `sendProgress`, if the round comes to it, takes the cancellation rather than the send. */
  datatype Round = Round(done: bool, cancels: bool)

  /** A context that is done stays done, and a select can take the cancellation only of one that is. */
  ghost predicate Consistent(ctx: seq<Round>) {
    forall i :: 0 <= i < |ctx| - 1 && (ctx[i].done || ctx[i].cancels) ==> ctx[i + 1].done
  }

  function Reported(track: bool, r: Round, offset: int): seq<Event> {
    if track && !r.cancels then [Progress(offset)] else []
  }

  /** What the loop sends in the rounds of `ctx`, for a stream that ends at `end`. */
  function Events(track: bool, ctx: seq<Round>, s: Bytes, end: int, db: int): seq<Event>
    decreases |ctx|
  {
    if ctx == [] || ctx[0].done then []
    else
      match ReadReply(s)
      case Broken => []
      case Got(v, rest) =>
        match ArrayString(v)
        case None => []
        case Some(argv) => Handled(track, ctx, argv, rest, end, db)
  }

  function Handled(track: bool, ctx: seq<Round>, argv: Argv, rest: Bytes, end: int, db: int): seq<Event>
    requires ctx != []
    decreases |ctx|, 0
  {
    var offset := end - |rest|;
    match Handle(argv)
    case Panics => []
    case Selects(next) => Reported(track, ctx[0], offset) + Events(track, ctx[1..], rest, end, next)
    case Skips => Reported(track, ctx[0], offset) + Events(track, ctx[1..], rest, end, db)
    case Passes(argv) => [Send(argv, db, if track then offset else 0)] + Events(track, ctx[1..], rest, end, db)
  }

  class Sender {
    var dbId: int
    var aofSentOffset: int
    var ch: seq<Event>

    constructor (dbId: int)
      ensures this.dbId == dbId && ch == []
    {
      this.dbId, aofSentOffset, ch := dbId, 0, [];
    }

    method SendProgress(track: bool, r: Round, offset: int)
      modifies this`ch
      ensures ch == old(ch) + Reported(track, r, offset)
    {
      if track && !r.cancels { ch := ch + [Progress(offset)]; }
    }

    /** However the file reader hands out the bytes, the loop sends the same events. */
    method Loop(track: bool, ctx: seq<Round>, rd: Reader)
      modifies this, rd
      ensures ch == old(ch) + Events(track, ctx, old(rd.Stream()), old(rd.End()), old(dbId))
    {
      hide ReadReply, ArrayString, Handle, Reported;
      ghost var all := Events(track, ctx, rd.Stream(), rd.End(), dbId);
      assert ctx[0..] == ctx;
      for i := 0 to |ctx|
        invariant rd.End() == old(rd.End())
        invariant ch + Events(track, ctx[i..], rd.Stream(), rd.End(), dbId) == old(ch) + all
      {
        assert ctx[i..][0] == ctx[i] && ctx[i..][1..] == ctx[i + 1..];
        if ctx[i].done { return; }
        ghost var s, was, db := rd.Stream(), ch, dbId;
        var reply := rd.Reply();
        if reply.None? { return; }
        var got := ArrayString(reply.value);
        if got.None? { return; }
        aofSentOffset := rd.Position();
        ghost var handled := Handled(track, ctx[i..], got.value, rd.Stream(), rd.End(), db);
        assert Events(track, ctx[i..], s, rd.End(), db) == handled;
        match Handle(got.value) {
          case Panics => return;
          case Selects(next) => dbId := next; SendProgress(track, ctx[i], aofSentOffset);
          case Skips => SendProgress(track, ctx[i], aofSentOffset);
          case Passes(argv) => ch := ch + [Send(argv, dbId, if track then aofSentOffset else 0)];
        }
        assert ch + Events(track, ctx[i + 1..], rd.Stream(), rd.End(), dbId) == was + handled;
      }
      assert ch + [] == ch;
    }
  }

  // ----- one event for each command, with the offset of its end -----

  ghost predicate Smooth(cs: seq<Argv>) {
    AllSizes(cs) && forall i :: 0 <= i < |cs| ==> !Handle(cs[i]).Panics?
  }

  /** The database the last SELECT chose. */
  ghost function DbAfter(cs: seq<Argv>, db: int): int
    decreases |cs|
  {
    if cs == [] then db
    else if Handle(cs[|cs| - 1]).Selects? then Handle(cs[|cs| - 1]).db
    else DbAfter(cs[..|cs| - 1], db)
  }

  /** The event that command `k` calls for. */
  ghost function EventOf(cs: seq<Argv>, k: nat, start: int, db: int): Event
    requires k < |cs|
  {
    var offset := start + |EncodeStream(cs[..k + 1])|;
    if Handle(cs[k]).Passes? then Send(Handle(cs[k]).argv, DbAfter(cs[..k], db), offset) else Progress(offset)
  }

  lemma {:induction false} DbAfterFirst(c: Argv, cs: seq<Argv>, db: int)
    ensures DbAfter([c] + cs, db) == DbAfter(cs, DbAfter([c], db))
    decreases |cs|
  {
    hide Handle;
    if cs == [] {
      assert [c] + cs == [c];
    } else {
      assert ([c] + cs)[..|cs|] == [c] + cs[..|cs| - 1];
      DbAfterFirst(c, cs[..|cs| - 1], db);
    }
  }

  lemma DbAfterOne(c: Argv, db: int)
    ensures DbAfter([c], db) == if Handle(c).Selects? then Handle(c).db else db
  {
    hide Handle;
    assert [c][..0] == [];
  }

  lemma ArrayOfStrings(args: Argv)
    ensures ArrayString(List(Strings(args))) == Some(args)
  {
    var r := ArrayString(List(Strings(args)));
    assert r.Some? && r.value == args;
  }

  /** Rounds that no cancellation touches. */
  function Live(n: nat): seq<Round> { seq(n, _ => Round(false, false)) }

  /** One round on a command. */
  lemma EventsFirst(c: Argv, t: Bytes, end: int, db: int, steps: nat)
    requires Sizes(c) && !Handle(c).Panics? && steps > 0
    ensures Events(true, Live(steps), EncodeCommand(c) + t, end, db) ==
      [EventOf([c], 0, end - |EncodeCommand(c) + t|, db)] + Events(true, Live(steps - 1), t, end, DbAfter([c], db))
  {
    hide ReadReply, EncodeCommand, Handle, ArrayString;
    assert Live(steps)[1..] == Live(steps - 1);
    ReadsWhatWasWritten(c, t);
    ArrayOfStrings(c);
    DbAfterOne(c, db);
    assert [c][..0] == [] && [c][..1] == [c] && [c][1..] == [];
    assert EncodeStream([c]) == EncodeCommand(c) + [];
  }

  lemma EventOfLater(cs: seq<Argv>, k: nat, start: int, db: int)
    requires 0 < k < |cs|
    ensures EventOf(cs, k, start, db) == EventOf(cs[1..], k - 1, start + |EncodeCommand(cs[0])|, DbAfter([cs[0]], db))
  {
    hide Handle, EncodeCommand, DbAfter;
    assert cs[..k + 1][1..] == cs[1..][..k];
    assert cs[..k] == [cs[0]] + cs[1..][..k - 1];
    DbAfterFirst(cs[0], cs[1..][..k - 1], db);
  }

  /** Whatever is read ahead, the event of command `k` carries the start offset plus the encoded lengths of
      the commands up to and including it, the entry goes to the database of the last SELECT before it, and
      there is exactly one event for each command. */
  lemma {:induction false} OneEventEach(cs: seq<Argv>, t: Bytes, start: int, db: int, steps: nat)
    requires steps <= |cs| && Smooth(cs[..steps])
    ensures var s := EncodeStream(cs) + t;
      var es := Events(true, Live(steps), s, start + |s|, db);
      |es| == steps && forall k :: 0 <= k < steps ==> es[k] == EventOf(cs, k, start, db)
    decreases steps
  {
    hide Events, EventOf, EncodeCommand, Handle, Sizes, DbAfter, Live;
    if steps == 0 {
      NoEvents(EncodeStream(cs) + t, start + |EncodeStream(cs) + t|, db);
    } else {
      assert cs[..steps][0] == cs[0];
      var c, tail := cs[0], EncodeStream(cs[1..]) + t;
      var s := EncodeStream(cs) + t;
      assert s == EncodeCommand(c) + tail;
      EventsFirst(c, tail, start + |s|, db, steps);
      assert cs[1..][..steps - 1] == cs[..steps][1..];
      OneEventEach(cs[1..], t, start + |EncodeCommand(c)|, DbAfter([c], db), steps - 1);
      EventOfFirst(cs, start, db);
      forall k | 0 < k < steps
        ensures EventOf(cs, k, start, db) == EventOf(cs[1..], k - 1, start + |EncodeCommand(c)|, DbAfter([c], db))
      {
        EventOfLater(cs, k, start, db);
      }
    }
  }

  lemma NoEvents(s: Bytes, end: int, db: int)
    ensures Events(true, Live(0), s, end, db) == []
  {}

  lemma EventOfFirst(cs: seq<Argv>, start: int, db: int)
    requires cs != []
    ensures EventOf(cs, 0, start, db) == EventOf([cs[0]], 0, start, db)
  {
    assert cs[..1] == [cs[0]] && [cs[0]][..1] == [cs[0]] && cs[..0] == [cs[0]][..0];
  }

  /** Offsets grow with every event. */
  lemma OffsetsIncrease(cs: seq<Argv>, j: nat, k: nat, start: int, db: int)
    requires j < k < |cs|
    ensures EventOf(cs, j, start, db).offset < EventOf(cs, k, start, db).offset
  {
    StreamGrows(cs[..k + 1], j + 1);
    assert cs[..k + 1][..j + 1] == cs[..j + 1];
  }

  lemma {:induction false} StreamGrows(cs: seq<Argv>, k: nat)
    requires k < |cs|
    ensures |EncodeStream(cs[..k])| < |EncodeStream(cs)|
    decreases |cs|
  {
    hide EncodeCommand;
    if k > 0 {
      assert cs[..k][1..] == cs[1..][..k - 1];
      StreamGrows(cs[1..], k - 1);
    }
  }

  /** How many rounds begin before the context is found done. */
  ghost function RoundsBegun(ctx: seq<Round>): nat
    decreases |ctx|
  {
    if ctx == [] || ctx[0].done then 0 else 1 + RoundsBegun(ctx[1..])
  }

  /** Whatever the moment of the cancellation and whatever the selects take, what is sent is what the rounds begun
      before it would send undisturbed, except that the last report of progress may be missing: a select that
      takes the cancellation is followed by a round that finds the context done. */
  lemma {:induction false} CancelLosesAtMostOne(ctx: seq<Round>, s: Bytes, end: int, db: int)
    requires Consistent(ctx)
    ensures var all, cut := Events(true, Live(RoundsBegun(ctx)), s, end, db), Events(true, ctx, s, end, db);
      cut == all || (all != [] && all[|all| - 1].Progress? && cut == all[..|all| - 1])
    decreases |ctx|
  {
    hide ReadReply, ArrayString, Handle;
    var r := ReadReply(s);
    if ctx != [] && !ctx[0].done && r.Got? && ArrayString(r.value).Some? {
      var h := Handle(ArrayString(r.value).value);
      var n, rest := RoundsBegun(ctx), ctx[1..];
      assert Live(n)[1..] == Live(n - 1);
      assert forall i :: 0 <= i < |rest| ==> rest[i] == ctx[i + 1];
      if !h.Panics? {
        var next := if h.Selects? then h.db else db;
        var first := if h.Passes? then Send(h.argv, db, end - |r.rest|) else Progress(end - |r.rest|);
        var all := Events(true, Live(n - 1), r.rest, end, next);
        if ctx[0].cancels && !h.Passes? {
          assert Events(true, rest, r.rest, end, next) == [] && all == [];
          assert [first] + [] == [first];
        } else {
          CancelLosesAtMostOne(rest, r.rest, end, next);
          if all != [] { assert ([first] + all)[..|all|] == [first] + all[..|all| - 1]; }
        }
      }
    }
  }
}
