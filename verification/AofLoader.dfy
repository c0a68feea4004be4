/** Loading a single append-only file: the parse loop of `internal/aof/aof.go`. */
module AofLoader {
  import opened Basics
  import opened Resp
  import opened RespProof
  import opened Commands

  /** How the load ends: at the end of the file, at a bad argument, at the recovery time, or in a panic. */
  datatype Status = Done | Failed | Truncated | Crashed

  datatype Loaded = Loaded(sent: seq<Argv>, status: Status)

  /** A line without its end; at the end of the file, what there is. */
  function FileLine(s: Bytes): (r: Reading<Bytes>)
    ensures r.Got? ==> |r.rest| < |s|
  {
    var i := LineEnd(s);
    if s == [] then Broken
    else if i == |s| then Got(s, [])
    else if i > 0 && s[i - 1] == CR then Got(s[..i - 1], s[i + 1..])
    else Got(s[..i], s[i + 1..])
  }

  /** `strconv.ParseInt` with its error ignored: zero for what is no number, the nearest bound for what is
      out of range. */
  function ParseLoose(s: Bytes): int {
    match ParseInt(s)
    case Some(v) => v
    case None =>
      match ParseBig(s)
      case None => 0
      case Some(v) => if v < 0 then -HUGE - 1 else HUGE
  }

  datatype Args = BadArgs | CrashArgs | Args(argv: Argv, rest: Bytes)

  /** One argument, announced by its length. */
  function ReadArg(s: Bytes): (r: Args)
    ensures r.Args? ==> |r.argv| == 1 && |r.rest| < |s|
  {
    match FileLine(s)
    case Broken => BadArgs
    case Got(line, rest) =>
      if line == [] || line[0] != STRING then BadArgs
      else
        var n := ParseLoose(line[1..]);
        if n == -1 && rest == [] then BadArgs
        else if n < 0 || n + 2 > HUGE then CrashArgs
        else if |rest| < n + 2 then BadArgs
        else Args([rest[..n]], rest[n + 2..])
  }

  function ReadArgs(s: Bytes, n: nat): (r: Args)
    ensures r.Args? ==> |r.rest| <= |s|
    decreases n
  {
    if n == 0 then Args([], s)
    else
      var a := ReadArg(s);
      if !a.Args? then a
      else
        var more := ReadArgs(a.rest, n - 1);
        if more.Args? then Args(a.argv + more.argv, more.rest) else more
  }

  const HASH: byte := 35
  const TS: Bytes := [35, 84, 83, 58]

  datatype Note = Ignored | Reached | Unreadable

  /** An annotation line: a time stamp beyond the recovery time ends the load. */
  function ReadNote(line: Bytes, timestamp: int): Note {
    if timestamp == 0 || |line| < 4 || line[..4] != TS then Ignored
    else
      match ParseInt(line[4..])
      case None => Unreadable
      case Some(ts) => if ts > timestamp then Reached else Ignored
  }

  /** The context is found done after `turns` rounds of the loop. */
  function Load(s: Bytes, timestamp: int, turns: nat): Loaded
    decreases turns
  {
    if turns == 0 then Loaded([], Done)
    else
      match FileLine(s)
      case Broken => Loaded([], Done)
      case Got(line, rest) =>
        if line == [] then Loaded([], Crashed)
        else if line[0] == HASH then
          match ReadNote(line, timestamp)
          case Ignored => Load(rest, timestamp, turns - 1)
          case Reached => Loaded([], Truncated)
          case Unreadable => Loaded([], Crashed)
        else if line[0] != ARRAY || ParseLoose(line[1..]) < 1 then Loaded([], Crashed)
        else
          match ReadArgs(rest, ParseLoose(line[1..]))
          case BadArgs => Loaded([], Failed)
          case CrashArgs => Loaded([], Crashed)
          case Args(argv, rest) => Onto([argv], Load(rest, timestamp, turns - 1))
  }

  function Onto(sent: seq<Argv>, r: Loaded): Loaded { Loaded(sent + r.sent, r.status) }

  lemma OntoOnto(a: seq<Argv>, b: seq<Argv>, r: Loaded)
    ensures Onto(a, Onto(b, r)) == Onto(a + b, r)
  {
    assert a + (b + r.sent) == (a + b) + r.sent;
  }

  /** Arguments in front of what else is read. */
  function Before(argv: Argv, r: Args): Args { if r.Args? then Args(argv + r.argv, r.rest) else r }

  lemma BeforeBefore(a: Argv, b: Argv, r: Args)
    ensures Before(a, Before(b, r)) == Before(a + b, r)
  {
    if r.Args? { assert a + (b + r.argv) == (a + b) + r.argv; }
  }

  method ReadArgsLoop(s: Bytes, argc: nat) returns (r: Args)
    ensures r == ReadArgs(s, argc)
  {
    hide ReadArg;
    var argv: Argv := [];
    var rest := s;
    assert Before([], ReadArgs(s, argc)) == ReadArgs(s, argc);
    for j := 0 to argc
      invariant ReadArgs(s, argc) == Before(argv, ReadArgs(rest, argc - j))
    {
      var a := ReadArg(rest);
      if !a.Args? { return a; }
      BeforeBefore(argv, a.argv, ReadArgs(a.rest, argc - j - 1));
      argv, rest := argv + a.argv, a.rest;
    }
    assert argv + [] == argv;
    r := Args(argv, rest);
  }

  method LoadLoop(s: Bytes, timestamp: int, turns: nat) returns (ch: seq<Argv>, status: Status)
    ensures Loaded(ch, status) == Load(s, timestamp, turns)
  {
    hide FileLine, ReadNote, ParseLoose, ReadArgs;
    ch := [];
    var rest := s;
    assert Onto([], Load(s, timestamp, turns)) == Load(s, timestamp, turns);
    for turn := 0 to turns
      invariant Load(s, timestamp, turns) == Onto(ch, Load(rest, timestamp, turns - turn))
    {
      assert ch + [] == ch;
      var line := FileLine(rest);
      if line.Broken? { return ch, Done; }
      if line.value == [] { return ch, Crashed; }
      if line.value[0] == HASH {
        match ReadNote(line.value, timestamp)
        case Ignored => rest := line.rest;
        case Reached => return ch, Truncated;
        case Unreadable => return ch, Crashed;
      } else {
        if line.value[0] != ARRAY { return ch, Crashed; }
        var argc := ParseLoose(line.value[1..]);
        if argc < 1 { return ch, Crashed; }
        var args := ReadArgsLoop(line.rest, argc);
        if args.BadArgs? { return ch, Failed; }
        if args.CrashArgs? { return ch, Crashed; }
        OntoOnto(ch, [args.argv], Load(args.rest, timestamp, turns - turn - 1));
        ch, rest := ch + [args.argv], args.rest;
      }
    }
    assert ch + [] == ch;
    status := Done;
  }

  /** A cancelled load has sent a prefix of what an uncancelled one sends. */
  lemma {:induction false} CancelSendsPrefix(s: Bytes, timestamp: int, turns: nat, more: nat)
    ensures Load(s, timestamp, turns).sent <= Load(s, timestamp, turns + more).sent
    decreases turns
  {
    hide FileLine, ReadNote, ParseLoose, ReadArgs;
    if turns > 0 {
      var line := FileLine(s);
      if line.Got? && line.value != [] {
        if line.value[0] == HASH {
          CancelSendsPrefix(line.rest, timestamp, turns - 1, more);
        } else if line.value[0] == ARRAY && ParseLoose(line.value[1..]) >= 1 {
          var args := ReadArgs(line.rest, ParseLoose(line.value[1..]));
          if args.Args? { CancelSendsPrefix(args.rest, timestamp, turns - 1, more); }
        }
      }
    }
  }

  // ----- files that the server writes -----

  /** A command or an annotation; the text of an annotation stands behind the hash sign. */
  datatype Item = Cmd(argv: Argv) | Annotation(text: Bytes)

  ghost predicate ValidItem(i: Item, timestamp: int) {
    match i
    case Cmd(argv) => argv != [] && Sizes(argv)
    case Annotation(text) => LF !in text && !ReadNote([HASH] + text, timestamp).Unreadable?
  }

  ghost function EncodeItem(i: Item): Bytes {
    match i
    case Cmd(argv) => EncodeCommand(argv)
    case Annotation(text) => [HASH] + text + CRLF
  }

  ghost function EncodeItems(items: seq<Item>): Bytes
    decreases |items|
  {
    if items == [] then [] else EncodeItem(items[0]) + EncodeItems(items[1..])
  }

  ghost predicate Stops(i: Item, timestamp: int) {
    i.Annotation? && ReadNote([HASH] + i.text, timestamp).Reached?
  }

  /** The items before the first time stamp beyond the recovery time. */
  ghost function Kept(items: seq<Item>, timestamp: int): (k: nat)
    ensures k <= |items| && (forall i :: 0 <= i < k ==> !Stops(items[i], timestamp))
    ensures k < |items| ==> Stops(items[k], timestamp)
    decreases |items|
  {
    if items == [] || Stops(items[0], timestamp) then 0 else 1 + Kept(items[1..], timestamp)
  }

  ghost function Cmds(items: seq<Item>): seq<Argv>
    decreases |items|
  {
    if items == [] then [] else Sends(items[0]) + Cmds(items[1..])
  }

  lemma FileLineRead(line: Bytes, t: Bytes)
    requires LF !in line
    ensures FileLine(line + CRLF + t) == Got(line, t)
  {
    var s := line + CRLF + t;
    assert s == (line + [CR]) + [LF] + t;
    LineEndAt(line + [CR], t);
    assert s[..|line|] == line && s[|line| + 2..] == t;
  }

  lemma FileHeaderRead(kind: byte, n: nat, t: Bytes)
    requires n <= HUGE && kind != LF
    ensures FileLine(Header(kind, n) + t) == Got([kind] + Digits(n), t) && ParseLoose(([kind] + Digits(n))[1..]) == n
  {
    hide FileLine, ParseInt, ParseBig;
    var line := [kind] + Digits(n);
    assert Header(kind, n) + t == line + CRLF + t;
    forall i | 0 <= i < |line|
      ensures line[i] != LF
    {
      if i > 0 { assert IsDigit(Digits(n)[i - 1]); }
    }
    FileLineRead(line, t);
    ParseFormatted(n);
    assert line[1..] == Digits(n);
  }

  lemma ReadArgInverts(arg: Bytes, t: Bytes)
    requires |arg| < HUGE - 2
    ensures ReadArg(EncodeArg(arg) + t) == Args([arg], t)
  {
    hide FileLine, ParseLoose, Header, Digits;
    var body := arg + CRLF + t;
    assert EncodeArg(arg) + t == Header(STRING, |arg|) + body;
    FileHeaderRead(STRING, |arg|, body);
    assert body[..|arg|] == arg && body[|arg| + 2..] == t;
  }

  lemma {:induction false} ReadArgsInverts(args: Argv, t: Bytes)
    requires Sizes(args)
    ensures ReadArgs(EncodeArgs(args) + t, |args|) == Args(args, t)
    decreases |args|
  {
    hide ReadArg, EncodeArg;
    if args == [] {
      assert [] + t == t;
    } else {
      assert EncodeArgs(args) + t == EncodeArg(args[0]) + (EncodeArgs(args[1..]) + t);
      ReadArgInverts(args[0], EncodeArgs(args[1..]) + t);
      ReadArgsInverts(args[1..], t);
      assert [args[0]] + args[1..] == args;
    }
  }

  lemma LoadCommand(argv: Argv, t: Bytes, timestamp: int, turns: nat)
    requires turns > 0 && argv != [] && Sizes(argv)
    ensures Load(EncodeCommand(argv) + t, timestamp, turns) == Onto([argv], Load(t, timestamp, turns - 1))
  {
    hide FileLine, ReadNote, ParseLoose, ReadArgs, Header, Digits, EncodeArgs, Sizes;
    SizesBound(argv);
    assert EncodeCommand(argv) + t == Header(ARRAY, |argv|) + (EncodeArgs(argv) + t);
    FileHeaderRead(ARRAY, |argv|, EncodeArgs(argv) + t);
    ReadArgsInverts(argv, t);
  }

  lemma SizesBound(argv: Argv)
    requires Sizes(argv)
    ensures |argv| < HUGE
  {}

  lemma LoadNote(text: Bytes, t: Bytes, timestamp: int, turns: nat)
    requires turns > 0 && ValidItem(Annotation(text), timestamp)
    ensures Load([HASH] + text + CRLF + t, timestamp, turns) ==
      if Stops(Annotation(text), timestamp) then Loaded([], Truncated) else Load(t, timestamp, turns - 1)
  {
    hide FileLine, ReadNote, ParseLoose, ReadArgs;
    FileLineRead([HASH] + text, t);
  }

  ghost function Sends(i: Item): seq<Argv> { if i.Cmd? then [i.argv] else [] }

  lemma LoadItem(i: Item, t: Bytes, timestamp: int, turns: nat)
    requires turns > 0 && ValidItem(i, timestamp)
    ensures Load(EncodeItem(i) + t, timestamp, turns) ==
      if Stops(i, timestamp) then Loaded([], Truncated) else Onto(Sends(i), Load(t, timestamp, turns - 1))
  {
    hide Load, ReadNote, EncodeCommand, Sizes;
    if i.Cmd? { LoadCommand(i.argv, t, timestamp, turns); } else { LoadNote(i.text, t, timestamp, turns); }
  }

  /** The loader sends exactly the commands in the file, in order, up to the first time stamp beyond the
      recovery time, and says whether there was one, unless it is cancelled before. */
  lemma {:induction false} LoadSendsCommands(items: seq<Item>, timestamp: int, turns: nat)
    requires |items| <= turns && forall i :: 0 <= i < |items| ==> ValidItem(items[i], timestamp)
    ensures var k := Kept(items, timestamp);
      Load(EncodeItems(items), timestamp, turns) == Loaded(Cmds(items[..k]), if k < |items| then Truncated else Done)
    decreases |items|
  {
    hide Load, Stops, ValidItem, EncodeItem, Sends;
    if items == [] {
      LoadNothing(timestamp, turns);
    } else {
      LoadItem(items[0], EncodeItems(items[1..]), timestamp, turns);
      LoadSendsCommands(items[1..], timestamp, turns - 1);
      var k := Kept(items, timestamp);
      if k > 0 { assert items[..k][0] == items[0] && items[..k][1..] == items[1..][..k - 1]; }
    }
  }

  lemma LoadNothing(timestamp: int, turns: nat)
    ensures Load([], timestamp, turns) == Loaded([], Done)
  {}

  /** The two parsers agree: from the bytes written for any commands, the loader sends the commands that
      reading replies one after the other delivers. */
  lemma {:induction false} ParsersAgree(cs: seq<Argv>, timestamp: int, turns: nat)
    requires |cs| <= turns && AllSizes(cs) && forall i :: 0 <= i < |cs| ==> cs[i] != []
    ensures Load(EncodeStream(cs), timestamp, turns) == Loaded(cs, Done)
    ensures ReadItems(EncodeStream(cs), |cs|) == Got(seq(|cs|, i requires 0 <= i < |cs| => List(Strings(cs[i]))), [])
    decreases |cs|
  {
    hide Load, EncodeCommand, ReadReply, Sizes, Strings;
    if cs == [] {
      LoadNothing(timestamp, turns);
    } else {
      LoadCommand(cs[0], EncodeStream(cs[1..]), timestamp, turns);
      ReadsWhatWasWritten(cs[0], EncodeStream(cs[1..]));
      ParsersAgree(cs[1..], timestamp, turns - 1);
      assert [cs[0]] + cs[1..] == cs;
      var vs, more := seq(|cs|, i requires 0 <= i < |cs| => List(Strings(cs[i]))),
        seq(|cs[1..]|, i requires 0 <= i < |cs[1..]| => List(Strings(cs[1..][i])));
      assert [List(Strings(cs[0]))] + more == vs;
    }
  }
}
