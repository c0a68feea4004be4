/** The reader of `internal/client/proto/reader.go` over a buffer that reads ahead: however the bytes come
    in, it reads what `Resp` says and accounts for exactly the bytes it used. */
module RespReader {
  import opened Basics
  import opened Resp

  class Reader {
    /** Bytes the file has not delivered yet, and how far delivery has come. */
    var file: Bytes
    var offset: int
    /** Bytes delivered and not used. */
    var buf: Bytes
    /** How much the file delivers at a time, beyond one byte. */
    const chunk: nat -> nat
    var fills: nat

    constructor (start: int, file: Bytes, chunk: nat -> nat)
      ensures this.file == file && offset == start && buf == []
    {
      this.file, offset, buf, this.chunk, fills := file, start, [], chunk, 0;
    }

    /** Everything that is still to be used. */
    ghost function Stream(): Bytes
      reads this
    {
      buf + file
    }

    /** Where the stream ends, counted from where it began. */
    ghost function End(): int
      reads this
    {
      offset + |file|
    }

    /** The position behind the last byte used: `aofReader.Offset() - protoReader.Buffered()`. */
    function Position(): (p: int)
      reads this
      ensures p == End() - |Stream()|
    {
      offset - |buf|
    }

    method Fill()
      requires file != []
      modifies this
      ensures Stream() == old(Stream()) && End() == old(End()) && |file| < old(|file|)
    {
      var n := 1 + Min(chunk(fills), |file| - 1);
      assert file == file[..n] + file[n..];
      buf, file, offset, fills := buf + file[..n], file[n..], offset + n, fills + 1;
    }

    /** Read ahead until `n` bytes are there or the file has no more. */
    method Need(n: nat)
      modifies this
      ensures Stream() == old(Stream()) && End() == old(End()) && (|buf| >= n || file == [])
    {
      while |buf| < n && file != []
        invariant Stream() == old(Stream()) && End() == old(End())
        decreases |file|
      {
        Fill();
      }
    }

    method Take(n: nat) returns (b: Bytes)
      requires n <= |buf|
      modifies this
      ensures b == old(Stream())[..n] && Stream() == old(Stream())[n..] && End() == old(End())
    {
      b := buf[..n];
      assert (buf + file)[..n] == buf[..n] && (buf + file)[n..] == buf[n..] + file;
      buf := buf[n..];
    }

    method NextLine() returns (r: Option<Bytes>)
      modifies this
      ensures End() == old(End())
      ensures match ReadLine(old(Stream()))
        case Broken => r.None?
        case Got(line, rest) => r == Some(line) && Stream() == rest
    {
      while LineEnd(buf) == |buf| && file != []
        invariant Stream() == old(Stream()) && End() == old(End())
        decreases |file|
      {
        Fill();
      }
      var i := LineEnd(buf);
      SameLine(buf, file);
      if i == |buf| || i + 1 <= 2 || buf[i - 1] != CR {
        r := None;
      } else {
        var b := Take(i + 1);
        assert b[..i - 1] == old(Stream())[..i - 1];
        r := Some(b[..i - 1]);
      }
    }

    /** `n` bytes and two more, of which the first `n` count. */
    method Body(n: nat) returns (r: Option<Bytes>)
      modifies this
      ensures End() == old(End())
      ensures r.Some? <==> n + 2 <= |old(Stream())|
      ensures r.Some? ==> r.value == old(Stream())[..n] && Stream() == old(Stream())[n + 2..]
    {
      Need(n + 2);
      if |buf| < n + 2 { return None; }
      var b := Take(n + 2);
      r := Some(b[..n]);
    }

    method SkipNext() returns (ok: bool)
      modifies this
      ensures End() == old(End()) && ok == DiscardNext(old(Stream())).Some?
      ensures ok ==> Stream() == DiscardNext(old(Stream())).value
      decreases |Stream()|, 0, 0
    {
      hide ReadLine, ReplyLen;
      var line := NextLine();
      if line.None? { return false; }
      ok := Skip(line.value);
    }

    method Skip(line: Bytes) returns (ok: bool)
      requires line != []
      modifies this
      ensures End() == old(End()) && ok == Discard(line, old(Stream())).Some?
      ensures ok ==> Stream() == Discard(line, old(Stream())).value
      decreases |Stream()|, 2, 0
    {
      hide ReplyLen, DiscardMany;
      if OneLiner(line[0]) { return true; }
      var len := ReplyLen(line);
      if len.BadLen? { return false; }
      var n := if len.NilLen? then 0 else len.n;
      if IsBulk(line[0]) {
        var b := Body(n);
        ok := b.Some?;
      } else if IsSlice(line[0]) {
        ok := SkipMany(n);
      } else if line[0] == MAP || line[0] == ATTR {
        ok := SkipMany(2 * n);
      } else {
        ok := false;
      }
    }

    method SkipMany(n: nat) returns (ok: bool)
      modifies this
      ensures End() == old(End()) && ok == DiscardMany(old(Stream()), n).Some?
      ensures ok ==> Stream() == DiscardMany(old(Stream()), n).value
      decreases |Stream()|, 1, n
    {
      hide DiscardNext;
      for i := 0 to n
        invariant End() == old(End()) && |Stream()| <= |old(Stream())| && (i > 0 ==> |Stream()| < |old(Stream())|)
        invariant DiscardMany(old(Stream()), n) == DiscardMany(Stream(), n - i)
      {
        var one := SkipNext();
        if !one { return false; }
      }
      return true;
    }

    method Reply() returns (r: Option<Value>)
      modifies this
      ensures End() == old(End())
      ensures match ReadReply(old(Stream()))
        case Broken => r.None?
        case Got(v, rest) => r == Some(v) && Stream() == rest
      decreases |Stream()|, 0, 0
    {
      hide ReadLine, ReplyLen, ReadBody, Discard;
      var got := NextLine();
      if got.None? { return None; }
      var line := got.value;
      if line[0] == ERROR { return Some(Err(line[1..])); }
      if line[0] == NIL { return Some(Nil); }
      if line[0] == BLOBERROR {
        var b := StringBody(line);
        if b.None? { return None; }
        return Some(if b.value.Str? then Err(b.value.bytes) else b.value);
      }
      if line[0] == ATTR {
        var ok := Skip(line);
        if !ok { return None; }
        r := Reply();
      } else if IsNilReply(line) {
        r := Some(Nil);
      } else {
        r := ReplyBody(line);
      }
    }

    method StringBody(line: Bytes) returns (r: Option<Value>)
      requires line != []
      modifies this
      ensures End() == old(End())
      ensures match ReadBulk(line, old(Stream()))
        case Broken => r.None?
        case Got(v, rest) => r == Some(v) && Stream() == rest
    {
      match ReplyLen(line)
      case BadLen => r := None;
      case NilLen => r := Some(Nil);
      case Len(n) =>
        var b := Body(n);
        r := if b.None? then None else Some(Str(b.value));
    }

    method ReplyBody(line: Bytes) returns (r: Option<Value>)
      requires line != []
      modifies this
      ensures End() == old(End())
      ensures match ReadBody(line, old(Stream()))
        case Broken => r.None?
        case Got(v, rest) => r == Some(v) && Stream() == rest
      decreases |Stream()|, 3, 0
    {
      hide ReplyLen, ReadBulk, ReadItems, ReadPairs, ParseInt, ParseBig;
      if line[0] == STRING {
        r := StringBody(line);
      } else if line[0] == VERBATIM {
        r := StringBody(line);
        if r.Some? && r.value.Str? {
          var s := r.value.bytes;
          r := if |s| < 4 || s[3] != COLON then None else Some(Str(s[4..]));
        }
      } else if IsSlice(line[0]) || line[0] == MAP {
        match ReplyLen(line)
        case BadLen => r := None;
        case NilLen => r := Some(Nil);
        case Len(n) =>
          if line[0] == MAP {
            r := Pairs(n);
          } else {
            var items := Items(n);
            r := if items.None? then None else Some(List(items.value));
          }
      } else {
        var v := ReadScalar(line, []);
        r := if v.Broken? then None else Some(v.value);
      }
    }

    method Items(n: nat) returns (r: Option<seq<Value>>)
      modifies this
      ensures End() == old(End())
      ensures match ReadItems(old(Stream()), n)
        case Broken => r.None?
        case Got(vs, rest) => r == Some(vs) && Stream() == rest
      decreases |Stream()|, 1, n
    {
      hide ReadReply;
      var have: seq<Value> := [];
      ItemsFrom(have, Stream(), n);
      for i := 0 to n
        invariant End() == old(End()) && |Stream()| <= |old(Stream())| && (i > 0 ==> |Stream()| < |old(Stream())|)
        invariant ReadItems(old(Stream()), n) == After(have, ReadItems(Stream(), n - i))
      {
        ghost var s := Stream();
        var v := Reply();
        if v.None? { return None; }
        AfterOneMore(have, v.value, ReadItems(Stream(), n - i - 1));
        have := have + [v.value];
      }
      assert have + [] == have;
      r := Some(have);
    }

    method Pairs(n: nat) returns (r: Option<Value>)
      modifies this
      ensures End() == old(End())
      ensures match ReadPairs([], old(Stream()), n)
        case Broken => r.None?
        case Got(v, rest) => r == Some(v) && Stream() == rest
      decreases |Stream()|, 1, n
    {
      hide ReadReply;
      var have: seq<(Value, Value)> := [];
      for i := 0 to n
        invariant End() == old(End()) && |Stream()| <= |old(Stream())| && (i > 0 ==> |Stream()| < |old(Stream())|)
        invariant ReadPairs([], old(Stream()), n) == ReadPairs(have, Stream(), n - i)
      {
        var k := Reply();
        if k.None? { return None; }
        if IsError(k.value) { return k; }
        var v := Reply();
        if v.None? || k.value.List? || k.value.Dict? { return None; }
        have := have + [(k.value, v.value)];
      }
      r := Some(Dict(have));
    }
  }

  /** A line that ends in the buffer ends there in the stream. */
  lemma {:induction false} SameLine(buf: Bytes, file: Bytes)
    ensures LineEnd(buf) < |buf| || file == [] ==> LineEnd(buf + file) == LineEnd(buf)
    decreases |buf|
  {
    if file == [] {
      assert buf + file == buf;
    } else if buf != [] && buf[0] != LF {
      SameLine(buf[1..], file);
      assert (buf + file)[1..] == buf[1..] + file;
    }
  }

  ghost function After(have: seq<Value>, r: Reading<seq<Value>>): Reading<seq<Value>> {
    match r
    case Broken => Broken
    case Got(vs, rest) => Got(have + vs, rest)
  }

  lemma ItemsFrom(have: seq<Value>, s: Bytes, n: nat)
    requires have == []
    ensures After(have, ReadItems(s, n)) == ReadItems(s, n)
  {
    hide ReadItems;
    if ReadItems(s, n).Got? { assert have + ReadItems(s, n).value == ReadItems(s, n).value; }
  }

  lemma AfterOneMore(have: seq<Value>, v: Value, r: Reading<seq<Value>>)
    ensures After(have, After([v], r)) == After(have + [v], r)
  {
    if r.Got? { assert have + ([v] + r.value) == (have + [v]) + r.value; }
  }
}
