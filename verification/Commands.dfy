/** Commands on the wire and in files, as `internal/client/proto/writer.go` writes them. */
module Commands {
  import opened Basics
  import opened Resp
  import opened RespProof

  /** A command name and its arguments. */
  type Argv = seq<Bytes>

  ghost predicate Sizes(args: Argv) {
    |args| < HUGE - 2 && forall i :: 0 <= i < |args| ==> |args[i]| < HUGE - 2
  }

  ghost function Command(args: Argv): Reply {
    Slice(ARRAY, Bulks(args))
  }

  ghost function Bulks(args: Argv): (rs: seq<Reply>)
    ensures |rs| == |args| && forall i :: 0 <= i < |args| ==> rs[i] == Bulk(STRING, args[i])
  {
    seq(|args|, i requires 0 <= i < |args| => Bulk(STRING, args[i]))
  }

  function EncodeArg(arg: Bytes): Bytes { Header(STRING, |arg|) + arg + CRLF }

  function EncodeArgs(args: Argv): Bytes
    decreases |args|
  {
    if args == [] then [] else EncodeArg(args[0]) + EncodeArgs(args[1..])
  }

  function EncodeCommand(args: Argv): (s: Bytes)
    ensures s != []
  {
    Header(ARRAY, |args|) + EncodeArgs(args)
  }

  class Writer {
    var out: Bytes
    var lenBuf: Bytes

    constructor ()
      ensures out == []
    {
      out, lenBuf := [], [];
    }

    method WriteLen(n: nat)
      modifies this
      ensures out == old(out) + (Digits(n) + CRLF)
    {
      lenBuf := Digits(n);
      lenBuf := lenBuf + CRLF;
      out := out + lenBuf;
    }

    method WriteBytes(b: Bytes)
      modifies this
      ensures out == old(out) + EncodeArg(b)
    {
      out := out + [STRING];
      WriteLen(|b|);
      out := out + b;
      out := out + CRLF;
    }

    /** Each command is appended to what is waiting to be flushed. */
    method WriteArgs(args: Argv)
      modifies this
      ensures out == old(out) + EncodeCommand(args)
    {
      hide EncodeArg;
      out := out + [ARRAY];
      WriteLen(|args|);
      assert args[0..] == args;
      for i := 0 to |args|
        invariant out + EncodeArgs(args[i..]) == old(out) + EncodeCommand(args)
      {
        ghost var before := out;
        WriteBytes(args[i]);
        assert args[i..][0] == args[i] && args[i..][1..] == args[i + 1..];
        assert out + EncodeArgs(args[i + 1..]) == before + EncodeArgs(args[i..]);
      }
      assert out + [] == out;
    }
  }

  lemma {:induction false} ArgsAreBulks(args: Argv)
    ensures EncodeArgs(args) == EncodeAll(Bulks(args))
    decreases |args|
  {
    hide Header;
    if args != [] {
      ArgsAreBulks(args[1..]);
      assert Bulks(args)[1..] == Bulks(args[1..]);
    }
  }

  ghost function Strings(args: Argv): (vs: seq<Value>)
    ensures |vs| == |args| && forall i :: 0 <= i < |args| ==> vs[i] == Str(args[i])
  {
    seq(|args|, i requires 0 <= i < |args| => Str(args[i]))
  }

  lemma {:induction false} BulksMean(args: Argv)
    requires Sizes(args)
    ensures MeaningAll(Bulks(args)) == Strings(args)
    decreases |args|
  {
    if args == [] {
      assert Bulks(args) == [] && Strings(args) == [];
    } else {
      assert Sizes(args[1..]);
      BulksMean(args[1..]);
      assert Bulks(args)[1..] == Bulks(args[1..]);
      assert [Str(args[0])] + Strings(args[1..]) == Strings(args);
    }
  }

  /** What was written is read back, for arguments of any bytes, and nothing behind it is touched. */
  lemma ReadsWhatWasWritten(args: Argv, t: Bytes)
    requires Sizes(args)
    ensures ReadReply(EncodeCommand(args) + t) == Got(List(Strings(args)), t)
  {
    hide ReadReply, Header, EncodeArgs, EncodeAll, MeaningAll;
    ArgsAreBulks(args);
    BulksMean(args);
    ReadReplyInverts(Command(args), t);
  }

  ghost predicate AllSizes(cs: seq<Argv>) {
    forall i :: 0 <= i < |cs| ==> Sizes(cs[i])
  }

  ghost function EncodeStream(cs: seq<Argv>): Bytes
    decreases |cs|
  {
    if cs == [] then [] else EncodeCommand(cs[0]) + EncodeStream(cs[1..])
  }
}
