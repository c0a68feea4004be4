/** LZF decompression of an RDB string: `lzfDecompress` of `internal/rdb/structure/string.go`. */
module Lzf {
  import opened Basics

  /** What a compressed string is made of: runs of literal bytes and references to earlier output. */
  datatype Token = Literal(bytes: Bytes) | Copy(dist: nat, len: nat)

  /** `len` more bytes, each equal to the one `dist` before it; the reference may run into itself. */
  function CopyBack(out: Bytes, dist: nat, len: nat): (r: Bytes)
    requires 1 <= dist <= |out|
    ensures |r| == |out| + len && r[..|out|] == out
    decreases len
  {
    if len == 0 then out
    else
      var more := out + [out[|out| - dist]];
      assert more[..|out|] == out;
      var r := CopyBack(more, dist, len - 1);
      assert r[..|out|] == r[..|more|][..|out|];
      r
  }

  /** A back reference repeats the output with period `dist`. */
  lemma {:induction false} CopyIsPeriodic(out: Bytes, dist: nat, len: nat)
    requires 1 <= dist <= |out|
    ensures forall p :: |out| <= p < |out| + len ==> CopyBack(out, dist, len)[p] == CopyBack(out, dist, len)[p - dist]
    decreases len
  {
    if len > 0 {
      var more := out + [out[|out| - dist]];
      CopyIsPeriodic(more, dist, len - 1);
      var r := CopyBack(more, dist, len - 1);
      assert r[..|more|] == more;
      forall p | |out| <= p < |r|
        ensures r[p] == r[p - dist]
      {
        if p == |out| {
          assert r[p] == r[..|more|][p] == more[p] == out[p - dist];
          assert r[p - dist] == r[..|more|][p - dist] == more[p - dist] == out[p - dist];
        }
      }
    }
  }

  ghost predicate ValidToken(produced: nat, t: Token) {
    match t
    case Literal(bytes) => 1 <= |bytes| <= 32
    case Copy(dist, len) => 1 <= dist <= 8192 && dist <= produced && 3 <= len <= 264
  }

  ghost predicate ValidTokens(produced: nat, ts: seq<Token>)
    decreases |ts|
  {
    ts == [] || (ValidToken(produced, ts[0]) && ValidTokens(produced + Length(ts[0]), ts[1..]))
  }

  ghost function Length(t: Token): nat {
    match t
    case Literal(bytes) => |bytes|
    case Copy(_, len) => len
  }

  /** The bytes that tokens stand for, after `out`. */
  ghost function Expand(out: Bytes, ts: seq<Token>): Bytes
    requires ValidTokens(|out|, ts)
    decreases |ts|
  {
    if ts == [] then out
    else match ts[0]
      case Literal(bytes) => Expand(out + bytes, ts[1..])
      case Copy(dist, len) => Expand(CopyBack(out, dist, len), ts[1..])
  }

  ghost function EncodeToken(produced: nat, t: Token): Bytes
    requires ValidToken(produced, t)
  {
    match t
    case Literal(bytes) => [|bytes| - 1] + bytes
    case Copy(dist, len) =>
      var high, low, n := (dist - 1) / 256, (dist - 1) % 256, len - 2;
      if n < 7 then [n * 32 + high, low] else [7 * 32 + high, n - 7, low]
  }

  ghost function Encode(produced: nat, ts: seq<Token>): Bytes
    requires ValidTokens(produced, ts)
    decreases |ts|
  {
    if ts == [] then [] else EncodeToken(produced, ts[0]) + Encode(produced + Length(ts[0]), ts[1..])
  }

  /** Distance and length of the back reference at the front of `s`, and the bytes it takes; none if
      the input ends inside it. */
  function ReadCopy(s: Bytes): Option<(nat, nat, nat)>
    requires s != [] && s[0] >= 32
  {
    var ctrl: int := s[0];
    if ctrl / 32 == 7 then
      if |s| < 3 then None
      else
        var more: int, low: int := s[1], s[2];
        Some(((ctrl % 32) * 256 + low + 1, 7 + more + 2, 3))
    else if |s| < 2 then None
    else
      var low: int := s[1];
      Some(((ctrl % 32) * 256 + low + 1, ctrl / 32 + 2, 2))
  }

  /** What the input decodes to, without regard to a declared length. */
  function Decode(s: Bytes, out: Bytes): (r: Option<Bytes>)
    ensures r.Some? ==> |r.value| >= |out|
    decreases |s|
  {
    if s == [] then Some(out)
    else if s[0] < 32 then
      if |s| < s[0] + 2 then None else Decode(s[s[0] + 2..], out + s[1..s[0] + 2])
    else
      match ReadCopy(s)
      case None => None
      case Some((dist, len, used)) => if dist > |out| then None else Decode(s[used..], CopyBack(out, dist, len))
  }

  /** The in-place loop: it succeeds exactly if the whole input decodes to as many bytes as declared,
      and then returns them. Any index outside the input or the output ends it. */
  method LzfDecompress(s: Bytes, outLen: nat) returns (r: Option<Bytes>)
    ensures r == match Decode(s, [])
                 case None => None
                 case Some(all) => if |all| == outLen then Some(all) else None
  {
    hide Decode, CopyBack;
    var out := new byte[outLen](_ => 0);
    var i, o := 0, 0;
    assert s[0..] == s && out[..0] == [];
    while i < |s|
      invariant 0 <= i <= |s| && 0 <= o <= outLen
      invariant Decode(s[i..], out[..o]) == Decode(s, [])
    {
      var ctrl: int := s[i];
      if ctrl < 32 {
        DecodeLiteral(s, i, out[..o]);
        var ok;
        ok, i, o := CopyLiteral(s, i + 1, out, o, ctrl + 1);
        if !ok { return None; }
      } else {
        DecodeCopy(s, i, out[..o]);
        var length: int := ctrl / 32;
        i := i + 1;
        if length == 7 {
          if i >= |s| { return None; }
          length := length + s[i];
          i := i + 1;
        }
        if i >= |s| { return None; }
        var low: int := s[i];
        var ref := o - (ctrl % 32) * 256 - low - 1;
        i := i + 1;
        if ref < 0 { return None; }
        var ok;
        ok, o := CopyReference(out, o, ref, length + 2);
        if !ok { return None; }
      }
    }
    DecodeEnd(s, i, out[..o]);
    if o != outLen { return None; }
    assert out[..o] == out[..];
    return Some(out[..]);
  }

  lemma DecodeEnd(s: Bytes, i: nat, out: Bytes)
    requires i == |s|
    ensures s[i..] == [] && Decode(s[i..], out) == Some(out)
  {}

  lemma DecodeLiteral(s: Bytes, i: nat, out: Bytes)
    requires i < |s| && s[i] < 32
    ensures var end: int := i + s[i] + 2;
      Decode(s[i..], out) == if end > |s| then None else Decode(s[end..], out + s[i + 1..end])
  {
    var end: int := i + s[i] + 2;
    if end <= |s| {
      assert s[i..][s[i] + 2..] == s[end..] && s[i..][1..s[i] + 2] == s[i + 1..end];
    }
  }

  /** A back reference in the middle of the input. */
  lemma ReadCopyAt(s: Bytes, i: nat)
    requires i < |s| && s[i] >= 32
    ensures var ctrl: int := s[i]; var long := ctrl / 32 == 7; var end := i + (if long then 3 else 2);
      if end > |s| then ReadCopy(s[i..]) == None
      else
        var low: int := s[end - 1]; var more: int := if long then s[i + 1] else 0;
        ReadCopy(s[i..]) == Some(((ctrl % 32) * 256 + low + 1, ctrl / 32 + more + 2, end - i))
  {}

  lemma DecodeCopyFront(s: Bytes, out: Bytes)
    requires s != [] && s[0] >= 32
    ensures var c := ReadCopy(s);
      Decode(s, out) == if c.None? || c.value.0 > |out| then None
          else Decode(s[c.value.2..], CopyBack(out, c.value.0, c.value.1))
  {
    hide CopyBack;
  }

  /** What the bytes of a back reference mean, read one after the other. */
  lemma DecodeCopy(s: Bytes, i: nat, out: Bytes)
    requires i < |s| && s[i] >= 32
    ensures var ctrl: int := s[i]; var long := ctrl / 32 == 7; var end := i + (if long then 3 else 2);
      if end > |s| then Decode(s[i..], out) == None
      else
        var low: int := s[end - 1]; var more: int := if long then s[i + 1] else 0;
        var dist := (ctrl % 32) * 256 + low + 1;
        Decode(s[i..], out) == if dist > |out| then None
            else Decode(s[end..], CopyBack(out, dist, ctrl / 32 + more + 2))
  {
    hide CopyBack, ReadCopy, Decode;
    ReadCopyAt(s, i);
    DecodeCopyFront(s[i..], out);
    var long := s[i] / 32 == 7;
    var used := if long then 3 else 2;
    if i + used <= |s| { assert s[i..][used..] == s[i + used..]; }
  }

  /** The literal loop: `n` bytes of input to the output, as far as both reach. */
  method CopyLiteral(s: Bytes, from: nat, out: array<byte>, at: nat, n: nat) returns (ok: bool, i: nat, o: nat)
    requires from <= |s| && at <= out.Length
    modifies out
    ensures ok == (from + n <= |s| && at + n <= out.Length)
    ensures ok ==> i == from + n && o == at + n && out[..o] == old(out[..at]) + s[from..i]
  {
    i, o, ok := from, at, true;
    for x := 0 to n
      invariant i == from + x <= |s| && o == at + x <= out.Length
      invariant out[..o] == old(out[..at]) + s[from..i]
    {
      if o >= out.Length || i >= |s| { ok := false; return; }
      out[o] := s[i];
      i, o := i + 1, o + 1;
    }
  }

  /** The reference loop: `n` bytes of output from earlier output, front to back. */
  method CopyReference(out: array<byte>, at: nat, from: nat, n: nat) returns (ok: bool, o: nat)
    requires from < at <= out.Length
    modifies out
    ensures ok == (at + n <= out.Length)
    ensures ok ==> o == at + n && out[..o] == CopyBack(old(out[..at]), at - from, n)
  {
    var ref := from;
    o, ok := at, true;
    for x := 0 to n
      invariant o == at + x <= out.Length && ref == from + x
      invariant CopyBack(out[..o], at - from, n - x) == CopyBack(old(out[..at]), at - from, n)
    {
      if o >= out.Length { ok := false; return; }
      ghost var before := out[..o];
      out[o] := out[ref];
      ref, o := ref + 1, o + 1;
      assert out[..o] == before + [before[|before| - (at - from)]];
    }
  }

  // ----- decompression inverts encoding -----

  lemma {:induction false} ExpandLength(out: Bytes, ts: seq<Token>)
    requires ValidTokens(|out|, ts)
    ensures |Expand(out, ts)| >= |out|
    decreases |ts|
  {
    if ts != [] {
      match ts[0]
      case Literal(bytes) => ExpandLength(out + bytes, ts[1..]);
      case Copy(dist, len) => ExpandLength(CopyBack(out, dist, len), ts[1..]);
    }
  }

  lemma EncodedCopy(produced: nat, t: Token, rest: Bytes)
    requires ValidToken(produced, t) && t.Copy?
    ensures var s := EncodeToken(produced, t) + rest;
      s[0] >= 32 && ReadCopy(s) == Some((t.dist, t.len, |EncodeToken(produced, t)|))
  {
    var high, n := (t.dist - 1) / 256, t.len - 2;
    assert 0 <= high < 32;
    if n < 7 {
      assert (n * 32 + high) / 32 == n && (n * 32 + high) % 32 == high;
    } else {
      assert (7 * 32 + high) / 32 == 7 && (7 * 32 + high) % 32 == high;
    }
  }

  /** One token at the front of an input. */
  lemma DecodeToken(out: Bytes, t: Token, rest: Bytes)
    requires ValidToken(|out|, t)
    ensures Decode(EncodeToken(|out|, t) + rest, out) ==
        Decode(rest, if t.Literal? then out + t.bytes else CopyBack(out, t.dist, t.len))
  {
    hide CopyBack;
    var head := EncodeToken(|out|, t);
    var s := head + rest;
    assert s[|head|..] == rest && s != [];
    if t.Literal? {
      assert s[1..|head|] == t.bytes;
    } else {
      EncodedCopy(|out|, t, rest);
    }
  }

  /** For every sequence of literal runs and back references, overlapping ones included, decoding the
      encoding gives the byte-by-byte expansion. */
  lemma {:induction false} DecodeInvertsEncode(out: Bytes, ts: seq<Token>)
    requires ValidTokens(|out|, ts)
    ensures Decode(Encode(|out|, ts), out) == Some(Expand(out, ts))
    decreases |ts|
  {
    hide Decode, CopyBack, EncodeToken;
    if ts == [] {
      DecodeEnd([], 0, out);
    } else {
      var t := ts[0];
      DecodeToken(out, t, Encode(|out| + Length(t), ts[1..]));
      DecodeInvertsEncode(if t.Literal? then out + t.bytes else CopyBack(out, t.dist, t.len), ts[1..]);
    }
  }

  /** The token at the front of an input that decodes. */
  lemma FrontToken(s: Bytes, produced: nat) returns (t: Token, used: nat)
    requires s != [] && (s[0] < 32 ==> |s| >= s[0] + 2)
    requires s[0] >= 32 ==> ReadCopy(s).Some? && ReadCopy(s).value.0 <= produced
    ensures ValidToken(produced, t) && 0 < used <= |s| && EncodeToken(produced, t) == s[..used]
    ensures s[0] < 32 ==> t == Literal(s[1..s[0] + 2]) && used == s[0] + 2
    ensures s[0] >= 32 ==> t == Copy(ReadCopy(s).value.0, ReadCopy(s).value.1) && used == ReadCopy(s).value.2
  {
    if s[0] < 32 {
      t, used := Literal(s[1..s[0] + 2]), s[0] + 2;
    } else {
      var (dist, len, n) := ReadCopy(s).value;
      t, used := Copy(dist, len), n;
      var ctrl: int := s[0];
      var low: int := if n == 3 then s[2] else s[1];
      assert (ctrl / 32) * 32 + ctrl % 32 == ctrl;
      assert ((ctrl % 32) * 256 + low) / 256 == ctrl % 32 && ((ctrl % 32) * 256 + low) % 256 == low;
    }
  }

  /** Nothing else decodes: an input that decodes is the encoding of some tokens, so together with
      the lemma above the loop accepts exactly the encodings of the declared length. */
  lemma {:induction false} OnlyEncodingsDecode(s: Bytes, out: Bytes) returns (ts: seq<Token>)
    requires Decode(s, out).Some?
    ensures ValidTokens(|out|, ts) && Encode(|out|, ts) == s && Decode(s, out) == Some(Expand(out, ts))
    decreases |s|, 1
  {
    if s == [] {
      ts := [];
    } else {
      var t, used := FrontToken(s, |out|);
      ts := PrependToken(s, out, t, used);
    }
  }

  lemma PrependToken(s: Bytes, out: Bytes, t: Token, used: nat) returns (ts: seq<Token>)
    requires ValidToken(|out|, t) && 0 < used <= |s| && EncodeToken(|out|, t) == s[..used] && Decode(s, out).Some?
    ensures ValidTokens(|out|, ts) && Encode(|out|, ts) == s && Decode(s, out) == Some(Expand(out, ts))
    decreases |s|, 0
  {
    hide Decode, CopyBack, EncodeToken;
    assert s == s[..used] + s[used..];
    DecodeToken(out, t, s[used..]);
    var more := OnlyEncodingsDecode(s[used..], if t.Literal? then out + t.bytes else CopyBack(out, t.dist, t.len));
    ts := [t] + more;
    assert ts[1..] == more;
  }
}
