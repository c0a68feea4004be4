/** The objects of the program, which read a stream and send commands down a channel.  Its three
    structures for lists, sets and hashes have the same fields and are one class here. */
module RewriteObject {
  import opened Basics
  import opened RdbStrings
  import opened RewriteTarget
  import opened Rewrite
  import Listpack
  import Ziplist
  import Intset

  class Object {
    const key: Bytes
    const typeByte: int
    const valkey: bool
    var rd: Bytes
    var sent: seq<Cmd>

    constructor (key: Bytes, typeByte: int, valkey: bool, rd: Bytes)
      ensures this.key == key && this.typeByte == typeByte && this.valkey == valkey && this.rd == rd && sent == []
    {
      this.key, this.typeByte, this.valkey, this.rd, sent := key, typeByte, valkey, rd, [];
    }

    /** What came out is `r`; `ok` says that there was no panic. */
    ghost predicate Did(was: seq<Cmd>, r: Out, ok: bool)
      reads this
    {
      sent == was + r.sent && ok == r.left.Some? && (ok ==> rd == r.left.value)
    }

    method SendElements(kind: Kind, es: seq<Bytes>)
      modifies this`sent
      ensures sent == old(sent) + SendAll(kind, key, es)
    {
      for i := 0 to |es|
        invariant sent == old(sent) + SendAll(kind, key, es)[..i]
      {
        sent := sent + [One(kind, key, es[i])];
      }
    }

    /** Send the elements of a container, if it could be read. */
    method SendContainer(kind: Kind, r: Parsed<seq<Bytes>>) returns (ok: bool)
      modifies this
      ensures Did(old(sent), Sending(kind, key, r), ok)
    {
      if r.Panic? {
        assert sent == old(sent) + [];
        return false;
      }
      rd := r.rest;
      SendElements(kind, r.value);
      return true;
    }

    method ReadPlainLoop(kind: Kind, size: nat) returns (ok: bool)
      modifies this
      ensures Did(old(sent), ReadPlain(kind, key, old(rd), size), ok)
    {
      hide ReadString, One;
      ghost var all := ReadPlain(kind, key, rd, size);
      ghost var out: seq<Cmd> := [];
      assert Emit([], all) == all;
      for i := 0 to size
        invariant sent == old(sent) + out && all == Emit(out, ReadPlain(kind, key, rd, size - i))
      {
        var ele := ReadString(rd);
        if ele.Panic? { return false; }
        EmitMore(out, [One(kind, key, ele.value)], ReadPlain(kind, key, ele.rest, size - i - 1));
        sent, rd := sent + [One(kind, key, ele.value)], ele.rest;
        out := out + [One(kind, key, ele.value)];
      }
      return true;
    }

    method ReadQuickLoop(size: nat) returns (ok: bool)
      modifies this
      ensures Did(old(sent), ReadQuick(key, old(rd), size), ok)
    {
      hide Ziplist.ReadZipList, SendAll;
      ghost var all := ReadQuick(key, rd, size);
      ghost var out: seq<Cmd> := [];
      assert Emit([], all) == all;
      for i := 0 to size
        invariant sent == old(sent) + out && all == Emit(out, ReadQuick(key, rd, size - i))
      {
        var node := Ziplist.ReadZipList(rd);
        if node.Panic? { return false; }
        rd := node.rest;
        SendElements(OfList, node.value);
        EmitMore(out, SendAll(OfList, key, node.value), ReadQuick(key, rd, size - i - 1));
        out := out + SendAll(OfList, key, node.value);
      }
      return true;
    }

    method ReadQuick2Loop(size: nat) returns (ok: bool)
      modifies this
      ensures Did(old(sent), ReadQuick2(key, old(rd), size), ok)
    {
      hide ReadNode, SendAll;
      ghost var all := ReadQuick2(key, rd, size);
      ghost var out: seq<Cmd> := [];
      assert Emit([], all) == all;
      for i := 0 to size
        invariant sent == old(sent) + out && all == Emit(out, ReadQuick2(key, rd, size - i))
      {
        var node := ReadNode(rd);
        if node.Panic? { return false; }
        rd := node.rest;
        SendElements(OfList, node.value);
        EmitMore(out, SendAll(OfList, key, node.value), ReadQuick2(key, rd, size - i - 1));
        out := out + SendAll(OfList, key, node.value);
      }
      return true;
    }

    method ReadFieldsLoop(layout: Layout, size: nat) returns (ok: bool)
      modifies this
      ensures Did(old(sent), ReadFields(layout, key, old(rd), size), ok)
    {
      hide ReadField, SendField;
      ghost var all := ReadFields(layout, key, rd, size);
      ghost var out: seq<Cmd> := [];
      assert Emit([], all) == all;
      for i := 0 to size
        invariant sent == old(sent) + out && all == Emit(out, ReadFields(layout, key, rd, size - i))
      {
        var f := ReadField(layout, rd);
        if f.Panic? { return false; }
        EmitMore(out, SendField(key, f.value), ReadFields(layout, key, f.rest, size - i - 1));
        sent, rd := sent + SendField(key, f.value), f.rest;
        out := out + SendField(key, f.value);
      }
      return true;
    }

    /** The loops over pairs and over triples, in steps of `width`. */
    method SendTuples(width: nat, list: seq<Bytes>) returns (ok: bool)
      requires width == 2 || width == 3
      modifies this`sent
      ensures Did(old(sent), SendingHash(key, width, Ok(list, old(rd))), ok)
    {
      hide SendField, ParseInt;
      ghost var all := SendingHash(key, width, Ok(list, rd));
      ghost var out: seq<Cmd> := [];
      assert list[0..] == list && Emit([], all) == all;
      var i := 0;
      while i < |list|
        invariant i <= |list| && sent == old(sent) + out && all == Emit(out, SendingHash(key, width, Ok(list[i..], rd)))
      {
        if i + width > |list| { return false; }
        ghost var ahead := SendingHash(key, width, Ok(list[i + width..], rd));
        assert list[i..][width..] == list[i + width..];
        if width == 2 {
          EmitMore(out, [HSet(key, list[i], list[i + 1])], ahead);
          sent := sent + [HSet(key, list[i], list[i + 1])];
          out := out + [HSet(key, list[i], list[i + 1])];
        } else {
          var at := ParseInt(list[i + 2]);
          if at.None? { return false; }
          var cmds := SendField(key, FieldAt(list[i], list[i + 1], at.value));
          EmitMore(out, cmds, ahead);
          sent := sent + cmds;
          out := out + cmds;
        }
        i := i + width;
      }
      return true;
    }

    method RewriteListObject() returns (ok: bool)
      modifies this
      ensures Did(old(sent), RewriteList(typeByte, key, old(rd)), ok)
    {
      hide ReadPlain, ReadQuick, ReadQuick2, ReadLength, Ziplist.ReadZipList, Sending;
      sent := sent + [Del(key)];
      if typeByte == 10 {
        ok := SendContainer(OfList, Ziplist.ReadZipList(rd));
      } else if typeByte == 1 || typeByte == 14 || typeByte == 18 {
        var size := ReadLength(rd);
        if size.Panic? { return false; }
        rd := size.rest;
        if typeByte == 1 { ok := ReadPlainLoop(OfList, Count(size.value)); }
        else if typeByte == 14 { ok := ReadQuickLoop(Count(size.value)); }
        else { ok := ReadQuick2Loop(Count(size.value)); }
      } else {
        ok := false;
      }
    }

    method RewriteSetObject() returns (ok: bool)
      modifies this
      ensures Did(old(sent), RewriteSet(typeByte, key, old(rd)), ok)
    {
      hide ReadPlain, ReadLength, Listpack.ReadListpack, Intset.ReadIntset, Sending;
      sent := sent + [Del(key)];
      if typeByte == 2 {
        var size := ReadLength(rd);
        if size.Panic? { return false; }
        rd := size.rest;
        ok := ReadPlainLoop(OfSet, Count(size.value));
      } else if typeByte == 11 {
        ok := SendContainer(OfSet, Intset.ReadIntset(rd));
      } else if typeByte == 20 {
        ok := SendContainer(OfSet, Listpack.ReadListpack(rd));
      } else {
        ok := false;
      }
    }

    method CountedFields(layout: Layout) returns (ok: bool)
      modifies this
      ensures Did(old(sent), ReadCountedFields(layout, key, old(rd)), ok)
    {
      hide ReadFields, ReadLength;
      var size := ReadLength(rd);
      if size.Panic? { return false; }
      rd := size.rest;
      ok := ReadFieldsLoop(layout, Count(size.value));
    }

    method PackedFields(width: nat, r: Parsed<seq<Bytes>>) returns (ok: bool)
      requires width == 2 || width == 3
      modifies this
      ensures Did(old(sent), SendingHash(key, width, r), ok)
    {
      hide SendPairs, SendTriples;
      if r.Panic? { return false; }
      rd := r.rest;
      ok := SendTuples(width, r.value);
    }

    method RewriteHashObject() returns (ok: bool)
      modifies this
      ensures Did(old(sent), RewriteHash(typeByte, valkey, key, old(rd)), ok)
    {
      hide SendingHash, ReadCountedFields, ReadUint, Listpack.ReadListpack, Ziplist.ReadZipList;
      sent := sent + [Del(key)];
      if typeByte == 4 {
        ok := CountedFields(NoExpiry);
      } else if typeByte == 13 {
        ok := PackedFields(2, Ziplist.ReadZipList(rd));
      } else if typeByte == 16 {
        ok := PackedFields(2, Listpack.ReadListpack(rd));
      } else if typeByte == 22 {
        ok := CountedFields(if valkey then ExpiryLast else ExpiryFirst(true, 0));
      } else if typeByte == 23 {
        ok := PackedFields(3, Listpack.ReadListpack(rd));
      } else if typeByte == 24 || typeByte == 25 {
        var min := ReadUint(rd, 8);
        if min.Panic? { return false; }
        rd := min.rest;
        if typeByte == 24 { ok := CountedFields(ExpiryFirst(false, Wrap(min.value))); }
        else { ok := PackedFields(3, Listpack.ReadListpack(rd)); }
      } else {
        ok := false;
      }
    }
  }
}
