/** Intsets: `internal/rdb/structure/intset.go`. */
module Intset {
  import opened Basics
  import opened RdbStrings

  /** One member: of the widths 2, 4 and 8 the number, of any other width an empty string. */
  function ReadMember(s: Bytes, width: nat): Parsed<Bytes> {
    if width == 2 || width == 4 || width == 8 then Numeral(ReadInt(s, width))
    else
      match ReadBytes(s, width)
      case Panic => Panic
      case Ok(_, rest) => Ok([], rest)
  }

  function ReadMembers(s: Bytes, width: nat, n: nat): Parsed<seq<Bytes>>
    decreases n
  {
    if n == 0 then Ok([], s)
    else
      match ReadMember(s, width)
      case Panic => Panic
      case Ok(e, rest) => Following([e], ReadMembers(rest, width, n - 1))
  }

  function ReadIntsetPayload(blob: Bytes): Parsed<seq<Bytes>> {
    match ReadUint(blob, 4)
    case Panic => Panic
    case Ok(width, rest) =>
      match ReadUint(rest, 4)
      case Panic => Panic
      case Ok(size, rest) => ReadMembers(rest, width, size)
  }

  function ReadIntset(s: Bytes): Parsed<seq<Bytes>> {
    match ReadString(s)
    case Panic => Panic
    case Ok(blob, rest) =>
      match ReadIntsetPayload(blob)
      case Panic => Panic
      case Ok(es, _) => Ok(es, rest)
  }

  /** The loop, filling a slice of the announced size. */
  method FillElements(s: Bytes, width: nat, elements: array<Bytes>) returns (ok: bool, rest: Bytes)
    modifies elements
    ensures ok <==> ReadMembers(s, width, elements.Length).Ok?
    ensures ok ==> ReadMembers(s, width, elements.Length) == Ok(elements[..], rest)
  {
    hide ReadMember;
    rest := s;
    FollowingNothing([], ReadMembers(s, width, elements.Length));
    for i := 0 to elements.Length
      invariant ReadMembers(s, width, elements.Length) ==
          Following(elements[..i], ReadMembers(rest, width, elements.Length - i))
    {
      var m := ReadMember(rest, width);
      if m.Panic? { return false, rest; }
      FollowingOneMore(elements[..i], m.value, ReadMembers(m.rest, width, elements.Length - i - 1));
      elements[i] := m.value;
      rest := m.rest;
      assert elements[..i + 1] == elements[..i] + [m.value];
    }
    assert elements[..] == elements[..elements.Length] + [];
    ok := true;
  }

  // ----- the format -----

  ghost predicate ValidMembers(width: nat, vs: seq<int>) {
    (width == 2 || width == 4 || width == 8) && |vs| < 0x1_0000_0000 && forall i :: 0 <= i < |vs| ==>
        Fits(vs[i], Pow256(width))
  }

  ghost function EncodeMembers(width: nat, vs: seq<int>): Bytes
    requires ValidMembers(width, vs)
    decreases |vs|
  {
    if vs == [] then [] else LittleEndian(Unsigned(vs[0], Pow256(width)), width) + EncodeMembers(width, vs[1..])
  }

  ghost function EncodeIntset(width: nat, vs: seq<int>): Bytes
    requires ValidMembers(width, vs)
  {
    LittleEndian(width, 4) + LittleEndian(|vs|, 4) + EncodeMembers(width, vs)
  }

  ghost function Numerals(vs: seq<int>): (ts: seq<Bytes>)
    ensures |ts| == |vs| && forall i :: 0 <= i < |vs| ==> ts[i] == FormatInt(vs[i])
  {
    seq(|vs|, i requires 0 <= i < |vs| => FormatInt(vs[i]))
  }

  lemma {:induction false} ReadMembersInverts(width: nat, vs: seq<int>)
    requires ValidMembers(width, vs)
    ensures ReadMembers(EncodeMembers(width, vs), width, |vs|) == Ok(Numerals(vs), [])
    decreases |vs|
  {
    hide ReadInt, LittleEndian, Pow256, FormatInt;
    if vs != [] {
      ReadIntInverts(vs[0], width, EncodeMembers(width, vs[1..]));
      ReadMembersInverts(width, vs[1..]);
      assert [FormatInt(vs[0])] + Numerals(vs[1..]) == Numerals(vs);
    }
  }

  /** An intset of any width, stored in any form of an RDB string, is read back as its numerals. */
  lemma ReadIntsetInverts(f: StringForm, width: nat, vs: seq<int>, t: Bytes)
    requires ValidMembers(width, vs) && ValidString(f) && Text(f) == EncodeIntset(width, vs)
    ensures ReadIntset(EncodeString(f) + t) == Ok(Numerals(vs), t)
  {
    hide ReadString, EncodeString, ValidString, Text, EncodeMembers, ReadMembers, ReadUint, LittleEndian, Pow256;
    Powers();
    var members := EncodeMembers(width, vs);
    assert EncodeIntset(width, vs) == LittleEndian(width, 4) + (LittleEndian(|vs|, 4) + members);
    ReadUintInverts(width, 4, LittleEndian(|vs|, 4) + members);
    ReadUintInverts(|vs|, 4, members);
    ReadMembersInverts(width, vs);
    ReadStringInverts(f, t);
  }
}
