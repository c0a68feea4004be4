/** Sending a chain of Bloom filters in chunks: `Rewrite`, `getEncodedChunk` and `getLinkPos` of
    `internal/rdb/types/mbbloom.go`. */
module Bloom {
  import opened Basics

  function Concat(parts: seq<Bytes>): Bytes
    decreases |parts|
  {
    if parts == [] then [] else Concat(parts[..|parts| - 1]) + parts[|parts| - 1]
  }

  /** Where filter `i` begins among the bytes of the chain. */
  function Begin(filters: seq<Bytes>, i: nat): nat
    requires i <= |filters|
  {
    |Concat(filters[..i])|
  }

  lemma BeginNext(filters: seq<Bytes>, i: nat)
    requires i < |filters|
    ensures Concat(filters[..i + 1]) == Concat(filters[..i]) + filters[i]
  {
    assert filters[..i + 1][..i] == filters[..i];
  }

  /** The filters up to one are a prefix of the chain. */
  lemma {:induction false} BeginsInside(filters: seq<Bytes>, i: nat)
    requires i <= |filters|
    ensures Begin(filters, i) <= |Concat(filters)| && Concat(filters)[..Begin(filters, i)] == Concat(filters[..i])
    decreases |filters| - i
  {
    if i < |filters| {
      BeginNext(filters, i);
      BeginsInside(filters, i + 1);
      assert Concat(filters[..i + 1])[..Begin(filters, i)] == Concat(filters[..i]);
    } else {
      assert filters[..i] == filters;
    }
  }

  /** The filter and the position in it that an iterator points at. */
  method GetLinkPos(filters: seq<Bytes>, curIter: nat) returns (link: Option<nat>, offset: nat)
    requires curIter > 0
    ensures link.Some? <==> curIter - 1 < |Concat(filters)|
    ensures link.Some? ==> link.value < |filters| && offset < |filters[link.value]|
    ensures link.Some? ==> curIter - 1 == Begin(filters, link.value) + offset
  {
    var pos := curIter - 1;
    var seekPos := 0;
    for i := 0 to |filters|
      invariant seekPos == Begin(filters, i) <= pos
    {
      BeginNext(filters, i);
      if seekPos + |filters[i]| > pos {
        BeginsInside(filters, i + 1);
        return Some(i), pos - seekPos;
      }
      seekPos := seekPos + |filters[i]|;
    }
    assert filters[..|filters|] == filters;
    return None, 0;
  }

  /** The chunk lies in one filter, at position `pos` of the chain. */
  ghost predicate Inside(filters: seq<Bytes>, pos: nat, chunk: Bytes) {
    exists i: nat :: i < |filters| && Begin(filters, i) <= pos && pos + |chunk| <= Begin(filters, i) + |filters[i]|
      && chunk == filters[i][pos - Begin(filters, i)..][..|chunk|]
  }

  /** What lies inside a filter is what the chain has at that place. */
  lemma InsideIsSlice(filters: seq<Bytes>, i: nat, offset: nat, n: nat)
    requires i < |filters| && offset + n <= |filters[i]|
    ensures var pos := Begin(filters, i) + offset;
      pos + n <= |Concat(filters)| && filters[i][offset..offset + n] == Concat(filters)[pos..pos + n]
  {
    hide Concat;
    var pos, all := Begin(filters, i) + offset, Concat(filters);
    BeginNext(filters, i);
    BeginsInside(filters, i + 1);
    var upTo := Concat(filters[..i + 1]);
    assert upTo[pos..pos + n] == filters[i][offset..offset + n];
    assert all[..|upTo|][pos..pos + n] == all[pos..pos + n];
  }

  /** The next chunk, and the iterator behind it; an empty one and iterator zero at the end. */
  method GetEncodedChunk(filters: seq<Bytes>, curIter: nat, max: nat) returns (chunk: Bytes, next: nat)
    requires curIter > 0 && max > 0
    ensures chunk == [] <==> curIter - 1 >= |Concat(filters)|
    ensures chunk == [] ==> next == 0
    ensures chunk != [] ==> next == curIter + |chunk| && |chunk| <= max && Inside(filters, curIter - 1, chunk)
    ensures chunk != [] ==> next - 1 <= |Concat(filters)| && chunk == Concat(filters)[curIter - 1..next - 1]
  {
    hide Concat;
    var link, off := GetLinkPos(filters, curIter);
    if link.None? { return [], 0; }
    var bf := filters[link.value];
    var l := Min(max, |bf| - off);
    chunk := bf[off..off + l];
    next := curIter + l;
    InsideIsSlice(filters, link.value, off, l);
    assert chunk == bf[off..][..l];
  }

  datatype LoadChunk = LoadChunk(iter: nat, chunk: Bytes)

  function Chunks(cmds: seq<LoadChunk>): (cs: seq<Bytes>)
    ensures |cs| == |cmds| && forall k :: 0 <= k < |cmds| ==> cs[k] == cmds[k].chunk
  {
    seq(|cmds|, k requires 0 <= k < |cmds| => cmds[k].chunk)
  }

  /** Command `k` is right: a non-empty chunk within the limit and within one filter, with the iterator
      one beyond the bytes sent so far. */
  ghost predicate Right(filters: seq<Bytes>, max: nat, cmds: seq<LoadChunk>, k: nat)
    requires k < |cmds|
  {
    var before := |Concat(Chunks(cmds)[..k])|;
    0 < |cmds[k].chunk| <= max && cmds[k].iter == 1 + before + |cmds[k].chunk| && Inside(filters, before, cmds[k].chunk)
  }

  lemma ChunksSnoc(cmds: seq<LoadChunk>, c: LoadChunk)
    ensures Concat(Chunks(cmds + [c])) == Concat(Chunks(cmds)) + c.chunk
    ensures forall k :: 0 <= k <= |cmds| ==> Chunks(cmds + [c])[..k] == Chunks(cmds)[..k]
  {
    assert Chunks(cmds + [c])[..|cmds|] == Chunks(cmds);
  }

  /** The chunks are the bytes of all filters, in order, each of them right. */
  method RewriteChunks(filters: seq<Bytes>, max: nat) returns (cmds: seq<LoadChunk>)
    requires max > 0
    ensures Concat(Chunks(cmds)) == Concat(filters)
    ensures forall k :: 0 <= k < |cmds| ==> Right(filters, max, cmds, k)
  {
    hide Concat, Inside;
    cmds := [];
    var curIter := 1;
    NothingSent();
    ghost var all := Concat(filters);
    while true
      invariant 1 <= curIter <= |all| + 1 && Concat(Chunks(cmds)) == all[..curIter - 1]
      invariant forall k :: 0 <= k < |cmds| ==> Right(filters, max, cmds, k)
      decreases |all| - curIter
    {
      var c, next := GetEncodedChunk(filters, curIter, max);
      if c == [] {
        assert all[..curIter - 1] == all;
        break;
      }
      var cmd := LoadChunk(next, c);
      ChunksSnoc(cmds, cmd);
      assert all[..next - 1] == all[..curIter - 1] + c;
      assert Chunks(cmds + [cmd])[..|cmds|] == Chunks(cmds);
      RightSnoc(filters, max, cmds, cmd);
      cmds, curIter := cmds + [cmd], next;
    }
  }

  lemma NothingSent()
    ensures Concat(Chunks([])) == []
  {}

  lemma RightSnoc(filters: seq<Bytes>, max: nat, cmds: seq<LoadChunk>, c: LoadChunk)
    requires forall k :: 0 <= k < |cmds| ==> Right(filters, max, cmds, k)
    ensures forall k :: 0 <= k < |cmds| ==> Right(filters, max, cmds + [c], k)
  {
    hide Concat, Inside;
    ChunksSnoc(cmds, c);
    forall k | 0 <= k < |cmds|
      ensures Right(filters, max, cmds + [c], k)
    {
      assert Right(filters, max, cmds, k);
    }
  }

  // ----- a target that takes chunks -----

  /** What a target does with a chunk: the iterator says where the chunk ends. */
  function Place(have: Bytes, c: LoadChunk): Option<Bytes> {
    var end := c.iter - 1;
    if 0 <= end - |c.chunk| && end <= |have| then Some(have[..end - |c.chunk|] + c.chunk + have[end..]) else None
  }

  function PlaceAll(have: Bytes, cmds: seq<LoadChunk>): Option<Bytes>
    decreases |cmds|
  {
    if cmds == [] then Some(have)
    else
      match PlaceAll(have, cmds[..|cmds| - 1])
      case None => None
      case Some(next) => Place(next, cmds[|cmds| - 1])
  }

  /** Whatever bytes the target's filters held, they end up as the source's. */
  lemma {:induction false} ChunksRebuild(filters: seq<Bytes>, max: nat, cmds: seq<LoadChunk>, have: Bytes, n: nat)
    requires forall k :: 0 <= k < |cmds| ==> Right(filters, max, cmds, k)
    requires n <= |cmds| && |have| == |Concat(Chunks(cmds))|
    ensures |Concat(Chunks(cmds)[..n])| <= |have|
    ensures PlaceAll(have, cmds[..n]) == Some(Concat(Chunks(cmds)[..n]) + have[|Concat(Chunks(cmds)[..n])|..])
    decreases n
  {
    hide Concat, Inside;
    BeginsInside(Chunks(cmds), n);
    if n == 0 {
      NoParts(Chunks(cmds)[..0]);
      assert cmds[..0] == [] && [] + have[0..] == have;
    } else {
      ChunksRebuild(filters, max, cmds, have, n - 1);
      BeginNext(Chunks(cmds), n - 1);
      assert Right(filters, max, cmds, n - 1);
      assert cmds[..n][..n - 1] == cmds[..n - 1];
      var sent, c := Concat(Chunks(cmds)[..n - 1]), cmds[n - 1];
      var now := sent + have[|sent|..];
      assert now[..|sent|] == sent && now[|sent| + |c.chunk|..] == have[|sent| + |c.chunk|..];
    }
  }

  lemma NoParts(parts: seq<Bytes>)
    requires parts == []
    ensures Concat(parts) == []
  {}
}
