/** Receiving a diskless snapshot: `receiveRDBWithDiskless` of
    `internal/reader/sync_standalone_reader.go`.  The end of the snapshot is a 40-byte marker; one
    buffer is reused for every read and the last bytes are moved to its front in place. */
module Diskless {
  import opened Basics

  const MARKER_LEN := 40

  /** How far into the stream the connection is after each read. A read asks for what the buffer has
      room for behind the bytes kept from before, and gets as much as the network has (`sizes`). */
  function Boundaries(total: nat, size: nat, sizes: seq<nat>, got: nat): (bs: seq<nat>)
    requires got <= total && size > MARKER_LEN
    ensures |bs| == |sizes|
    ensures forall k :: 0 <= k < |bs| ==> got <= bs[k] <= total
    decreases |sizes|
  {
    if sizes == [] then []
    else
      var g := got + Min(sizes[0], Min(size - Min(got, MARKER_LEN), total - got));
      [g] + Boundaries(total, size, sizes[1..], g)
  }

  predicate EndsWithMarker(stream: seq<byte>, marker: seq<byte>, p: nat)
    requires p <= |stream|
  {
    p >= MARKER_LEN && stream[p - MARKER_LEN..p] == marker
  }

  /** The first read boundary at which the bytes so far end with the marker. */
  function FirstMatch(stream: seq<byte>, marker: seq<byte>, bs: seq<nat>): (p: Option<nat>)
    requires forall k :: 0 <= k < |bs| ==> bs[k] <= |stream|
    ensures p.Some? ==> MARKER_LEN <= p.value <= |stream|
    decreases |bs|
  {
    if bs == [] then None
    else if EndsWithMarker(stream, marker, bs[0]) then Some(bs[0])
    else FirstMatch(stream, marker, bs[1..])
  }

  lemma {:induction false} FirstMatchIsFirst(stream: seq<byte>, marker: seq<byte>, bs: seq<nat>)
    requires forall k :: 0 <= k < |bs| ==> bs[k] <= |stream|
    ensures var p := FirstMatch(stream, marker, bs);
      && (p.None? ==> forall k :: 0 <= k < |bs| ==> !EndsWithMarker(stream, marker, bs[k]))
      && (p.Some? ==> EndsWithMarker(stream, marker, p.value))
      && (p.Some? ==> exists k :: 0 <= k < |bs| && bs[k] == p.value && forall i :: 0 <= i < k ==>
          !EndsWithMarker(stream, marker, bs[i]))
    decreases |bs|
  {
    var p := FirstMatch(stream, marker, bs);
    if bs != [] && EndsWithMarker(stream, marker, bs[0]) {
      assert bs[0] == p.value;
    } else if bs != [] {
      var rest := bs[1..];
      FirstMatchIsFirst(stream, marker, rest);
      assert forall i :: 1 <= i < |bs| ==> bs[i] == rest[i - 1];
      if p.Some? {
        var k :| 0 <= k < |rest| && rest[k] == p.value && forall i :: 0 <= i < k ==>
            !EndsWithMarker(stream, marker, rest[i]);
        assert bs[k + 1] == p.value;
      }
    }
  }

  /** `copy(buf, buf[from:from+n])`: the regions may overlap. */
  method CopyToFront(buf: array<byte>, from: nat, n: nat)
    requires from + n <= buf.Length
    modifies buf
    ensures buf[..n] == old(buf[from..from + n])
  {
    for i := 0 to n
      invariant buf[..i] == old(buf[from..from + i])
      invariant forall k :: from + i <= k < from + n ==> buf[k] == old(buf[k])
    {
      buf[i] := buf[from + i];
    }
  }

  /** The socket read into `buf[at:]`. */
  method ReadInto(buf: array<byte>, at: nat, data: seq<byte>)
    requires at + |data| <= buf.Length
    modifies buf
    ensures buf[..at + |data|] == old(buf[..at]) + data
  {
    for i := 0 to |data|
      invariant buf[..at] == old(buf[..at])
      invariant buf[at..at + i] == data[..i]
    {
      buf[at + i] := data[i];
    }
    assert buf[..at + |data|] == buf[..at] + buf[at..at + |data|];
    assert data[..|data|] == data;
  }

  /** One round of the receive loop: `lastFrom`/`lastLen` is the slice kept from before, `data` what
      this read brings. What is kept for the next round is again a slice of the same buffer. */
  method Round(buf: array<byte>, marker: seq<byte>, lastFrom: nat, lastLen: nat, data: seq<byte>)
    returns (found: bool, out: seq<byte>, keepFrom: nat, keepLen: nat)
    requires |marker| == MARKER_LEN && lastFrom + lastLen <= buf.Length && lastLen + |data| <= buf.Length
    modifies buf
    ensures var all := old(buf[lastFrom..lastFrom + lastLen]) + data;
      && found == (|all| >= MARKER_LEN && all[|all| - MARKER_LEN..] == marker)
      && keepLen == Min(|all|, MARKER_LEN) && keepFrom + keepLen <= buf.Length
      && out == all[..|all| - keepLen] && (!found ==> buf[keepFrom..keepFrom + keepLen] == all[|all| - keepLen..])
  {
    CopyToFront(buf, lastFrom, lastLen);
    ReadInto(buf, lastLen, data);
    var bufLen := lastLen + |data|;
    ghost var all := buf[..bufLen];
    assert forall i, j :: 0 <= i <= j <= bufLen ==> buf[i..j] == all[i..j];
    found := bufLen >= MARKER_LEN && buf[bufLen - MARKER_LEN..bufLen] == marker;
    if bufLen >= MARKER_LEN {
      out := buf[..bufLen - MARKER_LEN];
      keepFrom, keepLen := bufLen - MARKER_LEN, MARKER_LEN;
    } else {
      out := [];
      keepFrom, keepLen := 0, bufLen;
    }
    assert buf[keepFrom..keepFrom + keepLen] == all[keepFrom..keepFrom + keepLen];
  }

  /** The same round, as a stretch of the stream: `got` bytes have come before, `n` come now. */
  method RoundOnStream(
      buf: array<byte>, stream: seq<byte>, marker: seq<byte>, lastFrom: nat, lastLen: nat, got: nat, n: nat)
    returns (found: bool, out: seq<byte>, keepFrom: nat, keepLen: nat)
    requires |marker| == MARKER_LEN && lastFrom + lastLen <= buf.Length && lastLen + n <= buf.Length
    requires lastLen == Min(got, MARKER_LEN) && got + n <= |stream|
    requires buf[lastFrom..lastFrom + lastLen] == stream[got - lastLen..got]
    modifies buf
    ensures found == EndsWithMarker(stream, marker, got + n)
    ensures keepLen == Min(got + n, MARKER_LEN) && keepFrom + keepLen <= buf.Length
    ensures stream[..got - lastLen] + out == stream[..got + n - keepLen]
    ensures !found ==> buf[keepFrom..keepFrom + keepLen] == stream[got + n - keepLen..got + n]
  {
    hide EndsWithMarker;
    ghost var all := stream[got - lastLen..got] + stream[got..got + n];
    Kept(stream, marker, got, lastLen, n, all);
    found, out, keepFrom, keepLen := Round(buf, marker, lastFrom, lastLen, stream[got..got + n]);
  }

  /** The receive loop writes exactly the bytes before the first read boundary at which the stream
      ends with the marker, and stops there; without one it never comes to an end. */
  method ReceiveDiskless(
      stream: seq<byte>, marker: seq<byte>, sizes: seq<nat>, size: nat) returns (written: Option<seq<byte>>)
    requires |marker| == MARKER_LEN && size > MARKER_LEN
    ensures written == match FirstMatch(stream, marker, Boundaries(|stream|, size, sizes, 0))
                       case None => None
                       case Some(p) => Some(stream[..p - MARKER_LEN])
  {
    hide Boundaries, FirstMatch, EndsWithMarker;
    var buf := new byte[size](_ => 0);
    var file: seq<byte> := [];
    var lastFrom, lastLen, got, t := 0, 0, 0, 0;
    ghost var bs := Boundaries(|stream|, size, sizes, 0);
    assert sizes[0..] == sizes && bs[0..] == bs;
    while t < |sizes|
      invariant 0 <= t <= |sizes| && 0 <= got <= |stream|
      invariant lastLen == Min(got, MARKER_LEN) && 0 <= lastFrom <= lastFrom + lastLen <= buf.Length
      invariant buf[lastFrom..lastFrom + lastLen] == stream[got - lastLen..got]
      invariant file == stream[..got - lastLen]
      invariant bs[t..] == Boundaries(|stream|, size, sizes[t..], got)
      invariant FirstMatch(stream, marker, bs) == FirstMatch(stream, marker, bs[t..])
    {
      var nread := Min(sizes[t], Min(size - lastLen, |stream| - got));
      NextBoundary(stream, marker, size, sizes, bs, t, got);
      var found, out, keepFrom, keepLen := RoundOnStream(buf, stream, marker, lastFrom, lastLen, got, nread);
      file := file + out;
      lastFrom, lastLen, got, t := keepFrom, keepLen, got + nread, t + 1;
      if found {
        MarkerIsWhole(stream, marker, got);
        return Some(file);
      }
    }
    NothingLeft(stream, marker, bs, t);
    written := None;
  }

  lemma MarkerIsWhole(stream: seq<byte>, marker: seq<byte>, p: nat)
    requires p <= |stream| && EndsWithMarker(stream, marker, p)
    ensures p >= MARKER_LEN
  {}

  lemma NothingLeft(stream: seq<byte>, marker: seq<byte>, bs: seq<nat>, t: nat)
    requires t == |bs|
    ensures bs[t..] == [] && FirstMatch(stream, marker, bs[t..]) == None
  {}

  lemma Joined(s: seq<byte>, a: nat, m: nat, b: nat)
    requires a <= m <= b <= |s|
    ensures s[a..m] + s[m..b] == s[a..b]
  {}

  lemma SliceOfSlice(s: seq<byte>, a: nat, b: nat, i: nat, j: nat)
    requires a <= b <= |s| && i <= j <= b - a
    ensures s[a..b][i..j] == s[a + i..a + j]
  {
    assert forall k :: 0 <= k < j - i ==> s[a..b][i..j][k] == s[a + i + k] == s[a + i..a + j][k];
  }

  /** The bytes of one round as a stretch of the stream. */
  lemma Kept(stream: seq<byte>, marker: seq<byte>, got: nat, lastLen: nat, n: nat, all: seq<byte>)
    requires lastLen == Min(got, MARKER_LEN) && got + n <= |stream|
    requires all == stream[got - lastLen..got] + stream[got..got + n]
    ensures var keep := Min(|all|, MARKER_LEN);
      && keep == Min(got + n, MARKER_LEN)
      && all[|all| - keep..] == stream[got + n - keep..got + n]
      && stream[..got - lastLen] + all[..|all| - keep] == stream[..got + n - keep]
    ensures (|all| >= MARKER_LEN && all[|all| - MARKER_LEN..] == marker) <==> EndsWithMarker(stream, marker, got + n)
  {
    var a, b := got - lastLen, got + n;
    var keep := Min(|all|, MARKER_LEN);
    Joined(stream, a, got, b);
    SliceOfSlice(stream, a, b, |all| - keep, |all|);
    SliceOfSlice(stream, a, b, 0, |all| - keep);
    Joined(stream, 0, a, b - keep);
    assert all[|all| - keep..] == all[|all| - keep..|all|] && all[..|all| - keep] == all[0..|all| - keep];
    assert stream[..a] == stream[0..a] && stream[..b - keep] == stream[0..b - keep];
  }

  /** The next boundary, and whether the search ends there. */
  lemma NextBoundary(stream: seq<byte>, marker: seq<byte>, size: nat, sizes: seq<nat>, bs: seq<nat>, t: nat, got: nat)
    requires size > MARKER_LEN && t < |sizes| == |bs| && got <= |stream|
    requires bs[t..] == Boundaries(|stream|, size, sizes[t..], got)
    ensures var g := got + Min(sizes[t], Min(size - Min(got, MARKER_LEN), |stream| - got));
      && got <= g <= |stream| && bs[t + 1..] == Boundaries(|stream|, size, sizes[t + 1..], g)
      && FirstMatch(stream, marker, bs[t..]) ==
         if EndsWithMarker(stream, marker, g) then Some(g) else FirstMatch(stream, marker, bs[t + 1..])
  {
    assert sizes[t..][0] == sizes[t] && sizes[t..][1..] == sizes[t + 1..];
    assert bs[t..][1..] == bs[t + 1..];
  }

  /** When the loop delivers the payload of a stream `payload + marker + rest`: exactly if one of its
      reads ends right behind the marker and none ends earlier behind 40 bytes that look like it. */
  lemma DeliversPayload(stream: seq<byte>, payload: seq<byte>, marker: seq<byte>, sizes: seq<nat>, size: nat)
    requires |marker| == MARKER_LEN && size > MARKER_LEN && payload + marker <= stream
    ensures var bs := Boundaries(|stream|, size, sizes, 0); var end := |payload| + MARKER_LEN;
      FirstMatch(stream, marker, bs) == Some(end) <==>
        end in bs && forall k :: 0 <= k < |bs| && bs[k] < end ==> !EndsWithMarker(stream, marker, bs[k])
  {
    hide Boundaries, FirstMatch;
    var bs, end := Boundaries(|stream|, size, sizes, 0), |payload| + MARKER_LEN;
    BoundariesAscend(|stream|, size, sizes, 0);
    FirstMatchIsFirst(stream, marker, bs);
    assert stream[..end] == payload + marker;
    assert stream[|payload|..end] == stream[..end][|payload|..] == marker;
    assert EndsWithMarker(stream, marker, end);
    if end in bs && forall k :: 0 <= k < |bs| && bs[k] < end ==> !EndsWithMarker(stream, marker, bs[k]) {
      var j :| 0 <= j < |bs| && bs[j] == end;
      var p := FirstMatch(stream, marker, bs).value;
      var k :| 0 <= k < |bs| && bs[k] == p && forall i :: 0 <= i < k ==> !EndsWithMarker(stream, marker, bs[i]);
      assert !(j < k);
    }
  }

  lemma {:induction false} BoundariesAscend(total: nat, size: nat, sizes: seq<nat>, got: nat)
    requires got <= total && size > MARKER_LEN
    ensures var bs := Boundaries(total, size, sizes, got); forall i, j :: 0 <= i <= j < |bs| ==> bs[i] <= bs[j]
    decreases |sizes|
  {
    if sizes != [] {
      var bs := Boundaries(total, size, sizes, got);
      BoundariesAscend(total, size, sizes[1..], bs[0]);
      assert bs[1..] == Boundaries(total, size, sizes[1..], bs[0]);
      assert forall i :: 1 <= i < |bs| ==> bs[i] == bs[1..][i - 1];
    }
  }

  /** The promise of the protocol: if the marker occurs nowhere else in the stream and the reads
      deliver all of it, the payload is received whatever the sizes of the reads. */
  lemma MarkerOnlyAtEnd(payload: seq<byte>, marker: seq<byte>, sizes: seq<nat>, size: nat)
    requires |marker| == MARKER_LEN && size > MARKER_LEN
    requires var stream := payload + marker;
      && (forall p :: 0 <= p < |stream| ==> !EndsWithMarker(stream, marker, p))
      && |stream| in Boundaries(|stream|, size, sizes, 0)
    ensures var stream := payload + marker;
      FirstMatch(stream, marker, Boundaries(|stream|, size, sizes, 0)) == Some(|payload| + MARKER_LEN)
      && stream[..|payload|] == payload
  {
    DeliversPayload(payload + marker, payload, marker, sizes, size);
  }

  /** Reads of one byte each. */
  ghost function OneByOne(n: nat): seq<nat> { seq(n, _ => 1) }

  lemma {:induction false} OneByOneBoundary(total: nat, size: nat, n: nat, got: nat, k: nat)
    requires got + n == total && size > MARKER_LEN && k < n
    ensures Boundaries(total, size, OneByOne(n), got)[k] == got + k + 1
    decreases n
  {
    var rest := Boundaries(total, size, OneByOne(n - 1), got + 1);
    assert OneByOne(n)[1..] == OneByOne(n - 1);
    assert Boundaries(total, size, OneByOne(n), got) == [got + 1] + rest;
    if k > 0 { OneByOneBoundary(total, size, n - 1, got + 1, k - 1); }
  }

  /** A snapshot that contains the marker, anywhere, is cut short by some split that delivers all of it. */
  lemma MarkerInsideCutsShort(payload: seq<byte>, marker: seq<byte>, size: nat, p: nat) returns (sizes: seq<nat>)
    requires |marker| == MARKER_LEN && size > MARKER_LEN
    requires var stream := payload + marker; p < |stream| && EndsWithMarker(stream, marker, p)
    ensures var stream := payload + marker; var bs := Boundaries(|stream|, size, sizes, 0);
      |stream| in bs && FirstMatch(stream, marker, bs).Some? && FirstMatch(stream, marker, bs).value <= p
  {
    hide Boundaries, FirstMatch, EndsWithMarker;
    var stream := payload + marker;
    sizes := OneByOne(|stream|);
    var bs := Boundaries(|stream|, size, sizes, 0);
    OneByOneBoundary(|stream|, size, |stream|, 0, |stream| - 1);
    MarkerIsWhole(stream, marker, p);
    OneByOneBoundary(|stream|, size, |stream|, 0, p - 1);
    BoundariesAscend(|stream|, size, sizes, 0);
    FirstMatchIsFirst(stream, marker, bs);
  }

  /** Exactly when a snapshot arrives whatever the sizes of the reads: if and only if the marker stands nowhere
      in the stream but at its end. */
  lemma EverySplitDeliversIff(payload: seq<byte>, marker: seq<byte>, size: nat)
    requires |marker| == MARKER_LEN && size > MARKER_LEN
    ensures var stream := payload + marker;
      (forall sizes :: |stream| in Boundaries(|stream|, size, sizes, 0) ==>
         FirstMatch(stream, marker, Boundaries(|stream|, size, sizes, 0)) == Some(|payload| + MARKER_LEN))
      <==> (forall p: nat :: p < |stream| ==> !EndsWithMarker(stream, marker, p))
  {
    hide Boundaries, FirstMatch, EndsWithMarker;
    var stream := payload + marker;
    if p: nat :| p < |stream| && EndsWithMarker(stream, marker, p) {
      var sizes := MarkerInsideCutsShort(payload, marker, size, p);
      assert FirstMatch(stream, marker, Boundaries(|stream|, size, sizes, 0)) != Some(|payload| + MARKER_LEN);
    } else {
      forall sizes | |stream| in Boundaries(|stream|, size, sizes, 0)
        ensures FirstMatch(stream, marker, Boundaries(|stream|, size, sizes, 0)) == Some(|payload| + MARKER_LEN)
      {
        MarkerOnlyAtEnd(payload, marker, sizes, size);
      }
    }
  }
}
