/** The other end of the pipeline fits too: what `sendAOF` sends for a stream of commands, after the fence at the
    start offset, is what the pipeline lets a source emit. */
module SourceEvents {
  import opened Basics
  import opened Commands
  import A = SendAof
  import P = Pipeline

  /** The pipeline's entry for an event of the sender. */
  ghost predicate Matching(entry: A.Event -> P.Entry) {
    forall e :: entry(e).tracked && entry(e).offset == e.offset && entry(e).progressOnly == e.Progress?
  }

  ghost function EntriesFor(entry: A.Event -> P.Entry, es: seq<A.Event>): (all: seq<P.Entry>)
    ensures |all| == |es| && forall i :: 0 <= i < |es| ==> all[i] == entry(es[i])
  {
    seq(|es|, i requires 0 <= i < |es| => entry(es[i]))
  }

  /** The source emits one entry after the other, as far as it may. */
  function EmitAll(cfg: P.Config, st: P.State, s: nat, es: seq<P.Entry>): Option<P.State>
    decreases |es|
  {
    if es == [] then Some(st)
    else if !P.Enabled(cfg, st, P.Emit(s, es[0])) then None
    else EmitAll(cfg, P.Perform(cfg, st, P.Emit(s, es[0])), s, es[1..])
  }

  ghost predicate Rising(last: int, es: seq<P.Entry>) {
    && (forall i :: 0 <= i < |es| ==> es[i].tracked && es[i].offset > last)
    && forall i, j :: 0 <= i < j < |es| ==> es[i].offset < es[j].offset
  }

  /** A source that streams can emit any entries whose offsets go up from its last one. */
  lemma {:induction false} RisingCanBeEmitted(cfg: P.Config, st: P.State, s: nat, es: seq<P.Entry>)
    requires !st.halted && s < |st.sources| && st.sources[s].phase.Streaming? && st.sources[s].emitted != []
    requires var e := st.sources[s].emitted; Rising(e[|e| - 1].offset, es)
    ensures var src := st.sources[s];
      EmitAll(cfg, st, s, es) == Some(P.SetSource(st, s, src.(emitted := src.emitted + es)))
    decreases |es|
  {
    var src := st.sources[s];
    if es == [] {
      assert src.emitted + es == src.emitted;
      assert st.sources[s := src] == st.sources;
    } else {
      var next := P.Perform(cfg, st, P.Emit(s, es[0]));
      assert forall i :: 0 <= i < |es[1..]| ==> es[1..][i] == es[i + 1];
      RisingCanBeEmitted(cfg, next, s, es[1..]);
      assert src.emitted + es == (src.emitted + [es[0]]) + es[1..];
      assert next.sources[s := src.(emitted := src.emitted + es)] == st.sources[s := src.(emitted := src.emitted + es)];
    }
  }

  /** Behind the fence, whose offset is the start of the stream, every event of every stream of commands can be
      emitted, in order and with its own offset. */
  lemma StreamCanBeEmitted(
      cfg: P.Config, st: P.State, s: nat, entry: A.Event -> P.Entry, cs: seq<Argv>, t: Bytes, db: int)
    requires !st.halted && s < |st.sources| && st.sources[s].phase.Streaming? && st.sources[s].emitted != []
    requires Matching(entry) && A.Smooth(cs)
    ensures var src := st.sources[s]; var start := src.emitted[|src.emitted| - 1].offset;
      var stream := EncodeStream(cs) + t;
      var es := EntriesFor(entry, A.Events(true, A.Live(|cs|), stream, start + |stream|, db));
      |es| == |cs| && EmitAll(cfg, st, s, es) == Some(P.SetSource(st, s, src.(emitted := src.emitted + es)))
  {
    hide EmitAll, A.Events, A.EventOf, A.Live, EncodeStream, A.Handle;
    var src := st.sources[s];
    var start, stream := src.emitted[|src.emitted| - 1].offset, EncodeStream(cs) + t;
    var events := A.Events(true, A.Live(|cs|), stream, start + |stream|, db);
    var es := EntriesFor(entry, events);
    assert cs[..|cs|] == cs;
    A.OneEventEach(cs, t, start, db, |cs|);
    forall i, j | 0 <= i < j < |es|
      ensures es[i].offset < es[j].offset
    {
      A.OffsetsIncrease(cs, i, j, start, db);
    }
    forall i | 0 <= i < |es|
      ensures es[i].offset > start
    {
      BehindTheStart(cs, i, start, db);
    }
    RisingCanBeEmitted(cfg, st, s, es);
  }

  lemma BehindTheStart(cs: seq<Argv>, k: nat, start: int, db: int)
    requires k < |cs|
    ensures A.EventOf(cs, k, start, db).offset > start
  {
    A.StreamGrows(cs[..k + 1], 0);
    assert cs[..k + 1][..0] == [];
  }
}
