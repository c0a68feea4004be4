/** The snapshot fence, the tracker window and the order of delivery. */
module PipelineFence {
  import opened Pipeline
  import opened PipelinePlan
  import opened PipelineInvariant
  import opened PipelineTheorems

  // ----- the fence -----

  /** A command goes to shards that exist, and the progress PING goes to all of them. */
  lemma PingReachesAll(cfg: Config, cmd: Command, k: nat, offset: int)
    requires ValidConfig(cfg) && GoesTo(cfg, cmd, k)
    ensures k < cfg.shards && GoesTo(cfg, Commands(cfg, Progress(offset))[0], k)
  {}

  /** A copy sent before an answered copy to the same shard is answered. */
  lemma EarlierCopyAnswered(cfg: Config, st: State, s: nat, x: Leaf, y: Leaf)
    requires Inv(cfg, st) && s < |st.sources| && InLog(st.sources[s], x) && Answered(st, s, y)
    requires x.shard == y.shard && x.idx < y.idx
    ensures Answered(st, s, x)
  {
    hide ShardsOk, SlotsOk, ExactOk, DivisionsOk, CallsOk, ReaderOk, TrackerOk, TodoOk, NothingLost;
    assert SourceOk(cfg, st, s);
    var log := st.sources[s].log;
    var q :| 0 <= q < |log| && log[q].leaf == x;
    var r :| 0 <= r < |log| && log[r].leaf == y && log[r].pos < st.shards[y.shard].acked;
    assert q < r;
  }

  /** The fence of a source that shows an offset has been answered on every shard. */
  lemma FenceAnswered(cfg: Config, st: State, s: nat, k: nat)
    requires Inv(cfg, st) && s < |st.sources| && st.sources[s].ledger.known && k < cfg.shards
    ensures var src := st.sources[s];
      && src.loaded < src.next <= |src.emitted| && src.emitted[src.loaded] == Progress(cfg.bases[s])
      && AnsweredBy(st, s, src.loaded, 0, Commands(cfg, Progress(cfg.bases[s]))[0], k)
  {
    hide ShardsOk, SlotsOk, DivisionsOk, CallsOk, LogOk, TodoOk, NothingLost, Ripe, ExactOk, AnsweredBy;
    assert SourceOk(cfg, st, s);
    var src := st.sources[s];
    assert Past(src)[0].done;
    assert src.emitted[src.loaded].offset <= src.ledger.offset by {
      assert Past(src)[src.ledger.released - 1].offset == src.emitted[src.loaded + src.ledger.released - 1].offset;
    }
    VisibleEntry(cfg, st, s, src.loaded);
    var ping := Commands(cfg, src.emitted[src.loaded])[0];
    assert CommandDone(cfg, st, s, src.loaded, 0, ping) && GoesTo(cfg, ping, k);
  }

  /** Snapshot entries carry no callback, and yet they are answered before any offset shows. */
  lemma SnapshotEntryDealtWith(cfg: Config, st: State, s: nat, i: nat)
    requires Inv(cfg, st) && s < |st.sources| && st.sources[s].ledger.known && i < st.sources[s].loaded
    ensures i < |st.sources[s].emitted| && DealtWith(cfg, st, s, i)
  {
    hide ShardsOk, SlotsOk, DivisionsOk, CallsOk, LogOk, TodoOk, ExactOk, ReaderOk, TrackerOk, Answered;
    FenceAnswered(cfg, st, s, 0);
    assert SourceOk(cfg, st, s);
    var src := st.sources[s];
    var cmds := Commands(cfg, src.emitted[i]);
    forall no | 0 <= no < |cmds|
      ensures CommandDone(cfg, st, s, i, no, cmds[no])
    {
      var cb := CallbackOf(src.emitted[i], RootOf(s, src, i), no);
      assert Underway(cfg, src, i, no, cmds[no], cb);
      forall k: nat | GoesTo(cfg, cmds[no], k)
        ensures AnsweredBy(st, s, i, no, cmds[no], k)
      {
        PingReachesAll(cfg, cmds[no], k, cfg.bases[s]);
        FenceAnswered(cfg, st, s, k);
        var ping := Commands(cfg, Progress(cfg.bases[s]))[0];
        var cb' :| Answered(st, s, Leaf.Leaf(src.loaded, 0, k, ping, cb'));
        EarlierCopyAnswered(cfg, st, s, SentLeaf(cfg, i, no, cmds[no], cb, k), Leaf.Leaf(src.loaded, 0, k, ping, cb'));
      }
      assert Routable(cfg, cmds[no]);
      assert GoesTo(cfg, cmds[no], if Broadcast(cfg, cmds[no]) then 0 else Target(cfg, cmds[no]).value);
    }
  }

  /** The whole snapshot of a source has been sent and answered, or filtered out. */
  ghost predicate SnapshotApplied(cfg: Config, st: State, s: nat)
    requires s < |st.sources| && s < |cfg.snapshots|
  {
    forall i :: 0 <= i < |cfg.snapshots[s]| ==>
      && i < st.sources[s].loaded <= |st.sources[s].emitted|
      && st.sources[s].emitted[i] == cfg.snapshots[s][i]
      && DealtWith(cfg, st, s, i)
  }

  /** The snapshot fence: once a source shows any offset, every snapshot entry that its loader
      emitted has been dealt with, and the whole snapshot has exactly if the loader reached the end
      of the file rather than a cancellation. */
  lemma SnapshotFence(cfg: Config, steps: seq<Step>, s: nat)
    requires ValidConfig(cfg) && IsRun(cfg, steps) && s < |After(cfg, steps).sources|
    requires After(cfg, steps).sources[s].ledger.known
    ensures var st := After(cfg, steps);
      && s < |cfg.snapshots|
      && (forall i :: 0 <= i < st.sources[s].loaded ==> i < |st.sources[s].emitted| && DealtWith(cfg, st, s, i))
      && (SnapshotApplied(cfg, st, s) <==> st.sources[s].loaded == |cfg.snapshots[s]|)
  {
    hide LogOk, TodoOk, NothingLost, TrackerOk, ExactOk, DivisionsOk, CallsOk, ShardsOk, SlotsOk, DealtWith;
    RunKeepsInv(cfg, steps);
    var st := After(cfg, steps);
    assert SourceOk(cfg, st, s);
    var src := st.sources[s];
    forall i | 0 <= i < src.loaded
      ensures i < |src.emitted| && DealtWith(cfg, st, s, i) && src.emitted[i] == cfg.snapshots[s][i]
    {
      SnapshotEntryDealtWith(cfg, st, s, i);
      assert src.emitted[..src.loaded][i] == src.emitted[i];
    }
    if SnapshotApplied(cfg, st, s) && |cfg.snapshots[s]| > 0 {
      assert |cfg.snapshots[s]| - 1 < src.loaded;
    }
  }

  // ----- the window -----

  /** The tracker's window never exceeds its limit, and a slot is held for every queued position, so
      giving slots back on release never waits. */
  lemma WindowBounded(cfg: Config, steps: seq<Step>)
    requires ValidConfig(cfg) && IsRun(cfg, steps)
    ensures After(cfg, steps).slots == Held(After(cfg, steps).sources) <= cfg.limit
    ensures forall s :: 0 <= s < |After(cfg, steps).sources| ==>
        |After(cfg, steps).sources[s].ledger.queue| <= After(cfg, steps).slots
  {
    RunKeepsInv(cfg, steps);
    forall s | 0 <= s < |After(cfg, steps).sources|
      ensures |After(cfg, steps).sources[s].ledger.queue| <= After(cfg, steps).slots
    {
      HeldCovers(After(cfg, steps).sources, s);
    }
  }

  lemma {:induction false} HeldCovers(sources: seq<Source>, s: nat)
    requires s < |sources|
    ensures |sources[s].ledger.queue| <= Held(sources)
  {
    HeldNonNegative(sources[1..]);
    if s > 0 { HeldCovers(sources[1..], s - 1); }
  }

  lemma {:induction false} HeldNonNegative(sources: seq<Source>)
    ensures Held(sources) >= 0
  {
    if sources != [] { HeldNonNegative(sources[1..]); }
  }

  // ----- the order of delivery -----

  /** Each shard receives the commands of a source in the order of its stream, each copy once: of
      two items of one source on one shard, the earlier in the queue comes from an earlier entry, or
      is an earlier command of the same entry. */
  lemma OrderPreserved(cfg: Config, steps: seq<Step>, k: nat, p: nat, p': nat)
    requires ValidConfig(cfg) && IsRun(cfg, steps) && k < |After(cfg, steps).shards|
    requires var all := After(cfg, steps).shards[k].all;
      p < p' < |all| && all[p].Sent? && all[p'].Sent? && all[p].source == all[p'].source
    ensures var all := After(cfg, steps).shards[k].all;
      all[p].leaf.idx < all[p'].leaf.idx || (all[p].leaf.idx == all[p'].leaf.idx && all[p].leaf.no < all[p'].leaf.no)
  {
    RunKeepsInv(cfg, steps);
    ItemsInOrder(cfg, After(cfg, steps), k, p, p');
  }

  lemma ItemsInOrder(cfg: Config, st: State, k: nat, p: nat, p': nat)
    requires Inv(cfg, st) && k < |st.shards| && p < p' < |st.shards[k].all|
    requires var all := st.shards[k].all; all[p].Sent? && all[p'].Sent? && all[p].source == all[p'].source
    ensures var all := st.shards[k].all; Before(all[p].leaf, all[p'].leaf) && all[p].leaf.shard == all[p'].leaf.shard
  {
    hide SlotsOk, ExactOk, DivisionsOk, CallsOk, ReaderOk, TrackerOk, TodoOk, NothingLost, RoleOf, Before;
    var all := st.shards[k].all;
    var s := all[p].source;
    assert ItemOk(cfg, st, k, p) && ItemOk(cfg, st, k, p');
    assert SourceOk(cfg, st, s);
    var log := st.sources[s].log;
    var q :| 0 <= q < |log| && log[q] == Logged(all[p].leaf, p);
    var r :| 0 <= r < |log| && log[r] == Logged(all[p'].leaf, p');
    assert q < r;
  }
}
