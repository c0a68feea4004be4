/** The visible offset is not only safe: with no callback under way it is exactly the longest prefix
    of the source that has been dealt with.  And the fence needs the loader to have finished. */
module PipelineAtRest {
  import opened Basics
  import opened Completions
  import opened TrackerModel
  import opened Pipeline
  import opened PipelinePlan
  import opened PipelineInvariant
  import opened PipelineProof
  import opened PipelineReplies
  import opened PipelineTheorems

  /** No goroutine is inside a callback, and the consumer of source `s` holds no plan. */
  ghost predicate AtRest(st: State, s: nat) {
    && s < |st.sources| && !st.sources[s].pc.Busy?
    && forall g :: CallOf(st, g) == None
  }

  lemma RipeIsDone(cfg: Config, st: State, s: nat, c: Callback)
    requires Inv(cfg, st) && AtRest(st, s) && Known(st, c)
    ensures Done(st, c) <==> Ripe(cfg, st, c)
  {
    hide SourceOk, ShardsOk, SlotsOk, DivisionsOk, CallsOk, RoleOf, Done, Ripe;
    assert !InCall(st, c);
  }

  /** Two logged copies of the same command on the same shard are the same copy. */
  lemma OneCopy(cfg: Config, st: State, s: nat, x: Leaf, y: Leaf)
    requires Inv(cfg, st) && s < |st.sources| && InLog(st.sources[s], x) && Answered(st, s, y)
    requires x.idx == y.idx && x.no == y.no && x.shard == y.shard
    ensures x == y
  {
    hide ShardsOk, SlotsOk, ExactOk, DivisionsOk, CallsOk, ReaderOk, TrackerOk, TodoOk, NothingLost;
    assert SourceOk(cfg, st, s);
    var log := st.sources[s].log;
    var q :| 0 <= q < |log| && log[q].leaf == x;
    var r :| 0 <= r < |log| && log[r].leaf == y && log[r].pos < st.shards[y.shard].acked;
    assert q == r;
  }

  /** The copy of a command of a finished plan that an answer belongs to. */
  lemma AnsweredCopy(cfg: Config, st: State, s: nat, i: nat, no: nat, k: nat)
    requires Inv(cfg, st) && AtRest(st, s) && i < st.sources[s].next <= |st.sources[s].emitted|
    requires var cmds := Commands(cfg, st.sources[s].emitted[i]);
        no < |cmds| && GoesTo(cfg, cmds[no], k) && CommandDone(cfg, st, s, i, no, cmds[no])
    ensures var e := st.sources[s].emitted[i];
      Answered(st, s, SentLeaf(cfg, i, no, Commands(cfg, e)[no], CallbackOf(e, RootOf(s, st.sources[s], i), no), k))
  {
    hide ShardsOk, SlotsOk, ExactOk, DivisionsOk, CallsOk, ReaderOk, TrackerOk, TodoOk, LogOk, Answered, InLog;
    assert SourceOk(cfg, st, s);
    var src := st.sources[s];
    var cmd := Commands(cfg, src.emitted[i])[no];
    var cb := CallbackOf(src.emitted[i], RootOf(s, src, i), no);
    assert Underway(cfg, src, i, no, cmd, cb);
    assert AnsweredBy(st, s, i, no, cmd, k);
    var cb' :| Answered(st, s, Leaf.Leaf(i, no, k, cmd, cb'));
    OneCopy(cfg, st, s, SentLeaf(cfg, i, no, cmd, cb, k), Leaf.Leaf(i, no, k, cmd, cb'));
  }

  lemma AnsweredIsKnown(cfg: Config, st: State, s: nat, leaf: Leaf)
    requires Inv(cfg, st) && Answered(st, s, leaf) && leaf.cb.Some?
    ensures Known(st, leaf.cb.value)
  {
    if !Known(st, leaf.cb.value) { NotYetAnswered(cfg, st, s, leaf); }
  }

  lemma CommandRole(cfg: Config, st: State, s: nat, t: nat, no: nat)
    requires s < |st.sources| && t < Registered(st.sources[s]) && st.sources[s].loaded + t < |st.sources[s].emitted|
    requires no < |Commands(cfg, st.sources[s].emitted[st.sources[s].loaded + t])|
    ensures var i := st.sources[s].loaded + t; var e := st.sources[s].emitted[i];
        var c := CallbackOf(e, Some(Root(s, t)), no).value;
      && Origin(c) == Root(s, t) && RootOf(s, st.sources[s], i) == Some(Root(s, t))
      && RoleOf(cfg, st, c) == WriteRole(cfg, i, no, Commands(cfg, e)[no], c)
      && forall k: nat :: Origin(Part(c, k)) == Root(s, t) && RoleOf(cfg, st, Part(c, k)) ==
          CopyRole(cfg, i, no, Commands(cfg, e)[no], Part(c, k), k)
  {
    var i := st.sources[s].loaded + t;
    var e := st.sources[s].emitted[i];
    var c := CallbackOf(e, Some(Root(s, t)), no).value;
    assert Origin(c) == Root(s, t);
    assert forall k: nat :: Origin(Part(c, k)) == Origin(c);
  }

  /** A callback all of whose parts are done has its turn. */
  lemma AllPartsDone(cfg: Config, st: State, c: Callback, n: nat)
    requires DivisionsOk(cfg, st) && RoleOf(cfg, st, c) == Divided(n) && n > 0
    requires forall i: nat :: i < n ==> Done(st, Part(c, i))
    ensures Known(st, c) && Ripe(cfg, st, c)
  {
    assert Done(st, Part(c, 0));
    forall i: nat | i < n
      ensures st.divisions[c].once[i]
    {
      assert Done(st, Part(c, i));
    }
    UnsetIsZero(st.divisions[c].once);
    DivisionKnown(cfg, st, c);
  }

  /** A command of a registered entry that has been answered everywhere has a ripe callback. */
  lemma AnsweredCommandRipe(cfg: Config, st: State, s: nat, t: nat, no: nat)
    requires Inv(cfg, st) && AtRest(st, s) && t < Registered(st.sources[s])
    requires var src := st.sources[s]; var i := src.loaded + t;
      && i < src.next <= |src.emitted|
      && no < |Commands(cfg, src.emitted[i])| && CommandDone(cfg, st, s, i, no, Commands(cfg, src.emitted[i])[no])
      && !Commands(cfg, src.emitted[i])[no].select
    ensures var c := CallbackOf(st.sources[s].emitted[st.sources[s].loaded + t], Some(Root(s, t)), no);
      c.Some? && Known(st, c.value) && Ripe(cfg, st, c.value)
  {
    hide SourceOk, ShardsOk, SlotsOk, ExactOk, CallsOk, DivisionsOk, Answered, CommandDone, RoleOf, Known, Done;
    var src, i := st.sources[s], st.sources[s].loaded + t;
    var cmd := Commands(cfg, src.emitted[i])[no];
    var c := CallbackOf(src.emitted[i], Some(Root(s, t)), no).value;
    CommandRole(cfg, st, s, t, no);
    if Broadcast(cfg, cmd) {
      forall k: nat | k < cfg.shards
        ensures Done(st, Part(c, k))
      {
        AnsweredCopy(cfg, st, s, i, no, k);
        AnsweredIsKnown(cfg, st, s, Leaf.Leaf(i, no, k, cmd, Some(Part(c, k))));
        RipeIsDone(cfg, st, s, Part(c, k));
      }
      AllPartsDone(cfg, st, c, cfg.shards);
    } else {
      RoutableByDone(cfg, st, s, i, no, cmd);
      AnsweredCopy(cfg, st, s, i, no, Target(cfg, cmd).value);
      AnsweredIsKnown(cfg, st, s, Leaf.Leaf(i, no, Target(cfg, cmd).value, cmd, Some(c)));
    }
  }

  lemma RoutableByDone(cfg: Config, st: State, s: nat, i: nat, no: nat, cmd: Command)
    requires CommandDone(cfg, st, s, i, no, cmd) && !Broadcast(cfg, cmd)
    ensures Target(cfg, cmd).Some?
  {}

  /** At rest, a registered entry has run its callback exactly if it has been dealt with and holds no
      SELECT. */
  lemma FiredExactlyWhenDealtWith(cfg: Config, st: State, s: nat, t: nat)
    requires Inv(cfg, st) && AtRest(st, s) && t < Registered(st.sources[s])
    ensures var src := st.sources[s];
      && src.loaded + t < src.next <= |src.emitted|
      && (t in src.fired <==>
          DealtWith(cfg, st, s, src.loaded + t) && NoSelect(Commands(cfg, src.emitted[src.loaded + t])))
  {
    hide ShardsOk, SlotsOk, ExactOk, CallsOk, ReaderOk, LogOk, TodoOk, NothingLost, CommandDone, Shows, Answered;
    assert SourceOk(cfg, st, s);
    var src, root := st.sources[s], Root(s, t);
    var i := src.loaded + t;
    var cmds := Commands(cfg, src.emitted[i]);
    RipeIsDone(cfg, st, s, root);
    if t in src.fired {
      RipeEntry(cfg, st, s, t);
    } else if DealtWith(cfg, st, s, i) && NoSelect(cmds) {
      if src.emitted[i].progressOnly {
        AnsweredCommandRipe(cfg, st, s, t, 0);
      } else if cmds != [] {
        forall no: nat | no < |cmds|
          ensures Done(st, Part(root, no))
        {
          assert CommandDone(cfg, st, s, i, no, cmds[no]);
          AnsweredCommandRipe(cfg, st, s, t, no);
          RipeIsDone(cfg, st, s, Part(root, no));
        }
        AllPartsDone(cfg, st, root, |cmds|);
      }
    }
  }

  /** The visible offset of source `s` is the last offset of the longest prefix of its registered
      entries that have been dealt with and hold no SELECT. */
  ghost predicate ShowsLongestPrefix(cfg: Config, st: State, s: nat)
    requires s < |st.sources|
  {
    var src := st.sources[s];
    var n := src.ledger.released;
    && n <= Registered(src) && src.loaded + Registered(src) <= |src.emitted|
    && (forall i :: src.loaded <= i < src.loaded + n ==>
        DealtWith(cfg, st, s, i) && NoSelect(Commands(cfg, src.emitted[i])))
    && (n < Registered(src) ==>
        !(DealtWith(cfg, st, s, src.loaded + n) && NoSelect(Commands(cfg, src.emitted[src.loaded + n]))))
    && src.ledger.known == (n > 0)
    && (n > 0 ==> src.ledger.offset == src.emitted[src.loaded + n - 1].offset)
  }

  lemma RestShowsLongestPrefix(cfg: Config, st: State, s: nat)
    requires Inv(cfg, st) && AtRest(st, s)
    ensures ShowsLongestPrefix(cfg, st, s)
  {
    hide ShardsOk, SlotsOk, ExactOk, DivisionsOk, CallsOk, ReaderOk, LogOk, TodoOk, NothingLost, DealtWith, NoSelect;
    assert SourceOk(cfg, st, s);
    var src := st.sources[s];
    var n := src.ledger.released;
    forall i | src.loaded <= i < src.loaded + n
      ensures DealtWith(cfg, st, s, i) && NoSelect(Commands(cfg, src.emitted[i]))
    {
      assert Past(src)[i - src.loaded].done;
      FiredExactlyWhenDealtWith(cfg, st, s, i - src.loaded);
    }
    if n < Registered(src) {
      assert !Past(src)[n].done;
      FiredExactlyWhenDealtWith(cfg, st, s, n);
    }
    if n > 0 { assert Past(src)[n - 1].offset == src.emitted[src.loaded + n - 1].offset; }
  }

  /** Exactness of the consumed offset. In every state of every run in which no callback is under
      way, the visible offset is exactly that of the longest prefix that has been dealt with. */
  lemma VisibleOffsetIsExact(cfg: Config, steps: seq<Step>, s: nat)
    requires ValidConfig(cfg) && IsRun(cfg, steps) && AtRest(After(cfg, steps), s)
    ensures ShowsLongestPrefix(cfg, After(cfg, steps), s)
  {
    hide Inv, ShowsLongestPrefix;
    RunKeepsInv(cfg, steps);
    RestShowsLongestPrefix(cfg, After(cfg, steps), s);
  }

  // ----- the fence and cancellation -----

  lemma Extended(cfg: Config, steps: seq<Step>, step: Step)
    requires IsRun(cfg, steps) && Enabled(cfg, After(cfg, steps), step)
    ensures IsRun(cfg, steps + [step]) && After(cfg, steps + [step]) == Perform(cfg, After(cfg, steps), step)
  {
    assert (steps + [step])[..|steps + [step]| - 1] == steps;
  }

  const SNAPSHOT_ENTRY := Entry(["SET", "k", "v"], false, 0, false)

  /** One source with one snapshot entry and a standalone target. */
  function SmallConfig(): Config {
    Config(false, 1, [], 1, (e: Entry) => true, (e: Entry) => [Command(e.argv, [], false)], [[SNAPSHOT_ENTRY]], [7])
  }

  const FENCE_PING := Leaf.Leaf(0, 0, 0, Command(PING, [], false), Some(Root(0, 0)))

  /** The run up to the fence, and the state it ends in: the loader has stopped without an entry. */
  lemma StoppedLoader() returns (steps: seq<Step>)
    ensures var cfg := SmallConfig();
      IsRun(cfg, steps) &&
      After(cfg, steps) == Pipeline.State.State(true, false, 0, map[],
        [Source.Source(Streaming, 0, [Progress(7)], 0, Idle, [], EMPTY_LEDGER, {})], [Shard([], 0, None)])
  {
    var cfg := SmallConfig();
    steps := [];
    assert After(cfg, []).sources == [Source.Source(Loading, 0, [], 0, Idle, [], EMPTY_LEDGER, {})];
    assert After(cfg, []).shards == [Shard([], 0, None)];
    Extended(cfg, steps, Cancel);
    steps := steps + [Cancel];
    Extended(cfg, steps, LoaderStop(0));
    steps := steps + [LoaderStop(0)];
    assert After(cfg, steps).sources == [Source.Source(Loaded, 0, [], 0, Idle, [], EMPTY_LEDGER, {})];
    Extended(cfg, steps, Fence(0));
    steps := steps + [Fence(0)];
    assert After(cfg, steps).sources[0].emitted == [Progress(7)];
    assert After(cfg, steps).sources == [Source.Source(Streaming, 0, [Progress(7)], 0, Idle, [], EMPTY_LEDGER, {})];
  }

  /** The run up to the fence's registration, and the state it ends in. */
  lemma EarlyFence() returns (steps: seq<Step>)
    ensures var cfg := SmallConfig();
      IsRun(cfg, steps) &&
      After(cfg, steps) == Pipeline.State.State(true, false, 1, map[],
        [Source.Source(Streaming, 0, [Progress(7)], 1, Busy([Send(FENCE_PING)], None), [],
            Ledger(0, [Pending(7, false)], 0, false), {})],
        [Shard([], 0, None)])
  {
    hide IsRun, After;
    var cfg := SmallConfig();
    steps := StoppedLoader();
    Extended(cfg, steps, Acquire(0));
    steps := steps + [Acquire(0)];
    assert After(cfg, steps).sources == [Source.Source(Streaming, 0, [Progress(7)], 0, Joining, [], EMPTY_LEDGER, {})];
    Extended(cfg, steps, Enroll(0));
    steps := steps + [Enroll(0)];
    assert Plan(cfg, 0, Progress(7), Some(Root(0, 0))) == [Send(FENCE_PING)];
    assert After(cfg, steps).sources[0].ledger.queue == [Pending(7, false)];
    assert After(cfg, steps).sources ==
      [Source.Source(Streaming, 0, [Progress(7)], 1, Busy([Send(FENCE_PING)], None), [],
          Ledger(0, [Pending(7, false)], 0, false), {})];
  }

  /** The run goes on until the fence has been sent. */
  lemma SentFence() returns (steps: seq<Step>)
    ensures var cfg := SmallConfig();
      IsRun(cfg, steps) &&
      After(cfg, steps) == Pipeline.State.State(true, false, 1, map[],
        [Source.Source(Streaming, 0, [Progress(7)], 1, Busy([], None), [Logged(FENCE_PING, 0)],
            Ledger(0, [Pending(7, false)], 0, false), {})],
        [Shard([Sent(0, FENCE_PING)], 0, None)])
  {
    hide IsRun, After;
    var cfg := SmallConfig();
    steps := EarlyFence();
    Extended(cfg, steps, Act(0));
    steps := steps + [Act(0)];
    assert After(cfg, steps).sources[0].log == [Logged(FENCE_PING, 0)] && After(cfg, steps).sources[0].pc.todo == [];
    assert After(cfg, steps).shards[0].all == [Sent(0, FENCE_PING)];
    assert After(cfg, steps).sources ==
      [Source.Source(Streaming, 0, [Progress(7)], 1, Busy([], None), [Logged(FENCE_PING, 0)],
          Ledger(0, [Pending(7, false)], 0, false), {})];
    assert After(cfg, steps).shards == [Shard([Sent(0, FENCE_PING)], 0, None)];
  }

  /** The run goes on until the fence has been answered. */
  lemma AnsweredFence() returns (steps: seq<Step>)
    ensures var cfg := SmallConfig();
      IsRun(cfg, steps) &&
      After(cfg, steps) == Pipeline.State.State(true, false, 1, map[],
        [Source.Source(Streaming, 0, [Progress(7)], 1, Busy([], None), [Logged(FENCE_PING, 0)],
            Ledger(0, [Pending(7, false)], 0, false), {})],
        [Shard([Sent(0, FENCE_PING)], 1, Some(Root(0, 0)))])
  {
    hide IsRun, After;
    var cfg := SmallConfig();
    steps := SentFence();
    Extended(cfg, steps, Reply(0));
    steps := steps + [Reply(0)];
    assert After(cfg, steps).shards == [Shard([Sent(0, FENCE_PING)], 1, Some(Root(0, 0)))];
  }

  lemma OnlyPositionReleased()
    ensures Complete(Ledger(0, [Pending(7, false)], 0, false), 0) == Ledger(1, [], 7, true)
  {
    var marked := Ledger(0, [Pending(7, true)], 0, false);
    assert [Pending(7, false)][0 := Pending(7, true)] == [Pending(7, true)];
    assert Release(marked) == Release(Ledger(1, marked.queue[1..], 7, true));
    assert marked.queue[1..] == [];
  }

  /** A cancellation can end the loader early and still let the fence through: a run in which the
      base offset shows although the snapshot entry never left. */
  lemma FenceWithoutSnapshot() returns (steps: seq<Step>)
    ensures var cfg := SmallConfig();
      && ValidConfig(cfg) && IsRun(cfg, steps)
      && var st := After(cfg, steps);
         && |st.sources| == 1 && st.sources[0].ledger.known && st.sources[0].ledger.offset == 7
         && |st.shards| == 1 && st.shards[0].all == [Sent(0, FENCE_PING)]
         && st.sources[0].loaded == 0 < |cfg.snapshots[0]|
  {
    hide IsRun, After;
    var cfg := SmallConfig();
    steps := AnsweredFence();
    OnlyPositionReleased();
    Extended(cfg, steps, RunCall(OfShard(0)));
    steps := steps + [RunCall(OfShard(0))];
  }
}
