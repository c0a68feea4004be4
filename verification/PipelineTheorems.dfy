/** What holds in every state of every run of the pipeline. */
module PipelineTheorems {
  import opened Basics
  import opened Completions
  import opened TrackerModel
  import opened Pipeline
  import opened PipelinePlan
  import opened PipelineInvariant
  import opened PipelineProof
  import opened PipelineReplies

  lemma ReaderSteps(cfg: Config, st: State, step: Step)
    requires Inv(cfg, st) && Enabled(cfg, st, step)
    requires step.LoadEntry? || step.LoaderStop? || step.Fence? || step.SkipFence? || step.Emit?
    ensures Inv(cfg, Perform(cfg, st, step))
  {
    hide LogOk, TodoOk, NothingLost, TrackerOk, ExactOk, DivisionsOk, CallsOk, ShardsOk, SlotsOk;
    var st' := Perform(cfg, st, step);
    assert SourceOk(cfg, st, step.s);
    var a, b := st.sources[step.s], st'.sources[step.s];
    if step.LoadEntry? {
      assert cfg.snapshots[step.s][..b.loaded] == cfg.snapshots[step.s][..a.loaded] + [cfg.snapshots[step.s][a.loaded]];
      assert b.emitted[..b.loaded] == b.emitted;
    } else {
      assert b.emitted[..b.loaded] == a.emitted[..a.loaded];
    }
    ReaderStep(cfg, st, step.s, b);
  }

  lemma ConsumerSteps(cfg: Config, st: State, step: Step)
    requires Inv(cfg, st) && Enabled(cfg, st, step)
    requires step.Take? || step.Acquire? || step.Abort? || step.Enroll? || step.Finish?
    ensures Inv(cfg, Perform(cfg, st, step))
  {
    hide LogOk, TodoOk, NothingLost, ExactOk, DivisionsOk, CallsOk, ShardsOk, Shows;
    var st', s := Perform(cfg, st, step), step.s;
    assert SourceOk(cfg, st, s);
    HeldUpdate(st.sources, s, st'.sources[s]);
    if step.Take? {
      TakeStep(cfg, st, s);
    } else if step.Enroll? {
      EnrollStep(cfg, st, s);
    } else {
      IdleStep(cfg, st, st', s);
    }
  }

  /** Every step keeps the invariant. */
  lemma StepKeepsInv(cfg: Config, st: State, step: Step)
    requires Inv(cfg, st) && Enabled(cfg, st, step)
    ensures Inv(cfg, Perform(cfg, st, step))
  {
    match step
    case Cancel => Halting(cfg, st, Perform(cfg, st, step));
    case FatalReply(_) => Halting(cfg, st, Perform(cfg, st, step));
    case LoadEntry(_) => ReaderSteps(cfg, st, step);
    case LoaderStop(_) => ReaderSteps(cfg, st, step);
    case Fence(_) => ReaderSteps(cfg, st, step);
    case SkipFence(_) => ReaderSteps(cfg, st, step);
    case Emit(_, _) => ReaderSteps(cfg, st, step);
    case Take(_) => ConsumerSteps(cfg, st, step);
    case Acquire(_) => ConsumerSteps(cfg, st, step);
    case Abort(_) => ConsumerSteps(cfg, st, step);
    case Enroll(_) => ConsumerSteps(cfg, st, step);
    case Finish(_) => ConsumerSteps(cfg, st, step);
    case Act(s) =>
      hide Inv;
      match st.sources[s].pc.todo[0] {
        case Split(_, _) => SplitStep(cfg, st, s);
        case Send(_) => SendStep(cfg, st, s);
        case Call(_) => CallStep(cfg, st, s);
        case Crash => Halting(cfg, st, Perform(cfg, st, step));
      }
    case Heartbeat(k) => HeartbeatStep(cfg, st, k);
    case Reply(k) => ReplyStep(cfg, st, k);
    case RunCall(g) =>
      hide Inv;
      if CallOf(st, g).value.Part? { PartStep(cfg, st, g); } else { RootStep(cfg, st, g); }
  }

  lemma Halting(cfg: Config, st: State, st': State)
    requires Inv(cfg, st) && st' == st.(cancelled := st'.cancelled, halted := st'.halted)
    ensures Inv(cfg, st')
  {
    hide SourceOk, ItemOk, RoleOf, ExactOk, DivisionsOk, CallsOk;
    TrackersOk(cfg, st);
    OthersKept(cfg, st, st', |st.sources|);
    ItemsKept(cfg, st, st');
    assert forall g :: CallOf(st', g) == CallOf(st, g);
    assert forall r: nat, leaf :: Answered(st', r, leaf) <==> Answered(st, r, leaf);
    CallbacksKept(cfg, st, st');
  }

  lemma {:induction false} RunKeepsInv(cfg: Config, steps: seq<Step>)
    requires ValidConfig(cfg) && IsRun(cfg, steps)
    ensures Inv(cfg, After(cfg, steps))
  {
    hide Inv, Perform, Enabled;
    if steps == [] {
      InitialInv(cfg);
    } else {
      var before := steps[..|steps| - 1];
      RunKeepsInv(cfg, before);
      StepKeepsInv(cfg, After(cfg, before), steps[|steps| - 1]);
    }
  }

  // ----- what a ripe callback says about its commands -----

  /** Every part of a divided callback whose counter has run out has its own turn. */
  lemma PartsAreRipe(cfg: Config, st: State, c: Callback, n: nat)
    requires Inv(cfg, st) && RoleOf(cfg, st, c) == Divided(n) && Ripe(cfg, st, c)
    ensures forall i: nat :: i < n ==> Known(st, Part(c, i)) && Ripe(cfg, st, Part(c, i))
  {
    hide SourceOk, ShardsOk, SlotsOk, RoleOf;
    UnsetIsZero(st.divisions[c].once);
    forall i: nat | i < n
      ensures Known(st, Part(c, i)) && Ripe(cfg, st, Part(c, i))
    {
      assert Known(st, Part(c, i)) && Done(st, Part(c, i));
    }
  }

  /** A command whose callback is ripe has been answered by every shard it goes to. */
  lemma RipeCommand(cfg: Config, st: State, s: nat, i: nat, no: nat, cmd: Command, c: Callback)
    requires Inv(cfg, st) && Origin(c).Root? && Origin(c).source == s && Ripe(cfg, st, c)
    requires RoleOf(cfg, st, c) == WriteRole(cfg, i, no, cmd, c)
    requires Broadcast(cfg, cmd) ==>
        forall k: nat :: RoleOf(cfg, st, Part(c, k)) == CopyRole(cfg, i, no, cmd, Part(c, k), k)
    ensures !cmd.select && CommandDone(cfg, st, s, i, no, cmd)
  {
    hide SourceOk, ShardsOk, SlotsOk, ExactOk, DivisionsOk, CallsOk, Answered, RoleOf;
    if Broadcast(cfg, cmd) {
      PartsAreRipe(cfg, st, c, cfg.shards);
      forall k: nat | GoesTo(cfg, cmd, k)
        ensures AnsweredBy(st, s, i, no, cmd, k) && !cmd.select
      {
        assert Ripe(cfg, st, Part(c, k));
        assert Answered(st, s, Leaf.Leaf(i, no, k, cmd, Some(Part(c, k))));
      }
      assert GoesTo(cfg, cmd, 0);
    } else {
      assert Answered(st, s, RoleOf(cfg, st, c).leaf) && GoesTo(cfg, cmd, Target(cfg, cmd).value);
    }
  }

  ghost predicate NoSelect(cmds: seq<Command>) {
    forall no :: 0 <= no < |cmds| ==> !cmds[no].select
  }

  /** A registered entry whose callback is ripe has been dealt with. */
  lemma RipeEntry(cfg: Config, st: State, s: nat, t: nat)
    requires Inv(cfg, st) && s < |st.sources| && t < Registered(st.sources[s]) && Ripe(cfg, st, Root(s, t))
    ensures st.sources[s].loaded + t < |st.sources[s].emitted|
    ensures DealtWith(cfg, st, s, st.sources[s].loaded + t)
    ensures NoSelect(Commands(cfg, st.sources[s].emitted[st.sources[s].loaded + t]))
  {
    hide ShardsOk, SlotsOk, ExactOk, DivisionsOk, CallsOk, CommandDone, ReaderOk, LogOk, TodoOk, NothingLost, Ripe;
    assert SourceOk(cfg, st, s);
    var src, root := st.sources[s], Root(s, t);
    var i := src.loaded + t;
    var cmds := Commands(cfg, src.emitted[i]);
    if src.emitted[i].progressOnly {
      RipeCommand(cfg, st, s, i, 0, cmds[0], root);
    } else if cmds != [] {
      PartsAreRipe(cfg, st, root, |cmds|);
      forall no | 0 <= no < |cmds|
        ensures !cmds[no].select && CommandDone(cfg, st, s, i, no, cmds[no])
      {
        assert Ripe(cfg, st, Part(root, no));
        RipeCommand(cfg, st, s, i, no, cmds[no], Part(root, no));
      }
    }
  }

  /** Every position at or below the visible offset has left the queue completed. */
  lemma VisibleIsFired(cfg: Config, st: State, s: nat, i: nat)
    requires Inv(cfg, st) && s < |st.sources| && st.sources[s].ledger.known
    requires st.sources[s].loaded <= i < |st.sources[s].emitted|
    requires st.sources[s].emitted[i].offset <= st.sources[s].ledger.offset
    ensures i - st.sources[s].loaded < st.sources[s].ledger.released && i - st.sources[s].loaded in st.sources[s].fired
  {
    hide ShardsOk, SlotsOk, ExactOk, DivisionsOk, CallsOk, LogOk, TodoOk, NothingLost;
    assert SourceOk(cfg, st, s);
    var src := st.sources[s];
    var last := src.ledger.released - 1;
    assert Past(src)[last].offset == src.emitted[src.loaded + last].offset;
    assert i <= src.loaded + last;
    assert Past(src)[i - src.loaded].done;
  }

  lemma VisibleEntry(cfg: Config, st: State, s: nat, i: nat)
    requires Inv(cfg, st) && s < |st.sources| && st.sources[s].ledger.known
    requires st.sources[s].loaded <= i < |st.sources[s].emitted|
    requires st.sources[s].emitted[i].offset <= st.sources[s].ledger.offset
    ensures DealtWith(cfg, st, s, i) && NoSelect(Commands(cfg, st.sources[s].emitted[i]))
  {
    hide SourceOk, ShardsOk, SlotsOk, DivisionsOk, CallsOk, DealtWith, Ripe, Shows;
    var t := i - st.sources[s].loaded;
    VisibleIsFired(cfg, st, s, i);
    assert Known(st, Root(s, t)) && Done(st, Root(s, t));
    RipeEntry(cfg, st, s, t);
  }

  /** Safety of the consumed offset. In every state of every run, under any interleaving and at any
      point of a cancellation: when the visible offset of a source is X, every entry of that source
      with an offset of at most X was filtered out, or each of the commands it was transformed into
      has been answered by every shard it went to. */
  lemma VisibleOffsetIsAcknowledged(cfg: Config, steps: seq<Step>, s: nat, i: nat)
    requires ValidConfig(cfg) && IsRun(cfg, steps) && s < |After(cfg, steps).sources|
    requires var src := After(cfg, steps).sources[s];
      src.ledger.known && src.loaded <= i < |src.emitted| && src.emitted[i].offset <= src.ledger.offset
    ensures DealtWith(cfg, After(cfg, steps), s, i)
    ensures NoSelect(Commands(cfg, After(cfg, steps).sources[s].emitted[i]))
  {
    hide Inv, DealtWith, NoSelect;
    RunKeepsInv(cfg, steps);
    VisibleEntry(cfg, After(cfg, steps), s, i);
  }

  /** A SELECT that comes through the pipeline is answered without its callback, so the visible
      offset never reaches its entry. */
  lemma SelectHoldsTheOffsetBack(cfg: Config, steps: seq<Step>, s: nat, i: nat, no: nat)
    requires ValidConfig(cfg) && IsRun(cfg, steps) && s < |After(cfg, steps).sources|
    requires var src := After(cfg, steps).sources[s];
      && src.loaded <= i < |src.emitted| && no < |Commands(cfg, src.emitted[i])|
      && Commands(cfg, src.emitted[i])[no].select
    ensures var src := After(cfg, steps).sources[s]; src.ledger.known ==> src.ledger.offset < src.emitted[i].offset
  {
    var src := After(cfg, steps).sources[s];
    if src.ledger.known && src.ledger.offset >= src.emitted[i].offset {
      VisibleOffsetIsAcknowledged(cfg, steps, s, i);
    }
  }
}
