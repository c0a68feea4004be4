/** The running pipeline as one state machine: the readers of all sources, the consumer goroutine of
    each reader channel (`internal/kernel/run.go`), the tracker, the divided completions, and the
    target shards with their reply goroutines.  A run is any sequence of enabled steps; steps of
    different goroutines interleave freely, down to the single callback body. */
module Pipeline {
  import opened Basics
  import opened Completions
  import opened TrackerModel

  /** A command as it is handed to the writer, after its keys have been hashed. */
  datatype Command = Command(argv: seq<string>, slots: seq<nat>, select: bool)

  /** What a reader puts on its channel. Snapshot entries carry no source position. */
  datatype Entry = Entry(argv: seq<string>, tracked: bool, offset: int, progressOnly: bool)

  const PING := ["PING"]

  function Progress(offset: int): Entry {
    Entry(PING, true, offset, true)
  }

  /** Everything a run does not change. The filter and the transformation are arbitrary. */
  datatype Config = Config(
    cluster: bool,
    shards: nat,
    router: seq<nat>,
    limit: nat,
    filter: Entry -> bool,
    transform: Entry -> seq<Command>,
    snapshots: seq<seq<Entry>>,
    bases: seq<int>)

  ghost predicate ValidConfig(cfg: Config) {
    && cfg.shards > 0 && (!cfg.cluster ==> cfg.shards == 1)
    && (forall i :: 0 <= i < |cfg.router| ==> cfg.router[i] < cfg.shards)
    && |cfg.snapshots| == |cfg.bases|
    && (forall s, i :: 0 <= s < |cfg.snapshots| && 0 <= i < |cfg.snapshots[s]| ==>
      !cfg.snapshots[s][i].tracked && !cfg.snapshots[s][i].progressOnly)
  }

  // ----- what the writer does with one command -----

  /** A command without keys goes to every shard of a cluster. */
  predicate Broadcast(cfg: Config, cmd: Command) {
    cfg.cluster && cmd.slots == []
  }

  /** The one shard of any other command; none if its keys hash to different slots. */
  function Target(cfg: Config, cmd: Command): Option<nat> {
    if !cfg.cluster then Some(0)
    else if cmd.slots != [] && (forall i :: 0 <= i < |cmd.slots| ==> cmd.slots[i] == cmd.slots[0])
        && cmd.slots[0] < |cfg.router|
    then Some(cfg.router[cmd.slots[0]])
    else None
  }

  /** The commands an entry turns into. */
  function Commands(cfg: Config, e: Entry): seq<Command> {
    if e.progressOnly then [Command(e.argv, [], false)]
    else if cfg.filter(e) then cfg.transform(e)
    else []
  }

  /** The shards on which a command has to be answered. */
  predicate GoesTo(cfg: Config, cmd: Command, k: nat) {
    if Broadcast(cfg, cmd) then k < cfg.shards else Target(cfg, cmd) == Some(k)
  }

  /** One copy of one command on its way to one shard: entry `idx` of its source, command `no` of
      that entry. */
  datatype Leaf = Leaf(idx: nat, no: nat, shard: nat, cmd: Command, cb: Option<Callback>)

  datatype Action = Split(c: Callback, n: nat) | Send(leaf: Leaf) | Call(c: Callback) | Crash

  function Copies(cfg: Config, i: nat, no: nat, cmd: Command, cb: Option<Callback>, k: nat): seq<Action>
    decreases cfg.shards - k
  {
    if k >= cfg.shards then []
    else
      var part := if cb.Some? then Some(Part(cb.value, k)) else None;
      [Send(Leaf(i, no, k, cmd, part))] + Copies(cfg, i, no, cmd, cb, k + 1)
  }

  /** `Write` of the cluster or the standalone writer. */
  function Write(cfg: Config, i: nat, no: nat, cmd: Command, cb: Option<Callback>): seq<Action> {
    if Broadcast(cfg, cmd) then
      (if cb.Some? then [Split(cb.value, cfg.shards)] else []) + Copies(cfg, i, no, cmd, cb, 0)
    else match Target(cfg, cmd)
      case Some(k) => [Send(Leaf(i, no, k, cmd, cb))]
      case None => [Crash]
  }

  function Writes(cfg: Config, i: nat, cmds: seq<Command>, no: nat, root: Option<Callback>): seq<Action>
    requires no <= |cmds|
    decreases |cmds| - no
  {
    if no == |cmds| then []
    else
      Write(cfg, i, no, cmds[no], if root.Some? then Some(Part(root.value, no)) else None)
        + Writes(cfg, i, cmds, no + 1, root)
  }

  /** What the consumer goroutine does with one entry once its position is registered (`root`), or
      with an entry that has none. */
  function Plan(cfg: Config, i: nat, e: Entry, root: Option<Callback>): seq<Action> {
    if e.progressOnly then Write(cfg, i, 0, Command(e.argv, [], false), root)
    else if !cfg.filter(e) || cfg.transform(e) == [] then (if root.Some? then [Call(root.value)] else [])
    else
      (if root.Some? then [Split(root.value, |cfg.transform(e)|)] else [])
        + Writes(cfg, i, cfg.transform(e), 0, root)
  }

  // ----- states -----

  /** Reader: loading the snapshot, done with it, streaming commands, or closed without a fence. */
  datatype Phase = Loading | Loaded | Streaming | Closed

  /** The consumer goroutine: waiting for an entry, between slot and registration in Track, working
      through a plan (possibly inside a callback), or discarding after a failed Track. */
  datatype Consumer = Idle | Joining | Busy(todo: seq<Action>, call: Option<Callback>) | Discarding

  /** A copy that reached its shard's queue, and where. */
  datatype Logged = Logged(leaf: Leaf, pos: nat)

  /** `loaded` counts snapshot entries emitted, `next` entries taken by the consumer; `fired` holds
      the registrations whose callback has run. */
  datatype Source = Source(phase: Phase, loaded: nat, emitted: seq<Entry>, next: nat, pc: Consumer,
                           log: seq<Logged>, ledger: Ledger, fired: set<nat>)

  datatype Item = Beat | Sent(source: nat, leaf: Leaf)

  /** Everything queued for a shard in order, how many replies have been taken, and the callback its
      reply goroutine is inside of. */
  datatype Shard = Shard(all: seq<Item>, acked: nat, call: Option<Callback>)

  datatype State = State(cancelled: bool, halted: bool, slots: int, divisions: Divisions,
                         sources: seq<Source>, shards: seq<Shard>)

  function Initial(cfg: Config): State {
    State(false, false, 0, map[],
          seq(|cfg.snapshots|, _ => Source(Loading, 0, [], 0, Idle, [], EMPTY_LEDGER, {})),
          seq(cfg.shards, _ => Shard([], 0, None)))
  }

  /** The goroutines that run callbacks: the consumer of a source and the reply loop of a shard. */
  datatype Goroutine = OfSource(s: nat) | OfShard(k: nat)

  /** The callback a goroutine is inside of. */
  function CallOf(st: State, g: Goroutine): Option<Callback> {
    match g
    case OfSource(s) => if s < |st.sources| && st.sources[s].pc.Busy? then st.sources[s].pc.call else None
    case OfShard(k) => if k < |st.shards| then st.shards[k].call else None
  }

  function SetCall(st: State, g: Goroutine, call: Option<Callback>): State {
    match g
    case OfSource(s) =>
      if s < |st.sources| && st.sources[s].pc.Busy? then
        SetSource(st, s, st.sources[s].(pc := Busy(st.sources[s].pc.todo, call)))
      else st
    case OfShard(k) => if k < |st.shards| then SetShard(st, k, st.shards[k].(call := call)) else st
  }

  datatype Step =
    | Cancel
    | LoadEntry(s: nat)
    | LoaderStop(s: nat)
    | Fence(s: nat)
    | SkipFence(s: nat)
    | Emit(s: nat, e: Entry)
    | Take(s: nat)
    | Acquire(s: nat)
    | Abort(s: nat)
    | Enroll(s: nat)
    | Act(s: nat)
    | Finish(s: nat)
    | Heartbeat(k: nat)
    | Reply(k: nat)
    | FatalReply(k: nat)
    | RunCall(g: Goroutine)

  /** Registrations made so far. */
  function Registered(src: Source): nat {
    src.ledger.released + |src.ledger.queue|
  }

  predicate Enabled(cfg: Config, st: State, step: Step) {
    && !st.halted
    && match step
       case Cancel => true
       case LoadEntry(s) => s < |st.sources| && s < |cfg.snapshots| && st.sources[s].phase.Loading?
           && st.sources[s].loaded < |cfg.snapshots[s]|
       // The opcode loop ends at EOF, or after any value once the context is done.
       case LoaderStop(s) => s < |st.sources| && s < |cfg.snapshots| && st.sources[s].phase.Loading? &&
                             (st.sources[s].loaded == |cfg.snapshots[s]| || st.cancelled)
       case Fence(s) => s < |st.sources| && s < |cfg.bases| && st.sources[s].phase.Loaded?
       case SkipFence(s) => s < |st.sources| && st.sources[s].phase.Loaded? && st.cancelled
       case Emit(s, e) => s < |st.sources| && st.sources[s].phase.Streaming? && st.sources[s].emitted != []
           && e.tracked &&
                          e.offset > st.sources[s].emitted[|st.sources[s].emitted| - 1].offset
       case Take(s) => s < |st.sources| && Ready(st.sources[s]) && !st.sources[s].emitted[st.sources[s].next].tracked
       case Acquire(s) => s < |st.sources| && Ready(st.sources[s])
           && st.sources[s].emitted[st.sources[s].next].tracked && st.slots < cfg.limit
       case Abort(s) => s < |st.sources| && Ready(st.sources[s])
           && st.sources[s].emitted[st.sources[s].next].tracked && st.cancelled
       case Enroll(s) => s < |st.sources| && st.sources[s].pc.Joining? && st.sources[s].next < |st.sources[s].emitted|
       case Act(s) => AtAction(st, s) &&
                      (st.sources[s].pc.todo[0].Send? ==> st.sources[s].pc.todo[0].leaf.shard < |st.shards|)
       case Finish(s) => s < |st.sources| && st.sources[s].pc == Busy([], None)
       case Heartbeat(k) => k < |st.shards|
       case Reply(k) => k < |st.shards| && st.shards[k].acked < |st.shards[k].all| && st.shards[k].call.None?
       case FatalReply(k) => k < |st.shards| && st.shards[k].acked < |st.shards[k].all| && st.shards[k].call.None?
       case RunCall(g) => CallOf(st, g).Some?
  }

  predicate Ready(src: Source) {
    src.pc.Idle? && src.next < |src.emitted|
  }

  function SetSource(st: State, s: nat, src: Source): State
    requires s < |st.sources|
  {
    st.(sources := st.sources[s := src])
  }

  function SetShard(st: State, k: nat, sh: Shard): State
    requires k < |st.shards|
  {
    st.(shards := st.shards[k := sh])
  }

  /** One callback body run by some goroutine, and the callback it calls next. The root callback is
      guarded by its own once and runs under the tracker's lock. */
  function RunCallback(st: State, c: Callback): (State, Option<Callback>) {
    match c
    case Part(_, _) =>
      var (d, next) := Touch(st.divisions, c);
      (st.(divisions := d), next)
    case Root(s, t) =>
      if s >= |st.sources| || t in st.sources[s].fired then (st, None)
      else
        var src := st.sources[s];
        var ledger := Complete(src.ledger, t);
        (SetSource(st, s, src.(ledger := ledger, fired := src.fired + {t}))
           .(slots := st.slots - (ledger.released - src.ledger.released)), None)
  }

  /** An entry without a position is taken. */
  function Taken(cfg: Config, st: State, s: nat): State
    requires s < |st.sources| && st.sources[s].next < |st.sources[s].emitted|
  {
    var src := st.sources[s];
    SetSource(st, s, src.(next := src.next + 1, pc := Busy(Plan(cfg, src.next, src.emitted[src.next], None), None)))
  }

  /** An entry is taken and its position joins the queue. */
  function Enrolled(cfg: Config, st: State, s: nat): State
    requires s < |st.sources| && st.sources[s].next < |st.sources[s].emitted|
  {
    var src := st.sources[s];
    var e := src.emitted[src.next];
    SetSource(st, s, src.(next := src.next + 1,
                          ledger := Register(src.ledger, e.offset),
                          pc := Busy(Plan(cfg, src.next, e, Some(Root(s, Registered(src)))), None)))
  }

  predicate AtAction(st: State, s: nat) {
    s < |st.sources| && st.sources[s].pc.Busy? && st.sources[s].pc.call.None? && st.sources[s].pc.todo != []
  }

  function DidSplit(st: State, s: nat): State
    requires AtAction(st, s) && st.sources[s].pc.todo[0].Split?
  {
    var src := st.sources[s];
    var act := src.pc.todo[0];
    SetSource(st, s, src.(pc := Busy(src.pc.todo[1..], None))).(divisions := st.divisions[act.c := Fresh(act.n)])
  }

  function DidSend(st: State, s: nat): State
    requires AtAction(st, s) && st.sources[s].pc.todo[0].Send? && st.sources[s].pc.todo[0].leaf.shard < |st.shards|
  {
    var src := st.sources[s];
    var leaf := src.pc.todo[0].leaf;
    var sh := st.shards[leaf.shard];
    SetShard(SetSource(st, s, src.(pc := Busy(src.pc.todo[1..], None), log := src.log + [Logged(leaf, |sh.all|)])),
             leaf.shard, sh.(all := sh.all + [Sent(s, leaf)]))
  }

  function DidCall(st: State, s: nat): State
    requires AtAction(st, s) && st.sources[s].pc.todo[0].Call?
  {
    var src := st.sources[s];
    SetSource(st, s, src.(pc := Busy(src.pc.todo[1..], Some(src.pc.todo[0].c))))
  }

  /** A reply that does not end the run. The reply to a SELECT that came through the pipeline is
      skipped without its callback. */
  function Replied(st: State, k: nat): State
    requires k < |st.shards| && st.shards[k].acked < |st.shards[k].all|
  {
    var sh := st.shards[k];
    var item := sh.all[sh.acked];
    SetShard(st, k,
        sh.(acked := sh.acked + 1, call := if item.Sent? && !item.leaf.cmd.select then item.leaf.cb else None))
  }

  function RanCallback(st: State, g: Goroutine): State
    requires CallOf(st, g).Some?
  {
    var (st', next) := RunCallback(st, CallOf(st, g).value);
    SetCall(st', g, next)
  }

  function Perform(cfg: Config, st: State, step: Step): State
    requires Enabled(cfg, st, step)
  {
    match step
    case Cancel => st.(cancelled := true)
    case LoadEntry(s) =>
      var src := st.sources[s];
      SetSource(st, s, src.(loaded := src.loaded + 1, emitted := src.emitted + [cfg.snapshots[s][src.loaded]]))
    case LoaderStop(s) => SetSource(st, s, st.sources[s].(phase := Loaded))
    case Fence(s) => SetSource(st, s,
        st.sources[s].(phase := Streaming, emitted := st.sources[s].emitted + [Progress(cfg.bases[s])]))
    case SkipFence(s) => SetSource(st, s, st.sources[s].(phase := Closed))
    case Emit(s, e) => SetSource(st, s, st.sources[s].(emitted := st.sources[s].emitted + [e]))
    case Take(s) => Taken(cfg, st, s)
    case Acquire(s) => SetSource(st, s, st.sources[s].(pc := Joining)).(slots := st.slots + 1)
    case Abort(s) => SetSource(st, s, st.sources[s].(pc := Discarding))
    case Enroll(s) => Enrolled(cfg, st, s)
    case Act(s) =>
      (match st.sources[s].pc.todo[0]
       case Split(_, _) => DidSplit(st, s)
       case Send(_) => DidSend(st, s)
       case Call(_) => DidCall(st, s)
       case Crash => st.(halted := true))
    case Finish(s) => SetSource(st, s, st.sources[s].(pc := Idle))
    case Heartbeat(k) => SetShard(st, k, st.shards[k].(all := st.shards[k].all + [Beat]))
    case Reply(k) => Replied(st, k)
    case FatalReply(k) => st.(halted := true)
    case RunCall(g) => RanCallback(st, g)
  }

  /** `steps` can be taken one after the other from the initial state. */
  ghost predicate IsRun(cfg: Config, steps: seq<Step>)
    decreases |steps|, 0
  {
    steps == [] ||
    (IsRun(cfg, steps[..|steps| - 1]) && Enabled(cfg, After(cfg, steps[..|steps| - 1]), steps[|steps| - 1]))
  }

  ghost function After(cfg: Config, steps: seq<Step>): State
    requires IsRun(cfg, steps)
    decreases |steps|, 1
  {
    if steps == [] then Initial(cfg)
    else Perform(cfg, After(cfg, steps[..|steps| - 1]), steps[|steps| - 1])
  }

  // ----- what it means for an entry to be dealt with -----

  /** The copy `leaf` reached its shard and its reply has been taken. */
  ghost predicate Answered(st: State, s: nat, leaf: Leaf) {
    s < |st.sources| && leaf.shard < |st.shards| &&
    exists q :: 0 <= q < |st.sources[s].log| && st.sources[s].log[q].leaf == leaf
        && st.sources[s].log[q].pos < st.shards[leaf.shard].acked
  }

  /** Command `no` of entry `i` has been answered by shard `k`. */
  ghost predicate AnsweredBy(st: State, s: nat, i: nat, no: nat, cmd: Command, k: nat) {
    exists cb :: Answered(st, s, Leaf(i, no, k, cmd, cb))
  }

  /** Command `no` of entry `i` went somewhere and has been answered by every shard it went to. */
  ghost predicate CommandDone(cfg: Config, st: State, s: nat, i: nat, no: nat, cmd: Command) {
    && (exists k: nat :: GoesTo(cfg, cmd, k))
    && (forall k: nat :: GoesTo(cfg, cmd, k) ==> AnsweredBy(st, s, i, no, cmd, k))
  }

  /** Every command of entry `i` has been answered by every shard it goes to; nothing is left of an
      entry that was filtered out. */
  ghost predicate DealtWith(cfg: Config, st: State, s: nat, i: nat)
    requires s < |st.sources| && i < |st.sources[s].emitted|
  {
    var cmds := Commands(cfg, st.sources[s].emitted[i]);
    forall no :: 0 <= no < |cmds| ==> CommandDone(cfg, st, s, i, no, cmds[no])
  }
}
