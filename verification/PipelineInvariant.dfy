/** What every step of the pipeline keeps. */
module PipelineInvariant {
  import opened Basics
  import opened Completions
  import opened TrackerModel
  import opened Pipeline
  import opened PipelinePlan

  // ----- one source -----

  ghost predicate ReaderOk(cfg: Config, s: nat, src: Source)
    requires s < |cfg.snapshots| == |cfg.bases|
  {
    && src.loaded <= |cfg.snapshots[s]| && src.loaded <= |src.emitted|
    && src.emitted[..src.loaded] == cfg.snapshots[s][..src.loaded]
    && (!src.phase.Streaming? ==> |src.emitted| == src.loaded)
    && (src.phase.Streaming? ==> |src.emitted| > src.loaded && src.emitted[src.loaded] == Progress(cfg.bases[s]))
    && (forall i :: src.loaded <= i < |src.emitted| ==> src.emitted[i].tracked)
    && (forall i, j :: src.loaded <= i < j < |src.emitted| ==> src.emitted[i].offset < src.emitted[j].offset)
  }

  /** The registrations of a source as a history: which offset, and whether its callback has run. */
  ghost function Past(src: Source): (h: seq<Pending>)
    requires src.loaded + Registered(src) <= |src.emitted|
    ensures |h| == Registered(src)
  {
    seq(Registered(src),
        t requires 0 <= t < Registered(src) => Pending(src.emitted[src.loaded + t].offset, t in src.fired))
  }

  /** The registered positions are those of the tracked entries taken so far, with none left out. */
  ghost predicate TrackerOk(src: Source) {
    && src.next <= |src.emitted|
    && Registered(src) == (if src.next > src.loaded then src.next - src.loaded else 0)
    && (src.pc.Joining? ==> src.loaded <= src.next < |src.emitted|)
    && (forall t :: t in src.fired ==> t < Registered(src))
    && src.loaded <= |src.emitted|
    && Shows(src.ledger, Past(src))
  }

  ghost predicate LogOk(st: State, s: nat)
    requires s < |st.sources|
  {
    var log := st.sources[s].log;
    && (forall q :: 0 <= q < |log| ==>
      && log[q].leaf.idx < st.sources[s].next
      && log[q].leaf.shard < |st.shards|
      && log[q].pos < |st.shards[log[q].leaf.shard].all|
      && st.shards[log[q].leaf.shard].all[log[q].pos] == Sent(s, log[q].leaf))
    && (forall q, r :: 0 <= q < r < |log| ==> Before(log[q].leaf, log[r].leaf))
    && (forall q, r :: 0 <= q < r < |log| && log[q].leaf.shard == log[r].leaf.shard ==> log[q].pos < log[r].pos)
  }

  /** The callback of entry `i`, if it has a position. */
  ghost function RootOf(s: nat, src: Source, i: nat): Option<Callback> {
    if i >= src.loaded then Some(Root(s, i - src.loaded)) else None
  }

  /** Every callback used by the plan will have been handed out by then. */
  ghost predicate Announced(d: set<Callback>, plan: seq<Action>)
    decreases |plan|
  {
    plan == [] ||
    match plan[0]
    case Split(c, _) => (c.Part? ==> c.parent in d) && Announced(d + {c}, plan[1..])
    case Send(leaf) => (leaf.cb.Some? && leaf.cb.value.Part? ==> leaf.cb.value.parent in d) && Announced(d, plan[1..])
    case _ => Announced(d, plan[1..])
  }

  ghost predicate TodoOk(cfg: Config, st: State, s: nat)
    requires s < |st.sources|
  {
    var src := st.sources[s];
    src.pc.Busy? ==>
      && 0 < src.next <= |src.emitted|
      && SoundPlan(cfg, src.next - 1, src.emitted[src.next - 1], RootOf(s, src, src.next - 1), src.pc.todo)
      && Ordered(src.pc.todo) && CallIsLast(src.pc.todo)
      && Announced(st.divisions.Keys, src.pc.todo)
      && (forall x :: 0 <= x < |src.pc.todo| && src.pc.todo[x].Split? ==> src.pc.todo[x].c !in st.divisions)
      && (forall q, x :: 0 <= q < |src.log| && 0 <= x < |src.pc.todo| && src.pc.todo[x].Send? ==>
          Before(src.log[q].leaf, src.pc.todo[x].leaf))
  }

  ghost predicate InLog(src: Source, leaf: Leaf) {
    exists q :: 0 <= q < |src.log| && src.log[q].leaf == leaf
  }

  /** Every copy of every entry taken so far has been sent or is still to do. */
  ghost predicate Underway(cfg: Config, src: Source, i: nat, no: nat, cmd: Command, cb: Option<Callback>) {
    && (forall k: nat :: GoesTo(cfg, cmd, k) ==>
      var leaf := SentLeaf(cfg, i, no, cmd, cb, k);
      InLog(src, leaf) || (src.pc.Busy? && i == src.next - 1 && Sends(src.pc.todo, leaf)))
    && (!Routable(cfg, cmd) ==> src.pc.Busy? && i == src.next - 1 && Crash in src.pc.todo)
  }

  ghost predicate NothingLost(cfg: Config, s: nat, src: Source)
  {
    src.next <= |src.emitted| &&
    forall i, no :: 0 <= i < src.next && 0 <= no < |Commands(cfg, src.emitted[i])| ==>
      Underway(cfg, src, i, no, Commands(cfg, src.emitted[i])[no], CallbackOf(src.emitted[i], RootOf(s, src, i), no))
  }

  // ----- callbacks -----

  /** The role of a callback in the run so far. */
  ghost function RoleOf(cfg: Config, st: State, c: Callback): Role {
    var root := Origin(c);
    if root.Root? && root.source < |st.sources| && root.t < Registered(st.sources[root.source]) &&
       st.sources[root.source].loaded + root.t < |st.sources[root.source].emitted|
    then
      var src := st.sources[root.source];
      RoleIn(cfg, src.loaded + root.t, src.emitted[src.loaded + root.t], c)
    else NoRole
  }

  /** The callback has been handed out by the tracker or by a division. */
  ghost predicate Known(st: State, c: Callback) {
    match c
    case Root(s, t) => s < |st.sources| && t < Registered(st.sources[s])
    case Part(p, i) => HasPart(st.divisions, p, i)
  }

  ghost predicate Done(st: State, c: Callback) {
    match c
    case Root(s, t) => s < |st.sources| && t in st.sources[s].fired
    case Part(p, i) => HasPart(st.divisions, p, i) && st.divisions[p].once[i]
  }

  ghost predicate InCall(st: State, c: Callback) {
    exists g :: CallOf(st, g) == Some(c)
  }

  /** The direct call for entry `t` of source `s` lies behind. */
  ghost predicate CalledDirectly(st: State, s: nat, t: nat) {
    s < |st.sources| &&
    !(st.sources[s].pc.Busy? && st.sources[s].loaded + t == st.sources[s].next - 1
        && Call(Root(s, t)) in st.sources[s].pc.todo)
  }

  /** It is time for the callback: all its parts have fired, or its command has been answered, or
      there was nothing to send. */
  ghost predicate Ripe(cfg: Config, st: State, c: Callback) {
    match RoleOf(cfg, st, c)
    case NoRole => false
    case Direct => c.Root? && CalledDirectly(st, c.source, c.t)
    case Divided(n) => c in st.divisions && st.divisions[c].remaining == 0
    case Carried(leaf) => !leaf.cmd.select && Origin(c).Root? && Answered(st, Origin(c).source, leaf)
  }

  ghost predicate DivisionsOk(cfg: Config, st: State) {
    && (forall c :: c in st.divisions ==>
      && RoleOf(cfg, st, c) == Divided(|st.divisions[c].once|)
      && st.divisions[c].once != []
      && st.divisions[c].remaining == Unset(st.divisions[c].once))
    && (forall p, i: nat {:trigger Part(p, i) in st.divisions} :: Part(p, i) in st.divisions ==>
        HasPart(st.divisions, p, i))
  }

  /** A callback has run, or some goroutine is inside it, exactly when it is time for it. */
  ghost predicate ExactOk(cfg: Config, st: State) {
    forall c :: Known(st, c) ==> (Done(st, c) || InCall(st, c) <==> Ripe(cfg, st, c))
  }

  ghost predicate CallsOk(st: State) {
    forall g :: CallOf(st, g).Some? ==> Known(st, CallOf(st, g).value)
  }

  /** Every item of a shard's queue is a heartbeat or a logged copy, whose callback is handed out. */
  ghost predicate ItemOk(cfg: Config, st: State, k: nat, pos: nat)
    requires k < |st.shards| && pos < |st.shards[k].all|
  {
    var item := st.shards[k].all[pos];
    item.Sent? ==>
      && item.source < |st.sources| && item.leaf.shard == k
      && Logged(item.leaf, pos) in st.sources[item.source].log
      && (item.leaf.cb.Some? ==>
        && Known(st, item.leaf.cb.value)
        && RoleOf(cfg, st, item.leaf.cb.value) == Carried(item.leaf)
        && Origin(item.leaf.cb.value).source == item.source)
  }

  ghost predicate ShardsOk(cfg: Config, st: State) {
    && |st.shards| == cfg.shards
    && (forall k :: 0 <= k < |st.shards| ==> st.shards[k].acked <= |st.shards[k].all|)
    && (forall k, pos :: 0 <= k < |st.shards| && 0 <= pos < |st.shards[k].all| ==> ItemOk(cfg, st, k, pos))
  }

  /** Slots held: one for every queued position and every Track about to queue one. */
  ghost function Held(sources: seq<Source>): int {
    if sources == [] then 0
    else |sources[0].ledger.queue| + (if sources[0].pc.Joining? then 1 else 0) + Held(sources[1..])
  }

  ghost predicate SlotsOk(cfg: Config, st: State) {
    st.slots == Held(st.sources) && st.slots <= cfg.limit
  }

  ghost predicate SourceOk(cfg: Config, st: State, s: nat)
    requires s < |st.sources| == |cfg.snapshots| == |cfg.bases|
  {
    && ReaderOk(cfg, s, st.sources[s])
    && TrackerOk(st.sources[s])
    && LogOk(st, s)
    && TodoOk(cfg, st, s)
    && NothingLost(cfg, s, st.sources[s])
  }

  ghost predicate Inv(cfg: Config, st: State) {
    && ValidConfig(cfg)
    && |st.sources| == |cfg.snapshots|
    && (forall s :: 0 <= s < |st.sources| ==> SourceOk(cfg, st, s))
    && DivisionsOk(cfg, st) && ExactOk(cfg, st) && CallsOk(st) && ShardsOk(cfg, st) && SlotsOk(cfg, st)
  }
}
