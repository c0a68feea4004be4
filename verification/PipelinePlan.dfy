/** What the plan of an entry contains, and the part that every callback plays in it. */
module PipelinePlan {
  import opened Basics
  import opened Completions
  import opened Pipeline

  /** A callback of entry `i` is divided `n` ways, travels with one copy of one command, or is
      called directly because there is nothing to send. */
  datatype Role = NoRole | Direct | Divided(n: nat) | Carried(leaf: Leaf)

  function WriteRole(cfg: Config, i: nat, no: nat, cmd: Command, c: Callback): Role {
    if Broadcast(cfg, cmd) then Divided(cfg.shards)
    else match Target(cfg, cmd)
      case Some(k) => Carried(Leaf.Leaf(i, no, k, cmd, Some(c)))
      case None => NoRole
  }

  function CopyRole(cfg: Config, i: nat, no: nat, cmd: Command, c: Callback, k: nat): Role {
    if Broadcast(cfg, cmd) && k < cfg.shards then Carried(Leaf.Leaf(i, no, k, cmd, Some(c))) else NoRole
  }

  /** The role of `c` among the callbacks of entry `e`, which is the `i`-th of its source. */
  function RoleIn(cfg: Config, i: nat, e: Entry, c: Callback): Role {
    var cmds := Commands(cfg, e);
    if c.Root? then
      if e.progressOnly then WriteRole(cfg, i, 0, cmds[0], c)
      else if cmds == [] then Direct
      else Divided(|cmds|)
    else if c.parent.Root? then
      if e.progressOnly then CopyRole(cfg, i, 0, cmds[0], c, c.index)
      else if c.index < |cmds| then WriteRole(cfg, i, c.index, cmds[c.index], c)
      else NoRole
    else if c.parent.parent.Root? && !e.progressOnly && c.parent.index < |cmds| then
      CopyRole(cfg, i, c.parent.index, cmds[c.parent.index], c, c.index)
    else NoRole
  }

  function Origin(c: Callback): Callback {
    if c.Root? then c else Origin(c.parent)
  }

  /** Copies leave in the order of their command and shard. */
  predicate Before(x: Leaf, y: Leaf) {
    x.idx < y.idx || (x.idx == y.idx && (x.no < y.no || (x.no == y.no && x.shard < y.shard)))
  }

  ghost predicate SoundAction(cfg: Config, i: nat, e: Entry, root: Option<Callback>, a: Action) {
    match a
    case Split(c, n) => n > 0 && root.Some? && Origin(c) == root.value && RoleIn(cfg, i, e, c) == Divided(n)
    case Send(leaf) =>
      && leaf.idx == i && leaf.shard < cfg.shards
      && (root.None? ==> leaf.cb.None?)
      && (root.Some? ==>
          leaf.cb.Some? && Origin(leaf.cb.value) == root.value && RoleIn(cfg, i, e, leaf.cb.value) == Carried(leaf))
    case Call(c) => root == Some(c) && RoleIn(cfg, i, e, c) == Direct
    case Crash => true
  }

  ghost predicate SoundPlan(cfg: Config, i: nat, e: Entry, root: Option<Callback>, plan: seq<Action>) {
    forall x :: 0 <= x < |plan| ==> SoundAction(cfg, i, e, root, plan[x])
  }

  /** No callback is divided twice and copies are in order. */
  ghost predicate Ordered(plan: seq<Action>) {
    && (forall x, y :: 0 <= x < y < |plan| && plan[x].Split? && plan[y].Split? ==> plan[x].c != plan[y].c)
    && (forall x, y :: 0 <= x < y < |plan| && plan[x].Send? && plan[y].Send? ==> Before(plan[x].leaf, plan[y].leaf))
  }

  /** The sends of a fragment are for commands `lo <= no < hi` of entry `i`; its divisions are of the
      callbacks of such commands. */
  ghost predicate Within(plan: seq<Action>, i: nat, root: Option<Callback>, lo: nat, hi: nat) {
    && (forall x :: 0 <= x < |plan| && plan[x].Send? ==> plan[x].leaf.idx == i && lo <= plan[x].leaf.no < hi)
    && (forall x :: 0 <= x < |plan| && plan[x].Split? ==>
        plan[x].c.Part? && Some(plan[x].c.parent) == root && lo <= plan[x].c.index < hi)
  }

  ghost predicate Sends(plan: seq<Action>, leaf: Leaf) {
    exists x :: 0 <= x < |plan| && plan[x].Send? && plan[x].leaf == leaf
  }

  /** The copy of a command that goes to shard `k`. */
  function SentLeaf(cfg: Config, i: nat, no: nat, cmd: Command, cb: Option<Callback>, k: nat): Leaf {
    Leaf.Leaf(i, no, k, cmd, if cb.Some? && Broadcast(cfg, cmd) then Some(Part(cb.value, k)) else cb)
  }

  ghost predicate Routable(cfg: Config, cmd: Command) {
    Broadcast(cfg, cmd) || Target(cfg, cmd).Some?
  }

  /** The fragment sends the command to every shard it goes to, or crashes because there is none. */
  ghost predicate Covers(cfg: Config, plan: seq<Action>, i: nat, no: nat, cmd: Command, cb: Option<Callback>) {
    && (forall k: nat :: GoesTo(cfg, cmd, k) ==> Sends(plan, SentLeaf(cfg, i, no, cmd, cb, k)))
    && (!Routable(cfg, cmd) ==> Crash in plan)
  }

  lemma Joined(cfg: Config, i: nat, e: Entry, root: Option<Callback>, a: seq<Action>, b: seq<Action>)
    requires SoundPlan(cfg, i, e, root, a) && SoundPlan(cfg, i, e, root, b) && Ordered(a) && Ordered(b)
    requires forall x, y :: 0 <= x < |a| && 0 <= y < |b| && a[x].Split? && b[y].Split? ==> a[x].c != b[y].c
    requires forall x, y :: 0 <= x < |a| && 0 <= y < |b| && a[x].Send? && b[y].Send? ==> Before(a[x].leaf, b[y].leaf)
    ensures SoundPlan(cfg, i, e, root, a + b) && Ordered(a + b)
  {}

  lemma CoversMore(cfg: Config, a: seq<Action>, b: seq<Action>, i: nat, no: nat, cmd: Command, cb: Option<Callback>)
    requires Covers(cfg, a, i, no, cmd, cb) || Covers(cfg, b, i, no, cmd, cb)
    ensures Covers(cfg, a + b, i, no, cmd, cb)
  {
    forall k: nat | GoesTo(cfg, cmd, k)
      ensures Sends(a + b, SentLeaf(cfg, i, no, cmd, cb, k))
    {
      var leaf := SentLeaf(cfg, i, no, cmd, cb, k);
      if Sends(a, leaf) {
        var x :| 0 <= x < |a| && a[x].Send? && a[x].leaf == leaf;
        assert (a + b)[x] == a[x];
      } else {
        var x :| 0 <= x < |b| && b[x].Send? && b[x].leaf == leaf;
        assert (a + b)[|a| + x] == b[x];
      }
    }
  }

  lemma {:induction false} CopiesAt(cfg: Config, i: nat, no: nat, cmd: Command, cb: Option<Callback>, k: nat)
    requires k <= cfg.shards
    ensures var cs := Copies(cfg, i, no, cmd, cb, k);
      |cs| == cfg.shards - k &&
      forall x :: 0 <= x < |cs| ==>
        cs[x] == Send(Leaf.Leaf(i, no, k + x, cmd, if cb.Some? then Some(Part(cb.value, k + x)) else None))
    decreases cfg.shards - k
  {
    if k < cfg.shards {
      CopiesAt(cfg, i, no, cmd, cb, k + 1);
      var cs, rest := Copies(cfg, i, no, cmd, cb, k), Copies(cfg, i, no, cmd, cb, k + 1);
      assert forall x :: 0 < x < |cs| ==> cs[x] == rest[x - 1];
    }
  }

  /** One command: its actions are sound for the role of its callback, ordered, and reach every
      shard the command goes to. */
  lemma WriteIsSound(cfg: Config, i: nat, e: Entry, root: Option<Callback>, no: nat, cmd: Command, cb: Option<Callback>)
    requires ValidConfig(cfg) && root.Some? == cb.Some? && (root.Some? ==> root.value.Root?)
    requires cb.Some? ==>
        Origin(cb.value) == root.value && RoleIn(cfg, i, e, cb.value) == WriteRole(cfg, i, no, cmd, cb.value)
    requires cb.Some? && Broadcast(cfg, cmd) ==>
      forall k: nat :: RoleIn(cfg, i, e, Part(cb.value, k)) == CopyRole(cfg, i, no, cmd, Part(cb.value, k), k)
    ensures var plan := Write(cfg, i, no, cmd, cb);
      && SoundPlan(cfg, i, e, root, plan) && Ordered(plan) && Covers(cfg, plan, i, no, cmd, cb)
      && (forall x :: 0 <= x < |plan| && plan[x].Send? ==> plan[x].leaf.idx == i && plan[x].leaf.no == no)
      && (forall x :: 0 <= x < |plan| && plan[x].Split? ==> Some(plan[x].c) == cb)
  {
    CopiesAt(cfg, i, no, cmd, cb, 0);
    var cs, plan := Copies(cfg, i, no, cmd, cb, 0), Write(cfg, i, no, cmd, cb);
    if Broadcast(cfg, cmd) {
      var d := if cb.Some? then 1 else 0;
      assert forall x :: d <= x < |plan| ==> plan[x] == cs[x - d];
      forall k: nat | GoesTo(cfg, cmd, k)
        ensures Sends(plan, SentLeaf(cfg, i, no, cmd, cb, k))
      {
        assert plan[d + k] == cs[k];
      }
    } else if Target(cfg, cmd).Some? {
      assert plan[0].leaf == SentLeaf(cfg, i, no, cmd, cb, Target(cfg, cmd).value);
    }
  }

  function CommandCallback(root: Option<Callback>, no: nat): Option<Callback> {
    if root.Some? then Some(Part(root.value, no)) else None
  }

  lemma {:induction false} WritesAreSound(cfg: Config, i: nat, e: Entry, root: Option<Callback>, no: nat)
    requires ValidConfig(cfg) && (root.Some? ==> root.value.Root?) && !e.progressOnly && no <= |Commands(cfg, e)|
    ensures var cmds := Commands(cfg, e); var plan := Writes(cfg, i, cmds, no, root);
      && SoundPlan(cfg, i, e, root, plan) && Ordered(plan) && Within(plan, i, root, no, |cmds|)
      && (forall m :: no <= m < |cmds| ==> Covers(cfg, plan, i, m, cmds[m], CommandCallback(root, m)))
    decreases |Commands(cfg, e)| - no
  {
    var cmds := Commands(cfg, e);
    if no < |cmds| {
      var cb := CommandCallback(root, no);
      WriteIsSound(cfg, i, e, root, no, cmds[no], cb);
      WritesAreSound(cfg, i, e, root, no + 1);
      var head, tail := Write(cfg, i, no, cmds[no], cb), Writes(cfg, i, cmds, no + 1, root);
      assert Writes(cfg, i, cmds, no, root) == head + tail;
      Joined(cfg, i, e, root, head, tail);
      forall m | no <= m < |cmds|
        ensures Covers(cfg, head + tail, i, m, cmds[m], CommandCallback(root, m))
      {
        CoversMore(cfg, head, tail, i, m, cmds[m], CommandCallback(root, m));
      }
    }
  }

  /** The callback that travels with command `no` of an entry. */
  function CallbackOf(e: Entry, root: Option<Callback>, no: nat): Option<Callback> {
    if e.progressOnly then root else CommandCallback(root, no)
  }

  ghost predicate CallIsLast(plan: seq<Action>) {
    forall x :: 0 <= x < |plan| && plan[x].Call? ==> x == |plan| - 1
  }

  /** The whole plan of an entry. */
  lemma PlanIsSound(cfg: Config, i: nat, e: Entry, root: Option<Callback>)
    requires ValidConfig(cfg) && (root.Some? ==> root.value.Root?)
    ensures var cmds := Commands(cfg, e); var plan := Plan(cfg, i, e, root);
      && SoundPlan(cfg, i, e, root, plan) && Ordered(plan) && CallIsLast(plan)
      && (forall m :: 0 <= m < |cmds| ==> Covers(cfg, plan, i, m, cmds[m], CallbackOf(e, root, m)))
  {
    var cmds := Commands(cfg, e);
    var plan := Plan(cfg, i, e, root);
    assert forall x :: 0 <= x < |plan| && plan[x].Call? && SoundAction(cfg, i, e, root, plan[x]) ==> cmds == [];
    if e.progressOnly {
      WriteIsSound(cfg, i, e, root, 0, cmds[0], root);
    } else if cmds != [] {
      WritesAreSound(cfg, i, e, root, 0);
      if root.Some? {
        var head, tail := [Split(root.value, |cmds|)], Writes(cfg, i, cmds, 0, root);
        Joined(cfg, i, e, root, head, tail);
        forall m | 0 <= m < |cmds|
          ensures Covers(cfg, head + tail, i, m, cmds[m], CommandCallback(root, m))
        {
          CoversMore(cfg, head, tail, i, m, cmds[m], CommandCallback(root, m));
        }
      } else {
        assert Plan(cfg, i, e, root) == Writes(cfg, i, cmds, 0, root);
      }
    }
  }
}
