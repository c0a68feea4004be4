/** The invariant holds initially and is kept by every step. */
module PipelineProof {
  import opened Basics
  import opened Completions
  import opened TrackerModel
  import opened Pipeline
  import opened PipelinePlan
  import opened PipelineInvariant

  // ----- what does not change -----

  lemma {:induction false} AnnouncedMonotone(d: set<Callback>, d': set<Callback>, plan: seq<Action>)
    requires Announced(d, plan) && d <= d'
    ensures Announced(d', plan)
    decreases |plan|
  {
    if plan != [] {
      if plan[0].Split? {
        AnnouncedMonotone(d + {plan[0].c}, d' + {plan[0].c}, plan[1..]);
      } else {
        AnnouncedMonotone(d, d', plan[1..]);
      }
    }
  }

  /** The entries behind the registrations made so far are the same, and later. */
  ghost predicate Extends(a: Source, b: Source) {
    && Registered(a) <= Registered(b)
    && (Registered(a) > 0 ==> a.loaded == b.loaded && a.emitted <= b.emitted)
  }

  ghost predicate AllExtend(st: State, st': State) {
    && |st.sources| == |st'.sources|
    && forall s :: 0 <= s < |st.sources| ==> Extends(st.sources[s], st'.sources[s])
  }

  lemma {:induction false} OriginIsRoot(c: Callback)
    ensures Origin(c).Root?
  {
    if c.Part? { OriginIsRoot(c.parent); }
  }

  lemma RoleKept(cfg: Config, st: State, st': State, c: Callback)
    requires AllExtend(st, st') && RoleOf(cfg, st, c) != NoRole
    ensures RoleOf(cfg, st', c) == RoleOf(cfg, st, c)
  {
    OriginIsRoot(c);
    var root := Origin(c);
    var src, src' := st.sources[root.source], st'.sources[root.source];
    assert src'.emitted[src.loaded + root.t] == src.emitted[src.loaded + root.t];
  }

  /** A part with a role belongs to a callback that is divided into more parts than its index. */
  lemma RoleOfPart(cfg: Config, st: State, p: Callback, i: nat)
    requires RoleOf(cfg, st, Part(p, i)) != NoRole
    ensures RoleOf(cfg, st, p).Divided? && i < RoleOf(cfg, st, p).n
  {
    assert Origin(Part(p, i)) == Origin(p);
  }

  /** Nothing that decides when callbacks run has changed. */
  ghost predicate Calm(st: State, st': State) {
    && AllExtend(st, st')
    && st'.divisions == st.divisions
    && (forall s :: 0 <= s < |st.sources| ==>
        Registered(st.sources[s]) == Registered(st'.sources[s]) && st.sources[s].fired == st'.sources[s].fired)
    && (forall g :: CallOf(st', g) == CallOf(st, g))
    && (forall s, leaf :: Answered(st', s, leaf) <==> Answered(st, s, leaf))
    && (forall s, t: nat :: 0 <= s < |st.sources| && t < Registered(st.sources[s]) ==>
        (CalledDirectly(st', s, t) <==> CalledDirectly(st, s, t)))
  }

  lemma RoleSame(cfg: Config, st: State, st': State, c: Callback)
    requires Calm(st, st') && (forall s :: 0 <= s < |st.sources| ==> TrackerOk(st.sources[s]))
    ensures RoleOf(cfg, st', c) == RoleOf(cfg, st, c)
  {
    OriginIsRoot(c);
    var root := Origin(c);
    if root.source < |st.sources| && root.t < Registered(st.sources[root.source]) {
      var src, src' := st.sources[root.source], st'.sources[root.source];
      assert src.loaded + root.t < |src.emitted|;
      assert src'.emitted[src.loaded + root.t] == src.emitted[src.loaded + root.t];
    }
  }

  lemma CallbacksKept(cfg: Config, st: State, st': State)
    requires Calm(st, st') && (forall s :: 0 <= s < |st.sources| ==> TrackerOk(st.sources[s]))
    requires DivisionsOk(cfg, st) && ExactOk(cfg, st) && CallsOk(st)
    ensures DivisionsOk(cfg, st') && ExactOk(cfg, st') && CallsOk(st')
  {
    forall c | c in st.divisions
      ensures RoleOf(cfg, st', c) == RoleOf(cfg, st, c)
    {
      RoleSame(cfg, st, st', c);
    }
    forall c | Known(st', c)
      ensures Done(st', c) || InCall(st', c) <==> Ripe(cfg, st', c)
    {
      assert Known(st, c);
      RoleSame(cfg, st, st', c);
      OriginIsRoot(c);
      if InCall(st', c) {
        var g :| CallOf(st', g) == Some(c);
        assert CallOf(st, g) == Some(c);
      }
      if InCall(st, c) {
        var g :| CallOf(st, g) == Some(c);
        assert CallOf(st', g) == Some(c);
      }
      assert Done(st', c) == Done(st, c);
      assert Ripe(cfg, st', c) == Ripe(cfg, st, c);
    }
    forall g | CallOf(st', g).Some?
      ensures Known(st', CallOf(st', g).value)
    {
      assert Known(st, CallOf(st, g).value);
    }
  }

  lemma TrackersOk(cfg: Config, st: State)
    requires Inv(cfg, st)
    ensures forall s :: 0 <= s < |st.sources| ==> TrackerOk(st.sources[s])
  {
    forall s | 0 <= s < |st.sources|
      ensures TrackerOk(st.sources[s])
    {
      assert SourceOk(cfg, st, s);
    }
  }

  ghost predicate QueuesGrow(st: State, st': State) {
    && |st.shards| == |st'.shards|
    && forall k :: 0 <= k < |st.shards| ==> st.shards[k].all <= st'.shards[k].all
  }

  /** A source that takes no part in a step. */
  lemma OtherSourceKept(cfg: Config, st: State, st': State, s: nat)
    requires s < |st.sources| == |st'.sources| == |cfg.snapshots| == |cfg.bases| && SourceOk(cfg, st, s)
    requires st'.sources[s] == st.sources[s] && QueuesGrow(st, st')
    requires st.divisions.Keys <= st'.divisions.Keys
    requires st.sources[s].pc.Busy? ==> forall x :: 0 <= x < |st.sources[s].pc.todo| && st.sources[s].pc.todo[x].Split? ==> st.sources[s].pc.todo[x].c !in st'.divisions
    ensures SourceOk(cfg, st', s)
  {
    var src := st.sources[s];
    if src.pc.Busy? {
      AnnouncedMonotone(st.divisions.Keys, st'.divisions.Keys, src.pc.todo);
    }
    forall q | 0 <= q < |src.log|
      ensures st'.shards[src.log[q].leaf.shard].all[src.log[q].pos] == Sent(s, src.log[q].leaf)
    {
      assert st.shards[src.log[q].leaf.shard].all <= st'.shards[src.log[q].leaf.shard].all;
    }
  }

  /** All sources but `s` take no part in a step that divides nothing. */
  lemma OthersKept(cfg: Config, st: State, st': State, s: nat)
    requires Inv(cfg, st) && |st.sources| == |st'.sources|
    requires forall r :: 0 <= r < |st.sources| && r != s ==> st'.sources[r] == st.sources[r]
    requires QueuesGrow(st, st') && st'.divisions.Keys == st.divisions.Keys
    ensures forall r :: 0 <= r < |st.sources| && r != s ==> SourceOk(cfg, st', r)
  {
    hide ReaderOk, TrackerOk, LogOk, NothingLost, DivisionsOk, ExactOk, CallsOk, ShardsOk, SlotsOk, SoundPlan,
      Ordered, Announced;
    forall r | 0 <= r < |st.sources| && r != s
      ensures SourceOk(cfg, st', r)
    {
      assert SourceOk(cfg, st, r);
      OtherSourceKept(cfg, st, st', r);
    }
  }

  lemma CallsKept(st: State, st': State)
    requires CallsOk(st) && (forall g :: CallOf(st', g) == CallOf(st, g))
    requires (forall c :: Known(st, c) ==> Known(st', c))
    ensures CallsOk(st')
  {
    forall g | CallOf(st', g).Some?
      ensures Known(st', CallOf(st', g).value)
    {
      assert Known(st, CallOf(st, g).value);
    }
  }

  lemma DivisionsKept(cfg: Config, st: State, st': State)
    requires DivisionsOk(cfg, st) && st'.divisions == st.divisions && AllExtend(st, st')
    ensures DivisionsOk(cfg, st')
  {
    forall c | c in st'.divisions
      ensures RoleOf(cfg, st', c) == RoleOf(cfg, st, c)
    {
      RoleKept(cfg, st, st', c);
    }
  }

  lemma {:induction false} HeldUpdate(sources: seq<Source>, s: nat, src: Source)
    requires s < |sources|
    ensures Held(sources[s := src]) == Held(sources)
      + |src.ledger.queue| + (if src.pc.Joining? then 1 else 0)
      - |sources[s].ledger.queue| - (if sources[s].pc.Joining? then 1 else 0)
  {
    if s == 0 {
      assert sources[s := src][1..] == sources[1..];
    } else {
      assert sources[s := src][1..] == sources[1..][s - 1 := src];
      HeldUpdate(sources[1..], s - 1, src);
    }
  }

  lemma {:induction false} HeldNothing(n: nat, src: Source)
    requires src.ledger.queue == [] && !src.pc.Joining?
    ensures Held(seq(n, _ => src)) == 0
  {
    if n > 0 {
      assert seq(n, _ => src)[1..] == seq(n - 1, _ => src);
      HeldNothing(n - 1, src);
    }
  }

  /** Items keep their standing while callbacks keep their roles. */
  lemma ItemKept(cfg: Config, st: State, st': State, k: nat, pos: nat)
    requires k < |st.shards| == |st'.shards| && pos < |st.shards[k].all| && ItemOk(cfg, st, k, pos)
    requires AllExtend(st, st') && st.shards[k].all <= st'.shards[k].all
    requires forall s :: 0 <= s < |st.sources| ==> st.sources[s].log <= st'.sources[s].log
    requires forall c :: Known(st, c) ==> Known(st', c)
    ensures ItemOk(cfg, st', k, pos)
  {
    var item := st.shards[k].all[pos];
    assert st'.shards[k].all[pos] == item;
    if item.Sent? {
      var q :| 0 <= q < |st.sources[item.source].log| && st.sources[item.source].log[q] == Logged(item.leaf, pos);
      assert st'.sources[item.source].log[q] == Logged(item.leaf, pos);
      if item.leaf.cb.Some? {
        RoleKept(cfg, st, st', item.leaf.cb.value);
      }
    }
  }

  lemma InitialInv(cfg: Config)
    requires ValidConfig(cfg)
    ensures Inv(cfg, Initial(cfg))
  {
    var st := Initial(cfg);
    HeldNothing(|cfg.snapshots|, Source.Source(Loading, 0, [], 0, Idle, [], EMPTY_LEDGER, {}));
    forall s | 0 <= s < |st.sources|
      ensures SourceOk(cfg, st, s)
    {
      assert Past(st.sources[s]) == [];
    }
    assert forall g :: CallOf(st, g) == None;
  }

  // ----- steps of one source that run no callback -----

  /** A step confined to source `s` that leaves callbacks and shards alone. */
  lemma LocalStep(cfg: Config, st: State, st': State, s: nat)
    requires Inv(cfg, st) && s < |st.sources| == |st'.sources|
    requires st'.sources == st.sources[s := st'.sources[s]] && st'.shards == st.shards
    requires st'.sources[s].log == st.sources[s].log
    requires Calm(st, st') && SourceOk(cfg, st', s) && SlotsOk(cfg, st')
    ensures Inv(cfg, st')
  {
    hide RoleOf, ItemOk, DivisionsOk, ExactOk, CallsOk, SlotsOk, SourceOk;
    TrackersOk(cfg, st);
    CallbacksKept(cfg, st, st');
    OthersKept(cfg, st, st', s);
    ItemsKept(cfg, st, st');
  }

  ghost predicate SameWork(a: Source, b: Source) {
    && b.next == a.next && b.pc == a.pc && b.log == a.log && b.ledger == a.ledger && b.fired == a.fired
  }

  /** The reader of a source emits or changes phase; its consumer and tracker stand still. */
  ghost predicate ReaderMoves(a: Source, b: Source) {
    && SameWork(a, b) && a.emitted <= b.emitted
    && (b.loaded == a.loaded || (a.phase.Loading? && b.loaded == |b.emitted| > a.loaded))
  }

  lemma ReaderMoveCalm(cfg: Config, st: State, s: nat, src: Source)
    requires Inv(cfg, st) && s < |st.sources| && ReaderMoves(st.sources[s], src)
    ensures Calm(st, SetSource(st, s, src))
  {
    var st' := SetSource(st, s, src);
    assert SourceOk(cfg, st, s);
    assert forall g :: CallOf(st', g) == CallOf(st, g);
    assert forall r, leaf :: Answered(st', r, leaf) <==> Answered(st, r, leaf);
  }

  lemma ReaderMoveOk(cfg: Config, st: State, s: nat, src: Source)
    requires Inv(cfg, st) && s < |st.sources| && ReaderMoves(st.sources[s], src) && ReaderOk(cfg, s, src)
    ensures SourceOk(cfg, SetSource(st, s, src), s)
  {
    hide Shows, SoundPlan, Ordered, Announced, Before, ItemOk, RoleOf, Unset, ExactOk, DivisionsOk, CallsOk, ShardsOk,
      Commands;
    var was, st' := st.sources[s], SetSource(st, s, src);
    assert SourceOk(cfg, st, s);
    assert Past(src) == Past(was);
    forall i, no | 0 <= i < src.next && 0 <= no < |Commands(cfg, src.emitted[i])|
      ensures Underway(cfg, src, i, no, Commands(cfg, src.emitted[i])[no],
          CallbackOf(src.emitted[i], RootOf(s, src, i), no))
    {
      assert src.emitted[i] == was.emitted[i] && RootOf(s, src, i) == RootOf(s, was, i);
      assert Underway(cfg, was, i, no, Commands(cfg, was.emitted[i])[no],
          CallbackOf(was.emitted[i], RootOf(s, was, i), no));
    }
    if src.pc.Busy? {
      assert src.emitted[src.next - 1] == was.emitted[src.next - 1];
    }
  }

  lemma ReaderStep(cfg: Config, st: State, s: nat, src: Source)
    requires Inv(cfg, st) && s < |st.sources| && ReaderMoves(st.sources[s], src) && ReaderOk(cfg, s, src)
    ensures Inv(cfg, SetSource(st, s, src))
  {
    ReaderMoveCalm(cfg, st, s, src);
    ReaderMoveOk(cfg, st, s, src);
    HeldUpdate(st.sources, s, src);
    LocalStep(cfg, st, SetSource(st, s, src), s);
  }

  /** The consumer of source `s` changes only its program counter, outside a callback and with no
      plan in hand before or after. */
  lemma IdleStep(cfg: Config, st: State, st': State, s: nat)
    requires Inv(cfg, st) && s < |st.sources|
    requires |st'.sources| == |st.sources|
    requires st' == SetSource(st, s, st.sources[s].(pc := st'.sources[s].pc)).(slots := st'.slots)
    requires !st'.sources[s].pc.Busy? && (st.sources[s].pc.Busy? ==> st.sources[s].pc == Busy([], None))
    requires st'.sources[s].pc.Joining? ==> st.sources[s].loaded <= st.sources[s].next < |st.sources[s].emitted|
    requires SlotsOk(cfg, st')
    ensures Inv(cfg, st')
  {
    hide ItemOk, RoleOf, Ripe, Done, InCall, Unset, Shows, RoleIn, Before, Underway, DivisionsOk, ExactOk, CallsOk;
    var was, src := st.sources[s], st'.sources[s];
    assert SourceOk(cfg, st, s);
    assert forall g :: CallOf(st', g) == CallOf(st, g);
    assert forall r, leaf :: Answered(st', r, leaf) <==> Answered(st, r, leaf);
    assert Past(src) == Past(was);
    StillNothingLost(cfg, s, was, src);
    LocalStep(cfg, st, st', s);
  }

  /** With nothing to do before or after, nothing gets lost. */
  lemma StillNothingLost(cfg: Config, s: nat, was: Source, src: Source)
    requires NothingLost(cfg, s, was) && was.next <= |was.emitted| && src == was.(pc := src.pc)
    requires !src.pc.Busy? && (was.pc.Busy? ==> was.pc == Busy([], None))
    ensures NothingLost(cfg, s, src)
  {
    forall i, no | 0 <= i < src.next && 0 <= no < |Commands(cfg, src.emitted[i])|
      ensures Underway(cfg, src, i, no, Commands(cfg, src.emitted[i])[no],
          CallbackOf(src.emitted[i], RootOf(s, src, i), no))
    {
      assert Underway(cfg, was, i, no, Commands(cfg, was.emitted[i])[no],
          CallbackOf(was.emitted[i], RootOf(s, was, i), no));
    }
  }

  // ----- a new plan -----

  lemma {:induction false} AnnouncedConcat(d: set<Callback>, a: seq<Action>, b: seq<Action>)
    requires Announced(d, a) && Announced(d, b)
    ensures Announced(d, a + b)
    decreases |a|
  {
    if a == [] {
      assert a + b == b;
    } else {
      var d' := if a[0].Split? then d + {a[0].c} else d;
      assert (a + b)[0] == a[0] && (a + b)[1..] == a[1..] + b;
      AnnouncedMonotone(d, d', b);
      AnnouncedConcat(d', a[1..], b);
    }
  }

  lemma {:induction false} CopiesAnnounced(
      d: set<Callback>, cfg: Config, i: nat, no: nat, cmd: Command, cb: Option<Callback>, k: nat)
    requires cb.Some? ==> cb.value in d
    ensures Announced(d, Copies(cfg, i, no, cmd, cb, k))
    decreases cfg.shards - k
  {
    if k < cfg.shards {
      CopiesAnnounced(d, cfg, i, no, cmd, cb, k + 1);
      var cs, rest := Copies(cfg, i, no, cmd, cb, k), Copies(cfg, i, no, cmd, cb, k + 1);
      assert cs[1..] == rest;
    }
  }

  lemma WriteAnnounced(d: set<Callback>, cfg: Config, i: nat, no: nat, cmd: Command, cb: Option<Callback>)
    requires cb.Some? && cb.value.Part? ==> cb.value.parent in d
    ensures Announced(d, Write(cfg, i, no, cmd, cb))
  {
    var plan := Write(cfg, i, no, cmd, cb);
    if Broadcast(cfg, cmd) {
      if cb.Some? {
        CopiesAnnounced(d + {cb.value}, cfg, i, no, cmd, cb, 0);
        assert plan[1..] == Copies(cfg, i, no, cmd, cb, 0);
      } else {
        CopiesAnnounced(d, cfg, i, no, cmd, cb, 0);
        assert plan == Copies(cfg, i, no, cmd, cb, 0);
      }
    } else {
      assert plan[1..] == [];
    }
  }

  lemma {:induction false} WritesAnnounced(
      d: set<Callback>, cfg: Config, i: nat, cmds: seq<Command>, no: nat, root: Option<Callback>)
    requires no <= |cmds| && (root.Some? ==> root.value in d)
    ensures Announced(d, Writes(cfg, i, cmds, no, root))
    decreases |cmds| - no
  {
    if no < |cmds| {
      WriteAnnounced(d, cfg, i, no, cmds[no], CommandCallback(root, no));
      WritesAnnounced(d, cfg, i, cmds, no + 1, root);
      AnnouncedConcat(d, Write(cfg, i, no, cmds[no], CommandCallback(root, no)), Writes(cfg, i, cmds, no + 1, root));
    }
  }

  lemma PlanAnnounced(d: set<Callback>, cfg: Config, i: nat, e: Entry, root: Option<Callback>)
    requires root.Some? ==> root.value.Root?
    ensures Announced(d, Plan(cfg, i, e, root))
  {
    var plan := Plan(cfg, i, e, root);
    if e.progressOnly {
      WriteAnnounced(d, cfg, i, 0, Command(e.argv, [], false), root);
    } else if cfg.filter(e) && cfg.transform(e) != [] {
      var cmds := cfg.transform(e);
      if root.Some? {
        WritesAnnounced(d + {root.value}, cfg, i, cmds, 0, root);
        assert plan[1..] == Writes(cfg, i, cmds, 0, root);
      } else {
        WritesAnnounced(d, cfg, i, cmds, 0, root);
        assert plan == Writes(cfg, i, cmds, 0, root);
      }
    } else if root.Some? {
      assert plan[1..] == [];
    }
  }

  /** The consumer of source `s` takes the next entry and its plan. */
  ghost predicate Takes(cfg: Config, s: nat, a: Source, b: Source) {
    && !a.pc.Busy? && a.next < |a.emitted|
    && b == a.(next := a.next + 1, ledger := b.ledger,
               pc := Busy(Plan(cfg, a.next, a.emitted[a.next], RootOf(s, a, a.next)), None))
  }

  lemma TakenOk(cfg: Config, st: State, st': State, s: nat)
    requires Inv(cfg, st) && s < |st.sources| == |st'.sources|
    requires Takes(cfg, s, st.sources[s], st'.sources[s]) && TrackerOk(st'.sources[s])
    requires st'.divisions == st.divisions && st'.shards == st.shards
    requires st.sources[s].loaded <= st.sources[s].next ==>
        Registered(st.sources[s]) == st.sources[s].next - st.sources[s].loaded
    ensures SourceOk(cfg, st', s)
  {
    var a, b := st.sources[s], st'.sources[s];
    assert SourceOk(cfg, st, s);
    var i, e, root := a.next, a.emitted[a.next], RootOf(s, a, a.next);
    PlanIsSound(cfg, i, e, root);
    PlanAnnounced(st.divisions.Keys, cfg, i, e, root);
    forall x | 0 <= x < |b.pc.todo| && b.pc.todo[x].Split?
      ensures b.pc.todo[x].c !in st'.divisions
    {
      assert SoundAction(cfg, i, e, root, b.pc.todo[x]);
      assert RoleOf(cfg, st, b.pc.todo[x].c) == NoRole;
    }
    forall q, x | 0 <= q < |b.log| && 0 <= x < |b.pc.todo| && b.pc.todo[x].Send?
      ensures Before(b.log[q].leaf, b.pc.todo[x].leaf)
    {
      assert SoundAction(cfg, i, e, root, b.pc.todo[x]);
    }
    TakenUnderway(cfg, s, a, b);
  }

  /** The plan of the entry just taken covers all its commands; for earlier entries nothing changes. */
  lemma TakenUnderway(cfg: Config, s: nat, a: Source, b: Source)
    requires Takes(cfg, s, a, b) && NothingLost(cfg, s, a)
    requires var i, e := a.next, a.emitted[a.next];
      forall m :: 0 <= m < |Commands(cfg, e)| ==>
          Covers(cfg, b.pc.todo, i, m, Commands(cfg, e)[m], CallbackOf(e, RootOf(s, a, i), m))
    ensures NothingLost(cfg, s, b)
  {
    hide Plan;
    var i, e, root := a.next, a.emitted[a.next], RootOf(s, a, a.next);
    forall j, no | 0 <= j < b.next && 0 <= no < |Commands(cfg, b.emitted[j])|
      ensures Underway(cfg, b, j, no, Commands(cfg, b.emitted[j])[no], CallbackOf(b.emitted[j], RootOf(s, b, j), no))
    {
      assert RootOf(s, b, j) == RootOf(s, a, j);
      if j == i {
        assert Covers(cfg, b.pc.todo, i, no, Commands(cfg, e)[no], CallbackOf(e, root, no));
      } else {
        assert Underway(cfg, a, j, no, Commands(cfg, a.emitted[j])[no], CallbackOf(a.emitted[j], RootOf(s, a, j), no));
      }
    }
  }

  lemma TakeStep(cfg: Config, st: State, s: nat)
    requires Inv(cfg, st) && s < |st.sources| && Ready(st.sources[s])
    requires !st.sources[s].emitted[st.sources[s].next].tracked
    ensures Inv(cfg, Taken(cfg, st, s))
  {
    hide LogOk, TodoOk, NothingLost, ItemOk, RoleOf, Ripe, Plan, Shows, Unset, DivisionsOk, ExactOk, CallsOk, ShardsOk;
    var st' := Taken(cfg, st, s);
    var a, b := st.sources[s], st'.sources[s];
    assert SourceOk(cfg, st, s);
    assert a.next < a.loaded;
    assert Past(b) == Past(a) == [];
    TakenOk(cfg, st, st', s);
    assert forall g :: CallOf(st', g) == CallOf(st, g);
    assert forall r, leaf :: Answered(st', r, leaf) <==> Answered(st, r, leaf);
    HeldUpdate(st.sources, s, b);
    LocalStep(cfg, st, st', s);
  }

  // ----- a new registration -----

  /** The role of a callback that has been handed out is settled. */
  lemma KnownRoleSame(cfg: Config, st: State, st': State, c: Callback)
    requires DivisionsOk(cfg, st) && (forall s :: 0 <= s < |st.sources| ==> TrackerOk(st.sources[s]))
    requires AllExtend(st, st') && Known(st, c)
    ensures RoleOf(cfg, st', c) == RoleOf(cfg, st, c)
  {
    hide Shows, RoleIn;
    if c.Part? {
      assert RoleOf(cfg, st, c.parent).Divided?;
      assert Origin(c) == Origin(c.parent);
    }
    OriginIsRoot(c);
    var root := Origin(c);
    var src, src' := st.sources[root.source], st'.sources[root.source];
    assert root.t < Registered(src);
    assert src'.emitted[src.loaded + root.t] == src.emitted[src.loaded + root.t];
  }

  /** A callback that was known stays in step if nothing that concerns it has changed. */
  lemma StaysExact(cfg: Config, st: State, st': State, c: Callback)
    requires Inv(cfg, st) && AllExtend(st, st') && Known(st, c)
    requires Done(st', c) == Done(st, c) && InCall(st', c) == InCall(st, c)
    requires (c in st'.divisions && st'.divisions[c].remaining == 0) <==>
        (c in st.divisions && st.divisions[c].remaining == 0)
    requires forall s, leaf :: Answered(st', s, leaf) <==> Answered(st, s, leaf)
    requires c.Root? ==> (CalledDirectly(st', c.source, c.t) <==> CalledDirectly(st, c.source, c.t))
    ensures Done(st', c) || InCall(st', c) <==> Ripe(cfg, st', c)
  {
    TrackersOk(cfg, st);
    KnownRoleSame(cfg, st, st', c);
    hide SourceOk, RoleOf, ItemOk, Answered, CalledDirectly, InCall, Done, TrackerOk, Unset;
    assert Done(st, c) || InCall(st, c) <==> Ripe(cfg, st, c);
  }

  lemma InCallSame(st: State, st': State, c: Callback)
    requires forall g :: CallOf(st', g) == Some(c) <==> CallOf(st, g) == Some(c)
    ensures InCall(st', c) == InCall(st, c)
  {
    if InCall(st', c) {
      var g :| CallOf(st', g) == Some(c);
      assert CallOf(st, g) == Some(c);
    }
    if InCall(st, c) {
      var g :| CallOf(st, g) == Some(c);
      assert CallOf(st', g) == Some(c);
    }
  }

  lemma EnrollTracks(cfg: Config, st: State, s: nat)
    requires Inv(cfg, st) && s < |st.sources| && st.sources[s].pc.Joining?
    requires st.sources[s].next < |st.sources[s].emitted|
    ensures TrackerOk(Enrolled(cfg, st, s).sources[s])
  {
    var a, b := st.sources[s], Enrolled(cfg, st, s).sources[s];
    assert SourceOk(cfg, st, s);
    var e := a.emitted[a.next];
    StepKeepsShows(a.ledger, Past(a), TrackerModel.Track(e.offset));
    assert Past(b) == Past(a) + [Pending(e.offset, false)];
  }

  lemma EnrollExact(cfg: Config, st: State, s: nat)
    requires Inv(cfg, st) && s < |st.sources| && st.sources[s].pc.Joining?
    requires st.sources[s].next < |st.sources[s].emitted|
    ensures ExactOk(cfg, Enrolled(cfg, st, s))
  {
    var st' := Enrolled(cfg, st, s);
    var a, b := st.sources[s], st'.sources[s];
    assert SourceOk(cfg, st, s);
    hide ItemOk, Unset, Shows, ReaderOk, TodoOk, NothingLost, Before;
    var fresh_ := Root(s, Registered(a));
    assert forall g :: CallOf(st', g) == CallOf(st, g);
    assert forall r, leaf :: Answered(st', r, leaf) <==> Answered(st, r, leaf);
    forall c | Known(st', c)
      ensures Done(st', c) || InCall(st', c) <==> Ripe(cfg, st', c)
    {
      InCallSame(st, st', c);
      if c == fresh_ {
        assert !Known(st, c) && RoleOf(cfg, st, c) == NoRole;
        assert !InCall(st, c) && c !in st.divisions;
        assert RoleOf(cfg, st', c) == RoleIn(cfg, a.next, a.emitted[a.next], c);
        assert Ripe(cfg, st', c) ==> RoleOf(cfg, st', c).Direct?;
        assert RoleOf(cfg, st', c).Direct? ==> b.pc.todo == [Call(c)];
      } else {
        assert Known(st, c);
        StaysExact(cfg, st, st', c);
      }
    }
  }

  lemma EnrollStep(cfg: Config, st: State, s: nat)
    requires Inv(cfg, st) && s < |st.sources| && st.sources[s].pc.Joining?
    requires st.sources[s].next < |st.sources[s].emitted|
    ensures Inv(cfg, Enrolled(cfg, st, s))
  {
    hide ReaderOk, LogOk, TodoOk, NothingLost, ItemOk, RoleOf, Ripe, Done, InCall, Unset, Shows, Plan, DivisionsOk,
      ExactOk;
    var st' := Enrolled(cfg, st, s);
    assert SourceOk(cfg, st, s);
    EnrollTracks(cfg, st, s);
    TakenOk(cfg, st, st', s);
    EnrollExact(cfg, st, s);
    HeldUpdate(st.sources, s, st'.sources[s]);
    OthersKept(cfg, st, st', s);
    DivisionsKept(cfg, st, st');
    assert forall c :: Known(st, c) ==> Known(st', c);
    CallsKept(st, st');
    ItemsKept(cfg, st, st');
  }

  // ----- one action of a plan -----

  /** `b` is `a` with the first action of its plan done, and logged if it was a send. */
  ghost predicate DidFirst(a: Source, b: Source) {
    && a.pc.Busy? && a.pc.todo != [] && !a.pc.todo[0].Crash?
    && b == a.(pc := b.pc, log := b.log) && b.pc.Busy? && b.pc.todo == a.pc.todo[1..]
    && a.log <= b.log
    && (a.pc.todo[0].Send? ==> |b.log| == |a.log| + 1 && b.log[|a.log|].leaf == a.pc.todo[0].leaf)
    && (!a.pc.todo[0].Send? ==> b.log == a.log)
  }

  lemma NothingLostByActing(cfg: Config, s: nat, a: Source, b: Source)
    requires NothingLost(cfg, s, a) && DidFirst(a, b)
    ensures NothingLost(cfg, s, b)
  {
    forall i, no | 0 <= i < b.next && 0 <= no < |Commands(cfg, b.emitted[i])|
      ensures Underway(cfg, b, i, no, Commands(cfg, b.emitted[i])[no], CallbackOf(b.emitted[i], RootOf(s, b, i), no))
    {
      var cmd, cb := Commands(cfg, b.emitted[i])[no], CallbackOf(b.emitted[i], RootOf(s, b, i), no);
      assert Underway(cfg, a, i, no, cmd, cb);
      forall k: nat | GoesTo(cfg, cmd, k)
        ensures InLog(b, SentLeaf(cfg, i, no, cmd, cb, k))
            || (i == b.next - 1 && Sends(b.pc.todo, SentLeaf(cfg, i, no, cmd, cb, k)))
      {
        StillUnderway(a, b, SentLeaf(cfg, i, no, cmd, cb, k));
      }
    }
  }

  lemma StillUnderway(a: Source, b: Source, leaf: Leaf)
    requires DidFirst(a, b)
    ensures InLog(a, leaf) ==> InLog(b, leaf)
    ensures Sends(a.pc.todo, leaf) ==> InLog(b, leaf) || Sends(b.pc.todo, leaf)
  {
    if InLog(a, leaf) {
      var q :| 0 <= q < |a.log| && a.log[q].leaf == leaf;
      assert b.log[q] == a.log[q];
    } else if Sends(a.pc.todo, leaf) {
      var x :| 0 <= x < |a.pc.todo| && a.pc.todo[x].Send? && a.pc.todo[x].leaf == leaf;
      if x == 0 {
        assert b.log[|a.log|].leaf == leaf;
      } else {
        assert b.pc.todo[x - 1] == a.pc.todo[x];
      }
    }
  }

  /** The rest of a sound and ordered plan is sound and ordered. */
  lemma RestOk(cfg: Config, st: State, st': State, s: nat)
    requires s < |st.sources| == |st'.sources| && TodoOk(cfg, st, s) && DidFirst(st.sources[s], st'.sources[s])
    requires st'.divisions.Keys ==
        st.divisions.Keys + (if st.sources[s].pc.todo[0].Split? then {st.sources[s].pc.todo[0].c} else {})
    ensures TodoOk(cfg, st', s)
  {
    var a, b := st.sources[s], st'.sources[s];
    forall x | 0 <= x < |b.pc.todo|
      ensures b.pc.todo[x] == a.pc.todo[x + 1]
    {}
    assert RootOf(s, b, b.next - 1) == RootOf(s, a, a.next - 1);
    if a.pc.todo[0].Split? {
      assert st'.divisions.Keys == st.divisions.Keys + {a.pc.todo[0].c};
    } else {
      assert st'.divisions.Keys == st.divisions.Keys;
    }
  }

  lemma TrackerSame(a: Source, b: Source)
    requires TrackerOk(a) && b == a.(pc := b.pc, log := b.log) && !b.pc.Joining?
    ensures TrackerOk(b)
  {
    assert Past(b) == Past(a);
  }

  /** The source whose consumer did the first action of its plan. */
  lemma ActedSource(cfg: Config, st: State, st': State, s: nat)
    requires s < |st.sources| == |st'.sources| == |cfg.snapshots| == |cfg.bases| && SourceOk(cfg, st, s)
    requires DidFirst(st.sources[s], st'.sources[s]) && LogOk(st', s)
    requires st'.divisions.Keys ==
        st.divisions.Keys + (if st.sources[s].pc.todo[0].Split? then {st.sources[s].pc.todo[0].c} else {})
    ensures SourceOk(cfg, st', s)
  {
    hide LogOk, TodoOk, NothingLost, TrackerOk;
    TrackerSame(st.sources[s], st'.sources[s]);
    NothingLostByActing(cfg, s, st.sources[s], st'.sources[s]);
    RestOk(cfg, st, st', s);
  }

  /** Every item keeps its standing when logs and queues grow and callbacks stay known. */
  lemma ItemsKept(cfg: Config, st: State, st': State)
    requires Inv(cfg, st) && AllExtend(st, st') && QueuesGrow(st, st')
    requires forall s :: 0 <= s < |st.sources| ==> st.sources[s].log <= st'.sources[s].log
    requires forall c :: Known(st, c) ==> Known(st', c)
    ensures forall k, pos :: 0 <= k < |st.shards| && 0 <= pos < |st.shards[k].all| ==> ItemOk(cfg, st', k, pos)
  {
    forall k, pos | 0 <= k < |st.shards| && 0 <= pos < |st.shards[k].all|
      ensures ItemOk(cfg, st', k, pos)
    {
      ItemKept(cfg, st, st', k, pos);
    }
  }

  /** No other source is about to divide the same callback. */
  lemma SplitsElsewhere(cfg: Config, st: State, s: nat, r: nat, c: Callback)
    requires Inv(cfg, st) && s < |st.sources| && r < |st.sources| && r != s
    requires st.sources[r].pc.Busy? && Origin(c).Root? && Origin(c).source == s
    ensures forall x :: 0 <= x < |st.sources[r].pc.todo| && st.sources[r].pc.todo[x].Split? ==>
        st.sources[r].pc.todo[x].c != c
  {
    assert SourceOk(cfg, st, r);
    var o := st.sources[r];
    forall x | 0 <= x < |o.pc.todo| && o.pc.todo[x].Split?
      ensures o.pc.todo[x].c != c
    {
      assert SoundAction(cfg, o.next - 1, o.emitted[o.next - 1], RootOf(r, o, o.next - 1), o.pc.todo[x]);
    }
  }

  /** What the head of a plan is about to divide: a callback of the entry at hand, not divided yet. */
  lemma SplitHead(cfg: Config, st: State, s: nat)
    requires Inv(cfg, st) && s < |st.sources| && st.sources[s].pc.Busy? && st.sources[s].pc.todo != []
    requires st.sources[s].pc.todo[0].Split?
    ensures var c, n := st.sources[s].pc.todo[0].c, st.sources[s].pc.todo[0].n;
      && n > 0 && c !in st.divisions && RoleOf(cfg, st, c) == Divided(n)
      && Origin(c).Root? && Origin(c).source == s
      && (c.Part? ==> HasPart(st.divisions, c.parent, c.index)) && Known(st, c)
  {
    hide ReaderOk, LogOk, NothingLost, Shows, ExactOk, CallsOk, ShardsOk, SlotsOk;
    var a := st.sources[s];
    assert SourceOk(cfg, st, s);
    assert SoundAction(cfg, a.next - 1, a.emitted[a.next - 1], RootOf(s, a, a.next - 1), a.pc.todo[0]);
    var c := a.pc.todo[0].c;
    if c.Part? {
      assert c == Part(c.parent, c.index);
      RoleOfPart(cfg, st, c.parent, c.index);
    }
  }

  lemma SplitOwnSource(cfg: Config, st: State, s: nat)
    requires Inv(cfg, st) && AtAction(st, s) && st.sources[s].pc.todo[0].Split?
    ensures SourceOk(cfg, DidSplit(st, s), s)
  {
    assert SourceOk(cfg, st, s);
    ActedSource(cfg, st, DidSplit(st, s), s);
  }

  lemma SplitSources(cfg: Config, st: State, s: nat)
    requires Inv(cfg, st) && AtAction(st, s) && st.sources[s].pc.todo[0].Split?
    ensures var st' := DidSplit(st, s); forall r :: 0 <= r < |st.sources| ==> SourceOk(cfg, st', r)
  {
    var st' := DidSplit(st, s);
    SplitHead(cfg, st, s);
    SplitOwnSource(cfg, st, s);
    forall r | 0 <= r < |st.sources|
      ensures SourceOk(cfg, st', r)
    {
      if r != s {
        assert SourceOk(cfg, st, r);
        if st.sources[r].pc.Busy? {
          SplitsElsewhere(cfg, st, s, r, st.sources[s].pc.todo[0].c);
        }
        OtherSourceKept(cfg, st, st', r);
      }
    }
  }

  /** A copy in the log carries a callback that has been handed out. */
  lemma LoggedIsKnown(cfg: Config, st: State, r: nat, q: nat)
    requires Inv(cfg, st) && r < |st.sources| && q < |st.sources[r].log| && st.sources[r].log[q].leaf.cb.Some?
    ensures Known(st, st.sources[r].log[q].leaf.cb.value)
  {
    assert SourceOk(cfg, st, r);
    var l := st.sources[r].log[q];
    assert ItemOk(cfg, st, l.leaf.shard, l.pos);
  }

  /** A callback that has not been handed out cannot have come back with a reply. */
  lemma NotYetAnswered(cfg: Config, st: State, r: nat, leaf: Leaf)
    requires Inv(cfg, st) && leaf.cb.Some? && !Known(st, leaf.cb.value)
    ensures !Answered(st, r, leaf)
  {
    if Answered(st, r, leaf) {
      var q :| 0 <= q < |st.sources[r].log| && st.sources[r].log[q].leaf == leaf
          && st.sources[r].log[q].pos < st.shards[leaf.shard].acked;
      LoggedIsKnown(cfg, st, r, q);
    }
  }

  /** What `RoleIn` says a copy carries is the callback itself. */
  lemma CarriesItself(cfg: Config, st: State, c: Callback)
    requires RoleOf(cfg, st, c).Carried?
    ensures RoleOf(cfg, st, c).leaf.cb == Some(c)
  {}

  lemma SplitExact(cfg: Config, st: State, s: nat)
    requires Inv(cfg, st) && AtAction(st, s) && st.sources[s].pc.todo[0].Split?
    ensures ExactOk(cfg, DidSplit(st, s))
  {
    var st' := DidSplit(st, s);
    var c := st.sources[s].pc.todo[0].c;
    SplitHead(cfg, st, s);
    assert forall g :: CallOf(st', g) == CallOf(st, g);
    assert forall r, leaf :: Answered(st', r, leaf) <==> Answered(st, r, leaf);
    forall x | Known(st', x)
      ensures Done(st', x) || InCall(st', x) <==> Ripe(cfg, st', x)
    {
      InCallSame(st, st', x);
      if x.Part? && x.parent == c {
        assert x == Part(c, x.index) && x !in st.divisions && x != c;
        assert !Known(st, x) && !InCall(st, x);
        if RoleOf(cfg, st', x).Carried? {
          CarriesItself(cfg, st', x);
          OriginIsRoot(x);
          NotYetAnswered(cfg, st, Origin(x).source, RoleOf(cfg, st', x).leaf);
        }
      } else {
        assert Known(st, x);
        assert x.Root? ==> (CalledDirectly(st', x.source, x.t) <==> CalledDirectly(st, x.source, x.t));
        StaysExact(cfg, st, st', x);
      }
    }
  }

  lemma SplitDivisions(cfg: Config, st: State, s: nat)
    requires Inv(cfg, st) && AtAction(st, s) && st.sources[s].pc.todo[0].Split?
    ensures var st' := DidSplit(st, s); DivisionsOk(cfg, st') && (forall c :: Known(st, c) ==> Known(st', c))
  {
    hide SourceOk, ItemOk, RoleOf, Ripe, Done, InCall;
    var st' := DidSplit(st, s);
    var c, n := st.sources[s].pc.todo[0].c, st.sources[s].pc.todo[0].n;
    SplitHead(cfg, st, s);
    UnsetOfFresh(n);
    forall x | x in st'.divisions
      ensures RoleOf(cfg, st', x) == Divided(|st'.divisions[x].once|)
    {
      RoleKept(cfg, st, st', x);
    }
    forall p, i: nat | Part(p, i) in st'.divisions
      ensures HasPart(st'.divisions, p, i)
    {
      if Part(p, i) != c { assert HasPart(st.divisions, p, i); }
    }
  }

  lemma SplitStep(cfg: Config, st: State, s: nat)
    requires Inv(cfg, st) && AtAction(st, s) && st.sources[s].pc.todo[0].Split?
    ensures Inv(cfg, DidSplit(st, s))
  {
    var st' := DidSplit(st, s);
    SplitSources(cfg, st, s);
    SplitExact(cfg, st, s);
    SplitDivisions(cfg, st, s);
    HeldUpdate(st.sources, s, st'.sources[s]);
    ItemsKept(cfg, st, st');
    forall g | CallOf(st', g).Some?
      ensures Known(st', CallOf(st', g).value)
    {
      assert CallOf(st', g) == CallOf(st, g) && Known(st, CallOf(st, g).value);
    }
  }

  lemma CallHead(cfg: Config, st: State, s: nat)
    requires Inv(cfg, st) && s < |st.sources| && st.sources[s].pc.Busy? && st.sources[s].pc.todo != []
    requires st.sources[s].pc.todo[0].Call?
    ensures var c := st.sources[s].pc.todo[0].c; var src := st.sources[s];
      && src.next > src.loaded && c == Root(s, src.next - 1 - src.loaded) && Known(st, c)
      && RoleOf(cfg, st, c) == Direct && src.pc.todo == [Call(c)]
  {
    var a := st.sources[s];
    assert SourceOk(cfg, st, s);
    assert SoundAction(cfg, a.next - 1, a.emitted[a.next - 1], RootOf(s, a, a.next - 1), a.pc.todo[0]);
  }

  /** The first action of a plan, if it sends, sends a copy whose callback has been handed out. */
  lemma SendHead(cfg: Config, st: State, s: nat)
    requires Inv(cfg, st) && AtAction(st, s) && st.sources[s].pc.todo[0].Send?
    ensures var leaf := st.sources[s].pc.todo[0].leaf;
      && leaf.idx == st.sources[s].next - 1 && leaf.shard < |st.shards|
      && (leaf.cb.Some? ==> Known(st, leaf.cb.value) && RoleOf(cfg, st, leaf.cb.value) == Carried(leaf) && Origin(leaf.cb.value).source == s)
  {
    hide Shows, ReaderOk, ItemOk, Ripe, ExactOk, CallsOk, NothingLost, LogOk, SlotsOk;
    var a := st.sources[s];
    assert SourceOk(cfg, st, s);
    assert SoundAction(cfg, a.next - 1, a.emitted[a.next - 1], RootOf(s, a, a.next - 1), a.pc.todo[0]);
    var leaf := a.pc.todo[0].leaf;
    if leaf.cb.Some? && leaf.cb.value.Part? {
      var c := leaf.cb.value;
      assert c == Part(c.parent, c.index);
      RoleOfPart(cfg, st, c.parent, c.index);
    }
  }

  lemma SendLog(cfg: Config, st: State, s: nat)
    requires Inv(cfg, st) && AtAction(st, s) && st.sources[s].pc.todo[0].Send?
    requires st.sources[s].pc.todo[0].leaf.shard < |st.shards|
    ensures LogOk(DidSend(st, s), s)
  {
    hide Shows, ItemOk, ExactOk, NothingLost, SoundPlan, Ordered, Announced, DivisionsOk, CallsOk, ShardsOk, ReaderOk,
      TrackerOk, Before;
    assert SourceOk(cfg, st, s);
    SendHead(cfg, st, s);
  }

  lemma SendOwnSource(cfg: Config, st: State, s: nat)
    requires Inv(cfg, st) && AtAction(st, s) && st.sources[s].pc.todo[0].Send?
    requires st.sources[s].pc.todo[0].leaf.shard < |st.shards|
    ensures SourceOk(cfg, DidSend(st, s), s)
  {
    hide SourceOk, LogOk, ExactOk, DivisionsOk, CallsOk, ShardsOk;
    assert SourceOk(cfg, st, s);
    SendLog(cfg, st, s);
    ActedSource(cfg, st, DidSend(st, s), s);
  }

  /** A copy that has only just been queued is not answered. */
  lemma SendAnswersNothing(cfg: Config, st: State, s: nat)
    requires Inv(cfg, st) && AtAction(st, s) && st.sources[s].pc.todo[0].Send?
    requires st.sources[s].pc.todo[0].leaf.shard < |st.shards|
    ensures forall r, leaf :: Answered(DidSend(st, s), r, leaf) <==> Answered(st, r, leaf)
  {
    hide SourceOk, DivisionsOk, ExactOk, CallsOk, SlotsOk, ItemOk;
    var st' := DidSend(st, s);
    forall r: nat, leaf
      ensures Answered(st', r, leaf) <==> Answered(st, r, leaf)
    {
      if Answered(st', r, leaf) {
        var q :| 0 <= q < |st'.sources[r].log| && st'.sources[r].log[q].leaf == leaf
            && st'.sources[r].log[q].pos < st'.shards[leaf.shard].acked;
        assert st'.shards[leaf.shard].acked == st.shards[leaf.shard].acked;
        assert q < |st.sources[r].log| && st.sources[r].log[q] == st'.sources[r].log[q];
      }
      if Answered(st, r, leaf) {
        var q :| 0 <= q < |st.sources[r].log| && st.sources[r].log[q].leaf == leaf
            && st.sources[r].log[q].pos < st.shards[leaf.shard].acked;
        assert st.sources[r].log[q] == st'.sources[r].log[q];
      }
    }
  }

  lemma SendCalm(cfg: Config, st: State, s: nat)
    requires Inv(cfg, st) && AtAction(st, s) && st.sources[s].pc.todo[0].Send?
    requires st.sources[s].pc.todo[0].leaf.shard < |st.shards|
    ensures Calm(st, DidSend(st, s))
  {
    hide SourceOk, ShardsOk, ExactOk, DivisionsOk, CallsOk, SlotsOk, Answered;
    SendAnswersNothing(cfg, st, s);
    var st' := DidSend(st, s);
    assert forall g :: CallOf(st', g) == CallOf(st, g);
  }

  lemma SendItems(cfg: Config, st: State, s: nat)
    requires Inv(cfg, st) && AtAction(st, s) && st.sources[s].pc.todo[0].Send?
    requires st.sources[s].pc.todo[0].leaf.shard < |st.shards|
    ensures ShardsOk(cfg, DidSend(st, s))
  {
    hide SourceOk, ExactOk, DivisionsOk, CallsOk, SlotsOk, RoleOf;
    var st' := DidSend(st, s);
    var leaf := st.sources[s].pc.todo[0].leaf;
    var k := leaf.shard;
    SendHead(cfg, st, s);
    ItemsKept(cfg, st, st');
    if leaf.cb.Some? { RoleKept(cfg, st, st', leaf.cb.value); }
    assert st'.sources[s].log[|st.sources[s].log|] == Logged(leaf, |st.shards[k].all|);
    assert ItemOk(cfg, st', k, |st.shards[k].all|);
  }

  lemma SendStep(cfg: Config, st: State, s: nat)
    requires Inv(cfg, st) && AtAction(st, s) && st.sources[s].pc.todo[0].Send?
    requires st.sources[s].pc.todo[0].leaf.shard < |st.shards|
    ensures Inv(cfg, DidSend(st, s))
  {
    hide SourceOk, ExactOk, DivisionsOk, CallsOk, ShardsOk, Calm;
    var st' := DidSend(st, s);
    TrackersOk(cfg, st);
    SendOwnSource(cfg, st, s);
    SendItems(cfg, st, s);
    SendCalm(cfg, st, s);
    CallbacksKept(cfg, st, st');
    HeldUpdate(st.sources, s, st'.sources[s]);
    OthersKept(cfg, st, st', s);
  }

  lemma CallStep(cfg: Config, st: State, s: nat)
    requires Inv(cfg, st) && AtAction(st, s) && st.sources[s].pc.todo[0].Call?
    ensures Inv(cfg, DidCall(st, s))
  {
    hide ReaderOk, TrackerOk, TodoOk, NothingLost, ExactOk, DivisionsOk, ItemOk, RoleOf;
    var st' := DidCall(st, s);
    assert SourceOk(cfg, st, s);
    CallHead(cfg, st, s);
    ActedSource(cfg, st, st', s);
    OthersKept(cfg, st, st', s);
    ItemsKept(cfg, st, st');
    DivisionsKept(cfg, st, st');
    HeldUpdate(st.sources, s, st'.sources[s]);
    CallExact(cfg, st, s);
    forall g | CallOf(st', g).Some?
      ensures Known(st', CallOf(st', g).value)
    {
      if g != OfSource(s) { assert CallOf(st', g) == CallOf(st, g); }
    }
  }

  lemma CallExact(cfg: Config, st: State, s: nat)
    requires Inv(cfg, st) && AtAction(st, s) && st.sources[s].pc.todo[0].Call?
    ensures ExactOk(cfg, DidCall(st, s))
  {
    hide SourceOk, ItemOk, DivisionsOk;
    var st' := DidCall(st, s);
    CallHead(cfg, st, s);
    var c := st.sources[s].pc.todo[0].c;
    assert CallOf(st', OfSource(s)) == Some(c);
    assert forall g :: g != OfSource(s) ==> CallOf(st', g) == CallOf(st, g);
    assert forall r, leaf :: Answered(st', r, leaf) <==> Answered(st, r, leaf);
    forall x | Known(st', x)
      ensures Done(st', x) || InCall(st', x) <==> Ripe(cfg, st', x)
    {
      assert Known(st, x);
      if x == c {
        assert RoleOf(cfg, st', c) == RoleOf(cfg, st, c);
        assert InCall(st', c);
      } else {
        InCallSame(st, st', x);
        StaysExact(cfg, st, st', x);
      }
    }
  }
}
