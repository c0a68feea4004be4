/** Replies, the callbacks they run, and the whole run. */
module PipelineReplies {
  import opened Basics
  import opened Completions
  import opened TrackerModel
  import opened Pipeline
  import opened PipelinePlan
  import opened PipelineInvariant
  import opened PipelineProof

  lemma HeartbeatStep(cfg: Config, st: State, k: nat)
    requires Inv(cfg, st) && k < |st.shards|
    ensures Inv(cfg, SetShard(st, k, st.shards[k].(all := st.shards[k].all + [Beat])))
  {
    hide SourceOk, ItemOk, ExactOk, DivisionsOk, CallsOk, RoleOf;
    var st' := SetShard(st, k, st.shards[k].(all := st.shards[k].all + [Beat]));
    TrackersOk(cfg, st);
    OthersKept(cfg, st, st', |st.sources|);
    ItemsKept(cfg, st, st');
    assert forall g :: CallOf(st', g) == CallOf(st, g);
    assert forall r: nat, leaf :: Answered(st', r, leaf) <==> Answered(st, r, leaf);
    CallbacksKept(cfg, st, st');
    BeatIsOk(cfg, st', k, |st.shards[k].all|);
  }

  lemma BeatIsOk(cfg: Config, st: State, k: nat, pos: nat)
    requires k < |st.shards| && pos < |st.shards[k].all| && st.shards[k].all[pos] == Beat
    ensures ItemOk(cfg, st, k, pos)
  {}

  // ----- a reply -----

  /** Exactly the copy at the head of the unanswered part becomes answered. */
  lemma ReplyAnswers(cfg: Config, st: State, k: nat, r: nat, leaf: Leaf)
    requires Inv(cfg, st) && k < |st.shards| && st.shards[k].acked < |st.shards[k].all|
    ensures Answered(Replied(st, k), r, leaf) <==>
        Answered(st, r, leaf) || st.shards[k].all[st.shards[k].acked] == Sent(r, leaf)
  {
    hide ExactOk, DivisionsOk, CallsOk, SlotsOk, ReaderOk, TrackerOk, TodoOk, NothingLost, RoleOf;
    var st' := Replied(st, k);
    var pos := st.shards[k].acked;
    if r < |st.sources| { assert SourceOk(cfg, st, r); }
    if Answered(st', r, leaf) && !Answered(st, r, leaf) {
      var q :| 0 <= q < |st'.sources[r].log| && st'.sources[r].log[q].leaf == leaf
          && st'.sources[r].log[q].pos < st'.shards[leaf.shard].acked;
      assert st.sources[r].log[q].pos == pos && leaf.shard == k;
    }
    if Answered(st, r, leaf) {
      var q :| 0 <= q < |st.sources[r].log| && st.sources[r].log[q].leaf == leaf
          && st.sources[r].log[q].pos < st.shards[leaf.shard].acked;
      assert st'.sources[r].log[q].pos < st'.shards[leaf.shard].acked;
    }
    if st.shards[k].all[pos] == Sent(r, leaf) {
      assert ItemOk(cfg, st, k, pos);
      var q :| 0 <= q < |st.sources[r].log| && st.sources[r].log[q] == Logged(leaf, pos);
      assert st'.sources[r].log[q].pos < st'.shards[k].acked;
    }
  }

  /** The callback that the reply goroutine enters. */
  function Entered(st: State, k: nat): Option<Callback>
    requires k < |st.shards| && st.shards[k].acked < |st.shards[k].all|
  {
    CallOf(Replied(st, k), OfShard(k))
  }

  lemma ReplyCalls(cfg: Config, st: State, k: nat)
    requires Inv(cfg, st) && k < |st.shards| && st.shards[k].acked < |st.shards[k].all| && st.shards[k].call.None?
    ensures var st' := Replied(st, k);
      && (forall g :: g != OfShard(k) ==> CallOf(st', g) == CallOf(st, g))
      && (forall c :: InCall(st', c) <==> InCall(st, c) || Entered(st, k) == Some(c))
      && (Entered(st, k).Some? ==> Known(st, Entered(st, k).value))
  {
    hide SourceOk, ExactOk, DivisionsOk, SlotsOk, RoleOf;
    var st' := Replied(st, k);
    assert ItemOk(cfg, st, k, st.shards[k].acked);
    forall c
      ensures InCall(st', c) <==> InCall(st, c) || Entered(st, k) == Some(c)
    {
      if InCall(st', c) {
        var g :| CallOf(st', g) == Some(c);
        if g != OfShard(k) { assert CallOf(st, g) == Some(c); }
      }
      if InCall(st, c) {
        var g :| CallOf(st, g) == Some(c);
        assert g != OfShard(k) && CallOf(st', g) == Some(c);
      }
    }
  }

  lemma ReplyExact(cfg: Config, st: State, k: nat, c: Callback)
    requires Inv(cfg, st) && k < |st.shards| && st.shards[k].acked < |st.shards[k].all| && st.shards[k].call.None?
    requires Known(st, c)
    ensures var st' := Replied(st, k); Done(st', c) || InCall(st', c) <==> Ripe(cfg, st', c)
  {
    hide SourceOk, DivisionsOk, SlotsOk, Answered, InCall, RoleIn;
    var st' := Replied(st, k);
    var item := st.shards[k].all[st.shards[k].acked];
    assert ItemOk(cfg, st, k, st.shards[k].acked);
    ReplyCalls(cfg, st, k);
    OriginIsRoot(c);
    assert RoleOf(cfg, st', c) == RoleOf(cfg, st, c);
    assert Done(st', c) == Done(st, c);
    assert Done(st, c) || InCall(st, c) <==> Ripe(cfg, st, c);
    if RoleOf(cfg, st, c).Carried? {
      var leaf := RoleOf(cfg, st, c).leaf;
      CarriesItself(cfg, st, c);
      ReplyAnswers(cfg, st, k, Origin(c).source, leaf);
      if item == Sent(Origin(c).source, leaf) {
        assert !leaf.cmd.select ==> Entered(st, k) == Some(c);
      }
    }
  }

  lemma ReplyStep(cfg: Config, st: State, k: nat)
    requires Inv(cfg, st) && k < |st.shards| && st.shards[k].acked < |st.shards[k].all| && st.shards[k].call.None?
    ensures Inv(cfg, Replied(st, k))
  {
    hide SourceOk, DivisionsOk, ItemOk, RoleOf, Ripe, Done, InCall;
    var st' := Replied(st, k);
    OthersKept(cfg, st, st', |st.sources|);
    ItemsKept(cfg, st, st');
    DivisionsKept(cfg, st, st');
    ReplyCalls(cfg, st, k);
    forall c | Known(st', c)
      ensures Done(st', c) || InCall(st', c) <==> Ripe(cfg, st', c)
    {
      assert Known(st, c);
      ReplyExact(cfg, st, k, c);
    }
    forall g | CallOf(st', g).Some?
      ensures Known(st', CallOf(st', g).value)
    {
      if g != OfShard(k) { assert CallOf(st', g) == CallOf(st, g); }
    }
  }

  // ----- one callback body -----

  /** The source after a callback: its plan is the same, its tracker may have moved on. */
  ghost predicate SamePlan(a: Source, b: Source) {
    && b == a.(pc := b.pc, ledger := b.ledger, fired := b.fired)
    && (b.pc == a.pc || (a.pc.Busy? && b.pc.Busy? && a.pc.todo == b.pc.todo))
    && Registered(b) == Registered(a)
  }

  /** What a callback body leaves alone. */
  ghost predicate SamePlans(st: State, st': State) {
    && |st'.sources| == |st.sources| && |st'.shards| == |st.shards|
    && (forall r :: 0 <= r < |st.sources| ==> SamePlan(st.sources[r], st'.sources[r]))
    && (forall k :: 0 <= k < |st.shards| ==>
        st'.shards[k].all == st.shards[k].all && st'.shards[k].acked == st.shards[k].acked)
    && st'.divisions.Keys == st.divisions.Keys
    && (forall p :: p in st.divisions ==> |st'.divisions[p].once| == |st.divisions[p].once|)
  }

  lemma SamePlanOk(cfg: Config, st: State, st': State, r: nat)
    requires Inv(cfg, st) && SamePlans(st, st') && r < |st.sources| && TrackerOk(st'.sources[r])
    ensures SourceOk(cfg, st', r)
  {
    hide ExactOk, DivisionsOk, CallsOk, ShardsOk, SlotsOk, Shows, TrackerOk, SoundPlan, Ordered, Announced, Before;
    var a, b := st.sources[r], st'.sources[r];
    assert SourceOk(cfg, st, r);
    forall i, no | 0 <= i < b.next && 0 <= no < |Commands(cfg, b.emitted[i])|
      ensures Underway(cfg, b, i, no, Commands(cfg, b.emitted[i])[no], CallbackOf(b.emitted[i], RootOf(r, b, i), no))
    {
      assert RootOf(r, b, i) == RootOf(r, a, i);
      assert Underway(cfg, a, i, no, Commands(cfg, a.emitted[i])[no], CallbackOf(a.emitted[i], RootOf(r, a, i), no));
    }
    assert a.next > 0 ==> RootOf(r, b, b.next - 1) == RootOf(r, a, a.next - 1);
  }

  /** Roles, answers, direct calls and items are untouched by a callback body. */
  lemma SamePlansKeep(cfg: Config, st: State, st': State)
    requires Inv(cfg, st) && SamePlans(st, st')
    ensures AllExtend(st, st')
    ensures forall c :: Known(st', c) <==> Known(st, c)
    ensures forall c :: RoleOf(cfg, st', c) == RoleOf(cfg, st, c)
    ensures forall r: nat, leaf :: Answered(st', r, leaf) <==> Answered(st, r, leaf)
    ensures forall r: nat, t: nat :: CalledDirectly(st', r, t) <==> CalledDirectly(st, r, t)
    ensures ShardsOk(cfg, st')
  {
    hide SourceOk, ExactOk, DivisionsOk, CallsOk, SlotsOk, RoleIn;
    forall c
      ensures RoleOf(cfg, st', c) == RoleOf(cfg, st, c)
    {
      OriginIsRoot(c);
      var r := Origin(c).source;
      if r < |st.sources| { assert SamePlan(st.sources[r], st'.sources[r]); }
    }
    forall r: nat, t: nat
      ensures CalledDirectly(st', r, t) <==> CalledDirectly(st, r, t)
    {
      if r < |st.sources| { assert SamePlan(st.sources[r], st'.sources[r]); }
    }
    forall r: nat, leaf
      ensures Answered(st', r, leaf) <==> Answered(st, r, leaf)
    {
      if r < |st.sources| { assert SamePlan(st.sources[r], st'.sources[r]); }
    }
    forall r | 0 <= r < |st.sources|
      ensures st'.sources[r].log == st.sources[r].log
    {
      assert SamePlan(st.sources[r], st'.sources[r]);
    }
    hide ItemOk;
    ItemsKept(cfg, st, st');
  }

  /** The goroutines after a callback body: only the one that ran it has moved. */
  ghost predicate Moved(st: State, st': State, g: Goroutine, next: Option<Callback>) {
    && CallOf(st', g) == next
    && forall h :: h != g ==> CallOf(st', h) == CallOf(st, h)
  }

  lemma MovedCalls(st: State, st': State, g: Goroutine, next: Option<Callback>, c: Callback)
    requires Moved(st, st', g, next) && CallOf(st, g) == Some(c)
    ensures forall x :: x != c ==> (InCall(st', x) <==> InCall(st, x) || next == Some(x))
    ensures next.Some? ==> InCall(st', next.value)
  {
    forall x | x != c
      ensures InCall(st', x) <==> InCall(st, x) || next == Some(x)
    {
      if InCall(st', x) {
        var h :| CallOf(st', h) == Some(x);
        if h != g { assert CallOf(st, h) == Some(x); }
      }
      if InCall(st, x) {
        var h :| CallOf(st, h) == Some(x);
        assert h != g && CallOf(st', h) == Some(x);
      }
      if next == Some(x) { assert CallOf(st', g) == Some(x); }
    }
  }

  lemma CallMoves(st: State, g: Goroutine)
    requires CallOf(st, g).Some?
    ensures Moved(st, RanCallback(st, g), g, RunCallback(st, CallOf(st, g).value).1)
  {
    hide Touch, Complete;
    var st' := RanCallback(st, g);
    forall h | h != g
      ensures CallOf(st', h) == CallOf(st, h)
    {}
  }

  /** The body of a part's callback. */
  lemma PartBody(cfg: Config, st: State, g: Goroutine)
    requires Inv(cfg, st) && CallOf(st, g).Some? && CallOf(st, g).value.Part?
    ensures var c := CallOf(st, g).value; var st' := RanCallback(st, g);
      && SamePlans(st, st') && st'.divisions == Touch(st.divisions, c).0 && st'.slots == st.slots
      && (forall r :: 0 <= r < |st.sources| ==>
          st'.sources[r].ledger == st.sources[r].ledger && st'.sources[r].fired == st.sources[r].fired)
  {
    hide SourceOk, ExactOk, DivisionsOk, CallsOk, SlotsOk, ShardsOk;
  }

  /** The part is done and its parent is entered exactly if it was the last one. */
  lemma PartExact(cfg: Config, st: State, g: Goroutine, x: Callback)
    requires Inv(cfg, st) && CallOf(st, g).Some? && CallOf(st, g).value.Part? && Known(st, x)
    ensures var st' := RanCallback(st, g); Done(st', x) || InCall(st', x) <==> Ripe(cfg, st', x)
  {
    hide SourceOk, SlotsOk, ShardsOk, RoleOf, Answered, CalledDirectly, InCall, SamePlans, RanCallback;
    var c, st' := CallOf(st, g).value, RanCallback(st, g);
    PartBody(cfg, st, g);
    SamePlansKeep(cfg, st, st');
    CallMoves(st, g);
    MovedCalls(st, st', g, Touch(st.divisions, c).1, c);
    InCallBy(st, g);
    var p, v := c.parent, st.divisions[c.parent];
    UnsetIsZero(v.once);
    assert Done(st, x) || InCall(st, x) <==> Ripe(cfg, st, x);
    assert Done(st, c) || InCall(st, c) <==> Ripe(cfg, st, c);
    if !v.once[c.index] {
      UnsetAfterSet(v.once, c.index);
      DivisionKnown(cfg, st, p);
      assert Done(st, p) || InCall(st, p) <==> Ripe(cfg, st, p);
    }
    PartCases(cfg, st, st', c, x);
  }

  lemma InCallBy(st: State, g: Goroutine)
    requires CallOf(st, g).Some?
    ensures InCall(st, CallOf(st, g).value)
    ensures CallsOk(st) ==> Known(st, CallOf(st, g).value)
  {}

  lemma DivisionKnown(cfg: Config, st: State, p: Callback)
    requires DivisionsOk(cfg, st) && p in st.divisions
    ensures Known(st, p)
  {
    if p.Part? { assert p == Part(p.parent, p.index); }
  }

  lemma PartCases(cfg: Config, st: State, st': State, c: Callback, x: Callback)
    requires c.Part? && HasPart(st.divisions, c.parent, c.index) && Known(st, x) && DivisionsOk(cfg, st)
    requires st'.divisions == Touch(st.divisions, c).0
    requires |st'.sources| == |st.sources| && forall r :: 0 <= r < |st.sources| ==>
        st'.sources[r].fired == st.sources[r].fired
    requires forall y :: RoleOf(cfg, st', y) == RoleOf(cfg, st, y)
    requires forall r: nat, leaf :: Answered(st', r, leaf) <==> Answered(st, r, leaf)
    requires forall r: nat, t: nat :: CalledDirectly(st', r, t) <==> CalledDirectly(st, r, t)
    requires forall y :: y != c ==> (InCall(st', y) <==> InCall(st, y) || Touch(st.divisions, c).1 == Some(y))
    requires InCall(st, c) && Ripe(cfg, st, c)
    requires Done(st, x) || InCall(st, x) <==> Ripe(cfg, st, x)
    requires !st.divisions[c.parent].once[c.index] ==>
        (Done(st, c.parent) || InCall(st, c.parent) <==> Ripe(cfg, st, c.parent))
    ensures Done(st', x) || InCall(st', x) <==> Ripe(cfg, st', x)
  {
    hide RoleOf, Answered, CalledDirectly, InCall;
    OriginIsRoot(x);
    var p := c.parent;
    assert RoleOf(cfg, st, p).Divided?;
    UnsetIsZero(st.divisions[p].once);
    if !st.divisions[p].once[c.index] { UnsetAfterSet(st.divisions[p].once, c.index); }
  }

  lemma PartDivisions(cfg: Config, st: State, g: Goroutine)
    requires Inv(cfg, st) && CallOf(st, g).Some? && CallOf(st, g).value.Part?
    ensures DivisionsOk(cfg, RanCallback(st, g))
  {
    hide SourceOk, ExactOk, SlotsOk, ShardsOk, RoleOf, RanCallback, SamePlans;
    var c, st' := CallOf(st, g).value, RanCallback(st, g);
    PartBody(cfg, st, g);
    SamePlansKeep(cfg, st, st');
    InCallBy(st, g);
    var v := st.divisions[c.parent];
    if !v.once[c.index] { UnsetAfterSet(v.once, c.index); }
    forall p, i: nat | Part(p, i) in st'.divisions
      ensures HasPart(st'.divisions, p, i)
    {
      assert HasPart(st.divisions, p, i);
    }
  }

  lemma PartStep(cfg: Config, st: State, g: Goroutine)
    requires Inv(cfg, st) && CallOf(st, g).Some? && CallOf(st, g).value.Part?
    ensures Inv(cfg, RanCallback(st, g))
  {
    hide SourceOk, RoleOf, RanCallback, SamePlans, ItemOk, Ripe, InCall, Done;
    var c, st' := CallOf(st, g).value, RanCallback(st, g);
    PartBody(cfg, st, g);
    SamePlansKeep(cfg, st, st');
    PartDivisions(cfg, st, g);
    TrackersOk(cfg, st);
    forall r | 0 <= r < |st'.sources|
      ensures SourceOk(cfg, st', r)
    {
      CalledTracker(st, st', r);
      SamePlanOk(cfg, st, st', r);
    }
    forall x | Known(st', x)
      ensures Done(st', x) || InCall(st', x) <==> Ripe(cfg, st', x)
    {
      PartExact(cfg, st, g, x);
    }
    PartCalls(cfg, st, g);
    SamePlansSlots(st, st');
  }

  /** Whoever is inside a callback after a part has run is inside a known one. */
  lemma PartCalls(cfg: Config, st: State, g: Goroutine)
    requires Inv(cfg, st) && CallOf(st, g).Some? && CallOf(st, g).value.Part?
    ensures CallsOk(RanCallback(st, g))
  {
    hide SourceOk, RoleOf, RanCallback, SamePlans, ItemOk, Ripe, InCall, Done, ShardsOk, SlotsOk, ExactOk;
    var c, st' := CallOf(st, g).value, RanCallback(st, g);
    PartBody(cfg, st, g);
    SamePlansKeep(cfg, st, st');
    CallMoves(st, g);
    InCallBy(st, g);
    assert Touch(st.divisions, c).1.Some? ==> Touch(st.divisions, c).1.value == c.parent;
    forall h | CallOf(st', h).Some?
      ensures Known(st', CallOf(st', h).value)
    {
      if h == g { DivisionKnown(cfg, st, c.parent); } else { assert CallOf(st', h) == CallOf(st, h); }
    }
  }

  /** A callback body that leaves the tracker of a source alone. */
  lemma CalledTracker(st: State, st': State, r: nat)
    requires SamePlans(st, st') && r < |st.sources| && TrackerOk(st.sources[r])
    requires st'.sources[r].ledger == st.sources[r].ledger && st'.sources[r].fired == st.sources[r].fired
    ensures TrackerOk(st'.sources[r])
  {
    assert SamePlan(st.sources[r], st'.sources[r]);
    assert Past(st'.sources[r]) == Past(st.sources[r]);
  }

  lemma {:induction false} HeldSame(a: seq<Source>, b: seq<Source>)
    requires |a| == |b|
    requires forall r :: 0 <= r < |a| ==>
        |a[r].ledger.queue| == |b[r].ledger.queue| && a[r].pc.Joining? == b[r].pc.Joining?
    ensures Held(a) == Held(b)
  {
    if a != [] { HeldSame(a[1..], b[1..]); }
  }

  lemma SamePlansSlots(st: State, st': State)
    requires SamePlans(st, st') && (forall r :: 0 <= r < |st.sources| ==> st'.sources[r].ledger == st.sources[r].ledger)
    ensures Held(st'.sources) == Held(st.sources)
  {
    forall r | 0 <= r < |st.sources|
      ensures |st.sources[r].ledger.queue| == |st'.sources[r].ledger.queue|
      ensures st.sources[r].pc.Joining? == st'.sources[r].pc.Joining?
    {
      assert SamePlan(st.sources[r], st'.sources[r]);
    }
    HeldSame(st.sources, st'.sources);
  }

  // ----- the tracker's own callback -----

  /** The tracker's callback: its position is done, and the ledger is what completing it gives. */
  lemma RootLedger(cfg: Config, st: State, s: nat, t: nat)
    requires Inv(cfg, st) && s < |st.sources| && t < Registered(st.sources[s])
    ensures var a := st.sources[s]; var b := a.(ledger := Complete(a.ledger, t), fired := a.fired + {t});
      && TrackerOk(b) && Registered(b) == Registered(a)
      && |b.ledger.queue| == |a.ledger.queue| - (b.ledger.released - a.ledger.released)
      && a.ledger.released <= b.ledger.released
  {
    hide ReaderOk, LogOk, TodoOk, NothingLost, ExactOk, DivisionsOk, CallsOk, ShardsOk, SlotsOk, Shows, Complete;
    assert SourceOk(cfg, st, s);
    var a := st.sources[s];
    var b := a.(ledger := Complete(a.ledger, t), fired := a.fired + {t});
    CompleteMoves(a.ledger, Past(a), t);
    assert Past(a)[t := Past(a)[t].(done := true)] == Past(b);
  }

  /** Completing a position moves a ledger on, and releases what leaves its queue. */
  lemma CompleteMoves(s: Ledger, h: seq<Pending>, t: nat)
    requires Shows(s, h) && t < |h|
    ensures var r := Complete(s, t);
      Shows(r, h[t := h[t].(done := true)]) && s.released <= r.released && r.released + |r.queue| == |h| ==
          s.released + |s.queue|
  {
    hide Release;
    StepKeepsShows(s, h, TrackerModel.Finish(t));
    var h', r := h[t := h[t].(done := true)], Complete(s, t);
    assert r.released < |h'| ==> !h'[r.released].done;
  }

  /** Entering or leaving a callback changes nothing but the goroutine's own record of it. */
  lemma SetCallFrame(st: State, g: Goroutine, call: Option<Callback>)
    ensures var st' := SetCall(st, g, call);
      && SamePlans(st, st') && st'.divisions == st.divisions && st'.slots == st.slots
      && (forall r :: 0 <= r < |st.sources| ==>
          st'.sources[r].ledger == st.sources[r].ledger && st'.sources[r].fired == st.sources[r].fired)
  {}

  lemma SamePlansTransitive(st: State, mid: State, st': State)
    requires SamePlans(st, mid) && SamePlans(mid, st')
    ensures SamePlans(st, st')
  {
    forall r | 0 <= r < |st.sources|
      ensures SamePlan(st.sources[r], st'.sources[r])
    {
      assert SamePlan(st.sources[r], mid.sources[r]) && SamePlan(mid.sources[r], st'.sources[r]);
    }
  }

  lemma RootBody(cfg: Config, st: State, g: Goroutine)
    requires Inv(cfg, st) && CallOf(st, g).Some? && CallOf(st, g).value.Root?
    ensures var c := CallOf(st, g).value; var st' := RanCallback(st, g);
      && SamePlans(st, st') && st'.divisions == st.divisions
      && c.source < |st.sources| && c.t < Registered(st.sources[c.source])
      && st'.sources[c.source].fired == st.sources[c.source].fired + {c.t}
      && (forall r :: 0 <= r < |st.sources| && r != c.source ==>
          st'.sources[r].ledger == st.sources[r].ledger && st'.sources[r].fired == st.sources[r].fired)
      && TrackerOk(st'.sources[c.source])
      && st'.slots - st.slots == |st'.sources[c.source].ledger.queue| - |st.sources[c.source].ledger.queue| <= 0
  {
    hide SourceOk, ExactOk, DivisionsOk, SlotsOk, ShardsOk, Complete, TrackerOk, SetCall;
    var c, st' := CallOf(st, g).value, RanCallback(st, g);
    InCallBy(st, g);
    RootLedger(cfg, st, c.source, c.t);
    TrackersOk(cfg, st);
    var mid := RunCallback(st, c).0;
    if c.t in st.sources[c.source].fired {
      assert st.sources[c.source].fired + {c.t} == st.sources[c.source].fired;
    }
    assert SamePlans(st, mid);
    SetCallFrame(mid, g, None);
    SamePlansTransitive(st, mid, st');
    CalledTracker(mid, st', c.source);
  }

  lemma RootExact(cfg: Config, st: State, g: Goroutine, x: Callback)
    requires Inv(cfg, st) && CallOf(st, g).Some? && CallOf(st, g).value.Root? && Known(st, x)
    ensures var st' := RanCallback(st, g); Done(st', x) || InCall(st', x) <==> Ripe(cfg, st', x)
  {
    hide SourceOk, SlotsOk, ShardsOk, RoleOf, Answered, CalledDirectly, InCall, SamePlans, RanCallback, DivisionsOk,
      TrackerOk;
    var c, st' := CallOf(st, g).value, RanCallback(st, g);
    RootBody(cfg, st, g);
    SamePlansKeep(cfg, st, st');
    CallMoves(st, g);
    MovedCalls(st, st', g, RunCallback(st, c).1, c);
    InCallBy(st, g);
    OriginIsRoot(x);
    assert Done(st, x) || InCall(st, x) <==> Ripe(cfg, st, x);
  }

  lemma RootStep(cfg: Config, st: State, g: Goroutine)
    requires Inv(cfg, st) && CallOf(st, g).Some? && CallOf(st, g).value.Root?
    ensures Inv(cfg, RanCallback(st, g))
  {
    hide SourceOk, RoleOf, RanCallback, ItemOk, Ripe, InCall, Done, TrackerOk;
    var c, st' := CallOf(st, g).value, RanCallback(st, g);
    RootBody(cfg, st, g);
    SamePlansKeep(cfg, st, st');
    TrackersOk(cfg, st);
    forall r | 0 <= r < |st'.sources|
      ensures SourceOk(cfg, st', r)
    {
      if r != c.source { CalledTracker(st, st', r); }
      SamePlanOk(cfg, st, st', r);
    }
    DivisionsKept(cfg, st, st');
    forall x | Known(st', x)
      ensures Done(st', x) || InCall(st', x) <==> Ripe(cfg, st', x)
    {
      RootExact(cfg, st, g, x);
    }
    CallMoves(st, g);
    forall h | CallOf(st', h).Some?
      ensures Known(st', CallOf(st', h).value)
    {
      assert h != g && CallOf(st', h) == CallOf(st, h);
    }
    RootSlots(st, st', c.source);
  }

  lemma RootSlots(st: State, st': State, s: nat)
    requires SamePlans(st, st') && s < |st.sources|
    requires forall r :: 0 <= r < |st.sources| && r != s ==> st'.sources[r].ledger == st.sources[r].ledger
    ensures Held(st'.sources) - Held(st.sources) == |st'.sources[s].ledger.queue| - |st.sources[s].ledger.queue|
  {
    var mid := st.sources[s := st'.sources[s]];
    HeldUpdate(st.sources, s, st'.sources[s]);
    forall r | 0 <= r < |mid|
      ensures |mid[r].ledger.queue| == |st'.sources[r].ledger.queue| && mid[r].pc.Joining? == st'.sources[r].pc.Joining?
    {
      assert SamePlan(st.sources[r], st'.sources[r]);
    }
    assert SamePlan(st.sources[s], st'.sources[s]);
    HeldSame(mid, st'.sources);
  }
}
