/** The mutable tracker of `internal/progress/offsets.go`. A registered position is named by its node and its number
    in that node's order of registration; the callback of the program holds a pointer to it instead. */
module TrackerObject {
  import opened TrackerModel

  type Node = string

  ghost predicate Holds(sources: map<Node, Ledger>, n: Node, t: nat) {
    n in sources && sources[n].released <= t < sources[n].released + |sources[n].queue|
  }

  /** `queued` names exactly the positions that sit in some node's queue. */
  ghost predicate Window(sources: map<Node, Ledger>, queued: set<(Node, nat)>) {
    forall n, t: nat :: (n, t) in queued <==> Holds(sources, n, t)
  }

  ghost predicate InStep(sources: map<Node, Ledger>, history: map<Node, seq<Pending>>) {
    && history.Keys == sources.Keys
    && forall n :: n in sources ==> Shows(sources[n], history[n])
  }

  lemma WindowGrows(sources: map<Node, Ledger>, queued: set<(Node, nat)>, n: Node, s: Ledger, offset: int)
    requires Window(sources, queued) && s == if n in sources then sources[n] else EMPTY_LEDGER
    ensures var t := s.released + |s.queue|;
            (n, t) !in queued && Window(sources[n := Register(s, offset)], queued + {(n, t)})
  {
    assert !Holds(sources, n, s.released + |s.queue|);
  }

  lemma WindowShrinks(sources: map<Node, Ledger>, queued: set<(Node, nat)>, n: Node, s: Ledger)
    requires Window(sources, queued) && n in sources && sources[n].queue != []
    requires s == sources[n].(released := sources[n].released + 1, queue := sources[n].queue[1..], offset := s.offset, known := s.known)
    ensures var t := sources[n].released;
            (n, t) in queued && Window(sources[n := s], queued - {(n, t)})
  {
    assert Holds(sources, n, sources[n].released);
  }

  lemma WindowKept(sources: map<Node, Ledger>, queued: set<(Node, nat)>, n: Node, s: Ledger)
    requires Window(sources, queued) && n in sources
    requires s.released == sources[n].released && |s.queue| == |sources[n].queue|
    ensures Window(sources[n := s], queued)
  {
    forall m, t: nat
      ensures Holds(sources[n := s], m, t) <==> Holds(sources, m, t)
    {}
  }

  class Tracker {
    const limit: nat
    var sources: map<Node, Ledger>
    var slots: nat
    /** Every registration ever made, and whether it has been completed. */
    ghost var history: map<Node, seq<Pending>>
    /** Calls of Track between taking a slot and joining the queue. */
    ghost var joining: nat
    /** The registrations that are still queued, over all sources. */
    ghost var queued: set<(Node, nat)>

    /** Every taken slot is a queued registration or a Track about to become one. */
    ghost predicate Counted()
      reads this
    {
      Window(sources, queued) && slots == joining + |queued| && slots <= limit
    }

    ghost predicate Valid()
      reads this
    {
      Counted() && InStep(sources, history)
    }

    constructor (limit: nat)
      ensures Valid() && sources == map[] && history == map[] && slots == 0 && joining == 0 && this.limit == limit
    {
      this.limit := limit;
      sources, history, slots, joining, queued := map[], map[], 0, 0, {};
    }

    ghost function LedgerOf(n: Node): Ledger
      reads this
    {
      if n in sources then sources[n] else EMPTY_LEDGER
    }

    ghost function PastOf(n: Node): seq<Pending>
      reads this
    {
      if n in history then history[n] else []
    }

    /** The select at the head of Track. A full window with a live context blocks, so the call
        returns only if there is room or the context is done; with both, either arm may win. */
    method Acquire(cancelled: bool, cancelWins: bool) returns (ok: bool)
      requires Valid()
      requires slots < limit || cancelled
      modifies this`slots, this`joining
      ensures Valid()
      ensures ok <==> old(slots) < limit && !(cancelled && cancelWins)
      ensures slots == old(slots) + (if ok then 1 else 0)
      ensures joining == old(joining) + (if ok then 1 else 0)
    {
      ok := slots < limit && !(cancelled && cancelWins);
      if ok {
        slots, joining := slots + 1, joining + 1;
      }
    }

    /** The locked part of Track: the position joins the end of its node's queue. */
    method Enqueue(node: Node, offset: int) returns (c: Completion)
      requires Valid() && joining > 0
      modifies this`sources, this`history, this`joining, this`queued
      ensures Valid() && joining == old(joining) - 1
      ensures sources == old(sources)[node := Register(old(LedgerOf(node)), offset)]
      ensures history == old(history)[node := old(PastOf(node)) + [Pending(offset, false)]]
      ensures fresh(c) && c.tracker == this && c.node == node && c.t == |old(PastOf(node))| && !c.fired
    {
      var s := if node in sources then sources[node] else EMPTY_LEDGER;
      ghost var h := PastOf(node);
      ghost var t := s.released + |s.queue|;
      StepKeepsShows(s, h, Op.Track(offset));
      WindowGrows(sources, queued, node, s, offset);
      sources := sources[node := Register(s, offset)];
      history := history[node := h + [Pending(offset, false)]];
      joining, queued := joining - 1, queued + {(node, t)};
      c := new Completion(this, node, s.released + |s.queue|);
    }

    /** Track as a whole: nothing is registered when the context wins. */
    method Track(cancelled: bool, cancelWins: bool, node: Node, offset: int) returns (c: Completion?)
      requires Valid()
      requires slots < limit || cancelled
      modifies this
      ensures Valid() && joining == old(joining)
      ensures (c == null) == (old(slots) == limit || (cancelled && cancelWins))
      ensures c == null ==> slots == old(slots) && sources == old(sources) && history == old(history)
      ensures c != null ==>
        && slots == old(slots) + 1
        && sources == old(sources)[node := Register(old(LedgerOf(node)), offset)]
        && history == old(history)[node := old(PastOf(node)) + [Pending(offset, false)]]
        && fresh(c) && c.tracker == this && c.node == node && c.t == |old(PastOf(node))| && !c.fired
    {
      var ok := Acquire(cancelled, cancelWins);
      if !ok { return null; }
      c := Enqueue(node, offset);
    }

    /** The pop loop of the callback. Taking a slot back never blocks: one is always held for the
        position that leaves the queue. */
    method PopDone(node: Node)
      requires node in sources && Counted()
      modifies this`sources, this`slots, this`queued
      ensures sources == old(sources)[node := Release(old(sources[node]))]
      ensures Counted() && slots == old(slots) - (sources[node].released - old(sources[node].released))
    {
      var s := sources[node];
      while s.queue != [] && s.queue[0].done
        invariant sources == old(sources)[node := s] && Counted()
        invariant Release(s) == Release(old(sources[node]))
        invariant slots == old(slots) - (s.released - old(sources[node].released))
        decreases |s.queue|
      {
        var s' := Ledger(s.released + 1, s.queue[1..], s.queue[0].offset, true);
        WindowShrinks(sources, queued, node, s');
        queued := queued - {(node, s.released)};
        s := s';
        sources := sources[node := s];
        slots := slots - 1;
      }
    }

    /** The guarded body of the callback: mark, then pop. */
    method Finish(node: Node, t: nat)
      requires Valid() && node in history && t < |history[node]| && !history[node][t].done
      modifies this`sources, this`history, this`slots, this`queued
      ensures Valid()
      ensures sources == old(sources)[node := Complete(old(sources[node]), t)]
      ensures history == old(history)[node := old(history[node])[t := old(history[node][t]).(done := true)]]
      ensures slots == old(slots) - (sources[node].released - old(sources[node].released))
    {
      var s := sources[node];
      ghost var h := history[node];
      StepKeepsShows(s, h, Op.Finish(t));
      var i := t - s.released;
      var marked := s.(queue := s.queue[i := s.queue[i].(done := true)]);
      WindowKept(sources, queued, node, marked);
      history := history[node := h[t := h[t].(done := true)]];
      sources := sources[node := marked];
      PopDone(node);
      assert sources == old(sources)[node := Release(marked)];
    }

    /** The positions shown to a reader of the snapshot are those of completed prefixes. */
    method Snapshot() returns (shown: map<Node, int>)
      requires Valid()
      ensures forall n, k: nat :: n in history && LongestDonePrefix(history[n], k) ==>
        (n in shown <==> k > 0) && (k > 0 ==> shown[n] == history[n][k - 1].offset)
    {
      shown := map n | n in sources && sources[n].known :: sources[n].offset;
    }
  }

  /** The closure that Track returns. */
  class Completion {
    const tracker: Tracker
    const node: Node
    const t: nat
    var fired: bool

    constructor (tracker: Tracker, node: Node, t: nat)
      ensures this.tracker == tracker && this.node == node && this.t == t && !fired
    {
      this.tracker, this.node, this.t := tracker, node, t;
      fired := false;
    }

    ghost predicate Attached()
      reads this, tracker
    {
      && node in tracker.history && t < |tracker.history[node]|
      && fired == tracker.history[node][t].done
    }

    /** Running the callback completes its registration once; later runs change nothing. The window
        gives back exactly the slots of the positions that left the queue. */
    method Call()
      requires tracker.Valid() && Attached()
      modifies this, tracker
      ensures tracker.Valid() && Attached() && fired && tracker.joining == old(tracker.joining)
      ensures tracker.sources == old(tracker.sources)[node := Complete(old(tracker.sources[node]), t)]
      ensures tracker.history ==
          old(tracker.history)[node := old(tracker.history[node])[t := old(tracker.history[node][t]).(done := true)]]
      ensures tracker.slots ==
          old(tracker.slots) - (tracker.sources[node].released - old(tracker.sources[node].released))
      ensures old(fired) ==> tracker.slots == old(tracker.slots) && tracker.sources == old(tracker.sources)
    {
      if fired {
        AlreadyDone(tracker.sources[node], tracker.history[node], t);
      } else {
        fired := true;
        tracker.Finish(node, t);
      }
    }
  }

  /** Completing a completed registration again changes neither the source nor its history. */
  lemma AlreadyDone(s: Ledger, h: seq<Pending>, t: nat)
    requires Shows(s, h) && t < |h| && h[t].done
    ensures h[t := h[t].(done := true)] == h && Complete(s, t) == s
  {
    if s.released <= t {
      var i := t - s.released;
      assert s.queue[i := s.queue[i].(done := true)] == s.queue;
      assert s.queue[0] == h[s.released];
    }
  }
}
