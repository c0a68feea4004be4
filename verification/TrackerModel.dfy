/** The offset tracker of `internal/progress/offsets.go`.

    `Ledger` is the value of one source's bookkeeping: a window of registered positions of which
    completed ones are released from the front.  It is proved against the history of every registration
    and completion that was ever made. */
module TrackerModel {

  datatype Pending = Pending(offset: int, done: bool)

  /** One source: `released` positions have left the queue, `queue` is the window still held,
      `offset`/`known` is what a snapshot shows. */
  datatype Ledger = Ledger(released: nat, queue: seq<Pending>, offset: int, known: bool)

  const EMPTY_LEDGER := Ledger(0, [], 0, false)

  /** The pop loop of the completion callback. */
  function Release(s: Ledger): Ledger
    decreases |s.queue|
  {
    if s.queue == [] || !s.queue[0].done then s
    else Release(Ledger(s.released + 1, s.queue[1..], s.queue[0].offset, true))
  }

  function Register(s: Ledger, offset: int): Ledger {
    s.(queue := s.queue + [Pending(offset, false)])
  }

  /** The completion of the `t`-th registration. A released position is never touched again. */
  function Complete(s: Ledger, t: nat): Ledger {
    if s.released <= t < s.released + |s.queue| then
      var i := t - s.released;
      Release(s.(queue := s.queue[i := s.queue[i].(done := true)]))
    else s
  }

  /** `n` is the length of the longest all-done prefix of a history. */
  ghost predicate LongestDonePrefix(h: seq<Pending>, n: nat) {
    && n <= |h|
    && (forall i :: 0 <= i < n ==> h[i].done)
    && (n < |h| ==> !h[n].done)
  }

  /** What a source must show for a history of registrations: the last offset of the longest
      all-done prefix, and a window holding exactly the rest. */
  ghost predicate Shows(s: Ledger, h: seq<Pending>) {
    Lags(s, h) && LongestDonePrefix(h, s.released)
  }

  /** `Shows` before the pop loop has run: some front items may already be done. */
  ghost predicate Lags(s: Ledger, h: seq<Pending>) {
    && s.released <= |h|
    && (forall i :: 0 <= i < s.released ==> h[i].done)
    && s.queue == h[s.released..]
    && s.known == (s.released > 0)
    && (s.known ==> s.offset == h[s.released - 1].offset)
  }

  lemma {:induction false} ReleaseCatchesUp(s: Ledger, h: seq<Pending>)
    requires Lags(s, h)
    ensures Shows(Release(s), h)
    decreases |s.queue|
  {
    if s.queue != [] && s.queue[0].done {
      assert s.queue[0] == h[s.released];
      ReleaseCatchesUp(Ledger(s.released + 1, s.queue[1..], s.queue[0].offset, true), h);
    }
  }

  datatype Op = Track(offset: int) | Finish(t: nat)

  ghost function RunLedger(ops: seq<Op>): Ledger {
    if ops == [] then EMPTY_LEDGER else
      var s := RunLedger(ops[..|ops| - 1]);
      match ops[|ops| - 1]
      case Track(offset) => Register(s, offset)
      case Finish(t) => Complete(s, t)
  }

  /** The history of the same calls, with no window and no release. */
  ghost function History(ops: seq<Op>): seq<Pending> {
    if ops == [] then [] else
      var h := History(ops[..|ops| - 1]);
      match ops[|ops| - 1]
      case Track(offset) => h + [Pending(offset, false)]
      case Finish(t) => if t < |h| then h[t := h[t].(done := true)] else h
  }

  /** One registration or completion keeps a source in step with its history. */
  lemma StepKeepsShows(s: Ledger, h: seq<Pending>, op: Op)
    requires Shows(s, h)
    ensures op.Track? ==> Shows(Register(s, op.offset), h + [Pending(op.offset, false)])
    ensures op.Finish? && op.t < |h| ==> Shows(Complete(s, op.t), h[op.t := h[op.t].(done := true)])
    ensures op.Finish? && op.t >= |h| ==> Complete(s, op.t) == s
  {
    match op
    case Track(offset) =>
      var h' := h + [Pending(offset, false)];
      assert h'[s.released..] == h[s.released..] + [Pending(offset, false)];
    case Finish(t) =>
      if t < |h| {
        var h' := h[t := h[t].(done := true)];
        if s.released <= t {
          var i := t - s.released;
          var s' := s.(queue := s.queue[i := s.queue[i].(done := true)]);
          assert s'.queue == h'[s.released..];
          ReleaseCatchesUp(s', h');
        } else {
          assert h' == h;
        }
      }
  }

  /** Whatever the order of registrations and completions, with repeated and unknown completions
      among them, a source shows the last offset of its longest completed prefix. */
  lemma {:induction false} LedgerShowsCompletedPrefix(ops: seq<Op>)
    ensures Shows(RunLedger(ops), History(ops))
  {
    if ops != [] {
      var last := |ops| - 1;
      LedgerShowsCompletedPrefix(ops[..last]);
      StepKeepsShows(RunLedger(ops[..last]), History(ops[..last]), ops[last]);
    }
  }

  ghost predicate Ascending(h: seq<Pending>) {
    forall i, j :: 0 <= i < j < |h| ==> h[i].offset <= h[j].offset
  }

  /** With registered offsets that never go down, the visible offset never goes down. */
  lemma VisibleOffsetNeverDecreases(ops: seq<Op>, op: Op)
    requires Ascending(History(ops + [op]))
    requires RunLedger(ops).known
    ensures RunLedger(ops + [op]).known && RunLedger(ops).offset <= RunLedger(ops + [op]).offset
  {
    var all := ops + [op];
    assert all[..|all| - 1] == ops;
    LedgerShowsCompletedPrefix(ops);
    LedgerShowsCompletedPrefix(all);
    var h, h' := History(ops), History(all);
    var n, n' := RunLedger(ops).released, RunLedger(all).released;
    assert |h| <= |h'|;
    assert forall i :: 0 <= i < |h| ==> h'[i].offset == h[i].offset && (h[i].done ==> h'[i].done);
    assert n' < |h'| ==> !h'[n'].done;
  }
}
