/** The standalone writer of `internal/writer/redis_standalone_writer.go`: the send goroutine, the
    reply goroutine, the connection and the server between them, as a state machine whose steps are
    the single channel, counter and socket operations. */
module StandaloneWriter {

  /** An entry handed to `Write`. A transformed entry may itself be a SELECT of `target`. */
  datatype Entry = Entry(id: nat, db: int, size: nat, select: bool, target: int)

  /** What goes over the wire: the writer's own database switch, or an entry. */
  datatype Cmd = Switch(db: int) | Data(e: Entry)

  /** The send goroutine. `Cleared` has left the byte-window loop, `Queued` has put the entry on the
      wait-reply channel, `Counted` has added its bytes. */
  datatype Sender = Idle | Switched(e: Entry) | Ready(e: Entry) | Cleared(e: Entry) | Queued(e: Entry)
      | Counted(e: Entry)

  /** The reply goroutine. */
  datatype Receiver = Waiting | Took(cmd: Cmd) | Got(cmd: Cmd) | Settled(cmd: Cmd)

  /** `queue` is all that was ever put on the wait-reply channel, of which `taken` were taken out;
      `wire` all that was ever written, of which `flushed` left the buffer, `executed` were executed
      and answered, and `received` answers were read. */
  datatype State = State(
    inbox: seq<Entry>, accepted: seq<Entry>,
    db: int, sender: Sender,
    queue: seq<Cmd>, taken: nat,
    wire: seq<Cmd>, flushed: nat, executed: nat, serverDb: int, ranIn: seq<int>,
    receiver: Receiver, received: nat,
    bytes: int, acked: seq<Entry>)

  const INITIAL := State([], [], 0, Idle, [], 0, [], 0, 0, 0, [], Waiting, 0, 0, [])

  datatype Step =
    | Accept(e: Entry) | Begin | Mark | PassWindow | Enqueue | Count | WriteOut | Flush(n: nat)
    | Execute | Take | Receive | Settle | Notify

  predicate IsSelect(c: Cmd) { c.Switch? || c.e.select }

  function SizeOf(c: Cmd): nat { if c.Data? then c.e.size else 0 }

  /** The database a connection is in after a command. */
  function Selects(c: Cmd, db: int): int {
    if c.Switch? then c.db else if c.e.select then c.e.target else db
  }

  predicate Enabled(limit: nat, st: State, step: Step) {
    match step
    case Accept(e) => e.size > 0
    case Begin => st.sender.Idle? && st.inbox != []
    case Mark => st.sender.Switched?
    // The loop that waits while there are unanswered bytes and the entry would exceed the limit.
    case PassWindow => st.sender.Ready? && !(st.bytes > 0 && st.sender.e.size + st.bytes > limit)
    case Enqueue => st.sender.Cleared?
    case Count => st.sender.Queued?
    case WriteOut => st.sender.Counted?
    case Flush(n) => st.flushed <= n <= |st.wire|
    case Execute => st.executed < st.flushed && st.flushed <= |st.wire|
    case Take => st.receiver.Waiting? && st.taken < |st.queue|
    case Receive => st.receiver.Took? && st.received < st.executed
    case Settle => st.receiver.Got?
    case Notify => st.receiver.Settled? && st.receiver.cmd.Data?
  }

  function Next(limit: nat, st: State, step: Step): State
    requires Enabled(limit, st, step)
  {
    match step
    case Accept(e) => st.(inbox := st.inbox + [e], accepted := st.accepted + [e])
    case Begin =>
      var e := st.inbox[0];
      if st.db != e.db then
        st.(inbox := st.inbox[1..], wire := st.wire + [Switch(e.db)], flushed := |st.wire| + 1,
            db := e.db, sender := Switched(e))
      else st.(inbox := st.inbox[1..], sender := Ready(e))
    case Mark => st.(queue := st.queue + [Switch(st.db)], sender := Ready(st.sender.e))
    case PassWindow => st.(sender := Cleared(st.sender.e))
    case Enqueue => st.(queue := st.queue + [Data(st.sender.e)], sender := Queued(st.sender.e))
    case Count => st.(bytes := st.bytes + st.sender.e.size, sender := Counted(st.sender.e))
    case WriteOut => st.(wire := st.wire + [Data(st.sender.e)], sender := Idle)
    case Flush(n) => st.(flushed := n)
    case Execute =>
      var c := st.wire[st.executed];
      st.(executed := st.executed + 1, ranIn := st.ranIn + [st.serverDb], serverDb := Selects(c, st.serverDb))
    case Take => st.(taken := st.taken + 1, receiver := Took(st.queue[st.taken]))
    case Receive => st.(received := st.received + 1, receiver := Got(st.receiver.cmd))
    case Settle =>
      var c := st.receiver.cmd;
      if IsSelect(c) then st.(receiver := Waiting)
      else st.(bytes := st.bytes - SizeOf(c), receiver := Settled(c))
    case Notify => st.(acked := st.acked + [st.receiver.cmd.e], receiver := Waiting)
  }

  ghost predicate IsRun(limit: nat, steps: seq<Step>)
    decreases |steps|, 0
  {
    steps == [] ||
    (IsRun(limit, steps[..|steps| - 1]) && Enabled(limit, After(limit, steps[..|steps| - 1]), steps[|steps| - 1]))
  }

  ghost function After(limit: nat, steps: seq<Step>): State
    requires IsRun(limit, steps)
    decreases |steps|, 1
  {
    if steps == [] then INITIAL
    else Next(limit, After(limit, steps[..|steps| - 1]), steps[|steps| - 1])
  }

  // ----- measures of a command sequence, all read from its end -----

  ghost function Entries(s: seq<Cmd>): seq<Entry> {
    if s == [] then [] else
      var c := s[|s| - 1];
      Entries(s[..|s| - 1]) + (if c.Data? then [c.e] else [])
  }

  /** Entries whose answer is reported: all but a SELECT. */
  ghost function Reported(s: seq<Cmd>): seq<Entry> {
    if s == [] then [] else
      var c := s[|s| - 1];
      Reported(s[..|s| - 1]) + (if IsSelect(c) then [] else [c.e])
  }

  ghost function Bytes(s: seq<Cmd>): nat {
    if s == [] then 0 else Bytes(s[..|s| - 1]) + SizeOf(s[|s| - 1])
  }

  /** Bytes of entries that are themselves a SELECT: added when sent, never taken off. */
  ghost function SelectBytes(s: seq<Cmd>): nat {
    if s == [] then 0 else
      SelectBytes(s[..|s| - 1]) + (if IsSelect(s[|s| - 1]) then SizeOf(s[|s| - 1]) else 0)
  }

  /** The database after a sequence of commands, as the server sees it. */
  ghost function DbAfter(s: seq<Cmd>): int {
    if s == [] then 0 else Selects(s[|s| - 1], DbAfter(s[..|s| - 1]))
  }

  /** The database the writer believes it is in. */
  ghost function Believed(s: seq<Cmd>): int {
    if s == [] then 0
    else if s[|s| - 1].Switch? then s[|s| - 1].db
    else Believed(s[..|s| - 1])
  }

  lemma Appended(s: seq<Cmd>, c: Cmd)
    ensures Entries(s + [c]) == Entries(s) + (if c.Data? then [c.e] else [])
    ensures Reported(s + [c]) == Reported(s) + (if IsSelect(c) then [] else [c.e])
    ensures Bytes(s + [c]) == Bytes(s) + SizeOf(c)
    ensures SelectBytes(s + [c]) == SelectBytes(s) + (if IsSelect(c) then SizeOf(c) else 0)
    ensures DbAfter(s + [c]) == Selects(c, DbAfter(s))
    ensures Believed(s + [c]) == if c.Switch? then c.db else Believed(s)
  {
    assert (s + [c])[..|s + [c]| - 1] == s;
  }

  /** One more element of a prefix. */
  lemma PrefixGrows(s: seq<Cmd>, n: nat)
    requires n < |s|
    ensures s[..n + 1] == s[..n] + [s[n]]
  {}

  // ----- the invariant -----

  /** The wire and the wait-reply channel hold the same commands in the same order; each may be one
      ahead of the other while the sender is between its two operations. */
  ghost predicate Paired(st: State) {
    match st.sender
    case Switched(e) => st.wire == st.queue + [Switch(st.db)]
    case Queued(e) => st.queue == st.wire + [Data(e)]
    case Counted(e) => st.queue == st.wire + [Data(e)]
    case _ => st.queue == st.wire
  }

  ghost predicate Counters(st: State) {
    && st.received <= st.executed <= st.flushed <= |st.wire|
    && st.taken <= |st.queue|
    && st.taken == st.received + (if st.receiver.Took? then 1 else 0)
    && (!st.receiver.Waiting? ==> st.taken > 0 && st.receiver.cmd == st.queue[st.taken - 1])
    && (st.receiver.Settled? ==> !IsSelect(st.receiver.cmd))
    && |st.ranIn| == st.executed
  }

  ghost function Held(sender: Sender): seq<Entry> {
    match sender
    case Switched(e) => [e]
    case Ready(e) => [e]
    case Cleared(e) => [e]
    case _ => []
  }

  /** Nothing accepted is lost, doubled or overtaken. */
  ghost predicate Fifo(st: State) {
    st.accepted == Entries(st.queue) + Held(st.sender) + st.inbox
  }

  /** How much of the channel has been dealt with: bytes settled, and callbacks run. */
  ghost function SettledCount(st: State): int {
    if st.receiver.Took? || st.receiver.Got? then st.taken - 1 else st.taken
  }

  ghost function NotifiedCount(st: State): int {
    if st.receiver.Waiting? then st.taken else st.taken - 1
  }

  ghost predicate Accounted(st: State)
    requires Counters(st)
  {
    && st.acked == Reported(st.queue[..NotifiedCount(st)])
    && st.bytes + (if st.sender.Queued? then st.sender.e.size else 0)
       == Bytes(st.queue) - Bytes(st.queue[..SettledCount(st)]) + SelectBytes(st.queue[..SettledCount(st)])
  }

  ghost predicate Databases(st: State)
    requires Counters(st)
  {
    && st.db == Believed(st.wire)
    && (st.sender.Idle? || st.db == st.sender.e.db)
    && (forall m :: 0 <= m < |st.wire| && st.wire[m].Data? ==> Believed(st.wire[..m]) == st.wire[m].e.db)
    && st.serverDb == DbAfter(st.wire[..st.executed])
    && (forall m :: 0 <= m < st.executed ==> st.ranIn[m] == DbAfter(st.wire[..m]))
  }

  /** Size of the entry counted last. */
  ghost function LastSize(s: seq<Cmd>): nat {
    if s == [] then 0 else if s[|s| - 1].Data? then s[|s| - 1].e.size else LastSize(s[..|s| - 1])
  }

  ghost function CountedQueue(st: State): seq<Cmd> {
    if st.sender.Queued? && st.queue != [] then st.queue[..|st.queue| - 1] else st.queue
  }

  ghost predicate Bounded(limit: nat, st: State) {
    && st.bytes >= 0
    && (st.bytes <= limit || st.bytes <= LastSize(CountedQueue(st)))
    && (st.sender.Cleared? || st.sender.Queued? ==> st.bytes == 0 || st.bytes + st.sender.e.size <= limit)
  }

  ghost predicate Inv(limit: nat, st: State) {
    Paired(st) && Counters(st) && Fifo(st) && Accounted(st) && Databases(st) && Bounded(limit, st) &&
    (forall c :: c in st.queue && c.Data? ==> c.e.size > 0)
        && (forall e :: e in Held(st.sender) + st.inbox ==> e.size > 0)
  }

  // ----- every step keeps it -----

  lemma {:induction false} BytesOfPrefix(s: seq<Cmd>, n: nat)
    requires n <= |s|
    ensures Bytes(s[..n]) <= Bytes(s)
  {
    if n < |s| {
      BytesOfPrefix(s[..|s| - 1], n);
      assert s[..|s| - 1][..n] == s[..n];
    } else {
      assert s[..n] == s;
    }
  }

  lemma QueueGrows(st: State, st': State, c: Cmd)
    requires Counters(st) && st'.queue == st.queue + [c]
    ensures forall n :: 0 <= n <= |st.queue| ==> st'.queue[..n] == st.queue[..n]
    ensures Entries(st'.queue) == Entries(st.queue) + (if c.Data? then [c.e] else [])
    ensures Bytes(st'.queue) == Bytes(st.queue) + SizeOf(c)
    ensures st'.queue[..|st.queue|] == st.queue
  {
    Appended(st.queue, c);
  }

  lemma WireGrows(limit: nat, st: State, st': State, c: Cmd)
    requires Inv(limit, st) && st'.wire == st.wire + [c] && st'.ranIn == st.ranIn && st'.executed == st.executed
    requires st'.serverDb == st.serverDb
    requires Counters(st') && st'.db == (if c.Switch? then c.db else st.db)
    requires st'.sender.Idle? || st'.db == st'.sender.e.db
    requires c.Data? ==> c.e.db == st.db
    ensures Databases(st')
  {
    Appended(st.wire, c);
    assert forall m :: 0 <= m <= |st.wire| ==> st'.wire[..m] == st.wire[..m];
    assert st.wire[..|st.wire|] == st.wire;
  }

  lemma DatabasesSame(st: State, st': State)
    requires Counters(st) && Databases(st) && Counters(st')
    requires st'.wire == st.wire && st'.db == st.db && st'.ranIn == st.ranIn && st'.executed == st.executed
    requires st'.serverDb == st.serverDb
    requires st'.sender.Idle? || st'.db == st'.sender.e.db
    ensures Databases(st')
  {
    hide DbAfter, Believed;
  }

  /** One more command on the wait-reply channel, its bytes still to be counted. */
  lemma QueueAccounted(st: State, st': State, c: Cmd)
    requires Counters(st) && Accounted(st) && Counters(st')
    requires st'.queue == st.queue + [c] && st'.taken == st.taken && st'.receiver == st.receiver
    requires st'.acked == st.acked && st'.bytes == st.bytes
    requires !st.sender.Queued? && SizeOf(c) == if st'.sender.Queued? then st'.sender.e.size else 0
    ensures Accounted(st')
  {
    hide Reported, Bytes, SelectBytes, Entries;
    QueueGrows(st, st', c);
  }

  lemma LastSizeAppended(s: seq<Cmd>, c: Cmd)
    ensures LastSize(s + [c]) == if c.Data? then c.e.size else LastSize(s)
  {
    assert (s + [c])[..|s|] == s;
  }

  lemma DatabasesOf(limit: nat, st: State)
    requires Inv(limit, st)
    ensures Counters(st) && Databases(st) && Accounted(st) && (st.sender.Idle? || st.db == st.sender.e.db)
  {
    hide DbAfter, Believed, Reported, Bytes, SelectBytes, Entries, LastSize;
  }

  lemma AccountedSame(st: State, st': State)
    requires Counters(st) && Accounted(st) && Counters(st')
    requires st'.queue == st.queue && st'.taken == st.taken && st'.receiver == st.receiver && st'.acked == st.acked
    requires st'.bytes == st.bytes
    requires !st.sender.Queued? && !st'.sender.Queued?
    ensures Accounted(st')
  {
    hide Reported, Bytes, SelectBytes;
  }

  lemma BeginKeeps(limit: nat, st: State)
    requires Inv(limit, st) && Enabled(limit, st, Begin)
    ensures Inv(limit, Next(limit, st, Begin))
  {
    hide Entries, Reported, Bytes, SelectBytes, DbAfter, Believed, LastSize, Databases, Accounted;
    var st' := Next(limit, st, Begin);
    var e := st.inbox[0];
    assert [e] + st.inbox[1..] == st.inbox;
    assert forall x :: x in st'.inbox ==> x in st.inbox;
    assert Fifo(st');
    DatabasesOf(limit, st);
    AccountedSame(st, st');
    if st.db != e.db { WireGrows(limit, st, st', Switch(e.db)); } else { DatabasesSame(st, st'); }
  }

  lemma MarkKeeps(limit: nat, st: State)
    requires Inv(limit, st) && Enabled(limit, st, Mark)
    ensures Inv(limit, Next(limit, st, Mark))
  {
    hide Entries, Reported, Bytes, SelectBytes, DbAfter, Believed, LastSize;
    hide Databases, Accounted;
    var st' := Next(limit, st, Mark);
    DatabasesOf(limit, st);
    QueueGrows(st, st', Switch(st.db));
    LastSizeAppended(st.queue, Switch(st.db));
    assert Fifo(st');
    QueueAccounted(st, st', Switch(st.db));
    DatabasesSame(st, st');
  }

  lemma EnqueueKeeps(limit: nat, st: State)
    requires Inv(limit, st) && Enabled(limit, st, Enqueue)
    ensures Inv(limit, Next(limit, st, Enqueue))
  {
    hide Entries, Reported, Bytes, SelectBytes, DbAfter, Believed, LastSize;
    hide Databases, Accounted;
    var st' := Next(limit, st, Enqueue);
    DatabasesOf(limit, st);
    QueueGrows(st, st', Data(st.sender.e));
    assert CountedQueue(st') == st.queue;
    assert st.sender.e in Held(st.sender) + st.inbox;
    assert st'.accepted == Entries(st'.queue) + Held(st'.sender) + st'.inbox;
    QueueAccounted(st, st', Data(st.sender.e));
    DatabasesSame(st, st');
  }

  lemma CountKeeps(limit: nat, st: State)
    requires Inv(limit, st) && Enabled(limit, st, Count)
    ensures Inv(limit, Next(limit, st, Count))
  {
    hide Entries, Reported, Bytes, SelectBytes, DbAfter, Believed, LastSize;
    LastSizeAppended(st.wire, Data(st.sender.e));
  }

  lemma WriteOutKeeps(limit: nat, st: State)
    requires Inv(limit, st) && Enabled(limit, st, WriteOut)
    ensures Inv(limit, Next(limit, st, WriteOut))
  {
    hide Entries, Reported, Bytes, SelectBytes, DbAfter, Believed, LastSize, Databases, Accounted;
    var st' := Next(limit, st, WriteOut);
    DatabasesOf(limit, st);
    AccountedSame(st, st');
    WireGrows(limit, st, st', Data(st.sender.e));
  }

  lemma ExecuteKeeps(limit: nat, st: State)
    requires Inv(limit, st) && Enabled(limit, st, Execute)
    ensures Inv(limit, Next(limit, st, Execute))
  {
    hide Entries, Reported, Bytes, SelectBytes, DbAfter, Believed, LastSize;
    PrefixGrows(st.wire, st.executed);
    Appended(st.wire[..st.executed], st.wire[st.executed]);
  }

  /** The channel elements taken are never ahead of the wire by more than the one being waited for. */
  lemma SettledIsWritten(st: State)
    requires Paired(st) && Counters(st)
    ensures 0 <= SettledCount(st) <= st.received <= |st.wire|
  {}

  lemma SettleKeeps(limit: nat, st: State)
    requires Inv(limit, st) && Enabled(limit, st, Settle)
    ensures Inv(limit, Next(limit, st, Settle))
  {
    hide Entries, Reported, Bytes, SelectBytes, DbAfter, Believed, LastSize;
    var st' := Next(limit, st, Settle);
    var n := st.taken - 1;
    PrefixGrows(st.queue, n);
    Appended(st.queue[..n], st.queue[n]);
    NonNegative(limit, st');
  }

  /** Taking bytes off never goes below zero: the entry answered was counted before it was sent. */
  lemma NonNegative(limit: nat, st: State)
    requires Paired(st) && Counters(st) && Accounted(st)
    ensures st.bytes >= 0
  {
    SettledIsWritten(st);
    var n := SettledCount(st);
    if st.sender.Queued? {
      var rest := st.queue[..|st.queue| - 1];
      assert rest == st.wire && st.queue == rest + [Data(st.sender.e)];
      Appended(rest, Data(st.sender.e));
      assert st.queue[..n] == rest[..n];
      BytesOfPrefix(rest, n);
    } else {
      BytesOfPrefix(st.queue, n);
    }
  }

  lemma NotifyKeeps(limit: nat, st: State)
    requires Inv(limit, st) && Enabled(limit, st, Notify)
    ensures Inv(limit, Next(limit, st, Notify))
  {
    hide Entries, Reported, Bytes, SelectBytes, DbAfter, Believed, LastSize;
    var n := st.taken - 1;
    PrefixGrows(st.queue, n);
    Appended(st.queue[..n], st.queue[n]);
  }

  lemma StepKeepsInv(limit: nat, st: State, step: Step)
    requires Inv(limit, st) && Enabled(limit, st, step)
    ensures Inv(limit, Next(limit, st, step))
  {
    hide Entries, Reported, Bytes, SelectBytes, DbAfter, Believed, LastSize;
    match step
    case Accept(e) => assert st.accepted + [e] == Entries(st.queue) + Held(st.sender) + (st.inbox + [e]);
    case Begin => BeginKeeps(limit, st);
    case Mark => MarkKeeps(limit, st);
    case PassWindow =>
    case Enqueue => EnqueueKeeps(limit, st);
    case Count => CountKeeps(limit, st);
    case WriteOut => WriteOutKeeps(limit, st);
    case Flush(_) =>
    case Execute => ExecuteKeeps(limit, st);
    case Take =>
    case Receive =>
    case Settle => SettleKeeps(limit, st);
    case Notify => NotifyKeeps(limit, st);
  }

  lemma {:induction false} RunKeepsInv(limit: nat, steps: seq<Step>)
    requires IsRun(limit, steps)
    ensures Inv(limit, After(limit, steps))
  {
    hide Inv, Next, Enabled, Fresh;
    if steps == [] {
      InitialIsFresh();
      FreshInv(limit, INITIAL);
    } else {
      var before := steps[..|steps| - 1];
      RunKeepsInv(limit, before);
      StepKeepsInv(limit, After(limit, before), steps[|steps| - 1]);
    }
  }

  lemma NothingYet(s: seq<Cmd>)
    requires s == []
    ensures Entries(s) == [] && Reported(s) == [] && Bytes(s) == 0 && SelectBytes(s) == 0 && DbAfter(s) == 0
    ensures Believed(s) == 0
  {}

  ghost predicate Fresh(st: State) {
    st.inbox == [] && st.accepted == [] && st.db == 0 && st.sender.Idle? && st.queue == [] && st.taken == 0
        && st.wire == []
    && st.flushed == 0 && st.executed == 0 && st.serverDb == 0 && st.ranIn == [] && st.receiver.Waiting?
    && st.received == 0
    && st.bytes == 0 && st.acked == []
  }

  lemma FreshInv(limit: nat, st: State)
    requires Fresh(st)
    ensures Inv(limit, st)
  {
    hide Entries, Reported, Bytes, SelectBytes, DbAfter, Believed, LastSize;
    NothingYet(st.queue);
    assert st.queue[..0] == st.queue;
  }

  lemma InitialIsFresh()
    ensures Fresh(INITIAL)
  {}

  // ----- what holds in every state of every run -----

  /** The answer in hand belongs to the command it is matched with, and that command has been
      executed. */
  lemma RepliesMatch(limit: nat, steps: seq<Step>)
    requires IsRun(limit, steps) && (After(limit, steps).receiver.Got? || After(limit, steps).receiver.Settled?)
    ensures var st := After(limit, steps);
      0 < st.received <= st.executed <= |st.wire| && st.receiver.cmd == st.wire[st.received - 1]
  {
    hide Entries, Reported, Bytes, SelectBytes, DbAfter, Believed, LastSize, Plain, After, IsRun;
    RunKeepsInv(limit, steps);
  }

  ghost function Plain(entries: seq<Entry>): seq<Entry> {
    if entries == [] then [] else
      var e := entries[|entries| - 1];
      Plain(entries[..|entries| - 1]) + (if e.select then [] else [e])
  }

  lemma {:induction false} PlainConcat(a: seq<Entry>, b: seq<Entry>)
    ensures Plain(a + b) == Plain(a) + Plain(b)
  {
    if b == [] {
      assert a + b == a;
    } else {
      var n := |b| - 1;
      PlainConcat(a, b[..n]);
      assert (a + b)[..|a + b| - 1] == a + b[..n];
    }
  }

  lemma {:induction false} ReportedIsPlain(s: seq<Cmd>)
    ensures Reported(s) == Plain(Entries(s))
  {
    if s != [] {
      var n := |s| - 1;
      ReportedIsPlain(s[..n]);
      if s[n].Data? {
        PlainConcat(Entries(s[..n]), [s[n].e]);
        assert Plain([s[n].e]) == (if s[n].e.select then [] else [s[n].e]) by { assert [s[n].e][..0] == []; }
      } else {
        assert Entries(s[..n]) + [] == Entries(s[..n]);
      }
    }
  }

  lemma {:induction false} EntriesConcat(a: seq<Cmd>, b: seq<Cmd>)
    ensures Entries(a + b) == Entries(a) + Entries(b) && Bytes(a + b) == Bytes(a) + Bytes(b)
  {
    if b == [] {
      assert a + b == a;
    } else {
      var n := |b| - 1;
      EntriesConcat(a, b[..n]);
      assert (a + b)[..|a + b| - 1] == a + b[..n];
    }
  }

  /** Callbacks run in the order in which entries were handed to the writer, skipping only entries
      that are a SELECT, and only for commands the server has executed. */
  lemma AcknowledgedInOrder(limit: nat, steps: seq<Step>)
    requires IsRun(limit, steps)
    ensures var st := After(limit, steps);
      && st.acked <= Plain(st.accepted)
      && 0 <= NotifiedCount(st) <= st.executed <= |st.wire|
      && st.acked == Plain(Entries(st.wire[..NotifiedCount(st)]))
  {
    hide Entries, Reported, Bytes, SelectBytes, DbAfter, Believed, LastSize, Plain, After, IsRun;
    RunKeepsInv(limit, steps);
    var st := After(limit, steps);
    var n := NotifiedCount(st);
    SettledIsWritten(st);
    ReportedIsPlain(st.queue[..n]);
    assert st.queue[..n] == st.wire[..n];
    assert st.queue == st.queue[..n] + st.queue[n..];
    EntriesConcat(st.queue[..n], st.queue[n..]);
    var rest := Entries(st.queue[n..]) + Held(st.sender) + st.inbox;
    assert st.accepted == Entries(st.queue[..n]) + rest;
    PlainConcat(Entries(st.queue[..n]), rest);
  }

  // ----- databases -----

  /** Every executed entry ran in its own database. */
  ghost predicate AllInOwnDb(st: State) {
    st.executed <= |st.wire| && |st.ranIn| == st.executed &&
    forall m :: 0 <= m < st.executed && st.wire[m].Data? ==> st.ranIn[m] == st.wire[m].e.db
  }

  /** An entry that is a SELECT of another database is not directly followed, on the wire, by an entry that
      relies on the writer's belief about the current one. */
  ghost predicate NoStraySelect(w: seq<Cmd>) {
    forall m :: 0 < m < |w| && w[m - 1].Data? && w[m].Data? && w[m - 1].e.select ==> w[m - 1].e.target == w[m].e.db
  }

  /** No entry that is a SELECT of another database comes right before an entry of the same database. */
  ghost predicate NoStray(es: seq<Entry>) {
    forall i :: 0 < i < |es| && es[i - 1].select && es[i - 1].db == es[i].db ==> es[i - 1].target == es[i].db
  }

  /** The writer switches only to another database, and then sends an entry. */
  ghost predicate SwitchesOk(w: seq<Cmd>) {
    forall m :: 0 <= m < |w| && w[m].Switch? ==> Believed(w[..m]) != w[m].db && (m + 1 < |w| ==> w[m + 1].Data?)
  }

  ghost predicate EndsInData(w: seq<Cmd>) { w == [] || w[|w| - 1].Data? }

  lemma SwitchesAppended(w: seq<Cmd>, c: Cmd)
    requires SwitchesOk(w) && (c.Data? || (EndsInData(w) && Believed(w) != c.db))
    ensures SwitchesOk(w + [c])
  {
    hide Believed;
    var w' := w + [c];
    forall m | 0 <= m < |w'| && w'[m].Switch?
      ensures Believed(w'[..m]) != w'[m].db && (m + 1 < |w'| ==> w'[m + 1].Data?)
    {
      assert w'[..m] == w[..m];
      if m == |w| { assert w[..m] == w; }
    }
  }

  /** In every run, and whenever the sender is idle the last command written is an entry. */
  lemma {:induction false} RunSwitches(limit: nat, steps: seq<Step>)
    requires IsRun(limit, steps)
    ensures var st := After(limit, steps); SwitchesOk(st.wire) && (st.sender.Idle? ==> EndsInData(st.wire))
  {
    hide Inv, Believed, SwitchesOk;
    if steps == [] {
      NoSwitches([]);
    } else {
      var before := steps[..|steps| - 1];
      RunSwitches(limit, before);
      RunKeepsInv(limit, before);
      var st, step := After(limit, before), steps[|steps| - 1];
      BelievesRight(limit, st);
      if step.Begin? && st.db != st.inbox[0].db { SwitchesAppended(st.wire, Switch(st.inbox[0].db)); }
      if step.WriteOut? { SwitchesAppended(st.wire, Data(st.sender.e)); }
    }
  }

  lemma NoSwitches(w: seq<Cmd>)
    requires w == []
    ensures SwitchesOk(w)
  {}

  lemma BelievesRight(limit: nat, st: State)
    requires Inv(limit, st)
    ensures Counters(st) && st.db == Believed(st.wire)
    ensures forall m :: 0 <= m < |st.wire| && st.wire[m].Data? ==> Believed(st.wire[..m]) == st.wire[m].e.db
  {
    hide DbAfter, Believed, Reported, Bytes, SelectBytes, Entries, LastSize;
  }

  ghost predicate Believing(w: seq<Cmd>) {
    forall m :: 0 <= m < |w| && w[m].Data? ==> Believed(w[..m]) == w[m].e.db
  }

  lemma PrefixOk(w: seq<Cmd>, n: nat)
    requires n <= |w| && SwitchesOk(w) && Believing(w)
    ensures SwitchesOk(w[..n]) && Believing(w[..n])
  {
    hide Believed;
    assert forall m :: 0 <= m <= n ==> w[..n][..m] == w[..m];
  }

  /** The last entry before an entry has the same database exactly if it is the command right before it. */
  lemma LastBefore(w: seq<Cmd>, n: nat)
    requires n + 1 == |w| && w[n].Data? && SwitchesOk(w) && Believing(w) && Entries(w[..n]) != []
    ensures var es := Entries(w[..n]);
      n > 0 && (if w[n - 1].Data? then es[|es| - 1] == w[n - 1].e && w[n - 1].e.db == w[n].e.db
          else es[|es| - 1].db != w[n].e.db)
  {
    hide Bytes, SelectBytes, DbAfter, Reported;
    NothingYet([]);
    assert n > 0;
    PrefixGrows(w, n - 1);
    Appended(w[..n - 1], w[n - 1]);
    if w[n - 1].Switch? {
      assert n > 1;
      assert w[n - 2].Data?;
      PrefixGrows(w, n - 2);
      Appended(w[..n - 2], w[n - 2]);
    }
  }

  /** The condition on the wire is one on the entries. */
  lemma {:induction false} StrayOnWireIffInEntries(w: seq<Cmd>)
    requires SwitchesOk(w) && Believing(w)
    ensures NoStraySelect(w) <==> NoStray(Entries(w))
    decreases |w|
  {
    hide Believed, SwitchesOk, Believing, Entries, DbAfter, Bytes, SelectBytes, Reported, LastSize;
    if w == [] {
      NothingYet(w);
    } else {
      var n := |w| - 1;
      var c, es := w[n], Entries(w[..n]);
      PrefixOk(w, n);
      StrayOnWireIffInEntries(w[..n]);
      PrefixGrows(w, n);
      Appended(w[..n], c);
      assert w[..n + 1] == w;
      StraySnoc(w[..n], c);
      if c.Data? {
        StrayEntrySnoc(es, c.e);
        if es != [] { LastBefore(w, n); } else { NoDataBefore(w, n); }
      } else {
        assert es + [] == es;
      }
    }
  }

  lemma NoDataBefore(w: seq<Cmd>, n: nat)
    requires n < |w| && Entries(w[..n]) == []
    ensures n > 0 ==> w[n - 1].Switch?
  {
    if n > 0 { assert w[..n][n - 1] == w[n - 1]; }
  }

  /** Command `m` and the one before it. */
  ghost predicate StrayAt(w: seq<Cmd>, m: nat)
    requires 0 < m < |w|
  {
    w[m - 1].Data? && w[m].Data? && w[m - 1].e.select && w[m - 1].e.target != w[m].e.db
  }

  lemma StraySnoc(w: seq<Cmd>, c: Cmd)
    ensures NoStraySelect(w + [c]) <==> (NoStraySelect(w) && (w != [] ==> !StrayAt(w + [c], |w|)))
  {
    var w' := w + [c];
    if NoStraySelect(w') {
      forall m | 0 < m < |w| && w[m - 1].Data? && w[m].Data? && w[m - 1].e.select
        ensures w[m - 1].e.target == w[m].e.db
      {
        assert w'[m] == w[m] && w'[m - 1] == w[m - 1];
      }
    }
    if NoStraySelect(w) && (w != [] ==> !StrayAt(w', |w|)) {
      forall m | 0 < m < |w'| && w'[m - 1].Data? && w'[m].Data? && w'[m - 1].e.select
        ensures w'[m - 1].e.target == w'[m].e.db
      {
        if m < |w| { assert w'[m] == w[m] && w'[m - 1] == w[m - 1]; }
      }
    }
  }

  lemma StrayEntrySnoc(es: seq<Entry>, e: Entry)
    ensures NoStray(es + [e]) <==>
      (NoStray(es) && (es != [] && es[|es| - 1].select && es[|es| - 1].db == e.db ==> es[|es| - 1].target == e.db))
  {
    var es' := es + [e];
    if NoStray(es') {
      forall i | 0 < i < |es| && es[i - 1].select && es[i - 1].db == es[i].db
        ensures es[i - 1].target == es[i].db
      {
        assert es'[i] == es[i] && es'[i - 1] == es[i - 1];
      }
      if es != [] { assert es'[|es|] == e && es'[|es| - 1] == es[|es| - 1]; }
    }
    if NoStray(es) && (es != [] && es[|es| - 1].select && es[|es| - 1].db == e.db ==> es[|es| - 1].target == e.db) {
      forall i | 0 < i < |es'| && es'[i - 1].select && es'[i - 1].db == es'[i].db
        ensures es'[i - 1].target == es'[i].db
      {
        if i < |es| { assert es'[i] == es[i] && es'[i - 1] == es[i - 1]; }
      }
    }
  }

  /** How the database of one command follows from the command before it. */
  lemma DbOfNext(w: seq<Cmd>, m: nat)
    requires m < |w| && w[m].Data? && Believed(w[..m]) == w[m].e.db
    requires m > 0 && w[m - 1].Data? ==> Believed(w[..m - 1]) == w[m - 1].e.db
    ensures m == 0 || w[m - 1].Switch? ==> DbAfter(w[..m]) == w[m].e.db
    ensures m > 0 && w[m - 1].Data? ==> w[m - 1].e.db == w[m].e.db
    ensures m > 0 && w[m - 1].Data? ==> DbAfter(w[..m]) == Selects(w[m - 1], DbAfter(w[..m - 1]))
  {
    if m > 0 {
      PrefixGrows(w, m - 1);
      Appended(w[..m - 1], w[m - 1]);
    }
  }

  lemma {:induction false} DbRight(w: seq<Cmd>, m: nat)
    requires m < |w| && w[m].Data? && NoStraySelect(w[..m + 1])
    requires forall i :: 0 <= i < |w| && w[i].Data? ==> Believed(w[..i]) == w[i].e.db
    ensures DbAfter(w[..m]) == w[m].e.db
  {
    DbOfNext(w, m);
    if m > 0 && w[m - 1].Data? {
      assert w[..m + 1][m - 1] == w[m - 1] && w[..m + 1][m] == w[m];
      if !w[m - 1].e.select {
        assert forall i :: 0 <= i < m ==> w[..m][i] == w[..m + 1][i];
        DbRight(w, m - 1);
      }
    }
  }

  lemma OwnDatabaseOnWire(limit: nat, steps: seq<Step>)
    requires IsRun(limit, steps)
    ensures var st := After(limit, steps);
      st.executed <= |st.wire| && (AllInOwnDb(st) <==> NoStraySelect(st.wire[..st.executed]))
  {
    hide Entries, Reported, Bytes, SelectBytes, DbAfter, Believed, LastSize, Plain, After, IsRun;
    RunKeepsInv(limit, steps);
    var st := After(limit, steps);
    var w := st.wire[..st.executed];
    assert forall m :: 0 <= m <= |w| ==> w[..m] == st.wire[..m];
    if NoStraySelect(w) {
      forall m | 0 <= m < st.executed && st.wire[m].Data?
        ensures st.ranIn[m] == st.wire[m].e.db
      {
        assert forall i :: 0 <= i < m + 1 ==> w[..m + 1][i] == w[i];
        DbRight(w, m);
      }
    }
    if AllInOwnDb(st) {
      forall m | 0 < m < |w| && w[m - 1].Data? && w[m].Data? && w[m - 1].e.select
        ensures w[m - 1].e.target == w[m].e.db
      {
        DbOfNext(w, m);
        assert st.wire[m].Data? && st.ranIn[m] == DbAfter(w[..m]);
      }
    }
  }

  /** Every executed entry ran in its own database exactly if, among the entries handed to the writer as far
      as they have been executed, none that is a SELECT of another database came right before an entry of its
      own database. */
  lemma OwnDatabase(limit: nat, steps: seq<Step>)
    requires IsRun(limit, steps)
    ensures var st := After(limit, steps);
      && st.executed <= |st.wire| && Entries(st.wire[..st.executed]) <= st.accepted
      && (AllInOwnDb(st) <==> NoStray(Entries(st.wire[..st.executed])))
  {
    hide Entries, Reported, Bytes, SelectBytes, DbAfter, Believed, LastSize, Plain, After, IsRun, SwitchesOk, NoStray,
      NoStraySelect, AllInOwnDb,
      Databases, Accounted, Bounded;
    RunKeepsInv(limit, steps);
    RunSwitches(limit, steps);
    OwnDatabaseOnWire(limit, steps);
    var st := After(limit, steps);
    BelievesRight(limit, st);
    PrefixOk(st.wire, st.executed);
    StrayOnWireIffInEntries(st.wire[..st.executed]);
    ExecutedIsPrefix(st);
  }

  lemma ExecutedIsPrefix(st: State)
    requires Paired(st) && Counters(st) && Fifo(st)
    ensures Entries(st.wire[..st.executed]) <= st.accepted
  {
    hide Entries, Reported, Bytes, SelectBytes, DbAfter, Believed, LastSize;
    var n := st.executed;
    assert st.wire == st.wire[..n] + st.wire[n..];
    EntriesConcat(st.wire[..n], st.wire[n..]);
    match st.sender {
      case Switched(e) =>
        Appended(st.queue, Switch(st.db));
        assert Entries(st.wire) == Entries(st.queue) + [];
      case Queued(e) => Appended(st.wire, Data(e));
      case Counted(e) => Appended(st.wire, Data(e));
      case _ =>
    }
    assert Entries(st.wire) <= Entries(st.queue) <= st.accepted;
  }

  lemma {:induction false} InEntries(s: seq<Cmd>, m: nat)
    requires m < |s| && s[m].Data?
    ensures s[m].e in Entries(s)
  {
    if m < |s| - 1 { InEntries(s[..|s| - 1], m); }
  }

  /** In particular, as long as no entry is a SELECT. */
  lemma OwnDatabaseWithoutSelect(limit: nat, steps: seq<Step>)
    requires IsRun(limit, steps) && (forall e :: e in After(limit, steps).accepted ==> !e.select)
    ensures AllInOwnDb(After(limit, steps))
  {
    hide Entries, Reported, Bytes, SelectBytes, DbAfter, Believed, LastSize, Plain, After, IsRun;
    RunKeepsInv(limit, steps);
    OwnDatabaseOnWire(limit, steps);
    var st := After(limit, steps);
    SettledIsWritten(st);
    forall m | 0 < m < st.executed && st.wire[m - 1].Data? && st.wire[m].Data?
      ensures !st.wire[m - 1].e.select
    {
      assert st.wire[m - 1] == st.queue[m - 1];
      InEntries(st.queue, m - 1);
    }
  }

  // ----- bytes -----

  /** Commands counted as sent and not yet settled. */
  ghost function InFlight(st: State): seq<Cmd> {
    var n := SettledCount(st);
    if 0 <= n <= |CountedQueue(st)| then CountedQueue(st)[n..] else []
  }

  /** The unanswered-bytes counter is the size of what is in flight plus the sizes of all answered
      entries that are a SELECT, which are never taken off; so it is exact exactly if no such entry
      has been answered. It never goes negative. */
  lemma UnansweredBytes(limit: nat, steps: seq<Step>)
    requires IsRun(limit, steps)
    ensures var st := After(limit, steps); var n := SettledCount(st);
      && 0 <= n <= |st.wire|
      && 0 <= st.bytes == Bytes(InFlight(st)) + SelectBytes(st.wire[..n])
      && (st.bytes == Bytes(InFlight(st)) <==> forall m :: 0 <= m < n && st.wire[m].Data? ==> !st.wire[m].e.select)
  {
    hide Entries, Reported, Bytes, SelectBytes, DbAfter, Believed, LastSize, Plain, After, IsRun, InFlight, Accounted,
      Databases, Bounded, Fifo;
    RunKeepsInv(limit, steps);
    var st := After(limit, steps);
    var n := SettledCount(st);
    assert Accounted(st) && Counters(st) && Paired(st);
    BytesInFlight(st);
    NonNegative(limit, st);
    forall m | 0 <= m < n && st.wire[m].Data?
      ensures st.wire[m].e.size > 0 && st.wire[..n][m] == st.wire[m]
    {
      assert st.wire[m] == st.queue[m];
    }
    NoSelectBytes(st.wire[..n]);
  }

  lemma BytesInFlight(st: State)
    requires Paired(st) && Counters(st) && Accounted(st)
    ensures 0 <= SettledCount(st) <= |st.wire|
    ensures st.bytes == Bytes(InFlight(st)) + SelectBytes(st.wire[..SettledCount(st)])
  {
    hide Bytes, SelectBytes, Reported;
    var n, counted := SettledCount(st), CountedQueue(st);
    if st.sender.Queued? {
      assert st.queue == counted + [Data(st.sender.e)];
      Appended(counted, Data(st.sender.e));
    }
    assert counted == counted[..n] + counted[n..];
    assert counted[..n] == st.queue[..n] && st.queue[..n] == st.wire[..n];
    EntriesConcat(counted[..n], counted[n..]);
  }

  lemma {:induction false} NoSelectBytes(s: seq<Cmd>)
    requires forall m :: 0 <= m < |s| && s[m].Data? ==> s[m].e.size > 0
    ensures SelectBytes(s) == 0 <==> forall m :: 0 <= m < |s| && s[m].Data? ==> !s[m].e.select
  {
    if s != [] {
      var n := |s| - 1;
      NoSelectBytes(s[..n]);
      assert forall m :: 0 <= m < n ==> s[..n][m] == s[m];
    }
  }

  lemma {:induction false} LastInFlight(s: seq<Cmd>, n: nat)
    requires n <= |s| && (forall m :: 0 <= m < |s| && s[m].Data? ==> s[m].e.size > 0)
    ensures |Entries(s[n..])| <= 1 || Bytes(s[n..]) > LastSize(s)
    ensures |Entries(s[n..])| >= 1 ==> Bytes(s[n..]) >= LastSize(s)
    ensures |Entries(s[n..])| == 0 ==> Bytes(s[n..]) == 0
    decreases |s|
  {
    if n < |s| {
      var k := |s| - 1;
      assert s[n..] == s[..k][n..] + [s[k]];
      Appended(s[..k][n..], s[k]);
      LastInFlight(s[..k], n);
      if s[k].Data? && |Entries(s[..k][n..])| >= 1 { SomeBytes(s[..k][n..]); }
    }
  }

  lemma {:induction false} SomeBytes(s: seq<Cmd>)
    requires |Entries(s)| >= 1 && (forall m :: 0 <= m < |s| && s[m].Data? ==> s[m].e.size > 0)
    ensures Bytes(s) > 0
  {
    if !s[|s| - 1].Data? { SomeBytes(s[..|s| - 1]); }
  }

  /** The byte window: in every run the bytes in flight stay within the limit unless a single entry alone is
      in flight; and so does the counter, even with what SELECT entries have left on it. */
  lemma WindowHolds(limit: nat, steps: seq<Step>)
    requires IsRun(limit, steps)
    ensures var st := After(limit, steps);
      && (Bytes(InFlight(st)) <= limit || |Entries(InFlight(st))| == 1)
      && (st.bytes <= limit || |Entries(InFlight(st))| <= 1)
  {
    hide Entries, Reported, Bytes, SelectBytes, DbAfter, Believed, LastSize, Plain, After, IsRun;
    RunKeepsInv(limit, steps);
    UnansweredBytes(limit, steps);
    var st := After(limit, steps);
    var counted, n := CountedQueue(st), SettledCount(st);
    SettledIsWritten(st);
    forall m | 0 <= m < |counted| && counted[m].Data?
      ensures counted[m].e.size > 0
    {
      assert counted[m] == st.queue[m];
    }
    LastInFlight(counted, n);
  }

  // ----- an entry that is a SELECT -----

  lemma Extended(limit: nat, steps: seq<Step>, step: Step)
    requires IsRun(limit, steps) && Enabled(limit, After(limit, steps), step)
    ensures IsRun(limit, steps + [step]) && After(limit, steps + [step]) == Next(limit, After(limit, steps), step)
  {
    assert (steps + [step])[..|steps + [step]| - 1] == steps;
  }

  /** One entry from an idle sender in the right database to the wire. */
  lemma SendOne(limit: nat, steps: seq<Step>, e: Entry) returns (more: seq<Step>)
    requires IsRun(limit, steps) && e.size > 0
    requires var st := After(limit, steps);
      st.sender.Idle? && st.inbox == [] && st.db == e.db && st.bytes + e.size <= limit
    ensures IsRun(limit, more)
    ensures var st := After(limit, steps);
      After(limit, more) == st.(accepted := st.accepted + [e], queue := st.queue + [Data(e)], wire := st.wire + [Data(e)], bytes := st.bytes + e.size)
  {
    hide IsRun, After;
    Extended(limit, steps, Accept(e));
    more := steps + [Accept(e)];
    Extended(limit, more, Begin);
    more := more + [Begin];
    assert After(limit, more).inbox == [];
    Extended(limit, more, PassWindow);
    more := more + [PassWindow];
    Extended(limit, more, Enqueue);
    more := more + [Enqueue];
    Extended(limit, more, Count);
    more := more + [Count];
    Extended(limit, more, WriteOut);
    more := more + [WriteOut];
  }

  const STRAY := Entry(0, 0, 10, true, 5)
  const VICTIM := Entry(1, 0, 10, false, 0)

  /** A SELECT that comes as an entry makes the next entry run in a database that is not its own. */
  lemma StraySelectMisplaces() returns (steps: seq<Step>)
    ensures IsRun(100, steps) && After(100, steps).wire == [Data(STRAY), Data(VICTIM)]
    ensures After(100, steps).ranIn == [0, 5]
    ensures !AllInOwnDb(After(100, steps))
  {
    assert IsRun(100, []) && After(100, []) == INITIAL;
    hide IsRun, After;
    steps := SendOne(100, [], STRAY);
    steps := SendOne(100, steps, VICTIM);
    assert After(100, steps).wire == [Data(STRAY), Data(VICTIM)];
    Extended(100, steps, Flush(2));
    steps := steps + [Flush(2)];
    Extended(100, steps, Execute);
    steps := steps + [Execute];
    Extended(100, steps, Execute);
    steps := steps + [Execute];
    assert After(100, steps).ranIn == [0, 5] && After(100, steps).wire[1] == Data(VICTIM);
  }
}
