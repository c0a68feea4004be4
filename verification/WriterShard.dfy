/** The two levels fit: what the pipeline takes for one shard, a queue answered in order by a goroutine that runs
    callbacks, is what the standalone writer with its two loops, its channel and its connection does.  Both are
    sequences of the same four moves. */
module WriterShard {
  import opened Basics
  import opened Completions
  import P = Pipeline
  import W = StandaloneWriter

  /** What can happen to a shard: nothing, one more item, an answer, or the end of a callback, which may call
      another. */
  datatype Move = Stay | Put(item: P.Item) | Answer | Return(next: Option<Callback>)

  predicate CanMove(sh: P.Shard, m: Move) {
    match m
    case Answer => sh.acked < |sh.all| && sh.call.None?
    case Return(_) => sh.call.Some?
    case _ => true
  }

  function CallFor(item: P.Item): Option<Callback> {
    if item.Sent? && !item.leaf.cmd.select then item.leaf.cb else None
  }

  function Moved(sh: P.Shard, m: Move): P.Shard
    requires CanMove(sh, m)
  {
    match m
    case Stay => sh
    case Put(item) => sh.(all := sh.all + [item])
    case Answer => sh.(acked := sh.acked + 1, call := CallFor(sh.all[sh.acked]))
    case Return(next) => sh.(call := next)
  }

  // ----- the pipeline -----

  function PipelineMove(st: P.State, step: P.Step, k: nat): Move {
    match step
    case Act(s) =>
      if P.AtAction(st, s) && st.sources[s].pc.todo[0].Send? && st.sources[s].pc.todo[0].leaf.shard == k
      then Put(P.Sent(s, st.sources[s].pc.todo[0].leaf)) else Stay
    case Heartbeat(j) => if j == k then Put(P.Beat) else Stay
    case Reply(j) => if j == k then Answer else Stay
    case RunCall(g) => if g == P.OfShard(k)
        && P.CallOf(st, g).Some? then Return(P.RunCallback(st, P.CallOf(st, g).value).1) else Stay
    case _ => Stay
  }

  /** Every step of the pipeline moves every shard so. */
  lemma PipelineMovesShards(cfg: P.Config, st: P.State, step: P.Step, k: nat)
    requires P.Enabled(cfg, st, step) && k < |st.shards|
    ensures var st' := P.Perform(cfg, st, step); var m := PipelineMove(st, step, k);
      |st'.shards| == |st.shards| && CanMove(st.shards[k], m) && st'.shards[k] == Moved(st.shards[k], m)
  {
    hide P.Plan, P.RunCallback;
    if step.RunCall? { CallbackLeavesShards(st, P.CallOf(st, step.g).value); }
  }

  lemma CallbackLeavesShards(st: P.State, c: Callback)
    ensures P.RunCallback(st, c).0.shards == st.shards
    ensures var st' := P.RunCallback(st, c).0;
      |st'.sources| == |st.sources| && forall s :: 0 <= s < |st.sources| ==> st'.sources[s].pc == st.sources[s].pc
  {}

  // ----- the writer -----

  /** The pipeline's item for an entry of the writer: a copy of a command, or a heartbeat. */
  ghost predicate Matching(item: W.Entry -> P.Item) {
    forall e :: item(e).Sent? ==> item(e).leaf.cmd.select == e.select
  }

  ghost function Items(item: W.Entry -> P.Item, es: seq<W.Entry>): (all: seq<P.Item>)
    ensures |all| == |es| && forall i :: 0 <= i < |es| ==> all[i] == item(es[i])
  {
    seq(|es|, i requires 0 <= i < |es| => item(es[i]))
  }

  ghost function Answered(st: W.State): nat {
    var n := W.SettledCount(st);
    if 0 <= n <= |st.queue| then |W.Entries(st.queue[..n])| else 0
  }

  /** The writer as the pipeline sees it: the entries handed to it, how many have been answered, and the callback
      that its reply loop is inside of. */
  ghost function View(item: W.Entry -> P.Item, st: W.State): P.Shard {
    P.Shard(Items(item, st.accepted), Answered(st),
            if st.receiver.Settled? && st.receiver.cmd.Data? then CallFor(item(st.receiver.cmd.e)) else None)
  }

  ghost function WriterMove(item: W.Entry -> P.Item, st: W.State, step: W.Step): Move {
    match step
    case Accept(e) => Put(item(e))
    case Settle => if st.receiver.Got? && st.receiver.cmd.Data? then Answer else Stay
    case Notify => if View(item, st).call.Some? then Return(None) else Stay
    case _ => Stay
  }

  /** The command settled next is the next entry that was handed over, or the writer's own. */
  lemma NextSettled(limit: nat, st: W.State)
    requires W.Inv(limit, st) && st.receiver.Got?
    ensures var n := st.taken - 1;
      && 0 <= n < |st.queue| && st.queue[n] == st.receiver.cmd && Answered(st) == |W.Entries(st.queue[..n])|
      && |W.Entries(st.queue[..n + 1])| == Answered(st) + (if st.receiver.cmd.Data? then 1 else 0)
      && (st.receiver.cmd.Data? ==> Answered(st) < |st.accepted| && st.accepted[Answered(st)] == st.receiver.cmd.e)
  {
    hide W.Entries, W.Reported, W.Bytes, W.SelectBytes, W.DbAfter, W.Believed, W.LastSize, W.Accounted, W.Databases,
      W.Bounded;
    var n := st.taken - 1;
    W.PrefixGrows(st.queue, n);
    W.Appended(st.queue[..n], st.queue[n]);
    assert st.queue == st.queue[..n + 1] + st.queue[n + 1..];
    W.EntriesConcat(st.queue[..n + 1], st.queue[n + 1..]);
    assert st.accepted == W.Entries(st.queue[..n + 1]) + (W.Entries(st.queue[n + 1..]) + W.Held(st.sender) + st.inbox);
  }

  /** What has been answered does not change when the channel grows. */
  lemma AnsweredSame(st: W.State, st': W.State)
    requires st.queue <= st'.queue && W.SettledCount(st') == W.SettledCount(st) && 0 <= W.SettledCount(st) <= |st.queue|
    ensures Answered(st') == Answered(st)
  {
    hide W.Entries, W.SettledCount;
    var n := W.SettledCount(st);
    assert st'.queue[..n] == st.queue[..n];
  }

  lemma SettledInQueue(limit: nat, st: W.State)
    requires W.Inv(limit, st)
    ensures 0 <= W.SettledCount(st) <= |st.queue| && (st.receiver.Settled? ==> st.receiver.cmd.Data?)
  {
    hide W.Entries, W.Reported, W.Bytes, W.SelectBytes, W.DbAfter, W.Believed, W.LastSize, W.Accounted, W.Databases,
      W.Bounded, W.Fifo;
  }

  /** Every step of the writer is one of the moves, as the pipeline sees it. */
  lemma WriterMoves(limit: nat, item: W.Entry -> P.Item, st: W.State, step: W.Step)
    requires W.Inv(limit, st) && W.Enabled(limit, st, step) && Matching(item)
    ensures var m := WriterMove(item, st, step);
      CanMove(View(item, st), m) && View(item, W.Next(limit, st, step)) == Moved(View(item, st), m)
  {
    hide W.Inv, W.Entries, Answered;
    var st' := W.Next(limit, st, step);
    SettledInQueue(limit, st);
    if step.Settle? {
      NextSettled(limit, st);
      SettleAnswers(limit, st);
    } else {
      AnsweredSame(st, st');
      if step.Accept? {
        assert Items(item, st.accepted + [step.e]) == Items(item, st.accepted) + [item(step.e)];
      }
    }
  }

  lemma SettleAnswers(limit: nat, st: W.State)
    requires W.Inv(limit, st) && st.receiver.Got?
    ensures Answered(W.Next(limit, st, W.Settle)) == |W.Entries(st.queue[..st.taken])|
  {
    hide W.Entries, W.Accounted, W.Databases, W.Bounded, W.Fifo;
  }

  // ----- whole runs -----

  ghost function RunMoves(limit: nat, item: W.Entry -> P.Item, steps: seq<W.Step>): seq<Move>
    requires W.IsRun(limit, steps)
    decreases |steps|
  {
    if steps == [] then []
    else
      var before := steps[..|steps| - 1];
      RunMoves(limit, item, before) + [WriterMove(item, W.After(limit, before), steps[|steps| - 1])]
  }

  /** What a fresh shard becomes by moves, each of which it must be able to make. */
  function AllMoved(moves: seq<Move>): Option<P.Shard>
    decreases |moves|
  {
    if moves == [] then Some(P.Shard([], 0, None))
    else
      match AllMoved(moves[..|moves| - 1])
      case None => None
      case Some(sh) => if CanMove(sh, moves[|moves| - 1]) then Some(Moved(sh, moves[|moves| - 1])) else None
  }

  /** Whatever the interleaving inside the writer, the pipeline sees a shard that makes its moves; and what it
      counts as answered has been executed by the server, in the order handed over. */
  lemma {:induction false} WriterIsAShard(limit: nat, item: W.Entry -> P.Item, steps: seq<W.Step>)
    requires W.IsRun(limit, steps) && Matching(item)
    ensures AllMoved(RunMoves(limit, item, steps)) == Some(View(item, W.After(limit, steps)))
    ensures var st := W.After(limit, steps);
      st.executed <= |st.wire| && Answered(st) <= |W.Entries(st.wire[..st.executed])|
          && W.Entries(st.wire[..st.executed]) <= st.accepted
    decreases |steps|
  {
    hide W.Inv, W.Next, W.Enabled, View, WriterMove, Answered;
    var st := W.After(limit, steps);
    W.RunKeepsInv(limit, steps);
    AnsweredIsExecuted(limit, st);
    if steps == [] {
      FreshView(item, st);
    } else {
      var n := |steps| - 1;
      var before := steps[..n];
      WriterIsAShard(limit, item, before);
      W.RunKeepsInv(limit, before);
      WriterMoves(limit, item, W.After(limit, before), steps[n]);
      var moves := RunMoves(limit, item, steps);
      assert moves[..|moves| - 1] == RunMoves(limit, item, before);
    }
  }

  lemma FreshView(item: W.Entry -> P.Item, st: W.State)
    requires st == W.INITIAL
    ensures View(item, st) == P.Shard([], 0, None)
  {
    hide W.Entries;
    W.NothingYet(st.queue);
    assert st.queue[..0] == st.queue;
    assert Items(item, st.accepted) == [];
  }

  lemma AnsweredIsExecuted(limit: nat, st: W.State)
    requires W.Inv(limit, st)
    ensures st.executed <= |st.wire| && Answered(st) <= |W.Entries(st.wire[..st.executed])|
    ensures W.Entries(st.wire[..st.executed]) <= st.accepted
  {
    hide W.Entries, W.Reported, W.Bytes, W.SelectBytes, W.DbAfter, W.Believed, W.LastSize, W.Accounted, W.Databases,
      W.Bounded;
    W.ExecutedIsPrefix(st);
    W.SettledIsWritten(st);
    var n := W.SettledCount(st);
    assert st.queue[..n] == st.wire[..n];
    assert st.wire[..st.executed] == st.wire[..n] + st.wire[n..st.executed];
    W.EntriesConcat(st.wire[..n], st.wire[n..st.executed]);
  }
}
