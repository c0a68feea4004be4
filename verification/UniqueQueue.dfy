/** The queue without duplicates of `internal/utils/UniqueQueue.go`, as a protocol between the
    goroutines that put, the forwarder and the receiver. */
module UniqueQueue {
  import opened Basics

  /** A key in a database. */
  datatype DbKey = DbKey(db: int, key: Bytes)

  /** `putting` holds the items whose Put has marked them and not yet sent them to the inner channel;
      `taken` is what the forwarder has received and not unmarked, `handing` what it has unmarked and not
      handed over.  The last three fields are history: what was delivered, what went into the inner channel,
      and for each Put the item and how many deliveries there had been. */
  datatype State = State(
    marked: set<DbKey>, putting: multiset<DbKey>, inner: seq<DbKey>, taken: Option<DbKey>, handing: Option<DbKey>,
    out: seq<DbKey>, accepted: seq<DbKey>, puts: seq<(DbKey, nat)>)

  datatype Step =
    | PutMark(x: DbKey)
    | PutSend(x: DbKey)
    | Take
    | Unmark
    | HandOver

  function Start(): State { State({}, multiset{}, [], None, None, [], [], []) }

  predicate Enabled(size: nat, s: State, t: Step) {
    match t
    case PutMark(_) => true
    case PutSend(x) => x in s.putting && |s.inner| < size
    case Take => s.inner != [] && s.taken.None? && s.handing.None?
    case Unmark => s.taken.Some?
    case HandOver => s.handing.Some?
  }

  function Next(size: nat, s: State, t: Step): State
    requires Enabled(size, s, t)
  {
    match t
    case PutMark(x) =>
      var put := s.(puts := s.puts + [(x, |s.out|)]);
      if x in s.marked then put else put.(marked := s.marked + {x}, putting := s.putting + multiset{x})
    case PutSend(x) => s.(putting := s.putting - multiset{x}, inner := s.inner + [x], accepted := s.accepted + [x])
    case Take => s.(inner := s.inner[1..], taken := Some(s.inner[0]))
    case Unmark => s.(marked := s.marked - {s.taken.value}, taken := None, handing := s.taken)
    case HandOver => s.(out := s.out + [s.handing.value], handing := None)
  }

  function RunAll(size: nat, s: State, steps: seq<Step>): Option<State>
    decreases |steps|
  {
    if steps == [] then Some(s)
    else if !Enabled(size, s, steps[0]) then None
    else RunAll(size, Next(size, s, steps[0]), steps[1..])
  }

  function Listed(x: Option<DbKey>): seq<DbKey> { if x.None? then [] else [x.value] }

  /** The items a mark stands for. */
  ghost function Pending(s: State): multiset<DbKey> {
    s.putting + multiset(Listed(s.taken)) + multiset(s.inner)
  }

  ghost predicate DeliveredSince(s: State, x: DbKey, n: nat) {
    exists k :: n <= k < |s.out| && s.out[k] == x
  }

  ghost function Asked(puts: seq<(DbKey, nat)>): multiset<DbKey>
    decreases |puts|
  {
    if puts == [] then multiset{} else Asked(puts[..|puts| - 1]) + multiset{puts[|puts| - 1].0}
  }

  /** The marks are exactly the items being put, queued or taken, each of them once; the queue is first in,
      first out; a Put is delivered after it or its item is still on the way; and nothing is delivered more
      often than it was put. */
  ghost predicate Inv(size: nat, s: State) {
    Pending(s) == multiset(s.marked)
    && |s.inner| <= size
    && (s.taken.None? || s.handing.None?)
    && s.accepted == s.out + Listed(s.handing) + Listed(s.taken) + s.inner
    && (forall p :: 0 <= p < |s.puts| ==> Kept(s, s.puts[p].0, s.puts[p].1))
    && multiset(s.out) + multiset(Listed(s.handing)) + multiset(s.marked) <= Asked(s.puts)
  }

  ghost predicate Kept(s: State, x: DbKey, n: nat) {
    n <= |s.out| && (DeliveredSince(s, x, n) || x in s.marked || s.handing == Some(x))
  }

  lemma StartInv(size: nat)
    ensures Inv(size, Start())
  {}

  lemma KeptStep(size: nat, s: State, t: Step, x: DbKey, n: nat)
    requires Enabled(size, s, t) && Kept(s, x, n) && (s.taken.None? || s.handing.None?)
    ensures Kept(Next(size, s, t), x, n)
  {
    var r := Next(size, s, t);
    if DeliveredSince(s, x, n) {
      var k :| n <= k < |s.out| && s.out[k] == x;
      assert r.out[k] == x;
    } else if t.HandOver? && s.handing == Some(x) {
      assert r.out[|s.out|] == x;
    }
  }

  lemma PutsKept(size: nat, s: State, t: Step)
    requires Inv(size, s) && Enabled(size, s, t)
    ensures var r := Next(size, s, t); forall p :: 0 <= p < |r.puts| ==> Kept(r, r.puts[p].0, r.puts[p].1)
  {
    var r := Next(size, s, t);
    forall p | 0 <= p < |r.puts|
      ensures Kept(r, r.puts[p].0, r.puts[p].1)
    {
      if p < |s.puts| { KeptStep(size, s, t, s.puts[p].0, s.puts[p].1); }
    }
  }

  lemma MarkKeeps(size: nat, s: State, x: DbKey)
    requires Pending(s) == multiset(s.marked) && x !in s.marked
    ensures Pending(Next(size, s, PutMark(x))) == multiset(s.marked + {x})
    ensures multiset(s.marked + {x}) == multiset(s.marked) + multiset{x}
  {
    assert multiset(s.marked + {x}) == multiset(s.marked) + multiset{x};
    var a, b := multiset(Listed(s.taken)), multiset(s.inner);
    assert (s.putting + multiset{x}) + a + b == s.putting + a + b + multiset{x};
  }

  lemma SendKeeps(p: multiset<DbKey>, a: multiset<DbKey>, inner: seq<DbKey>, x: DbKey)
    requires x in p
    ensures (p - multiset{x}) + a + multiset(inner + [x]) == p + a + multiset(inner)
  {
    assert multiset(inner + [x]) == multiset(inner) + multiset{x};
  }

  lemma TakeKeeps(p: multiset<DbKey>, inner: seq<DbKey>)
    requires inner != []
    ensures p + multiset([inner[0]]) + multiset(inner[1..]) == p + multiset(inner)
  {
    assert inner == [inner[0]] + inner[1..];
    assert multiset(inner) == multiset([inner[0]]) + multiset(inner[1..]);
  }

  lemma MarksKept(size: nat, s: State, t: Step)
    requires Pending(s) == multiset(s.marked) && Enabled(size, s, t)
    ensures var r := Next(size, s, t); Pending(r) == multiset(r.marked)
  {
    match t
    case PutMark(x) => if x !in s.marked { MarkKeeps(size, s, x); }
    case PutSend(x) => SendKeeps(s.putting, multiset(Listed(s.taken)), s.inner, x);
    case Take =>
      TakeKeeps(s.putting, s.inner);
      assert s.putting + multiset(Listed(s.taken)) == s.putting;
    case Unmark => UnmarkKeeps(size, s);
    case HandOver =>
  }

  lemma UnmarkKeeps(size: nat, s: State)
    requires Pending(s) == multiset(s.marked) && s.taken.Some?
    ensures Pending(Next(size, s, Unmark)) == multiset(s.marked - {s.taken.value})
  {
    Unmarked(s);
    var one, rest := multiset{s.taken.value}, s.putting + multiset(s.inner);
    assert multiset(Listed(s.taken)) == one;
    assert Pending(s) == rest + one;
    Cancel(rest, multiset(s.marked - {s.taken.value}), one);
    assert Pending(Next(size, s, Unmark)) == rest;
  }

  lemma Cancel(a: multiset<DbKey>, b: multiset<DbKey>, c: multiset<DbKey>)
    requires a + c == b + c
    ensures a == b
  {
    forall x
      ensures a[x] == b[x]
    {
      assert (a + c)[x] == (b + c)[x];
    }
  }

  lemma Unmarked(s: State)
    requires Pending(s) == multiset(s.marked) && s.taken.Some?
    ensures multiset(s.marked) == multiset(s.marked - {s.taken.value}) + multiset{s.taken.value}
  {
    assert s.taken.value in Pending(s);
  }

  lemma OrderKept(size: nat, s: State, t: Step)
    requires Enabled(size, s, t) && (s.taken.None? || s.handing.None?)
    requires s.accepted == s.out + Listed(s.handing) + Listed(s.taken) + s.inner
    ensures var r := Next(size, s, t); r.accepted == r.out + Listed(r.handing) + Listed(r.taken) + r.inner
  {}

  lemma AskedKept(size: nat, s: State, t: Step)
    requires Pending(s) == multiset(s.marked) && Enabled(size, s, t) && (s.taken.None? || s.handing.None?)
    requires multiset(s.out) + multiset(Listed(s.handing)) + multiset(s.marked) <= Asked(s.puts)
    ensures var r := Next(size, s, t);
        multiset(r.out) + multiset(Listed(r.handing)) + multiset(r.marked) <= Asked(r.puts)
  {
    var r := Next(size, s, t);
    match t
    case PutMark(x) =>
      assert r.puts[..|s.puts|] == s.puts;
      if x !in s.marked { MarkKeeps(size, s, x); }
    case PutSend(_) =>
    case Take =>
    case Unmark => Unmarked(s);
    case HandOver =>
  }

  lemma StepKeepsInv(size: nat, s: State, t: Step)
    requires Inv(size, s) && Enabled(size, s, t)
    ensures Inv(size, Next(size, s, t))
  {
    hide Pending, Kept, Asked;
    PutsKept(size, s, t);
    MarksKept(size, s, t);
    OrderKept(size, s, t);
    AskedKept(size, s, t);
  }

  lemma {:induction false} RunKeepsInv(size: nat, s: State, steps: seq<Step>)
    requires Inv(size, s)
    ensures RunAll(size, s, steps).Some? ==> Inv(size, RunAll(size, s, steps).value)
    decreases |steps|
  {
    hide Inv;
    if steps != [] && Enabled(size, s, steps[0]) {
      StepKeepsInv(size, s, steps[0]);
      RunKeepsInv(size, Next(size, s, steps[0]), steps[1..]);
    }
  }

  /** Whatever the interleaving: no item is queued twice, and once nothing is on the way every Put has been
      followed by a delivery of its item. */
  lemma NoPutIsLost(size: nat, steps: seq<Step>)
    ensures var r := RunAll(size, Start(), steps);
      r.Some? ==>
        (forall i, j :: 0 <= i < j < |r.value.inner| ==> r.value.inner[i] != r.value.inner[j])
        && (r.value.marked == {} && r.value.handing.None? ==>
              forall p :: 0 <= p < |r.value.puts| ==> DeliveredSince(r.value, r.value.puts[p].0, r.value.puts[p].1))
  {
    StartInv(size);
    RunKeepsInv(size, Start(), steps);
    var r := RunAll(size, Start(), steps);
    if r.Some? {
      var s := r.value;
      forall i, j | 0 <= i < j < |s.inner|
        ensures s.inner[i] != s.inner[j]
      {
        NotTwice(size, s, i, j);
      }
      forall p | 0 <= p < |s.puts| && s.marked == {} && s.handing.None?
        ensures DeliveredSince(s, s.puts[p].0, s.puts[p].1)
      {
        assert Kept(s, s.puts[p].0, s.puts[p].1);
      }
    }
  }

  lemma NotTwice(size: nat, s: State, i: nat, j: nat)
    requires Inv(size, s) && i < j < |s.inner|
    ensures s.inner[i] != s.inner[j]
  {
    var x, y := s.inner[i], s.inner[j];
    assert s.inner == s.inner[..i] + [x] + s.inner[i + 1..];
    assert s.inner[i + 1..][j - i - 1] == y;
    assert Pending(s)[x] <= 1;
  }

  // ----- everything can be delivered -----

  /** Nothing is marked and nothing is being handed over. */
  ghost predicate AtRest(s: State) { s.marked == {} && s.handing.None? }

  /** How many steps are left to go for what is on the way. */
  ghost function Distance(s: State): nat {
    4 * |s.putting| + 3 * |s.inner| + (if s.taken.Some? then 2 else 0) + (if s.handing.Some? then 1 else 0)
  }

  /** While something is on the way some step other than a new Put can be made, and brings it nearer. */
  lemma SomethingMoves(size: nat, s: State) returns (t: Step)
    requires Inv(size, s) && size > 0 && !AtRest(s)
    ensures !t.PutMark? && Enabled(size, s, t) && Distance(Next(size, s, t)) < Distance(s)
  {
    if s.handing.Some? {
      t := HandOver;
    } else if s.taken.Some? {
      t := Unmark;
    } else if s.inner != [] {
      t := Take;
    } else {
      var x :| x in s.marked;
      assert x in multiset(s.marked) && x in Pending(s);
      t := PutSend(x);
    }
  }

  lemma RunOneMore(size: nat, s: State, t: Step, more: seq<Step>)
    requires Enabled(size, s, t)
    ensures RunAll(size, s, [t] + more) == RunAll(size, Next(size, s, t), more)
  {
    assert ([t] + more)[1..] == more;
  }

  /** From every reachable state, and without a further Put, the queue can be drained: then every Put has been
      followed by a delivery of its item. */
  lemma {:induction false} CanBeDrained(size: nat, s: State) returns (steps: seq<Step>)
    requires Inv(size, s) && size > 0
    ensures forall i :: 0 <= i < |steps| ==> !steps[i].PutMark?
    ensures var r := RunAll(size, s, steps);
      && r.Some? && AtRest(r.value) && r.value.puts == s.puts
      && forall p :: 0 <= p < |s.puts| ==> DeliveredSince(r.value, s.puts[p].0, s.puts[p].1)
    decreases Distance(s)
  {
    hide Pending, Asked, Distance;
    if AtRest(s) {
      steps := [];
      forall p | 0 <= p < |s.puts|
        ensures DeliveredSince(s, s.puts[p].0, s.puts[p].1)
      {
        assert Kept(s, s.puts[p].0, s.puts[p].1);
      }
    } else {
      var t := SomethingMoves(size, s);
      StepKeepsInv(size, s, t);
      var more := CanBeDrained(size, Next(size, s, t));
      RunOneMore(size, s, t, more);
      steps := [t] + more;
    }
  }
}
