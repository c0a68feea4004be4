/** `SplitCompletion` of `internal/entry/completion.go`: one completion is divided over the parts of
    an entry, and each part may be divided again (a transformed command that is broadcast to every
    shard).  A callback is named by its path below the completion it was divided from. */
module Completions {
  import opened Basics

  /** `Root` is what the tracker handed out for registration `t` of a source; `Part(p, i)` is the
      `i`-th callback that dividing `p` returned. */
  datatype Callback = Root(source: nat, t: nat) | Part(parent: Callback, index: nat)

  /** The variables shared by the callbacks of one division: the atomic counter and the once flags. */
  datatype Division = Division(remaining: int, once: seq<bool>)

  type Divisions = map<Callback, Division>

  function Unset(flags: seq<bool>): nat {
    if flags == [] then 0 else (if flags[0] then 0 else 1) + Unset(flags[1..])
  }

  lemma {:induction false} UnsetAfterSet(flags: seq<bool>, i: nat)
    requires i < |flags| && !flags[i]
    ensures Unset(flags[i := true]) == Unset(flags) - 1
  {
    if i == 0 {
      assert flags[i := true][1..] == flags[1..];
    } else {
      assert flags[i := true][1..] == flags[1..][i - 1 := true];
      UnsetAfterSet(flags[1..], i - 1);
    }
  }

  lemma {:induction false} UnsetIsZero(flags: seq<bool>)
    ensures Unset(flags) == 0 <==> forall i :: 0 <= i < |flags| ==> flags[i]
  {
    if flags != [] {
      UnsetIsZero(flags[1..]);
      assert forall i :: 0 < i < |flags| ==> flags[i] == flags[1..][i - 1];
    }
  }

  lemma {:induction false} UnsetOfFresh(n: nat)
    ensures Unset(seq(n, _ => false)) == n
  {
    if n > 0 {
      assert seq(n, _ => false)[1..] == seq(n - 1, _ => false);
      UnsetOfFresh(n - 1);
    }
  }

  function Fresh(n: nat): Division {
    Division(n, seq(n, _ => false))
  }

  /** The body of one part's callback up to its call of `done`: what changes, and which callback is
      called next. */
  function Touch(d: Divisions, c: Callback): (Divisions, Option<Callback>)
    requires c.Part?
  {
    if c.parent !in d || c.index >= |d[c.parent].once| || d[c.parent].once[c.index] then (d, None)
    else
      var v := Division(d[c.parent].remaining - 1, d[c.parent].once[c.index := true]);
      (d[c.parent := v], if v.remaining == 0 then Some(c.parent) else None)
  }

  /** All divisions below one root, and how often the root itself has been called. */
  datatype Tally = Tally(divisions: Divisions, fires: nat)

  function Fire(st: Tally, c: Callback): Tally
    decreases c
  {
    match c
    case Root(_, _) => st.(fires := st.fires + 1)
    case Part(p, _) =>
      var (d, next) := Touch(st.divisions, c);
      if next.Some? then Fire(st.(divisions := d), p) else st.(divisions := d)
  }

  datatype Op = Divide(c: Callback, n: nat) | Invoke(c: Callback)

  function Apply(st: Tally, op: Op): Tally {
    match op
    case Divide(c, n) => if n == 0 then Fire(st, c) else st.(divisions := st.divisions[c := Fresh(n)])
    case Invoke(c) => Fire(st, c)
  }

  ghost function Run(ops: seq<Op>): Tally {
    if ops == [] then Tally(map[], 0) else Apply(Run(ops[..|ops| - 1]), ops[|ops| - 1])
  }

  /** The division of `p` handed out an `i`-th callback. */
  ghost predicate HasPart(d: Divisions, p: Callback, i: nat) {
    p in d && i < |d[p].once|
  }

  /** The callback exists: it is the root or a division handed it out. */
  ghost predicate Exists(st: Tally, c: Callback) {
    c.Part? ==> HasPart(st.divisions, c.parent, c.index)
  }

  /** Used callbacks: those divided into nothing, and those called because a command was answered. */
  ghost function Called(ops: seq<Op>): set<Callback> {
    if ops == [] then {} else
      var op := ops[|ops| - 1];
      Called(ops[..|ops| - 1]) + (if op.Invoke? || op.n == 0 then {op.c} else {})
  }

  /** One root; every callback exists before it is used, and is either divided, once, or called, any
      number of times. */
  ghost predicate Linear(root: Callback, ops: seq<Op>) {
    ops == [] ||
    (var before := ops[..|ops| - 1]; var op := ops[|ops| - 1];
     && Linear(root, before)
     && root.Root? && (op.c.Root? ==> op.c == root)
     && Exists(Run(before), op.c)
     && op.c !in Run(before).divisions
     && (op.Divide? ==> op.c !in Called(before)))
  }

  ghost predicate Fired(st: Tally, c: Callback) {
    if c.Root? then st.fires > 0 else Exists(st, c) && st.divisions[c.parent].once[c.index]
  }

  /** The callback has been called, or the counter of its division has run out. */
  ghost predicate Justified(st: Tally, called: set<Callback>, c: Callback) {
    c in called || (c in st.divisions && st.divisions[c].remaining == 0)
  }

  ghost predicate WellCounted(d: Divisions) {
    forall p :: p in d ==> d[p].once != [] && d[p].remaining == Unset(d[p].once)
  }

  ghost predicate WellUsed(root: Callback, st: Tally, called: set<Callback>) {
    && (forall c :: c in called ==> c !in st.divisions)
    && (forall p, i: nat {:trigger Part(p, i) in st.divisions} :: Part(p, i) in st.divisions ==>
        HasPart(st.divisions, p, i))
    && (forall p, i: nat {:trigger Part(p, i) in called} :: Part(p, i) in called ==> HasPart(st.divisions, p, i))
    && (forall c :: c in st.divisions && c.Root? ==> c == root)
  }

  /** Every existing callback except `but` has fired exactly if it is justified. */
  ghost predicate Exact(root: Callback, st: Tally, called: set<Callback>, but: Option<Callback>) {
    && (forall p, i: nat {:trigger HasPart(st.divisions, p, i)} :: HasPart(st.divisions, p, i) && Some(Part(p, i)) != but ==>
      (st.divisions[p].once[i] <==> Justified(st, called, Part(p, i))))
    && (Some(root) != but ==> (st.fires > 0 <==> Justified(st, called, root)))
    && (root !in called ==> st.fires <= 1)
  }

  ghost predicate Good(root: Callback, st: Tally, called: set<Callback>) {
    root.Root? && WellCounted(st.divisions) && WellUsed(root, st, called) && Exact(root, st, called, None)
  }

  /** One callback body: the part it belongs to is now exact, and at most its parent is behind. */
  lemma TouchIsExact(root: Callback, st: Tally, called: set<Callback>, c: Callback)
    requires root.Root? && WellCounted(st.divisions) && WellUsed(root, st, called)
    requires Exact(root, st, called, Some(c)) && Exists(st, c) && Justified(st, called, c)
    requires c.Part? && !st.divisions[c.parent].once[c.index]
    ensures var (d, next) := Touch(st.divisions, c); var st' := st.(divisions := d);
            && WellCounted(d) && WellUsed(root, st', called)
            && Exact(root, st', called, next)
            && (next.Some? ==> next.value == c.parent && Justified(st', called, c.parent) && Exists(st', c.parent) && !Fired(st', c.parent))
  {
    var p, v := c.parent, st.divisions[c.parent];
    UnsetAfterSet(v.once, c.index);
    UnsetIsZero(v.once);
    assert !Justified(st, called, p);
    if p.Part? {
      assert p == Part(p.parent, p.index) && HasPart(st.divisions, p.parent, p.index);
      assert c != p;
    }
    var st' := st.(divisions := Touch(st.divisions, c).0);
    forall q, i: nat
      ensures HasPart(st'.divisions, q, i) <==> HasPart(st.divisions, q, i)
    {}
  }

  /** Calling a callback that has just become justified brings the whole chain above it in step. */
  lemma {:induction false} FireIsExact(root: Callback, st: Tally, called: set<Callback>, c: Callback)
    requires root.Root? && WellCounted(st.divisions) && WellUsed(root, st, called) && (c.Root? ==> c == root)
    requires Exact(root, st, called, Some(c)) && Exists(st, c) && Justified(st, called, c)
    requires c in called || !Fired(st, c)
    ensures Good(root, Fire(st, c), called)
    ensures Fire(st, c).divisions.Keys == st.divisions.Keys
    ensures forall p :: p in st.divisions ==> |Fire(st, c).divisions[p].once| == |st.divisions[p].once|
    decreases c
  {
    if c.Part? && !st.divisions[c.parent].once[c.index] {
      TouchIsExact(root, st, called, c);
      var (d, next) := Touch(st.divisions, c);
      if next.Some? {
        FireIsExact(root, st.(divisions := d), called, c.parent);
      }
    }
  }

  /** Any interleaving of divisions and calls keeps every callback exact. */
  lemma {:induction false} RunIsExact(root: Callback, ops: seq<Op>)
    requires root.Root? && Linear(root, ops)
    ensures Good(root, Run(ops), Called(ops))
  {
    if ops != [] {
      var before, op := ops[..|ops| - 1], ops[|ops| - 1];
      RunIsExact(root, before);
      var st, called := Run(before), Called(before);
      if op.Invoke? || op.n == 0 {
        if op.c.Part? { assert op.c == Part(op.c.parent, op.c.index); }
        FireIsExact(root, st, called + {op.c}, op.c);
      } else {
        DivideIsExact(root, st, called, op.c, op.n);
      }
    }
  }

  lemma DivideIsExact(root: Callback, st: Tally, called: set<Callback>, c: Callback, n: nat)
    requires Good(root, st, called) && Exists(st, c) && (c.Root? ==> c == root)
    requires n > 0 && c !in st.divisions && c !in called
    ensures Good(root, st.(divisions := st.divisions[c := Fresh(n)]), called)
  {
    UnsetOfFresh(n);
    var st' := st.(divisions := st.divisions[c := Fresh(n)]);
    if c.Part? { assert c == Part(c.parent, c.index); }
    forall p, i: nat | HasPart(st'.divisions, p, i)
      ensures st'.divisions[p].once[i] <==> Justified(st', called, Part(p, i))
    {
      if p == c {
        assert Part(c, i) !in called && Part(c, i) !in st.divisions && Part(c, i) != c;
      } else {
        assert HasPart(st.divisions, p, i);
      }
    }
  }

  /** How a completion was divided: a leaf goes out with a command, a fork is divided further. */
  datatype Shape = Single | Fork(children: seq<Shape>)

  ghost predicate Laid(st: Tally, called: set<Callback>, c: Callback, shape: Shape)
    decreases shape
  {
    match shape
    case Single => c !in st.divisions
    case Fork(children) =>
      if children == [] then c in called
      else c in st.divisions && |st.divisions[c].once| == |children| &&
           forall i :: 0 <= i < |children| ==> Laid(st, called, Part(c, i), children[i])
  }

  /** Every leaf below `c` has been called at least once. */
  ghost predicate AllLeavesCalled(called: set<Callback>, c: Callback, shape: Shape)
    decreases shape
  {
    match shape
    case Single => c in called
    case Fork(children) => forall i :: 0 <= i < |children| ==> AllLeavesCalled(called, Part(c, i), children[i])
  }

  lemma {:induction false} JustifiedMeansLeavesCalled(
      root: Callback, st: Tally, called: set<Callback>, c: Callback, shape: Shape)
    requires Good(root, st, called) && Laid(st, called, c, shape)
    ensures Justified(st, called, c) <==> AllLeavesCalled(called, c, shape)
    decreases shape
  {
    if shape.Fork? && shape.children != [] {
      var once := st.divisions[c].once;
      forall i | 0 <= i < |once|
        ensures once[i] <==> AllLeavesCalled(called, Part(c, i), shape.children[i])
      {
        assert HasPart(st.divisions, c, i);
        JustifiedMeansLeavesCalled(root, st, called, Part(c, i), shape.children[i]);
      }
      UnsetIsZero(once);
    }
  }

  /** The divided completion fires exactly once, and only after every leaf below it has been called,
      whatever the nesting, the order of the calls, their repetition, and the moment of each
      division. */
  lemma RootFiresOnceAfterAllLeaves(root: Callback, ops: seq<Op>, shape: Shape)
    requires root.Root? && Linear(root, ops)
    requires Laid(Run(ops), Called(ops), root, shape) && shape.Fork? && shape.children != []
    ensures Run(ops).fires == if AllLeavesCalled(Called(ops), root, shape) then 1 else 0
  {
    RunIsExact(root, ops);
    JustifiedMeansLeavesCalled(root, Run(ops), Called(ops), root, shape);
  }

  /** The closures as one mutable store: every call may change the counters of its ancestors. */
  class Store {
    var divisions: Divisions
    var fires: nat

    constructor ()
      ensures divisions == map[] && fires == 0
    {
      divisions, fires := map[], 0;
    }

    method SplitCompletion(done: Callback, count: nat) returns (callbacks: seq<Callback>)
      modifies this
      ensures Tally(divisions, fires) == Apply(old(Tally(divisions, fires)), Divide(done, count))
      ensures |callbacks| == count && forall i :: 0 <= i < count ==> callbacks[i] == Part(done, i)
    {
      callbacks := [];
      if count == 0 {
        Call(done);
        return;
      }
      divisions := divisions[done := Fresh(count)];
      for i := 0 to count
        invariant divisions == old(divisions)[done := Fresh(count)] && fires == old(fires)
        invariant |callbacks| == i && forall k :: 0 <= k < i ==> callbacks[k] == Part(done, k)
      {
        callbacks := callbacks + [Part(done, i)];
      }
    }

    method Call(c: Callback)
      modifies this
      ensures Tally(divisions, fires) == Fire(old(Tally(divisions, fires)), c)
      decreases c
    {
      match c {
        case Root(_, _) => fires := fires + 1;
        case Part(p, i) =>
          if p !in divisions || i >= |divisions[p].once| || divisions[p].once[i] { return; }
          var v := divisions[p];
          var left := v.remaining - 1;
          divisions := divisions[p := Division(left, v.once[i := true])];
          if left == 0 { Call(p); }
      }
    }
  }
}
