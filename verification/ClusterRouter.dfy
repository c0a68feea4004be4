/** Which shard a slot belongs to: the slot lists of `internal/utils/cluster_nodes.go` and the router of
    `internal/writer/redis_cluster_writer.go`. */
module ClusterRouter {
  import opened Basics
  import opened Crc
  import opened Slots

  /** How many slots the lists hold together. */
  function Total(slots: seq<seq<int>>): nat
    decreases |slots|
  {
    if slots == [] then 0 else Total(slots[..|slots| - 1]) + |slots[|slots| - 1]|
  }

  /** A slot range of one node. */
  datatype Range = Range(first: int, last: int)

  function Expand(ranges: seq<Range>): seq<int>
    decreases |ranges|
  {
    if ranges == [] then []
    else
      var r := ranges[|ranges| - 1];
      Expand(ranges[..|ranges| - 1]) + (if r.last < r.first then [] else seq(r.last - r.first + 1, i => r.first + i))
  }

  /** The loops that turn ranges into slot lists and count the slots; a count other than 16384 is a panic. */
  method CollectSlots(nodes: seq<seq<Range>>) returns (slots: seq<seq<int>>, ok: bool)
    ensures |slots| == |nodes| && forall n :: 0 <= n < |nodes| ==> slots[n] == Expand(nodes[n])
    ensures ok <==> Total(slots) == KEY_SLOTS
  {
    slots := [];
    var count := 0;
    for n := 0 to |nodes|
      invariant |slots| == n && count == Total(slots)
      invariant forall m :: 0 <= m < n ==> slots[m] == Expand(nodes[m])
    {
      var slot: seq<int> := [];
      for i := 0 to |nodes[n]|
        invariant slot == Expand(nodes[n][..i]) && count == Total(slots) + |slot|
      {
        var r := nodes[n][i];
        ghost var before := slot;
        var j := r.first;
        while j <= r.last
          invariant r.first <= j && (if r.last < r.first then j == r.first else j <= r.last + 1)
          invariant slot == before + seq(j - r.first, k => r.first + k) && count == Total(slots) + |slot|
        {
          slot, count := slot + [j], count + 1;
          j := j + 1;
        }
        assert nodes[n][..i + 1][..i] == nodes[n][..i];
        assert r.last < r.first ==> slot == before + [];
      }
      assert nodes[n][..|nodes[n]|] == nodes[n];
      assert (slots + [slot])[..n] == slots;
      slots := slots + [slot];
    }
    ok := count == KEY_SLOTS;
  }

  // ----- the router -----

  /** Every slot listed lies in the key space, and none is listed twice, by one node or by two. */
  ghost predicate InRange(slots: seq<seq<int>>) {
    forall n, k :: 0 <= n < |slots| && 0 <= k < |slots[n]| ==> 0 <= slots[n][k] < KEY_SLOTS
  }

  ghost predicate Distinct(slots: seq<seq<int>>) {
    forall n, k, m, j ::
      (&& 0 <= n < |slots| && 0 <= k < |slots[n]| && 0 <= m < |slots| && 0 <= j < |slots[m]|
       && slots[n][k] == slots[m][j]) ==> n == m && k == j
  }

  datatype Outcome = Loaded | OutOfRange | Occupied | NotOccupied

  ghost function AllSlots(n: nat): (all: set<int>)
    ensures forall s :: s in all <==> 0 <= s < n
    ensures |all| == n
  {
    if n == 0 then {} else
      var rest := AllSlots(n - 1);
      assert n - 1 !in rest;
      rest + {n - 1}
  }

  /** A set of as many slots as there are is all of them. */
  lemma Pigeonhole(taken: set<int>, n: nat)
    requires |taken| == n && forall s :: s in taken ==> 0 <= s < n
    ensures forall s :: 0 <= s < n ==> s in taken
  {
    var all := AllSlots(n);
    if missing :| 0 <= missing < n && missing !in taken {
      var fewer := all - {missing};
      assert |fewer| == n - 1;
      Smaller(taken, fewer);
    }
  }

  lemma Smaller(a: set<int>, b: set<int>)
    requires a <= b
    ensures |a| <= |b|
  {
    assert b == a + (b - a);
  }

  /** Entry `j` of list `m` comes before entry `k` of list `n`. */
  ghost predicate Earlier(slots: seq<seq<int>>, m: nat, j: nat, n: nat, k: nat) {
    m < |slots| && j < |slots[m]| && (m < n || (m == n && j < k))
  }

  ghost predicate Placed(m: nat, j: nat, s: int, router: seq<Option<nat>>, slots: seq<seq<int>>, n: nat, k: nat)
    requires |router| == KEY_SLOTS
  {
    0 <= s < KEY_SLOTS && router[s] == Some(m) && Earlier(slots, m, j, n, k) && slots[m][j] == s
  }

  /** After the entries before `(n, k)`: the router names for each slot seen the list it was seen in, and
      `where` the one place. */
  ghost predicate Tracks(where: map<int, (nat, nat)>, router: seq<Option<nat>>, slots: seq<seq<int>>, n: nat, k: nat) {
    |router| == KEY_SLOTS
    && (forall s :: 0 <= s < KEY_SLOTS ==> (router[s].Some? <==> s in where))
    && (forall s :: s in where ==> Placed(where[s].0, where[s].1, s, router, slots, n, k))
    && (forall m: nat, j: nat :: Earlier(slots, m, j, n, k) ==> slots[m][j] in where && where[slots[m][j]] == (m, j))
  }

  lemma TracksNext(where: map<int, (nat, nat)>, router: seq<Option<nat>>, slots: seq<seq<int>>, n: nat, k: nat)
    requires Tracks(where, router, slots, n, k) && n < |slots| && k < |slots[n]|
    requires 0 <= slots[n][k] < KEY_SLOTS && router[slots[n][k]].None?
    ensures var s := slots[n][k]; Tracks(where[s := (n, k)], router[s := Some(n)], slots, n, k + 1)
  {
    var s := slots[n][k];
    var next := where[s := (n, k)];
    assert s !in where;
    forall m: nat, j: nat | Earlier(slots, m, j, n, k + 1)
      ensures slots[m][j] in next && next[slots[m][j]] == (m, j)
    {
      if !(m == n && j == k) { assert Earlier(slots, m, j, n, k); }
    }
    forall t | t in next
      ensures Earlier(slots, next[t].0, next[t].1, n, k + 1) && slots[next[t].0][next[t].1] == t
    {
      if t != s { assert Earlier(slots, where[t].0, where[t].1, n, k); }
    }
  }

  lemma TracksRow(where: map<int, (nat, nat)>, router: seq<Option<nat>>, slots: seq<seq<int>>, n: nat)
    requires n < |slots| && Tracks(where, router, slots, n, |slots[n]|)
    ensures Tracks(where, router, slots, n + 1, 0)
  {
    forall m: nat, j: nat
      ensures Earlier(slots, m, j, n, |slots[n]|) <==> Earlier(slots, m, j, n + 1, 0)
    {}
  }

  /** The router names for each slot the node that listed it, and no other. */
  ghost predicate Owners(router: seq<Option<nat>>, slots: seq<seq<int>>)
    requires |router| == KEY_SLOTS
  {
    forall s: nat, n: nat :: s < KEY_SLOTS ==> (router[s] == Some(n) <==> n < |slots| && s in slots[n])
  }

  /** All entries seen: in range, distinct, and each owned by the list it is in. */
  lemma TracksAll(where: map<int, (nat, nat)>, router: seq<Option<nat>>, slots: seq<seq<int>>)
    requires Tracks(where, router, slots, |slots|, 0)
    ensures InRange(slots) && Distinct(slots)
    ensures |router| == KEY_SLOTS && Owners(router, slots)
  {
    forall n: nat, k: nat | n < |slots| && k < |slots[n]|
      ensures slots[n][k] in where && where[slots[n][k]] == (n, k)
    {
      assert Earlier(slots, n, k, |slots|, 0);
    }
    forall s: nat, n: nat | s < KEY_SLOTS
      ensures router[s] == Some(n) <==> n < |slots| && s in slots[n]
    {
      if n < |slots| && s in slots[n] {
        var k: nat :| k < |slots[n]| && slots[n][k] == s;
        assert where[s] == (n, k) && Placed(n, k, s, router, slots, |slots|, 0);
      }
      if router[s] == Some(n) {
        assert s in where && Placed(where[s].0, where[s].1, s, router, slots, |slots|, 0);
      }
    }
  }

  /** A second entry for a slot shows that the lists are not distinct. */
  lemma SeenTwice(where: map<int, (nat, nat)>, router: seq<Option<nat>>, slots: seq<seq<int>>, n: nat, k: nat)
    requires Tracks(where, router, slots, n, k) && n < |slots| && k < |slots[n]|
    requires slots[n][k] in where
    ensures !Distinct(slots)
  {
    var s := slots[n][k];
    var (m, j) := where[s];
    assert Earlier(slots, where[s].0, where[s].1, n, k);
    assert slots[m][j] == s;
  }

  /** The router is loaded exactly if the lists, which hold 16384 slots together, are in range and distinct;
      then it is total, so the last check of the program never fires, and each slot belongs to the node
      that listed it. */
  method LoadClusterNodes(slots: seq<seq<int>>) returns (router: array<Option<nat>>, outcome: Outcome)
    requires Total(slots) == KEY_SLOTS
    ensures fresh(router) && router.Length == KEY_SLOTS
    ensures outcome != NotOccupied
    ensures outcome == Loaded <==> InRange(slots) && Distinct(slots)
    ensures outcome == Loaded ==> forall s :: 0 <= s < KEY_SLOTS ==> router[s].Some?
    ensures outcome == Loaded ==> Owners(router[..], slots)
  {
    hide Tracks, Distinct;
    router := new Option<nat>[KEY_SLOTS](_ => None);
    ghost var where: map<int, (nat, nat)> := map[];
    NothingTracked(router[..], slots);
    for n := 0 to |slots|
      invariant Tracks(where, router[..], slots, n, 0) && |where| == Total(slots[..n])
    {
      for k := 0 to |slots[n]|
        invariant Tracks(where, router[..], slots, n, k) && |where| == Total(slots[..n]) + k
      {
        var s := slots[n][k];
        if s < 0 || s >= KEY_SLOTS { return router, OutOfRange; }
        InWhere(where, router[..], slots, n, k);
        if router[s].Some? {
          SeenTwice(where, router[..], slots, n, k);
          return router, Occupied;
        }
        TracksNext(where, router[..], slots, n, k);
        ghost var was := router[..];
        router[s] := Some(n);
        assert router[..] == was[s := Some(n)];
        where := where[s := (n, k)];
      }
      TracksRow(where, router[..], slots, n);
      assert slots[..n + 1][..n] == slots[..n];
    }
    assert slots[..|slots|] == slots;
    TracksAll(where, router[..], slots);
    AllTaken(where, router[..], slots);
    for i := 0 to KEY_SLOTS
    {
      if router[i].None? { return router, NotOccupied; }
    }
    outcome := Loaded;
  }

  lemma NothingTracked(router: seq<Option<nat>>, slots: seq<seq<int>>)
    requires |router| == KEY_SLOTS && forall s :: 0 <= s < KEY_SLOTS ==> router[s].None?
    ensures Tracks(map[], router, slots, 0, 0)
  {}

  lemma InWhere(where: map<int, (nat, nat)>, router: seq<Option<nat>>, slots: seq<seq<int>>, n: nat, k: nat)
    requires Tracks(where, router, slots, n, k)
    ensures |router| == KEY_SLOTS && forall s :: 0 <= s < KEY_SLOTS ==> (router[s].Some? <==> s in where)
  {}

  lemma AllTaken(where: map<int, (nat, nat)>, router: seq<Option<nat>>, slots: seq<seq<int>>)
    requires Tracks(where, router, slots, |slots|, 0) && |where| == KEY_SLOTS
    ensures |router| == KEY_SLOTS && forall s :: 0 <= s < KEY_SLOTS ==> router[s].Some?
  {
    Pigeonhole(where.Keys, KEY_SLOTS);
  }

  // ----- routing -----

  /** A command with keys goes to the owner of their slot; keys of different slots are a panic. */
  method Route(router: array<Option<nat>>, keySlots: seq<int>) returns (owner: Option<nat>)
    requires router.Length == KEY_SLOTS && keySlots != [] && forall i :: 0 <= i < |keySlots| ==>
        0 <= keySlots[i] < KEY_SLOTS
    ensures owner == if forall i :: 0 <= i < |keySlots| ==> keySlots[i] == keySlots[0] then router[keySlots[0]]
        else None
  {
    var lastSlot := -1;
    for i := 0 to |keySlots|
      invariant i > 0 ==> lastSlot == keySlots[0]
      invariant i == 0 ==> lastSlot == -1
      invariant forall j :: 0 <= j < i ==> keySlots[j] == keySlots[0]
    {
      if lastSlot == -1 { lastSlot := keySlots[i]; }
      if keySlots[i] != lastSlot { return None; }
    }
    owner := router[lastSlot];
  }

  /** The slot a key belongs to. */
  ghost function SlotOfKey(key: Data): nat { SlotOf(Bitwise16(0, Hashed(key))) }

  /** A command on a loaded router, from its keys to its shard: if all keys have one slot it reaches the node that
      listed the slot, and there is no other; keys of different slots panic. */
  method RouteKeys(router: array<Option<nat>>, slots: seq<seq<int>>, keys: seq<Data>) returns (owner: Option<nat>)
    requires router.Length == KEY_SLOTS && Owners(router[..], slots) && keys != []
    requires forall s :: 0 <= s < KEY_SLOTS ==> router[s].Some?
    ensures owner.Some? <==> forall i :: 0 <= i < |keys| ==> SlotOfKey(keys[i]) == SlotOfKey(keys[0])
    ensures owner.Some? ==> forall n: nat :: n < |slots| && SlotOfKey(keys[0]) in slots[n] <==> n == owner.value
  {
    hide Bitwise16, SlotOf, Hashed;
    var keySlots := CalcSlots(keys);
    owner := Route(router, keySlots);
    assert forall i :: 0 <= i < |keys| ==> keySlots[i] == SlotOfKey(keys[i]);
    if owner.Some? {
      var s: nat := keySlots[0];
      assert router[..][s] == owner;
    }
  }

  /** Keys that carry the same tag have the same slot, so that a command on them always reaches its shard. */
  lemma SameTagOneShard(tag: Data, before: Data, after: Data, before': Data, after': Data)
    requires tag != [] && CLOSE !in tag && OPEN !in before && OPEN !in before'
    ensures SlotOfKey(before + [OPEN] + tag + [CLOSE] + after) == SlotOfKey(before' + [OPEN] + tag + [CLOSE] + after')
  {
    hide Bitwise16, SlotOf, Hashed;
    SameTagSameSlot(tag, before, after);
    SameTagSameSlot(tag, before', after');
  }
}
