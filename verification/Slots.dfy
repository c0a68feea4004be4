/** The slots of keys: `keyHash` and `CalcSlots` of `internal/commands/keys.go`. */
module Slots {
  import opened Crc

  const KEY_SLOTS := 16384

  const OPEN: bv8 := 0x7B
  const CLOSE: bv8 := 0x7D

  // ----- hash tags -----

  /** Position of the first `c` from `from` on; the length if there is none. */
  function FirstFrom(s: Data, from: nat, c: bv8): (i: nat)
    requires from <= |s|
    ensures from <= i <= |s| && (i < |s| ==> s[i] == c) && forall j :: from <= j < i ==> s[j] != c
    decreases |s| - from
  {
    if from == |s| || s[from] == c then from else FirstFrom(s, from + 1, c)
  }

  /** The rule of the Redis Cluster specification, section "Hash tags": if there is an opening brace, and a
      closing brace to the right of it, and at least one character between the first opening brace and the
      first closing brace after it, then only what is between them is hashed. */
  function Hashed(key: Data): Data {
    var i := FirstFrom(key, 0, OPEN);
    if i == |key| then key
    else
      var j := FirstFrom(key, i + 1, CLOSE);
      if j == |key| || j == i + 1 then key else key[i + 1..j]
  }

  /** The slot of a key as a number. */
  function SlotOf(crc: bv16): (slot: nat)
    ensures slot < KEY_SLOTS
  {
    ((crc & 0x3FFF) as bv14) as nat
  }

  /** The labelled scan of the program. */
  method KeyHash(key: Data) returns (slot: nat)
    ensures slot == SlotOf(Bitwise16(0, Hashed(key)))
    ensures slot < KEY_SLOTS
  {
    hide Bitwise16, SlotOf;
    var hashtag: Data := [];
    var i := 0;
    label findHashTag: while i < |key|
      invariant i <= |key|
      invariant hashtag == []
      invariant i <= FirstFrom(key, 0, OPEN) || forall k :: FirstFrom(key, 0, OPEN) <= k < |key| ==> key[k] != CLOSE
    {
      if key[i] == OPEN {
        var k := i;
        while k < |key|
          invariant i <= k <= |key|
          invariant forall m :: i <= m < k ==> key[m] != CLOSE
        {
          if key[k] == CLOSE {
            assert FirstFrom(key, 0, OPEN) == i;
            assert FirstFrom(key, i + 1, CLOSE) == k;
            hashtag := key[i + 1..k];
            break findHashTag;
          }
          k := k + 1;
        }
        assert FirstFrom(key, 0, OPEN) <= i;
      }
      i := i + 1;
    }
    var hashed := if |hashtag| > 0 then hashtag else key;
    var crc := Crc16(hashed);
    slot := SlotOf(crc);
  }

  method CalcSlots(keys: seq<Data>) returns (slots: seq<nat>)
    ensures |slots| == |keys| && forall i :: 0 <= i < |keys| ==>
        slots[i] == SlotOf(Bitwise16(0, Hashed(keys[i]))) < KEY_SLOTS
  {
    hide Bitwise16, SlotOf, Hashed;
    slots := [];
    for inx := 0 to |keys|
      invariant |slots| == inx && forall i :: 0 <= i < inx ==>
          slots[i] == SlotOf(Bitwise16(0, Hashed(keys[i]))) < KEY_SLOTS
    {
      var slot := KeyHash(keys[inx]);
      slots := slots + [slot];
    }
  }

  /** Equal tags, equal slots: keys that share a hash tag go to the same shard. */
  lemma SameTagSameSlot(tag: Data, before: Data, after: Data)
    requires tag != [] && CLOSE !in tag && OPEN !in before
    ensures Hashed(before + [OPEN] + tag + [CLOSE] + after) == tag
  {
    var key := before + [OPEN] + tag + [CLOSE] + after;
    var i := |before|;
    assert key[i] == OPEN;
    assert forall j :: 0 <= j < i ==> key[j] == before[j];
    assert FirstFrom(key, 0, OPEN) == i;
    var j := i + 1 + |tag|;
    assert key[j] == CLOSE;
    assert forall m :: i + 1 <= m < j ==> key[m] == tag[m - i - 1];
    assert FirstFrom(key, i + 1, CLOSE) == j;
    assert key[i + 1..j] == tag;
  }
}
