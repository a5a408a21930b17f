/**
 Linear probing as the frame table and the call tree both use it: `buckets` is a
 power-of-two array holding 0 for "empty" and id + 1 otherwise. The numbered items
 are `keys`; those from `first` on are indexed (the tree does not index its root).
 */
module Probing {

  ghost predicate PowerOfTwo(n: nat) {
    n == 1 || (n > 1 && n % 2 == 0 && PowerOfTwo(n / 2))
  }

  lemma SixteenIsPower()
    ensures PowerOfTwo(16)
  {
    assert PowerOfTwo(4) by { assert PowerOfTwo(1) && PowerOfTwo(2); }
    assert PowerOfTwo(8);
  }

  lemma DoubleIsPower(n: nat)
    requires PowerOfTwo(n)
    ensures PowerOfTwo(n * 2)
  {
    assert n * 2 % 2 == 0 && n * 2 / 2 == n;
  }

  /** The bucket count is the least power of two from 16 up that holds twice the capacity. */
  method BucketCount(capacity: nat) returns (buckets: nat)
    requires capacity <= 0x1000_0000
    ensures PowerOfTwo(buckets) && 16 <= buckets
    ensures 2 * capacity <= buckets
    ensures buckets == 16 || buckets / 2 < 2 * capacity
  {
    buckets := 16;
    SixteenIsPower();
    while buckets < capacity * 2 && buckets < 0x4000_0000
      invariant PowerOfTwo(buckets) && 16 <= buckets
      invariant buckets == 16 || buckets / 2 < 2 * capacity
      decreases 2 * capacity - buckets
    {
      DoubleIsPower(buckets);
      buckets := buckets * 2;
    }
  }

  /** i modulo n for an i less than one turn past the end: what `& bucket_mask` does to a slot. */
  function Wrap(i: nat, n: nat): (slot: nat)
    requires 0 < n && i < 2 * n
    ensures slot < n
  {
    if i < n then i else i - n
  }

  /** How many steps forward lead from one slot to the other. */
  function Gap(from: nat, to: nat, n: nat): (gap: nat)
    requires from < n && to < n
    ensures gap < n && Wrap(from + gap, n) == to
  {
    if from <= to then to - from else to + n - from
  }

  /** The slot a hash starts probing at. */
  function Home(hash: nat, n: nat): (slot: nat)
    requires 0 < n
    ensures slot < n
  {
    hash % n
  }

  /** The k-th slot probed for a hash. */
  function Probe(hash: nat, k: nat, n: nat): (slot: nat)
    requires k < n
    ensures slot < n
  {
    Wrap(Home(hash, n) + k, n)
  }

  /** The keys at `first` and up are distinct. */
  ghost predicate Distinct<K>(keys: seq<K>, first: nat) {
    forall i, j :: first <= i < j < |keys| ==> keys[i] != keys[j]
  }

  /**
   `slots[id]` is where item id sits, and no slot between its home and there is empty.
   Every occupied bucket belongs to exactly one item.
   */
  ghost predicate Index<K>(buckets: seq<nat>, slots: seq<nat>, keys: seq<K>, first: nat, hash: K -> nat) {
    && |slots| == |keys| < |buckets|
    && (forall id :: first <= id < |keys| ==> slots[id] < |buckets| && buckets[slots[id]] == id + 1)
    && (forall s :: 0 <= s < |buckets| && buckets[s] != 0 ==>
          first < buckets[s] <= |keys| && slots[buckets[s] - 1] == s)
    && (forall id :: first <= id < |keys| ==> Reachable(buckets, hash(keys[id]), slots[id]))
  }

  /** Probing for `hash` does not stop at an empty bucket before `slot`. */
  ghost predicate Reachable(buckets: seq<nat>, hash: nat, slot: nat)
    requires slot < |buckets|
  {
    var n := |buckets|;
    forall k :: 0 <= k < Gap(Home(hash, n), slot, n) ==> buckets[Probe(hash, k, n)] != 0
  }

  lemma {:induction false} Pigeonhole(f: seq<nat>, m: nat)
    requires m < |f| && forall i :: 0 <= i < |f| ==> f[i] < m
    ensures exists i, j :: 0 <= i < j < |f| && f[i] == f[j]
    decreases m
  {
    var last := |f| - 1;
    assert f[last] < m;
    if i :| 0 <= i < last && f[i] == f[last] {
    } else {
      // Nothing else maps where the last one does, so renaming m - 1 to that value shrinks the range.
      var g := seq(last, i requires 0 <= i < last => if f[i] == m - 1 then f[last] else f[i]);
      Pigeonhole(g, m - 1);
      var i, j :| 0 <= i < j < |g| && g[i] == g[j];
      assert f[i] == f[j];
    }
  }

  /** Fewer items than buckets leave an empty bucket, which is what stops every probe. */
  lemma FreeBucket<K>(buckets: seq<nat>, slots: seq<nat>, keys: seq<K>, first: nat, hash: K -> nat)
    requires Index(buckets, slots, keys, first, hash)
    ensures exists s :: 0 <= s < |buckets| && buckets[s] == 0
  {
    if forall s :: 0 <= s < |buckets| ==> buckets[s] != 0 {
      var ids := seq(|buckets|, s requires 0 <= s < |buckets| => buckets[s] - 1);
      Pigeonhole(ids, |keys|);
    }
  }

  /** Probing `steps` buckets from the home of `key` met only other items. */
  ghost predicate Missed<K>(buckets: seq<nat>, keys: seq<K>, hash: nat, key: K, steps: nat) {
    var n := |buckets|;
    && steps < n
    && forall k :: 0 <= k < steps ==>
         var b := buckets[Probe(hash, k, n)];
         0 < b <= |keys| && keys[b - 1] != key
  }

  /** A probe for `key` has come to `slot` after as many misses, with the empty bucket `free` still ahead. */
  ghost predicate Underway<K>(buckets: seq<nat>, keys: seq<K>, hash: nat, key: K, free: nat, slot: nat, steps: nat) {
    var n := |buckets|;
    && Missed(buckets, keys, hash, key, steps) && slot == Probe(hash, steps, n)
    && free < n && buckets[free] == 0 && steps + Gap(slot, free, n) == Gap(Home(hash, n), free, n)
  }

  lemma ProbeStarts<K>(buckets: seq<nat>, keys: seq<K>, hash: nat, key: K, free: nat)
    requires free < |buckets| && buckets[free] == 0
    ensures Underway(buckets, keys, hash, key, free, Home(hash, |buckets|), 0)
  {
  }

  /** One more miss, and one step nearer to the empty bucket. */
  lemma ProbeGoesOn<K>(buckets: seq<nat>, keys: seq<K>, hash: nat, key: K, free: nat, slot: nat, steps: nat)
    requires Underway(buckets, keys, hash, key, free, slot, steps)
    requires 0 < buckets[slot] <= |keys| && keys[buckets[slot] - 1] != key
    ensures var next := Wrap(slot + 1, |buckets|);
      && Underway(buckets, keys, hash, key, free, next, steps + 1)
      && Gap(next, free, |buckets|) < Gap(slot, free, |buckets|)
  {
  }

  /** A probe that reaches an empty bucket without a match proves the key absent. */
  lemma MissIsAbsence<K>(buckets: seq<nat>, slots: seq<nat>, keys: seq<K>, first: nat, hash: K -> nat,
                         key: K, steps: nat)
    requires Index(buckets, slots, keys, first, hash)
    requires Missed(buckets, keys, hash(key), key, steps)
    requires buckets[Probe(hash(key), steps, |buckets|)] == 0
    ensures forall id :: first <= id < |keys| ==> keys[id] != key
  {
    var n := |buckets|;
    forall id | first <= id < |keys|
      ensures keys[id] != key
    {
      var gap := Gap(Home(hash(keys[id]), n), slots[id], n);
      assert Reachable(buckets, hash(keys[id]), slots[id]);
      assert Probe(hash(keys[id]), gap, n) == slots[id];
    }
  }

  /** Filling the empty bucket a probe ended on keeps the index. */
  lemma Inserted<K>(buckets: seq<nat>, slots: seq<nat>, keys: seq<K>, first: nat, hash: K -> nat,
                    key: K, steps: nat)
    requires Index(buckets, slots, keys, first, hash)
    requires first <= |keys| && |keys| + 1 < |buckets|
    requires Missed(buckets, keys, hash(key), key, steps)
    requires buckets[Probe(hash(key), steps, |buckets|)] == 0
    ensures var slot := Probe(hash(key), steps, |buckets|);
      Index(buckets[slot := |keys| + 1], slots + [slot], keys + [key], first, hash)
  {
    var n := |buckets|;
    var slot := Probe(hash(key), steps, n);
    var buckets' := buckets[slot := |keys| + 1];
    var slots', keys' := slots + [slot], keys + [key];
    forall id | first <= id < |keys'|
      ensures Reachable(buckets', hash(keys'[id]), slots'[id])
    {
      if id < |keys| {
        assert Reachable(buckets, hash(keys[id]), slots[id]);
      } else {
        assert Gap(Home(hash(key), n), slot, n) == steps;
      }
    }
  }
}
