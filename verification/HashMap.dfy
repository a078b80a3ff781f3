/**
  The emhash8 hash map (comm/include/ps/hash_table8.hpp) with its default
  configuration: a dense array of pairs and a bucket index over it, rebuilt
  when the load check asks for more buckets.  Growth goes through
  `CheckExpandNeed` only.
 */
module HashMapModel {
  import opened Prelude
  import opened HashChains

  // (uint32_t)((1 << 27) / 0.80f): the quotient rounds to 1.25 * 2^27
  const MLF: nat := 167772160
  const TWO27: nat := 0x800_0000
  const MAX_SIZE: nat := 0x8000_0000

  // num_elems * _mlf >> 27
  function RequiredBuckets(m: nat): nat {
    m * MLF / TWO27
  }

  // (size_type)(num_buckets * 0.80f) + 4, where 0.80f is 13421773 / 2^24
  function PairCapacity(n: nat): nat {
    n * 13421773 / 16777216 + 4
  }

  // A table that passes the load check has two empty buckets and room for one
  // more pair.
  lemma LoadLeavesRoom(m: nat, n: nat)
    requires RequiredBuckets(m) + 2 <= n
    ensures m + 2 <= n && m + 1 <= PairCapacity(n)
  {
    var r := RequiredBuckets(m);
    assert m * MLF < (r + 1) * TWO27;
    assert 5 * m < 4 * (r + 1);
    var c := n * 13421773 / 16777216;
    assert n * 13421773 < (c + 1) * 16777216;
    assert 4 * n < 5 * (c + 1);
  }

  lemma DoublingStaysBelow(n: nat)
    requires PowerOfTwo(n) && n < MAX_SIZE
    ensures PowerOfTwo(2 * n) && 2 * n <= MAX_SIZE
  {
    Two32IsPower();
    PowersDivide(n, MAX_SIZE);
    var q := DivMod(MAX_SIZE, n);
    if q >= 2 { TimesAtLeast(q - 1, n); assert q * n == (q - 1) * n + n; }
    assert (2 * n) / 2 == n;
  }

  // Memory of one pair: uninitialised, or holding a key and a value.
  datatype Slot<K, V> = Raw | Pair(key: K, val: V)

  // kh holds the 32-bit hashes of the first keys of ps.
  ghost predicate Hashed<K, V>(ps: seq<Slot<K, V>>, kh: seq<nat>, hasher: K -> nat) {
    |kh| <= |ps| && forall s :: 0 <= s < |kh| ==> ps[s].Pair? && kh[s] == hasher(ps[s].key) % TWO32
  }

  // slotOf inverts the keys of the pairs, and the pairs are the contents.
  ghost predicate KeysMatch<K, V>(ps: seq<Slot<K, V>>, slotOf: map<K, nat>, contents: map<K, V>) {
    && (forall s :: 0 <= s < |ps| ==> ps[s].Pair? && ps[s].key in slotOf && slotOf[ps[s].key] == s)
    && (forall k :: k in slotOf ==> slotOf[k] < |ps| && ps[slotOf[k]].Pair? && ps[slotOf[k]].key == k)
    && slotOf.Keys == contents.Keys
    && (forall s :: 0 <= s < |ps| ==> ps[s].key in contents && contents[ps[s].key] == ps[s].val)
  }

  lemma AppendKey<K, V>(ps: seq<Slot<K, V>>, slotOf: map<K, nat>, contents: map<K, V>, key: K, val: V)
    requires KeysMatch(ps, slotOf, contents) && key !in contents
    ensures KeysMatch(ps + [Pair(key, val)], slotOf[key := |ps|], contents[key := val])
  {
    var ps' := ps + [Pair(key, val)];
    forall s | 0 <= s < |ps'| ensures s < |ps| ==> ps'[s] == ps[s] && ps[s].key != key {}
  }

  lemma UpdateValue<K, V>(ps: seq<Slot<K, V>>, slotOf: map<K, nat>, contents: map<K, V>, slot: nat, val: V)
    requires KeysMatch(ps, slotOf, contents) && slot < |ps|
    ensures KeysMatch(ps[slot := ps[slot].(val := val)], slotOf, contents[ps[slot].key := val])
  {
  }

  // The last pair moves into slot, whose key goes away.
  ghost function MoveLast<T>(ps: seq<T>, slot: nat): seq<T>
    requires slot < |ps|
  {
    var m := |ps| - 1;
    if slot == m then ps[..m] else ps[..m][slot := ps[m]]
  }

  ghost function MoveLastKey<K, V>(ps: seq<Slot<K, V>>, slotOf: map<K, nat>, slot: nat): map<K, nat>
    requires slot < |ps| && forall s :: 0 <= s < |ps| ==> ps[s].Pair?
  {
    var m := |ps| - 1;
    (if slot == m then slotOf else slotOf[ps[m].key := slot]) - {ps[slot].key}
  }

  lemma RemoveKey<K, V>(ps: seq<Slot<K, V>>, slotOf: map<K, nat>, contents: map<K, V>, slot: nat)
    requires KeysMatch(ps, slotOf, contents) && slot < |ps|
    ensures KeysMatch(MoveLast(ps, slot), MoveLastKey(ps, slotOf, slot), contents - {ps[slot].key})
  {
    var ps', slotOf' := MoveLast(ps, slot), MoveLastKey(ps, slotOf, slot);
    var m, key := |ps| - 1, ps[slot].key;
    forall s | 0 <= s < |ps'|
      ensures ps'[s].Pair? && ps'[s].key in slotOf' && slotOf'[ps'[s].key] == s
    {
      assert ps'[s] == if s == slot then ps[m] else ps[s];
    }
    forall k | k in slotOf'
      ensures slotOf'[k] < |ps'| && ps'[slotOf'[k]].Pair? && ps'[slotOf'[k]].key == k
    {
      assert k in slotOf && k != key;
    }
    assert slotOf'.Keys == slotOf.Keys - {key};
  }

  lemma HashedMoveLast<K, V>(ps: seq<Slot<K, V>>, kh: seq<nat>, hasher: K -> nat, slot: nat)
    requires Hashed(ps, kh, hasher) && slot < |ps| == |kh|
    ensures Hashed(MoveLast(ps, slot), MoveLast(kh, slot), hasher)
  {
  }

  lemma LoOfSmall(x: nat, n: nat)
    requires 0 < n
    ensures x < n ==> Lo(x, n) == x
    ensures Lo(n, n) == 0
  {
    if x < n { DivModUnique(x, n, 0, x); }
    DivModUnique(n, n, 1, 0);
  }

  // Steps until the `_last` sweep tests bucket `target`.
  ghost function SweepDistance(last: nat, target: nat, n: nat): nat
    requires last <= n && 0 < target < n
  {
    var c := if last == n then 0 else last;
    if c < target then target - c else n - c + target
  }

  ghost predicate Mirrors(a: array<Index>, ix: seq<Index>)
    reads a
  {
    a.Length == |ix| && forall i :: 0 <= i < |ix| ==> a[i] == ix[i]
  }

  // The array still shows bucket e, which the table has already freed.
  ghost predicate MirrorsBut(a: array<Index>, ix: seq<Index>, e: nat)
    reads a
  {
    && a.Length == |ix| && e < |ix| && ix[e] == Index(INACTIVE, 0)
    && forall i :: 0 <= i < |ix| && i != e ==> a[i] == ix[i]
  }

  // The used part of the pairs array.
  ghost predicate Holds<K, V>(a: array<Slot<K, V>>, ps: seq<Slot<K, V>>)
    reads a
  {
    |ps| <= a.Length && forall s :: 0 <= s < |ps| ==> a[s] == ps[s]
  }

  // A table of n buckets with its sentinels and room for its slots.
  ghost predicate Fits(t: Table, n: nat, capacity: nat) {
    && Shape(t) && t.n == n && t.ix[n] == Index(0, 0) && t.ix[n + 1] == Index(0, 0)
    && |t.kh| < n && |t.kh| <= capacity
  }

  lemma MoveFits(t: Table, prev: nat, b: nat, e: nat, n: nat, capacity: nat)
    requires Fits(t, n, capacity) && prev < n && b < n && e < n && b != e && b != prev && Lo(t.ix[b].slot, n) < |t.kh|
    requires Empty(t.ix[e])
    ensures var t' := Move(t, prev, b, e);
      Fits(t', n, capacity) && t'.kh == t.kh && Empty(t'.ix[b])
  {
  }

  lemma PlaceFits(t: Table, b: nat, r: nat, h: nat, n: nat, capacity: nat)
    requires Fits(t, n, capacity) && b < n && |t.kh| + 1 < n && |t.kh| + 1 <= capacity
    ensures Fits(Place(t, b, r, h), n, capacity)
  {
  }

  lemma HashedMore<K, V>(ps: seq<Slot<K, V>>, kh: seq<nat>, hasher: K -> nat, key: K, val: V)
    requires Hashed(ps, kh, hasher) && |kh| == |ps|
    ensures Hashed(ps + [Pair(key, val)], kh + [hasher(key) % TWO32], hasher)
  {
  }

  class HashMap<K(==), V> {
    const hasher: K -> nat
    const valueInit: V
    var index: array<Index>
    var pairs: array<Slot<K, V>>
    var mask: nat
    var numBuckets: nat
    var numFilled: nat
    var last: nat
    var etail: nat

    // The index with its explanation, the pairs, the slot of each key, and the
    // map that the table stands for.
    ghost var t: Table
    ghost var ps: seq<Slot<K, V>>
    ghost var slotOf: map<K, nat>
    ghost var Contents: map<K, V>

    // (size_type)hash_key(key)
    function Hash32(k: K): nat {
      hasher(k) % TWO32
    }

    ghost predicate Sized()
      reads this
    {
      && mask + 1 == numBuckets && PowerOfTwo(numBuckets) && 4 <= numBuckets <= MAX_SIZE
      && pairs.Length == PairCapacity(numBuckets)
      && last <= numBuckets
      && Fits(t, numBuckets, pairs.Length)
    }

    ghost predicate Frame()
      reads this, index, pairs
    {
      Sized() && Mirrors(index, t.ix) && Holds(pairs, ps) && Hashed(ps, t.kh, hasher)
    }

    ghost predicate KeysOk()
      reads this
    {
      |ps| == numFilled && KeysMatch(ps, slotOf, Contents)
    }

    ghost predicate Valid()
      reads this, index, pairs
    {
      Frame() && Consistent(t, NO_HOLE) && |t.kh| == numFilled && KeysOk() && TailOk()
    }

    // -------------------------------------------------------------- walking

    method FindEmptyBucket(from: nat, csize: nat) returns (bucket: nat)
      requires Frame() && from < numBuckets && HasEmpty(t)
      modifies this`last
      ensures last <= numBuckets && bucket < numBuckets && Empty(t.ix[bucket])
    {
      bucket := from + 1;
      if Empty(index[bucket]) { return; }
      bucket := from + 2;
      if Empty(index[bucket]) { return; }
      var offset, step := 1 + csize, 3;
      while step < 6
        invariant offset >= 0
      {
        bucket := Lo(from + offset, numBuckets);
        if Empty(index[bucket]) { return; }
        bucket := bucket + 1;
        if Empty(index[bucket]) { return; }
        offset, step := offset + step, step + 1;
      }
      ghost var e :| 0 <= e < t.n && Empty(t.ix[e]);
      assert Empty(index[e]);
      bucket := Sweep();
    }

    // The last resort of find_empty_bucket: step `_last` through the table and
    // probe half a table away.  `_last` never tests bucket 0, the probe does.
    method Sweep() returns (bucket: nat)
      requires 4 <= numBuckets && numBuckets % 2 == 0 && index.Length == numBuckets + 2
      requires !Empty(index[numBuckets]) && !Empty(index[numBuckets + 1]) && last <= numBuckets
      requires exists e :: 0 <= e < numBuckets && Empty(index[e])
      modifies this`last
      ensures bucket < numBuckets && Empty(index[bucket]) && last <= numBuckets
    {
      ghost var e :| 0 <= e < numBuckets && Empty(index[e]);
      ghost var target := if e > 0 then e else numBuckets / 2;
      while true
        invariant last <= numBuckets
        decreases SweepDistance(last, target, numBuckets)
      {
        LoOfSmall(last, numBuckets);
        last := Lo(last, numBuckets);
        last := last + 1;
        if Empty(index[last]) { return last; }
        LoOfSmall(numBuckets / 2 + last, numBuckets);
        var medium := Lo(numBuckets / 2 + last, numBuckets);
        if Empty(index[medium]) { return medium; }
      }
    }

    method FindLastBucket(start: nat) returns (tail: nat)
      requires Frame() && Consistent(t, NO_HOLE) && Occupied(t, start)
      ensures Occupied(t, tail) && t.ix[tail].next == tail && t.home[tail] == t.home[start]
    {
      var x := index[start].next;
      if x == start { return start; }
      assert LinkOk(t, start);
      while true
        invariant Occupied(t, x) && t.home[x] == t.home[start]
        decreases RankBound(t.rank) - t.rank[x]
      {
        assert LinkOk(t, x);
        var y := index[x].next;
        if y == x { return x; }
        x := y;
      }
    }

    method FindPrevBucket(main: nat, bucket: nat) returns (prev: nat)
      requires Frame() && Consistent(t, NO_HOLE)
      requires Occupied(t, bucket) && t.home[bucket] == main != bucket
      ensures Occupied(t, prev) && prev != bucket && t.ix[prev].next == bucket
    {
      assert LinkOk(t, bucket) && LinkOk(t, main) && OrderOk(t, main, bucket);
      var x := index[main].next;
      if x == bucket { return main; }
      assert OrderOk(t, x, bucket);
      while true
        invariant Occupied(t, x) && t.home[x] == main && t.rank[x] < t.rank[bucket]
        decreases t.rank[bucket] - t.rank[x]
      {
        assert LinkOk(t, x) && OrderOk(t, x, bucket);
        var y := index[x].next;
        if y == bucket { return x; }
        assert OrderOk(t, y, bucket);
        x := y;
      }
    }

    // The bucket of a key, or INACTIVE.
    method FindFilledBucket(key: K, keyHash: nat) returns (bucket: nat)
      requires Valid() && keyHash == hasher(key)
      ensures if key in Contents then bucket == t.where[slotOf[key]] else bucket == INACTIVE
    {
      var main := Lo(keyHash, numBuckets);
      LookupTarget(key);
      if Empty(index[main]) { return INACTIVE; }
      var slot := Lo(index[main].slot, numBuckets);
      CompareAt(key, main);
      if Hi(Hash32(key), numBuckets) == Hi(index[main].slot, numBuckets) && key == pairs[slot].key { return main; }
      var x := index[main].next;
      PassBy(key, main);
      if x == main { return INACTIVE; }
      var found, y, _ := WalkChain(key, x, t.home[x]);
      bucket := if found then y else INACTIVE;
    }

    // The slot of a key, or numFilled.
    method FindFilledSlot(key: K) returns (slot: nat)
      requires Valid()
      ensures if key in Contents then slot == slotOf[key] else slot == numFilled
    {
      var main := Lo(hasher(key), numBuckets);
      LookupTarget(key);
      if Empty(index[main]) { return numFilled; }
      slot := Lo(index[main].slot, numBuckets);
      CompareAt(key, main);
      if Hi(Hash32(key), numBuckets) == Hi(index[main].slot, numBuckets) && key == pairs[slot].key { return; }
      var x := index[main].next;
      PassBy(key, main);
      if x == main { return numFilled; }
      var found, bucket, _ := WalkChain(key, x, t.home[x]);
      slot := if found then Lo(index[bucket].slot, numBuckets) else numFilled;
    }

    // The rest of a chain from start on: the bucket of the key, or the last bucket.
    method WalkChain(key: K, start: nat, ghost main: nat) returns (found: bool, x: nat, csize: nat)
      requires Valid() && Occupied(t, start) && t.home[start] == main
      requires key in Contents ==>
        var c := t.where[slotOf[key]]; Occupied(t, c) && t.home[c] == main && t.rank[start] <= t.rank[c]
      ensures Occupied(t, x) && t.home[x] == main && found == (key in Contents)
      ensures if found then x == t.where[slotOf[key]] && Lo(t.ix[x].slot, numBuckets) == slotOf[key]
        else t.ix[x].next == x
    {
      x, csize := start, 1;
      var h := Hash32(key);
      while true
        invariant Occupied(t, x) && t.home[x] == main
        invariant key in Contents ==> t.rank[x] <= t.rank[t.where[slotOf[key]]]
        decreases RankBound(t.rank) - t.rank[x]
      {
        CompareAt(key, x);
        if Hi(h, numBuckets) == Hi(index[x].slot, numBuckets) {
          var eslot := Lo(index[x].slot, numBuckets);
          if key == pairs[eslot].key { return true, x, csize; }
        }
        PassBy(key, x);
        csize := csize + 1;
        var y := index[x].next;
        if y == x { return false, x, csize; }
        x := y;
      }
    }

    // A key that is stored but not in bucket x lies further down x's chain.
    lemma PassBy(key: K, x: nat)
      requires Valid() && Occupied(t, x)
      requires key in Contents ==>
        var c := t.where[slotOf[key]]; Occupied(t, c) && t.home[c] == t.home[x] && t.rank[x] <= t.rank[c] && x != c
      ensures Occupied(t, t.ix[x].next) && t.home[t.ix[x].next] == t.home[x]
      ensures key in Contents ==> t.ix[x].next != x && t.rank[t.ix[x].next] <= t.rank[t.where[slotOf[key]]]
      ensures t.ix[x].next != x ==> t.rank[x] < t.rank[t.ix[x].next]
    {
      assert LinkOk(t, x);
      if key in Contents { assert OrderOk(t, x, t.where[slotOf[key]]); }
    }

    // A stored key sits in the chain of its main bucket.
    lemma LookupTarget(key: K)
      requires Valid()
      ensures key in Contents ==>
        var c := t.where[slotOf[key]];
        var main := Lo(hasher(key), numBuckets);
        && Occupied(t, c) && t.home[c] == main
        && Occupied(t, main) && t.home[main] == main && t.rank[main] == 0
    {
      if key in Contents {
        var s := slotOf[key];
        var c := t.where[s];
        assert SlotOk(t, NO_HOLE, s) && BucketOk(t, NO_HOLE, c);
        MaskOfTruncated(hasher(key), numBuckets);
        assert LinkOk(t, c) && LinkOk(t, t.home[c]);
      }
    }

    // Comparing hash bits and key at bucket x decides whether x holds the key.
    lemma CompareAt(key: K, x: nat)
      requires Valid() && Occupied(t, x)
      ensures Lo(t.ix[x].slot, numBuckets) < numFilled
      ensures key in Contents && x == t.where[slotOf[key]] ==> Lo(t.ix[x].slot, numBuckets) == slotOf[key]
      ensures (key in Contents && x == t.where[slotOf[key]]) <==>
        (Hi(Hash32(key), numBuckets) == Hi(t.ix[x].slot, numBuckets) && key == pairs[Lo(t.ix[x].slot, numBuckets)].key)
    {
      assert BucketOk(t, NO_HOLE, x);
      var s := Lo(t.ix[x].slot, numBuckets);
      UnpackPack(s, t.kh[s], numBuckets);
      if key in Contents && x == t.where[slotOf[key]] {
        assert SlotOk(t, NO_HOLE, slotOf[key]);
      }
    }

    // -------------------------------------------------------------- inserting

    method KickoutBucket(kmain: nat, bucket: nat) returns (b: nat)
      requires Frame() && Consistent(t, NO_HOLE)
      requires Occupied(t, bucket) && t.home[bucket] == kmain != bucket
      modifies this`last, this`t, index
      ensures Frame() && Consistent(t, NO_HOLE) && t.kh == old(t.kh)
      ensures b == bucket && Empty(t.ix[b])
    {
      SomeEmpty(t);
      assert LinkOk(t, bucket);
      var nextBucket := index[bucket].next;
      var newBucket := FindEmptyBucket(nextBucket, 2);
      var prevBucket := FindPrevBucket(kmain, bucket);
      MoveKeeps(t, prevBucket, bucket, newBucket);
      MoveFits(t, prevBucket, bucket, newBucket, numBuckets, pairs.Length);
      Relink(prevBucket, bucket, newBucket);
      t := Move(t, prevBucket, bucket, newBucket);
      return bucket;
    }

    // The three index words that a kickout writes.
    method Relink(prevBucket: nat, bucket: nat, newBucket: nat)
      requires Shape(t) && Mirrors(index, t.ix) && prevBucket < t.n && bucket < t.n && newBucket < t.n
      requires prevBucket != bucket && prevBucket != newBucket && bucket != newBucket
      requires Lo(t.ix[bucket].slot, t.n) < |t.kh|
      modifies index
      ensures Mirrors(index, Move(t, prevBucket, bucket, newBucket).ix)
    {
      var nextBucket := index[bucket].next;
      var lastLink := if nextBucket == bucket then newBucket else nextBucket;
      index[newBucket] := Index(lastLink, index[bucket].slot);
      index[prevBucket] := index[prevBucket].(next := newBucket);
      index[bucket] := index[bucket].(next := INACTIVE);
    }

    // An empty bucket for a key that is not in the table, already linked in;
    // r is the place in the chain it will take.
    method FindUniqueBucket(keyHash: nat) returns (b: nat, ghost r: nat)
      requires Frame() && Consistent(t, NO_HOLE)
      modifies this`last, this`t, index
      ensures Frame() && t.kh == old(t.kh) && b < numBuckets && Empty(t.ix[b])
      ensures Consistent(Place(t, b, r, keyHash % TWO32), NO_HOLE)
    {
      ghost var h := keyHash % TWO32;
      var bucket := Lo(keyHash, numBuckets);
      MaskOfTruncated(keyHash, numBuckets);
      if Empty(index[bucket]) {
        PlaceInMain(t, bucket, h);
        return bucket, 0;
      }
      MainOfBucket(bucket);
      var slot := Lo(index[bucket].slot, numBuckets);
      var kmain := Lo(Hash32(pairs[slot].key), numBuckets);
      if kmain != bucket {
        b := KickoutBucket(kmain, bucket);
        PlaceInMain(t, b, h);
        return b, 0;
      }
      assert LinkOk(t, bucket);
      var nextBucket := index[bucket].next;
      if nextBucket != bucket {
        nextBucket := FindLastBucket(nextBucket);
      }
      b, r := AppendEmpty(nextBucket, 2, h);
    }

    // hash_main: the main bucket of the key in an occupied bucket is its home.
    lemma MainOfBucket(b: nat)
      requires Frame() && Consistent(t, NO_HOLE) && Occupied(t, b)
      ensures var s := Lo(t.ix[b].slot, numBuckets);
        s < |t.kh| && pairs[s].Pair? && t.home[b] == Lo(Hash32(pairs[s].key), numBuckets)
    {
      assert BucketOk(t, NO_HOLE, b);
      var s := Lo(t.ix[b].slot, numBuckets);
    }

    // _index[tail].next = find_empty_bucket(tail, csize)
    method AppendEmpty(tail: nat, csize: nat, ghost h: nat) returns (b: nat, ghost r: nat)
      requires Frame() && Consistent(t, NO_HOLE)
      requires Occupied(t, tail) && t.ix[tail].next == tail && t.home[tail] == Lo(h, numBuckets)
      modifies this`last, this`t, index
      ensures Frame() && t.kh == old(t.kh) && b < numBuckets && Empty(t.ix[b])
      ensures Consistent(Place(t, b, r, h), NO_HOLE)
    {
      SomeEmpty(t);
      b := FindEmptyBucket(tail, csize);
      PlaceAtTail(t, tail, b, h);
      r := t.rank[tail] + 1;
      index[tail] := index[tail].(next := b);
      t := LinkTail(t, tail, b);
    }

    // The bucket of the key, or an empty bucket linked in for it.
    method FindOrAllocate(key: K, keyHash: nat) returns (b: nat, ghost r: nat)
      requires Valid() && keyHash == hasher(key)
      modifies this`last, this`t, index
      ensures Frame() && t.kh == old(t.kh) && b < numBuckets
      ensures key in Contents ==>
        t == old(t) && b == t.where[slotOf[key]] && Occupied(t, b) && Lo(t.ix[b].slot, numBuckets) == slotOf[key]
      ensures key !in Contents ==>
        Empty(t.ix[b]) && Consistent(Place(t, b, r, Hash32(key)), NO_HOLE)
    {
      var h := Hash32(key);
      var bucket := Lo(keyHash, numBuckets);
      MaskOfTruncated(keyHash, numBuckets);
      LookupTarget(key);
      if Empty(index[bucket]) {
        PlaceInMain(t, bucket, h);
        return bucket, 0;
      }
      CompareAt(key, bucket);
      var slot := Lo(index[bucket].slot, numBuckets);
      if Hi(h, numBuckets) == Hi(index[bucket].slot, numBuckets) && key == pairs[slot].key {
        return bucket, 0;
      }
      b, r := AllocateBehind(key, h, bucket);
    }

    // find_or_allocate when the main bucket holds another key.
    method AllocateBehind(key: K, h: nat, bucket: nat) returns (b: nat, ghost r: nat)
      requires Valid() && h == Hash32(key) && bucket == Lo(h, numBuckets) && Occupied(t, bucket)
      requires key in Contents ==>
        var c := t.where[slotOf[key]];
        Occupied(t, c) && t.home[c] == bucket == t.home[bucket] && c != bucket && t.rank[bucket] == 0
      modifies this`last, this`t, index
      ensures Frame() && t.kh == old(t.kh) && b < numBuckets
      ensures key in Contents ==>
        t == old(t) && b == t.where[slotOf[key]] && Occupied(t, b) && Lo(t.ix[b].slot, numBuckets) == slotOf[key]
      ensures key !in Contents ==>
        Empty(t.ix[b]) && Consistent(Place(t, b, r, h), NO_HOLE)
    {
      MainOfBucket(bucket);
      var slot := Lo(index[bucket].slot, numBuckets);
      var kmain := Lo(Hash32(pairs[slot].key), numBuckets);
      if kmain != bucket {
        b := KickoutBucket(kmain, bucket);
        PlaceInMain(t, b, h);
        return b, 0;
      }
      PassBy(key, bucket);
      var x := index[bucket].next;
      var found, csize := false, 1;
      if x != bucket {
        found, x, csize := WalkChain(key, x, bucket);
      }
      if found { return x, 0; }
      b, r := AppendEmpty(x, csize, h);
    }

    // EMH_NEW
    method EmplaceNew(key: K, val: V, bucket: nat, keyHash: nat, ghost r: nat)
      requires Frame() && KeysOk() && |t.kh| == numFilled && keyHash == hasher(key) && key !in Contents
      requires bucket < numBuckets && Empty(t.ix[bucket])
      requires Consistent(Place(t, bucket, r, Hash32(key)), NO_HOLE)
      requires numFilled + 1 < numBuckets && numFilled + 1 <= pairs.Length
      modifies this`numFilled, this`ps, this`slotOf, this`Contents, this`t, this`etail, index, pairs
      ensures Valid() && Contents == old(Contents)[key := val]
      ensures numFilled == old(numFilled) + 1 && slotOf == old(slotOf)[key := old(numFilled)]
      ensures Occupied(t, bucket) && Lo(t.ix[bucket].slot, numBuckets) == slotOf[key]
    {
      UnpackPack(numFilled, Hash32(key), numBuckets);
      AppendKey(ps, slotOf, Contents, key, val);
      PlaceFits(t, bucket, r, keyHash % TWO32, numBuckets, pairs.Length);
      HashedMore(ps, t.kh, hasher, key, val);
      AppendPair(Pair(key, val));
      etail := bucket;
      SetIndex(bucket, Index(bucket, Pack(numFilled, keyHash % TWO32, numBuckets)));
      t := Place(t, bucket, r, keyHash % TWO32);
      slotOf, Contents := slotOf[key := numFilled], Contents[key := val];
      numFilled := numFilled + 1;
    }

    // new(_pairs + _num_filled) value_type(key, val)
    method AppendPair(p: Slot<K, V>)
      requires Holds(pairs, ps) && |ps| == numFilled < pairs.Length
      modifies pairs, this`ps
      ensures ps == old(ps) + [p] && Holds(pairs, ps)
    {
      pairs[numFilled] := p;
      ps := ps + [p];
    }

    method SetIndex(bucket: nat, x: Index)
      requires Mirrors(index, t.ix) && bucket < |t.ix|
      modifies index
      ensures Mirrors(index, t.ix[bucket := x])
    {
      index[bucket] := x;
    }

    // -------------------------------------------------------------- growing

    method BucketsFor(required: nat) returns (n: nat)
      requires required < MAX_SIZE
      ensures PowerOfTwo(n) && 4 <= n <= MAX_SIZE && required <= n
    {
      n := if numFilled > 65536 then 65536 else 4;
      Two32IsPower();
      while n < required
        invariant PowerOfTwo(n) && 4 <= n <= MAX_SIZE
      {
        DoublingStaysBelow(n);
        n := n * 2;
      }
    }

    // rehash followed by rebuild; only reached through the load check and the
    // constructor, so there is always room for what it is asked to hold.
    method Rehash(required: nat)
      requires KeysOk() && Holds(pairs, ps) && RequiredBuckets(numFilled) + 2 <= required < MAX_SIZE
      modifies this`last, this`mask, this`numBuckets, this`etail, this`index, this`pairs, this`t
      ensures Valid() && fresh(index) && fresh(pairs)
      ensures required <= numBuckets
    {
      var n := BucketsFor(required);
      LoadLeavesRoom(numFilled, n);
      StartOver(n);
      IndexAll();
    }

    method StartOver(n: nat)
      requires Holds(pairs, ps) && |ps| == numFilled <= PairCapacity(n)
      requires PowerOfTwo(n) && 4 <= n <= MAX_SIZE
      modifies this`last, this`mask, this`numBuckets, this`etail, this`index, this`pairs, this`t
      ensures fresh(index) && fresh(pairs)
      ensures Frame() && Consistent(t, NO_HOLE) && t.kh == [] && numBuckets == n && etail == INACTIVE
    {
      last, mask, numBuckets, etail := 0, n - 1, n, INACTIVE;
      Rebuild(n);
      t := Table(n, index[..], seq(n, _ => 0), seq(n, _ => 0), [], []);
      EmptyIsConsistent(t);
    }

    // Fresh arrays: every bucket inactive, two sentinels that never look empty,
    // the pairs moved over.
    method Rebuild(n: nat)
      requires Holds(pairs, ps) && |ps| == numFilled <= PairCapacity(n)
      modifies this`index, this`pairs
      ensures fresh(index) && fresh(pairs)
      ensures index.Length == n + 2 && pairs.Length == PairCapacity(n)
      ensures forall i :: 0 <= i < n ==> Empty(index[i])
      ensures index[n] == Index(0, 0) && index[n + 1] == Index(0, 0)
      ensures Holds(pairs, ps)
    {
      var newPairs := new Slot<K, V>[PairCapacity(n)];
      for slot := 0 to numFilled
        invariant Holds(newPairs, ps[..slot])
        modifies newPairs
      {
        newPairs[slot] := pairs[slot];
      }
      pairs := newPairs;
      index := new Index[n + 2](i => if i < n then Index(INACTIVE, INACTIVE) else Index(0, 0));
    }

    lemma EmptyIsConsistent(t: Table)
      requires Shape(t) && t.kh == [] && forall i :: 0 <= i < t.n ==> Empty(t.ix[i])
      ensures Consistent(t, NO_HOLE)
    {
      forall b ensures LinkOk(t, b) && BucketOk(t, NO_HOLE, b) {}
      forall b, c ensures OrderOk(t, b, c) {}
      forall s ensures SlotOk(t, NO_HOLE, s) {}
    }

    method IndexAll()
      requires Frame() && Consistent(t, NO_HOLE) && t.kh == []
      requires numFilled + 1 < numBuckets && numFilled == |ps|
      requires forall s :: 0 <= s < numFilled ==> ps[s].Pair?
      modifies this`last, this`t, index
      ensures Frame() && Consistent(t, NO_HOLE) && |t.kh| == numFilled
    {
      for slot := 0 to numFilled
        invariant Frame() && Consistent(t, NO_HOLE) && |t.kh| == slot
      {
        var keyHash := hasher(pairs[slot].key);
        var bucket, r := FindUniqueBucket(keyHash);
        index[bucket] := Index(bucket, Pack(slot, keyHash % TWO32, numBuckets));
        t := Place(t, bucket, r, keyHash % TWO32);
      }
    }

    constructor (hasher: K -> nat, valueInit: V)
      ensures Valid() && Contents == map[] && numFilled == 0 && fresh(index) && fresh(pairs)
      ensures this.hasher == hasher && this.valueInit == valueInit
    {
      this.hasher, this.valueInit := hasher, valueInit;
      index, pairs := new Index[0], new Slot<K, V>[0];
      mask, numBuckets, numFilled := 0, 0, 0;
      t, ps, slotOf, Contents := Table(0, [], [], [], [], []), [], map[], map[];
      new;
      Rehash(2);
    }

    // reserve(_num_filled, false)
    method CheckExpandNeed()
      requires Valid() && RequiredBuckets(numFilled) + 2 < MAX_SIZE
      modifies this`last, this`mask, this`numBuckets, this`etail, this`index, this`pairs, this`t
      ensures Valid() && (index == old(index) || fresh(index)) && (pairs == old(pairs) || fresh(pairs))
      ensures numFilled + 2 <= numBuckets && numFilled + 1 <= pairs.Length
    {
      var required := RequiredBuckets(numFilled);
      if required >= mask {
        Rehash(required + 2);
      }
      LoadLeavesRoom(numFilled, numBuckets);
    }

    // -------------------------------------------------------------- erasing

    // Unlinks the pair of `bucket`; returns the bucket that becomes free, which
    // the model table already shows as empty.
    method EraseBucket(bucket: nat, main: nat) returns (e: nat)
      requires Frame() && Consistent(t, NO_HOLE) && Occupied(t, bucket) && t.home[bucket] == main
      modifies this`t, index
      ensures Sized() && t.kh == old(t.kh) && e < numBuckets
      ensures MirrorsBut(index, t.ix, e)
      ensures Lo(old(t).ix[bucket].slot, numBuckets) < |t.kh|
      ensures Consistent(t, Lo(old(t).ix[bucket].slot, numBuckets))
      ensures forall s :: 0 <= s < |t.kh| && old(t).where[s] != e ==> t.where[s] == old(t).where[s]
    {
      var nextBucket := index[bucket].next;
      if bucket == main {
        DropMainKeeps(t, bucket);
        if main != nextBucket {
          var nbucket := index[nextBucket].next;
          index[main] := Index(if nbucket == nextBucket then main else nbucket, index[nextBucket].slot);
        }
        t := DropMain(t, bucket);
        return nextBucket;
      }
      var prevBucket := FindPrevBucket(main, bucket);
      UnlinkKeeps(t, prevBucket, bucket);
      index[prevBucket] := index[prevBucket].(next := if bucket == nextBucket then prevBucket else nextBucket);
      t := Unlink(t, prevBucket, bucket);
      return bucket;
    }

    // The bucket of a slot, found by walking the chain of its key.
    method SlotToBucket(slot: nat, ghost e: nat, ghost hole: nat) returns (bucket: nat)
      requires Sized() && Consistent(t, hole) && slot < |t.kh| && slot != hole
      requires e < numBuckets && MirrorsBut(index, t.ix, e)
      requires pairs[slot].Pair? && Hash32(pairs[slot].key) == t.kh[slot]
      ensures bucket == t.where[slot]
    {
      ghost var c := t.where[slot];
      assert SlotOk(t, hole, slot) && BucketOk(t, hole, c) && LinkOk(t, c);
      MaskOfTruncated(hasher(pairs[slot].key), numBuckets);
      bucket := Lo(hasher(pairs[slot].key), numBuckets);
      assert LinkOk(t, bucket);
      while slot != Lo(index[bucket].slot, numBuckets)
        invariant Occupied(t, bucket) && t.home[bucket] == t.home[c] && t.rank[bucket] <= t.rank[c]
        decreases t.rank[c] - t.rank[bucket]
      {
        assert LinkOk(t, bucket) && OrderOk(t, bucket, c);
        assert index[bucket] == t.ix[bucket];
        bucket := index[bucket].next;
      }
      assert BucketOk(t, hole, bucket);
      assert index[bucket] == t.ix[bucket];
    }

    ghost predicate TailOk()
      reads this
      requires Shape(t)
    {
      etail == INACTIVE || (|t.kh| > 0 && etail == t.where[|t.kh| - 1])
    }

    // Erase the pair of sbucket; the last pair moves into its slot and the
    // bucket of that pair is relabelled.
    method EraseSlot(sbucket: nat, main: nat)
      requires Frame() && Consistent(t, NO_HOLE) && |t.kh| == numFilled == |ps| && TailOk()
      requires Occupied(t, sbucket) && t.home[sbucket] == main
      modifies this`numFilled, this`ps, this`t, this`etail, index, pairs
      ensures Frame() && Consistent(t, NO_HOLE) && |t.kh| == numFilled && etail == INACTIVE
      ensures numFilled == old(numFilled) - 1 == |ps| && Lo(old(t).ix[sbucket].slot, numBuckets) <= numFilled
      ensures ps == MoveLast(old(ps), Lo(old(t).ix[sbucket].slot, numBuckets))
    {
      var slot := Lo(index[sbucket].slot, numBuckets);
      var e := EraseBucket(sbucket, main);
      HashedMoveLast(ps, t.kh, hasher, slot);
      numFilled := numFilled - 1;
      FreeBucket(slot, e);
      MovePair(slot);
      etail := INACTIVE;
    }

    // Give the bucket of the last slot the slot that was freed, and clear e.
    method FreeBucket(slot: nat, e: nat)
      requires Sized() && Consistent(t, slot) && slot < |t.kh| == numFilled + 1 && e < numBuckets
      requires MirrorsBut(index, t.ix, e) && Holds(pairs, ps) && Hashed(ps, t.kh, hasher)
      requires etail == INACTIVE || etail == e || etail == t.where[numFilled] || slot == numFilled
      modifies this`t, index
      ensures Sized() && Consistent(t, NO_HOLE) && Mirrors(index, t.ix)
      ensures t.kh == MoveLast(old(t.kh), slot)
    {
      assert slot != numFilled ==> SlotOk(t, slot, numFilled);
      FillHoleKeeps(t, slot);
      if slot != numFilled {
        var lastBucket := etail;
        if etail == INACTIVE || e == etail {
          lastBucket := SlotToBucket(numFilled, e, slot);
        }
        Relabel(lastBucket, slot, e);
      }
      index[e] := Index(INACTIVE, 0);
      t := FillHole(t, slot);
    }

    // _index[b].slot = slot | (_index[b].slot & ~_mask)
    method Relabel(b: nat, slot: nat, ghost e: nat)
      requires Shape(t) && t.n == numBuckets && b < numBuckets && e < numBuckets && b != e
      requires MirrorsBut(index, t.ix, e)
      modifies index
      ensures MirrorsBut(index, t.ix[b := t.ix[b].(slot := Pack(slot, t.ix[b].slot, numBuckets))], e)
    {
      assert index[b] == t.ix[b];
      index[b] := index[b].(slot := Pack(slot, index[b].slot, numBuckets));
    }

    // _pairs[slot] = std::move(_pairs[_num_filled]), whose memory is then raw
    method MovePair(slot: nat)
      requires slot <= numFilled && Holds(pairs, ps) && |ps| == numFilled + 1
      modifies pairs, this`ps
      ensures ps == MoveLast(old(ps), slot) && Holds(pairs, ps)
    {
      pairs[slot] := pairs[numFilled];
      pairs[numFilled] := Raw;
      ps := MoveLast(ps, slot);
    }

    // -------------------------------------------------------------- public operations

    // The slot of the key; a new pair is only made when the key is absent.
    method Insert(key: K, val: V) returns (slot: nat, inserted: bool)
      requires Valid() && RequiredBuckets(numFilled) + 2 < MAX_SIZE
      modifies this, index, pairs
      ensures Valid() && (index == old(index) || fresh(index)) && (pairs == old(pairs) || fresh(pairs))
      ensures inserted == (key !in old(Contents))
      ensures Contents == if inserted then old(Contents)[key := val] else old(Contents)
      ensures slot < numFilled <= old(numFilled) + 1 && pairs[slot] == Pair(key, Contents[key])
    {
      CheckExpandNeed();
      var bucket;
      bucket, inserted := DoInsert(key, val);
      slot := Lo(index[bucket].slot, numBuckets);
    }

    // do_insert: the bucket of the key, which is filled if it had to be made.
    method DoInsert(key: K, val: V) returns (bucket: nat, inserted: bool)
      requires Valid() && numFilled + 2 <= numBuckets && numFilled + 1 <= pairs.Length
      modifies this`last, this`numFilled, this`ps, this`slotOf, this`Contents, this`t, this`etail, index, pairs
      ensures Valid() && inserted == (key !in old(Contents))
      ensures Contents == if inserted then old(Contents)[key := val] else old(Contents)
      ensures Occupied(t, bucket) && key in slotOf && Lo(t.ix[bucket].slot, numBuckets) == slotOf[key]
      ensures numFilled <= old(numFilled) + 1
    {
      ghost var r;
      bucket, r := FindOrAllocate(key, hasher(key));
      inserted := Empty(index[bucket]);
      if inserted {
        EmplaceNew(key, val, bucket, hasher(key), r);
      }
    }

    // insert_or_assign
    method InsertOrAssign(key: K, val: V) returns (slot: nat, inserted: bool)
      requires Valid() && RequiredBuckets(numFilled) + 2 < MAX_SIZE
      modifies this, index, pairs
      ensures Valid() && (index == old(index) || fresh(index)) && (pairs == old(pairs) || fresh(pairs))
      ensures inserted == (key !in old(Contents)) && Contents == old(Contents)[key := val]
      ensures slot < numFilled && pairs[slot] == Pair(key, val)
      ensures numFilled <= old(numFilled) + 1
    {
      slot, inserted := Insert(key, val);
      if !inserted {
        Overwrite(slot, val);
      }
    }

    // _pairs[slot].second = val
    method Overwrite(slot: nat, val: V)
      requires Valid() && slot < numFilled
      modifies pairs, this`ps, this`Contents
      ensures Valid() && ps[slot].Pair? && Contents == old(Contents)[ps[slot].key := val]
      ensures old(ps)[slot].Pair? && ps[slot] == old(ps)[slot].(val := val)
    {
      UpdateValue(ps, slotOf, Contents, slot, val);
      Contents := Contents[pairs[slot].key := val];
      pairs[slot] := pairs[slot].(val := val);
      ps := ps[slot := ps[slot].(val := val)];
    }

    // emplace_unique: the caller knows that the key is absent.
    method InsertUnique(key: K, val: V) returns (bucket: nat)
      requires Valid() && RequiredBuckets(numFilled) + 2 < MAX_SIZE && key !in Contents
      modifies this, index, pairs
      ensures Valid() && (index == old(index) || fresh(index)) && (pairs == old(pairs) || fresh(pairs))
      ensures Contents == old(Contents)[key := val] && numFilled == old(numFilled) + 1
    {
      CheckExpandNeed();
      ghost var r;
      bucket, r := FindUniqueBucket(hasher(key));
      EmplaceNew(key, val, bucket, hasher(key), r);
    }

    // operator[]: the slot whose value the returned reference names.
    method Subscript(key: K) returns (slot: nat)
      requires Valid() && RequiredBuckets(numFilled) + 2 < MAX_SIZE
      modifies this, index, pairs
      ensures Valid() && (index == old(index) || fresh(index)) && (pairs == old(pairs) || fresh(pairs))
      ensures Contents == if key in old(Contents) then old(Contents) else old(Contents)[key := valueInit]
      ensures slot < numFilled && pairs[slot] == Pair(key, Contents[key])
      ensures numFilled <= old(numFilled) + 1
    {
      var inserted;
      slot, inserted := Insert(key, valueInit);
    }

    method TryGet(key: K) returns (val: Option<V>)
      requires Valid()
      ensures val == if key in Contents then Some(Contents[key]) else None
    {
      var slot := FindFilledSlot(key);
      if slot == numFilled { return None; }
      return Some(pairs[slot].val);
    }

    method Erase(key: K) returns (count: nat)
      requires Valid()
      modifies this, index, pairs
      ensures Valid() && index == old(index) && pairs == old(pairs)
      ensures count == (if key in old(Contents) then 1 else 0)
      ensures Contents == old(Contents) - {key} && numFilled == old(numFilled) - count
    {
      var keyHash := hasher(key);
      LookupTarget(key);
      var sbucket := FindFilledBucket(key, keyHash);
      if sbucket == INACTIVE { return 0; }
      CompareAt(key, sbucket);
      RemoveKey(ps, slotOf, Contents, slotOf[key]);
      ghost var before := ps;
      EraseSlot(sbucket, Lo(keyHash, numBuckets));
      slotOf, Contents := MoveLastKey(before, slotOf, slotOf[key]), Contents - {key};
      return 1;
    }
  }
}
