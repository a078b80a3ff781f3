/**
  The bucket index of the emhash8 hash map, as a value.

  A bucket holds a `next` link and a packed word: the slot of its pair in the
  low bits and the high bits of the key's hash above them.  The buckets of all
  keys that share a main bucket form one chain that starts in that main bucket
  and ends in a bucket that links to itself.  This module states that structure
  and proves that each rewrite of the index keeps it.
 */
module HashChains {
  import opened Prelude

  const INACTIVE: nat := 0xFFFF_FFFF
  const SIGN_BIT: nat := 0x8000_0000
  const TWO32: nat := 0x1_0000_0000

  datatype Index = Index(next: nat, slot: nat)

  // 0 > (int)next
  predicate Empty(e: Index) {
    e.next >= SIGN_BIT
  }

  // w & _mask, for a table of n buckets
  function Lo(w: nat, n: nat): nat
    requires n > 0
  {
    w % n
  }

  // w & ~_mask
  function Hi(w: nat, n: nat): nat
    requires n > 0
  {
    w - w % n
  }

  // slot | (hash & ~_mask)
  function Pack(slot: nat, hash: nat, n: nat): nat
    requires n > 0
  {
    slot + Hi(hash, n)
  }

  lemma UnpackPack(slot: nat, hash: nat, n: nat)
    requires 0 < n && slot < n
    ensures Lo(Pack(slot, hash, n), n) == slot
    ensures Hi(Pack(slot, hash, n), n) == Hi(hash, n)
    ensures Pack(slot, Pack(slot, hash, n), n) == Pack(slot, hash, n)
  {
    var q := hash / n;
    assert hash == q * n + hash % n;
    assert Pack(slot, hash, n) == slot + q * n;
    DivModUnique(Pack(slot, hash, n), n, q, slot);
  }

  predicate PowerOfTwo(n: nat) {
    n == 1 || (n > 1 && n % 2 == 0 && PowerOfTwo(n / 2))
  }

  lemma {:induction false} PowersDivide(a: nat, b: nat)
    requires PowerOfTwo(a) && PowerOfTwo(b) && a <= b
    ensures b % a == 0
    decreases b
  {
    if a == b || a == 1 {
    } else {
      assert PowerOfTwo(b / 2) && a <= b / 2 by {
        if b / 2 < a {
          PowersDivide(a / 2, b / 2);
          assert (b / 2) % (a / 2) == 0 && a / 2 <= b / 2 < 2 * (a / 2);
          DivModUnique(b / 2, a / 2, 1, b / 2 - a / 2);
        }
      }
      PowersDivide(a, b / 2);
      var q := (b / 2) / a;
      assert b == (2 * q) * a;
      DivModUnique(b, a, 2 * q, 0);
    }
  }

  // Masking the 64-bit hash and masking its low 32 bits give the same bucket.
  lemma MaskOfTruncated(h: nat, n: nat)
    requires PowerOfTwo(n) && n <= TWO32
    ensures Lo(h % TWO32, n) == Lo(h, n)
  {
    Two32IsPower();
    RemainderOfRemainder(h, TWO32, n);
  }

  lemma RemainderOfRemainder(h: nat, m: nat, n: nat)
    requires PowerOfTwo(m) && PowerOfTwo(n) && n <= m
    ensures (h % m) % n == h % n
  {
    PowersDivide(n, m);
    var q, l, k := DivMod(h, m), h % m, DivMod(m, n);
    NestedRemainder(h, q, m, l, k, n);
  }

  function DivMod(x: nat, n: nat): (q: nat)
    requires n > 0
    ensures x == q * n + x % n
  {
    x / n
  }

  lemma NestedRemainder(h: nat, q: nat, m: nat, l: nat, k: nat, n: nat)
    requires 0 < n && m == k * n && h == q * m + l
    ensures h % n == l % n
  {
    assert q * (k * n) == (q * k) * n;
    SplitTwice(h, q * k, l, n);
  }

  lemma SplitTwice(h: nat, q: nat, l: nat, n: nat)
    requires n > 0 && h == q * n + l
    ensures h % n == l % n
  {
    var p, r := l / n, l % n;
    assert l == p * n + r;
    assert h == (q + p) * n + r by { assert (q + p) * n == q * n + p * n; }
    DivModUnique(h, n, q + p, r);
  }

  lemma Two32IsPower()
    ensures PowerOfTwo(4) && PowerOfTwo(0x1_0000) && PowerOfTwo(SIGN_BIT) && PowerOfTwo(TWO32)
  {
    TimesEight(1);
    TimesEight(0x8);
    TimesEight(0x40);
    TimesEight(0x200);
    TimesEight(0x1000);
    TimesEight(0x8000);
    TimesEight(0x4_0000);
    TimesEight(0x20_0000);
    TimesEight(0x100_0000);
    TimesEight(0x800_0000);
    TimesEight(0x4000_0000);
  }

  lemma TimesEight(n: nat)
    requires PowerOfTwo(n)
    ensures PowerOfTwo(2 * n) && PowerOfTwo(4 * n) && PowerOfTwo(8 * n)
  {
    assert (2 * n) / 2 == n && (4 * n) / 2 == 2 * n && (8 * n) / 2 == 4 * n;
  }

  /**
    The index with the ghost columns that explain it: `home[b]` is the main
    bucket of the key stored in bucket b, `rank` orders the buckets of a chain,
    `where[s]` is the bucket of slot s, `kh[s]` the 32-bit hash of its key.
   */
  datatype Table = Table(n: nat, ix: seq<Index>, home: seq<nat>, rank: seq<nat>, where: seq<nat>, kh: seq<nat>)

  ghost predicate Shape(t: Table) {
    && 0 < t.n < SIGN_BIT + 1
    && |t.ix| == t.n + 2 && |t.home| == t.n && |t.rank| == t.n
    && |t.where| == |t.kh| <= t.n
  }

  ghost predicate Occupied(t: Table, b: nat)
    requires Shape(t)
  {
    b < t.n && !Empty(t.ix[b])
  }

  ghost predicate LinkOk(t: Table, b: nat)
    requires Shape(t)
  {
    Occupied(t, b) ==>
      var x := t.ix[b].next;
      var m := t.home[b];
      && Occupied(t, x) && t.home[x] == m
      && (x != b ==> t.rank[b] < t.rank[x])
      && Occupied(t, m) && t.home[m] == m
      && (t.rank[b] == 0 <==> b == m)
  }

  ghost predicate OrderOk(t: Table, b: nat, c: nat)
    requires Shape(t)
  {
    Occupied(t, b) && Occupied(t, c) && t.home[b] == t.home[c] ==>
      && (t.rank[b] == t.rank[c] ==> b == c)
      && (t.rank[b] < t.rank[c] ==> t.ix[b].next != b && t.ix[b].next < t.n && t.rank[t.ix[b].next] <= t.rank[c])
  }

  // Each occupied bucket lies on the one chain of its home: links stay inside
  // the chain, climb in rank, and never skip a member.
  ghost predicate Chains(t: Table)
    requires Shape(t)
  {
    && (forall b {:trigger LinkOk(t, b)} :: LinkOk(t, b))
    && (forall b, c {:trigger OrderOk(t, b, c)} :: OrderOk(t, b, c))
  }

  ghost predicate BucketOk(t: Table, hole: int, b: nat)
    requires Shape(t)
  {
    Occupied(t, b) ==>
      var s := Lo(t.ix[b].slot, t.n);
      && s < |t.kh| && s != hole && t.where[s] == b
      && t.ix[b].slot == Pack(s, t.kh[s], t.n)
      && t.home[b] == Lo(t.kh[s], t.n)
  }

  ghost predicate SlotOk(t: Table, hole: int, s: nat)
    requires Shape(t)
  {
    s < |t.kh| && s != hole ==>
      Occupied(t, t.where[s]) && Lo(t.ix[t.where[s]].slot, t.n) == s
  }

  // Occupied buckets and slots 0..|kh| (but for the hole) are in bijection.
  ghost predicate Slots(t: Table, hole: int)
    requires Shape(t)
  {
    && (forall b {:trigger BucketOk(t, hole, b)} :: BucketOk(t, hole, b))
    && (forall s {:trigger SlotOk(t, hole, s)} :: SlotOk(t, hole, s))
  }

  const NO_HOLE: int := -1

  ghost predicate Consistent(t: Table, hole: int) {
    Shape(t) && Chains(t) && Slots(t, hole)
  }

  // ---------------------------------------------------------------- inserting

  // The table once EMH_NEW has written a key with hash h in bucket b.
  ghost function Place(t: Table, b: nat, rank: nat, h: nat): Table
    requires Shape(t) && b < t.n
  {
    t.(ix := t.ix[b := Index(b, Pack(|t.kh|, h, t.n))],
       home := t.home[b := Lo(h, t.n)],
       rank := t.rank[b := rank],
       where := t.where + [b],
       kh := t.kh + [h])
  }

  // The index after the last bucket of a chain has been linked to b.
  ghost function LinkTail(t: Table, tail: nat, b: nat): Table
    requires Shape(t) && tail < t.n
  {
    t.(ix := t.ix[tail := t.ix[tail].(next := b)])
  }

  lemma PlaceInMain(t: Table, b: nat, h: nat)
    requires Consistent(t, NO_HOLE) && b < t.n && Empty(t.ix[b]) && |t.kh| < t.n && b == Lo(h, t.n)
    ensures Consistent(Place(t, b, 0, h), NO_HOLE)
  {
    var t' := Place(t, b, 0, h);
    UnpackPack(|t.kh|, h, t.n);
    forall c ensures LinkOk(t', c) {
      assert LinkOk(t, c);
    }
    forall c, d ensures OrderOk(t', c, d) {
      assert OrderOk(t, c, d) && LinkOk(t, c) && LinkOk(t, d);
    }
    PlaceKeepsSlots(t, t', b, h);
  }

  lemma PlaceAtTail(t: Table, tail: nat, b: nat, h: nat)
    requires Consistent(t, NO_HOLE) && b < t.n && Empty(t.ix[b]) && |t.kh| < t.n
    requires Occupied(t, tail) && t.ix[tail].next == tail && t.home[tail] == Lo(h, t.n)
    ensures Consistent(Place(LinkTail(t, tail, b), b, t.rank[tail] + 1, h), NO_HOLE)
  {
    var t1 := LinkTail(t, tail, b);
    var t' := Place(t1, b, t.rank[tail] + 1, h);
    UnpackPack(|t.kh|, h, t.n);
    forall c ensures LinkOk(t', c) {
      assert LinkOk(t, c) && LinkOk(t, tail);
    }
    forall c, d ensures OrderOk(t', c, d) {
      assert OrderOk(t, c, d) && OrderOk(t, tail, c) && OrderOk(t, tail, d) && OrderOk(t, c, tail);
      assert LinkOk(t, c);
    }
    forall c ensures BucketOk(t1, NO_HOLE, c) {
      assert BucketOk(t, NO_HOLE, c);
    }
    forall s ensures SlotOk(t1, NO_HOLE, s) {
      assert SlotOk(t, NO_HOLE, s);
    }
    PlaceKeepsSlots(t1, t', b, h);
  }

  lemma PlaceKeepsSlots(t: Table, t': Table, b: nat, h: nat)
    requires Shape(t) && Slots(t, NO_HOLE) && b < t.n && Empty(t.ix[b]) && |t.kh| < t.n
    requires exists r :: t' == Place(t, b, r, h)
    ensures Slots(t', NO_HOLE)
  {
    UnpackPack(|t.kh|, h, t.n);
    forall c ensures BucketOk(t', NO_HOLE, c) {
      assert BucketOk(t, NO_HOLE, c);
    }
    forall s ensures SlotOk(t', NO_HOLE, s) {
      assert SlotOk(t, NO_HOLE, s);
    }
  }

  // ---------------------------------------------------------------- kicking out

  // Bucket b, which is not in its own main bucket, moves to the empty bucket e.
  ghost function Move(t: Table, prev: nat, b: nat, e: nat): Table
    requires Shape(t) && b < t.n && e < t.n && prev < t.n && Lo(t.ix[b].slot, t.n) < |t.kh|
  {
    var last := if t.ix[b].next == b then e else t.ix[b].next;
    var ix1 := t.ix[e := Index(last, t.ix[b].slot)];
    var ix2 := ix1[prev := ix1[prev].(next := e)];
    t.(ix := ix2[b := ix2[b].(next := INACTIVE)],
       home := t.home[e := t.home[b]],
       rank := t.rank[e := t.rank[b]],
       where := t.where[Lo(t.ix[b].slot, t.n) := e])
  }

  lemma MoveKeeps(t: Table, prev: nat, b: nat, e: nat)
    requires Consistent(t, NO_HOLE) && Occupied(t, b) && t.home[b] != b
    requires e < t.n && Empty(t.ix[e])
    requires Occupied(t, prev) && prev != b && t.ix[prev].next == b
    ensures BucketOk(t, NO_HOLE, b)
    ensures Consistent(Move(t, prev, b, e), NO_HOLE)
  {
    assert BucketOk(t, NO_HOLE, b) && LinkOk(t, b) && LinkOk(t, prev);
    MoveKeepsLinks(t, prev, b, e);
    MoveKeepsOrder(t, prev, b, e);
    var t' := Move(t, prev, b, e);
    forall c ensures BucketOk(t', NO_HOLE, c) {
      assert BucketOk(t, NO_HOLE, c);
    }
    forall s ensures SlotOk(t', NO_HOLE, s) {
      assert SlotOk(t, NO_HOLE, s);
    }
  }

  lemma MoveKeepsLinks(t: Table, prev: nat, b: nat, e: nat)
    requires Consistent(t, NO_HOLE) && Occupied(t, b) && t.home[b] != b && BucketOk(t, NO_HOLE, b)
    requires e < t.n && Empty(t.ix[e])
    requires Occupied(t, prev) && prev != b && t.ix[prev].next == b
    ensures forall c :: LinkOk(Move(t, prev, b, e), c)
  {
    var t' := Move(t, prev, b, e);
    assert LinkOk(t, b) && LinkOk(t, prev);
    forall c: nat ensures LinkOk(t', c) {
      assert LinkOk(t, c);
      if Occupied(t, c) && t.ix[c].next == b && c != b {
        OnePredecessor(t, c, prev, b);
      }
    }
  }

  // Links to b from elsewhere come from one bucket.
  lemma OnePredecessor(t: Table, c: nat, prev: nat, b: nat)
    requires Shape(t) && Chains(t) && Occupied(t, c) && Occupied(t, prev)
    requires t.ix[c].next == t.ix[prev].next == b && c != b && prev != b
    ensures c == prev
  {
    assert LinkOk(t, c) && LinkOk(t, prev);
    assert OrderOk(t, c, prev) && OrderOk(t, prev, c);
  }

  lemma MoveKeepsOrder(t: Table, prev: nat, b: nat, e: nat)
    requires Consistent(t, NO_HOLE) && Occupied(t, b) && t.home[b] != b && BucketOk(t, NO_HOLE, b)
    requires e < t.n && Empty(t.ix[e])
    requires Occupied(t, prev) && prev != b && t.ix[prev].next == b
    ensures forall c, d :: OrderOk(Move(t, prev, b, e), c, d)
  {
    var t' := Move(t, prev, b, e);
    assert LinkOk(t, b);
    forall c, d ensures OrderOk(t', c, d) {
      var c0, d0 := if c == e then b else c, if d == e then b else d;
      assert OrderOk(t, c0, d0) && LinkOk(t, c0);
    }
  }

  // ---------------------------------------------------------------- erasing

  // Bucket b is unlinked from its chain; prev is its predecessor.
  ghost function Unlink(t: Table, prev: nat, b: nat): Table
    requires Shape(t) && b < t.n && prev < t.n
  {
    var x := if t.ix[b].next == b then prev else t.ix[b].next;
    t.(ix := t.ix[prev := t.ix[prev].(next := x)][b := Index(INACTIVE, 0)])
  }

  lemma UnlinkKeeps(t: Table, prev: nat, b: nat)
    requires Consistent(t, NO_HOLE) && Occupied(t, b) && t.home[b] != b
    requires Occupied(t, prev) && prev != b && t.ix[prev].next == b
    ensures BucketOk(t, NO_HOLE, b)
    ensures Consistent(Unlink(t, prev, b), Lo(t.ix[b].slot, t.n))
  {
    assert BucketOk(t, NO_HOLE, b) && LinkOk(t, b) && LinkOk(t, prev);
    var t', hole := Unlink(t, prev, b), Lo(t.ix[b].slot, t.n);
    UnlinkKeepsLinks(t, prev, b);
    UnlinkKeepsOrder(t, prev, b);
    forall c ensures BucketOk(t', hole, c) {
      assert BucketOk(t, NO_HOLE, c);
    }
    forall s ensures SlotOk(t', hole, s) {
      assert SlotOk(t, NO_HOLE, s);
    }
  }

  lemma UnlinkKeepsLinks(t: Table, prev: nat, b: nat)
    requires Shape(t) && Chains(t) && Occupied(t, b) && t.home[b] != b
    requires Occupied(t, prev) && prev != b && t.ix[prev].next == b
    ensures forall c :: LinkOk(Unlink(t, prev, b), c)
  {
    assert LinkOk(t, b) && LinkOk(t, prev);
    forall c: nat ensures LinkOk(Unlink(t, prev, b), c) {
      assert LinkOk(t, c);
      if Occupied(t, c) && t.ix[c].next == b && c != b {
        OnePredecessor(t, c, prev, b);
      }
    }
  }

  lemma UnlinkKeepsOrder(t: Table, prev: nat, b: nat)
    requires Shape(t) && Chains(t) && Occupied(t, b) && t.home[b] != b
    requires Occupied(t, prev) && prev != b && t.ix[prev].next == b
    ensures forall c, d :: OrderOk(Unlink(t, prev, b), c, d)
  {
    assert LinkOk(t, b) && LinkOk(t, prev);
    forall c, d ensures OrderOk(Unlink(t, prev, b), c, d) {
      assert OrderOk(t, c, d) && OrderOk(t, b, d);
    }
  }

  // The main bucket b takes over the pair of its successor, which is freed; a
  // main bucket without successor is freed itself.
  ghost function DropMain(t: Table, b: nat): Table
    requires Shape(t) && b < t.n && t.ix[b].next < t.n && Lo(t.ix[t.ix[b].next].slot, t.n) < |t.kh|
  {
    var x := t.ix[b].next;
    if x == b then t.(ix := t.ix[b := Index(INACTIVE, 0)])
    else
      var y := t.ix[x].next;
      t.(ix := t.ix[b := Index(if y == x then b else y, t.ix[x].slot)][x := Index(INACTIVE, 0)],
         where := t.where[Lo(t.ix[x].slot, t.n) := b])
  }

  lemma DropMainKeeps(t: Table, b: nat)
    requires Consistent(t, NO_HOLE) && Occupied(t, b) && t.home[b] == b
    ensures LinkOk(t, b) && BucketOk(t, NO_HOLE, t.ix[b].next) && BucketOk(t, NO_HOLE, b)
    ensures Consistent(DropMain(t, b), Lo(t.ix[b].slot, t.n))
  {
    var x := t.ix[b].next;
    assert LinkOk(t, b) && LinkOk(t, x) && BucketOk(t, NO_HOLE, b) && BucketOk(t, NO_HOLE, x);
    var t', hole := DropMain(t, b), Lo(t.ix[b].slot, t.n);
    DropMainKeepsLinks(t, b);
    DropMainKeepsOrder(t, b);
    forall c ensures BucketOk(t', hole, c) {
      assert BucketOk(t, NO_HOLE, c);
    }
    forall s ensures SlotOk(t', hole, s) {
      assert SlotOk(t, NO_HOLE, s);
    }
  }

  lemma DropMainKeepsLinks(t: Table, b: nat)
    requires Consistent(t, NO_HOLE) && Occupied(t, b) && t.home[b] == b
    requires LinkOk(t, b) && BucketOk(t, NO_HOLE, t.ix[b].next)
    ensures forall c :: LinkOk(DropMain(t, b), c)
  {
    var x := t.ix[b].next;
    assert LinkOk(t, x);
    forall c: nat ensures LinkOk(DropMain(t, b), c) {
      assert LinkOk(t, c) && OrderOk(t, b, c);
      if Occupied(t, c) && t.ix[c].next == x && c != x && x != b {
        OnePredecessor(t, c, b, x);
      }
    }
  }

  lemma DropMainKeepsOrder(t: Table, b: nat)
    requires Consistent(t, NO_HOLE) && Occupied(t, b) && t.home[b] == b
    requires LinkOk(t, b) && BucketOk(t, NO_HOLE, t.ix[b].next)
    ensures forall c, d :: OrderOk(DropMain(t, b), c, d)
  {
    var x := t.ix[b].next;
    assert LinkOk(t, x);
    forall c, d ensures OrderOk(DropMain(t, b), c, d) {
      assert OrderOk(t, c, d) && OrderOk(t, x, d);
    }
  }

  // The last slot moves into the hole; its bucket is relabelled.
  ghost function FillHole(t: Table, hole: nat): Table
    requires Shape(t) && hole < |t.kh|
    requires hole != |t.kh| - 1 ==> t.where[|t.kh| - 1] < t.n
  {
    var m := |t.kh| - 1;
    var b := t.where[m];
    if hole == m then t.(where := t.where[..m], kh := t.kh[..m])
    else
      t.(ix := t.ix[b := t.ix[b].(slot := Pack(hole, t.ix[b].slot, t.n))],
         where := t.where[..m][hole := b],
         kh := t.kh[..m][hole := t.kh[m]])
  }

  lemma FillHoleKeeps(t: Table, hole: nat)
    requires Consistent(t, hole) && hole < |t.kh|
    requires hole != |t.kh| - 1 ==> t.where[|t.kh| - 1] < t.n
    ensures Consistent(FillHole(t, hole), NO_HOLE)
  {
    var m := |t.kh| - 1;
    var t' := FillHole(t, hole);
    assert SlotOk(t, hole, m);
    var w := t.where[m];
    if hole != m {
      assert BucketOk(t, hole, w);
      UnpackPack(hole, t.kh[m], t.n);
      UnpackPack(m, t.kh[m], t.n);
    }
    forall c ensures LinkOk(t', c) {
      assert LinkOk(t, c);
    }
    forall c, d ensures OrderOk(t', c, d) {
      assert OrderOk(t, c, d) && LinkOk(t, c);
    }
    forall c ensures BucketOk(t', NO_HOLE, c) {
      assert BucketOk(t, hole, c);
    }
    forall s ensures SlotOk(t', NO_HOLE, s) {
      assert SlotOk(t, hole, s);
    }
  }

  // ---------------------------------------------------------------- empty buckets

  ghost predicate HasEmpty(t: Table)
    requires Shape(t)
  {
    exists b :: 0 <= b < t.n && Empty(t.ix[b])
  }

  // With fewer slots than buckets some bucket is empty.
  lemma SomeEmpty(t: Table)
    requires Consistent(t, NO_HOLE) && |t.kh| < t.n
    ensures HasEmpty(t)
  {
    if !HasEmpty(t) {
      forall b | b in Below(t.n) ensures b in Elements(t.where) {
        assert BucketOk(t, NO_HOLE, b);
      }
      SubsetSize(Below(t.n), Elements(t.where));
      ElementsSize(t.where);
    }
  }

  // An upper bound for the ranks, so that walks along a chain terminate.
  ghost function RankBound(rank: seq<nat>): (r: nat)
    ensures forall b :: 0 <= b < |rank| ==> rank[b] <= r
  {
    if rank == [] then 0
    else
      var r := RankBound(rank[1..]);
      assert forall b :: 1 <= b < |rank| ==> rank[b] == rank[1..][b - 1];
      if rank[0] > r then rank[0] else r
  }
}
