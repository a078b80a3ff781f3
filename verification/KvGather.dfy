/** Putting the slices of a pull together again (comm/include/ps/kv_app.h). */
module KvGather {
  import opened Prelude
  import opened KvSlicing

  // The slices that are sent: empty ones are skipped.
  ghost function Pieces<V>(kv: KV<V>, ranges: seq<Range>, i: nat): seq<KV<V>>
    requires i <= |ranges| && Sorted(kv.keys) && Tiling(ranges) && Shaped(kv)
  {
    if i == 0 then []
    else
      var (any, piece) := SliceFor(kv, ranges, i - 1);
      Pieces(kv, ranges, i - 1) + if any then [piece] else []
  }

  function Join<V>(ps: seq<KV<V>>): KV<V> {
    if ps == [] then KV([], [], [])
    else
      var m := |ps| - 1;
      var j := Join(ps[..m]);
      KV(j.keys + ps[m].keys, j.vals + ps[m].vals, j.lens + ps[m].lens)
  }

  // The list up to cut p.
  ghost function UpTo<V>(kv: KV<V>, p: nat): KV<V>
    requires p <= |kv.keys| && Shaped(kv)
  {
    OffsetGrows(kv, 0, p);
    KV(kv.keys[..p], kv.vals[..Offset(kv, p)], if kv.lens == [] then [] else kv.lens[..p])
  }

  lemma PiecesNext<V>(kv: KV<V>, ranges: seq<Range>, i: nat)
    requires i < |ranges| && Sorted(kv.keys) && Tiling(ranges) && Shaped(kv)
    ensures var p, q := CutAt(kv.keys, ranges, i), CutAt(kv.keys, ranges, i + 1);
      && p <= q <= |kv.keys|
      && Pieces(kv, ranges, i + 1) == Pieces(kv, ranges, i) + if p != q then [Segment(kv, p, q)] else []
  {
    CutsGrow(kv.keys, ranges, i);
  }

  lemma JoinAppend<V>(ps: seq<KV<V>>, p: KV<V>)
    ensures var j := Join(ps);
      Join(ps + [p]) == KV(j.keys + p.keys, j.vals + p.vals, j.lens + p.lens)
  {
    assert (ps + [p])[..|ps|] == ps;
  }

  lemma {:induction false} JoinPieces<V>(kv: KV<V>, ranges: seq<Range>, i: nat)
    requires i <= |ranges| && Sorted(kv.keys) && Tiling(ranges) && Shaped(kv)
    ensures CutAt(kv.keys, ranges, i) <= |kv.keys|
    ensures Join(Pieces(kv, ranges, i)) == UpTo(kv, CutAt(kv.keys, ranges, i))
  {
    if i == 0 {
      OffsetGrows(kv, 0, 0);
    } else {
      JoinPieces(kv, ranges, i - 1);
      PiecesNext(kv, ranges, i - 1);
      var p, q := CutAt(kv.keys, ranges, i - 1), CutAt(kv.keys, ranges, i);
      var ps := Pieces(kv, ranges, i - 1);
      if p != q {
        JoinAppend(ps, Segment(kv, p, q));
        ExtendTo(kv, p, q);
      } else {
        assert ps + [] == ps;
      }
    }
  }

  lemma ExtendTo<V>(kv: KV<V>, p: nat, q: nat)
    requires p < q <= |kv.keys| && Shaped(kv)
    ensures var a, b := UpTo(kv, p), Segment(kv, p, q);
      UpTo(kv, q) == KV(a.keys + b.keys, a.vals + b.vals, a.lens + b.lens)
  {
    OffsetGrows(kv, p, q);
  }

  // ---------------------------------------------------------------- sorting

  ghost predicate Ordered<V>(ps: seq<KV<V>>) {
    (forall i :: 0 <= i < |ps| ==> ps[i].keys != []) && forall i, j :: 0 <= i < j < |ps| ==>
      ps[i].keys[0] <= ps[j].keys[0]
  }

  ghost predicate StrictlyOrdered<V>(ps: seq<KV<V>>) {
    (forall i :: 0 <= i < |ps| ==> ps[i].keys != []) && forall i, j :: 0 <= i < j < |ps| ==>
      ps[i].keys[0] < ps[j].keys[0]
  }

  predicate HaveKeys<V>(ps: seq<KV<V>>) {
    forall i :: 0 <= i < |ps| ==> ps[i].keys != []
  }

  function Insert<V>(p: KV<V>, ps: seq<KV<V>>): (r: seq<KV<V>>)
    requires p.keys != [] && HaveKeys(ps)
    ensures HaveKeys(r) && multiset(r) == multiset(ps) + multiset{p}
  {
    if ps == [] then [p]
    else if p.keys[0] < ps[0].keys[0] then [p] + ps
    else
      assert ps == [ps[0]] + ps[1..];
      [ps[0]] + Insert(p, ps[1..])
  }

  // std::sort by first key
  function SortByFirst<V>(ps: seq<KV<V>>): (r: seq<KV<V>>)
    requires HaveKeys(ps)
    ensures HaveKeys(r) && multiset(r) == multiset(ps)
  {
    if ps == [] then []
    else
      assert ps == [ps[0]] + ps[1..];
      Insert(ps[0], SortByFirst(ps[1..]))
  }

  lemma {:induction false} InsertOrdered<V>(p: KV<V>, ps: seq<KV<V>>)
    requires p.keys != [] && Ordered(ps)
    ensures Ordered(Insert(p, ps))
  {
    if ps == [] {
    } else if p.keys[0] < ps[0].keys[0] {
      OrderedFirst(p, ps);
    } else {
      InsertOrdered(p, ps[1..]);
      var r := Insert(p, ps[1..]);
      forall i | 0 <= i < |r| ensures ps[0].keys[0] <= r[i].keys[0] {
        assert r[i] in multiset(r);
        assert r[i] == p || r[i] in multiset(ps[1..]);
      }
      OrderedFirst(ps[0], r);
    }
  }

  lemma OrderedFirst<V>(p: KV<V>, ps: seq<KV<V>>)
    requires p.keys != [] && Ordered(ps) && forall i :: 0 <= i < |ps| ==> p.keys[0] <= ps[i].keys[0]
    ensures Ordered([p] + ps)
  {
  }

  lemma {:induction false} SortOrdered<V>(ps: seq<KV<V>>)
    requires HaveKeys(ps)
    ensures Ordered(SortByFirst(ps))
  {
    if ps != [] {
      SortOrdered(ps[1..]);
      InsertOrdered(ps[0], SortByFirst(ps[1..]));
    }
  }

  lemma SameFirst<V>(a: seq<KV<V>>, b: seq<KV<V>>)
    requires Ordered(a) && StrictlyOrdered(b) && multiset(a) == multiset(b) && a != [] && b != []
    ensures a[0] == b[0]
  {
    assert a[0] in multiset(b) && b[0] in multiset(a);
    var i :| 0 <= i < |b| && b[i] == a[0];
    var j :| 0 <= j < |a| && a[j] == b[0];
  }

  lemma TailMultiset<T>(s: seq<T>)
    requires s != []
    ensures multiset(s[1..]) == multiset(s) - multiset{s[0]}
  {
    assert s == [s[0]] + s[1..];
  }

  // There is only one way to order pieces with different first keys.
  lemma {:induction false} OrderedUnique<V>(a: seq<KV<V>>, b: seq<KV<V>>)
    requires Ordered(a) && StrictlyOrdered(b) && multiset(a) == multiset(b)
    ensures a == b
    decreases |a|
  {
    assert |multiset(a)| == |a| && |multiset(b)| == |b|;
    if a != [] {
      SameFirst(a, b);
      TailMultiset(a);
      TailMultiset(b);
      OrderedUnique(a[1..], b[1..]);
      assert a == [a[0]] + a[1..] && b == [b[0]] + b[1..];
    }
  }

  // FindRange(keys, front, back + 1).size() == s.keys.size()
  predicate FitsKeys<V>(keys: seq<nat>, s: KV<V>)
    requires s.keys != []
  {
    LowerBound(keys, s.keys[|s.keys| - 1] + 1) - LowerBound(keys, s.keys[0]) == |s.keys|
  }

  // Pieces in order, with first keys below x, that each fit the key list.
  ghost predicate InOrder<V>(keys: seq<nat>, ps: seq<KV<V>>, x: nat) {
    && StrictlyOrdered(ps)
    && (forall i :: 0 <= i < |ps| ==> ps[i].keys[0] < x)
    && (forall i :: 0 <= i < |ps| ==> FitsKeys(keys, ps[i]))
  }

  lemma InOrderNext<V>(keys: seq<nat>, ps: seq<KV<V>>, s: KV<V>, lo: nat, hi: nat)
    requires InOrder(keys, ps, lo) && s.keys != [] && lo <= s.keys[0] < hi && FitsKeys(keys, s)
    ensures InOrder(keys, ps + [s], hi)
  {
    var r := ps + [s];
    assert forall i :: 0 <= i < |r| ==> r[i] == if i < |ps| then ps[i] else s;
  }

  lemma InOrderWeaken<V>(keys: seq<nat>, ps: seq<KV<V>>, lo: nat, hi: nat)
    requires InOrder(keys, ps, lo) && lo <= hi
    ensures InOrder(keys, ps, hi)
  {
  }

  lemma {:induction false} PiecesOrdered<V>(kv: KV<V>, ranges: seq<Range>, i: nat)
    requires i <= |ranges| && Sorted(kv.keys) && Tiling(ranges) && Shaped(kv)
    ensures InOrder(kv.keys, Pieces(kv, ranges, i), if i == 0 then 0 else ranges[i - 1].end)
  {
    if i > 0 {
      var m := i - 1;
      PiecesOrdered(kv, ranges, m);
      PiecesNext(kv, ranges, m);
      var ps := Pieces(kv, ranges, m);
      var p, q := CutAt(kv.keys, ranges, m), CutAt(kv.keys, ranges, i);
      var lo := if m == 0 then 0 else ranges[m - 1].end;
      TilingStep(ranges, m);
      if p != q {
        SegmentFits(kv, p, q);
        CutsGrow(kv.keys, ranges, m);
        InOrderNext(kv.keys, ps, Segment(kv, p, q), lo, ranges[m].end);
      } else {
        assert ps + [] == ps;
        InOrderWeaken(kv.keys, ps, lo, ranges[m].end);
      }
    }
  }

  lemma TilingStep(ranges: seq<Range>, m: nat)
    requires Tiling(ranges) && m < |ranges|
    ensures (if m == 0 then 0 else ranges[m - 1].end) <= ranges[m].begin <= ranges[m].end
  {
  }

  lemma SegmentFits<V>(kv: KV<V>, p: nat, q: nat)
    requires p < q <= |kv.keys| && Shaped(kv) && Sorted(kv.keys)
    ensures Segment(kv, p, q).keys != [] && Segment(kv, p, q).keys[0] == kv.keys[p]
    ensures FitsKeys(kv.keys, Segment(kv, p, q))
  {
    BoundsOf(kv.keys, p, q);
  }

  lemma BoundsOf(keys: seq<nat>, p: nat, q: nat)
    requires p < q <= |keys| && Sorted(keys)
    ensures LowerBound(keys, keys[p]) == p && LowerBound(keys, keys[q - 1] + 1) == q
  {
    BoundAt(keys, p, keys[p]);
    BoundAt(keys, q, keys[q - 1] + 1);
  }

  lemma BoundAt(keys: seq<nat>, p: nat, x: nat)
    requires p <= |keys| && Sorted(keys) && (p < |keys| ==> x <= keys[p]) && (p > 0 ==> keys[p - 1] < x)
    ensures LowerBound(keys, x) == p
  {
    forall i | 0 <= i < p ensures keys[i] < x {
      assert keys[i] <= keys[p - 1];
    }
    LowerBoundUnique(keys, x, p);
  }

  // ---------------------------------------------------------------- gathering

  function TotalKeys<V>(ps: seq<KV<V>>): nat {
    if ps == [] then 0 else TotalKeys(ps[..|ps| - 1]) + |ps[|ps| - 1].keys|
  }

  function TotalVals<V>(ps: seq<KV<V>>): nat {
    if ps == [] then 0 else TotalVals(ps[..|ps| - 1]) + |ps[|ps| - 1].vals|
  }

  predicate HasLens<V>(s: KV<V>) {
    |s.lens| == |s.keys|
  }

  // One slice passes the checks.
  predicate SliceOk<V>(keys: seq<nat>, s: KV<V>, wantLens: bool) {
    s.keys != [] && FitsKeys(keys, s) && (wantLens ==> HasLens(s))
  }

  ghost predicate AllOk<V>(keys: seq<nat>, received: seq<KV<V>>, wantLens: bool) {
    forall i :: 0 <= i < |received| ==> SliceOk(keys, received[i], wantLens)
  }

  lemma TotalsNext<V>(ps: seq<KV<V>>, i: nat)
    requires i < |ps|
    ensures TotalKeys(ps[..i + 1]) == TotalKeys(ps[..i]) + |ps[i].keys|
    ensures TotalVals(ps[..i + 1]) == TotalVals(ps[..i]) + |ps[i].vals|
  {
    assert ps[..i + 1][..i] == ps[..i];
  }

  ghost predicate OkUpTo<V>(keys: seq<nat>, received: seq<KV<V>>, wantLens: bool, n: nat) {
    n <= |received| && forall i :: 0 <= i < n ==> SliceOk(keys, received[i], wantLens)
  }

  lemma OkNext<V>(keys: seq<nat>, received: seq<KV<V>>, wantLens: bool, n: nat)
    requires OkUpTo(keys, received, wantLens, n) && n < |received| && SliceOk(keys, received[n], wantLens)
    ensures OkUpTo(keys, received, wantLens, n + 1)
  {
  }

  // The loop of checks.
  method CheckSlices<V>(
      keys: seq<nat>, received: seq<KV<V>>, wantLens: bool) returns (ok: bool, totalKey: nat, totalVal: nat)
    requires HaveKeys(received)
    ensures ok <==> AllOk(keys, received, wantLens)
    ensures ok ==> totalKey == TotalKeys(received) && totalVal == TotalVals(received)
  {
    totalKey, totalVal := 0, 0;
    for i := 0 to |received|
      invariant totalKey == TotalKeys(received[..i]) && totalVal == TotalVals(received[..i])
      invariant OkUpTo(keys, received, wantLens, i)
    {
      var s := received[i];
      if !SliceOk(keys, s, wantLens) { return false, 0, 0; }
      TotalsNext(received, i);
      OkNext(keys, received, wantLens, i);
      totalKey, totalVal := totalKey + |s.keys|, totalVal + |s.vals|;
    }
    assert received[..|received|] == received;
    ok := true;
  }

  // The keys of the list from the slice's first to its last.
  ghost function Enclosed<V>(keys: seq<nat>, s: KV<V>): set<nat>
    requires s.keys != []
  {
    set j | 0 <= j < |keys| && s.keys[0] <= keys[j] <= s.keys[|s.keys| - 1]
  }

  // What the check on a slice means: it has as many keys as the list has from its
  // first to its last, and as many lengths when they are asked for.
  lemma CheckMeans<V>(keys: seq<nat>, s: KV<V>, wantLens: bool)
    requires Sorted(keys)
    ensures SliceOk(keys, s, wantLens) <==>
      s.keys != [] && |Enclosed(keys, s)| == |s.keys| && (wantLens ==> |s.lens| == |s.keys|)
  {
    if s.keys != [] {
      var p, q := LowerBound(keys, s.keys[0]), LowerBound(keys, s.keys[|s.keys| - 1] + 1);
      forall j | 0 <= j < |keys| ensures j in Enclosed(keys, s) <==> p <= j < q { EnclosedAt(keys, s, j); }
      Between(Enclosed(keys, s), p, q);
    }
  }

  lemma EnclosedAt<V>(keys: seq<nat>, s: KV<V>, j: nat)
    requires Sorted(keys) && s.keys != [] && j < |keys|
    ensures LowerBound(keys, s.keys[0]) <= j < LowerBound(keys, s.keys[|s.keys| - 1] + 1) <==>
      s.keys[0] <= keys[j] <= s.keys[|s.keys| - 1]
  {
    var p, q := LowerBound(keys, s.keys[0]), LowerBound(keys, s.keys[|s.keys| - 1] + 1);
    assert p <= j ==> keys[p] <= keys[j];
    assert q <= j ==> keys[q] <= keys[j];
  }

  lemma Between(a: set<nat>, p: nat, q: nat)
    requires forall j :: j in a <==> p <= j < q
    ensures |a| == if p <= q then q - p else 0
  {
    if p <= q {
      assert a !! Below(p) && Below(q) == Below(p) + a;
    } else {
      assert a == {};
    }
  }

  lemma {:induction false} JoinVals<V>(ps: seq<KV<V>>)
    ensures |Join(ps).vals| == TotalVals(ps)
  {
    if ps != [] { JoinVals(ps[..|ps| - 1]); }
  }

  lemma {:induction false} TotalFirstVals<V>(p: KV<V>, ps: seq<KV<V>>)
    ensures TotalVals([p] + ps) == |p.vals| + TotalVals(ps)
  {
    if ps == [] {
      assert [p] + ps == [p] && [p][..0] == [];
    } else {
      var m := |ps| - 1;
      TotalFirstVals(p, ps[..m]);
      assert ([p] + ps)[..m + 1] == [p] + ps[..m];
    }
  }

  lemma TotalsSplit<V>(ps: seq<KV<V>>, k: nat)
    requires k < |ps|
    ensures TotalKeys(ps) == |ps[k].keys| + TotalKeys(ps[..k] + ps[k + 1..])
    ensures TotalVals(ps) == |ps[k].vals| + TotalVals(ps[..k] + ps[k + 1..])
  {
    TotalsConcat(ps[..k], ps[k..]);
    TotalsConcat(ps[..k], ps[k + 1..]);
    assert ps == ps[..k] + ps[k..] && ps[k..] == [ps[k]] + ps[k + 1..];
    TotalFirst(ps[k], ps[k + 1..]);
    TotalFirstVals(ps[k], ps[k + 1..]);
  }

  lemma {:induction false} TotalsConcat<V>(a: seq<KV<V>>, b: seq<KV<V>>)
    ensures TotalKeys(a + b) == TotalKeys(a) + TotalKeys(b) && TotalVals(a + b) == TotalVals(a) + TotalVals(b)
  {
    if b == [] {
      assert a + b == a;
    } else {
      var m := |b| - 1;
      TotalsConcat(a, b[..m]);
      assert (a + b)[..|a| + m] == a + b[..m];
    }
  }

  // The totals do not depend on the order.
  lemma {:induction false} TotalsPermuted<V>(a: seq<KV<V>>, b: seq<KV<V>>)
    requires multiset(a) == multiset(b)
    ensures TotalKeys(a) == TotalKeys(b) && TotalVals(a) == TotalVals(b)
    decreases |a|
  {
    assert |multiset(a)| == |a| && |multiset(b)| == |b|;
    if a != [] {
      assert a[0] in multiset(b);
      var k :| 0 <= k < |b| && b[k] == a[0];
      var rest := b[..k] + b[k + 1..];
      Removed(b, k);
      TailMultiset(a);
      TotalsPermuted(a[1..], rest);
      TotalsSplit(b, k);
      assert a == [a[0]] + a[1..];
      TotalFirst(a[0], a[1..]);
      TotalFirstVals(a[0], a[1..]);
    }
  }

  lemma Removed<T>(s: seq<T>, k: nat)
    requires k < |s|
    ensures multiset(s[..k] + s[k + 1..]) == multiset(s) - multiset{s[k]}
  {
    assert s == s[..k] + [s[k]] + s[k + 1..];
  }

  // std::sort by first key: some ordered arrangement.
  ghost predicate Arranges<V>(sorted: seq<KV<V>>, ps: seq<KV<V>>) {
    Ordered(sorted) && multiset(sorted) == multiset(ps)
  }

  method StdSort<V>(ps: seq<KV<V>>) returns (sorted: seq<KV<V>>)
    requires HaveKeys(ps)
    ensures Arranges(sorted, ps)
  {
    sorted := SortByFirst(ps);
    SortOrdered(ps);
  }

  // The callback of Pull_: check the slices, sort them, copy values and, when
  // they are asked for, lengths.
  method Gather<V>(keys: seq<nat>, received: seq<KV<V>>, wantLens: bool, valsSize: nat, lensSize: nat)
    returns (r: Option<(seq<V>, seq<nat>)>, ghost sorted: seq<KV<V>>)
    requires HaveKeys(received)
    ensures Arranges(sorted, received)
    ensures r.Some? <==>
      && AllOk(keys, received, wantLens) && |Join(sorted).keys| == |keys|
      && (valsSize == 0 || |Join(sorted).vals| <= valsSize) && (wantLens ==> lensSize == 0 || lensSize == |keys|)
    ensures r.Some? <==>
      && AllOk(keys, received, wantLens) && TotalKeys(received) == |keys|
      && (valsSize == 0 || TotalVals(received) <= valsSize) && (wantLens ==> lensSize == 0 || lensSize == |keys|)
    ensures r.Some? ==> r.value == (Join(sorted).vals, if wantLens then Join(sorted).lens else [])
  {
    var kvs := StdSort(received);
    sorted := kvs;
    TotalsPermuted(kvs, received);
    JoinTotal(kvs);
    JoinVals(kvs);
    var ok, totalKey, totalVal := CheckSlices(keys, received, wantLens);
    if !ok || totalKey != |keys| { return None, sorted; }
    // an empty buffer is resized
    if valsSize != 0 && valsSize < totalVal { return None, sorted; }
    if wantLens && lensSize != 0 && lensSize != |keys| { return None, sorted; }
    var vals, lens := CopyAll(kvs);
    r := Some((vals, if wantLens then lens else []));
  }

  method CopyAll<V>(kvs: seq<KV<V>>) returns (vals: seq<V>, lens: seq<nat>)
    ensures vals == Join(kvs).vals && lens == Join(kvs).lens
  {
    vals, lens := [], [];
    for i := 0 to |kvs|
      invariant vals == Join(kvs[..i]).vals && lens == Join(kvs[..i]).lens
    {
      assert kvs[..i + 1][..i] == kvs[..i];
      vals, lens := vals + kvs[i].vals, lens + kvs[i].lens;
    }
    assert kvs[..|kvs|] == kvs;
  }

  // The values are exactly those of the keys.
  predicate Exact<V>(kv: KV<V>) {
    Shaped(kv)
      && (if kv.keys == [] then kv.vals == [] && kv.lens == [] else kv.lens != [] ==> Sum(kv.lens) == |kv.vals|)
  }

  lemma {:induction false} TotalFirst<V>(p: KV<V>, ps: seq<KV<V>>)
    ensures TotalKeys([p] + ps) == |p.keys| + TotalKeys(ps)
  {
    if ps == [] {
      assert [p] + ps == [p] && [p][..0] == [];
    } else {
      var m := |ps| - 1;
      TotalFirst(p, ps[..m]);
      assert ([p] + ps)[..m + 1] == [p] + ps[..m];
    }
  }

  lemma {:induction false} JoinTotal<V>(ps: seq<KV<V>>)
    ensures |Join(ps).keys| == TotalKeys(ps)
  {
    if ps != [] { JoinTotal(ps[..|ps| - 1]); }
  }

  lemma CheckedPieces<V>(keys: seq<nat>, ps: seq<KV<V>>, received: seq<KV<V>>, x: nat)
    requires InOrder(keys, ps, x) && multiset(received) == multiset(ps)
    ensures HaveKeys(received) && forall i :: 0 <= i < |received| ==> FitsKeys(keys, received[i])
  {
    forall i | 0 <= i < |received| ensures received[i].keys != [] && FitsKeys(keys, received[i]) {
      assert received[i] in multiset(ps);
    }
  }

  lemma SortUnique<V>(keys: seq<nat>, ps: seq<KV<V>>, received: seq<KV<V>>, sorted: seq<KV<V>>, x: nat)
    requires InOrder(keys, ps, x) && multiset(received) == multiset(ps) && HaveKeys(received)
    requires Arranges(sorted, received)
    ensures sorted == ps && TotalKeys(received) == |Join(ps).keys|
  {
    OrderedUnique(sorted, ps);
    TotalsPermuted(received, ps);
    JoinTotal(ps);
  }

  // Slicing and gathering give the original back, in whatever order the slices
  // return, and the checks on the slices pass.
  lemma GatherRestores<V>(kv: KV<V>, ranges: seq<Range>, received: seq<KV<V>>, sorted: seq<KV<V>>)
    requires Sorted(kv.keys) && Tiling(ranges) && Exact(kv) && AllBelow(kv.keys, ranges[|ranges| - 1].end)
    requires multiset(received) == multiset(Pieces(kv, ranges, |ranges|)) && Arranges(sorted, received)
    ensures HaveKeys(received) && Join(sorted) == kv
    ensures TotalKeys(received) == |kv.keys| && AllOk(kv.keys, received, kv.lens != [])
  {
    var n := |ranges|;
    var ps := Pieces(kv, ranges, n);
    if kv.lens != [] {
      PiecesHaveLens(kv, ranges, n);
      forall i | 0 <= i < |received| ensures HasLens(received[i]) { assert received[i] in multiset(ps); }
    }
    PiecesOrdered(kv, ranges, n);
    CheckedPieces(kv.keys, ps, received, ranges[n - 1].end);
    SortUnique(kv.keys, ps, received, sorted, ranges[n - 1].end);
    JoinPieces(kv, ranges, n);
    WholeIsAll(kv, ranges);
  }

  lemma {:induction false} PiecesHaveLens<V>(kv: KV<V>, ranges: seq<Range>, i: nat)
    requires i <= |ranges| && Sorted(kv.keys) && Tiling(ranges) && Shaped(kv) && kv.lens != []
    ensures forall j :: 0 <= j < |Pieces(kv, ranges, i)| ==> HasLens(Pieces(kv, ranges, i)[j])
  {
    if i > 0 {
      PiecesHaveLens(kv, ranges, i - 1);
      PiecesNext(kv, ranges, i - 1);
    }
  }

  // The slices of a list, one per range.
  ghost predicate SlicedBy<V>(kv: KV<V>, ranges: seq<Range>, sliced: seq<(bool, KV<V>)>) {
    && Sorted(kv.keys) && Tiling(ranges) && Shaped(kv) && |sliced| == |ranges|
    && forall i :: 0 <= i < |ranges| ==> sliced[i] == SliceFor(kv, ranges, i)
  }

  // What Send transmits: the slices that are not empty, in server order.
  method SendSlices<V>(
      kv: KV<V>, ranges: seq<Range>, sliced: seq<(bool, KV<V>)>) returns (sent: seq<KV<V>>, skipped: nat)
    requires SlicedBy(kv, ranges, sliced)
    ensures sent == Pieces(kv, ranges, |ranges|) && skipped + |sent| == |ranges|
  {
    sent, skipped := [], 0;
    for i := 0 to |sliced|
      invariant sent == Pieces(kv, ranges, i) && skipped + |sent| == i
    {
      if sliced[i].0 { sent := sent + [sliced[i].1]; } else { skipped := skipped + 1; }
    }
  }

  // A whole pull: slice, send, let the slices come back in any order, gather.
  method PullRoundTrip<V>(
      kv: KV<V>, ranges: seq<Range>, shuffle: seq<KV<V>> -> seq<KV<V>>) returns (r: Option<(seq<V>, seq<nat>)>)
    requires Sorted(kv.keys) && Tiling(ranges) && Exact(kv) && AllBelow(kv.keys, ranges[|ranges| - 1].end)
    requires forall ps :: multiset(shuffle(ps)) == multiset(ps)
    ensures r == Some((kv.vals, kv.lens))
  {
    var sliced := DefaultSlicer(kv, ranges);
    var sent, _ := SendSlices(kv, ranges, sliced.value);
    var received := shuffle(sent);
    PiecesOrdered(kv, ranges, |ranges|);
    CheckedPieces(kv.keys, sent, received, ranges[|ranges| - 1].end);
    ghost var sorted;
    r, sorted := Gather(kv.keys, received, kv.lens != [], 0, 0);
    GatherRestores(kv, ranges, received, sorted);
  }

  lemma WholeIsAll<V>(kv: KV<V>, ranges: seq<Range>)
    requires Sorted(kv.keys) && Tiling(ranges) && Exact(kv) && AllBelow(kv.keys, ranges[|ranges| - 1].end)
    ensures CutAt(kv.keys, ranges, |ranges|) == |kv.keys| && UpTo(kv, |kv.keys|) == kv
  {
    LowerBoundUnique(kv.keys, ranges[|ranges| - 1].end, |kv.keys|);
    OffsetGrows(kv, 0, |kv.keys|);
    assert kv.lens[..|kv.lens|] == kv.lens;
  }

  // ---------------------------------------------------------------- what the checks are worth

  // A slice that holds keys of the list, one after the other.
  ghost predicate Genuine<V>(keys: seq<nat>, s: KV<V>) {
    && s.keys != []
    && From(keys, s) + |s.keys| <= |keys| && s.keys == keys[From(keys, s)..From(keys, s) + |s.keys|]
  }

  function From<V>(keys: seq<nat>, s: KV<V>): nat
    requires s.keys != []
  {
    LowerBound(keys, s.keys[0])
  }

  ghost predicate AllGenuine<V>(keys: seq<nat>, ps: seq<KV<V>>) {
    forall i :: 0 <= i < |ps| ==> Genuine(keys, ps[i])
  }

  // No key is in two slices.
  ghost predicate Disjoint<V>(ps: seq<KV<V>>) {
    forall i, j, k :: 0 <= i < j < |ps| && k in ps[i].keys ==> k !in ps[j].keys
  }

  // Slices in order that share no key follow one another.
  lemma Follows<V>(keys: seq<nat>, a: KV<V>, b: KV<V>)
    requires Sorted(keys) && Genuine(keys, a) && Genuine(keys, b) && a.keys[0] <= b.keys[0] && b.keys[0] !in a.keys
    ensures From(keys, a) + |a.keys| <= From(keys, b)
  {
    var p, q, r := From(keys, a), From(keys, a) + |a.keys|, From(keys, b);
    assert keys[r] == b.keys[0] && keys[p] == a.keys[0];
    assert forall i :: p <= i < q ==> keys[i] == a.keys[i - p];
  }

  // Up to place i, the slices take no more than what comes before slice i.
  lemma {:induction false} TakenBefore<V>(keys: seq<nat>, ps: seq<KV<V>>, i: nat)
    requires Sorted(keys) && AllGenuine(keys, ps) && Ordered(ps) && Disjoint(ps) && i < |ps|
    ensures TotalKeys(ps[..i]) <= From(keys, ps[i])
  {
    if i > 0 {
      var a, b := ps[i - 1], ps[i];
      TakenBefore(keys, ps, i - 1);
      TotalsNext(ps, i - 1);
      assert Genuine(keys, a) && Genuine(keys, b) && b.keys[0] in b.keys;
      Follows(keys, a, b);
    }
  }

  // And from slice i on no more than what comes after its start.
  lemma {:induction false} TakenAfter<V>(keys: seq<nat>, ps: seq<KV<V>>, i: nat)
    requires Sorted(keys) && AllGenuine(keys, ps) && Ordered(ps) && Disjoint(ps) && i < |ps|
    ensures TotalKeys(ps) - TotalKeys(ps[..i]) <= |keys| - From(keys, ps[i])
    decreases |ps| - i
  {
    TotalsNext(ps, i);
    assert Genuine(keys, ps[i]);
    if i + 1 == |ps| {
      assert ps[..i + 1] == ps;
    } else {
      var a, b := ps[i], ps[i + 1];
      TakenAfter(keys, ps, i + 1);
      assert Genuine(keys, b) && b.keys[0] in b.keys;
      Follows(keys, a, b);
    }
  }

  lemma {:induction false} JoinIsPrefix<V>(keys: seq<nat>, ps: seq<KV<V>>, i: nat)
    requires Sorted(keys) && AllGenuine(keys, ps) && Ordered(ps) && Disjoint(ps) && TotalKeys(ps) == |keys| && i <= |ps|
    ensures TotalKeys(ps[..i]) <= |keys| && Join(ps[..i]).keys == keys[..TotalKeys(ps[..i])]
  {
    if i > 0 {
      var m := i - 1;
      JoinIsPrefix(keys, ps, m);
      StartsThere(keys, ps, m);
      PrefixNext(keys, ps, m);
    }
  }

  lemma PrefixNext<V>(keys: seq<nat>, ps: seq<KV<V>>, m: nat)
    requires m < |ps| && Genuine(keys, ps[m]) && From(keys, ps[m]) == TotalKeys(ps[..m])
    requires TotalKeys(ps[..m]) <= |keys| && Join(ps[..m]).keys == keys[..TotalKeys(ps[..m])]
    ensures TotalKeys(ps[..m + 1]) <= |keys| && Join(ps[..m + 1]).keys == keys[..TotalKeys(ps[..m + 1])]
  {
    var before, x := ps[..m], ps[m];
    assert ps[..m + 1] == before + [x];
    JoinAppend(before, x);
    TotalsNext(ps, m);
    Glue(keys, TotalKeys(before), x);
  }

  lemma StartsThere<V>(keys: seq<nat>, ps: seq<KV<V>>, i: nat)
    requires Sorted(keys) && AllGenuine(keys, ps) && Ordered(ps) && Disjoint(ps) && TotalKeys(ps) == |keys| && i < |ps|
    ensures Genuine(keys, ps[i]) && From(keys, ps[i]) == TotalKeys(ps[..i])
  {
    TakenBefore(keys, ps, i);
    TakenAfter(keys, ps, i);
  }

  lemma Glue<V>(keys: seq<nat>, t: nat, s: KV<V>)
    requires Genuine(keys, s) && From(keys, s) == t
    ensures t + |s.keys| <= |keys| && keys[..t] + s.keys == keys[..t + |s.keys|]
  {
  }

  // Slice i starts where the slices before it end.
  lemma {:induction false} JoinAt<V>(ps: seq<KV<V>>, n: nat, i: nat, a: nat)
    requires i < n <= |ps| && a < |ps[i].keys|
    ensures |Join(ps[..n]).keys| == TotalKeys(ps[..n]) && TotalKeys(ps[..i]) + a < TotalKeys(ps[..n])
    ensures TotalKeys(ps[..i]) + a < |Join(ps[..n]).keys| && Join(ps[..n]).keys[TotalKeys(ps[..i]) + a] == ps[i].keys[a]
    ensures TotalKeys(ps[..i]) + |ps[i].keys| <= TotalKeys(ps[..n])
  {
    var m := n - 1;
    assert ps[..n] == ps[..m] + [ps[m]];
    JoinAppend(ps[..m], ps[m]);
    JoinTotal(ps[..m]);
    JoinTotal(ps[..n]);
    TotalsNext(ps, m);
    if i < m { JoinAt(ps, m, i, a); }
  }

  lemma DisjointIfJoined<V>(keys: seq<nat>, ps: seq<KV<V>>)
    requires Sorted(keys) && Join(ps).keys == keys
    ensures Disjoint(ps)
  {
    assert ps[..|ps|] == ps;
    forall i, j, k | 0 <= i < j < |ps| && k in ps[i].keys ensures k !in ps[j].keys {
      if k in ps[j].keys {
        var a :| 0 <= a < |ps[i].keys| && ps[i].keys[a] == k;
        var b :| 0 <= b < |ps[j].keys| && ps[j].keys[b] == k;
        JoinAt(ps, |ps|, i, a);
        JoinAt(ps, |ps|, j, b);
        JoinAt(ps, j, i, a);
      }
    }
  }

  // A slice of the joined list holds keys of the list.
  lemma GenuineIfJoined<V>(keys: seq<nat>, ps: seq<KV<V>>, i: nat)
    requires Sorted(keys) && Join(ps).keys == keys && HaveKeys(ps) && i < |ps|
    ensures Genuine(keys, ps[i])
  {
    var t := JoinedAt(keys, ps, i);
    GenuineAt(keys, t, ps[i]);
  }

  ghost predicate LiesAt(keys: seq<nat>, t: nat, part: seq<nat>) {
    t + |part| <= |keys| && forall a {:trigger part[a]} :: 0 <= a < |part| ==> keys[t + a] == part[a]
  }

  lemma JoinedAt<V>(keys: seq<nat>, ps: seq<KV<V>>, i: nat) returns (t: nat)
    requires Join(ps).keys == keys && i < |ps| && ps[i].keys != []
    ensures LiesAt(keys, t, ps[i].keys)
  {
    t := TotalKeys(ps[..i]);
    assert ps[..|ps|] == ps;
    var part := ps[i].keys;
    JoinAt(ps, |ps|, i, |part| - 1);
    forall a | 0 <= a < |part| ensures keys[t + a] == part[a] { JoinAt(ps, |ps|, i, a); }
  }

  lemma GenuineAt<V>(keys: seq<nat>, t: nat, s: KV<V>)
    requires Sorted(keys) && s.keys != [] && LiesAt(keys, t, s.keys)
    ensures Genuine(keys, s)
  {
    assert keys[t] == s.keys[0];
    BoundAt(keys, t, keys[t]);
    SegmentIs(keys, t, s.keys);
  }

  lemma SegmentIs(keys: seq<nat>, t: nat, part: seq<nat>)
    requires LiesAt(keys, t, part)
    ensures part == keys[t..t + |part|]
  {
  }

  // When the number of keys is right, the sorted slices give the list exactly when
  // each holds keys of the list, one after the other, and no key has come twice.
  lemma RestoresIff<V>(keys: seq<nat>, sorted: seq<KV<V>>)
    requires Sorted(keys) && Ordered(sorted) && TotalKeys(sorted) == |keys|
    ensures Join(sorted).keys == keys <==> AllGenuine(keys, sorted) && Disjoint(sorted)
  {
    if AllGenuine(keys, sorted) && Disjoint(sorted) {
      JoinIsPrefix(keys, sorted, |sorted|);
      assert sorted[..|sorted|] == sorted && keys[..|keys|] == keys;
    } else if Join(sorted).keys == keys {
      DisjointIfJoined(keys, sorted);
      forall i: nat | i < |sorted| ensures Genuine(keys, sorted[i]) { GenuineIfJoined(keys, sorted, i); }
    }
  }

  // The checks do not see a slice with other keys that enclose as many of the list.
  lemma CheckedStrange<V>(x: V)
    ensures var s := KV([1, 5], [x, x], []);
      AllOk([2, 4], [s], false) && TotalKeys([s]) == |[2, 4]| && Join([s]).keys != [2, 4] && Disjoint([s])
  {
    var s := KV([1, 5], [x, x], []);
    var ps := [s];
    TotalsNext(ps, 0);
    assert ps[..0] == [] && ps[..1] == ps;
    JoinAppend([], s);
    assert [] + [s] == ps;
    BoundAt([2, 4], 0, 1);
    BoundAt([2, 4], 2, 6);
  }

  // The checks do not see a slice that comes twice in place of another.
  lemma CheckedTwice<V>(x: V)
    ensures var s := KV([1], [x], []);
      AllOk([1, 2], [s, s], false) && TotalKeys([s, s]) == |[1, 2]| && Join([s, s]).keys != [1, 2]
  {
    var s := KV([1], [x], []);
    var ps := [s, s];
    TotalsNext(ps, 0);
    TotalsNext(ps, 1);
    assert ps[..0] == [] && ps[..2] == ps;
    JoinAppend([], s);
    JoinAppend([s], s);
    assert [] + [s] == [s] && [s] + [s] == ps;
    BoundAt([1, 2], 0, 1);
    BoundAt([1, 2], 1, 2);
  }
}
