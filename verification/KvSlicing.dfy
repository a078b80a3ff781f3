/**
  Key ranges and slicing (comm/src/postoffice.cc, comm/include/ps/kv_app.h): a
  sorted key-value list is cut along the servers' key ranges.
 */
module KvSlicing {
  import opened Prelude

  const MAX_KEY: nat := 0xFFFF_FFFF_FFFF_FFFF

  datatype Range = Range(begin: nat, end: nat)

  datatype KV<V> = KV(keys: seq<nat>, vals: seq<V>, lens: seq<nat>)

  // Adjacent ranges from 0 on.
  ghost predicate Tiling(ranges: seq<Range>) {
    && |ranges| > 0 && ranges[0].begin == 0
    && (forall i :: 0 <= i < |ranges| ==> ranges[i].begin <= ranges[i].end)
    && (forall i :: 0 < i < |ranges| ==> ranges[i].begin == ranges[i - 1].end)
  }

  // The ranges tile [0, end) without exceeding the largest key, and none is empty.
  method GetServerKeyRanges(numServers: nat) returns (ranges: seq<Range>)
    requires 0 < numServers <= MAX_KEY
    ensures |ranges| == numServers && Tiling(ranges)
    ensures forall i :: 0 <= i < numServers ==> ranges[i].begin < ranges[i].end <= MAX_KEY
    ensures forall i :: 0 <= i < numServers ==> ranges[i].end - ranges[i].begin == MAX_KEY / numServers
  {
    ranges := [];
    for i := 0 to numServers
      invariant |ranges| == i && forall j :: 0 <= j < i ==> ranges[j] == RangeOf(numServers, j)
    {
      ranges := ranges + [RangeOf(numServers, i)];
    }
    forall i | 0 < i < numServers ensures ranges[i].begin == ranges[i - 1].end {
      assert ranges[i] == RangeOf(numServers, i) && ranges[i - 1] == RangeOf(numServers, i - 1);
    }
  }

  function RangeOf(n: nat, i: nat): (r: Range)
    requires 0 < n <= MAX_KEY && i < n
    ensures r.begin < r.end <= MAX_KEY && r.end - r.begin == MAX_KEY / n && (i == 0 ==> r.begin == 0)
  {
    RangeFits(MAX_KEY / n, n, i);
    Range(MAX_KEY / n * i, MAX_KEY / n * (i + 1))
  }

  lemma RangeFits(q: nat, n: nat, i: nat)
    requires 0 < n <= MAX_KEY && i < n && q == MAX_KEY / n
    ensures q > 0 && q * (i + 1) == q * i + q <= MAX_KEY
  {
    assert q * n <= MAX_KEY;
    Factor(q, n, i + 1);
  }

  lemma Factor(q: nat, n: nat, i: nat)
    requires i <= n
    ensures q * i <= q * n
  {
    assert q * n == q * i + q * (n - i);
  }

  // ---------------------------------------------------------------- slicing

  ghost predicate Sorted(keys: seq<nat>) {
    forall i, j :: 0 <= i < j < |keys| ==> keys[i] < keys[j]
  }

  // std::lower_bound on a sorted list: how many keys are below x.
  function LowerBound(keys: seq<nat>, x: nat): (p: nat)
    ensures p <= |keys| && (forall i :: 0 <= i < p ==> keys[i] < x) && (p < |keys| ==> keys[p] >= x)
  {
    if keys == [] || keys[0] >= x then 0
    else
      var p := LowerBound(keys[1..], x);
      assert forall i :: 1 <= i < p + 1 ==> keys[i] == keys[1..][i - 1];
      1 + p
  }

  lemma LowerBoundUnique(keys: seq<nat>, x: nat, p: nat)
    requires Sorted(keys) && p <= |keys| && (forall i :: 0 <= i < p ==> keys[i] < x) && (p < |keys| ==> keys[p] >= x)
    ensures LowerBound(keys, x) == p
  {
  }

  // Searching on from a lower cut gives the same place.
  lemma LowerBoundFrom(keys: seq<nat>, x: nat, y: nat)
    requires Sorted(keys) && x <= y
    ensures LowerBound(keys, x) <= LowerBound(keys, y)
    ensures LowerBound(keys[LowerBound(keys, x)..], y) == LowerBound(keys, y) - LowerBound(keys, x)
  {
    var p, q := LowerBound(keys, x), LowerBound(keys, y);
    RestSorted(keys, p);
    forall i | 0 <= i < q - p ensures keys[p..][i] < y { assert keys[p..][i] == keys[p + i]; }
    LowerBoundUnique(keys[p..], y, q - p);
  }

  lemma RestSorted(keys: seq<nat>, p: nat)
    requires Sorted(keys) && p <= |keys|
    ensures Sorted(keys[p..])
  {
  }

  lemma {:induction false} SumConcat(a: seq<nat>, b: seq<nat>)
    ensures Sum(a + b) == Sum(a) + Sum(b)
  {
    if b == [] {
      assert a + b == a;
    } else {
      var m := |b| - 1;
      SumConcat(a, b[..m]);
      assert (a + b)[..|a| + m] == a + b[..m];
    }
  }

  // The checks on values and lengths that DefaultSlicer makes.
  predicate Shaped<V>(kv: KV<V>) {
    if kv.keys == [] then true
    else if kv.lens == [] then |kv.vals| % |kv.keys| == 0
    else |kv.lens| == |kv.keys| && Sum(kv.lens) <= |kv.vals|
  }

  // Where the values of key p start.
  function Offset<V>(kv: KV<V>, p: nat): nat
    requires p <= |kv.keys| && Shaped(kv)
  {
    if kv.keys == [] then 0
    else if kv.lens == [] then p * (|kv.vals| / |kv.keys|)
    else Sum(kv.lens[..p])
  }

  lemma TimesGrows(p: nat, q: nat, k: nat)
    requires p <= q
    ensures p * k <= q * k
  {
    assert q * k == p * k + (q - p) * k;
  }

  lemma Multiples(v: nat, n: nat, p: nat, q: nat)
    requires n > 0 && v % n == 0 && p <= q <= n
    ensures p * (v / n) <= q * (v / n) <= v == n * (v / n)
  {
    TimesGrows(p, q, v / n);
    TimesGrows(q, n, v / n);
  }

  lemma SumsGrow(s: seq<nat>, p: nat, q: nat)
    requires p <= q <= |s|
    ensures Sum(s[..p]) <= Sum(s[..q]) <= Sum(s) && Sum(s[..0]) == 0
  {
    assert s[..q] == s[..p] + s[p..q];
    SumConcat(s[..p], s[p..q]);
    assert s == s[..q] + s[q..];
    SumConcat(s[..q], s[q..]);
  }

  lemma OffsetGrows<V>(kv: KV<V>, p: nat, q: nat)
    requires p <= q <= |kv.keys| && Shaped(kv)
    ensures Offset(kv, p) <= Offset(kv, q) <= |kv.vals|
    ensures Offset(kv, 0) == 0
    ensures kv.keys != [] && kv.lens == [] ==> Offset(kv, |kv.keys|) == |kv.vals|
  {
    if kv.keys == [] {
    } else if kv.lens == [] {
      Multiples(|kv.vals|, |kv.keys|, p, q);
    } else {
      SumsGrow(kv.lens, p, q);
    }
  }

  // The part of a list between two cuts.
  function Segment<V>(kv: KV<V>, p: nat, q: nat): KV<V>
    requires p <= q <= |kv.keys| && Shaped(kv)
  {
    OffsetGrows(kv, p, q);
    if p == q then KV([], [], [])
    else KV(kv.keys[p..q], kv.vals[Offset(kv, p)..Offset(kv, q)], if kv.lens == [] then [] else kv.lens[p..q])
  }

  // ---------------------------------------------------------------- the values of a key

  // Each key has its own length, or all have the same, and no value is left over.
  ghost predicate Tight<V>(kv: KV<V>) {
    if kv.lens == [] then if kv.keys == [] then kv.vals == [] else |kv.vals| % |kv.keys| == 0
    else |kv.lens| == |kv.keys| && Sum(kv.lens) == |kv.vals|
  }

  // Where the values of the j-th key start, and how many there are.
  ghost function StartOf<V>(kv: KV<V>, j: nat): nat
    requires j < |kv.keys| && Shaped(kv)
  {
    if kv.lens == [] then j * (|kv.vals| / |kv.keys|) else Sum(kv.lens[..j])
  }

  ghost function LengthAt<V>(kv: KV<V>, j: nat): nat
    requires j < |kv.keys| && Shaped(kv)
  {
    if kv.lens == [] then |kv.vals| / |kv.keys| else kv.lens[j]
  }

  lemma ValueBounds<V>(kv: KV<V>, j: nat)
    requires j < |kv.keys| && Shaped(kv)
    ensures StartOf(kv, j) + LengthAt(kv, j) <= |kv.vals|
  {
    if kv.lens == [] {
      Multiples(|kv.vals|, |kv.keys|, j, j + 1);
    } else {
      SumsGrow(kv.lens, j, j + 1);
      assert kv.lens[..j + 1][..j] == kv.lens[..j];
    }
  }

  ghost function ValuesOf<V>(kv: KV<V>, j: nat): seq<V>
    requires j < |kv.keys| && Shaped(kv)
  {
    ValueBounds(kv, j);
    kv.vals[StartOf(kv, j)..StartOf(kv, j) + LengthAt(kv, j)]
  }

  // A part holds the keys p..q of the list, each with the length and the values that
  // it has there, and nothing else.
  ghost predicate PartOf<V>(kv: KV<V>, p: nat, q: nat, part: KV<V>)
    requires p <= q <= |kv.keys| && Shaped(kv)
  {
    && part.keys == kv.keys[p..q] && Tight(part) && Shaped(part)
    && (part.lens == if kv.lens == [] || p == q then [] else kv.lens[p..q])
    && (kv.lens == [] && p < q ==> |part.vals| == |part.keys| * (|kv.vals| / |kv.keys|))
    && forall j {:trigger ValuesOf(part, j)} :: 0 <= j < q - p ==> ValuesOf(part, j) == ValuesOf(kv, p + j)
  }

  lemma FixedPart<V>(kv: KV<V>, p: nat, q: nat, k: nat)
    requires p < q <= |kv.keys| && kv.lens == [] && Shaped(kv) && k == |kv.vals| / |kv.keys|
    ensures var part := Segment(kv, p, q);
      |part.vals| == (q - p) * k && |part.vals| % (q - p) == 0 && |part.vals| / (q - p) == k
  {
    Multiples(|kv.vals|, |kv.keys|, p, q);
    assert q * k - p * k == (q - p) * k;
    DivModUnique((q - p) * k, q - p, k, 0);
  }

  lemma SumBetween(s: seq<nat>, p: nat, j: nat)
    requires p <= j <= |s|
    ensures Sum(s[..p]) + Sum(s[p..j]) == Sum(s[..j])
  {
    assert s[..j] == s[..p] + s[p..j];
    SumConcat(s[..p], s[p..j]);
  }

  lemma LensPart<V>(kv: KV<V>, p: nat, q: nat)
    requires p < q <= |kv.keys| && kv.lens != [] && Shaped(kv)
    ensures Tight(Segment(kv, p, q)) && Shaped(Segment(kv, p, q))
  {
    OffsetGrows(kv, p, q);
    SumBetween(kv.lens, p, q);
  }

  // A key starts in the part where it starts in the list, less what was cut off.
  lemma PartStarts<V>(kv: KV<V>, p: nat, q: nat, j: nat)
    requires p < q <= |kv.keys| && Shaped(kv) && j < q - p && Shaped(Segment(kv, p, q))
    ensures LengthAt(Segment(kv, p, q), j) == LengthAt(kv, p + j)
    ensures Offset(kv, p) + StartOf(Segment(kv, p, q), j) == StartOf(kv, p + j)
  {
    if kv.lens == [] {
      var k := |kv.vals| / |kv.keys|;
      FixedPart(kv, p, q, k);
      Distribute(p, j, k);
    } else {
      assert Segment(kv, p, q).lens[..j] == kv.lens[p..p + j];
      SumBetween(kv.lens, p, p + j);
    }
  }

  lemma Distribute(p: nat, j: nat, k: nat)
    ensures p * k + j * k == (p + j) * k
  {
  }

  lemma PartValue<V>(kv: KV<V>, p: nat, q: nat, j: nat)
    requires p < q <= |kv.keys| && Shaped(kv) && j < q - p && Shaped(Segment(kv, p, q))
    ensures ValuesOf(Segment(kv, p, q), j) == ValuesOf(kv, p + j)
  {
    PartStarts(kv, p, q, j);
    OffsetGrows(kv, p, q);
    ValueBounds(Segment(kv, p, q), j);
    SubSub(kv.vals, Offset(kv, p), Offset(kv, q), StartOf(Segment(kv, p, q), j), LengthAt(kv, p + j));
  }

  lemma SubSub<V>(s: seq<V>, lo: nat, hi: nat, a: nat, n: nat)
    requires lo <= hi <= |s| && a + n <= hi - lo
    ensures s[lo..hi][a..a + n] == s[lo + a..lo + a + n]
  {
    assert s[lo..] == s[lo..hi] + s[hi..];
    assert s[lo..hi][a..a + n] == s[lo..][a..a + n];
  }

  // Every slice is exact by itself: its keys have the values they have in the list.
  lemma SegmentIsPart<V>(kv: KV<V>, p: nat, q: nat)
    requires p <= q <= |kv.keys| && Shaped(kv)
    ensures PartOf(kv, p, q, Segment(kv, p, q))
  {
    if p < q {
      if kv.lens == [] { FixedPart(kv, p, q, |kv.vals| / |kv.keys|); } else { LensPart(kv, p, q); }
      forall j | 0 <= j < q - p ensures ValuesOf(Segment(kv, p, q), j) == ValuesOf(kv, p + j) {
        PartValue(kv, p, q, j);
      }
    }
  }

  function CutAt(keys: seq<nat>, ranges: seq<Range>, i: nat): nat
    requires i <= |ranges|
  {
    if i == 0 then 0 else LowerBound(keys, ranges[i - 1].end)
  }

  // What server i gets: exactly the keys of its range, with their values.
  function SliceFor<V>(kv: KV<V>, ranges: seq<Range>, i: nat): (bool, KV<V>)
    requires i < |ranges| && Sorted(kv.keys) && Tiling(ranges) && Shaped(kv)
  {
    CutsGrow(kv.keys, ranges, i);
    var p, q := CutAt(kv.keys, ranges, i), CutAt(kv.keys, ranges, i + 1);
    (p != q, Segment(kv, p, q))
  }

  // A slice holds exactly the keys of its range, with their own values and lengths.
  ghost predicate RightSlice<V>(kv: KV<V>, range: Range, slice: (bool, KV<V>))
    requires Sorted(kv.keys) && Shaped(kv)
  {
    && (slice.0 <==> slice.1.keys != [])
    && exists p, q {:trigger PartOf(kv, p, q, slice.1)} :: 0 <= p <= q <= |kv.keys| && PartOf(kv, p, q, slice.1)
         && forall j :: 0 <= j < |kv.keys| ==> (p <= j < q <==> range.begin <= kv.keys[j] < range.end)
  }

  lemma SliceIsRight<V>(kv: KV<V>, ranges: seq<Range>, i: nat)
    requires i < |ranges| && Sorted(kv.keys) && Tiling(ranges) && Shaped(kv)
    ensures RightSlice(kv, ranges[i], SliceFor(kv, ranges, i))
  {
    CutsGrow(kv.keys, ranges, i);
    var p, q := CutAt(kv.keys, ranges, i), CutAt(kv.keys, ranges, i + 1);
    SegmentIsPart(kv, p, q);
    forall j | 0 <= j < |kv.keys| ensures p <= j < q <==> ranges[i].begin <= kv.keys[j] < ranges[i].end {
      SliceOwnsItsRange(kv.keys, ranges, i, j);
    }
  }

  lemma CutsGrow(keys: seq<nat>, ranges: seq<Range>, i: nat)
    requires i < |ranges| && Sorted(keys) && Tiling(ranges)
    ensures CutAt(keys, ranges, i) <= CutAt(keys, ranges, i + 1) <= |keys|
    ensures CutAt(keys, ranges, i) == LowerBound(keys, ranges[i].begin)
    ensures CutAt(keys, ranges, i + 1) - CutAt(keys, ranges, i) ==
      LowerBound(keys[CutAt(keys, ranges, i)..], ranges[i].end)
  {
    LowerBoundUnique(keys, 0, 0);
    LowerBoundFrom(keys, ranges[i].begin, ranges[i].end);
  }

  // The positions where the ranges cut the keys.
  method Positions(keys: seq<nat>, ranges: seq<Range>) returns (pos: seq<nat>)
    requires Sorted(keys) && Tiling(ranges)
    ensures |pos| == |ranges| + 1 && forall j :: 0 <= j <= |ranges| ==> pos[j] == CutAt(keys, ranges, j)
  {
    var begin := LowerBound(keys, ranges[0].begin);
    LowerBoundUnique(keys, 0, 0);
    pos := [begin];
    for i := 0 to |ranges|
      invariant |pos| == i + 1 && begin == pos[i]
      invariant forall j :: 0 <= j <= i ==> pos[j] == CutAt(keys, ranges, j)
    {
      CutsGrow(keys, ranges, i);
      var len := LowerBound(keys[begin..], ranges[i].end);
      begin := begin + len;
      pos := pos + [pos[i] + len];
    }
  }

  ghost predicate AllBelow(keys: seq<nat>, end: nat) {
    forall i :: 0 <= i < |keys| ==> keys[i] < end
  }

  // None when a check fails: a key beyond the last range, or values and lengths
  // that do not fit the keys.
  method DefaultSlicer<V>(send: KV<V>, ranges: seq<Range>) returns (sliced: Option<seq<(bool, KV<V>)>>)
    requires Sorted(send.keys) && Tiling(ranges)
    ensures sliced.Some? <==> Shaped(send) && AllBelow(send.keys, ranges[|ranges| - 1].end)
    ensures sliced.Some? ==>
      |sliced.value| == |ranges| && forall i :: 0 <= i < |ranges| ==> sliced.value[i] == SliceFor(send, ranges, i)
    ensures sliced.Some? ==> forall i :: 0 <= i < |ranges| ==> RightSlice(send, ranges[i], sliced.value[i])
  {
    sliced := Slice(send, ranges);
    if Shaped(send) {
      forall i | 0 <= i < |ranges| ensures RightSlice(send, ranges[i], SliceFor(send, ranges, i)) {
        SliceIsRight(send, ranges, i);
      }
    }
  }

  method Slice<V>(send: KV<V>, ranges: seq<Range>) returns (sliced: Option<seq<(bool, KV<V>)>>)
    requires Sorted(send.keys) && Tiling(ranges)
    ensures sliced.Some? <==> Shaped(send) && AllBelow(send.keys, ranges[|ranges| - 1].end)
    ensures sliced.Some? ==>
      |sliced.value| == |ranges| && forall i :: 0 <= i < |ranges| ==> sliced.value[i] == SliceFor(send, ranges, i)
  {
    var n := |ranges|;
    var pos := Positions(send.keys, ranges);
    if pos[n] != |send.keys| {
      assert send.keys[pos[n]] >= ranges[n - 1].end;
      return None;
    }
    if send.keys == [] {
      return Some(seq(n, _ => (false, KV([], [], []))));
    }
    var k := 0;
    if send.lens == [] {
      k := |send.vals| / |send.keys|;
      if k * |send.keys| != |send.vals| { return None; }
    } else if |send.keys| != |send.lens| {
      return None;
    }
    sliced := CutValues(send, ranges, pos, k);
  }

  // The slicing loop.
  method CutValues<V>(
      send: KV<V>, ranges: seq<Range>, pos: seq<nat>, k: nat) returns (sliced: Option<seq<(bool, KV<V>)>>)
    requires Sorted(send.keys) && Tiling(ranges) && send.keys != []
    requires |pos| == |ranges| + 1 && (forall j :: 0 <= j <= |ranges| ==> pos[j] == CutAt(send.keys, ranges, j))
    requires pos[|ranges|] == |send.keys|
    requires send.lens == [] ==> k == |send.vals| / |send.keys| && k * |send.keys| == |send.vals|
    requires send.lens != [] ==> |send.lens| == |send.keys|
    ensures sliced.Some? <==> Shaped(send)
    ensures sliced.Some? ==>
      |sliced.value| == |ranges| && forall i :: 0 <= i < |ranges| ==> sliced.value[i] == SliceFor(send, ranges, i)
  {
    var valBegin := 0;
    if send.lens == [] { FixedOffsets(send, k, 0, 0); }
    var out: seq<(bool, KV<V>)> := [];
    for i := 0 to |ranges|
      invariant |out| == i && Reached(send, pos[i], valBegin)
      invariant Shaped(send) ==> forall j :: 0 <= j < i ==> out[j] == SliceFor(send, ranges, j)
    {
      CutsGrow(send.keys, ranges, i);
      var piece;
      piece, valBegin := CutOne(send, pos[i], pos[i + 1], k, valBegin);
      if piece.None? { return None; }
      out := out + [piece.value];
    }
    assert send.lens[..|send.lens|] == send.lens;
    return Some(out);
  }

  // val_begin after the keys before p have been cut.
  ghost predicate Reached<V>(send: KV<V>, p: nat, valBegin: nat) {
    && (send.lens != [] ==> p <= |send.lens| && valBegin == Sum(send.lens[..p]) <= |send.vals|)
    && (send.lens == [] && send.keys != [] ==> |send.vals| % |send.keys| == 0)
  }

  method CutOne<V>(
      send: KV<V>, p: nat, q: nat, k: nat, valBegin: nat) returns (piece: Option<(bool, KV<V>)>, valEnd: nat)
    requires send.keys != [] && p <= q <= |send.keys| && Reached(send, p, valBegin)
    requires send.lens == [] ==> k == |send.vals| / |send.keys| && k * |send.keys| == |send.vals|
    requires send.lens != [] ==> |send.lens| == |send.keys|
    ensures piece.None? ==> !Shaped(send)
    ensures piece.Some? ==> Reached(send, q, valEnd) && (Shaped(send) ==> piece.value == (p != q, Segment(send, p, q)))
  {
    valEnd := valBegin;
    if q == p {
      return Some((false, KV([], [], []))), valEnd;
    } else if send.lens != [] {
      var lens := send.lens[p..q];
      assert send.lens[..q] == send.lens[..p] + lens;
      SumConcat(send.lens[..p], lens);
      valEnd := valEnd + Sum(lens);
      if valEnd > |send.vals| {
        TooLong(send.lens, q, |send.vals|);
        return None, valEnd;
      }
      return Some((true, KV(send.keys[p..q], send.vals[valBegin..valEnd], lens))), valEnd;
    } else {
      FixedOffsets(send, k, p, q);
      return Some((true, KV(send.keys[p..q], send.vals[p * k..q * k], []))), valEnd;
    }
  }

  lemma TooLong(lens: seq<nat>, p: nat, limit: nat)
    requires p <= |lens| && Sum(lens[..p]) > limit
    ensures Sum(lens) > limit
  {
    assert lens == lens[..p] + lens[p..];
    SumConcat(lens[..p], lens[p..]);
  }

  lemma FixedOffsets<V>(kv: KV<V>, k: nat, p: nat, q: nat)
    requires kv.keys != [] && kv.lens == [] && k == |kv.vals| / |kv.keys| && k * |kv.keys| == |kv.vals|
    requires p <= q <= |kv.keys|
    ensures Shaped(kv) && p * k == Offset(kv, p) && q * k == Offset(kv, q) && p * k <= q * k <= |kv.vals|
  {
    DivModUnique(|kv.vals|, |kv.keys|, k, 0);
    OffsetGrows(kv, p, q);
  }

  // A key is in server i's slice exactly when it lies in server i's range.
  lemma SliceOwnsItsRange(keys: seq<nat>, ranges: seq<Range>, i: nat, j: nat)
    requires i < |ranges| && j < |keys| && Sorted(keys) && Tiling(ranges)
    ensures CutAt(keys, ranges, i) <= j < CutAt(keys, ranges, i + 1) <==> ranges[i].begin <= keys[j] < ranges[i].end
  {
    CutsGrow(keys, ranges, i);
    var p, q := CutAt(keys, ranges, i), CutAt(keys, ranges, i + 1);
    assert p == LowerBound(keys, ranges[i].begin) && q == LowerBound(keys, ranges[i].end);
    assert p <= j ==> keys[p] <= keys[j];
    assert q <= j ==> keys[q] <= keys[j];
  }
}
