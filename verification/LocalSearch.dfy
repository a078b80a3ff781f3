/** The neighbours that the stability search tries (scheduler/cli/_autoscaling_stability.py). */
module LocalSearch {
  import opened Prelude
  import opened Allocation

  function Distance(a: Triple, b: Triple): nat {
    Abs(a.pre - b.pre) + Abs(a.attn - b.attn) + Abs(a.ffn - b.ffn)
  }

  // Zero only between equal triples, and a metric.
  lemma DistanceIsMetric(a: Triple, b: Triple, c: Triple)
    ensures Distance(a, b) == 0 <==> a == b
    ensures Distance(a, b) == Distance(b, a) && Distance(a, c) <= Distance(a, b) + Distance(b, c)
  {
  }

  function Size(t: Triple): int {
    t.pre + t.attn + t.ffn
  }

  // The distance to the nearest anchor.
  function Nearest(t: Triple, totals: seq<Triple>): (d: nat)
    requires totals != []
    ensures exists i :: 0 <= i < |totals| && d == Distance(t, totals[i])
    ensures forall i :: 0 <= i < |totals| ==> d <= Distance(t, totals[i])
  {
    var d := Distance(t, totals[0]);
    if |totals| == 1 then d
    else
      var rest := Nearest(t, totals[1..]);
      assert forall i :: 0 < i < |totals| ==> totals[i] == totals[1..][i - 1];
      if d <= rest then d else rest
  }

  // ---------------------------------------------------------------- targets

  function LowHigh(xs: seq<int>): (r: (int, int))
    requires xs != []
    ensures forall i :: 0 <= i < |xs| ==> r.0 <= xs[i] <= r.1
    ensures r.0 in xs && r.1 in xs
  {
    if |xs| == 1 then (xs[0], xs[0])
    else
      var (low, high) := LowHigh(xs[1..]);
      assert xs == [xs[0]] + xs[1..];
      (if xs[0] < low then xs[0] else low, if xs[0] > high then xs[0] else high)
  }

  function AtLeastOne(xs: seq<int>): (r: seq<int>)
    ensures |r| == |xs|
  {
    seq(|xs|, i requires 0 <= i < |xs| => if xs[i] < 1 then 1 else xs[i])
  }

  function Column(totals: seq<Triple>, worker: nat): (r: seq<int>)
    ensures |r| == |totals|
  {
    seq(|totals|, i requires 0 <= i < |totals| =>
      if worker == 0 then totals[i].pre else if worker == 1 then totals[i].attn else totals[i].ffn)
  }

  // May a worker type have x GPUs: anything between the anchors for pre, and for
  // the others an anchor's own number or one of the given choices.
  predicate Allows(totals: seq<Triple>, worker: nat, choices: set<int>, x: int)
    requires totals != []
  {
    var observed := AtLeastOne(Column(totals, worker));
    var (low, high) := LowHigh(observed);
    low <= x <= high && (worker == 0 || x in observed || (x in choices && x > 0))
  }

  // An anchor's number of GPUs of a worker type, and at least one.
  ghost predicate Observed(totals: seq<Triple>, worker: nat, x: int) {
    exists i :: 0 <= i < |totals| && ObservedAt(totals[i], worker, x)
  }

  ghost predicate ObservedAt(t: Triple, worker: nat, x: int) {
    x >= 1 && if worker == 0 then x == t.pre || (t.pre < 1 && x == 1)
              else if worker == 1 then x == t.attn || (t.attn < 1 && x == 1)
              else x == t.ffn || (t.ffn < 1 && x == 1)
  }

  lemma ObservedIs(totals: seq<Triple>, worker: nat, x: int)
    ensures x in AtLeastOne(Column(totals, worker)) <==> Observed(totals, worker, x)
  {
    var r := AtLeastOne(Column(totals, worker));
    if x in r {
      var i :| 0 <= i < |r| && r[i] == x;
      assert ObservedAt(totals[i], worker, x);
    }
    if Observed(totals, worker, x) {
      var i :| 0 <= i < |totals| && ObservedAt(totals[i], worker, x);
      assert r[i] == x;
    }
  }

  // What is allowed lies between two observed numbers, and for attn and ffn is
  // observed itself or a positive choice.
  lemma AllowsMeans(totals: seq<Triple>, worker: nat, choices: set<int>, x: int)
    requires totals != []
    ensures Allows(totals, worker, choices, x) <==>
      && (exists y :: Observed(totals, worker, y) && y <= x) && (exists z :: Observed(totals, worker, z) && x <= z)
      && (worker == 0 || Observed(totals, worker, x) || (x in choices && x > 0))
  {
    var observed := AtLeastOne(Column(totals, worker));
    var (low, high) := LowHigh(observed);
    ObservedIs(totals, worker, x);
    ObservedIs(totals, worker, low);
    ObservedIs(totals, worker, high);
    forall y | Observed(totals, worker, y) ensures low <= y <= high { ObservedIs(totals, worker, y); }
  }

  ghost predicate Target(totals: seq<Triple>, capacity: seq<(nat, int)>, choices: set<int>, t: Triple)
    requires totals != []
  {
    && Allows(totals, 0, choices, t.pre) && Allows(totals, 1, choices, t.attn) && Allows(totals, 2, choices, t.ffn)
    && Size(t) <= Sum(Room(capacity))
  }

  method WorkerRange(totals: seq<Triple>, worker: nat, choices: set<int>) returns (options: seq<int>)
    requires totals != []
    ensures forall x :: x in options <==> Allows(totals, worker, choices, x)
    ensures forall i, j :: 0 <= i < j < |options| ==> options[i] < options[j]
  {
    var observed := AtLeastOne(Column(totals, worker));
    var (low, high) := LowHigh(observed);
    options := [];
    for x := low to high + 1
      invariant forall y :: y in options <==> y < x && Allows(totals, worker, choices, y)
      invariant forall i, j :: 0 <= i < j < |options| ==> options[i] < options[j]
    {
      assert forall i :: 0 <= i < |options| ==> options[i] in options;
      if worker == 0 || x in observed || (x in choices && x > 0) { options := options + [x]; }
    }
  }

  // The product of the ranges, as far as there is room.
  method Product(pres: seq<int>, attns: seq<int>, ffns: seq<int>, room: nat) returns (targets: seq<Triple>)
    ensures forall t :: t in targets <==> t.pre in pres && t.attn in attns && t.ffn in ffns && Size(t) <= room
  {
    targets := [];
    for a := 0 to |pres|
      invariant forall t :: t in targets <==> t.pre in pres[..a] && t.attn in attns && t.ffn in ffns && Size(t) <= room
    {
      var row := PlaneOf(pres[a], attns, ffns, room);
      targets := targets + row;
    }
    assert pres[..|pres|] == pres;
  }

  method PlaneOf(pre: int, attns: seq<int>, ffns: seq<int>, room: nat) returns (targets: seq<Triple>)
    ensures forall t :: t in targets <==> t.pre == pre && t.attn in attns && t.ffn in ffns && Size(t) <= room
  {
    targets := [];
    for b := 0 to |attns|
      invariant forall t :: t in targets <==> t.pre == pre && t.attn in attns[..b] && t.ffn in ffns && Size(t) <= room
    {
      for c := 0 to |ffns|
        invariant forall t :: t in targets <==>
          t.pre == pre && t.ffn in ffns && Size(t) <= room
            && (t.attn in attns[..b] || (t.attn == attns[b] && t.ffn in ffns[..c]))
      {
        var t := Triple(pre, attns[b], ffns[c]);
        if Size(t) <= room { targets := targets + [t]; }
      }
    }
    assert attns[..|attns|] == attns;
  }

  // The sort key (distance, size, the target itself).
  predicate SortsBefore(totals: seq<Triple>, a: Triple, b: Triple)
    requires totals != []
  {
    var x, y := Nearest(a, totals), Nearest(b, totals);
    x < y || (x == y && SortsBeforeAt(a, b))
  }

  predicate SortsBeforeAt(a: Triple, b: Triple) {
    Size(a) < Size(b) || (Size(a) == Size(b) && (a.pre < b.pre || (a.pre == b.pre && a.attn <= b.attn)))
  }

  // Of two targets the nearer to an anchor comes first, then the smaller, and there are
  // no ties.
  lemma {:induction false} ComesFirst(totals: seq<Triple>, a: Triple, b: Triple)
    requires totals != [] && SortsBefore(totals, a, b)
    ensures Nearest(a, totals) <= Nearest(b, totals)
    ensures Nearest(a, totals) == Nearest(b, totals) ==> Size(a) <= Size(b)
    ensures SortsBefore(totals, b, a) ==> a == b
  {
  }

  ghost predicate Sorted(totals: seq<Triple>, ts: seq<Triple>)
    requires totals != []
  {
    forall i, j :: 0 <= i < j < |ts| ==> SortsBefore(totals, ts[i], ts[j])
  }

  lemma {:induction false} Transitive(totals: seq<Triple>, a: Triple, b: Triple, c: Triple)
    requires totals != [] && SortsBefore(totals, a, b) && SortsBefore(totals, b, c)
    ensures SortsBefore(totals, a, c)
  {
  }

  lemma Connected(totals: seq<Triple>, a: Triple, b: Triple)
    requires totals != []
    ensures SortsBefore(totals, a, b) || SortsBefore(totals, b, a)
  {
  }

  lemma InsertedSorted(totals: seq<Triple>, ts: seq<Triple>, k: nat, x: Triple)
    requires totals != [] && Sorted(totals, ts) && k <= |ts|
    requires forall i :: 0 <= i < k ==> SortsBefore(totals, ts[i], x)
    requires forall i :: k <= i < |ts| ==> SortsBefore(totals, x, ts[i])
    ensures Sorted(totals, ts[..k] + [x] + ts[k..])
    ensures forall y :: y in ts[..k] + [x] + ts[k..] <==> y in ts || y == x
  {
    InsertedAt(ts, k, x);
    var r := ts[..k] + [x] + ts[k..];
    forall i, j | 0 <= i < j < |r| ensures SortsBefore(totals, r[i], r[j]) {
    }
  }

  method InsertTarget(totals: seq<Triple>, ts: seq<Triple>, x: Triple) returns (r: seq<Triple>)
    requires totals != [] && Sorted(totals, ts)
    ensures Sorted(totals, r) && forall y :: y in r <==> y in ts || y == x
  {
    var k := 0;
    while k < |ts| && SortsBefore(totals, ts[k], x)
      invariant k <= |ts| && forall i :: 0 <= i < k ==> SortsBefore(totals, ts[i], x)
    {
      k := k + 1;
    }
    forall i | k <= i < |ts| ensures SortsBefore(totals, x, ts[i]) {
      Connected(totals, ts[k], x);
      if k < i { Transitive(totals, x, ts[k], ts[i]); }
    }
    InsertedSorted(totals, ts, k, x);
    r := ts[..k] + [x] + ts[k..];
  }

  method SortTargets(totals: seq<Triple>, ts: seq<Triple>) returns (r: seq<Triple>)
    requires totals != []
    ensures Sorted(totals, r) && forall y :: y in r <==> y in ts
  {
    r := [];
    for i := 0 to |ts|
      invariant Sorted(totals, r) && forall y :: y in r <==> y in ts[..i]
    {
      r := InsertTarget(totals, r, ts[i]);
    }
    assert ts[..|ts|] == ts;
  }

  // Anchor k is the first of those nearest to t.
  ghost predicate NearestFirst(t: Triple, anchors: seq<Matrix>, k: nat) {
    && k < |anchors|
    && (forall i :: 0 <= i < |anchors| ==> Distance(t, Totals(anchors[k])) <= Distance(t, Totals(anchors[i])))
    && (forall i :: 0 <= i < k ==> Distance(t, Totals(anchors[k])) < Distance(t, Totals(anchors[i])))
  }

  // The first of the closest anchors.
  method ClosestAnchor(t: Triple, anchors: seq<Matrix>) returns (k: nat)
    requires anchors != []
    ensures NearestFirst(t, anchors, k)
  {
    k := 0;
    for i := 1 to |anchors|
      invariant k < i
      invariant forall j :: 0 <= j < i ==> Distance(t, Totals(anchors[k])) <= Distance(t, Totals(anchors[j]))
      invariant forall j :: 0 <= j < k ==> Distance(t, Totals(anchors[k])) < Distance(t, Totals(anchors[j]))
    {
      if Distance(t, Totals(anchors[i])) < Distance(t, Totals(anchors[k])) { k := i; }
    }
  }

  // ---------------------------------------------------------------- neighbours

  function AllTotals(anchors: seq<Matrix>): (r: seq<Triple>)
    ensures |r| == |anchors|
  {
    seq(|anchors|, i requires 0 <= i < |anchors| => Totals(anchors[i]))
  }

  // The matrix fits and is built from the first of the anchors nearest to it.
  ghost predicate Seeded(anchors: seq<Matrix>, capacity: seq<(nat, int)>, m: Matrix) {
    Fits(capacity, m) && exists k: nat :: NearestFirst(Totals(m), anchors, k) && BuiltFrom(anchors[k], capacity, m)
  }

  // What is tried: a new matrix that fits, is built from the nearest anchor, and gives
  // each worker type an option.
  ghost predicate Neighbour(anchors: seq<Matrix>, capacity: seq<(nat, int)>, choices: set<int>, m: Matrix)
    requires anchors != []
  {
    m !in anchors && Seeded(anchors, capacity, m) && Target(AllTotals(anchors), capacity, choices, Totals(m))
  }

  ghost predicate Covered(anchors: seq<Matrix>, found: seq<Matrix>, t: Triple) {
    exists m :: (m in anchors || m in found) && Totals(m) == t
  }

  method Targets(totals: seq<Triple>, capacity: seq<(nat, int)>, choices: set<int>) returns (targets: seq<Triple>)
    requires totals != []
    ensures Sorted(totals, targets) && forall t :: t in targets <==> Target(totals, capacity, choices, t)
  {
    var pres := WorkerRange(totals, 0, choices);
    var attns := WorkerRange(totals, 1, choices);
    var ffns := WorkerRange(totals, 2, choices);
    targets := Product(pres, attns, ffns, Sum(Room(capacity)));
    targets := SortTargets(totals, targets);
  }

  lemma TargetFits(totals: seq<Triple>, capacity: seq<(nat, int)>, choices: set<int>, t: Triple)
    requires totals != [] && Target(totals, capacity, choices, t)
    ensures Wanted(t) == t && t.pre + t.attn + t.ffn <= Sum(Room(capacity))
  {
    AllowsPositive(totals, 0, choices, t.pre);
    AllowsPositive(totals, 1, choices, t.attn);
    AllowsPositive(totals, 2, choices, t.ffn);
  }

  lemma AllowsPositive(totals: seq<Triple>, worker: nat, choices: set<int>, x: int)
    requires totals != [] && Allows(totals, worker, choices, x)
    ensures x >= 1
  {
    var observed := AtLeastOne(Column(totals, worker));
    assert LowHigh(observed).0 in observed;
  }

  // A target is always met.
  method Rebuild(anchors: seq<Matrix>, capacity: seq<(nat, int)>, choices: set<int>, t: Triple) returns (m: Matrix)
    requires anchors != [] && Target(AllTotals(anchors), capacity, choices, t)
    ensures Seeded(anchors, capacity, m) && Totals(m) == t
  {
    TargetFits(AllTotals(anchors), capacity, choices, t);
    var seed := ClosestAnchor(t, anchors);
    m := RebuildAllocation(anchors[seed], capacity, t);
  }

  // found holds new matrices for some of the first i targets, in their order,
  // and the others are covered.
  ghost predicate Progress(
      anchors: seq<Matrix>, capacity: seq<(nat, int)>, targets: seq<Triple>, i: nat, found: seq<Matrix>,
      from: seq<nat>)
  {
    && i <= |targets| && |from| == |found| && Distinct(found) && Increasing(from, i)
    && (forall j: nat {:trigger FoundAt(anchors, capacity, targets, found, from, j)} ::
      FoundAt(anchors, capacity, targets, found, from, j))
    && (forall j: nat {:trigger CoveredAt(anchors, found, targets, j)} ::
      j < i ==> CoveredAt(anchors, found, targets, j))
  }

  ghost predicate Increasing(from: seq<nat>, i: nat) {
    && (forall j :: 0 <= j < |from| ==> from[j] < i)
    && forall j, k :: 0 <= j < k < |from| ==> from[j] < from[k]
  }

  ghost predicate FoundAt(
      anchors: seq<Matrix>, capacity: seq<(nat, int)>, targets: seq<Triple>, found: seq<Matrix>, from: seq<nat>,
      j: nat)
  {
    j < |found| ==> j < |from| && from[j] < |targets| && NewFor(anchors, capacity, found[j], targets[from[j]])
  }

  ghost predicate CoveredAt(anchors: seq<Matrix>, found: seq<Matrix>, targets: seq<Triple>, j: nat) {
    j < |targets| && Covered(anchors, found, targets[j])
  }

  ghost predicate NewFor(anchors: seq<Matrix>, capacity: seq<(nat, int)>, m: Matrix, t: Triple) {
    m !in anchors && Seeded(anchors, capacity, m) && Totals(m) == t
  }

  lemma {:induction false} CoveredMore(
      anchors: seq<Matrix>, found: seq<Matrix>, m: Matrix, targets: seq<Triple>, j: nat)
    requires CoveredAt(anchors, found, targets, j)
    ensures CoveredAt(anchors, found + [m], targets, j)
  {
    var c :| (c in anchors || c in found) && Totals(c) == targets[j];
    assert c in found + [m] || c in anchors;
  }

  lemma {:induction false} NewlyCovered(anchors: seq<Matrix>, found: seq<Matrix>, m: Matrix, t: Triple)
    requires Totals(m) == t && (m in anchors || m in found)
    ensures Covered(anchors, found, t)
  {
  }

  lemma {:induction false} CoversNext(
      anchors: seq<Matrix>, found: seq<Matrix>, m: Matrix, targets: seq<Triple>, i: nat, j: nat)
    requires j <= i < |targets| && Totals(m) == targets[i] && (j < i ==> CoveredAt(anchors, found, targets, j))
    ensures CoveredAt(anchors, found + [m], targets, j)
  {
    if j < i {
      CoveredMore(anchors, found, m, targets, j);
    } else {
      assert m in found + [m];
      NewlyCovered(anchors, found + [m], m, targets[i]);
    }
  }

  lemma {:induction false} ProgressSkips(
      anchors: seq<Matrix>, capacity: seq<(nat, int)>, targets: seq<Triple>, i: nat, found: seq<Matrix>,
      from: seq<nat>, m: Matrix)
    requires i < |targets| && Progress(anchors, capacity, targets, i, found, from) && Totals(m) == targets[i]
    requires m in anchors || m in found
    ensures Progress(anchors, capacity, targets, i + 1, found, from)
  {
    NewlyCovered(anchors, found, m, targets[i]);
    var i1 := i + 1;
    forall j: nat | j < i1 ensures CoveredAt(anchors, found, targets, j) {}
  }

  lemma {:induction false} ProgressAdds(
      anchors: seq<Matrix>, capacity: seq<(nat, int)>, targets: seq<Triple>, i: nat, found: seq<Matrix>,
      from: seq<nat>, m: Matrix)
    requires i < |targets| && Progress(anchors, capacity, targets, i, found, from)
    requires NewFor(anchors, capacity, m, targets[i]) && m !in found
    ensures Progress(anchors, capacity, targets, i + 1, found + [m], from + [i])
  {
    var f, g, i1 := found + [m], from + [i], i + 1;
    forall j: nat | j < i1 ensures CoveredAt(anchors, f, targets, j) { CoversNext(anchors, found, m, targets, i, j); }
    forall j: nat ensures FoundAt(anchors, capacity, targets, f, g, j) {
      assert FoundAt(anchors, capacity, targets, found, from, j);
    }
    assert Increasing(g, i1) && Distinct(f);
  }

  method TryTarget(
      anchors: seq<Matrix>, capacity: seq<(nat, int)>, choices: set<int>, targets: seq<Triple>, i: nat,
      found: seq<Matrix>, ghost from: seq<nat>)
    returns (found': seq<Matrix>, ghost from': seq<nat>)
    requires anchors != [] && i < |targets| && Target(AllTotals(anchors), capacity, choices, targets[i])
    requires Progress(anchors, capacity, targets, i, found, from)
    ensures Progress(anchors, capacity, targets, i + 1, found', from')
  {
    var t := targets[i];
    var m := Rebuild(anchors, capacity, choices, t);
    if m in anchors || m in found || Totals(m) != t {
      ProgressSkips(anchors, capacity, targets, i, found, from, m);
      return found, from;
    }
    ProgressAdds(anchors, capacity, targets, i, found, from, m);
    return found + [m], from + [i];
  }

  // Each target is met exactly, by an anchor or by one neighbour; the nearest
  // come first.
  method LocalAllocations(
      anchors: seq<Matrix>, capacity: seq<(nat, int)>, choices: set<int>) returns (found: seq<Matrix>)
    requires anchors != []
    ensures forall i :: 0 <= i < |found| ==> Neighbour(anchors, capacity, choices, found[i])
    ensures Distinct(found)
    ensures forall t :: Target(AllTotals(anchors), capacity, choices, t) ==> Covered(anchors, found, t)
    ensures forall i, j :: 0 <= i < j < |found| ==> SortsBefore(AllTotals(anchors), Totals(found[i]), Totals(found[j]))
  {
    var totals := AllTotals(anchors);
    var targets := Targets(totals, capacity, choices);
    found := [];
    ghost var from: seq<nat> := [];
    for i := 0 to |targets|
      invariant Progress(anchors, capacity, targets, i, found, from)
    {
      assert targets[i] in targets;
      found, from := TryTarget(anchors, capacity, choices, targets, i, found, from);
    }
    Finished(anchors, capacity, choices, targets, found, from);
  }

  lemma {:induction false} Finished(
      anchors: seq<Matrix>, capacity: seq<(nat, int)>, choices: set<int>, targets: seq<Triple>, found: seq<Matrix>,
      from: seq<nat>)
    requires anchors != [] && Sorted(AllTotals(anchors), targets)
    requires forall t :: t in targets <==> Target(AllTotals(anchors), capacity, choices, t)
    requires Progress(anchors, capacity, targets, |targets|, found, from)
    ensures forall i :: 0 <= i < |found| ==> Neighbour(anchors, capacity, choices, found[i])
    ensures forall t :: Target(AllTotals(anchors), capacity, choices, t) ==> Covered(anchors, found, t)
    ensures forall i, j :: 0 <= i < j < |found| ==> SortsBefore(AllTotals(anchors), Totals(found[i]), Totals(found[j]))
  {
    forall i | 0 <= i < |found| ensures Neighbour(anchors, capacity, choices, found[i]) {
      assert FoundAt(anchors, capacity, targets, found, from, i);
      assert targets[from[i]] in targets;
    }
    forall t | Target(AllTotals(anchors), capacity, choices, t) ensures Covered(anchors, found, t) {
      assert t in targets;
      var j :| 0 <= j < |targets| && targets[j] == t;
      assert CoveredAt(anchors, found, targets, j);
    }
    forall i, j | 0 <= i < j < |found|
      ensures SortsBefore(AllTotals(anchors), Totals(found[i]), Totals(found[j]))
    {
      assert FoundAt(anchors, capacity, targets, found, from, i) && FoundAt(anchors, capacity, targets, found, from, j);
    }
  }
}
