/**
  GPU allocations (scheduler/simulator/scheduling/types.py) and the rebuilding of
  one from a seed (scheduler/cli/_autoscaling_stability.py).  Hardware types are
  numbered in the order of their names; a row lists (hardware, count) by hardware,
  so that two matrices have the same key exactly when they are equal.
 */
module Allocation {
  import opened Prelude

  type Row = seq<(nat, nat)>

  datatype Matrix = Matrix(pre: Row, attn: Row, ffn: Row)

  // One number per worker type.
  datatype Triple = Triple(pre: int, attn: int, ffn: int)

  function Max0(x: int): nat {
    if x < 0 then 0 else x
  }

  function Min(x: int, y: int): int {
    if x < y then x else y
  }

  function Abs(x: int): nat {
    if x < 0 then -x else x
  }

  function Counts(row: Row): (s: seq<nat>)
    ensures |s| == |row|
  {
    seq(|row|, i requires 0 <= i < |row| => row[i].1)
  }

  // _worker_total
  function Total(row: Row): nat {
    Sum(Counts(row))
  }

  function Totals(m: Matrix): Triple {
    Triple(Total(m.pre), Total(m.attn), Total(m.ffn))
  }

  function TotalGpus(m: Matrix): nat {
    Total(m.pre) + Total(m.attn) + Total(m.ffn)
  }

  function Get(row: Row, hardware: nat): nat {
    if row == [] then 0 else if row[0].0 == hardware then row[0].1 else Get(row[1..], hardware)
  }

  // The count under a hardware that is listed, at its first place, and otherwise 0.
  lemma {:induction false} GetIs(row: Row, hardware: nat, i: nat)
    requires i <= |row| && (i < |row| ==> row[i].0 == hardware)
    requires forall j :: 0 <= j < i ==> row[j].0 != hardware
    ensures Get(row, hardware) == if i < |row| then row[i].1 else 0
  {
    if i > 0 { GetIs(row[1..], hardware, i - 1); }
  }

  lemma {:induction false} SumUpdate(s: seq<nat>, i: nat, x: nat)
    requires i < |s|
    ensures Sum(s[i := x]) == Sum(s) - s[i] + x
  {
    var m := |s| - 1;
    if i == m {
      assert s[i := x][..m] == s[..m];
    } else {
      SumUpdate(s[..m], i, x);
      assert s[i := x][..m] == s[..m][i := x];
    }
  }

  lemma {:induction false} SumZero(s: seq<nat>)
    ensures Sum(s) == 0 <==> forall i :: 0 <= i < |s| ==> s[i] == 0
  {
    if s != [] {
      SumZero(s[..|s| - 1]);
    }
  }

  // ---------------------------------------------------------------- hardware order

  // sorted by (-seed.get(worker, hardware), hardware)
  predicate Before(seed: Row, hardware: seq<nat>, a: nat, b: nat)
    requires a < |hardware| && b < |hardware|
  {
    var x, y := Get(seed, hardware[a]), Get(seed, hardware[b]);
    x > y || (x == y && hardware[a] <= hardware[b])
  }

  ghost predicate InOrder(seed: Row, hardware: seq<nat>, order: seq<nat>) {
    && (forall i :: 0 <= i < |order| ==> order[i] < |hardware|)
    && (forall i, j :: 0 <= i < j < |order| ==> Before(seed, hardware, order[i], order[j]))
  }

  // Every position once.
  ghost predicate Permutes(order: seq<nat>, n: nat) {
    && |order| == n && (forall i :: 0 <= i < n ==> order[i] < n)
    && (forall x :: x in order <==> 0 <= x < n)
    && Distinct(order)
  }

  lemma InsertedInOrder(seed: Row, hardware: seq<nat>, order: seq<nat>, k: nat, x: nat)
    requires x < |hardware| && InOrder(seed, hardware, order) && k <= |order|
    requires forall i :: 0 <= i < k ==> Before(seed, hardware, order[i], x)
    requires forall i :: k <= i < |order| ==> Before(seed, hardware, x, order[i])
    ensures InOrder(seed, hardware, order[..k] + [x] + order[k..])
  {
    InsertedAt(order, k, x);
    var r := order[..k] + [x] + order[k..];
    forall i, j | 0 <= i < j < |r|
      ensures r[i] < |hardware| && r[j] < |hardware| && Before(seed, hardware, r[i], r[j]) {
    }
  }

  method InsertPosition(seed: Row, hardware: seq<nat>, order: seq<nat>, x: nat) returns (r: seq<nat>)
    requires x < |hardware| && InOrder(seed, hardware, order) && x !in order
    requires Distinct(order)
    ensures InOrder(seed, hardware, r) && |r| == |order| + 1 && forall y :: y in r <==> y in order || y == x
    ensures Distinct(r)
  {
    var k := 0;
    while k < |order| && Before(seed, hardware, order[k], x)
      invariant k <= |order| && forall i :: 0 <= i < k ==> Before(seed, hardware, order[i], x)
    {
      k := k + 1;
    }
    forall i | k <= i < |order| ensures Before(seed, hardware, x, order[i]) {
      assert i == k || Before(seed, hardware, order[k], order[i]);
    }
    InsertedInOrder(seed, hardware, order, k, x);
    InsertedAt(order, k, x);
    r := order[..k] + [x] + order[k..];
  }

  method HardwareOrder(seed: Row, hardware: seq<nat>) returns (order: seq<nat>)
    ensures Permutes(order, |hardware|) && InOrder(seed, hardware, order)
  {
    order := [];
    for n := 0 to |hardware|
      invariant Permutes(order, n) && InOrder(seed, hardware, order)
    {
      order := InsertPosition(seed, hardware, order, n);
      forall i | 0 <= i < |order| ensures order[i] <= n { assert order[i] in order; }
    }
  }

  // ---------------------------------------------------------------- rebuilding

  // Hardware is used up in order: what comes later in the order is touched only
  // when everything before it is full.
  ghost predicate Greedy(order: seq<nat>, free: seq<nat>, row: seq<nat>)
    requires Permutes(order, |free|) && |row| == |free|
  {
    forall a, b :: 0 <= a < b < |order| && row[order[b]] > 0 ==> row[order[a]] == free[order[a]]
  }

  // Gives a worker type its target one GPU at a time.
  method FillWorker(free: seq<nat>, order: seq<nat>, target: int) returns (row: seq<nat>)
    requires Permutes(order, |free|)
    ensures |row| == |free| && (forall i :: 0 <= i < |row| ==> row[i] <= free[i])
    ensures Sum(row) == Min(Max0(target), Sum(free)) && Greedy(order, free, row)
  {
    row := seq(|free|, _ => 0);
    SumZero(row);
    var remaining := Max0(target);
    while remaining > 0
      invariant |row| == |free| && Sum(row) + remaining == Max0(target)
      invariant forall i :: 0 <= i < |row| ==> row[i] <= free[i]
      invariant Greedy(order, free, row)
    {
      var k := 0;
      while k < |order| && free[order[k]] - row[order[k]] <= 0
        invariant k <= |order| && forall i :: 0 <= i < k ==> row[order[i]] == free[order[i]]
      {
        k := k + 1;
      }
      if k == |order| {
        AllFull(order, free, row);
        break;
      }
      var h := order[k];
      SumUpdate(row, h, row[h] + 1);
      NotBelow(free, row);
      row := row[h := row[h] + 1];
      remaining := remaining - 1;
    }
    NotBelow(free, row);
  }

  lemma AllFull(order: seq<nat>, free: seq<nat>, row: seq<nat>)
    requires Permutes(order, |free|) && |row| == |free|
    requires forall i :: 0 <= i < |order| ==> row[order[i]] == free[order[i]]
    ensures row == free
  {
    forall i | 0 <= i < |free| ensures row[i] == free[i] { assert i in order; }
  }

  lemma {:induction false} NotBelow(free: seq<nat>, row: seq<nat>)
    requires |row| == |free| && forall i :: 0 <= i < |row| ==> row[i] <= free[i]
    ensures Sum(row) <= Sum(free)
  {
    if row != [] {
      NotBelow(free[..|free| - 1], row[..|row| - 1]);
    }
  }

  lemma {:induction false} SumMinus(free: seq<nat>, row: seq<nat>)
    requires |row| == |free| && forall i :: 0 <= i < |row| ==> row[i] <= free[i]
    ensures Sum(Minus(free, row)) == Sum(free) - Sum(row)
  {
    if row != [] {
      var m := |row| - 1;
      SumMinus(free[..m], row[..m]);
      assert Minus(free, row)[..m] == Minus(free[..m], row[..m]);
    }
  }

  function Minus(free: seq<nat>, row: seq<nat>): (r: seq<nat>)
    requires |row| == |free| && forall i :: 0 <= i < |row| ==> row[i] <= free[i]
    ensures |r| == |free|
  {
    seq(|free|, i requires 0 <= i < |free| => free[i] - row[i])
  }

  function RowFor(capacity: seq<(nat, int)>, counts: seq<nat>): (r: Row)
    requires |counts| == |capacity|
    ensures |r| == |capacity| && Counts(r) == counts
  {
    seq(|counts|, i requires 0 <= i < |counts| => (capacity[i].0, counts[i]))
  }

  function Hardware(capacity: seq<(nat, int)>): (r: seq<nat>)
    ensures |r| == |capacity|
  {
    seq(|capacity|, i requires 0 <= i < |capacity| => capacity[i].0)
  }

  function Room(capacity: seq<(nat, int)>): (r: seq<nat>)
    ensures |r| == |capacity|
  {
    seq(|capacity|, i requires 0 <= i < |capacity| => Max0(capacity[i].1))
  }

  // The matrix lists the capacity's hardware and does not overuse any of it.
  ghost predicate Fits(capacity: seq<(nat, int)>, m: Matrix) {
    && |m.pre| == |m.attn| == |m.ffn| == |capacity|
    && forall i :: 0 <= i < |capacity| ==>
         && m.pre[i].0 == m.attn[i].0 == m.ffn[i].0 == capacity[i].0
         && m.pre[i].1 + m.attn[i].1 + m.ffn[i].1 <= Max0(capacity[i].1)
  }

  // A negative target counts as none.
  function Wanted(targets: Triple): (r: Triple)
    ensures r.pre >= 0 && r.attn >= 0 && r.ffn >= 0
    ensures targets.pre >= 0 && targets.attn >= 0 && targets.ffn >= 0 ==> r == targets
  {
    Triple(Max0(targets.pre), Max0(targets.attn), Max0(targets.ffn))
  }

  // Does the seed prefer hardware a to b: it has more of a, or as much and a comes first.
  ghost predicate Prefers(seed: Row, capacity: seq<(nat, int)>, a: nat, b: nat)
    requires a < |capacity| && b < |capacity|
  {
    var x, y := Get(seed, capacity[a].0), Get(seed, capacity[b].0);
    x > y || (x == y && capacity[a].0 < capacity[b].0)
  }

  // Hardware is taken only when all that the seed prefers to it is used up.
  ghost predicate BySeed(seed: Row, capacity: seq<(nat, int)>, free: seq<nat>, row: seq<nat>)
    requires |free| == |row| == |capacity|
  {
    forall a, b {:trigger row[a], row[b]} :: 0 <= a < |row| && 0 <= b < |row| ==>
      Prefers(seed, capacity, a, b) && row[b] > 0 ==> row[a] == free[a]
  }

  lemma GreedyIsBySeed(seed: Row, capacity: seq<(nat, int)>, order: seq<nat>, free: seq<nat>, row: seq<nat>)
    requires |free| == |row| == |capacity| && Permutes(order, |free|) && InOrder(seed, Hardware(capacity), order)
    requires Greedy(order, free, row)
    ensures BySeed(seed, capacity, free, row)
  {
    forall i, j | 0 <= i < j < |order| ensures !Prefers(seed, capacity, order[j], order[i]) {
      assert Before(seed, Hardware(capacity), order[i], order[j]);
    }
    forall a, b | 0 <= a < |row| && 0 <= b < |row| && Prefers(seed, capacity, a, b) && row[b] > 0
      ensures row[a] == free[a] {
      assert a in order && b in order;
      var i :| 0 <= i < |order| && order[i] == a;
      var j :| 0 <= j < |order| && order[j] == b;
    }
  }

  // One worker type: its row, and what is left.
  method FillRow(
      seed: Row, capacity: seq<(nat, int)>, free: seq<nat>, target: int) returns (row: seq<nat>, rest: seq<nat>)
    requires |free| == |capacity|
    ensures |row| == |rest| == |free| && (forall i :: 0 <= i < |free| ==> row[i] + rest[i] == free[i])
    ensures Sum(row) == Min(Max0(target), Sum(free)) && Sum(rest) == Sum(free) - Sum(row)
    ensures BySeed(seed, capacity, free, row)
  {
    var order := HardwareOrder(seed, Hardware(capacity));
    row := FillWorker(free, order, target);
    GreedyIsBySeed(seed, capacity, order, free, row);
    SumMinus(free, row);
    rest := Minus(free, row);
  }

  // The worker types take what they want in turn, as far as there is room.
  ghost predicate ServedInTurn(want: Triple, room: nat, got: Triple) {
    got.pre == Min(want.pre, room) && got.attn == Min(want.attn, room - got.pre)
      && got.ffn == Min(want.ffn, room - got.pre - got.attn)
  }

  // Each worker type takes from what the ones before it have left, as its seed prefers.
  ghost predicate SeedFirst(seed: Matrix, capacity: seq<(nat, int)>, pre: seq<nat>, attn: seq<nat>, ffn: seq<nat>)
    requires |pre| == |attn| == |ffn| == |capacity|
    requires forall i :: 0 <= i < |capacity| ==> pre[i] + attn[i] + ffn[i] <= Room(capacity)[i]
  {
    && BySeed(seed.pre, capacity, Room(capacity), pre)
    && BySeed(seed.attn, capacity, Minus(Room(capacity), pre), attn)
    && BySeed(seed.ffn, capacity, Minus(Minus(Room(capacity), pre), attn), ffn)
  }

  method FillRows(
      seed: Matrix, capacity: seq<(nat, int)>,
      targets: Triple) returns (pre: seq<nat>, attn: seq<nat>, ffn: seq<nat>)
    ensures |pre| == |attn| == |ffn| == |capacity|
    ensures forall i :: 0 <= i < |capacity| ==> pre[i] + attn[i] + ffn[i] <= Room(capacity)[i]
    ensures ServedInTurn(Wanted(targets), Sum(Room(capacity)), Triple(Sum(pre), Sum(attn), Sum(ffn)))
    ensures SeedFirst(seed, capacity, pre, attn, ffn)
  {
    var free := Room(capacity);
    pre, free := FillRow(seed.pre, capacity, free, targets.pre);
    assert free == Minus(Room(capacity), pre);
    attn, free := FillRow(seed.attn, capacity, free, targets.attn);
    assert free == Minus(Minus(Room(capacity), pre), attn);
    ffn, free := FillRow(seed.ffn, capacity, free, targets.ffn);
  }

  // The matrix is built from the seed.
  ghost predicate BuiltFrom(seed: Matrix, capacity: seq<(nat, int)>, m: Matrix)
    requires Fits(capacity, m)
  {
    SeedFirst(seed, capacity, Counts(m.pre), Counts(m.attn), Counts(m.ffn))
  }

  // Some matrix that fits has these totals.
  ghost predicate Feasible(capacity: seq<(nat, int)>, t: Triple) {
    exists m :: Fits(capacity, m) && Totals(m) == t
  }

  // No hardware is overused, and the targets are met exactly when some matrix meets
  // them, that is when there is room for all of them; otherwise the worker types are
  // served in order.
  method RebuildAllocation(seed: Matrix, capacity: seq<(nat, int)>, targets: Triple) returns (m: Matrix)
    ensures Fits(capacity, m) && ServedInTurn(Wanted(targets), Sum(Room(capacity)), Totals(m))
    ensures Totals(m) == Wanted(targets) <==> Feasible(capacity, Wanted(targets))
    ensures Totals(m) == Wanted(targets) <==>
      Wanted(targets).pre + Wanted(targets).attn + Wanted(targets).ffn <= Sum(Room(capacity))
    ensures BuiltFrom(seed, capacity, m)
  {
    m := Build(seed, capacity, targets);
    EnoughForAll(Wanted(targets), Sum(Room(capacity)), Totals(m));
    if Feasible(capacity, Wanted(targets)) { FeasibleFits(capacity, Wanted(targets)); }
  }

  method Build(seed: Matrix, capacity: seq<(nat, int)>, targets: Triple) returns (m: Matrix)
    ensures Fits(capacity, m) && ServedInTurn(Wanted(targets), Sum(Room(capacity)), Totals(m))
    ensures BuiltFrom(seed, capacity, m)
  {
    var pre, attn, ffn := FillRows(seed, capacity, targets);
    RowsFit(capacity, pre, attn, ffn);
    m := Matrix(RowFor(capacity, pre), RowFor(capacity, attn), RowFor(capacity, ffn));
  }

  // What some matrix uses there is room for.
  lemma FeasibleFits(capacity: seq<(nat, int)>, t: Triple)
    requires Feasible(capacity, t)
    ensures t.pre + t.attn + t.ffn <= Sum(Room(capacity))
  {
    var m :| Fits(capacity, m) && Totals(m) == t;
    SumOfThree(Counts(m.pre), Counts(m.attn), Counts(m.ffn), Room(capacity));
  }

  lemma {:induction false} SumOfThree(a: seq<nat>, b: seq<nat>, c: seq<nat>, room: seq<nat>)
    requires |a| == |b| == |c| == |room| && forall i :: 0 <= i < |a| ==> a[i] + b[i] + c[i] <= room[i]
    ensures Sum(a) + Sum(b) + Sum(c) <= Sum(room)
  {
    if a != [] {
      var n := |a| - 1;
      SumOfThree(a[..n], b[..n], c[..n], room[..n]);
    }
  }

  lemma RowsFit(capacity: seq<(nat, int)>, pre: seq<nat>, attn: seq<nat>, ffn: seq<nat>)
    requires |pre| == |attn| == |ffn| == |capacity|
    requires forall i :: 0 <= i < |capacity| ==> pre[i] + attn[i] + ffn[i] <= Room(capacity)[i]
    ensures var m := Matrix(RowFor(capacity, pre), RowFor(capacity, attn), RowFor(capacity, ffn));
      Fits(capacity, m) && Totals(m) == Triple(Sum(pre), Sum(attn), Sum(ffn))
  {
  }

  // Everybody gets what is wanted exactly when there is enough.
  lemma EnoughForAll(want: Triple, room: nat, got: Triple)
    requires want.pre >= 0 && want.attn >= 0 && want.ffn >= 0 && ServedInTurn(want, room, got)
    ensures got == want <==> want.pre + want.attn + want.ffn <= room
  {
  }
}
