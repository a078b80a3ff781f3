/**
  The bounded search for a stable safe plan (scheduler/cli/_autoscaling_stability.py).
  The scheduling framework is taken as two functions: the plan it evaluates for an
  allocation, and the allocation it would scale a plan to.  Throughputs and costs
  are reals, and the clock is a list of answers to "is it past the timeout?".
 */
module Stability {
  import opened Prelude
  import opened Allocation
  import opened LocalSearch

  datatype Plan = Plan(
    allocation: Matrix, parallelism: nat, bottleneck: real, costPerHour: real, reconfigurationCost: real)

  datatype Selection = StableFixedPoint | QuantizationHold | CapacityLimited | BacklogHold

  // ---------------------------------------------------------------- choosing by key

  // Python's order on tuples of the same length.
  predicate Less(a: seq<real>, b: seq<real>)
    requires |a| == |b|
  {
    a != [] && (a[0] < b[0] || (a[0] == b[0] && Less(a[1..], b[1..])))
  }

  lemma {:induction false} NotLessTransitive(a: seq<real>, b: seq<real>, c: seq<real>)
    requires |a| == |b| == |c| && !Less(b, a) && !Less(c, b)
    ensures !Less(c, a)
  {
    if a != [] && a[0] == b[0] == c[0] {
      NotLessTransitive(a[1..], b[1..], c[1..]);
    }
  }

  lemma {:induction false} LessAsymmetric(a: seq<real>, b: seq<real>)
    requires |a| == |b| && Less(a, b)
    ensures !Less(b, a)
  {
    if a[0] == b[0] {
      LessAsymmetric(a[1..], b[1..]);
    }
  }

  lemma {:induction false} NotLessSelf(a: seq<real>)
    ensures !Less(a, a)
  {
    if a != [] {
      NotLessSelf(a[1..]);
    }
  }

  // No plan comes before p.
  ghost predicate Least(plans: seq<Plan>, key: Plan -> seq<real>, n: nat, p: Plan)
    requires forall x :: |key(x)| == n
  {
    forall i :: 0 <= i < |plans| ==> !Less(key(plans[i]), key(p))
  }

  // min(plans, key=key)
  method Minimum(plans: seq<Plan>, key: Plan -> seq<real>, n: nat) returns (p: Plan)
    requires plans != [] && forall x :: |key(x)| == n
    ensures p in plans && Least(plans, key, n, p)
  {
    p := plans[0];
    NotLessSelf(key(p));
    for i := 1 to |plans|
      invariant p in plans && Least(plans[..i], key, n, p)
    {
      var q := plans[i];
      if Less(key(q), key(p)) {
        LessAsymmetric(key(q), key(p));
        forall j | 0 <= j < i ensures !Less(key(plans[j]), key(q)) {
          assert plans[j] == plans[..i][j];
          NotLessTransitive(key(q), key(p), key(plans[j]));
        }
        NotLessSelf(key(q));
        p := q;
      }
    }
    assert plans[..|plans|] == plans;
  }

  function Filter(plans: seq<Plan>, keep: Plan -> bool): (r: seq<Plan>)
    ensures forall p :: p in r <==> p in plans && keep(p)
  {
    if plans == [] then []
    else
      assert plans == [plans[0]] + plans[1..];
      (if keep(plans[0]) then [plans[0]] else []) + Filter(plans[1..], keep)
  }

  // ---------------------------------------------------------------- rank

  function RowDistance(a: Row, b: Row): nat {
    Changed(a, b) + Missing(b, a)
  }

  // The hardware of a.
  function Changed(a: Row, b: Row): nat {
    if a == [] then 0 else Abs(a[0].1 - Get(b, a[0].0)) + Changed(a[1..], b)
  }

  // The hardware of b that a does not have.
  function Missing(b: Row, a: Row): nat {
    if b == [] then 0
    else (if Lists(a, b[0].0) then 0 else b[0].1) + Missing(b[1..], a)
  }

  function AllocationDistance(a: Matrix, b: Matrix): nat {
    RowDistance(a.pre, b.pre) + RowDistance(a.attn, b.attn) + RowDistance(a.ffn, b.ffn)
  }

  function Rank(costAware: bool, current: Plan, p: Plan): (r: seq<real>)
    ensures |r| == 5
  {
    var gpus := TotalGpus(p.allocation) as real;
    (if costAware then [p.costPerHour, gpus] else [gpus, p.costPerHour])
    + SetupRank(current, p)
  }

  // One plan before another, by fields: cheaper, then smaller (or the other way round
  // when cost does not come first), then quicker to set up, nearer and faster.
  predicate Better(costAware: bool, current: Plan, q: Plan, p: Plan) {
    var gq, gp := TotalGpus(q.allocation), TotalGpus(p.allocation);
    if q.costPerHour == p.costPerHour && gq == gp then BetterSetup(current, q, p)
    else if costAware then q.costPerHour < p.costPerHour || (q.costPerHour == p.costPerHour && gq < gp)
    else gq < gp || (gq == gp && q.costPerHour < p.costPerHour)
  }

  predicate BetterSetup(current: Plan, q: Plan, p: Plan) {
    var dq := AllocationDistance(q.allocation, current.allocation);
    var dp := AllocationDistance(p.allocation, current.allocation);
    || q.reconfigurationCost < p.reconfigurationCost
    || (q.reconfigurationCost == p.reconfigurationCost && (dq < dp || (dq == dp && q.bottleneck > p.bottleneck)))
  }

  lemma LessFirst(a: seq<real>, b: seq<real>, x: real, y: real)
    requires |a| == |b|
    ensures Less([x] + a, [y] + b) <==> x < y || (x == y && Less(a, b))
  {
    assert ([x] + a)[1..] == a && ([y] + b)[1..] == b;
  }

  // The order of the ranks is that order.
  lemma RankMeans(costAware: bool, current: Plan, q: Plan, p: Plan)
    ensures Less(Rank(costAware, current, q), Rank(costAware, current, p)) <==> Better(costAware, current, q, p)
  {
    var a, b := Rank(costAware, current, q), Rank(costAware, current, p);
    assert a == [a[0]] + ([a[1]] + a[2..]) && b == [b[0]] + ([b[1]] + b[2..]);
    LessFirst([a[1]] + a[2..], [b[1]] + b[2..], a[0], b[0]);
    LessFirst(a[2..], b[2..], a[1], b[1]);
    SetupMeans(current, q, p);
    assert a[2..] == SetupRank(current, q) && b[2..] == SetupRank(current, p);
  }

  function SetupRank(current: Plan, p: Plan): (r: seq<real>)
    ensures |r| == 3
  {
    [p.reconfigurationCost, AllocationDistance(p.allocation, current.allocation) as real, 0.0 - p.bottleneck]
  }

  lemma SetupMeans(current: Plan, q: Plan, p: Plan)
    ensures Less(SetupRank(current, q), SetupRank(current, p)) <==> BetterSetup(current, q, p)
  {
    var a, b := SetupRank(current, q), SetupRank(current, p);
    assert a == [a[0]] + ([a[1]] + ([a[2]] + [])) && b == [b[0]] + ([b[1]] + ([b[2]] + []));
    LessFirst([a[1]] + ([a[2]] + []), [b[1]] + ([b[2]] + []), a[0], b[0]);
    LessFirst([a[2]] + [], [b[2]] + [], a[1], b[1]);
    LessFirst([], [], a[2], b[2]);
  }

  // More throughput, then fewer GPUs, then cheaper.
  predicate Faster(q: Plan, p: Plan) {
    var gq, gp := TotalGpus(q.allocation), TotalGpus(p.allocation);
    || q.bottleneck > p.bottleneck
    || (q.bottleneck == p.bottleneck && (gq < gp || (gq == gp && q.costPerHour < p.costPerHour)))
  }

  lemma ThroughputMeans(q: Plan, p: Plan)
    ensures Less(ThroughputKey(q), ThroughputKey(p)) <==> Faster(q, p)
  {
    var a, b := ThroughputKey(q), ThroughputKey(p);
    assert a == [a[0]] + ([a[1]] + ([a[2]] + [])) && b == [b[0]] + ([b[1]] + ([b[2]] + []));
    LessFirst([a[1]] + ([a[2]] + []), [b[1]] + ([b[2]] + []), a[0], b[0]);
    LessFirst([a[2]] + [], [b[2]] + [], a[1], b[1]);
    LessFirst([], [], a[2], b[2]);
  }

  // Two rows are at distance 0 exactly when they have the same number of GPUs of each
  // hardware.
  lemma RowDistanceZero(a: Row, b: Row)
    requires Distinct(HardwareOf(a)) && Distinct(HardwareOf(b))
    ensures RowDistance(a, b) == 0 <==> SameCounts(a, b)
  {
    ChangedZero(a, b);
    MissingZero(b, a);
    if RowDistance(a, b) == 0 {
      forall h ensures Get(a, h) == Get(b, h) { SameCount(a, b, h); }
    } else if SameCounts(a, b) {
      SameRows(a, b);
    }
  }

  // Two allocations are at distance 0 exactly when every worker type has the same number
  // of GPUs of each hardware.
  lemma DistanceZero(a: Matrix, b: Matrix)
    requires Distinct(HardwareOf(a.pre)) && Distinct(HardwareOf(a.attn)) && Distinct(HardwareOf(a.ffn))
    requires Distinct(HardwareOf(b.pre)) && Distinct(HardwareOf(b.attn)) && Distinct(HardwareOf(b.ffn))
    ensures AllocationDistance(a, b) == 0 <==>
      SameCounts(a.pre, b.pre) && SameCounts(a.attn, b.attn) && SameCounts(a.ffn, b.ffn)
  {
    RowDistanceZero(a.pre, b.pre);
    RowDistanceZero(a.attn, b.attn);
    RowDistanceZero(a.ffn, b.ffn);
  }

  ghost predicate SameCounts(a: Row, b: Row) {
    forall h: nat :: Get(a, h) == Get(b, h)
  }

  lemma SameRows(a: Row, b: Row)
    requires Distinct(HardwareOf(a)) && Distinct(HardwareOf(b)) && SameCounts(a, b)
    ensures RowDistance(a, b) == 0
  {
    ChangedZero(a, b);
    MissingZero(b, a);
    forall i | 0 <= i < |a| ensures a[i].1 == Get(b, a[i].0) { GetListed(a, i); }
    forall i | 0 <= i < |b| && !Lists(a, b[i].0) ensures b[i].1 == 0 {
      NotListed(a, b[i].0);
      GetListed(b, i);
    }
  }

  lemma NotListed(row: Row, h: nat)
    requires !Lists(row, h)
    ensures Get(row, h) == 0
  {
    GetIs(row, h, |row|);
  }

  function HardwareOf(row: Row): (r: seq<nat>)
    ensures |r| == |row|
  {
    seq(|row|, i requires 0 <= i < |row| => row[i].0)
  }

  predicate Lists(row: Row, h: nat) {
    exists i :: 0 <= i < |row| && row[i].0 == h
  }

  lemma GetListed(row: Row, i: nat)
    requires Distinct(HardwareOf(row)) && i < |row|
    ensures Get(row, row[i].0) == row[i].1
  {
    forall j | 0 <= j < i ensures row[j].0 != row[i].0 { assert HardwareOf(row)[j] != HardwareOf(row)[i]; }
    GetIs(row, row[i].0, i);
  }

  lemma SameCount(a: Row, b: Row, h: nat)
    requires Distinct(HardwareOf(a)) && Distinct(HardwareOf(b))
    requires forall i :: 0 <= i < |a| ==> a[i].1 == Get(b, a[i].0)
    requires forall i :: 0 <= i < |b| && !Lists(a, b[i].0) ==> b[i].1 == 0
    ensures Get(a, h) == Get(b, h)
  {
    if Lists(a, h) {
      var i :| 0 <= i < |a| && a[i].0 == h;
      GetListed(a, i);
    } else {
      NotListed(a, h);
      if Lists(b, h) {
        var i :| 0 <= i < |b| && b[i].0 == h;
        GetListed(b, i);
      } else {
        NotListed(b, h);
      }
    }
  }

  lemma {:induction false} ChangedZero(a: Row, b: Row)
    ensures Changed(a, b) == 0 <==> forall i :: 0 <= i < |a| ==> a[i].1 == Get(b, a[i].0)
  {
    if a != [] {
      ChangedZero(a[1..], b);
      assert forall i :: 0 < i < |a| ==> a[i] == a[1..][i - 1];
      assert forall i :: 0 <= i < |a| - 1 ==> a[1..][i] == a[i + 1];
    }
  }

  lemma {:induction false} MissingZero(b: Row, a: Row)
    ensures Missing(b, a) == 0 <==> forall i :: 0 <= i < |b| && !Lists(a, b[i].0) ==> b[i].1 == 0
  {
    if b != [] {
      MissingZero(b[1..], a);
      assert forall i :: 0 < i < |b| ==> b[i] == b[1..][i - 1];
      assert forall i :: 0 <= i < |b| - 1 ==> b[1..][i] == b[i + 1];
    }
  }

  // The key of the capacity-limited choice, negated: max becomes min.
  function ThroughputKey(p: Plan): (r: seq<real>)
    ensures |r| == 3
  {
    [0.0 - p.bottleneck, TotalGpus(p.allocation) as real, p.costPerHour]
  }

  // ---------------------------------------------------------------- the plans evaluated so far

  // A dictionary by allocation, in insertion order.
  ghost predicate Keyed(plans: seq<Plan>) {
    forall i, j :: 0 <= i < j < |plans| ==> plans[i].allocation != plans[j].allocation
  }

  function Find(plans: seq<Plan>, a: Matrix): (r: Option<nat>)
    ensures r.Some? ==> r.value < |plans| && plans[r.value].allocation == a
    ensures r.None? ==> forall i :: 0 <= i < |plans| ==> plans[i].allocation != a
  {
    if plans == [] then None
    else if plans[|plans| - 1].allocation == a then Some(|plans| - 1)
    else Find(plans[..|plans| - 1], a)
  }

  ghost predicate Has(plans: seq<Plan>, a: Matrix) {
    exists p :: p in plans && p.allocation == a
  }

  function Allocations(plans: seq<Plan>): (r: seq<Matrix>)
    ensures |r| == |plans|
  {
    seq(|plans|, i requires 0 <= i < |plans| => plans[i].allocation)
  }

  lemma HasMore(before: seq<Plan>, after: seq<Plan>, found: seq<Matrix>)
    requires before <= after && forall j :: 0 <= j < |found| ==> Has(before, found[j])
    ensures forall j :: 0 <= j < |found| ==> Has(after, found[j])
  {
    forall j | 0 <= j < |found| ensures Has(after, found[j]) {
      assert Has(before, found[j]);
      var p :| p in before && p.allocation == found[j];
      assert p in after;
    }
  }

  lemma AllCovered(anchors: seq<Matrix>, found: seq<Matrix>, plans: seq<Plan>)
    requires forall j :: 0 <= j < |found| ==> Has(plans, found[j])
    ensures forall t :: Covered(anchors, found, t) ==> Covered(anchors, Allocations(plans), t)
  {
    forall t | Covered(anchors, found, t) ensures Covered(anchors, Allocations(plans), t) {
      var m :| (m in anchors || m in found) && Totals(m) == t;
      if m in found {
        var j :| 0 <= j < |found| && found[j] == m;
        HasIsIn(plans, m);
      }
    }
  }

  lemma HasIsIn(plans: seq<Plan>, a: Matrix)
    requires Has(plans, a)
    ensures a in Allocations(plans)
  {
    var p :| p in plans && p.allocation == a;
    var i :| 0 <= i < |plans| && plans[i] == p;
    assert Allocations(plans)[i] == a;
  }

  predicate SafeFor(required: real, p: Plan) {
    p.bottleneck + 0.000000001 >= required
  }

  // Some allowed plan is safe.
  ghost predicate SomeSafe(v: StabilityValidator, plans: seq<Plan>) {
    exists p :: p in plans && v.Allowed(p) && v.Safe(p)
  }

  class StabilityValidator {
    const evaluate: Matrix -> Plan
    const scale: Plan -> Matrix
    const current: Plan
    const capacity: seq<(nat, int)>
    const choices: set<int>
    const maxRounds: int
    const maxCandidates: nat
    const allowScaleIn: bool
    const costAware: bool
    const required: real
    const late: nat -> bool
    var evaluated: seq<Plan>
    var newEvaluations: nat
    var timedOut: bool
    var clock: nat
    // evaluated before the search: the current plan and the proposal
    ghost var given: seq<Plan>
    // when each new evaluation began
    ghost var begun: seq<nat>

    constructor (
        evaluate: Matrix -> Plan, scale: Plan -> Matrix, current: Plan, capacity: seq<(nat, int)>,
        choices: set<int>, maxRounds: int, maxCandidates: int, allowScaleIn: bool, costAware: bool,
        required: real, late: nat -> bool)
      requires forall m :: evaluate(m).allocation == m
      ensures Valid() && evaluated == given == [current] && newEvaluations == 0
      ensures this.evaluate == evaluate && this.scale == scale && this.current == current && this.capacity == capacity
      ensures this.maxCandidates == Max0(maxCandidates) && this.allowScaleIn == allowScaleIn
      ensures this.required == required && this.choices == choices && this.costAware == costAware
      ensures this.maxRounds == maxRounds && this.late == late
    {
      this.evaluate, this.scale, this.current, this.capacity, this.choices := evaluate, scale, current, capacity,
        choices;
      this.maxRounds, this.maxCandidates, this.allowScaleIn := maxRounds, Max0(maxCandidates), allowScaleIn;
      this.costAware, this.required, this.late := costAware, required, late;
      evaluated, newEvaluations, timedOut, clock, given, begun := [current], 0, false, 0, [current], [];
      new;
      assert given[0].allocation == this.current.allocation;
    }

    predicate Allowed(p: Plan) {
      allowScaleIn ||
      (Total(p.allocation.pre) >= Total(current.allocation.pre)
        && Total(p.allocation.attn) >= Total(current.allocation.attn)
       && Total(p.allocation.ffn) >= Total(current.allocation.ffn))
    }

    predicate Safe(p: Plan) {
      SafeFor(required, p)
    }

    predicate Stable(p: Plan) {
      scale(p) == p.allocation
    }

    // No evaluation begins past the timeout, which is noticed at every look at the clock.
    ghost predicate OnTime()
      reads this
    {
      && |begun| == newEvaluations && (timedOut <==> exists k :: 0 < k <= clock && late(k))
      && forall i :: 0 <= i < |begun| ==> 0 < begun[i] <= clock && !late(begun[i])
    }

    // The plans are those given and the results of at most maxCandidates evaluations.
    ghost predicate Valid()
      reads this
    {
      && (forall m :: evaluate(m).allocation == m)
      && Keyed(evaluated) && newEvaluations <= maxCandidates && OnTime()
      && |given| <= |evaluated| == |given| + newEvaluations && evaluated[..|given|] == given
      && (forall i :: |given| <= i < |evaluated| ==> evaluated[i] == evaluate(evaluated[i].allocation))
      && (exists i :: 0 <= i < |given| && given[i].allocation == current.allocation)
    }

    predicate Exhausted()
      reads this
    {
      newEvaluations >= maxCandidates || timedOut
    }

    method WithinBudget() returns (within: bool)
      requires OnTime()
      modifies this`clock, this`timedOut
      ensures OnTime() && (old(timedOut) ==> timedOut)
      ensures if within then newEvaluations < maxCandidates && 0 < clock && !late(clock) else Exhausted()
    {
      if newEvaluations >= maxCandidates { return false; }
      clock := clock + 1;
      if late(clock) {
        timedOut := true;
        return false;
      }
      return true;
    }

    // A plan for the allocation, unless the budget is exhausted.
    method Evaluate(a: Matrix) returns (r: Option<Plan>)
      requires Valid()
      modifies this
      ensures Valid() && given == old(given) && old(evaluated) <= evaluated
      ensures r.Some? ==> r.value in evaluated && r.value.allocation == a
      ensures r.None? ==> evaluated == old(evaluated) && Exhausted()
      ensures old(Exhausted()) ==> Exhausted()
    {
      var k := Find(evaluated, a);
      if k.Some? { return Some(evaluated[k.value]); }
      var within := WithinBudget();
      if !within { return None; }
      var plan := EvaluateNew(a);
      return Some(plan);
    }

    method EvaluateNew(a: Matrix) returns (plan: Plan)
      requires Valid() && (forall i :: 0 <= i < |evaluated| ==> evaluated[i].allocation != a)
      requires newEvaluations < maxCandidates && 0 < clock && !late(clock)
      modifies this
      ensures Valid() && given == old(given) && evaluated == old(evaluated) + [plan] && plan.allocation == a
      ensures old(Exhausted()) ==> Exhausted()
    {
      begun := begun + [clock];
      plan := evaluate(a);
      evaluated := evaluated + [plan];
      newEvaluations := newEvaluations + 1;
      clock := clock + 1;
      if late(clock) { timedOut := true; }
    }

    // self.evaluated[proposed_key] = proposed_plan
    method AddProposal(proposed: Plan)
      requires Valid() && evaluated == given == [current] && newEvaluations == 0
      modifies this
      ensures Valid() && newEvaluations == 0 && evaluated == given
      ensures given == if proposed.allocation == current.allocation then [proposed] else [current, proposed]
    {
      evaluated := if proposed.allocation == current.allocation then [proposed] else [current, proposed];
      given := evaluated;
      assert given[0].allocation == current.allocation;
    }

    function Rounds(): nat {
      if maxRounds < 1 then 1 else maxRounds
    }

    // The proposal, and the plans it led to: each is for what the one before scales to.
    ghost predicate IsPath(plans: seq<Plan>, proposed: Plan, path: seq<Plan>) {
      && 0 < |path| <= Rounds() + 1 && path[0] == proposed
      && (forall i :: 0 <= i < |path| ==> path[i] in plans)
      && forall i :: 0 <= i < |path| - 1 ==> !Stable(path[i]) && path[i + 1].allocation == scale(path[i])
    }

    // What the first k plans of the path scale to.
    ghost function Moves(path: seq<Plan>, k: nat): seq<Matrix>
      requires k <= |path|
    {
      seq(k, i requires 0 <= i < k => scale(path[i]))
    }

    // The anchors: the current allocation, the proposal, and what it led to.
    ghost predicate Followed(
        plans: seq<Plan>, proposed: Plan, anchors: seq<Matrix>, fixed: Option<Plan>, path: seq<Plan>) {
      && IsPath(plans, proposed, path) && |path| + 1 <= |anchors| <= |path| + 2
      && anchors == [current.allocation, proposed.allocation] + Moves(path, |anchors| - 2)
      && (fixed.Some? ==>
            fixed.value == path[|path| - 1] && Stable(fixed.value) && |anchors| == |path| + 1)
    }

    // Without a fixed point the rounds are over, the path repeats, or the budget ends.
    ghost predicate Ended(anchors: seq<Matrix>, fixed: Option<Plan>, path: seq<Plan>)
      requires path != []
      reads this
    {
      fixed.None? ==>
        || |path| == Rounds() + 1
        || (var last := path[|path| - 1];
            && |anchors| == |path| + 2 && !Stable(last)
            && (scale(last) in Allocations(path) || Exhausted()))
    }

    lemma AddMove(plans: seq<Plan>, proposed: Plan, anchors: seq<Matrix>, path: seq<Plan>)
      requires Followed(plans, proposed, anchors, None, path) && |anchors| == |path| + 1
      ensures Followed(plans, proposed, anchors + [scale(path[|path| - 1])], None, path)
    {
      var n := |path|;
      assert Moves(path, n) == Moves(path, n - 1) + [scale(path[n - 1])];
    }

    lemma AddPlan(plans: seq<Plan>, proposed: Plan, anchors: seq<Matrix>, path: seq<Plan>, next: Plan)
      requires Followed(plans, proposed, anchors, None, path) && |anchors| == |path| + 2 && |path| <= Rounds()
      requires !Stable(path[|path| - 1]) && next in plans && next.allocation == scale(path[|path| - 1])
      ensures Followed(plans, proposed, anchors, None, path + [next])
      ensures Elements(Allocations(path + [next])) == Elements(Allocations(path)) + {next.allocation}
    {
      var path' := path + [next];
      assert Moves(path', |path|) == Moves(path, |path|);
      assert Allocations(path') == Allocations(path) + [next.allocation];
    }

    lemma PathStays(plans: seq<Plan>, plans': seq<Plan>, proposed: Plan, path: seq<Plan>)
      requires IsPath(plans, proposed, path) && plans <= plans'
      ensures IsPath(plans', proposed, path)
    {
    }

    // Every target size between the anchors has been evaluated or is an anchor's.
    ghost predicate Explored(anchors: seq<Matrix>)
      reads this
      requires anchors != []
    {
      forall t :: Target(AllTotals(anchors), capacity, choices, t) ==> Covered(anchors, Allocations(evaluated), t)
    }

    // No safe plan of the kind selected ranks before p.
    ghost predicate BestRank(p: Plan, selection: Selection)
      reads this
    {
      forall q :: q in evaluated && Allowed(q) && Safe(q) && (Stable(q) || selection == QuantizationHold) ==>
        !Better(costAware, current, q, p)
    }

    // Follows the proposal until it repeats, stops moving or the budget ends; a
    // plan that scales to its own allocation is a fixed point.
    method FollowProposal(proposed: Plan)
      returns (anchors: seq<Matrix>, moved: bool, fixed: Option<Plan>, ghost path: seq<Plan>)
      requires Valid() && proposed in evaluated
      modifies this
      ensures Valid() && given == old(given) && old(evaluated) <= evaluated
      ensures Followed(evaluated, proposed, anchors, fixed, path) && Ended(anchors, fixed, path)
      ensures Stable(proposed) <==> !moved
      ensures !moved ==> fixed == Some(proposed) && evaluated == old(evaluated)
    {
      anchors := [current.allocation, proposed.allocation];
      moved, fixed := false, None;
      var plan := proposed;
      var seen := {proposed.allocation};
      path := [proposed];
      assert Allocations(path) == [proposed.allocation];
      for i := 0 to Rounds()
        invariant Valid() && given == old(given) && old(evaluated) <= evaluated && fixed == None
        invariant |path| == i + 1 && plan == path[i] && |anchors| == i + 2
        invariant Followed(evaluated, proposed, anchors, fixed, path) && seen == Elements(Allocations(path))
        invariant if i == 0 then !moved && evaluated == old(evaluated) else moved && !Stable(proposed)
      {
        var follow := scale(plan);
        if follow == plan.allocation {
          fixed := Some(plan);
          break;
        }
        moved := true;
        AddMove(evaluated, proposed, anchors, path);
        anchors := anchors + [follow];
        if follow in seen { break; }
        seen := seen + {follow};
        ghost var before := evaluated;
        var next := Evaluate(follow);
        PathStays(before, evaluated, proposed, path);
        if next.None? { break; }
        plan := next.value;
        AddPlan(evaluated, proposed, anchors, path, plan);
        path := path + [plan];
      }
    }

    // The neighbours, as far as the budget goes: when it is not exhausted, every
    // target size between the anchors has been evaluated or is an anchor's.
    method TryNeighbours(anchors: seq<Matrix>)
      requires Valid() && anchors != []
      modifies this
      ensures Valid() && given == old(given) && old(evaluated) <= evaluated
      ensures Exhausted() || Explored(anchors)
      ensures old(Exhausted()) ==> Exhausted()
    {
      var found := LocalAllocations(anchors, capacity, choices);
      EvaluateAll(found);
      if !Exhausted() { AllCovered(anchors, found, evaluated); }
    }

    method EvaluateAll(found: seq<Matrix>)
      requires Valid()
      modifies this
      ensures Valid() && given == old(given) && old(evaluated) <= evaluated
      ensures Exhausted() || forall j :: 0 <= j < |found| ==> Has(evaluated, found[j])
      ensures old(Exhausted()) ==> Exhausted()
    {
      for i := 0 to |found|
        invariant Valid() && given == old(given) && old(evaluated) <= evaluated
        invariant old(Exhausted()) ==> Exhausted()
        invariant forall j :: 0 <= j < i ==> Has(evaluated, found[j])
      {
        ghost var before := evaluated;
        if Find(evaluated, found[i]).None? {
          var r := Evaluate(found[i]);
          if r.None? { return; }
        }
        HasMore(before, evaluated, found[..i]);
      }
    }

    // What a choice among the plans must be.
    ghost predicate Chosen(plans: seq<Plan>, p: Plan, selection: Selection) {
      && p in plans && Allowed(p)
      && (SomeSafe(this, plans) <==> Safe(p))
      && (!Safe(p) ==> forall q :: q in plans && Allowed(q) ==> !Faster(q, p))
      && (selection == StableFixedPoint ==> Safe(p) && Stable(p))
      && (selection == QuantizationHold ==> Safe(p) && forall q :: q in plans && Allowed(q) && Safe(q) ==> !Stable(q))
      && (selection == CapacityLimited ==> !Safe(p))
    }

    method SelectFallback() returns (p: Plan, selection: Selection)
      requires Valid()
      ensures Chosen(evaluated, p, selection) && selection != BacklogHold
      ensures Safe(p) ==> BestRank(p, selection)
    {
      var allowed := Filter(evaluated, Allowed);
      CurrentAllowed();
      var safe := Filter(allowed, Safe);
      var stableSafe := Filter(safe, Stable);
      var rank := x => Rank(costAware, current, x);
      if stableSafe != [] {
        p := Minimum(stableSafe, rank, 5);
        selection := StableFixedPoint;
        LeastOf(stableSafe, rank, 5, p);
        forall q | q in stableSafe ensures !Better(costAware, current, q, p) { RankMeans(costAware, current, q, p); }
      } else if safe != [] {
        p := Minimum(safe, rank, 5);
        selection := QuantizationHold;
        LeastOf(safe, rank, 5, p);
        forall q | q in safe ensures !Better(costAware, current, q, p) { RankMeans(costAware, current, q, p); }
        assert forall q :: q in evaluated && Allowed(q) && Safe(q) && Stable(q) ==> q in stableSafe;
      } else {
        p := Minimum(allowed, ThroughputKey, 3);
        selection := CapacityLimited;
        assert forall q :: q in evaluated && Allowed(q) && Safe(q) ==> q in safe;
        MostThroughput(allowed, p);
      }
    }

    // The current allocation is always among the allowed ones.
    lemma CurrentAllowed()
      requires Valid()
      ensures exists p :: p in evaluated && Allowed(p)
    {
      var i :| 0 <= i < |given| && given[i].allocation == current.allocation;
      assert evaluated[..|given|][i] == evaluated[i];
      assert Allowed(evaluated[i]);
    }

    // The fixed point if it is safe and allowed, else the best plan found near the anchors.
    method Select(anchors: seq<Matrix>, triggered: bool, fixed: Option<Plan>)
      returns (p: Plan, selection: Selection)
      requires Valid() && anchors != [] && (fixed.Some? ==> fixed.value in evaluated && Stable(fixed.value))
      requires !triggered ==> fixed.Some? && Safe(fixed.value) && Allowed(fixed.value)
      modifies this
      ensures Valid() && given == old(given) && old(evaluated) <= evaluated && (old(Exhausted()) ==> Exhausted())
      ensures Chosen(evaluated, p, selection) && selection != BacklogHold
      ensures if fixed.Some? && Safe(fixed.value) && Allowed(fixed.value) then
          evaluated == old(evaluated) && newEvaluations == old(newEvaluations)
            && fixed == Some(p) && selection == StableFixedPoint
        else (Exhausted() || Explored(anchors)) && (Safe(p) ==> BestRank(p, selection))
    {
      if fixed.Some? && Safe(fixed.value) && Allowed(fixed.value) {
        p, selection := fixed.value, StableFixedPoint;
      } else {
        if triggered { TryNeighbours(anchors); }
        p, selection := SelectFallback();
      }
    }

    // The choice is safe or no slower than what the current allocation was given.
    lemma NotSlower(plans: seq<Plan>, first: Plan, proposed: Plan, p: Plan, selection: Selection)
      requires Chosen(plans, p, selection) && first in plans && first.allocation == current.allocation
      requires first == if proposed.allocation == current.allocation then proposed else current
      ensures
        (proposed.allocation != current.allocation || current.bottleneck <= proposed.bottleneck || Safe(proposed)) ==>
          Safe(p) || current.bottleneck <= p.bottleneck
    {
      assert Allowed(first);
      assert Safe(first) ==> SomeSafe(this, plans);
      assert !Safe(p) ==> !Faster(first, p);
    }

    // The search.  Unless the proposal led to a safe fixed point, the neighbours of the
    // anchors have been explored and the best plan of its kind is chosen.
    method Run(proposed: Plan)
      returns (selected: Plan, selection: Selection, triggered: bool, ghost searched: bool, ghost kind: Selection,
               ghost anchors: seq<Matrix>, ghost fixed: Option<Plan>, ghost path: seq<Plan>)
      requires Valid() && evaluated == given == [current] && newEvaluations == 0
      modifies this
      ensures Valid() && given == if proposed.allocation == current.allocation then [proposed] else [current, proposed]
      ensures Chosen(evaluated, selected, selection) && Chosen(evaluated, selected, kind)
      ensures selection == if !Allowed(proposed) && selected.allocation == current.allocation then BacklogHold else kind
      ensures Followed(evaluated, proposed, anchors, fixed, path) && Ended(anchors, fixed, path)
      ensures searched <==> !(fixed.Some? && Safe(fixed.value) && Allowed(fixed.value))
      ensures if searched then Exhausted() || Explored(anchors) else fixed == Some(selected) && kind == StableFixedPoint
      ensures searched && Safe(selected) ==> BestRank(selected, kind)
      ensures Allowed(proposed) && Safe(proposed) && Stable(proposed) ==>
        selected == proposed && selection == StableFixedPoint && !triggered && newEvaluations == 0
      ensures triggered <==> !(Allowed(proposed) && Safe(proposed) && Stable(proposed))
      ensures
        (proposed.allocation != current.allocation || current.bottleneck <= proposed.bottleneck || Safe(proposed)) ==>
          Safe(selected) || current.bottleneck <= selected.bottleneck
    {
      AddProposal(proposed);
      var tried, moved, end;
      tried, moved, end, path := FollowProposal(proposed);
      anchors, fixed := tried, end;
      triggered := !Allowed(proposed) || !Safe(proposed) || moved;
      ghost var before := evaluated;
      selected, selection := Select(tried, triggered, end);
      searched := !(end.Some? && Safe(end.value) && Allowed(end.value));
      PathStays(before, evaluated, proposed, path);
      kind := selection;
      assert given[0] in evaluated by { assert evaluated[..|given|][0] == evaluated[0]; }
      NotSlower(evaluated, given[0], proposed, selected, kind);
      if !Allowed(proposed) && selected.allocation == current.allocation {
        selection := BacklogHold;
      }
    }
  }

  lemma LeastOf(plans: seq<Plan>, key: Plan -> seq<real>, n: nat, p: Plan)
    requires (forall x :: |key(x)| == n) && Least(plans, key, n, p)
    ensures forall q :: q in plans ==> !Less(key(q), key(p))
  {
    forall q | q in plans ensures !Less(key(q), key(p)) {
      var i :| 0 <= i < |plans| && plans[i] == q;
    }
  }

  // A proposal with the current allocation replaces the current plan.  When there is
  // no budget for other plans, the choice is safe or no slower than the current plan
  // exactly when the proposal is for another allocation, no slower, or safe.
  method NoBudget(evaluate: Matrix -> Plan, scale: Plan -> Matrix, current: Plan, proposed: Plan,
                  capacity: seq<(nat, int)>, allowScaleIn: bool, required: real, late: nat -> bool)
    returns (selected: Plan)
    requires forall m :: evaluate(m).allocation == m
    ensures SafeFor(required, selected) || current.bottleneck <= selected.bottleneck <==>
      || proposed.allocation != current.allocation
      || current.bottleneck <= proposed.bottleneck
      || SafeFor(required, proposed)
  {
    var v := new StabilityValidator(evaluate, scale, current, capacity, {}, 3, 0, allowScaleIn, false, required, late);
    var choice, _, _, _, _, _, _, _ := v.Run(proposed);
    selected := choice;
    if proposed.allocation == current.allocation {
      assert v.evaluated == v.evaluated[..1] == [proposed];
    }
  }

  lemma MostThroughput(plans: seq<Plan>, p: Plan)
    requires Least(plans, ThroughputKey, 3, p)
    ensures forall q :: q in plans ==> !Faster(q, p)
  {
    forall q | q in plans ensures !Faster(q, p) {
      var i :| 0 <= i < |plans| && plans[i] == q;
      assert !Less(ThroughputKey(plans[i]), ThroughputKey(p));
      ThroughputMeans(q, p);
    }
  }
}
