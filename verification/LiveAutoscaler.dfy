/**
  The control loop of the live autoscaler (scheduler/cli/run_hexgen3_live_autoscaler.py).
  Each round takes from outside what was measured, the time, and whether the
  runtime drained, was replaced and became ready.
 */
module LiveAutoscaler {
  import opened Prelude
  import opened Allocation
  import opened Stability

  datatype Workload = Workload(arrivalRate: real, shape: nat)

  datatype Framework = Framework(
    evaluate: (Workload, Matrix, nat) -> Plan,
    scale: (Workload, Plan) -> Matrix,
    reschedule: (Workload, Plan) -> Plan,
    safeUtilization: real, choices: set<int>, costAware: bool)

  datatype Args = Args(
    applyRuntime: bool, minArrivalRate: real, scaleConfirmations: int, maxScaleApplies: Option<nat>,
    cooldown: real, backlogThreshold: Option<real>, pollInterval: real, maxRounds: int, maxCandidates: int)

  datatype Decision = Initial | ScaleChanged | HoldAllocationUnchanged

  datatype Direction = ScaleOut | ScaleIn | Reconfigure

  datatype Signature = AnyScaleOut | Exactly(direction: Direction, allocation: Matrix, parallelism: nat)

  datatype RuntimeState = Draining | Serving

  // What a round gets: no workload when there are no usable metrics.
  datatype Input = Input(workload: Option<Workload>, waiting: real, now: real, late: nat -> bool,
    drained: bool, applyStatus: int, ready: bool, appliedAt: real)

  // A planned window: the plan before, if any, and the plan chosen.
  datatype Window = Window(
    decision: Decision, from: Option<Plan>, to: Plan, workload: Workload, waiting: real, now: real)

  // A replacement of the runtime's processes: the state file at that moment, and
  // how many windows had been planned.
  datatype Replacement = Replacement(decision: Decision, allocation: Matrix, state: RuntimeState, at: nat)

  // A replacement that became ready, and when.
  datatype Applied = Applied(at: nat, time: real)

  function ScalePlanDirection(current: Plan, target: Plan): Direction {
    var a, b := TotalGpus(current.allocation), TotalGpus(target.allocation);
    if b > a then ScaleOut else if b < a then ScaleIn else Reconfigure
  }

  function ConfirmationSignature(current: Plan, target: Plan): Signature {
    var d := ScalePlanDirection(current, target);
    if d == ScaleOut then AnyScaleOut else Exactly(d, target.allocation, target.parallelism)
  }

  function MaxReal(x: real, y: real): real {
    if x < y then y else x
  }

  // _scale_in_guard: no scale-in while there is a backlog
  function ScaleInAllowed(args: Args, w: Workload, waiting: real): bool {
    var threshold := match args.backlogThreshold
      case Some(t) => MaxReal(0.0, t)
      case None => MaxReal(1.0, w.arrivalRate * MaxReal(1.0, args.pollInterval));
    MaxReal(0.0, waiting) <= threshold
  }

  // More requests wait than the threshold, which is given or one polling interval's
  // arrivals.
  ghost predicate Backlogged(args: Args, w: Workload, waiting: real) {
    match args.backlogThreshold
    case Some(t) => waiting > 0.0 && waiting > t
    case None =>
      waiting > 1.0 && waiting > w.arrivalRate * if args.pollInterval < 1.0 then 1.0 else args.pollInterval
  }

  lemma GuardMeans(args: Args, w: Workload, waiting: real)
    ensures ScaleInAllowed(args, w, waiting) <==> !Backlogged(args, w, waiting)
  {
  }

  function RequiredThroughput(fw: Framework, w: Workload): real {
    w.arrivalRate / MaxReal(0.000000001, fw.safeUtilization)
  }

  // At this throughput the workload stays within the safe utilization.
  ghost predicate Enough(fw: Framework, w: Workload, p: Plan) {
    w.arrivalRate <= MaxReal(0.000000001, fw.safeUtilization) * (p.bottleneck + 0.000000001)
  }

  lemma SafeMeans(fw: Framework, w: Workload, p: Plan)
    ensures SafeFor(RequiredThroughput(fw, w), p) <==> Enough(fw, w, p)
  {
    Quotient(w.arrivalRate, MaxReal(0.000000001, fw.safeUtilization), p.bottleneck + 0.000000001);
  }

  lemma Quotient(a: real, u: real, x: real)
    requires u > 0.0
    ensures a / u <= x <==> a <= u * x
  {
    var q := a / u;
    assert a == q * u;
    if q <= x { assert (x - q) * u >= 0.0; } else { assert (q - x) * u > 0.0; }
  }

  ghost predicate KeepsAllocation(fw: Framework) {
    forall w, m, p :: fw.evaluate(w, m, p).allocation == m
  }

  function EvaluateExisting(fw: Framework, w: Workload, p: Plan): Plan {
    fw.evaluate(w, p.allocation, p.parallelism)
  }

  // No worker type has fewer GPUs.
  ghost predicate NotSmaller(before: Matrix, after: Matrix) {
    && Total(after.pre) >= Total(before.pre) && Total(after.attn) >= Total(before.attn)
    && Total(after.ffn) >= Total(before.ffn)
  }

  // The search is for this workload, from the current plan, as configured.
  ghost predicate SearchesFor(
      v: StabilityValidator, fw: Framework, args: Args, w: Workload, current: Plan, capacity: seq<(nat, int)>,
      allowScaleIn: bool, late: nat -> bool) {
    && (forall m :: v.evaluate(m) == fw.evaluate(w, m, current.parallelism))
    && (forall p :: v.scale(p) == fw.scale(w, p))
    && v.current == current && v.capacity == capacity && v.choices == fw.choices && v.costAware == fw.costAware
    && v.maxRounds == args.maxRounds && v.maxCandidates == Max0(args.maxCandidates)
    && v.allowScaleIn == allowScaleIn && v.required == RequiredThroughput(fw, w) && v.late == late
  }

  // What a plan for an existing allocation must be: the current one when it needs no
  // scaling, the proposal when it keeps the allocation or is safe and stable, and
  // otherwise safe or no slower, and without leave to scale in not smaller anywhere.
  ghost predicate PlanFits(fw: Framework, w: Workload, previous: Plan, allowScaleIn: bool, plan: Plan) {
    var current := fw.evaluate(w, previous.allocation, previous.parallelism);
    var proposed := fw.reschedule(w, current);
    if fw.scale(w, current) == current.allocation then plan == current
    else if proposed.allocation == current.allocation then plan == proposed
    else
      && (!allowScaleIn ==> NotSmaller(previous.allocation, plan.allocation))
      && (Enough(fw, w, plan) || plan.bottleneck >= current.bottleneck)
      && (Enough(fw, w, current) ==> Enough(fw, w, plan))
      && ((allowScaleIn || NotSmaller(previous.allocation, proposed.allocation)) && Enough(fw, w, proposed) ==>
            Enough(fw, w, plan) && (fw.scale(w, proposed) == proposed.allocation ==> plan == proposed))
  }

  // A scale decision changes the allocation.  Otherwise the plan is that of the search.
  method PlanExisting(
      fw: Framework, args: Args, w: Workload, previous: Plan, capacity: seq<(nat, int)>, allowScaleIn: bool,
      late: nat -> bool)
    returns (plan: Plan, decision: Decision, ghost search: Option<StabilityValidator>, ghost kind: Selection)
    requires KeepsAllocation(fw)
    ensures decision != Initial && (decision == ScaleChanged <==> plan.allocation != previous.allocation)
    ensures PlanFits(fw, w, previous, allowScaleIn, plan)
    ensures decision == ScaleChanged ==> search.Some?
    ensures search.Some? ==>
      && SearchesFor(search.value, fw, args, w, EvaluateExisting(fw, w, previous), capacity, allowScaleIn, late)
      && search.value.Chosen(search.value.evaluated, plan, kind)
  {
    search, kind := None, CapacityLimited;
    var current := EvaluateExisting(fw, w, previous);
    if fw.scale(w, current) == current.allocation {
      return current, HoldAllocationUnchanged, search, kind;
    }
    var proposed := fw.reschedule(w, current);
    if proposed.allocation == current.allocation {
      return proposed, HoldAllocationUnchanged, search, kind;
    }
    plan, search, kind := Stabilize(fw, args, w, current, proposed, capacity, allowScaleIn, late);
    decision := if plan.allocation != current.allocation then ScaleChanged else HoldAllocationUnchanged;
  }

  method Stabilize(
      fw: Framework, args: Args, w: Workload, current: Plan, proposed: Plan, capacity: seq<(nat, int)>,
      allowScaleIn: bool, late: nat -> bool)
    returns (plan: Plan, ghost search: Option<StabilityValidator>, ghost kind: Selection)
    requires KeepsAllocation(fw) && proposed.allocation != current.allocation
    ensures !allowScaleIn ==> NotSmaller(current.allocation, plan.allocation)
    ensures Enough(fw, w, plan) || plan.bottleneck >= current.bottleneck
    ensures Enough(fw, w, current) ==> Enough(fw, w, plan)
    ensures (allowScaleIn || NotSmaller(current.allocation, proposed.allocation)) && Enough(fw, w, proposed) ==>
      Enough(fw, w, plan) && (fw.scale(w, proposed) == proposed.allocation ==> plan == proposed)
    ensures search.Some? && SearchesFor(search.value, fw, args, w, current, capacity, allowScaleIn, late)
    ensures search.value.Chosen(search.value.evaluated, plan, kind)
  {
    var evaluate := (m: Matrix) => fw.evaluate(w, m, current.parallelism);
    var scale := (p: Plan) => fw.scale(w, p);
    var v := new StabilityValidator(evaluate, scale, current, capacity, fw.choices, args.maxRounds, args.maxCandidates,
      allowScaleIn, fw.costAware, RequiredThroughput(fw, w), late);
    var choice, _, _, _, chosen, _, _, _ := v.Run(proposed);
    plan, search, kind := choice, Some(v), chosen;
    assert v.given == [current, proposed];
    assert current in v.evaluated && proposed in v.evaluated by {
      assert v.evaluated[..2][0] == v.evaluated[0] && v.evaluated[..2][1] == v.evaluated[1];
    }
    SafeMeans(fw, w, plan);
    SafeMeans(fw, w, current);
    SafeMeans(fw, w, proposed);
    assert v.Allowed(current) && (v.Safe(current) ==> SomeSafe(v, v.evaluated));
    assert v.Allowed(proposed) && v.Safe(proposed) ==> SomeSafe(v, v.evaluated);
  }

  // ---------------------------------------------------------------- histories

  // As many confirmations as asked for, and at least one.
  function Required(args: Args): (r: nat)
    ensures r >= 1 && r >= args.scaleConfirmations && (r == 1 || r == args.scaleConfirmations)
  {
    if args.scaleConfirmations < 1 then 1 else args.scaleConfirmations
  }

  predicate Grows(w: Window)
    requires w.from.Some?
  {
    TotalGpus(w.to.allocation) > TotalGpus(w.from.value.allocation)
  }

  predicate Shrinks(w: Window)
    requires w.from.Some?
  {
    TotalGpus(w.to.allocation) < TotalGpus(w.from.value.allocation)
  }

  // Two scale decisions agree: both grow, or neither does and they choose the same
  // deployment, shrinking or not.
  predicate Agree(a: Window, b: Window) {
    && a.decision == b.decision == ScaleChanged && a.from.Some? && b.from.Some?
    && (Grows(a) <==> Grows(b))
    && (!Grows(a) ==>
          && (Shrinks(a) <==> Shrinks(b)) && a.to.allocation == b.to.allocation
          && a.to.parallelism == b.to.parallelism)
  }

  // That is what the signatures compare.
  lemma SignatureMeans(a: Window, b: Window)
    requires a.decision == b.decision == ScaleChanged && a.from.Some? && b.from.Some?
    ensures ConfirmationSignature(a.from.value, a.to) == ConfirmationSignature(b.from.value, b.to) <==> Agree(a, b)
  {
  }

  // The last n windows agree with the last one.
  ghost predicate AgreeRun(planned: seq<Window>, n: nat) {
    n <= |planned| && forall i :: |planned| - n <= i < |planned| ==> Agree(planned[i], planned[|planned| - 1])
  }

  // The length of the longest such run after the first `since` windows.
  ghost predicate LongestRun(planned: seq<Window>, since: nat, n: nat) {
    && since + n <= |planned| && AgreeRun(planned, n)
    && (since + n < |planned| ==> !AgreeRun(planned, n + 1))
  }

  // One more scale decision: the run goes on when the signature is the same.
  lemma {:induction false} RunGoesOn(planned: seq<Window>, since: nat, n: nat, w: Window)
    requires LongestRun(planned, since, n) && Agree(w, w)
    ensures LongestRun(planned + [w], since, if n > 0 && Agree(planned[|planned| - 1], w) then n + 1 else 1)
  {
    var ws := planned + [w];
    var k := |planned| - 1;
    if n > 0 && Agree(planned[k], w) {
      forall i | |ws| - (n + 1) <= i < |ws| ensures Agree(ws[i], w) {
        assert i < |planned| ==> Agree(planned[i], planned[k]);
      }
      if since + n < |planned| {
        BreakStays(planned, n, w);
      }
    } else if since < |planned| {
      AgreeLikewise(planned[k], planned[k], w);
      assert n == 0 ==> !AgreeRun(planned, 1);
      assert ws[k] == planned[k] && |ws| - 2 == k;
    }
  }

  lemma AgreeLikewise(a: Window, b: Window, c: Window)
    ensures Agree(a, c) && Agree(b, c) ==> Agree(a, b)
  {
  }

  lemma {:induction false} ShorterRun(planned: seq<Window>, n: nat, m: nat)
    requires n <= m
    ensures AgreeRun(planned, m) ==> AgreeRun(planned, n)
  {
  }

  lemma {:induction false} BreakStays(planned: seq<Window>, n: nat, w: Window)
    requires 0 < n < |planned| && Agree(planned[|planned| - 1], w) && AgreeRun(planned, n) && !AgreeRun(planned, n + 1)
    ensures !AgreeRun(planned + [w], n + 2)
  {
    var ws, k, j := planned + [w], |planned| - 1, |planned| - 1 - n;
    assert !Agree(planned[j], planned[k]);
    assert ws[j] == planned[j] && ws[|ws| - 1] == w;
    AgreeLikewise(planned[j], planned[k], w);
  }

  lemma {:induction false} RunBroken(planned: seq<Window>, since: nat, w: Window)
    requires since <= |planned| && w.decision != ScaleChanged
    ensures LongestRun(planned + [w], since, 0)
  {
    assert (planned + [w])[|planned|] == w;
  }

  // A run is long enough exactly when its longest part is.
  lemma {:induction false} LongEnough(planned: seq<Window>, since: nat, n: nat, required: nat)
    requires LongestRun(planned, since, n)
    ensures n >= required <==> since + required <= |planned| && AgreeRun(planned, required)
  {
    if n < required { ShorterRun(planned, n + 1, required); } else { ShorterRun(planned, required, n); }
  }

  ghost function Scales(replaced: seq<Replacement>): nat {
    if replaced == [] then 0
    else Scales(replaced[..|replaced| - 1]) + if replaced[|replaced| - 1].decision == ScaleChanged then 1 else 0
  }

  // When the last scale change was made.
  ghost function LastScale(replaced: seq<Replacement>): nat {
    if replaced == [] then 0
    else
      var r := replaced[|replaced| - 1];
      if r.decision == ScaleChanged then r.at else LastScale(replaced[..|replaced| - 1])
  }

  // A window is planned for enough arrivals; without a plan before it is for the
  // initial allocation, else it fits the plan before, and while there is a backlog
  // takes no GPU from any worker type.
  ghost predicate WindowOk(args: Args, fw: Framework, initial: Matrix, w: Window) {
    && w.workload.arrivalRate >= args.minArrivalRate && (w.decision == Initial <==> w.from.None?)
    && (w.from.None? ==> w.to.allocation == initial)
    && (w.from.Some? ==>
          && (w.decision == ScaleChanged <==> w.to.allocation != w.from.value.allocation)
          && PlanFits(fw, w.workload, w.from.value, !Backlogged(args, w.workload, w.waiting), w.to)
          && (Backlogged(args, w.workload, w.waiting) ==> NotSmaller(w.from.value.allocation, w.to.allocation)))
  }

  // Every replacement was made while draining, for the window planned last.  The first
  // one is the initial launch; every later one is a scale change from the one before,
  // after enough windows that agree, none of them used for an earlier change.
  ghost predicate ReplacedOk(planned: seq<Window>, replaced: seq<Replacement>, n: nat, i: nat) {
    i < |replaced| ==>
      var r := replaced[i];
      && r.state == Draining && 0 < r.at <= |planned|
      && r.decision == planned[r.at - 1].decision && r.allocation == planned[r.at - 1].to.allocation
      && (if i == 0 then r.decision == Initial
          else
            && r.decision == ScaleChanged && planned[r.at - 1].from.Some?
            && planned[r.at - 1].from.value.allocation == replaced[i - 1].allocation
            && AgreeRun(planned[..r.at], n) && r.at >= LastScale(replaced[..i]) + n)
  }

  ghost predicate Disciplined(planned: seq<Window>, replaced: seq<Replacement>, n: nat) {
    forall i: nat {:trigger ReplacedOk(planned, replaced, n, i)} :: ReplacedOk(planned, replaced, n, i)
  }

  // Window j, planned after the i-th replacement became ready and before the next one
  // did, is planned when the cooldown is over.
  ghost predicate CooledAt(planned: seq<Window>, applied: seq<Applied>, cooldown: real, i: nat, j: nat) {
    i < |applied| && applied[i].at <= j < |planned| && (i + 1 < |applied| ==> j < applied[i + 1].at) ==>
      planned[j].now >= applied[i].time && planned[j].now >= applied[i].time + cooldown
  }

  ghost predicate Cooled(planned: seq<Window>, applied: seq<Applied>, cooldown: real) {
    forall i: nat, j: nat {:trigger CooledAt(planned, applied, cooldown, i, j)} ::
      CooledAt(planned, applied, cooldown, i, j)
  }

  // The replacements that became ready: all, but perhaps the last.
  ghost predicate ReadyOnes(planned: seq<Window>, replaced: seq<Replacement>, applied: seq<Applied>) {
    && |applied| <= |replaced| <= |applied| + 1
    && forall i: nat {:trigger ReadyAt(planned, replaced, applied, i)} :: ReadyAt(planned, replaced, applied, i)
  }

  ghost predicate ReadyAt(planned: seq<Window>, replaced: seq<Replacement>, applied: seq<Applied>, i: nat) {
    i < |applied| ==> i < |replaced| && applied[i].at == replaced[i].at <= |planned|
  }

  ghost predicate WindowAt(args: Args, fw: Framework, initial: Matrix, planned: seq<Window>, i: nat) {
    i < |planned| ==> WindowOk(args, fw, initial, planned[i])
  }

  ghost predicate WindowsOk(args: Args, fw: Framework, initial: Matrix, planned: seq<Window>) {
    forall i: nat {:trigger WindowAt(args, fw, initial, planned, i)} :: WindowAt(args, fw, initial, planned, i)
  }

  // What has happened: the windows planned, the replacements, and those that became ready.
  datatype Log = Log(planned: seq<Window>, replaced: seq<Replacement>, applied: seq<Applied>)

  // What holds of every run, up to any point.
  ghost predicate History(args: Args, fw: Framework, initial: Matrix, l: Log) {
    && WindowsOk(args, fw, initial, l.planned)
    && Disciplined(l.planned, l.replaced, Required(args))
    && (l.replaced != [] ==> args.applyRuntime && l.replaced[0].allocation == initial)
    && (args.maxScaleApplies.Some? ==> Scales(l.replaced) <= args.maxScaleApplies.value)
    && LastScale(l.replaced) <= |l.planned|
    && Cooled(l.planned, l.applied, args.cooldown) && ReadyOnes(l.planned, l.replaced, l.applied)
  }

  function WithWindow(l: Log, w: Window): Log {
    l.(planned := l.planned + [w])
  }

  lemma {:induction false} PlanMore(args: Args, fw: Framework, initial: Matrix, l: Log, w: Window)
    requires History(args, fw, initial, l) && WindowOk(args, fw, initial, w)
    requires l.applied != [] ==>
      var last := l.applied[|l.applied| - 1]; w.now >= last.time && w.now >= last.time + args.cooldown
    ensures History(args, fw, initial, WithWindow(l, w))
  {
    var ws, n := l.planned + [w], Required(args);
    forall i: nat ensures WindowAt(args, fw, initial, ws, i) { assert WindowAt(args, fw, initial, l.planned, i); }
    forall i: nat ensures ReplacedOk(ws, l.replaced, n, i) { StaysReplaced(l.planned, l.replaced, n, i, w); }
    forall i: nat ensures ReadyAt(ws, l.replaced, l.applied, i) { assert ReadyAt(l.planned, l.replaced, l.applied, i); }
    forall i: nat, j: nat ensures CooledAt(ws, l.applied, args.cooldown, i, j) {
      assert CooledAt(l.planned, l.applied, args.cooldown, i, j);
      assert i < |l.applied| ==> ReadyAt(l.planned, l.replaced, l.applied, i + 1);
    }
  }

  lemma {:induction false} StaysReplaced(
      planned: seq<Window>, replaced: seq<Replacement>, n: nat, i: nat, w: Window)
    requires Disciplined(planned, replaced, n)
    ensures ReplacedOk(planned + [w], replaced, n, i)
  {
    assert ReplacedOk(planned, replaced, n, i);
    if i < |replaced| { assert (planned + [w])[..replaced[i].at] == planned[..replaced[i].at]; }
  }

  // The replacement that the last window asks for.
  ghost predicate MayReplace(args: Args, planned: seq<Window>, replaced: seq<Replacement>, r: Replacement) {
    && planned != [] && args.applyRuntime
    && var w := planned[|planned| - 1];
       && r == Replacement(w.decision, w.to.allocation, Draining, |planned|)
       && (if replaced == [] then w.decision == Initial
           else
             && w.decision == ScaleChanged && w.from.Some?
             && w.from.value.allocation == replaced[|replaced| - 1].allocation
             && AgreeRun(planned, Required(args)) && |planned| >= LastScale(replaced) + Required(args)
             && (args.maxScaleApplies.Some? ==> Scales(replaced) < args.maxScaleApplies.value))
  }

  lemma {:induction false} ScalesMore(replaced: seq<Replacement>, r: Replacement)
    ensures Scales(replaced + [r]) == Scales(replaced) + if r.decision == ScaleChanged then 1 else 0
    ensures LastScale(replaced + [r]) == if r.decision == ScaleChanged then r.at else LastScale(replaced)
  {
    assert (replaced + [r])[..|replaced|] == replaced;
  }

  lemma {:induction false} DisciplineMore(
      args: Args, planned: seq<Window>, replaced: seq<Replacement>, r: Replacement)
    requires Disciplined(planned, replaced, Required(args)) && MayReplace(args, planned, replaced, r)
    ensures Disciplined(planned, replaced + [r], Required(args))
  {
    var q, n := replaced + [r], Required(args);
    assert planned[..|planned|] == planned;
    forall i: nat ensures ReplacedOk(planned, q, n, i) {
      if i < |replaced| {
        assert ReplacedOk(planned, replaced, n, i) && q[..i] == replaced[..i] && q[i] == replaced[i];
      } else if i == |replaced| {
        assert q[..i] == replaced && q[i] == r;
      }
    }
  }

  function WithReplacement(l: Log, r: Replacement): Log {
    l.(replaced := l.replaced + [r])
  }

  lemma {:induction false} ReplaceMore(args: Args, fw: Framework, initial: Matrix, l: Log, r: Replacement)
    requires History(args, fw, initial, l) && |l.applied| == |l.replaced|
    requires MayReplace(args, l.planned, l.replaced, r)
    ensures History(args, fw, initial, WithReplacement(l, r))
  {
    DisciplineMore(args, l.planned, l.replaced, r);
    ScalesMore(l.replaced, r);
    assert WindowAt(args, fw, initial, l.planned, |l.planned| - 1);
    var q := l.replaced + [r];
    forall i: nat ensures ReadyAt(l.planned, q, l.applied, i) { assert ReadyAt(l.planned, l.replaced, l.applied, i); }
  }

  function WithReady(l: Log, time: real): Log {
    l.(applied := l.applied + [Applied(|l.planned|, time)])
  }

  lemma {:induction false} ReadyMore(args: Args, fw: Framework, initial: Matrix, l: Log, time: real)
    requires History(args, fw, initial, l) && |l.applied| + 1 == |l.replaced|
    requires l.replaced[|l.applied|].at == |l.planned|
    ensures History(args, fw, initial, WithReady(l, time))
  {
    var more := l.applied + [Applied(|l.planned|, time)];
    forall i: nat ensures ReadyAt(l.planned, l.replaced, more, i) {
      assert ReadyAt(l.planned, l.replaced, l.applied, i);
    }
    forall i: nat, j: nat ensures CooledAt(l.planned, more, args.cooldown, i, j) {
      assert CooledAt(l.planned, l.applied, args.cooldown, i, j);
    }
  }

  // ---------------------------------------------------------------- one round

  // What the loop remembers.
  datatype Memory = Memory(
    previousPlan: Option<Plan>, cooldownUntil: real, signature: Option<Signature>, count: nat, scaleApplies: nat,
    state: RuntimeState)

  // More scale changes are permitted.
  predicate MayScale(args: Args, scaleApplies: nat) {
    args.maxScaleApplies.None? || scaleApplies < args.maxScaleApplies.value
  }

  // What the loop believes is what runs.
  ghost predicate Believed(args: Args, m: Memory, l: Log) {
    && Scales(l.replaced) == m.scaleApplies && |l.applied| == |l.replaced|
    && (l.applied != [] ==> m.cooldownUntil == l.applied[|l.applied| - 1].time + MaxReal(0.0, args.cooldown))
    && (if args.applyRuntime then
          && (m.previousPlan.Some? <==> l.replaced != [])
          && (l.replaced != [] ==> m.previousPlan.value.allocation == l.replaced[|l.replaced| - 1].allocation)
          && (m.state == Serving <==> m.previousPlan.Some?)
        else m.state == Serving)
  }

  // The pending count is the length of the longest run since the last change.
  ghost predicate Pending(
      args: Args, m: Memory, planned: seq<Window>, since: nat) {
    if args.applyRuntime && args.scaleConfirmations > 1 then
      && (MayScale(args, m.scaleApplies) ==>
            && LongestRun(planned, since, m.count)
            && (m.count > 0 ==> SignedLast(planned, m.signature)))
      && (m.count == 0 ==> m.signature == None)
    else m.signature == None && m.count == 0
  }

  ghost predicate SignedLast(planned: seq<Window>, signature: Option<Signature>) {
    && planned != [] && planned[|planned| - 1].from.Some?
    && signature == Some(ConfirmationSignature(planned[|planned| - 1].from.value, planned[|planned| - 1].to))
  }

  // True while the loop goes on.
  ghost predicate Tracked(args: Args, m: Memory, l: Log) {
    Believed(args, m, l) && Pending(args, m, l.planned, LastScale(l.replaced))
  }

  // The pending signature and count after a window.
  ghost function Counted(args: Args, m: Memory, w: Window): (Option<Signature>, nat)
    requires w.decision == ScaleChanged ==> w.from.Some?
  {
    if w.decision != ScaleChanged then (None, 0)
    else if !args.applyRuntime || !MayScale(args, m.scaleApplies) || args.scaleConfirmations <= 1 then
      (m.signature, m.count)
    else
      var signature := ConfirmationSignature(w.from.value, w.to);
      (Some(signature), if m.signature == Some(signature) then m.count + 1 else 1)
  }

  lemma {:induction false} CountsOn(args: Args, m: Memory, planned: seq<Window>, since: nat, w: Window)
    requires Pending(args, m, planned, since) && since <= |planned| && (w.decision == ScaleChanged ==> w.from.Some?)
    ensures var (signature, count) := Counted(args, m, w);
      Pending(args, m.(signature := signature, count := count), planned + [w], since)
  {
    if w.decision != ScaleChanged {
      RunBroken(planned, since, w);
    } else if args.applyRuntime && MayScale(args, m.scaleApplies) && args.scaleConfirmations > 1 {
      RunGoesOn(planned, since, m.count, w);
      if m.count > 0 { SignatureMeans(planned[|planned| - 1], w); }
    }
  }

  // The process ends when the replacement fails or does not become ready.
  function ExitOf(input: Input): Option<int> {
    if input.applyStatus != 0 then Some(input.applyStatus) else if !input.ready then Some(1) else None
  }

  // Does a planned window replace the processes: the initial launch, or a scale change
  // below the limit that enough windows agree on and for which the runtime has drained.
  ghost predicate GoesAhead(args: Args, l: Log, input: Input)
    requires l.planned != []
  {
    var w := l.planned[|l.planned| - 1];
    && args.applyRuntime
    && (w.decision == Initial
        || (w.decision == ScaleChanged && AgreeRun(l.planned, Required(args))
              && (args.maxScaleApplies.Some? ==> Scales(l.replaced) < args.maxScaleApplies.value)
              && |l.planned| >= LastScale(l.replaced) + Required(args) && input.drained))
  }

  // Counted and confirmed as the code does it.
  ghost predicate Confirmed(args: Args, m: Memory, w: Window)
    requires w.decision == ScaleChanged ==> w.from.Some?
  {
    MayScale(args, m.scaleApplies) && (args.scaleConfirmations <= 1 || Counted(args, m, w).1 >= Required(args))
  }

  // That is to say that enough windows agree.
  lemma {:induction false} ConfirmedMeans(args: Args, m: Memory, planned: seq<Window>, since: nat, w: Window)
    requires Pending(args, m, planned, since) && since <= |planned|
    requires args.applyRuntime && w.decision == ScaleChanged && w.from.Some?
    ensures Confirmed(args, m, w) <==>
      && MayScale(args, m.scaleApplies) && AgreeRun(planned + [w], Required(args))
      && |planned + [w]| >= since + Required(args)
  {
    if MayScale(args, m.scaleApplies) && args.scaleConfirmations > 1 {
      CountsOn(args, m, planned, since, w);
      LongEnough(planned + [w], since, Counted(args, m, w).1, Required(args));
    } else {
      assert Agree(w, w);
    }
  }

  // Memory, log and exit after a window has been planned.
  ghost function After(args: Args, fw: Framework, m: Memory, l: Log, w: Window, input: Input)
    : (Memory, Log, Option<int>)
    requires (w.decision == ScaleChanged ==> w.from.Some?) && m.previousPlan == w.from
  {
    var (signature, count) := Counted(args, m, w);
    var m1 := m.(signature := signature, count := count);
    if !args.applyRuntime || w.decision == HoldAllocationUnchanged then
      (m1.(previousPlan := Some(w.to)), l, None)
    else if w.decision == ScaleChanged && !Confirmed(args, m, w) then
      (m1.(previousPlan := Some(EvaluateExisting(fw, w.workload, w.from.value))), l, None)
    else AfterApply(args, fw, m1, l, w, input)
  }

  ghost function AfterApply(args: Args, fw: Framework, m: Memory, l: Log, w: Window, input: Input)
    : (Memory, Log, Option<int>)
    requires w.decision == ScaleChanged ==> w.from.Some?
  {
    if w.decision == ScaleChanged && !input.drained then
      (m.(previousPlan := Some(EvaluateExisting(fw, w.workload, w.from.value)), state := Serving), l, None)
    else
      var l1 := WithReplacement(l, Replacement(w.decision, w.to.allocation, Draining, |l.planned|));
      if ExitOf(input).Some? then (m.(state := Draining), l1, ExitOf(input))
      else (AfterReady(args, m, w, input.appliedAt), WithReady(l1, input.appliedAt), None)
  }

  ghost function AfterReady(args: Args, m: Memory, w: Window, time: real): Memory {
    var m1 := m.(previousPlan := Some(w.to), cooldownUntil := time + MaxReal(0.0, args.cooldown), state := Serving);
    if w.decision == ScaleChanged then m1.(scaleApplies := m.scaleApplies + 1, signature := None, count := 0) else m1
  }

  // A window for this memory, which the log ends in.
  ghost predicate LastWindow(m: Memory, l: Log, w: Window) {
    l.planned != [] && l.planned[|l.planned| - 1] == w && m.previousPlan == w.from
  }

  // The plan is kept or measured anew: what runs is still what is believed.
  lemma KeepsBelief(args: Args, m: Memory, m': Memory, l: Log, plan: Plan)
    requires Believed(args, m, l) && m.previousPlan.Some? && plan.allocation == m.previousPlan.value.allocation
    requires m' == m.(previousPlan := Some(plan), signature := m'.signature, count := m'.count)
    ensures Believed(args, m', l)
  {
  }

  ghost function ReplacementFor(l: Log, w: Window): Replacement {
    Replacement(w.decision, w.to.allocation, Draining, |l.planned|)
  }

  // The last window may replace the processes.
  ghost predicate MayApply(args: Args, l: Log, w: Window) {
    MayReplace(args, l.planned, l.replaced, ReplacementFor(l, w))
  }

  lemma {:induction false} AheadMayApply(args: Args, m: Memory, l: Log, w: Window)
    requires Believed(args, m, l) && LastWindow(m, l, w) && args.applyRuntime
    requires w.decision == Initial <==> w.from.None?
    requires w.decision == ScaleChanged ==>
      && MayScale(args, m.scaleApplies) && AgreeRun(l.planned, Required(args))
      && |l.planned| >= LastScale(l.replaced) + Required(args)
    requires w.decision != HoldAllocationUnchanged
    ensures MayApply(args, l, w)
  {
  }

  lemma {:induction false} ReplaceHistory(
      args: Args, fw: Framework, initial: Matrix, l: Log, w: Window, time: real)
    requires History(args, fw, initial, l) && |l.applied| == |l.replaced| && MayApply(args, l, w)
    ensures History(args, fw, initial, WithReplacement(l, ReplacementFor(l, w)))
    ensures History(args, fw, initial, WithReady(WithReplacement(l, ReplacementFor(l, w)), time))
  {
    ReplaceMore(args, fw, initial, l, ReplacementFor(l, w));
    ReadyMore(args, fw, initial, WithReplacement(l, ReplacementFor(l, w)), time);
  }

  lemma {:induction false} ReadyBelieved(args: Args, m: Memory, l: Log, w: Window, time: real)
    requires Believed(args, m, l) && args.applyRuntime
    ensures Believed(args, AfterReady(args, m, w, time), WithReady(WithReplacement(l, ReplacementFor(l, w)), time))
  {
    ScalesMore(l.replaced, ReplacementFor(l, w));
  }

  lemma {:induction false} ReadyPending(args: Args, m: Memory, l: Log, w: Window, time: real)
    requires Pending(args, m, l.planned, LastScale(l.replaced)) && args.applyRuntime
    ensures Pending(args, AfterReady(args, m, w, time), l.planned, LastScale(l.replaced + [ReplacementFor(l, w)]))
  {
    ScalesMore(l.replaced, ReplacementFor(l, w));
    if w.decision == ScaleChanged { assert LongestRun(l.planned, |l.planned|, 0); }
  }

  lemma {:induction false} ApplyKeeps(
      args: Args, fw: Framework, initial: Matrix, m: Memory, l: Log, w: Window, input: Input)
    requires KeepsAllocation(fw) && History(args, fw, initial, l) && Tracked(args, m, l) && args.applyRuntime
    requires LastWindow(m, l, w) && MayApply(args, l, w) && (w.decision == ScaleChanged ==> w.from.Some?)
    ensures History(args, fw, initial, AfterApply(args, fw, m, l, w, input).1)
    ensures var (m', l', exit) := AfterApply(args, fw, m, l, w, input);
      if exit.None? then Tracked(args, m', l') else m'.state == Draining
  {
    if w.decision == ScaleChanged && !input.drained {
      var plan := EvaluateExisting(fw, w.workload, w.from.value);
      KeepsBelief(args, m, m.(previousPlan := Some(plan)), l, plan);
    } else {
      ReplaceHistory(args, fw, initial, l, w, input.appliedAt);
      ReadyBelieved(args, m, l, w, input.appliedAt);
      ReadyPending(args, m, l, w, input.appliedAt);
    }
  }

  // A window is planned and counted.
  ghost function CountedIn(args: Args, m: Memory, w: Window): Memory
    requires w.decision == ScaleChanged ==> w.from.Some?
  {
    m.(signature := Counted(args, m, w).0, count := Counted(args, m, w).1)
  }

  lemma {:induction false} CountKeeps(args: Args, m: Memory, l: Log, w: Window)
    requires Tracked(args, m, l) && LastScale(l.replaced) <= |l.planned|
    requires w.decision == ScaleChanged ==> w.from.Some?
    ensures Tracked(args, CountedIn(args, m, w), WithWindow(l, w))
  {
    CountsOn(args, m, l.planned, LastScale(l.replaced), w);
  }

  lemma {:induction false} CooledDown(args: Args, m: Memory, l: Log, now: real)
    requires Believed(args, m, l) && (m.previousPlan.Some? ==> now >= m.cooldownUntil)
    requires l.replaced != [] ==> args.applyRuntime
    ensures l.applied != [] ==>
      var last := l.applied[|l.applied| - 1]; now >= last.time && now >= last.time + args.cooldown
  {
  }

  // Every round keeps the history and, unless the process ends, what is believed.
  lemma {:induction false} RoundKeeps(
      args: Args, fw: Framework, initial: Matrix, m: Memory, l: Log, w: Window, input: Input)
    requires KeepsAllocation(fw) && History(args, fw, initial, l) && Tracked(args, m, l)
    requires WindowsOk(args, fw, initial, [w]) && m.previousPlan == w.from
    requires m.previousPlan.Some? ==> w.now >= m.cooldownUntil
    requires w.decision == ScaleChanged ==> w.from.Some?
    ensures History(args, fw, initial, After(args, fw, m, WithWindow(l, w), w, input).1)
    ensures var (m', l', exit) := After(args, fw, m, WithWindow(l, w), w, input);
      if exit.None? then Tracked(args, m', l') else m'.state == Draining
  {
    CooledDown(args, m, l, w.now);
    assert WindowAt(args, fw, initial, [w], 0);
    PlanMore(args, fw, initial, l, w);
    CountKeeps(args, m, l, w);
    if w.decision == ScaleChanged && args.applyRuntime {
      ConfirmedMeans(args, m, l.planned, LastScale(l.replaced), w);
    }
    PlannedKeeps(args, fw, initial, m, WithWindow(l, w), w, input);
  }

  lemma {:induction false} PlannedKeeps(
      args: Args, fw: Framework, initial: Matrix, m: Memory, l: Log, w: Window, input: Input)
    requires KeepsAllocation(fw) && History(args, fw, initial, l) && LastWindow(m, l, w)
    requires WindowOk(args, fw, initial, w) && Tracked(args, CountedIn(args, m, w), l)
    requires w.decision == ScaleChanged && args.applyRuntime && Confirmed(args, m, w) ==>
      AgreeRun(l.planned, Required(args)) && |l.planned| >= LastScale(l.replaced) + Required(args)
    ensures History(args, fw, initial, After(args, fw, m, l, w, input).1)
    ensures var (m', l', exit) := After(args, fw, m, l, w, input);
      if exit.None? then Tracked(args, m', l') else m'.state == Draining
  {
    var m1 := CountedIn(args, m, w);
    if !args.applyRuntime {
    } else if w.decision == HoldAllocationUnchanged {
      KeepsBelief(args, m1, m1.(previousPlan := Some(w.to)), l, w.to);
    } else if w.decision == ScaleChanged && !Confirmed(args, m, w) {
      var plan := EvaluateExisting(fw, w.workload, w.from.value);
      KeepsBelief(args, m1, m1.(previousPlan := Some(plan)), l, plan);
    } else {
      AheadMayApply(args, m1, l, w);
      ApplyKeeps(args, fw, initial, m1, l, w, input);
    }
  }

  // A window has been planned from what was measured and the plan before; the processes
  // are replaced exactly when it goes ahead, and the process ends exactly when the
  // replacement fails.
  ghost predicate Planned(args: Args, m: Memory, l: Log, input: Input, l': Log, exit: Option<int>) {
    exists w: Window {:trigger WithWindow(l, w)} ::
      && w.from == m.previousPlan && input.workload == Some(w.workload) && w.waiting == input.waiting
      && w.now == input.now && Executed(args, WithWindow(l, w), w, input, l', exit)
  }

  ghost predicate Executed(args: Args, l: Log, w: Window, input: Input, l': Log, exit: Option<int>)
    requires l.planned != []
  {
    && l'.planned == l.planned
    && l'.replaced == l.replaced + (if GoesAhead(args, l, input) then [ReplacementFor(l, w)] else [])
    && (exit.Some? <==> GoesAhead(args, l, input) && (input.applyStatus != 0 || !input.ready))
  }

  lemma {:induction false} RoundMeans(args: Args, fw: Framework, m: Memory, l: Log, w: Window, input: Input)
    requires Tracked(args, m, l) && m.previousPlan == w.from && (w.decision == Initial <==> w.from.None?)
    requires LastScale(l.replaced) <= |l.planned|
    ensures var (m', l', exit) := After(args, fw, m, WithWindow(l, w), w, input);
      Executed(args, WithWindow(l, w), w, input, l', exit)
  {
    if args.applyRuntime && w.decision == ScaleChanged {
      ConfirmedMeans(args, m, l.planned, LastScale(l.replaced), w);
    }
  }

  // ---------------------------------------------------------------- the loop

  class LiveAutoscaler {
    const args: Args
    const fw: Framework
    const capacity: seq<(nat, int)>
    const initialAllocation: Matrix
    var previousPlan: Option<Plan>
    var cooldownUntil: real
    var pendingSignature: Option<Signature>
    var pendingCount: nat
    var scaleApplies: nat
    var stateFile: RuntimeState
    ghost var log: Log

    ghost function M(): Memory
      reads this
    {
      Memory(previousPlan, cooldownUntil, pendingSignature, pendingCount, scaleApplies, stateFile)
    }

    // True at every moment, also when the loop has ended.
    ghost predicate Valid()
      reads this
    {
      KeepsAllocation(fw) && History(args, fw, initialAllocation, log)
    }

    constructor (args: Args, fw: Framework, capacity: seq<(nat, int)>, initialAllocation: Matrix)
      requires KeepsAllocation(fw)
      ensures Valid() && Tracked(args, M(), log) && log == Log([], [], []) && previousPlan == None
      ensures this.args == args && this.fw == fw && this.capacity == capacity
      ensures this.initialAllocation == initialAllocation
    {
      this.args, this.fw, this.capacity, this.initialAllocation := args, fw, capacity, initialAllocation;
      previousPlan, cooldownUntil, pendingSignature, pendingCount, scaleApplies := None, 0.0, None, 0, 0;
      stateFile := if args.applyRuntime then Draining else Serving;
      log := Log([], [], []);
    }

    // Keep the current allocation, measured against the workload.
    method Reevaluate(w: Workload)
      requires previousPlan.Some?
      modifies this`previousPlan
      ensures previousPlan == Some(EvaluateExisting(fw, w, old(previousPlan).value))
    {
      previousPlan := Some(EvaluateExisting(fw, w, previousPlan.value));
    }

    // Plans one step: the initial allocation without a plan before, else from that plan.
    method PlanOneStep(w: Workload, input: Input) returns (plan: Plan, decision: Decision)
      requires KeepsAllocation(fw) && w.arrivalRate >= args.minArrivalRate
      ensures previousPlan.None? ==> decision == Initial && plan.allocation == initialAllocation
      ensures previousPlan.Some? ==> decision != Initial
      ensures WindowsOk(args, fw, initialAllocation,
                        [Window(decision, previousPlan, plan, w, input.waiting, input.now)])
    {
      if previousPlan.None? {
        plan, decision := fw.evaluate(w, initialAllocation, 0), Initial;
      } else {
        var allowed := ScaleInAllowed(args, w, input.waiting);
        GuardMeans(args, w, input.waiting);
        var next, change, _, _ := PlanExisting(fw, args, w, previousPlan.value, capacity, allowed, input.late);
        plan, decision := next, change;
      }
    }

    // Counts the window; may the plan be applied?
    method Confirm(plan: Plan, ghost w: Window) returns (confirmed: bool)
      requires previousPlan == w.from && w.from.Some? && w.to == plan && w.decision == ScaleChanged
      requires MayScale(args, scaleApplies) && args.applyRuntime && args.scaleConfirmations > 1
      modifies this`pendingSignature, this`pendingCount
      ensures (pendingSignature, pendingCount) == Counted(args, old(M()), w)
      ensures confirmed <==> pendingCount >= Required(args)
    {
      var signature := ConfirmationSignature(previousPlan.value, plan);
      if pendingSignature == Some(signature) {
        pendingCount := pendingCount + 1;
      } else {
        pendingSignature, pendingCount := Some(signature), 1;
      }
      confirmed := pendingCount >= Required(args);
    }

    // The limit and the confirmations: may a scale change go ahead?
    method Gate(plan: Plan, ghost w: Window) returns (go: bool)
      requires previousPlan == w.from && w.from.Some? && w.to == plan && w.decision == ScaleChanged
      requires args.applyRuntime
      modifies this`pendingSignature, this`pendingCount
      ensures (pendingSignature, pendingCount) == Counted(args, old(M()), w)
      ensures go <==> Confirmed(args, old(M()), w)
    {
      if !MayScale(args, scaleApplies) { return false; }
      go := true;
      if args.scaleConfirmations > 1 { go := Confirm(plan, w); }
    }

    // Drains, replaces the processes and waits for them; then the plan is the one that
    // runs.
    method Apply(plan: Plan, decision: Decision, workload: Workload, input: Input, ghost w: Window)
      returns (exit: Option<int>)
      requires previousPlan == w.from && w.to == plan && w.decision == decision && w.workload == workload
      requires decision == Initial || (decision == ScaleChanged && w.from.Some?)
      modifies this
      ensures (M(), log, exit) == AfterApply(args, fw, old(M()), old(log), w, input)
    {
      exit := None;
      stateFile := Draining;
      if decision == ScaleChanged {
        if !input.drained {
          stateFile := Serving;
          Reevaluate(workload);
          return;
        }
        stateFile := Draining;
      }
      log := WithReplacement(log, Replacement(decision, plan.allocation, stateFile, |log.planned|));
      if input.applyStatus != 0 { return Some(input.applyStatus); }
      if !input.ready { return Some(1); }
      log := WithReady(log, input.appliedAt);
      cooldownUntil := input.appliedAt + MaxReal(0.0, args.cooldown);
      stateFile := Serving;
      if decision == ScaleChanged {
        scaleApplies, pendingSignature, pendingCount := scaleApplies + 1, None, 0;
      }
      previousPlan := Some(plan);
    }

    // Decides what to do with a planned window.
    method Execute(plan: Plan, decision: Decision, workload: Workload, input: Input, ghost w: Window)
      returns (exit: Option<int>)
      requires previousPlan == w.from && w.to == plan && w.decision == decision && w.workload == workload
      requires decision == Initial <==> previousPlan.None?
      modifies this
      ensures (M(), log, exit) == After(args, fw, old(M()), old(log), w, input)
    {
      exit := None;
      if decision != ScaleChanged { pendingSignature, pendingCount := None, 0; }
      if !args.applyRuntime || decision == HoldAllocationUnchanged {
        previousPlan := Some(plan);
        return;
      }
      if decision == ScaleChanged {
        var go := Gate(plan, w);
        if !go {
          Reevaluate(workload);
          return;
        }
      }
      exit := Apply(plan, decision, workload, input, w);
    }

    // Nothing is planned without a usable workload or during the cooldown.
    ghost predicate Skips(input: Input)
      reads this
    {
      || input.workload.None? || input.workload.value.arrivalRate < args.minArrivalRate
      || (previousPlan.Some? && input.now < cooldownUntil)
    }

    // One round of the loop: a window is planned unless the round is skipped, and the
    // processes are replaced exactly when it goes ahead.
    method Round(input: Input) returns (exit: Option<int>)
      requires Valid() && Tracked(args, M(), log)
      modifies this
      ensures Valid() && (exit.None? ==> Tracked(args, M(), log)) && (exit.Some? ==> stateFile == Draining)
      ensures old(Skips(input)) ==> exit == None && log == old(log)
      ensures !old(Skips(input)) ==> Planned(args, old(M()), old(log), input, log, exit)
    {
      exit := None;
      if input.workload.None? || input.workload.value.arrivalRate < args.minArrivalRate { return; }
      var workload := input.workload.value;
      if previousPlan.Some? && input.now < cooldownUntil {
        Hold(workload);
        return;
      }
      exit := PlanAndExecute(workload, input);
    }

    // The cooldown is not over.
    method Hold(workload: Workload)
      requires Valid() && Tracked(args, M(), log) && previousPlan.Some?
      modifies this`previousPlan
      ensures Tracked(args, M(), log)
    {
      ghost var m := M();
      Reevaluate(workload);
      KeepsBelief(args, m, M(), log, previousPlan.value);
    }

    method PlanAndExecute(workload: Workload, input: Input) returns (exit: Option<int>)
      requires Valid() && Tracked(args, M(), log) && input.workload == Some(workload) && !Skips(input)
      modifies this
      ensures Valid() && (exit.None? ==> Tracked(args, M(), log)) && (exit.Some? ==> stateFile == Draining)
      ensures Planned(args, old(M()), old(log), input, log, exit)
    {
      var plan, decision := PlanOneStep(workload, input);
      ghost var w := Window(decision, previousPlan, plan, workload, input.waiting, input.now);
      RoundKeeps(args, fw, initialAllocation, M(), log, w, input);
      RoundMeans(args, fw, M(), log, w, input);
      log := WithWindow(log, w);
      exit := Execute(plan, decision, workload, input, w);
    }

    // Every run, up to any point: see History and Tracked.
    method Loop(inputs: seq<Input>) returns (exit: Option<int>)
      requires Valid() && Tracked(args, M(), log)
      modifies this
      ensures Valid() && (exit.None? ==> Tracked(args, M(), log)) && (exit.Some? ==> stateFile == Draining)
    {
      exit := None;
      for i := 0 to |inputs|
        invariant Valid() && Tracked(args, M(), log) && exit == None
      {
        exit := Round(inputs[i]);
        if exit.Some? { return; }
      }
    }
  }
}
