/**
  The counting barriers (comm/src/van.cc, comm/src/postoffice.cc).  A node that
  enters a barrier clears its flag, sends a request to the scheduler and waits;
  the scheduler counts requests per group and answers everybody when the count
  is complete; an answer, which does not say which barrier it is for, sets the
  flag.  A run is any interleaving of these steps with the network's deliveries.
 */
module Barrier {
  import opened Prelude

  // An instance barrier answers every member of the group, a group barrier
  // those that sent a request.
  datatype Kind = Instance | Group

  // expected: how many requests the scheduler waits for.
  datatype Channel = Channel(kind: Kind, members: set<nat>, expected: int)

  // The scheduler waits for as many requests as there are members.
  ghost predicate Balanced(chs: seq<Channel>) {
    forall ch :: 0 <= ch < |chs| ==> chs[ch].expected == |chs[ch].members| > 0
  }

  datatype State = State(
    waiting: map<nat, nat>,            // node -> barrier it waits in
    flag: set<nat>,                    // nodes whose barrier_done_ is set
    requests: multiset<(nat, nat)>,    // (barrier, node) on the way to the scheduler
    arrived: map<nat, seq<nat>>,       // requests counted since the last answer
    answers: multiset<nat>,            // answers on the way to a node
    entered: map<(nat, nat), nat>,     // (barrier, node) -> times entered
    left: map<(nat, nat), nat>)        // (barrier, node) -> times left

  datatype Event = Enter(node: nat, ch: nat) | Request(ch: nat, node: nat) | Deliver(node: nat) | Leave(node: nat)

  function Count(m: map<(nat, nat), nat>, ch: nat, node: nat): nat {
    if (ch, node) in m then m[(ch, node)] else 0
  }

  // The answers sent when the last request of a round comes in.
  function Answered(c: Channel, arrived: seq<nat>): multiset<nat> {
    if c.kind == Instance then multiset(c.members) else multiset(arrived)
  }

  ghost predicate Enabled(chs: seq<Channel>, s: State, e: Event) {
    match e
    case Enter(n, ch) => ch < |chs| && n in chs[ch].members && n !in s.waiting
    case Request(ch, n) => ch < |chs| && ch in s.arrived && (ch, n) in s.requests
    case Deliver(n) => n in s.answers
    case Leave(n) => n in s.waiting && n in s.flag
  }

  ghost function Next(chs: seq<Channel>, s: State, e: Event): State
    requires Enabled(chs, s, e)
  {
    match e
    case Enter(n, ch) =>
      s.(waiting := s.waiting[n := ch], flag := s.flag - {n},
         requests := s.requests + multiset{(ch, n)},
         entered := s.entered[(ch, n) := Count(s.entered, ch, n) + 1])
    case Request(ch, n) =>
      var here := s.arrived[ch] + [n];
      var s' := s.(requests := s.requests - multiset{(ch, n)});
      if |here| == chs[ch].expected
      then s'.(arrived := s.arrived[ch := []], answers := s.answers + Answered(chs[ch], here))
      else s'.(arrived := s.arrived[ch := here])
    case Deliver(n) => s.(answers := s.answers - multiset{n}, flag := s.flag + {n})
    case Leave(n) =>
      var ch := s.waiting[n];
      s.(waiting := s.waiting - {n}, left := s.left[(ch, n) := Count(s.left, ch, n) + 1])
  }

  // ---------------------------------------------------------------- invariant

  // Where a node is on its way through a barrier.
  datatype Phase = Idle | Sent(ch: nat) | Counted(ch: nat) | Released(ch: nat) | Ready(ch: nat)

  // rounds[ch]: how often barrier ch has been answered.
  datatype Ghosts = Ghosts(phase: map<nat, Phase>, rounds: seq<nat>)

  ghost function PhaseOf(g: Ghosts, n: nat): Phase {
    if n in g.phase then g.phase[n] else Idle
  }

  // The messages and flags agree with the node's phase.
  ghost predicate NodeOk(chs: seq<Channel>, s: State, g: Ghosts, n: nat) {
    var ph := PhaseOf(g, n);
    && (ph.Idle? <==> n !in s.waiting)
    && (!ph.Idle? ==> ph.ch < |chs| && n in chs[ph.ch].members && s.waiting[n] == ph.ch && (n in s.flag <==> ph.Ready?))
    && s.answers[n] == (if ph.Released? then 1 else 0)
  }

  ghost predicate RequestOk(s: State, g: Ghosts, ch: nat, n: nat) {
    s.requests[(ch, n)] == if PhaseOf(g, n) == Sent(ch) then 1 else 0
  }

  ghost predicate ArrivedOk(chs: seq<Channel>, s: State, g: Ghosts, ch: nat) {
    ch < |chs| ==>
      && ch in s.arrived
      && (forall n :: n in s.arrived[ch] <==> PhaseOf(g, n) == Counted(ch))
      && Distinct(s.arrived[ch])
      && |s.arrived[ch]| < |chs[ch].members|
  }

  // A member has entered once per round, and once more while its request is
  // still to be answered; it has left except for the barrier it is in.
  ghost predicate CountsOk(chs: seq<Channel>, s: State, g: Ghosts, ch: nat, n: nat) {
    ch < |chs| == |g.rounds| && n in chs[ch].members ==>
      var ph := PhaseOf(g, n);
      && Count(s.entered, ch, n) == g.rounds[ch] + (if ph == Sent(ch) || ph == Counted(ch) then 1 else 0)
      && Count(s.left, ch, n) == Count(s.entered, ch, n) - (if !ph.Idle? && ph.ch == ch then 1 else 0)
  }

  ghost predicate Inv(chs: seq<Channel>, s: State, g: Ghosts) {
    && Balanced(chs) && |g.rounds| == |chs| && s.arrived.Keys == Below(|chs|)
    && (forall n {:trigger NodeOk(chs, s, g, n)} :: NodeOk(chs, s, g, n))
    && (forall ch, n {:trigger RequestOk(s, g, ch, n)} :: RequestOk(s, g, ch, n))
    && (forall ch {:trigger ArrivedOk(chs, s, g, ch)} :: ArrivedOk(chs, s, g, ch))
    && (forall ch, n {:trigger CountsOk(chs, s, g, ch, n)} :: CountsOk(chs, s, g, ch, n))
  }

  lemma EnterKeeps(chs: seq<Channel>, s: State, g: Ghosts, n: nat, ch: nat)
    requires Inv(chs, s, g) && Enabled(chs, s, Enter(n, ch))
    ensures Inv(chs, Next(chs, s, Enter(n, ch)), g.(phase := g.phase[n := Sent(ch)]))
  {
    var s', g' := Next(chs, s, Enter(n, ch)), g.(phase := g.phase[n := Sent(ch)]);
    assert NodeOk(chs, s, g, n);
    forall m ensures NodeOk(chs, s', g', m) { assert NodeOk(chs, s, g, m); }
    forall c, m ensures RequestOk(s', g', c, m) { assert RequestOk(s, g, c, m); }
    forall c ensures ArrivedOk(chs, s', g', c) { assert ArrivedOk(chs, s, g, c); }
    forall c, m ensures CountsOk(chs, s', g', c, m) { assert CountsOk(chs, s, g, c, m); }
  }

  lemma DeliverKeeps(chs: seq<Channel>, s: State, g: Ghosts, n: nat)
    requires Inv(chs, s, g) && Enabled(chs, s, Deliver(n))
    ensures PhaseOf(g, n).Released?
    ensures Inv(chs, Next(chs, s, Deliver(n)), g.(phase := g.phase[n := Ready(PhaseOf(g, n).ch)]))
  {
    assert NodeOk(chs, s, g, n);
    var s', g' := Next(chs, s, Deliver(n)), g.(phase := g.phase[n := Ready(PhaseOf(g, n).ch)]);
    forall m ensures NodeOk(chs, s', g', m) { assert NodeOk(chs, s, g, m); }
    forall c, m ensures RequestOk(s', g', c, m) { assert RequestOk(s, g, c, m); }
    forall c ensures ArrivedOk(chs, s', g', c) { assert ArrivedOk(chs, s, g, c); }
    forall c, m ensures CountsOk(chs, s', g', c, m) { assert CountsOk(chs, s, g, c, m); }
  }

  lemma LeaveKeeps(chs: seq<Channel>, s: State, g: Ghosts, n: nat)
    requires Inv(chs, s, g) && Enabled(chs, s, Leave(n))
    ensures Inv(chs, Next(chs, s, Leave(n)), g.(phase := g.phase[n := Idle]))
  {
    assert NodeOk(chs, s, g, n);
    var s', g' := Next(chs, s, Leave(n)), g.(phase := g.phase[n := Idle]);
    forall m ensures NodeOk(chs, s', g', m) { assert NodeOk(chs, s, g, m); }
    forall c, m ensures RequestOk(s', g', c, m) { assert RequestOk(s, g, c, m); }
    forall c ensures ArrivedOk(chs, s', g', c) { assert ArrivedOk(chs, s, g, c); }
    forall c, m ensures CountsOk(chs, s', g', c, m) { assert CountsOk(chs, s, g, c, m); }
  }

  // A request that does not complete the round.
  lemma RequestKeeps(chs: seq<Channel>, s: State, g: Ghosts, ch: nat, n: nat)
    requires Inv(chs, s, g) && Enabled(chs, s, Request(ch, n))
    requires |s.arrived[ch]| + 1 != |chs[ch].members|
    ensures Inv(chs, Next(chs, s, Request(ch, n)), g.(phase := g.phase[n := Counted(ch)]))
  {
    assert NodeOk(chs, s, g, n) && RequestOk(s, g, ch, n) && ArrivedOk(chs, s, g, ch);
    var s', g' := Next(chs, s, Request(ch, n)), g.(phase := g.phase[n := Counted(ch)]);
    forall m ensures NodeOk(chs, s', g', m) { assert NodeOk(chs, s, g, m); }
    forall c, m ensures RequestOk(s', g', c, m) { assert RequestOk(s, g, c, m); }
    forall c ensures ArrivedOk(chs, s', g', c) { assert ArrivedOk(chs, s, g, c); }
    forall c, m ensures CountsOk(chs, s', g', c, m) { assert CountsOk(chs, s, g, c, m); }
  }

  // Pigeonhole: as many different members as the group has are all of them.
  lemma {:induction false} DistinctCover(xs: seq<nat>, members: set<nat>)
    requires Distinct(xs)
    requires (forall x :: x in xs ==> x in members) && |xs| == |members|
    ensures forall m :: m in members ==> m in xs
    ensures multiset(xs) == multiset(members)
  {
    DistinctElements(xs);
    assert Elements(xs) <= members;
    SubsetSize(Elements(xs), members);
  }

  ghost function Release(phase: map<nat, Phase>, members: set<nat>, ch: nat): map<nat, Phase> {
    phase + map n | n in members :: Released(ch)
  }

  // With the last request of a round, every member's request has been counted.
  lemma RoundIsFull(chs: seq<Channel>, s: State, g: Ghosts, ch: nat, n: nat)
    requires Inv(chs, s, g) && Enabled(chs, s, Request(ch, n))
    requires |s.arrived[ch]| + 1 == |chs[ch].members|
    ensures PhaseOf(g, n) == Sent(ch)
    ensures forall m :: m in chs[ch].members <==> m == n || PhaseOf(g, m) == Counted(ch)
    ensures Answered(chs[ch], s.arrived[ch] + [n]) == multiset(chs[ch].members)
  {
    var members, here := chs[ch].members, s.arrived[ch] + [n];
    assert NodeOk(chs, s, g, n) && RequestOk(s, g, ch, n) && ArrivedOk(chs, s, g, ch);
    forall m | m == n || PhaseOf(g, m) == Counted(ch) ensures m in members { assert NodeOk(chs, s, g, m); }
    DistinctCover(here, members);
  }

  // So every member is released, once.
  lemma LastRequestKeeps(chs: seq<Channel>, s: State, g: Ghosts, ch: nat, n: nat)
    requires Inv(chs, s, g) && Enabled(chs, s, Request(ch, n))
    requires |s.arrived[ch]| + 1 == |chs[ch].members|
    ensures Inv(chs, Next(chs, s, Request(ch, n)),
      Ghosts(Release(g.phase, chs[ch].members, ch), g.rounds[ch := g.rounds[ch] + 1]))
  {
    var members := chs[ch].members;
    RoundIsFull(chs, s, g, ch, n);
    var s' := Next(chs, s, Request(ch, n));
    var g' := Ghosts(Release(g.phase, members, ch), g.rounds[ch := g.rounds[ch] + 1]);
    assert s'.arrived == s.arrived[ch := []] && s'.requests == s.requests - multiset{(ch, n)}
      && s'.answers == s.answers + multiset(members);
    forall m ensures PhaseOf(g', m) == if m in members then Released(ch) else PhaseOf(g, m) {}
    forall m ensures NodeOk(chs, s', g', m) { assert NodeOk(chs, s, g, m); }
    forall c, m ensures RequestOk(s', g', c, m) { assert RequestOk(s, g, c, m); }
    forall c ensures ArrivedOk(chs, s', g', c) { assert ArrivedOk(chs, s, g, c); }
    forall c, m ensures CountsOk(chs, s', g', c, m) { ReleasedCounts(chs, s, g, ch, n, c, m); }
  }

  lemma ReleasedCounts(chs: seq<Channel>, s: State, g: Ghosts, ch: nat, n: nat, c: nat, m: nat)
    requires Inv(chs, s, g) && Enabled(chs, s, Request(ch, n))
    requires |s.arrived[ch]| + 1 == |chs[ch].members|
    ensures CountsOk(chs, Next(chs, s, Request(ch, n)),
      Ghosts(Release(g.phase, chs[ch].members, ch), g.rounds[ch := g.rounds[ch] + 1]), c, m)
  {
    RoundIsFull(chs, s, g, ch, n);
    assert CountsOk(chs, s, g, c, m);
    assert m in chs[ch].members ==> NodeOk(chs, s, g, m);
  }

  // ---------------------------------------------------------------- runs

  ghost predicate Possible(chs: seq<Channel>, s: State, es: seq<Event>)
    decreases |es|
  {
    es != [] ==> Enabled(chs, s, es[0]) && Possible(chs, Next(chs, s, es[0]), es[1..])
  }

  ghost function After(chs: seq<Channel>, s: State, es: seq<Event>): State
    requires Possible(chs, s, es)
    decreases |es|
  {
    if es == [] then s else After(chs, Next(chs, s, es[0]), es[1..])
  }

  lemma NextKeeps(chs: seq<Channel>, s: State, g: Ghosts, e: Event) returns (g': Ghosts)
    requires Inv(chs, s, g) && Enabled(chs, s, e)
    ensures Inv(chs, Next(chs, s, e), g')
  {
    match e {
      case Enter(n, ch) =>
        EnterKeeps(chs, s, g, n, ch);
        g' := g.(phase := g.phase[n := Sent(ch)]);
      case Deliver(n) =>
        DeliverKeeps(chs, s, g, n);
        g' := g.(phase := g.phase[n := Ready(PhaseOf(g, n).ch)]);
      case Leave(n) =>
        LeaveKeeps(chs, s, g, n);
        g' := g.(phase := g.phase[n := Idle]);
      case Request(ch, n) =>
        if |s.arrived[ch]| + 1 == |chs[ch].members| {
          LastRequestKeeps(chs, s, g, ch, n);
          g' := Ghosts(Release(g.phase, chs[ch].members, ch), g.rounds[ch := g.rounds[ch] + 1]);
        } else {
          RequestKeeps(chs, s, g, ch, n);
          g' := g.(phase := g.phase[n := Counted(ch)]);
        }
    }
  }

  lemma {:induction false} RunKeeps(chs: seq<Channel>, s: State, g: Ghosts, es: seq<Event>) returns (g': Ghosts)
    requires Inv(chs, s, g) && Possible(chs, s, es)
    ensures Inv(chs, After(chs, s, es), g')
    decreases |es|
  {
    if es == [] {
      g' := g;
    } else {
      g' := NextKeeps(chs, s, g, es[0]);
      g' := RunKeeps(chs, Next(chs, s, es[0]), g', es[1..]);
    }
  }

  // No node has entered a barrier yet.
  ghost function Initial(chs: seq<Channel>): State {
    State(map[], {}, multiset{}, map ch | ch in Below(|chs|) :: [], multiset{}, map[], map[])
  }

  lemma ReachableInv(chs: seq<Channel>, es: seq<Event>) returns (g: Ghosts)
    requires Balanced(chs) && Possible(chs, Initial(chs), es)
    ensures Inv(chs, After(chs, Initial(chs), es), g)
  {
    var g0 := Ghosts(map[], seq(|chs|, _ => 0));
    var s := Initial(chs);
    forall n ensures NodeOk(chs, s, g0, n) {}
    forall ch, n ensures RequestOk(s, g0, ch, n) && CountsOk(chs, s, g0, ch, n) {}
    forall ch ensures ArrivedOk(chs, s, g0, ch) {}
    g := RunKeeps(chs, s, g0, es);
  }

  // No member leaves its k-th barrier before every member has entered its k-th.
  lemma NoEarlyExit(chs: seq<Channel>, es: seq<Event>, ch: nat, n: nat, m: nat)
    requires Balanced(chs) && Possible(chs, Initial(chs), es)
    requires ch < |chs| && n in chs[ch].members && m in chs[ch].members
    ensures var s := After(chs, Initial(chs), es);
      Count(s.left, ch, n) <= Count(s.entered, ch, m)
  {
    var g := ReachableInv(chs, es);
    var s := After(chs, Initial(chs), es);
    assert CountsOk(chs, s, g, ch, n) && CountsOk(chs, s, g, ch, m);
  }

  // Nobody is forgotten: once all messages are delivered, a node that still
  // cannot leave waits for a member that has not entered this round.
  lemma NobodyForgotten(chs: seq<Channel>, es: seq<Event>, n: nat) returns (m: nat)
    requires Balanced(chs) && Possible(chs, Initial(chs), es)
    requires var s := After(chs, Initial(chs), es);
      s.requests == multiset{} && s.answers == multiset{} && n in s.waiting && n !in s.flag
    ensures var s := After(chs, Initial(chs), es);
      var ch := s.waiting[n];
      ch < |chs| && m in chs[ch].members && Count(s.entered, ch, m) < Count(s.entered, ch, n)
  {
    var g := ReachableInv(chs, es);
    var s := After(chs, Initial(chs), es);
    var ch := s.waiting[n];
    assert NodeOk(chs, s, g, n) && RequestOk(s, g, ch, n) && ArrivedOk(chs, s, g, ch);
    ElementsSize(s.arrived[ch]);
    if chs[ch].members <= Elements(s.arrived[ch]) { SubsetSize(chs[ch].members, Elements(s.arrived[ch])); }
    m :| m in chs[ch].members && m !in Elements(s.arrived[ch]);
    assert RequestOk(s, g, ch, m) && CountsOk(chs, s, g, ch, m) && CountsOk(chs, s, g, ch, n);
  }

  // ---------------------------------------------------------------- the right number

  lemma FirstEvent(chs: seq<Channel>, s: State, e: Event, es: seq<Event>)
    requires Enabled(chs, s, e) && Possible(chs, Next(chs, s, e), es)
    ensures Possible(chs, s, [e] + es) && After(chs, s, [e] + es) == After(chs, Next(chs, s, e), es)
  {
    var all := [e] + es;
    assert all[0] == e && all[1..] == es;
  }

  // The first k of xs have entered and their requests have been counted.
  ghost predicate Half(s: State, xs: seq<nat>, k: nat) {
    && k <= |xs|
    && (forall n :: n in s.waiting <==> n in xs[..k]) && (forall n :: n in s.waiting ==> s.waiting[n] == 0)
    && s.requests == multiset{} && s.answers == multiset{} && s.flag == {} && s.left == map[]
    && s.arrived == map[0 := xs[..k]]
    && (forall n :: Count(s.entered, 0, n) == if n in xs[..k] then 1 else 0)
  }

  // The k-th of xs enters.
  lemma HalfEnters(c: Channel, s: State, xs: seq<nat>, k: nat)
    requires Half(s, xs, k) && k < |xs| && Distinct(xs) && xs[k] in c.members
    ensures Enabled([c], s, Enter(xs[k], 0))
    ensures var s1 := Next([c], s, Enter(xs[k], 0));
      && s1.requests == multiset{(0, xs[k])} && s1.arrived == s.arrived && Enabled([c], s1, Request(0, xs[k]))
  {
    assert xs[k] !in xs[..k];
  }

  lemma HalfNext(c: Channel, s: State, xs: seq<nat>, k: nat)
    requires Half(s, xs, k) && k < |xs| && Distinct(xs) && xs[k] in c.members && k + 1 != c.expected
    requires Enabled([c], s, Enter(xs[k], 0)) && Enabled([c], Next([c], s, Enter(xs[k], 0)), Request(0, xs[k]))
    ensures Half(Next([c], Next([c], s, Enter(xs[k], 0)), Request(0, xs[k])), xs, k + 1)
  {
    assert xs[..k + 1] == xs[..k] + [xs[k]] && xs[k] !in xs[..k];
  }

  // The first of xs has left, and nobody but xs has entered.
  ghost predicate FirstIsOut(s: State, xs: seq<nat>)
    requires xs != []
  {
    Count(s.left, 0, xs[0]) == 1 && forall n :: n !in xs ==> Count(s.entered, 0, n) == 0
  }

  // From there on: the others of xs enter, and then the first leaves.
  lemma {:induction false} HalfRun(c: Channel, s: State, xs: seq<nat>, k: nat) returns (es: seq<Event>)
    requires Distinct(xs) && (forall i :: 0 <= i < |xs| ==> xs[i] in c.members) && |xs| == c.expected
    requires k < |xs| && Half(s, xs, k)
    ensures Possible([c], s, es) && FirstIsOut(After([c], s, es), xs)
    decreases |xs| - k
  {
    var x := xs[k];
    HalfEnters(c, s, xs, k);
    var s1 := Next([c], s, Enter(x, 0));
    var s2 := Next([c], s1, Request(0, x));
    if k + 1 < |xs| {
      HalfNext(c, s, xs, k);
      es := HalfRun(c, s2, xs, k + 1);
    } else {
      LastAnswers(c, s, xs);
      es := Depart(c, s2, xs);
    }
    FirstEvent([c], s1, Request(0, x), es);
    FirstEvent([c], s, Enter(x, 0), [Request(0, x)] + es);
    es := [Enter(x, 0)] + ([Request(0, x)] + es);
  }

  lemma Depart(c: Channel, s: State, xs: seq<nat>) returns (es: seq<Event>)
    requires xs != [] && xs[0] in s.answers && xs[0] in s.waiting && s.waiting[xs[0]] == 0 && s.left == map[]
    requires forall n :: n !in xs ==> Count(s.entered, 0, n) == 0
    ensures Possible([c], s, es) && FirstIsOut(After([c], s, es), xs)
  {
    var n := xs[0];
    FreeToLeave(c, s, n);
    var s1 := Next([c], s, Deliver(n));
    FirstEvent([c], s1, Leave(n), []);
    FirstEvent([c], s, Deliver(n), [Leave(n)] + []);
    es := [Deliver(n)] + ([Leave(n)] + []);
  }

  // When as many nodes as are waited for have entered, the first of them leaves.
  lemma FirstLeaves(c: Channel, xs: seq<nat>) returns (es: seq<Event>)
    requires Distinct(xs) && (forall i :: 0 <= i < |xs| ==> xs[i] in c.members) && |xs| == c.expected > 0
    ensures Possible([c], Initial([c]), es) && FirstIsOut(After([c], Initial([c]), es), xs)
  {
    assert Initial([c]).arrived == map[0 := xs[..0]];
    es := HalfRun(c, Initial([c]), xs, 0);
  }

  lemma FreeToLeave(c: Channel, s: State, n: nat)
    requires n in s.answers && n in s.waiting && s.waiting[n] == 0 && s.left == map[]
    ensures Enabled([c], s, Deliver(n)) && Enabled([c], Next([c], s, Deliver(n)), Leave(n))
    ensures var s' := Next([c], Next([c], s, Deliver(n)), Leave(n));
      Count(s'.left, 0, n) == 1 && s'.entered == s.entered
  {
  }

  // The last request: xs is the list of those who asked.
  lemma LastAnswers(c: Channel, s: State, xs: seq<nat>)
    requires xs != [] && Half(s, xs, |xs| - 1) && Distinct(xs) && (forall i :: 0 <= i < |xs| ==> xs[i] in c.members)
    requires |xs| == c.expected
    requires Enabled([c], s, Enter(xs[|xs| - 1], 0))
    requires Enabled([c], Next([c], s, Enter(xs[|xs| - 1], 0)), Request(0, xs[|xs| - 1]))
    ensures var x := xs[|xs| - 1];
      var s2 := Next([c], Next([c], s, Enter(x, 0)), Request(0, x));
      && xs[0] in s2.answers && xs[0] in s2.waiting && s2.waiting[xs[0]] == 0 && s2.left == map[]
      && forall n :: n !in xs ==> Count(s2.entered, 0, n) == 0
  {
    var k := |xs| - 1;
    var x := xs[k];
    Prefix(xs);
    var s1 := Next([c], s, Enter(x, 0));
    assert s1.arrived[0] + [x] == xs && s1.answers == multiset{};
    InAnswers(c, xs);
    forall n | n !in xs ensures Count(s1.entered, 0, n) == 0 { assert n !in xs[..k]; }
  }

  lemma Prefix(xs: seq<nat>)
    requires xs != []
    ensures xs[..|xs| - 1] + [xs[|xs| - 1]] == xs && (xs[0] == xs[|xs| - 1] || xs[0] in xs[..|xs| - 1])
    ensures forall n :: n in xs[..|xs| - 1] ==> n in xs
  {
    if |xs| > 1 { assert xs[..|xs| - 1][0] == xs[0]; }
  }

  lemma InAnswers(c: Channel, xs: seq<nat>)
    requires xs != [] && forall i :: 0 <= i < |xs| ==> xs[i] in c.members
    ensures xs[0] in Answered(c, xs)
  {
    assert xs[0] in multiset(xs) && xs[0] in multiset(c.members);
  }

  // Some k members of a set.
  lemma {:induction false} SomeOf(members: set<nat>, k: nat) returns (xs: seq<nat>)
    requires k <= |members|
    ensures |xs| == k && Distinct(xs) && forall i :: 0 <= i < |xs| ==> xs[i] in members
  {
    if k == 0 {
      xs := [];
    } else {
      var x :| x in members;
      assert |members - {x}| == |members| - 1;
      xs := SomeOf(members - {x}, k - 1);
      xs := xs + [x];
    }
  }

  // With the wrong number nobody is ever answered.
  ghost predicate Stuck(c: Channel, s: State) {
    && s.answers == multiset{} && s.flag == {} && s.left == map[] && s.arrived.Keys == {0}
    && (forall n :: n in s.waiting ==> n in c.members)
    && (forall n {:trigger Pending(s, n)} :: Pending(s, n) == if n in s.waiting then 1 else 0)
    && (forall r :: r in s.requests ==> r.0 == 0)
  }

  ghost function Pending(s: State, n: nat): nat
    requires 0 in s.arrived
  {
    multiset(s.arrived[0])[n] + s.requests[(0, n)]
  }

  lemma StuckCount(c: Channel, s: State)
    requires Stuck(c, s)
    ensures |s.arrived[0]| <= |c.members| && forall n :: (0, n) in s.requests ==> |s.arrived[0]| < |c.members|
  {
    var xs := s.arrived[0];
    forall x
      ensures multiset(xs)[x] <= 1 && (x in xs ==> x in c.members)
      ensures (0, x) in s.requests ==> x !in xs && x in c.members
    {
      assert Pending(s, x) == if x in s.waiting then 1 else 0;
      assert x in xs <==> x in multiset(xs);
    }
    forall i, j | 0 <= i < j < |xs| ensures xs[i] != xs[j] {
      if xs[i] == xs[j] { TwiceIn(xs, i, j); }
    }
    DistinctElements(xs);
    SubsetSize(Elements(xs), c.members);
    forall n | (0, n) in s.requests ensures |xs| < |c.members| {
      assert n !in Elements(xs);
      SubsetSize(Elements(xs) + {n}, c.members);
    }
  }

  lemma StuckStays(c: Channel, s: State, e: Event)
    requires Stuck(c, s) && Enabled([c], s, e) && (c.expected <= 0 || c.expected > |c.members|)
    ensures Stuck(c, Next([c], s, e))
  {
    StuckCount(c, s);
    var s' := Next([c], s, e);
    forall n ensures Pending(s', n) == if n in s'.waiting then 1 else 0 {
      assert Pending(s, n) == if n in s.waiting then 1 else 0;
    }
  }

  lemma {:induction false} NobodyLeaves(c: Channel, s: State, es: seq<Event>)
    requires Stuck(c, s) && Possible([c], s, es) && (c.expected <= 0 || c.expected > |c.members|)
    ensures Stuck(c, After([c], s, es))
    decreases |es|
  {
    if es != [] {
      StuckStays(c, s, es[0]);
      NobodyLeaves(c, Next([c], s, es[0]), es[1..]);
    }
  }

  // In every run, nobody leaves a barrier before everybody has entered it as often.
  ghost predicate NeverEarly(c: Channel) {
    forall es, n, m :: Possible([c], Initial([c]), es) && n in c.members && m in c.members ==>
      Count(After([c], Initial([c]), es).left, 0, n) <= Count(After([c], Initial([c]), es).entered, 0, m)
  }

  // In some run, somebody leaves.
  ghost predicate CanLeave(c: Channel) {
    exists es, n ::
      Possible([c], Initial([c]), es) && n in c.members && Count(After([c], Initial([c]), es).left, 0, n) > 0
  }

  // When the number waited for can be reached, somebody can leave.
  lemma SomebodyCanLeave(c: Channel)
    requires 0 < c.expected <= |c.members|
    ensures CanLeave(c)
  {
    var xs := SomeOf(c.members, c.expected);
    var es := FirstLeaves(c, xs);
    assert Count(After([c], Initial([c]), es).left, 0, xs[0]) > 0;
  }

  // A barrier holds everybody back and lets them go again exactly when the number
  // of requests waited for is the number of members.
  lemma ExpectedIsMembers(c: Channel)
    requires c.members != {}
    ensures NeverEarly(c) && CanLeave(c) <==> c.expected == |c.members|
  {
    if c.expected <= 0 || c.expected > |c.members| {
      forall es, n | Possible([c], Initial([c]), es) && n in c.members
        ensures Count(After([c], Initial([c]), es).left, 0, n) == 0
      {
        assert Initial([c]).arrived.Keys == {0};
        NobodyLeaves(c, Initial([c]), es);
      }
    } else {
      var xs := SomeOf(c.members, c.expected);
      var es := FirstLeaves(c, xs);
      assert Count(After([c], Initial([c]), es).left, 0, xs[0]) > 0;
      if c.expected < |c.members| {
        DistinctElements(xs);
        if c.members <= Elements(xs) { SubsetSize(c.members, Elements(xs)); }
        var m :| m in c.members && m !in Elements(xs);
        assert Count(After([c], Initial([c]), es).entered, 0, m) == 0;
      } else {
        forall es, n, m | Possible([c], Initial([c]), es) && n in c.members && m in c.members
          ensures Count(After([c], Initial([c]), es).left, 0, n) <= Count(After([c], Initial([c]), es).entered, 0, m)
        {
          NoEarlyExit([c], es, 0, n, m);
        }
      }
    }
  }
}
