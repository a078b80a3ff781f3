/**
  Response counting (comm/src/customer.cc, KVWorker::Send in
  comm/include/ps/kv_app.h): a request's counter is raised once for all the
  servers that are skipped and once per answer, after the answer's handler has
  run.  A run is any interleaving of these events.  Nothing here keeps a server
  from answering twice: that it does not is proved of the servers themselves.
 */
module Responses {
  import opened Prelude

  // CustomerTracker
  datatype Tracker = Tracker(count: nat, responses: nat)

  // What has happened to a request: the servers skipped (once decided), those
  // sent to, the answers given, those whose handler has run, and those counted.
  datatype History = History(
    skipped: Option<set<nat>>, sent: set<nat>, answered: multiset<nat>, handled: multiset<nat>, counted: multiset<nat>)

  datatype World = World(servers: set<nat>, tracker: seq<Tracker>, history: seq<History>)

  datatype Event =
    | NewRequest
    | Skip(ts: nat, which: set<nat>)     // AddResponse(ts, skipped), before any send
    | SendTo(ts: nat, server: nat)
    | Answer(ts: nat, server: nat)       // the server answers a request it got
    | RunHandler(ts: nat, server: nat)   // recv_handle_
    | CountUp(ts: nat, server: nat)      // response_count.fetch_add(1)

  ghost function Skipped(h: History): set<nat> {
    if h.skipped.Some? then h.skipped.value else {}
  }

  ghost predicate Enabled(w: World, e: Event) {
    e.NewRequest? ||
    (e.ts < |w.history| == |w.tracker| &&
     var h := w.history[e.ts];
     match e
     case Skip(_, which) => h.skipped.None? && h.sent == {} && which <= w.servers
     case SendTo(_, s) => s in w.servers && s !in h.sent && s !in Skipped(h)
     case Answer(_, s) => s in h.sent
     case RunHandler(_, s) => h.handled[s] < h.answered[s]
     case CountUp(_, s) => h.counted[s] < h.handled[s])
  }

  ghost function Put(w: World, ts: nat, h: History): World
    requires ts < |w.history|
  {
    w.(history := w.history[ts := h])
  }

  ghost function Raise(w: World, ts: nat, num: nat): World
    requires ts < |w.tracker|
  {
    w.(tracker := w.tracker[ts := w.tracker[ts].(responses := w.tracker[ts].responses + num)])
  }

  ghost function Next(w: World, e: Event): World
    requires Enabled(w, e)
  {
    match e
    case NewRequest =>
      w.(tracker := w.tracker + [Tracker(|w.servers|, 0)],
         history := w.history + [History(None, {}, multiset{}, multiset{}, multiset{})])
    case Skip(ts, which) => Put(Raise(w, ts, |which|), ts, w.history[ts].(skipped := Some(which)))
    case SendTo(ts, s) => Put(w, ts, w.history[ts].(sent := w.history[ts].sent + {s}))
    case Answer(ts, s) => Put(w, ts, w.history[ts].(answered := w.history[ts].answered + multiset{s}))
    case RunHandler(ts, s) => Put(w, ts, w.history[ts].(handled := w.history[ts].handled + multiset{s}))
    case CountUp(ts, s) => Put(Raise(w, ts, 1), ts, w.history[ts].(counted := w.history[ts].counted + multiset{s}))
  }

  ghost predicate Possible(w: World, es: seq<Event>)
    decreases |es|
  {
    es != [] ==> Enabled(w, es[0]) && Possible(Next(w, es[0]), es[1..])
  }

  ghost function After(w: World, es: seq<Event>): World
    requires Possible(w, es)
    decreases |es|
  {
    if es == [] then w else After(Next(w, es[0]), es[1..])
  }

  ghost function Initial(servers: set<nat>): World {
    World(servers, [], [])
  }

  // ---------------------------------------------------------------- invariant

  ghost predicate Counted(servers: set<nat>, t: Tracker, h: History) {
    && t.count == |servers|
    && t.responses == |Skipped(h)| + |h.counted|
    && h.counted <= h.handled <= h.answered
    && (forall s :: s in h.answered ==> s in h.sent)
    && h.sent <= servers && Skipped(h) <= servers && Skipped(h) !! h.sent
  }

  ghost predicate Inv(w: World) {
    |w.tracker| == |w.history| && forall ts :: 0 <= ts < |w.tracker| ==>
      Counted(w.servers, w.tracker[ts], w.history[ts])
  }

  lemma SkipKeeps(servers: set<nat>, t: Tracker, h: History, which: set<nat>)
    requires Counted(servers, t, h) && h.skipped.None? && h.sent == {} && which <= servers
    ensures Counted(servers, t.(responses := t.responses + |which|), h.(skipped := Some(which)))
  {
  }

  lemma SendKeeps(servers: set<nat>, t: Tracker, h: History, s: nat)
    requires Counted(servers, t, h) && s in servers && s !in h.sent && s !in Skipped(h)
    ensures Counted(servers, t, h.(sent := h.sent + {s}))
  {
  }

  lemma AnswerKeeps(servers: set<nat>, t: Tracker, h: History, s: nat)
    requires Counted(servers, t, h) && s in h.sent
    ensures Counted(servers, t, h.(answered := h.answered + multiset{s}))
  {
  }

  lemma HandlerKeeps(servers: set<nat>, t: Tracker, h: History, s: nat)
    requires Counted(servers, t, h) && h.handled[s] < h.answered[s]
    ensures Counted(servers, t, h.(handled := h.handled + multiset{s}))
  {
  }

  lemma CountUpKeeps(servers: set<nat>, t: Tracker, h: History, s: nat)
    requires Counted(servers, t, h) && h.counted[s] < h.handled[s]
    ensures Counted(servers, t.(responses := t.responses + 1), h.(counted := h.counted + multiset{s}))
  {
  }

  lemma PutKeeps(w: World, ts: nat, t: Tracker, h: History)
    requires Inv(w) && ts < |w.tracker| && Counted(w.servers, t, h)
    ensures Inv(w.(tracker := w.tracker[ts := t], history := w.history[ts := h]))
  {
  }

  lemma NextKeeps(w: World, e: Event)
    requires Inv(w) && Enabled(w, e)
    ensures Inv(Next(w, e))
  {
    match e
    case NewRequest => NewKeeps(w);
    case Skip(ts, which) => SkipKeeps(w.servers, w.tracker[ts], w.history[ts], which); OldKeeps(w, e);
    case SendTo(ts, s) => SendKeeps(w.servers, w.tracker[ts], w.history[ts], s); OldKeeps(w, e);
    case Answer(ts, s) => AnswerKeeps(w.servers, w.tracker[ts], w.history[ts], s); OldKeeps(w, e);
    case RunHandler(ts, s) => HandlerKeeps(w.servers, w.tracker[ts], w.history[ts], s); OldKeeps(w, e);
    case CountUp(ts, s) => CountUpKeeps(w.servers, w.tracker[ts], w.history[ts], s); OldKeeps(w, e);
  }

  lemma NewKeeps(w: World)
    requires Inv(w)
    ensures Inv(Next(w, NewRequest))
  {
  }

  lemma OldKeeps(w: World, e: Event)
    requires Inv(w) && Enabled(w, e) && !e.NewRequest?
    requires |Next(w, e).tracker| == |Next(w, e).history| == |w.tracker|
    requires Counted(w.servers, Next(w, e).tracker[e.ts], Next(w, e).history[e.ts])
    ensures Inv(Next(w, e))
  {
    var t, h := Next(w, e).tracker[e.ts], Next(w, e).history[e.ts];
    PutKeeps(w, e.ts, t, h);
    assert Next(w, e).tracker == w.tracker[e.ts := t] && Next(w, e).history == w.history[e.ts := h];
  }

  // How many answers server s has given to request ts.
  ghost function AnswersAt(w: World, ts: nat, s: nat): nat {
    if ts < |w.history| then w.history[ts].answered[s] else 0
  }

  ghost function CountAnswers(es: seq<Event>, ts: nat, s: nat): nat {
    if es == [] then 0 else (if es[0] == Answer(ts, s) then 1 else 0) + CountAnswers(es[1..], ts, s)
  }

  lemma {:induction false} RunKeeps(w: World, es: seq<Event>)
    requires Inv(w) && Possible(w, es)
    ensures Inv(After(w, es)) && After(w, es).servers == w.servers && |After(w, es).tracker| >= |w.tracker|
    decreases |es|
  {
    if es != [] {
      NextKeeps(w, es[0]);
      RunKeeps(Next(w, es[0]), es[1..]);
    }
  }

  lemma AnswersStep(w: World, e: Event, ts: nat, s: nat)
    requires Enabled(w, e)
    ensures AnswersAt(Next(w, e), ts, s) == AnswersAt(w, ts, s) + if e == Answer(ts, s) then 1 else 0
  {
  }

  // A run's answers are those it had and those it makes.
  lemma {:induction false} AnswersGrow(w: World, es: seq<Event>, ts: nat, s: nat)
    requires Inv(w) && Possible(w, es)
    ensures AnswersAt(After(w, es), ts, s) == AnswersAt(w, ts, s) + CountAnswers(es, ts, s)
    decreases |es|
  {
    if es != [] {
      NextKeeps(w, es[0]);
      AnswersStep(w, es[0], ts, s);
      AnswersGrow(Next(w, es[0]), es[1..], ts, s);
    }
  }

  // Counters only grow.
  lemma {:induction false} ResponsesGrow(w: World, es: seq<Event>, ts: nat)
    requires Inv(w) && Possible(w, es) && ts < |w.tracker|
    ensures ts < |After(w, es).tracker| && After(w, es).tracker[ts].responses >= w.tracker[ts].responses
    decreases |es|
  {
    if es != [] {
      NextKeeps(w, es[0]);
      ResponsesGrow(Next(w, es[0]), es[1..], ts);
    }
  }

  // ---------------------------------------------------------------- theorems

  // The condition WaitRequest spins on.
  predicate Complete(t: Tracker) {
    t.count == t.responses
  }

  // Every server has been skipped, or has answered and had its answer handled.
  ghost predicate AllAnswered(servers: set<nat>, h: History) {
    forall s :: s in servers ==> s in Skipped(h) || (s in h.answered && s in h.handled)
  }

  // No server has answered request ts twice.
  ghost predicate Once(h: History) {
    forall s :: h.answered[s] <= 1
  }

  ghost function Support(m: multiset<nat>): set<nat> {
    set s | s in m
  }

  // A multiset is at least as large as its support, and just as large when no
  // element is repeated.
  lemma SupportSize(m: multiset<nat>)
    ensures |Support(m)| <= |m|
    ensures |Support(m)| == |m| <==> forall s :: m[s] <= 1
  {
    var rest := m - multiset(Support(m));
    assert m == multiset(Support(m)) + rest;
    if rest == multiset{} {
      forall s ensures m[s] <= 1 { assert m[s] == multiset(Support(m))[s] + rest[s]; }
    } else {
      var s :| s in rest;
      assert m[s] >= 2;
    }
  }

  lemma CountedExact(servers: set<nat>, t: Tracker, h: History)
    requires Counted(servers, t, h) && Once(h)
    ensures t.responses <= t.count
    ensures Complete(t) <==> forall s :: s in servers ==> s in Skipped(h) || s in h.counted
    ensures Complete(t) ==> AllAnswered(servers, h)
  {
    var c := Support(h.counted);
    SupportSize(h.counted);
    assert |c| == |h.counted| by { forall s ensures h.counted[s] <= 1 { assert h.counted[s] <= h.answered[s]; } }
    assert Skipped(h) !! c;
    SubsetSize(Skipped(h) + c, servers);
    assert |Skipped(h) + c| == |Skipped(h)| + |c|;
    assert Skipped(h) + c == servers <==> forall s :: s in servers ==> s in Skipped(h) || s in h.counted;
  }

  // No server answers a request twice.
  ghost predicate NoSecondAnswer(es: seq<Event>) {
    forall ts, s {:trigger CountAnswers(es, ts, s)} :: CountAnswers(es, ts, s) <= 1
  }

  // A world that these events lead to.
  ghost predicate ReachedBy(servers: set<nat>, es: seq<Event>, w: World) {
    Possible(Initial(servers), es) && After(Initial(servers), es) == w
  }

  // In every run in which no server answers twice, the counter stays within the
  // count, and it reaches the count exactly when each server is skipped or its
  // answer has been counted.
  lemma CounterIsExact(servers: set<nat>, es: seq<Event>, ts: nat)
    requires Possible(Initial(servers), es) && ts < |After(Initial(servers), es).tracker|
    requires forall s :: CountAnswers(es, ts, s) <= 1
    ensures var w := After(Initial(servers), es);
      && |w.history| == |w.tracker|
      && w.tracker[ts].responses <= w.tracker[ts].count
      && (Complete(w.tracker[ts]) <==>
        forall s :: s in servers ==> s in Skipped(w.history[ts]) || s in w.history[ts].counted)
      && (Complete(w.tracker[ts]) ==> AllAnswered(servers, w.history[ts]))
  {
    var w := After(Initial(servers), es);
    RunKeeps(Initial(servers), es);
    forall s ensures w.history[ts].answered[s] <= 1 { AnswersGrow(Initial(servers), es, ts, s); }
    CountedExact(servers, w.tracker[ts], w.history[ts]);
  }

  // It takes that condition: when every server is skipped or counted, the wait
  // can end exactly when no answer was counted twice; the counter never falls.
  lemma TwiceNeverCompletes(servers: set<nat>, es: seq<Event>, ts: nat)
    requires Possible(Initial(servers), es) && ts < |After(Initial(servers), es).tracker|
    requires var w := After(Initial(servers), es);
      |w.history| == |w.tracker| && forall s :: s in servers ==>
        s in Skipped(w.history[ts]) || s in w.history[ts].counted
    ensures var w := After(Initial(servers), es);
      && (Complete(w.tracker[ts]) <==> forall s :: w.history[ts].counted[s] <= 1)
      && w.tracker[ts].responses >= w.tracker[ts].count
  {
    RunKeeps(Initial(servers), es);
    var w := After(Initial(servers), es);
    var h := w.history[ts];
    assert Counted(servers, w.tracker[ts], h);
    SupportSize(h.counted);
    assert Skipped(h) !! Support(h.counted);
    assert Skipped(h) + Support(h.counted) == servers by {
      forall s | s in Support(h.counted) ensures s in servers { assert h.counted[s] <= h.answered[s]; }
    }
    assert |Skipped(h) + Support(h.counted)| == |Skipped(h)| + |Support(h.counted)|;
  }

  lemma {:induction false} OneMoreEvent(w: World, es: seq<Event>, e: Event)
    requires Possible(w, es) && Enabled(After(w, es), e)
    ensures Possible(w, es + [e]) && After(w, es + [e]) == Next(After(w, es), e)
    decreases |es|
  {
    if es == [] {
      assert [e][1..] == [] && es + [e] == [e];
    } else {
      OneMoreEvent(Next(w, es[0]), es[1..], e);
      assert (es + [e])[1..] == es[1..] + [e];
    }
  }

  // And a server that answers twice can stand in for one that has not answered.
  lemma TwiceEndsEarly() returns (es: seq<Event>)
    ensures Possible(Initial({0, 1}), es)
    ensures var w := After(Initial({0, 1}), es);
      |w.tracker| == |w.history| == 1 && Complete(w.tracker[0]) && !AllAnswered({0, 1}, w.history[0])
  {
    var w := Initial({0, 1});
    assert |w.servers| == 2;
    es := [];
    OneMoreEvent(w, es, NewRequest);
    es := es + [NewRequest];
    OneMoreEvent(w, es, SendTo(0, 0));
    es := es + [SendTo(0, 0)];
    OneMoreEvent(w, es, Answer(0, 0));
    es := es + [Answer(0, 0)];
    OneMoreEvent(w, es, Answer(0, 0));
    es := es + [Answer(0, 0)];
    OneMoreEvent(w, es, RunHandler(0, 0));
    es := es + [RunHandler(0, 0)];
    OneMoreEvent(w, es, RunHandler(0, 0));
    es := es + [RunHandler(0, 0)];
    OneMoreEvent(w, es, CountUp(0, 0));
    es := es + [CountUp(0, 0)];
    OneMoreEvent(w, es, CountUp(0, 0));
    es := es + [CountUp(0, 0)];
    assert 1 !in After(w, es).history[0].answered;
  }

  // ---------------------------------------------------------------- waiting

  lemma {:induction false} AfterConcat(w: World, es: seq<Event>, k: nat)
    requires Possible(w, es) && k <= |es|
    ensures Possible(w, es[..k]) && Possible(After(w, es[..k]), es[k..])
    ensures After(After(w, es[..k]), es[k..]) == After(w, es)
    decreases k
  {
    if k == 0 {
      assert es[0..] == es;
    } else {
      AfterConcat(Next(w, es[0]), es[1..], k - 1);
      assert es[1..][..k - 1] == es[..k][1..] && es[1..][k - 1..] == es[k..];
    }
  }

  ghost predicate SeenComplete(servers: set<nat>, es: seq<Event>, k: nat, ts: nat) {
    && k <= |es| && Possible(Initial(servers), es[..k])
    && var w := After(Initial(servers), es[..k]);
       ts < |w.tracker| && Complete(w.tracker[ts])
  }

  // A request seen complete stays complete, while no server answers twice.
  lemma StaysComplete(servers: set<nat>, es: seq<Event>, k: nat, ts: nat)
    requires Possible(Initial(servers), es) && SeenComplete(servers, es, k, ts)
    requires forall s :: CountAnswers(es, ts, s) <= 1
    ensures ts < |After(Initial(servers), es).tracker| && Complete(After(Initial(servers), es).tracker[ts])
  {
    var w0 := Initial(servers);
    AfterConcat(w0, es, k);
    RunKeeps(w0, es[..k]);
    RunKeeps(w0, es);
    var w := After(w0, es[..k]);
    ResponsesGrow(w, es[k..], ts);
    CounterIsExact(servers, es, ts);
    assert Counted(servers, w.tracker[ts], w.history[ts]);
    assert Counted(servers, After(w0, es).tracker[ts], After(w0, es).history[ts]);
  }

  // AFTensorWorker::Wait sees the requests of a batch complete one after the
  // other, at moments `at` of the run.  When the last has been seen, every push
  // and pull of the batch is answered by every server.
  lemma BatchWaitIsSound(servers: set<nat>, es: seq<Event>, batch: seq<nat>, at: seq<nat>)
    requires Possible(Initial(servers), es) && |at| == |batch|
    requires forall i :: 0 <= i < |at| ==> SeenComplete(servers, es, at[i], batch[i])
    requires NoSecondAnswer(es)
    ensures var w := After(Initial(servers), es);
      |w.history| == |w.tracker| &&
      forall i :: 0 <= i < |batch| ==> batch[i] < |w.history| && AllAnswered(servers, w.history[batch[i]])
  {
    RunKeeps(Initial(servers), es);
    var w := After(Initial(servers), es);
    forall i | 0 <= i < |batch| ensures batch[i] < |w.history| && AllAnswered(servers, w.history[batch[i]]) {
      StaysComplete(servers, es, at[i], batch[i]);
      CounterIsExact(servers, es, batch[i]);
    }
  }
}
