/**
  Workers and servers together: a worker's counters are fed by the answers of
  servers that run the batch protocol, so no server answers a timestamp twice and
  a wait that returns means that everything is answered.
 */
module AfSystem {
  import opened Prelude
  import AfBatch
  import B = AfBatchRuns
  import A = AfAnswers
  import R = Responses

  // What has happened at a server: the batches sent to it, the order in which
  // their messages came, and the batches the application responded to.
  datatype ServerRun<T> = ServerRun(bs: seq<seq<AfBatch.Msg<T>>>, sched: seq<nat>, replies: seq<nat>)

  ghost predicate Proper<T>(r: ServerRun<T>) {
    && B.Batches(r.bs) && B.Schedule(r.bs, B.Zeros(|r.bs|), r.sched)
    && var s := B.Run(B.Fresh<T>(), r.bs, B.Zeros(|r.bs|), r.sched);
       s.Some? && A.Replies(r.replies, |s.value.handled|)
  }

  // The messages it has answered.
  ghost function Answered<T>(r: ServerRun<T>): seq<AfBatch.Msg<T>>
    requires Proper(r)
  {
    A.Emitted(B.Run(B.Fresh<T>(), r.bs, B.Zeros(|r.bs|), r.sched).value, r.replies)
  }

  function CountTs<T>(e: seq<AfBatch.Msg<T>>, me: int, ts: nat): nat {
    if e == [] then 0
    else CountTs(e[..|e| - 1], me, ts) + if e[|e| - 1].sender == me && e[|e| - 1].ts == ts then 1 else 0
  }

  lemma {:induction false} CountTsOnce<T>(e: seq<AfBatch.Msg<T>>, me: int, ts: nat)
    requires A.OncePerTimestamp(e)
    ensures CountTs(e, me, ts) <= 1
    ensures CountTs(e, me, ts) == 1 <==> exists i :: 0 <= i < |e| && e[i].sender == me && e[i].ts == ts
  {
    if e != [] {
      CountTsOnce(e[..|e| - 1], me, ts);
    }
  }

  // The answers worker `me` gets to its requests are answers the servers gave, none
  // delivered twice.
  ghost predicate AnswersComeFrom<T(!new)>(es: seq<R.Event>, me: int, runs: nat -> ServerRun<T>) {
    forall ts: nat, s: nat {:trigger ComesFrom(es, me, runs(s), ts, s)} :: ComesFrom(es, me, runs(s), ts, s)
  }

  ghost predicate ComesFrom<T>(es: seq<R.Event>, me: int, r: ServerRun<T>, ts: nat, s: nat) {
    Proper(r) && R.CountAnswers(es, ts, s) <= CountTs(Answered(r), me, ts)
  }

  // Servers that follow the protocol answer each timestamp at most once.
  lemma ServersAnswerOnce<T(!new)>(es: seq<R.Event>, me: int, runs: nat -> ServerRun<T>, ts: nat, s: nat)
    requires AnswersComeFrom(es, me, runs)
    ensures R.CountAnswers(es, ts, s) <= 1
  {
    var r := runs(s);
    assert ComesFrom(es, me, r, ts, s);
    var order := A.AnsweredOnce(r.bs, r.sched, r.replies);
    CountTsOnce(Answered(r), me, ts);
  }

  lemma NoSecond<T(!new)>(es: seq<R.Event>, me: int, runs: nat -> ServerRun<T>)
    requires AnswersComeFrom(es, me, runs)
    ensures R.NoSecondAnswer(es)
  {
    forall ts: nat, s: nat ensures R.CountAnswers(es, ts, s) <= 1 { ServersAnswerOnce(es, me, runs, ts, s); }
  }

  // In every run of a worker against such servers, the counter of a timestamp never
  // exceeds the count and equals it exactly when every server is skipped or counted.
  lemma CounterOverServers<T(!new)>(servers: set<nat>, es: seq<R.Event>, ts: nat, me: int, runs: nat -> ServerRun<T>)
    requires R.Possible(R.Initial(servers), es) && ts < |R.After(R.Initial(servers), es).tracker|
    requires AnswersComeFrom(es, me, runs)
    ensures var w := R.After(R.Initial(servers), es);
      && |w.history| == |w.tracker|
      && w.tracker[ts].responses <= w.tracker[ts].count
      && (R.Complete(w.tracker[ts]) <==>
            forall s :: s in servers ==> s in R.Skipped(w.history[ts]) || s in w.history[ts].counted)
      && (R.Complete(w.tracker[ts]) ==> R.AllAnswered(servers, w.history[ts]))
  {
    forall s: nat ensures R.CountAnswers(es, ts, s) <= 1 { ServersAnswerOnce(es, me, runs, ts, s); }
    R.CounterIsExact(servers, es, ts);
  }

  // When a worker has seen all timestamps of a batch complete, at whatever moments,
  // every server has answered every one of them.
  lemma WaitOverServers<T(!new)>(
      servers: set<nat>, es: seq<R.Event>, batch: seq<nat>, at: seq<nat>, me: int, runs: nat -> ServerRun<T>)
    requires R.Possible(R.Initial(servers), es) && |at| == |batch|
    requires forall i :: 0 <= i < |at| ==> R.SeenComplete(servers, es, at[i], batch[i])
    requires AnswersComeFrom(es, me, runs)
    ensures var w := R.After(R.Initial(servers), es);
      && |w.history| == |w.tracker|
      && forall i :: 0 <= i < |batch| ==> batch[i] < |w.history| && R.AllAnswered(servers, w.history[batch[i]])
  {
    NoSecond(es, me, runs);
    R.BatchWaitIsSound(servers, es, batch, at);
  }

  // ---------------------------------------------------------------- nothing is missing

  // All messages sent to a server have come, and each batch has been responded to.
  ghost predicate Finished<T>(r: ServerRun<T>) {
    && Proper(r)
    && (forall b :: 0 <= b < |r.bs| ==> B.Progress(r.bs, B.Zeros(|r.bs|), r.sched)[b] == |r.bs[b]|)
    && |r.replies| == |B.Run(B.Fresh<T>(), r.bs, B.Zeros(|r.bs|), r.sched).value.handled|
  }

  // A message with this timestamp was sent to the server.
  ghost predicate Asked<T>(r: ServerRun<T>, me: int, ts: int) {
    exists b, j :: 0 <= b < |r.bs| && 0 <= j < |r.bs[b]| && r.bs[b][j].sender == me && r.bs[b][j].ts == ts
  }

  // A finished server has answered each timestamp it was sent exactly once.
  lemma FinishedAnswers<T>(r: ServerRun<T>, me: int, ts: nat)
    requires Finished(r) && Asked(r, me, ts)
    ensures CountTs(Answered(r), me, ts) == 1
  {
    var b: nat, j: nat :| b < |r.bs| && j < |r.bs[b]| && r.bs[b][j].sender == me && r.bs[b][j].ts == ts;
    A.AllAnsweredOnce(r.bs, r.sched, r.replies, b, j);
    var e := Answered(r);
    assert r.bs[b][j] in multiset(e);
    var i :| 0 <= i < |e| && e[i] == r.bs[b][j];
    var order := A.AnsweredOnce(r.bs, r.sched, r.replies);
    CountTsOnce(e, me, ts);
  }

  // Timestamp ts has been dealt with everywhere: every server was sent it and is
  // finished, its answer has come, and every answer that came has been counted.
  ghost predicate Settled<T>(w: R.World, es: seq<R.Event>, ts: int, me: int, runs: nat -> ServerRun<T>) {
    && 0 <= ts < |w.history| && w.history[ts].counted == w.history[ts].answered
    && forall s {:trigger SettledAt(es, ts, me, runs(s), s)} :: s in w.servers ==> SettledAt(es, ts, me, runs(s), s)
  }

  ghost predicate SettledAt<T>(es: seq<R.Event>, ts: nat, me: int, r: ServerRun<T>, s: nat) {
    Finished(r) && Asked(r, me, ts) && R.CountAnswers(es, ts, s) == CountTs(Answered(r), me, ts)
  }

  // Then its counter is complete.
  lemma SettledIsComplete<T(!new)>(
      servers: set<nat>, w: R.World, es: seq<R.Event>, ts: int, me: int, runs: nat -> ServerRun<T>)
    requires R.ReachedBy(servers, es, w) && AnswersComeFrom(es, me, runs) && Settled(w, es, ts, me, runs)
    ensures 0 <= ts < |w.tracker| && R.Complete(w.tracker[ts])
  {
    R.RunKeeps(R.Initial(servers), es);
    NoSecond(es, me, runs);
    R.CounterIsExact(servers, es, ts);
    forall s | s in servers ensures s in w.history[ts].counted {
      var r := runs(s);
      assert SettledAt(es, ts, me, r, s);
      FinishedAnswers(r, me, ts);
      R.AnswersGrow(R.Initial(servers), es, ts, s);
    }
  }

  // Every timestamp of a request is sent to every server.
  lemma RequestAsked<T>(xs: seq<B.Sent<T>>, servers: nat, i: nat, k: nat, ts: int, r: ServerRun<T>)
    requires B.AllLegal(xs, servers) && i < servers && k < |xs| && r.bs == B.Wire(xs, servers, i)
    requires xs[k].t <= ts < xs[k].t + |xs[k].r.pushTs| + |xs[k].r.pullTs|
    ensures Asked(r, xs[k].sender, ts)
  {
    var x := xs[k];
    assert B.Legal(x, servers);
    B.RequestIsBatch(x.r, x.t, x.sender, servers, i);
    var j := ts - x.t;
    assert r.bs[k][j].sender == x.sender && r.bs[k][j].ts == ts;
  }
}
