/**
  The worker's side of a batch (comm/include/ps/af_tensor_app.h): timestamps
  come from the customer's request table, the timestamps of a batch are kept in
  the hash map, and Wait looks them up, waits for each and forgets the batch.
 */
module AfWorker {
  import opened Prelude
  import opened HashMapModel
  import opened Responses
  import AfSystem
  import AfBatch
  import AfBatchRuns

  /** comm/src/customer.cc; the ghost world records what the counters stand for. */
  class Customer {
    var tracker: seq<Tracker>
    const numServers: nat
    ghost var w: World
    // what has happened so far, here and at the servers
    ghost var events: seq<Event>

    // The counters are those of the world that the events have led to.
    ghost predicate Valid()
      reads this
    {
      && Inv(w) && w.tracker == tracker && w.servers == Below(numServers)
      && ReachedBy(Below(numServers), events, w)
    }

    constructor (numServers: nat)
      ensures Valid() && tracker == [] && this.numServers == numServers
      ensures w == Initial(Below(numServers)) && events == []
    {
      tracker, this.numServers, events := [], numServers, [];
      w := Initial(Below(numServers));
    }

    // One event more.
    ghost method Happen(e: Event)
      requires Inv(w) && ReachedBy(Below(numServers), events, w) && Enabled(w, e)
      modifies this`w, this`events
      ensures Inv(w) && ReachedBy(Below(numServers), events, w)
      ensures w == Next(old(w), e) && events == old(events) + [e] && w.servers == old(w).servers
    {
      NextKeeps(w, e);
      OneMoreEvent(Initial(Below(numServers)), events, e);
      w, events := Next(w, e), events + [e];
    }

    method NewRequest() returns (ts: nat)
      requires Valid()
      modifies this
      ensures Valid() && ts == |old(tracker)| && tracker == old(tracker) + [Tracker(numServers, 0)]
      ensures w == Next(old(w), Event.NewRequest) && events == old(events) + [Event.NewRequest]
    {
      Happen(Event.NewRequest);
      tracker := tracker + [Tracker(numServers, 0)];
      ts := |tracker| - 1;
    }

    // KVWorker::Send counts the servers without keys before it sends anything.
    method AddResponse(ts: nat, num: nat, ghost which: set<nat>)
      requires Valid() && num == |which| && Enabled(w, Skip(ts, which))
      modifies this
      ensures Valid() && w == Next(old(w), Skip(ts, which)) && events == old(events) + [Skip(ts, which)]
    {
      Happen(Skip(ts, which));
      tracker := tracker[ts := tracker[ts].(responses := tracker[ts].responses + num)];
    }

    // Sending and the servers' answers go on outside.
    ghost method Outside(e: Event)
      requires Valid() && Enabled(w, e) && (e.SendTo? || e.Answer?)
      modifies this`w, this`events
      ensures Valid() && w == Next(old(w), e) && events == old(events) + [e]
    {
      Happen(e);
    }

    // Run the receive handler, then count the answer.
    method DirectProcess(ts: nat, server: nat)
      requires Valid() && Enabled(w, RunHandler(ts, server))
      modifies this
      ensures Valid() && Possible(old(w), [RunHandler(ts, server), CountUp(ts, server)])
      ensures w == Next(Next(old(w), RunHandler(ts, server)), CountUp(ts, server))
      ensures events == old(events) + [RunHandler(ts, server)] + [CountUp(ts, server)]
    {
      assert Counted(w.servers, w.tracker[ts], w.history[ts]);
      assert w.history[ts].counted[server] <= w.history[ts].handled[server];
      Happen(RunHandler(ts, server));
      Happen(CountUp(ts, server));
      tracker := tracker[ts := tracker[ts].(responses := tracker[ts].responses + 1)];
    }

    // A complete counter means that every server has answered, if none answers twice.
    lemma CompleteIsAnswered(ts: nat)
      requires Valid() && NoSecondAnswer(events) && ts < |tracker| && Complete(tracker[ts])
      ensures ts < |w.history| && AllAnswered(w.servers, w.history[ts])
    {
      CounterIsExact(Below(numServers), events, ts);
    }
  }

  // k, k+1, ..., k+n-1
  function From(k: int, n: nat): seq<int> {
    seq(n, i requires 0 <= i < n => k + i)
  }

  // The two allocation loops; `timestamps` leaves out the first.  Without any push
  // or pull the batch starts at 0.
  method Stamp(kv: Customer, pushes: nat, shares: nat)
    returns (startTs: int, pushTs: seq<int>, pullTs: seq<int>, timestamps: seq<int>)
    requires kv.Valid()
    modifies kv
    ensures kv.Valid() && startTs == if pushes + shares == 0 then 0 else |old(kv.tracker)|
    ensures pushTs == From(|old(kv.tracker)|, pushes) && pullTs == From(|old(kv.tracker)| + pushes, shares)
    ensures timestamps == Tail(pushTs + pullTs)
    ensures |kv.tracker| == |old(kv.tracker)| + pushes + shares && old(kv.tracker) <= kv.tracker
  {
    var first;
    startTs, pushTs, timestamps, first := StampPushes(kv, pushes);
    ghost var k := |kv.tracker|;
    pullTs := [];
    for i := 0 to shares
      invariant kv.Valid() && |kv.tracker| == k + i && old(kv.tracker) <= kv.tracker
      invariant pullTs == From(k, i) && timestamps == Tail(pushTs + pullTs)
      invariant startTs == if pushes + i == 0 then 0 else |old(kv.tracker)|
    {
      var ts := kv.NewRequest();
      if first && i == 0 {
        startTs := ts;
      } else {
        timestamps := timestamps + [ts];
      }
      assert pushTs + (pullTs + [ts]) == (pushTs + pullTs) + [ts];
      pullTs := pullTs + [ts];
    }
  }

  method StampPushes(
      kv: Customer, pushes: nat) returns (startTs: int, pushTs: seq<int>, timestamps: seq<int>, first: bool)
    requires kv.Valid()
    modifies kv
    ensures kv.Valid() && first == (pushes == 0) && startTs == if pushes == 0 then 0 else |old(kv.tracker)|
    ensures pushTs == From(|old(kv.tracker)|, pushes) && timestamps == Tail(pushTs)
    ensures |kv.tracker| == |old(kv.tracker)| + pushes && old(kv.tracker) <= kv.tracker
  {
    first, pushTs, startTs, timestamps := true, [], 0, [];
    ghost var k := |kv.tracker|;
    for i := 0 to pushes
      invariant kv.Valid() && |kv.tracker| == k + i && old(kv.tracker) <= kv.tracker
      invariant pushTs == From(k, i) && first == (i == 0)
      invariant timestamps == Tail(pushTs) && startTs == if i == 0 then 0 else k
    {
      var ts := kv.NewRequest();
      if i == 0 {
        first, startTs := false, ts;
      } else {
        timestamps := timestamps + [ts];
      }
      pushTs := pushTs + [ts];
    }
  }

  function Tail(s: seq<int>): seq<int> {
    if s == [] then [] else s[1..]
  }

  // The timestamps that a wait for ts is about.
  ghost function Waits(batches: map<int, seq<int>>, ts: int): seq<int> {
    [ts] + if ts in batches then batches[ts] else []
  }

  ghost predicate AllComplete(tracker: seq<Tracker>, batch: seq<int>) {
    forall x :: x in batch ==> 0 <= x < |tracker| && Complete(tracker[x])
  }

  // How many of the pulls a server gets.
  function Share(pulls: nat, servers: nat): nat {
    if servers == 0 then 0 else pulls / servers
  }

  // A request with these timestamps is stamped as the batch protocol expects.
  lemma {:induction false} StampedRequest<T>(r: AfBatch.Request<T>, sender: int, n: nat, servers: nat)
    requires servers > 0 && r.pushTs == From(n, |r.push|)
    requires r.pullTs == From(n + |r.push|, Share(|r.pull|, servers))
    requires AfBatch.Deliverable(|r.push|, |r.pull|, servers)
    ensures AfBatchRuns.Legal(AfBatchRuns.Sent(sender, n, r), servers)
  {
  }

  // Remembered batches, when n timestamps have been allocated.
  ghost predicate BatchesOk(batches: map<int, seq<int>>, n: nat) {
    forall t :: t in batches ==> BatchOk(batches[t], t, n)
  }

  ghost predicate BatchOk(batch: seq<int>, t: int, n: nat) {
    (0 <= t < n || (t == 0 && batch == [])) && forall i :: 0 <= i < |batch| ==> 0 <= batch[i] < n
  }

  // A batch of `more` timestamps from n on is remembered.
  lemma BatchesMore(batches: map<int, seq<int>>, n: nat, more: nat, all: seq<int>)
    requires BatchesOk(batches, n) && all == From(n, more)
    ensures BatchesOk(batches[(if more == 0 then 0 else n) := Tail(all)], n + more)
    ensures n > 0 ==> n !in batches
  {
    var n', start := n + more, if more == 0 then 0 else n;
    var batches' := batches[start := Tail(all)];
    forall t | t in batches' ensures BatchOk(batches'[t], t, n') {
      if t != start { assert BatchOk(batches[t], t, n); }
    }
    assert n in batches ==> BatchOk(batches[n], n, n);
  }

  lemma FromJoin(k: int, a: nat, b: nat)
    ensures From(k, a) + From(k + a, b) == From(k, a + b)
    ensures a + b > 0 ==> From(k, a + b) != [] && From(k, a + b)[0] == k
  {
  }

  class AFTensorWorker {
    const kv: Customer
    const batchTimestamps: HashMap<int, seq<int>>
    const servers: nat

    // Batches are remembered under their first timestamp, which was allocated; only
    // a request without pushes and shares is remembered as an empty batch under 0.
    ghost predicate Valid()
      reads this, kv, batchTimestamps, batchTimestamps.index, batchTimestamps.pairs
    {
      && kv.Valid() && batchTimestamps.Valid() && servers > 0 && kv.numServers == servers
      && BatchesOk(batchTimestamps.Contents, |kv.tracker|)
    }

    // A batch is remembered: all its timestamps but the first, under the first.
    ghost predicate Remembers(batch: seq<int>)
      reads batchTimestamps
    {
      batch != [] && batch[0] in batchTimestamps.Contents && batchTimestamps.Contents[batch[0]] == batch[1..]
    }

    constructor (servers: nat, hasher: int -> nat)
      requires servers > 0
      ensures Valid() && this.servers == servers && batchTimestamps.Contents == map[] && kv.tracker == []
    {
      this.servers := servers;
      kv := new Customer(servers);
      batchTimestamps := new HashMap<int, seq<int>>(hasher, []);
    }

    // Stamp a request of some pushes and pulls; the pulls are shared out evenly.
    // emplace_unique demands that the first timestamp is not remembered already, which
    // can only fail at 0, after a request without pushes and shares.
    method ZBatchPushPull(pushes: nat, pulls: nat) returns (startTs: int, pushTs: seq<int>, pullTs: seq<int>)
      requires Valid() && RequiredBuckets(batchTimestamps.numFilled) + 2 < MAX_SIZE
      requires pushes + Share(pulls, servers) == 0 || kv.tracker == [] ==> 0 !in batchTimestamps.Contents
      modifies kv, batchTimestamps, batchTimestamps.index, batchTimestamps.pairs
      ensures Valid() && startTs == if pushes + Share(pulls, servers) == 0 then 0 else |old(kv.tracker)|
      ensures pushTs == From(|old(kv.tracker)|, pushes)
      ensures pullTs == From(|old(kv.tracker)| + pushes, Share(pulls, servers))
      ensures |kv.tracker| == |old(kv.tracker)| + pushes + Share(pulls, servers) && old(kv.tracker) <= kv.tracker
      ensures batchTimestamps.Contents == old(batchTimestamps.Contents)[startTs := Tail(pushTs + pullTs)]
      ensures pushes + Share(pulls, servers) > 0 ==> Remembers(pushTs + pullTs)
    {
      ghost var n, more := |kv.tracker|, pushes + Share(pulls, servers);
      var timestamps;
      startTs, pushTs, pullTs, timestamps := StampBatch(pushes, pulls);
      Remember(startTs, timestamps, n, more, pushTs + pullTs);
    }

    // The stamping alone, which leaves the remembered batches as they are.
    method StampBatch(pushes: nat, pulls: nat)
      returns (startTs: int, pushTs: seq<int>, pullTs: seq<int>, timestamps: seq<int>)
      requires kv.Valid()
      modifies kv
      ensures kv.Valid()
      ensures startTs == if pushes + Share(pulls, servers) == 0 then 0 else |old(kv.tracker)|
      ensures pushTs == From(|old(kv.tracker)|, pushes)
      ensures pullTs == From(|old(kv.tracker)| + pushes, Share(pulls, servers))
      ensures pushTs + pullTs == From(|old(kv.tracker)|, pushes + Share(pulls, servers))
      ensures timestamps == Tail(pushTs + pullTs) && (pushTs + pullTs != [] ==> (pushTs + pullTs)[0] == startTs)
      ensures |kv.tracker| == |old(kv.tracker)| + pushes + Share(pulls, servers) && old(kv.tracker) <= kv.tracker
    {
      var shares := Share(pulls, servers);
      FromJoin(|kv.tracker|, pushes, shares);
      startTs, pushTs, pullTs, timestamps := Stamp(kv, pushes, shares);
    }

    // batch_timestamps_.emplace_unique(start_ts, timestamps)
    method Remember(startTs: int, timestamps: seq<int>, ghost n: nat, ghost more: nat, ghost all: seq<int>)
      requires kv.Valid() && servers > 0 && kv.numServers == servers && |kv.tracker| == n + more
      requires batchTimestamps.Valid() && RequiredBuckets(batchTimestamps.numFilled) + 2 < MAX_SIZE
      requires BatchesOk(batchTimestamps.Contents, n) && all == From(n, more) && timestamps == Tail(all)
      requires startTs == (if more == 0 then 0 else n) && (startTs == 0 ==> 0 !in batchTimestamps.Contents)
      modifies batchTimestamps, batchTimestamps.index, batchTimestamps.pairs
      ensures Valid() && batchTimestamps.Contents == old(batchTimestamps.Contents)[startTs := timestamps]
    {
      BatchesMore(batchTimestamps.Contents, n, more, all);
      var bucket := batchTimestamps.InsertUnique(startTs, timestamps);
    }

    // One look at what Wait spins on: false while the code would still spin.  When it
    // returns and no server answers twice, every server has answered every timestamp
    // of the batch.
    method Wait(ts: int) returns (returned: bool)
      requires Valid() && 0 <= ts < |kv.tracker|
      modifies batchTimestamps, batchTimestamps.index, batchTimestamps.pairs
      ensures Valid() && returned == AllComplete(kv.tracker, Waits(old(batchTimestamps.Contents), ts))
      ensures batchTimestamps.Contents ==
        if returned then old(batchTimestamps.Contents) - {ts} else old(batchTimestamps.Contents)
      ensures returned && NoSecondAnswer(kv.events) ==>
        forall x :: x in Waits(old(batchTimestamps.Contents), ts) ==> IsAnswered(x)
    {
      ghost var all := Waits(batchTimestamps.Contents, ts);
      returned := Poll(ts);
      if returned && NoSecondAnswer(kv.events) {
        forall x | x in all ensures IsAnswered(x) { kv.CompleteIsAnswered(x); }
      }
    }

    method Poll(ts: int) returns (returned: bool)
      requires Valid() && 0 <= ts < |kv.tracker|
      modifies batchTimestamps, batchTimestamps.index, batchTimestamps.pairs
      ensures Valid() && returned == AllComplete(kv.tracker, Waits(old(batchTimestamps.Contents), ts))
      ensures batchTimestamps.Contents ==
        if returned then old(batchTimestamps.Contents) - {ts} else old(batchTimestamps.Contents)
    {
      if !Complete(kv.tracker[ts]) { return false; }
      var v := batchTimestamps.TryGet(ts);
      if v.Some? {
        assert BatchOk(v.value, ts, |kv.tracker|);
        var all := WaitForAll(v.value);
        if !all { return false; }
        var count := batchTimestamps.Erase(ts);
      }
      return true;
    }

    // The other timestamps of a batch.
    method WaitForAll(batch: seq<int>) returns (all: bool)
      requires forall i :: 0 <= i < |batch| ==> 0 <= batch[i] < |kv.tracker|
      ensures all == AllComplete(kv.tracker, batch)
    {
      for i := 0 to |batch|
        invariant forall j :: 0 <= j < i ==> Complete(kv.tracker[batch[j]])
      {
        if !Complete(kv.tracker[batch[i]]) {
          assert batch[i] in batch;
          return false;
        }
      }
      all := true;
    }

    // Every server has answered this timestamp, and the answers have been handled.
    ghost predicate IsAnswered(ts: int)
      reads this, kv
    {
      0 <= ts < |kv.w.history| && AllAnswered(kv.w.servers, kv.w.history[ts])
    }

    // Waiting for a batch that was stamped, against servers that run the batch
    // protocol: a returned wait means that every push and every pull of the batch is
    // answered by every server, and the wait returns when the batch has settled.
    method WaitForBatch<T(!new)>(
        ghost batch: seq<int>, startTs: int, ghost me: int, ghost runs: nat -> AfSystem.ServerRun<T>)
      returns (returned: bool)
      requires Valid() && Remembers(batch) && startTs == batch[0] && 0 <= startTs < |kv.tracker|
      requires AfSystem.AnswersComeFrom(kv.events, me, runs)
      modifies batchTimestamps, batchTimestamps.index, batchTimestamps.pairs
      ensures Valid() && (returned ==> forall x :: x in batch ==> IsAnswered(x))
      ensures (forall x :: x in batch ==> AfSystem.Settled(kv.w, kv.events, x, me, runs)) ==> returned
    {
      assert batch == [batch[0]] + batch[1..];
      AfSystem.NoSecond(kv.events, me, runs);
      if forall x :: x in batch ==> AfSystem.Settled(kv.w, kv.events, x, me, runs) {
        forall x | x in batch ensures 0 <= x < |kv.tracker| && Complete(kv.tracker[x]) {
          AfSystem.SettledIsComplete(Below(servers), kv.w, kv.events, x, me, runs);
        }
      }
      returned := Wait(startTs);
    }
  }
}
