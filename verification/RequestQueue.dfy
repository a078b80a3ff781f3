/**
  Pairing one request of every worker (comm/fserver/csrc/public.hpp).  One thread
  queues requests per worker, another takes one from every queue once a bit mask
  says that none is empty.  The parts under the lock are single steps; the look at
  the mask is a step of its own.
 */
module RequestQueue {
  import opened Prelude
  import opened WorkerMask

  datatype Request<T> = Request(senderRank: nat, push: seq<(nat, T)>, pull: seq<nat>)

  // ServerDataBatch
  datatype Batch<T> = Batch(handler: nat, tensors: seq<T>, keys: seq<nat>)

  function Keys<T>(push: seq<(nat, T)>): seq<nat> {
    seq(|push|, i requires 0 <= i < |push| => push[i].0)
  }

  function Tensors<T>(push: seq<(nat, T)>): seq<T> {
    seq(|push|, i requires 0 <= i < |push| => push[i].1)
  }

  // The batch of the h-th request.
  function BatchOf<T>(h: nat, r: Request<T>): Batch<T> {
    Batch(h, Tensors(r.push), Keys(r.push))
  }

  // Worker i's requests, in the order in which they came.
  ghost function ArrivedFrom<T>(log: seq<Request<T>>, i: nat): seq<Batch<T>> {
    if log == [] then []
    else
      var m := |log| - 1;
      ArrivedFrom(log[..m], i) + if log[m].senderRank == i then [BatchOf(m, log[m])] else []
  }

  lemma OneMore<T>(log: seq<Request<T>>, r: Request<T>, i: nat)
    ensures ArrivedFrom(log + [r], i) == ArrivedFrom(log, i) + if r.senderRank == i then [BatchOf(|log|, r)] else []
  {
    assert (log + [r])[..|log|] == log;
  }

  // Key by key, a batch holds the pushed tensors of a request.
  ghost predicate Holds<T>(b: Batch<T>, r: Request<T>) {
    && |b.keys| == |b.tensors| == |r.push|
    && forall j :: 0 <= j < |r.push| ==> (b.keys[j], b.tensors[j]) == r.push[j]
  }

  // Each arrived batch is from worker i and holds what the request with its handler
  // has pushed.
  lemma {:induction false} ArrivedIsLogged<T>(log: seq<Request<T>>, i: nat, k: nat)
    requires k < |ArrivedFrom(log, i)|
    ensures var b := ArrivedFrom(log, i)[k];
      b.handler < |log| && log[b.handler].senderRank == i && Holds(b, log[b.handler])
  {
    var m := |log| - 1;
    if k < |ArrivedFrom(log[..m], i)| {
      ArrivedIsLogged(log[..m], i, k);
    }
  }

  // What is queued for worker i once `taken` rounds have been taken.
  ghost predicate QueueOk<T>(log: seq<Request<T>>, taken: nat, queue: seq<Batch<T>>, i: nat) {
    taken <= |ArrivedFrom(log, i)| && queue == ArrivedFrom(log, i)[taken..]
  }

  // The k-th result: the k-th request of every worker.
  ghost predicate IsRound<T>(log: seq<Request<T>>, n: nat, k: nat, round: seq<Batch<T>>) {
    |round| == n && forall i :: 0 <= i < n ==> k < |ArrivedFrom(log, i)| && round[i] == ArrivedFrom(log, i)[k]
  }

  lemma RoundStays<T>(log: seq<Request<T>>, r: Request<T>, n: nat, k: nat, round: seq<Batch<T>>)
    requires IsRound(log, n, k, round)
    ensures IsRound(log + [r], n, k, round)
  {
    forall i | 0 <= i < n ensures k < |ArrivedFrom(log + [r], i)| && round[i] == ArrivedFrom(log + [r], i)[k] {
      OneMore(log, r, i);
    }
  }

  // meta_map_ has every request under its handler.
  ghost predicate Remembers<T>(metaMap: map<nat, Request<T>>, log: seq<Request<T>>) {
    (forall h :: h in metaMap <==> 0 <= h < |log|) && forall h :: 0 <= h < |log| ==> metaMap[h] == log[h]
  }

  lemma RemembersMore<T>(metaMap: map<nat, Request<T>>, log: seq<Request<T>>, r: Request<T>)
    requires Remembers(metaMap, log)
    ensures Remembers(metaMap[|log| := r], log + [r])
  {
  }

  ghost predicate QueuesOk<T>(log: seq<Request<T>>, taken: nat, queues: seq<seq<Batch<T>>>) {
    forall i {:trigger QueueOk(log, taken, queues[i], i)} :: 0 <= i < |queues| ==> QueueOk(log, taken, queues[i], i)
  }

  ghost predicate RoundsOk<T>(log: seq<Request<T>>, n: nat, rounds: seq<seq<Batch<T>>>) {
    forall k {:trigger IsRound(log, n, k, rounds[k])} :: 0 <= k < |rounds| ==> IsRound(log, n, k, rounds[k])
  }

  // Queues, results and remembered requests are those of the log.
  ghost predicate Pairing<T>(
      log: seq<Request<T>>, queues: seq<seq<Batch<T>>>, rounds: seq<seq<Batch<T>>>, metaMap: map<nat, Request<T>>) {
    QueuesOk(log, |rounds|, queues) && RoundsOk(log, |queues|, rounds) && Remembers(metaMap, log)
  }

  ghost predicate NoneEmpty<T>(queues: seq<seq<Batch<T>>>) {
    forall i :: 0 <= i < |queues| ==> queues[i] != []
  }

  // The workers with queued requests.
  ghost function Busy<T>(queues: seq<seq<Batch<T>>>): set<nat> {
    set i: nat | i < |queues| && queues[i] != []
  }

  // The loop over the pushed tensors.
  method Unzip<T>(push: seq<(nat, T)>) returns (tensors: seq<T>, keys: seq<nat>)
    ensures tensors == Tensors(push) && keys == Keys(push)
  {
    tensors, keys := [], [];
    for i := 0 to |push|
      invariant |tensors| == |keys| == i
      invariant forall j :: 0 <= j < i ==> tensors[j] == push[j].1 && keys[j] == push[j].0
    {
      tensors, keys := tensors + [push[i].1], keys + [push[i].0];
    }
  }

  datatype Event<T> = Handle(request: Request<T>) | Look | Take

  class Server<T> {
    const numWorkers: nat
    var queues: seq<seq<Batch<T>>>
    var workerMask: Mask
    var signal: Mask
    var metaMap: map<nat, Request<T>>
    var handlerCounter: nat
    // the taking thread has seen the full mask
    var ready: bool
    ghost var log: seq<Request<T>>
    ghost var rounds: seq<seq<Batch<T>>>

    // Bit i of the signal is set exactly when queue i is not empty.
    ghost predicate Valid()
      reads this
    {
      && numWorkers <= 30 && FullFor(workerMask, numWorkers)
      && |queues| == numWorkers && handlerCounter == |log|
      && Pairing(log, queues, rounds, metaMap)
      && Marks(signal, Busy(queues)) && (ready ==> NoneEmpty(queues))
    }

    constructor (numWorkers: nat)
      requires numWorkers <= 30
      ensures Valid() && this.numWorkers == numWorkers && log == [] && rounds == [] && !ready
    {
      this.numWorkers := numWorkers;
      var full := MaskFor(numWorkers);
      var none := Nothing();
      workerMask, signal := full, none;
      queues, metaMap, handlerCounter, ready := seq(numWorkers, _ => []), map[], 0, false;
      log, rounds := [], [];
      new;
      assert Busy(queues) == {};
    }

    // The producer.
    method RequestHandler(r: Request<T>)
      requires Valid() && r.senderRank < numWorkers
      modifies this
      ensures Valid() && log == old(log) + [r] && rounds == old(rounds) && ready == old(ready)
    {
      ghost var before, known := queues, metaMap;
      var tensors, keys := Unzip(r.push);
      metaMap := metaMap[handlerCounter := r];
      Enqueue(r.senderRank, Batch(handlerCounter, tensors, keys));
      PairingMore(log, r, before, queues, rounds, known);
      handlerCounter, log := handlerCounter + 1, log + [r];
    }

    method Enqueue(rank: nat, b: Batch<T>)
      requires rank < |queues| <= 30 && Marks(signal, Busy(queues))
      modifies this`queues, this`signal
      ensures queues == old(queues)[rank := old(queues)[rank] + [b]] && Marks(signal, Busy(queues))
    {
      BusyMore(queues, rank, b);
      signal := FetchOr(signal, rank, Busy(queues));
      queues := queues[rank := queues[rank] + [b]];
    }

    // The spin loop looks at the mask.
    method Look()
      requires Valid()
      modifies this`ready
      ensures Valid() && (ready <==> old(ready) || NoneEmpty(queues))
    {
      if signal == workerMask { ready := true; }
      AllBusy(queues);
      FullMarks(workerMask, numWorkers);
      if signal == workerMask {
        MarksUnique(signal, Busy(queues), Below(numWorkers));
      } else if Busy(queues) == Below(numWorkers) {
        SameMarks(signal, workerMask, Below(numWorkers));
      }
    }

    // One request of every worker: none of the queues is empty, the result is the
    // next request of each, and the mask is right again.
    method GetBatch() returns (res: seq<Batch<T>>)
      requires Valid() && ready
      modifies this
      ensures Valid() && !ready && log == old(log) && rounds == old(rounds) + [res]
    {
      ghost var before := queues;
      res := PopFronts();
      TakenRound(log, before, |rounds|, res, queues);
      rounds := rounds + [res];
    }

    method PopFronts() returns (res: seq<Batch<T>>)
      requires numWorkers <= 30 && FullFor(workerMask, numWorkers)
      requires |queues| == numWorkers && NoneEmpty(queues)
      modifies this`queues, this`signal, this`ready
      ensures !ready && |res| == |queues| == numWorkers && Marks(signal, Busy(queues))
      ensures forall i :: 0 <= i < numWorkers ==> res[i] == old(queues)[i][0] && queues[i] == old(queues)[i][1..]
    {
      res := [];
      ghost var start := queues;
      var newMask := workerMask;
      AllBusy(queues);
      FullMarks(workerMask, numWorkers);
      for i := 0 to numWorkers
        invariant Popped(start, queues, res, i) && Marks(newMask, Busy(queues))
      {
        PopNext(start, queues, res, i);
        ghost var before := queues;
        res := res + [queues[i][0]];
        queues := queues[i := queues[i][1..]];
        newMask := AndNot(newMask, queues[i] == [], i, Busy(before));
        BusyLess(before, i);
      }
      signal, ready := newMask, false;
    }

    // The reply goes to the request that the handler stands for.
    method Respond(tensors: seq<T>, handler: nat) returns (reply: Option<(Request<T>, seq<(nat, T)>)>)
      requires Valid()
      ensures reply.Some? <==> handler < |log| && |tensors| == |log[handler].pull|
      ensures reply.Some? ==>
        reply.value.0 == log[handler] && Keys(reply.value.1) == log[handler].pull && Tensors(reply.value.1) == tensors
    {
      if handler !in metaMap { return None; }
      var r := metaMap[handler];
      if |tensors| != |r.pull| { return None; }
      var result: seq<(nat, T)> := [];
      for i := 0 to |tensors|
        invariant |result| == i && forall j :: 0 <= j < i ==> result[j] == (r.pull[j], tensors[j])
      {
        result := result + [(r.pull[i], tensors[i])];
      }
      return Some((r, result));
    }

    // Any interleaving of the two threads.
    method Run(events: seq<Event<T>>)
      requires Valid()
      requires forall i :: 0 <= i < |events| ==> events[i].Handle? ==> events[i].request.senderRank < numWorkers
      modifies this
      ensures Valid() && old(log) <= log && old(rounds) <= rounds
    {
      for i := 0 to |events|
        invariant Valid() && old(log) <= log && old(rounds) <= rounds
      {
        match events[i]
        case Handle(r) => RequestHandler(r);
        case Look => Look();
        case Take => if ready { var _ := GetBatch(); }
      }
    }
  }

  // The fronts of the first i queues have been taken.
  ghost predicate Popped<T>(start: seq<seq<Batch<T>>>, queues: seq<seq<Batch<T>>>, res: seq<Batch<T>>, i: nat) {
    && |res| == i <= |queues| == |start| && NoneEmpty(start)
    && (forall j :: 0 <= j < i ==> res[j] == start[j][0] && queues[j] == start[j][1..])
    && (forall j :: i <= j < |queues| ==> queues[j] == start[j])
  }

  lemma PopNext<T>(start: seq<seq<Batch<T>>>, queues: seq<seq<Batch<T>>>, res: seq<Batch<T>>, i: nat)
    requires Popped(start, queues, res, i) && i < |queues|
    ensures queues[i] != [] && Popped(start, queues[i := queues[i][1..]], res + [queues[i][0]], i + 1)
  {
  }

  lemma BusyMore<T>(queues: seq<seq<Batch<T>>>, i: nat, b: Batch<T>)
    requires i < |queues|
    ensures Busy(queues[i := queues[i] + [b]]) == Busy(queues) + {i}
  {
  }

  lemma BusyLess<T>(queues: seq<seq<Batch<T>>>, i: nat)
    requires i < |queues| && queues[i] != []
    ensures Busy(queues[i := queues[i][1..]]) == if queues[i][1..] == [] then Busy(queues) - {i} else Busy(queues)
  {
  }

  lemma AllBusy<T>(queues: seq<seq<Batch<T>>>)
    ensures Busy(queues) == Below(|queues|) <==> NoneEmpty(queues)
  {
    if Busy(queues) == Below(|queues|) {
      forall i | 0 <= i < |queues| ensures queues[i] != [] { assert i in Below(|queues|); }
    }
  }

  lemma PairingMore<T>(log: seq<Request<T>>, r: Request<T>, before: seq<seq<Batch<T>>>, after: seq<seq<Batch<T>>>,
                       rounds: seq<seq<Batch<T>>>, metaMap: map<nat, Request<T>>)
    requires r.senderRank < |before| && after == before[r.senderRank := before[r.senderRank] + [BatchOf(|log|, r)]]
    requires Pairing(log, before, rounds, metaMap)
    ensures Pairing(log + [r], after, rounds, metaMap[|log| := r]) && (NoneEmpty(before) ==> NoneEmpty(after))
  {
    forall i: nat | i < |after| ensures QueueOk(log + [r], |rounds|, after[i], i) {
      assert QueueOk(log, |rounds|, before[i], i);
      QueueMore(log, r, |rounds|, before[i], after[i], i);
    }
    RoundsStay(log, r, |before|, rounds);
    RemembersMore(metaMap, log, r);
  }

  lemma QueueMore<T>(
      log: seq<Request<T>>, r: Request<T>, taken: nat, before: seq<Batch<T>>, after: seq<Batch<T>>, i: nat)
    requires QueueOk(log, taken, before, i)
      && after == if r.senderRank == i then before + [BatchOf(|log|, r)] else before
    ensures QueueOk(log + [r], taken, after, i)
  {
    OneMore(log, r, i);
  }

  lemma RoundsStay<T>(log: seq<Request<T>>, r: Request<T>, n: nat, rounds: seq<seq<Batch<T>>>)
    requires RoundsOk(log, n, rounds)
    ensures RoundsOk(log + [r], n, rounds)
  {
    forall k | 0 <= k < |rounds| ensures IsRound(log + [r], n, k, rounds[k]) {
      RoundStays(log, r, n, k, rounds[k]);
    }
  }

  lemma TakenRound<T>(
      log: seq<Request<T>>, before: seq<seq<Batch<T>>>, k: nat, res: seq<Batch<T>>, after: seq<seq<Batch<T>>>)
    requires |before| == |res| == |after| && QueuesOk(log, k, before) && NoneEmpty(before)
    requires forall i :: 0 <= i < |before| ==> res[i] == before[i][0] && after[i] == before[i][1..]
    ensures IsRound(log, |before|, k, res) && QueuesOk(log, k + 1, after)
  {
    var k' := k + 1;
    forall i | 0 <= i < |before|
      ensures QueueOk(log, k', after[i], i) && k < |ArrivedFrom(log, i)| && res[i] == ArrivedFrom(log, i)[k]
    {
      assert QueueOk(log, k, before[i], i);
    }
  }
}
